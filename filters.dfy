/**
 * Query filters over the flag table: the keyword dictionaries the lookups pass
 * to the ORM, the helper `update_filter_dict` that adds the user and status
 * conditions (siteflags/models.py:288-304), and ordered selection of rows.
 */
module Filters {
  import opened Wrappers
  import opened Flags

  /** The part of a filter dictionary that fixes which objects are looked at. */
  datatype Scope =
    | ObjectIs(contentType: int, objectId: nat)          // content_type=..., object_id=...
    | ObjectIdIn(contentType: int, objectIds: seq<nat>)  // content_type=..., object_id__in=[...]
    | ContentTypeIn(contentTypes: seq<int>)             // content_type__in=[...]

  /**
   * A filter dictionary: the scope, plus the optional `user` and `status`
   * entries. `None` means the entry is absent from the dictionary.
   */
  datatype FilterDict = FilterDict(scope: Scope, user: Option<nat>, status: Option<int>)

  /** The dictionary a lookup starts from: only its scope. */
  function Base(scope: Scope): FilterDict
  {
    FilterDict(scope, None, None)
  }

  /**
   * `update_filter_dict(d, user, status)`: a user that was never saved (id 0)
   * makes it return before touching `d`, so neither a user nor a status entry is
   * added; otherwise a given user adds `user`, and a given status (0 included)
   * adds `status`. The dictionary is updated in place in the source; here the
   * updated dictionary is the result.
   */
  function UpdateFilterDict(d: FilterDict, user: Option<nat>, status: Option<int>): (r: FilterDict)
    ensures r.scope == d.scope
    ensures user == Some(0) ==> r == d
    ensures user != Some(0) && user.Some? ==> r.user == user
    ensures user != Some(0) && status.Some? ==> r.status == status
    ensures user.None? ==> r.user == d.user
    ensures status.None? ==> r.status == d.status
  {
    if user.Some? && user.value == 0 then d
    else
      var d1 := if user.Some? then d.(user := user) else d;
      if status.Some? then d1.(status := status) else d1
  }

  /** The filter every per-object lookup uses. */
  function ComposedFilter(scope: Scope, user: Option<nat>, status: Option<int>): FilterDict
  {
    UpdateFilterDict(Base(scope), user, status)
  }

  predicate InScope(scope: Scope, f: Flag)
  {
    match scope
    case ObjectIs(ct, id) => f.contentType == ct && f.objectId == id
    case ObjectIdIn(ct, ids) => f.contentType == ct && f.objectId in ids
    case ContentTypeIn(cts) => f.contentType in cts
  }

  /** The row satisfies every entry of the dictionary (the ORM's conjunction). */
  predicate Matches(d: FilterDict, f: Flag)
  {
    && InScope(d.scope, f)
    && (d.user.Some? ==> f.userId == d.user.value)
    && (d.status.Some? ==> f.status == Some(d.status.value))
  }

  /**
   * What a (user, status) pair admits, stated without dictionaries: an unsaved
   * user admits every row; a saved user admits only its own rows; a status
   * admits only rows with exactly that status, and `None` admits every status,
   * the NULL one included.
   */
  predicate Admits(user: Option<nat>, status: Option<int>, f: Flag)
  {
    if user == Some(0) then true
    else
      && (user.Some? ==> f.userId == user.value)
      && (status.Some? ==> f.status == status)
  }

  /** The composed filter is the scope together with what (user, status) admits. */
  lemma ComposedFilterMeaning(scope: Scope, user: Option<nat>, status: Option<int>, f: Flag)
    ensures Matches(ComposedFilter(scope, user, status), f) <==> InScope(scope, f) && Admits(user, status, f)
  {
  }

  /** A status of 0 is a real condition: it rejects a row whose status is NULL. */
  lemma ZeroStatusIsACondition(scope: Scope, f: Flag)
    requires InScope(scope, f) && f.status.None?
    ensures Matches(ComposedFilter(scope, None, None), f)
    ensures !Matches(ComposedFilter(scope, None, Some(0)), f)
  {
  }

  /** An unsaved user drops the status condition along with the user condition. */
  lemma UnsavedUserDropsEveryCondition(scope: Scope, status: Option<int>)
    ensures ComposedFilter(scope, Some(0), status) == Base(scope)
  {
  }

  /** The elements of `s` satisfying `p`, in their order in `s`. */
  function Filter(s: seq<Flag>, p: Flag -> bool): (r: seq<Flag>)
    ensures |r| <= |s|
  {
    if s == [] then []
    else Filter(s[..|s| - 1], p) + (if p(s[|s| - 1]) then [s[|s| - 1]] else [])
  }

  lemma {:induction false} FilterMembers(s: seq<Flag>, p: Flag -> bool)
    ensures forall x :: x in Filter(s, p) <==> x in s && p(x)
  {
    if s != [] {
      var n := |s| - 1;
      FilterMembers(s[..n], p);
      assert s == s[..n] + [s[n]];
    }
  }

  /** Selecting from two pieces one after the other is selecting from their concatenation. */
  lemma {:induction false} FilterAppend(s: seq<Flag>, t: seq<Flag>, p: Flag -> bool)
    ensures Filter(s + t, p) == Filter(s, p) + Filter(t, p)
  {
    if t == [] {
      assert s + t == s;
    } else {
      var n := |t| - 1;
      FilterAppend(s, t[..n], p);
      assert (s + t)[..|s + t| - 1] == s + t[..n];
      assert (s + t)[|s + t| - 1] == t[n];
    }
  }

  /** Splitting a sequence by a predicate and its negation loses and adds nothing. */
  lemma {:induction false} FilterPartition(s: seq<Flag>, p: Flag -> bool, q: Flag -> bool)
    requires forall x :: q(x) == !p(x)
    ensures multiset(Filter(s, p)) + multiset(Filter(s, q)) == multiset(s)
  {
    if s != [] {
      var n := |s| - 1;
      FilterPartition(s[..n], p, q);
      var x := s[n];
      assert s == s[..n] + [x];
      assert multiset(s) == multiset(s[..n]) + multiset{x};
      var a, b := Filter(s[..n], p), Filter(s[..n], q);
      if p(x) {
        assert Filter(s, p) == a + [x] && Filter(s, q) == b;
        assert multiset(a + [x]) == multiset(a) + multiset{x};
      } else {
        assert Filter(s, p) == a && Filter(s, q) == b + [x];
        assert multiset(b + [x]) == multiset(b) + multiset{x};
      }
    }
  }

  /** A selection from a table with unique keys has unique keys. */
  lemma {:induction false} FilterKeepsUnique(s: seq<Flag>, p: Flag -> bool)
    requires Unique(s)
    ensures Unique(Filter(s, p))
  {
    if s != [] {
      var n := |s| - 1;
      FilterKeepsUnique(s[..n], p);
      FilterMembers(s[..n], p);
      if p(s[n]) {
        forall i | 0 <= i < |Filter(s[..n], p)|
          ensures KeyOf(Filter(s[..n], p)[i]) != KeyOf(s[n])
        {
          var y := Filter(s[..n], p)[i];
          assert y in s[..n];
          var j :| 0 <= j < n && s[..n][j] == y;
          assert s[j] == y;
        }
        AppendFreshKeyKeepsUnique(Filter(s[..n], p), s[n]);
      }
    }
  }

  /** Nothing is selected when no element satisfies the predicate. */
  lemma {:induction false} FilterNoneSelected(s: seq<Flag>, p: Flag -> bool)
    requires forall x :: x in s ==> !p(x)
    ensures Filter(s, p) == []
  {
    if s != [] {
      var n := |s| - 1;
      assert forall x :: x in s[..n] ==> x in s;
      FilterNoneSelected(s[..n], p);
    }
  }

  /** Everything is selected when every element satisfies the predicate. */
  lemma {:induction false} FilterAllSelected(s: seq<Flag>, p: Flag -> bool)
    requires forall i :: 0 <= i < |s| ==> p(s[i])
    ensures Filter(s, p) == s
  {
    if s != [] {
      var n := |s| - 1;
      FilterAllSelected(s[..n], p);
      assert s[..n] + [s[n]] == s;
    }
  }

  /** If all selected rows share one key and the table's keys are unique, at most one row is selected. */
  lemma {:induction false} FilterOneKeyAtMostOne(s: seq<Flag>, p: Flag -> bool, k: FlagKey)
    requires Unique(s)
    requires forall x :: p(x) ==> KeyOf(x) == k
    ensures |Filter(s, p)| <= 1
  {
    if s != [] {
      var n := |s| - 1;
      assert Unique(s[..n]);
      FilterOneKeyAtMostOne(s[..n], p, k);
      if p(s[n]) {
        forall x | x in s[..n]
          ensures !p(x)
        {
          var j :| 0 <= j < n && s[..n][j] == x;
          assert KeyOf(s[j]) != KeyOf(s[n]);
        }
        FilterNoneSelected(s[..n], p);
      }
    }
  }

  /** The rows of `rows` that match `d`, in table order: `Model.objects.filter(**d)`. */
  function Query(rows: seq<Flag>, d: FilterDict): seq<Flag>
  {
    Filter(rows, f => Matches(d, f))
  }

  /** The rows of `rows` that do not match `d`, in table order. */
  function Reject(rows: seq<Flag>, d: FilterDict): seq<Flag>
  {
    Filter(rows, f => !Matches(d, f))
  }

  lemma QueryMembers(rows: seq<Flag>, d: FilterDict)
    ensures forall f :: f in Query(rows, d) <==> f in rows && Matches(d, f)
  {
    FilterMembers(rows, f => Matches(d, f));
  }

  lemma RejectMembers(rows: seq<Flag>, d: FilterDict)
    ensures forall f :: f in Reject(rows, d) <==> f in rows && !Matches(d, f)
  {
    FilterMembers(rows, f => !Matches(d, f));
  }

  lemma QueryRejectPartition(rows: seq<Flag>, d: FilterDict)
    ensures |Query(rows, d)| + |Reject(rows, d)| == |rows|
    ensures multiset(Query(rows, d)) + multiset(Reject(rows, d)) == multiset(rows)
  {
    FilterPartition(rows, f => Matches(d, f), f => !Matches(d, f));
    assert |multiset(Query(rows, d)) + multiset(Reject(rows, d))| == |multiset(rows)|;
  }
}
