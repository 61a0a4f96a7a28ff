/**
 * `order_by('-time_created')`: the rows of a query, newest first. The database
 * leaves the order of rows with equal timestamps open; this model keeps them in
 * table order (a stable insertion sort).
 */
module Recency {
  import opened Flags
  import opened Filters

  /** Every row is at least as new as every row after it. */
  ghost predicate NewestFirst(s: seq<Flag>)
  {
    forall i, j :: 0 <= i < j < |s| ==> s[i].timeCreated >= s[j].timeCreated
  }

  /** Puts `f` before the first row that is not newer than it. */
  function Insert(f: Flag, s: seq<Flag>): (r: seq<Flag>)
    ensures |r| == |s| + 1
  {
    if s == [] then [f]
    else if s[0].timeCreated <= f.timeCreated then [f] + s
    else [s[0]] + Insert(f, s[1..])
  }

  function OrderByNewest(s: seq<Flag>): (r: seq<Flag>)
    ensures |r| == |s|
  {
    if s == [] then [] else Insert(s[0], OrderByNewest(s[1..]))
  }

  lemma {:induction false} InsertPermutes(f: Flag, s: seq<Flag>)
    ensures multiset(Insert(f, s)) == multiset(s) + multiset{f}
  {
    if s == [] {
      assert Insert(f, s) == [f];
    } else if s[0].timeCreated <= f.timeCreated {
      assert Insert(f, s) == [f] + s;
    } else {
      InsertPermutes(f, s[1..]);
      assert Insert(f, s) == [s[0]] + Insert(f, s[1..]);
      assert s == [s[0]] + s[1..];
      assert multiset(s) == multiset{s[0]} + multiset(s[1..]);
    }
  }

  /** Putting a row in front of rows no newer than it keeps the order. */
  lemma PrependKeepsOrder(x: Flag, r: seq<Flag>)
    requires NewestFirst(r)
    requires forall k :: 0 <= k < |r| ==> r[k].timeCreated <= x.timeCreated
    ensures NewestFirst([x] + r)
  {
  }

  /** Inserting into rows no newer than a bound, a row no newer than it, stays below the bound. */
  lemma {:induction false} InsertBounded(f: Flag, s: seq<Flag>, bound: nat)
    requires f.timeCreated <= bound
    requires forall k :: 0 <= k < |s| ==> s[k].timeCreated <= bound
    ensures forall k :: 0 <= k < |Insert(f, s)| ==> Insert(f, s)[k].timeCreated <= bound
  {
    if s != [] && s[0].timeCreated > f.timeCreated {
      InsertBounded(f, s[1..], bound);
      assert Insert(f, s) == [s[0]] + Insert(f, s[1..]);
    }
  }

  lemma {:induction false} InsertKeepsOrder(f: Flag, s: seq<Flag>)
    requires NewestFirst(s)
    ensures NewestFirst(Insert(f, s))
  {
    if s == [] {
      assert Insert(f, s) == [f];
    } else if s[0].timeCreated <= f.timeCreated {
      PrependKeepsOrder(f, s);
    } else {
      var t := s[1..];
      assert NewestFirst(t) by {
        forall i, j | 0 <= i < j < |t|
          ensures t[i].timeCreated >= t[j].timeCreated
        {
          assert t[i] == s[i + 1] && t[j] == s[j + 1];
        }
      }
      InsertKeepsOrder(f, t);
      assert forall k :: 0 <= k < |t| ==> t[k] == s[k + 1];
      InsertBounded(f, t, s[0].timeCreated);
      PrependKeepsOrder(s[0], Insert(f, t));
    }
  }

  /** The ordered query is sorted newest first and holds exactly the queried rows. */
  lemma {:induction false} OrderByNewestSpec(s: seq<Flag>)
    ensures NewestFirst(OrderByNewest(s))
    ensures multiset(OrderByNewest(s)) == multiset(s)
  {
    if s != [] {
      OrderByNewestSpec(s[1..]);
      InsertKeepsOrder(s[0], OrderByNewest(s[1..]));
      InsertPermutes(s[0], OrderByNewest(s[1..]));
      assert s == [s[0]] + s[1..];
    }
  }

  lemma OrderByNewestMembers(s: seq<Flag>)
    ensures forall x :: x in OrderByNewest(s) <==> x in s
  {
    OrderByNewestSpec(s);
    forall x
      ensures x in OrderByNewest(s) <==> x in s
    {
      assert x in OrderByNewest(s) <==> x in multiset(OrderByNewest(s));
      assert x in s <==> x in multiset(s);
    }
  }

  /** Selecting rows from a newest-first sequence keeps it newest first. */
  lemma {:induction false} FilterKeepsNewestFirst(s: seq<Flag>, p: Flag -> bool)
    requires NewestFirst(s)
    ensures NewestFirst(Filter(s, p))
  {
    if s != [] {
      var n := |s| - 1;
      FilterKeepsNewestFirst(s[..n], p);
      FilterMembers(s[..n], p);
      var r := Filter(s[..n], p);
      forall x | x in r
        ensures x.timeCreated >= s[n].timeCreated
      {
        var j :| 0 <= j < n && s[..n][j] == x;
      }
    }
  }
}
