/**
 * The flag table and the lookups of `ModelWithFlag` and `FlagBase`
 * (siteflags/models.py). The database is the sequence `rows` of a `Table`;
 * `set_flag` and `remove_flag` change it, the other lookups only read it.
 */
module FlagStore {
  import opened Wrappers
  import opened Flags
  import opened Filters
  import opened Recency
  import opened OrderedDicts
  import opened Grouping

  /** What the table always satisfies: unique keys, and every flag belongs to a saved user. */
  ghost predicate TableInvariant(rows: seq<Flag>)
  {
    && Unique(rows)
    && forall f :: f in rows ==> f.userId != 0
  }

  // ---------------------------------------------------------------------------
  // get_flags and is_flagged

  /** The filter `get_flags`, `is_flagged` and `remove_flag` apply to one object. */
  function ObjectFilter(target: Target, user: Option<nat>, status: Option<int>): FilterDict
  {
    ComposedFilter(ObjectIs(target.contentType, target.objectId), user, status)
  }

  /** `obj.get_flags(user, status)`: the flags on `target` the user and status admit, in table order. */
  function GetFlags(rows: seq<Flag>, target: Target, user: Option<nat>, status: Option<int>): (r: seq<Flag>)
    ensures forall f :: f in r <==> f in rows && TargetOf(f) == target && Admits(user, status, f)
  {
    var d := ObjectFilter(target, user, status);
    QueryMembers(rows, d);
    assert forall f :: Matches(d, f) <==> TargetOf(f) == target && Admits(user, status, f) by {
      forall f {
        ComposedFilterMeaning(ObjectIs(target.contentType, target.objectId), user, status, f);
      }
    }
    Query(rows, d)
  }

  /** `obj.is_flagged(user, status)`: how many flags `get_flags` would return. */
  function IsFlagged(rows: seq<Flag>, target: Target, user: Option<nat>, status: Option<int>): (n: nat)
    ensures n <= |rows|
    ensures n > 0 <==> exists f :: f in rows && TargetOf(f) == target && Admits(user, status, f)
  {
    var r := GetFlags(rows, target, user, status);
    assert r != [] ==> r[0] in r;
    |r|
  }

  /** An object nobody has flagged is not flagged, whatever the user and status. */
  lemma FreshObjectNotFlagged(rows: seq<Flag>, target: Target, user: Option<nat>, status: Option<int>)
    requires forall f :: f in rows ==> TargetOf(f) != target
    ensures IsFlagged(rows, target, user, status) == 0
  {
  }

  /** With a saved user and a status, the table's unique keys leave at most one flag to find. */
  lemma {:induction false} AtMostOneFlagPerKey(rows: seq<Flag>, target: Target, userId: nat, s: int)
    requires Unique(rows) && userId != 0
    ensures IsFlagged(rows, target, Some(userId), Some(s)) <= 1
  {
    var d := ObjectFilter(target, Some(userId), Some(s));
    FilterOneKeyAtMostOne(rows, f => Matches(d, f), FlagKey(target.contentType, target.objectId, userId, Some(s)));
  }

  // ---------------------------------------------------------------------------
  // set_flag

  /** The record `set_flag` builds: an absent note is empty and an absent status is NULL. */
  function NewFlag(target: Target, userId: nat, note: Option<string>, status: Option<int>, now: nat): Flag
  {
    Flag(target.contentType, target.objectId, userId, status, if note.Some? then note.value else "", now)
  }

  /**
   * What `obj.set_flag(user, note, status)` returns: nothing for an unsaved
   * user, nothing when a flag with the same (content type, object, user, status)
   * exists (the model's duplicate rule refuses the row), and otherwise the new flag.
   */
  function SetFlagOutcome(rows: seq<Flag>, target: Target, userId: nat, note: Option<string>, status: Option<int>, now: nat): (r: Option<Flag>)
    ensures r.None? <==> userId == 0 || HasKey(rows, FlagKey(target.contentType, target.objectId, userId, status))
    ensures r.Some? ==> TargetOf(r.value) == target && r.value.userId == userId && r.value.status == status
    ensures r.Some? ==> r.value.note == (if note.Some? then note.value else "") && r.value.timeCreated == now
  {
    if userId == 0 then None
    else
      var f := NewFlag(target, userId, note, status, now);
      if HasKey(rows, KeyOf(f)) then None else Some(f)
  }

  /** The table after `set_flag`: one row more when a flag was returned, unchanged otherwise. */
  function AfterSetFlag(rows: seq<Flag>, target: Target, userId: nat, note: Option<string>, status: Option<int>, now: nat): seq<Flag>
  {
    match SetFlagOutcome(rows, target, userId, note, status, now)
    case None => rows
    case Some(f) => rows + [f]
  }

  lemma SetFlagKeepsInvariant(rows: seq<Flag>, target: Target, userId: nat, note: Option<string>, status: Option<int>, now: nat)
    requires TableInvariant(rows)
    ensures TableInvariant(AfterSetFlag(rows, target, userId, note, status, now))
  {
  }

  /** Under the duplicate rule, flagging twice in a row leaves one flag: the second call finds the first and returns nothing. */
  lemma SetFlagIdempotent(rows: seq<Flag>, target: Target, userId: nat, note: Option<string>, note2: Option<string>, status: Option<int>, now: nat, now2: nat)
    ensures
      var once := AfterSetFlag(rows, target, userId, note, status, now);
      && SetFlagOutcome(once, target, userId, note2, status, now2) == None
      && AfterSetFlag(once, target, userId, note2, status, now2) == once
  {
    var k := FlagKey(target.contentType, target.objectId, userId, status);
    var once := AfterSetFlag(rows, target, userId, note, status, now);
    if userId != 0 {
      if HasKey(rows, k) {
        assert once == rows;
      } else {
        var f := NewFlag(target, userId, note, status, now);
        assert once[|rows|] == f;
      }
      assert HasKey(once, k);
    }
  }

  /**
   * After a saved user flags an object, the object is flagged for that user and
   * status; asked with a status, exactly one flag is found.
   */
  lemma {:induction false} SetThenFlagged(rows: seq<Flag>, target: Target, userId: nat, note: Option<string>, status: Option<int>, now: nat)
    requires TableInvariant(rows) && userId != 0
    ensures IsFlagged(AfterSetFlag(rows, target, userId, note, status, now), target, Some(userId), status) >= 1
    ensures status.Some? ==> |GetFlags(AfterSetFlag(rows, target, userId, note, status, now), target, Some(userId), status)| == 1
  {
    var k := FlagKey(target.contentType, target.objectId, userId, status);
    var after := AfterSetFlag(rows, target, userId, note, status, now);
    SetFlagKeepsInvariant(rows, target, userId, note, status, now);
    assert HasKey(after, k) by {
      if !HasKey(rows, k) {
        assert after[|rows|] == NewFlag(target, userId, note, status, now);
      }
    }
    var i :| 0 <= i < |after| && KeyOf(after[i]) == k;
    assert after[i] in after && TargetOf(after[i]) == target && Admits(Some(userId), status, after[i]);
    if status.Some? {
      AtMostOneFlagPerKey(after, target, userId, status.value);
    }
  }

  // ---------------------------------------------------------------------------
  // remove_flag

  /** The table after `obj.remove_flag(user, status)`: the rows `get_flags` would return are gone. */
  function AfterRemoveFlag(rows: seq<Flag>, target: Target, user: Option<nat>, status: Option<int>): seq<Flag>
  {
    Reject(rows, ObjectFilter(target, user, status))
  }

  /**
   * Exactly the flags on `target` that the user and status admit are deleted;
   * every other row, flags on other objects included, stays, and the number
   * deleted is what `is_flagged` counted before.
   */
  lemma RemoveFlagSpec(rows: seq<Flag>, target: Target, user: Option<nat>, status: Option<int>)
    ensures forall f :: f in AfterRemoveFlag(rows, target, user, status) <==> f in rows && !(TargetOf(f) == target && Admits(user, status, f))
    ensures |AfterRemoveFlag(rows, target, user, status)| + IsFlagged(rows, target, user, status) == |rows|
    ensures multiset(AfterRemoveFlag(rows, target, user, status)) + multiset(GetFlags(rows, target, user, status)) == multiset(rows)
  {
    var d := ObjectFilter(target, user, status);
    RejectMembers(rows, d);
    QueryRejectPartition(rows, d);
    forall f {
      ComposedFilterMeaning(ObjectIs(target.contentType, target.objectId), user, status, f);
    }
  }

  /** Right after `remove_flag`, the same `get_flags` finds nothing. */
  lemma RemoveThenNotFlagged(rows: seq<Flag>, target: Target, user: Option<nat>, status: Option<int>)
    ensures GetFlags(AfterRemoveFlag(rows, target, user, status), target, user, status) == []
  {
    var d := ObjectFilter(target, user, status);
    var after := AfterRemoveFlag(rows, target, user, status);
    RejectMembers(rows, d);
    QueryMembers(after, d);
    FilterNoneSelected(after, f => Matches(d, f));
  }

  /**
   * An unsaved user adds no condition at all, so `remove_flag` with such a user
   * deletes every flag on the object, whatever status was asked for.
   */
  lemma RemoveWithUnsavedUserClearsObject(rows: seq<Flag>, target: Target, status: Option<int>)
    ensures AfterRemoveFlag(rows, target, Some(0), status) == AfterRemoveFlag(rows, target, None, None)
    ensures forall f :: f in AfterRemoveFlag(rows, target, Some(0), status) <==> f in rows && TargetOf(f) != target
  {
    RemoveFlagSpec(rows, target, None, None);
  }

  lemma RemoveFlagKeepsInvariant(rows: seq<Flag>, target: Target, user: Option<nat>, status: Option<int>)
    requires TableInvariant(rows)
    ensures TableInvariant(AfterRemoveFlag(rows, target, user, status))
  {
    var d := ObjectFilter(target, user, status);
    FilterKeepsUnique(rows, f => !Matches(d, f));
    RejectMembers(rows, d);
  }

  // ---------------------------------------------------------------------------
  // get_flags_for_objects and get_flags_for_types

  /** The rows `get_flags_for_objects` queries: one content type, the given object ids. */
  function ObjectsQuery(rows: seq<Flag>, contentType: int, objectIds: seq<nat>, user: Option<nat>, status: Option<int>): seq<Flag>
  {
    Query(rows, ComposedFilter(ObjectIdIn(contentType, objectIds), user, status))
  }

  /** The rows `get_flags_for_types` queries, newest first. */
  function TypesQuery(rows: seq<Flag>, contentTypes: seq<int>, user: Option<nat>, status: Option<int>): seq<Flag>
  {
    OrderByNewest(Query(rows, ComposedFilter(ContentTypeIn(contentTypes), user, status)))
  }

  /** A group of the objects query holds the object's flags that the user and status admit. */
  lemma ObjectsGroupMembers(rows: seq<Flag>, contentType: int, objectIds: seq<nat>, user: Option<nat>, status: Option<int>, k: int)
    requires k in objectIds
    ensures forall f :: f in Grouped(ObjectsQuery(rows, contentType, objectIds, user, status), ByObjectId, k) <==>
      f in rows && f.contentType == contentType && f.objectId == k && Admits(user, status, f)
  {
    var d := ComposedFilter(ObjectIdIn(contentType, objectIds), user, status);
    GroupedMembers(Query(rows, d), ByObjectId, k);
    QueryMembers(rows, d);
    forall f {
      ComposedFilterMeaning(ObjectIdIn(contentType, objectIds), user, status, f);
    }
  }

  /** A group of the types query holds the type's flags that the user and status admit. */
  lemma TypesGroupMembers(rows: seq<Flag>, contentTypes: seq<int>, user: Option<nat>, status: Option<int>, t: int)
    ensures forall f :: f in Grouped(TypesQuery(rows, contentTypes, user, status), ByContentType, t) <==>
      f in rows && t in contentTypes && f.contentType == t && Admits(user, status, f)
  {
    var d := ComposedFilter(ContentTypeIn(contentTypes), user, status);
    GroupedMembers(TypesQuery(rows, contentTypes, user, status), ByContentType, t);
    OrderByNewestMembers(Query(rows, d));
    QueryMembers(rows, d);
    forall f {
      ComposedFilterMeaning(ContentTypeIn(contentTypes), user, status, f);
    }
  }

  lemma TypesGroupNonEmpty(rows: seq<Flag>, contentTypes: seq<int>, user: Option<nat>, status: Option<int>, t: int)
    ensures Grouped(TypesQuery(rows, contentTypes, user, status), ByContentType, t) != [] <==>
      t in contentTypes && exists f :: f in rows && f.contentType == t && Admits(user, status, f)
  {
    var group := Grouped(TypesQuery(rows, contentTypes, user, status), ByContentType, t);
    TypesGroupMembers(rows, contentTypes, user, status, t);
    if group != [] {
      assert group[0] in group;
    }
    if t in contentTypes && exists f :: f in rows && f.contentType == t && Admits(user, status, f) {
      var f :| f in rows && f.contentType == t && Admits(user, status, f);
      assert f in group;
    }
  }

  /** A group newest first: every group of a newest-first sequence is newest first. */
  lemma TypesGroupNewestFirst(rows: seq<Flag>, contentTypes: seq<int>, user: Option<nat>, status: Option<int>, t: int)
    ensures NewestFirst(Grouped(TypesQuery(rows, contentTypes, user, status), ByContentType, t))
  {
    var d := ComposedFilter(ContentTypeIn(contentTypes), user, status);
    OrderByNewestSpec(Query(rows, d));
    FilterKeepsNewestFirst(TypesQuery(rows, contentTypes, user, status), f => GroupKey(ByContentType, f) == t);
  }

  // ---------------------------------------------------------------------------
  // The table

  class Table {
    var rows: seq<Flag>

    ghost predicate Valid()
      reads this
    {
      TableInvariant(rows)
    }

    constructor ()
      ensures Valid() && rows == []
    {
      rows := [];
    }

    /** `obj.set_flag(user, note, status)`: insert, or return nothing for an unsaved user or a duplicate. */
    method SetFlag(target: Target, userId: nat, note: Option<string>, status: Option<int>, now: nat) returns (flag: Option<Flag>)
      requires Valid()
      modifies this
      ensures Valid()
      ensures flag == SetFlagOutcome(old(rows), target, userId, note, status, now)
      ensures rows == AfterSetFlag(old(rows), target, userId, note, status, now)
    {
      SetFlagKeepsInvariant(rows, target, userId, note, status, now);
      if userId == 0 {
        return None;
      }
      var f := NewFlag(target, userId, note, status, now);
      if HasKey(rows, KeyOf(f)) {
        // The model's duplicate rule refuses the row.
        return None;
      }
      rows := rows + [f];
      flag := Some(f);
    }

    /** `obj.remove_flag(user, status)`: a filtered bulk delete. */
    method RemoveFlag(target: Target, user: Option<nat>, status: Option<int>)
      requires Valid()
      modifies this
      ensures Valid()
      ensures rows == AfterRemoveFlag(old(rows), target, user, status)
    {
      RemoveFlagKeepsInvariant(rows, target, user, status);
      rows := Reject(rows, ObjectFilter(target, user, status));
    }

    /**
     * `FlagBase.get_flags_for_objects(objects, user, status)` for objects of
     * content type `contentType` with primary keys `pks`: every key gets an
     * entry, in input order, holding that object's matching flags (possibly
     * none); an empty input or an unsaved user gives an empty dictionary.
     */
    method GetFlagsForObjects(contentType: int, pks: seq<nat>, user: Option<nat>, status: Option<int>)
      returns (result: Dict<int, seq<Flag>>)
      ensures pks == [] || user == Some(0) ==> result == Empty()
      ensures pks != [] && user != Some(0) ==> FlagsForObjects(rows, contentType, pks, user, status, result)
    {
      result := Empty();
      if pks == [] || user == Some(0) {
        return;
      }
      var flags := Query(rows, ComposedFilter(ObjectIdIn(contentType, pks), user, status));
      var groups := GroupFlags(flags, ByObjectId);
      // Every object gets an entry: its flags, or an empty one.
      result := Reassemble(pks, groups, flags, ByObjectId, true);
      KeptKeysAllowEmpty(pks, flags, ByObjectId);
      ObjectsEntries(rows, contentType, pks, user, status, result);
    }

    /**
     * `FlagBase.get_flags_for_types(types, user, status, allow_empty)`: the
     * matching flags of the given content types, newest first, grouped by type;
     * keys follow the input order, and a type without flags gets an empty entry
     * only with `allow_empty`. An empty input or an unsaved user gives an empty
     * dictionary.
     */
    method GetFlagsForTypes(contentTypes: seq<int>, user: Option<nat>, status: Option<int>, allowEmpty: bool)
      returns (result: Dict<int, seq<Flag>>)
      ensures contentTypes == [] || user == Some(0) ==> result == Empty()
      ensures contentTypes != [] && user != Some(0) ==> FlagsForTypes(rows, contentTypes, user, status, allowEmpty, result)
    {
      result := Empty();
      if contentTypes == [] || user == Some(0) {
        return;
      }
      var flags := OrderByNewest(Query(rows, ComposedFilter(ContentTypeIn(contentTypes), user, status)));
      var groups := GroupFlags(flags, ByContentType);
      result := Reassemble(contentTypes, groups, flags, ByContentType, allowEmpty);
      TypesEntries(rows, contentTypes, user, status, allowEmpty, result);
    }
  }

  /**
   * What `get_flags_for_objects` promises for a non-empty input and a user that
   * is absent or saved: one key per input primary key, in input order; each
   * value is the object's group of the query, in query order, and holds exactly
   * that object's flags the user and status admit (none for an object without
   * flags); all the lists together hold every queried row once.
   */
  ghost predicate FlagsForObjects(rows: seq<Flag>, contentType: int, pks: seq<nat>, user: Option<nat>, status: Option<int>, result: Dict<int, seq<Flag>>)
  {
    && OrderedDicts.Valid(result)
    && (var ids: seq<int> := pks; result.keys == Dedup(ids))
    && (forall k :: k in result.entries ==>
          result.entries[k] == Grouped(ObjectsQuery(rows, contentType, pks, user, status), ByObjectId, k))
    && (forall k, f :: k in result.entries ==>
          (f in result.entries[k] <==> f in rows && f.contentType == contentType && f.objectId == k && Admits(user, status, f)))
    && TotalLength(result) == |ObjectsQuery(rows, contentType, pks, user, status)|
  }

  /**
   * What `get_flags_for_types` promises for a non-empty input and a user that
   * is absent or saved: the keys are the input types that have flags (all of
   * them with `allow_empty`), once each, in input order; each value is the
   * type's group of the newest-first query, so it is newest first and holds
   * exactly that type's flags the user and status admit; all the lists
   * together hold every queried row once.
   */
  ghost predicate FlagsForTypes(rows: seq<Flag>, contentTypes: seq<int>, user: Option<nat>, status: Option<int>, allowEmpty: bool, result: Dict<int, seq<Flag>>)
  {
    && OrderedDicts.Valid(result)
    && result.keys == Dedup(KeptKeys(contentTypes, TypesQuery(rows, contentTypes, user, status), ByContentType, allowEmpty))
    && (forall t :: t in result.entries <==>
          t in contentTypes && (allowEmpty || exists f :: f in rows && f.contentType == t && Admits(user, status, f)))
    && (forall t :: t in result.entries ==>
          result.entries[t] == Grouped(TypesQuery(rows, contentTypes, user, status), ByContentType, t))
    && (forall t, f :: t in result.entries ==>
          (f in result.entries[t] <==> f in rows && f.contentType == t && Admits(user, status, f)))
    && (forall t :: t in result.entries ==> NewestFirst(result.entries[t]))
    && TotalLength(result) == |TypesQuery(rows, contentTypes, user, status)|
  }

  /** The facts about the finished objects dictionary that follow from its keys and values. */
  lemma ObjectsEntries(rows: seq<Flag>, contentType: int, pks: seq<nat>, user: Option<nat>, status: Option<int>, result: Dict<int, seq<Flag>>)
    requires OrderedDicts.Valid(result)
    requires var ids: seq<int> := pks; result.keys == Dedup(ids)
    requires forall k :: k in result.entries ==> result.entries[k] == Grouped(ObjectsQuery(rows, contentType, pks, user, status), ByObjectId, k)
    ensures FlagsForObjects(rows, contentType, pks, user, status, result)
  {
    var ids: seq<int> := pks;
    DedupMembers(ids);
    forall k | k in result.entries
      ensures forall f :: f in result.entries[k] <==> f in rows && f.contentType == contentType && f.objectId == k && Admits(user, status, f)
    {
      ObjectsGroupMembers(rows, contentType, pks, user, status, k);
    }
    QueryMembers(rows, ComposedFilter(ObjectIdIn(contentType, pks), user, status));
    GroupedDictTotal(result, ObjectsQuery(rows, contentType, pks, user, status), ByObjectId);
  }

  /** The facts about the finished types dictionary that follow from its key order and values. */
  lemma TypesEntries(rows: seq<Flag>, contentTypes: seq<int>, user: Option<nat>, status: Option<int>, allowEmpty: bool, result: Dict<int, seq<Flag>>)
    requires OrderedDicts.Valid(result)
    requires result.keys == Dedup(KeptKeys(contentTypes, TypesQuery(rows, contentTypes, user, status), ByContentType, allowEmpty))
    requires forall t :: t in result.entries ==> result.entries[t] == Grouped(TypesQuery(rows, contentTypes, user, status), ByContentType, t)
    ensures FlagsForTypes(rows, contentTypes, user, status, allowEmpty, result)
  {
    var flags := TypesQuery(rows, contentTypes, user, status);
    DedupMembers(KeptKeys(contentTypes, flags, ByContentType, allowEmpty));
    KeptKeysMembers(contentTypes, flags, ByContentType, allowEmpty);
    forall t
      ensures t in result.entries <==>
        t in contentTypes && (allowEmpty || exists f :: f in rows && f.contentType == t && Admits(user, status, f))
      ensures t in result.entries ==> NewestFirst(result.entries[t])
      ensures t in result.entries ==>
        forall f :: f in result.entries[t] <==> f in rows && f.contentType == t && Admits(user, status, f)
    {
      TypesGroupNonEmpty(rows, contentTypes, user, status, t);
      TypesGroupMembers(rows, contentTypes, user, status, t);
      TypesGroupNewestFirst(rows, contentTypes, user, status, t);
    }
    var d := ComposedFilter(ContentTypeIn(contentTypes), user, status);
    OrderByNewestMembers(Query(rows, d));
    QueryMembers(rows, d);
    forall f | f in flags
      ensures GroupKey(ByContentType, f) in result.entries
    {
      ComposedFilterMeaning(ContentTypeIn(contentTypes), user, status, f);
      TypesGroupMembers(rows, contentTypes, user, status, f.contentType);
      assert f in Grouped(flags, ByContentType, f.contentType);
    }
    GroupedDictTotal(result, flags, ByContentType);
  }
}
