/**
 * The scenarios of siteflags/tests/test_basic.py, replayed on the
 * specification of `FlagStore` for any article and any saved, distinct users.
 */
module Scenarios {
  import opened Wrappers
  import opened Flags
  import opened Filters
  import opened OrderedDicts
  import opened Grouping
  import opened FlagStore

  predicate SavedAndDistinct(u1: nat, u2: nat, u3: nat)
  {
    u1 != 0 && u2 != 0 && u3 != 0 && u1 != u2 && u1 != u3 && u2 != u3
  }

  /** A flag on `t` by user `u` with `status`, created at `now`, without a note. */
  function On(t: Target, u: nat, status: Option<int>, now: nat): Flag
  {
    Flag(t.contentType, t.objectId, u, status, "", now)
  }

  /** The table after the six `set_flag` calls that open `test_remove_flag`. */
  function SixFlags(t: Target, u1: nat, u2: nat, u3: nat): seq<Flag>
  {
    var r1 := AfterSetFlag([], t, u1, None, Some(11), 1);
    var r2 := AfterSetFlag(r1, t, u1, None, Some(7), 2);
    var r3 := AfterSetFlag(r2, t, u1, None, Some(13), 3);
    var r4 := AfterSetFlag(r3, t, u2, None, Some(11), 4);
    var r5 := AfterSetFlag(r4, t, u2, None, Some(13), 5);
    AfterSetFlag(r5, t, u3, None, Some(11), 6)
  }

  /** The table once user 3's flag is removed. */
  function Five(t: Target, u1: nat, u2: nat): seq<Flag>
  {
    [On(t, u1, Some(11), 1), On(t, u1, Some(7), 2), On(t, u1, Some(13), 3), On(t, u2, Some(11), 4), On(t, u2, Some(13), 5)]
  }

  /** The table once user 1's flag with status 13 is removed. */
  function Four(t: Target, u1: nat, u2: nat): seq<Flag>
  {
    [On(t, u1, Some(11), 1), On(t, u1, Some(7), 2), On(t, u2, Some(11), 4), On(t, u2, Some(13), 5)]
  }

  /** The table once every flag with status 11 is removed. */
  function Two(t: Target, u1: nat, u2: nat): seq<Flag>
  {
    [On(t, u1, Some(7), 2), On(t, u2, Some(13), 5)]
  }

  /** None of the six calls is refused: each (object, user, status) key is new. */
  lemma SixFlagsRows(t: Target, u1: nat, u2: nat, u3: nat)
    requires SavedAndDistinct(u1, u2, u3)
    ensures SixFlags(t, u1, u2, u3) == Five(t, u1, u2) + [On(t, u3, Some(11), 6)]
  {
  }

  /** Selecting from a block whose elements all pass, or all fail, the predicate. */
  lemma FilterUniform(s: seq<Flag>, p: Flag -> bool, all: bool)
    requires forall f :: f in s ==> p(f) == all
    ensures Filter(s, p) == if all then s else []
  {
    if all {
      assert forall i :: 0 <= i < |s| ==> s[i] in s;
      FilterAllSelected(s, p);
    } else {
      FilterNoneSelected(s, p);
    }
  }

  /** `remove_flag` on a block of rows that all match, or all fail to match, the filter. */
  lemma RejectUniform(s: seq<Flag>, d: FilterDict, all: bool)
    requires forall f :: f in s ==> Matches(d, f) == all
    ensures Reject(s, d) == if all then [] else s
  {
    FilterUniform(s, f => !Matches(d, f), !all);
  }

  /** `remove_flag` on a table is `remove_flag` on each of its pieces. */
  lemma RejectAppend(s: seq<Flag>, u: seq<Flag>, d: FilterDict)
    ensures Reject(s + u, d) == Reject(s, d) + Reject(u, d)
  {
    FilterAppend(s, u, f => !Matches(d, f));
  }

  lemma RemoveUserThree(t: Target, u1: nat, u2: nat, u3: nat)
    requires SavedAndDistinct(u1, u2, u3)
    ensures AfterRemoveFlag(SixFlags(t, u1, u2, u3), t, Some(u3), None) == Five(t, u1, u2)
  {
    SixFlagsRows(t, u1, u2, u3);
    var d := ObjectFilter(t, Some(u3), None);
    RejectAppend(Five(t, u1, u2), [On(t, u3, Some(11), 6)], d);
    RejectUniform(Five(t, u1, u2), d, false);
    RejectUniform([On(t, u3, Some(11), 6)], d, true);
  }

  lemma RemoveUserOneStatusThirteen(t: Target, u1: nat, u2: nat)
    requires u1 != 0 && u1 != u2
    ensures AfterRemoveFlag(Five(t, u1, u2), t, Some(u1), Some(13)) == Four(t, u1, u2)
  {
    var d := ObjectFilter(t, Some(u1), Some(13));
    var ab, c, de := [On(t, u1, Some(11), 1), On(t, u1, Some(7), 2)], [On(t, u1, Some(13), 3)], [On(t, u2, Some(11), 4), On(t, u2, Some(13), 5)];
    assert Five(t, u1, u2) == ab + c + de;
    RejectAppend(ab + c, de, d);
    RejectAppend(ab, c, d);
    RejectUniform(ab, d, false);
    RejectUniform(c, d, true);
    RejectUniform(de, d, false);
  }

  lemma RemoveStatusEleven(t: Target, u1: nat, u2: nat)
    ensures AfterRemoveFlag(Four(t, u1, u2), t, None, Some(11)) == Two(t, u1, u2)
  {
    var d := ObjectFilter(t, None, Some(11));
    var a, b, c, e := [On(t, u1, Some(11), 1)], [On(t, u1, Some(7), 2)], [On(t, u2, Some(11), 4)], [On(t, u2, Some(13), 5)];
    assert Four(t, u1, u2) == a + b + c + e;
    RejectAppend(a + b + c, e, d);
    RejectAppend(a + b, c, d);
    RejectAppend(a, b, d);
    RejectUniform(a, d, true);
    RejectUniform(b, d, false);
    RejectUniform(c, d, true);
    RejectUniform(e, d, false);
  }

  /** When every row is on the object and admitted, `is_flagged` counts the whole table. */
  lemma AllAdmitted(rows: seq<Flag>, target: Target, user: Option<nat>, status: Option<int>)
    requires forall f :: f in rows ==> TargetOf(f) == target && Admits(user, status, f)
    ensures IsFlagged(rows, target, user, status) == |rows|
  {
    RemoveFlagSpec(rows, target, user, status);
    var d := ObjectFilter(target, user, status);
    forall f | f in rows
      ensures Matches(d, f)
    {
      ComposedFilterMeaning(ObjectIs(target.contentType, target.objectId), user, status, f);
    }
    RejectUniform(rows, d, true);
  }

  /** User 1 still has the flags with statuses 11 and 7 once status 13 is gone. */
  lemma UserOneKeepsTwo(t: Target, u1: nat, u2: nat)
    requires u1 != 0 && u1 != u2
    ensures IsFlagged(Four(t, u1, u2), t, Some(u1), None) == 2
  {
    var d := ObjectFilter(t, Some(u1), None);
    var ab, de := [On(t, u1, Some(11), 1), On(t, u1, Some(7), 2)], [On(t, u2, Some(11), 4), On(t, u2, Some(13), 5)];
    assert Four(t, u1, u2) == ab + de;
    RejectAppend(ab, de, d);
    RejectUniform(ab, d, true);
    RejectUniform(de, d, false);
    RemoveFlagSpec(Four(t, u1, u2), t, Some(u1), None);
  }

  lemma SixFlagged(t: Target, u1: nat, u2: nat, u3: nat)
    requires SavedAndDistinct(u1, u2, u3)
    ensures IsFlagged(SixFlags(t, u1, u2, u3), t, None, None) == 6
  {
    SixFlagsRows(t, u1, u2, u3);
    AllAdmitted(SixFlags(t, u1, u2, u3), t, None, None);
  }

  lemma FiveFlagged(t: Target, u1: nat, u2: nat, u3: nat)
    requires SavedAndDistinct(u1, u2, u3)
    ensures IsFlagged(Five(t, u1, u2), t, None, None) == 5
    ensures IsFlagged(Five(t, u1, u2), t, Some(u3), None) == 0
  {
    AllAdmitted(Five(t, u1, u2), t, None, None);
    assert forall f :: f in Five(t, u1, u2) ==> f.userId != u3;
  }

  lemma TwoFlagged(t: Target, u1: nat, u2: nat)
    ensures IsFlagged(Two(t, u1, u2), t, None, None) == 2
    ensures IsFlagged(AfterRemoveFlag(Two(t, u1, u2), t, None, None), t, None, None) == 0
  {
    AllAdmitted(Two(t, u1, u2), t, None, None);
    RemoveThenNotFlagged(Two(t, u1, u2), t, None, None);
  }

  /**
   * `test_remove_flag`: six flags; removing user 3's leaves 5 and none of user 3;
   * removing user 1's with status 13 leaves user 1 two; removing every flag with
   * status 11 leaves 2; removing all of them leaves none.
   */
  lemma RemoveFlagScenario(t: Target, u1: nat, u2: nat, u3: nat)
    requires SavedAndDistinct(u1, u2, u3)
    ensures IsFlagged(SixFlags(t, u1, u2, u3), t, None, None) == 6
    ensures AfterRemoveFlag(SixFlags(t, u1, u2, u3), t, Some(u3), None) == Five(t, u1, u2)
    ensures IsFlagged(Five(t, u1, u2), t, None, None) == 5 && IsFlagged(Five(t, u1, u2), t, Some(u3), None) == 0
    ensures AfterRemoveFlag(Five(t, u1, u2), t, Some(u1), Some(13)) == Four(t, u1, u2)
    ensures IsFlagged(Four(t, u1, u2), t, Some(u1), None) == 2
    ensures AfterRemoveFlag(Four(t, u1, u2), t, None, Some(11)) == Two(t, u1, u2)
    ensures IsFlagged(Two(t, u1, u2), t, None, None) == 2
    ensures IsFlagged(AfterRemoveFlag(Two(t, u1, u2), t, None, None), t, None, None) == 0
  {
    SixFlagged(t, u1, u2, u3);
    RemoveUserThree(t, u1, u2, u3);
    FiveFlagged(t, u1, u2, u3);
    RemoveUserOneStatusThirteen(t, u1, u2);
    UserOneKeepsTwo(t, u1, u2);
    RemoveStatusEleven(t, u1, u2);
    TwoFlagged(t, u1, u2);
  }

  /** `test_is_flagged`: after user `u1` flags `t` with status 11. */
  lemma IsFlaggedScenario(t: Target, u1: nat, u2: nat)
    requires u1 != 0 && u2 != 0 && u1 != u2
    ensures IsFlagged([], t, None, None) == 0
    ensures var rows := AfterSetFlag([], t, u1, None, Some(11), 1);
      && IsFlagged(rows, t, None, None) > 0
      && IsFlagged(rows, t, Some(u1), None) > 0
      && IsFlagged(rows, t, Some(u2), None) == 0
      && IsFlagged(rows, t, Some(u1), Some(12)) == 0
      && IsFlagged(rows, t, Some(u1), Some(11)) > 0
  {
    FreshObjectNotFlagged([], t, None, None);
    var rows := AfterSetFlag([], t, u1, None, Some(11), 1);
    assert rows == [On(t, u1, Some(11), 1)];
    assert On(t, u1, Some(11), 1) in rows;
  }

  // ---------------------------------------------------------------------------
  // get_flags

  /** `test_get_flags`: user `u1` flags `t` with statuses 1 to 4, user `u2` with status 2. */
  function StatusFlags(t: Target, u1: nat, u2: nat): seq<Flag>
  {
    var r1 := AfterSetFlag([], t, u1, None, Some(1), 1);
    var r2 := AfterSetFlag(r1, t, u1, None, Some(2), 2);
    var r3 := AfterSetFlag(r2, t, u1, None, Some(3), 3);
    var r4 := AfterSetFlag(r3, t, u1, None, Some(4), 4);
    AfterSetFlag(r4, t, u2, None, Some(2), 5)
  }

  function StatusRows(t: Target, u1: nat, u2: nat): seq<Flag>
  {
    [On(t, u1, Some(1), 1), On(t, u1, Some(2), 2), On(t, u1, Some(3), 3), On(t, u1, Some(4), 4), On(t, u2, Some(2), 5)]
  }

  /** None of the five calls is refused. */
  lemma StatusFlagsRows(t: Target, u1: nat, u2: nat)
    requires u1 != 0 && u2 != 0 && u1 != u2
    ensures StatusFlags(t, u1, u2) == StatusRows(t, u1, u2)
  {
  }

  /** `remove_flag(status=2)` would leave the three flags with other statuses. */
  lemma StatusTwoLeavesThree(t: Target, u1: nat, u2: nat)
    requires u1 != u2
    ensures |AfterRemoveFlag(StatusRows(t, u1, u2), t, None, Some(2))| == 3
  {
    var d := ObjectFilter(t, None, Some(2));
    var a, b, ce, g := [On(t, u1, Some(1), 1)], [On(t, u1, Some(2), 2)], [On(t, u1, Some(3), 3), On(t, u1, Some(4), 4)], [On(t, u2, Some(2), 5)];
    assert StatusRows(t, u1, u2) == a + b + ce + g;
    RejectAppend(a + b + ce, g, d);
    RejectAppend(a + b, ce, d);
    RejectAppend(a, b, d);
    RejectUniform(a, d, false);
    RejectUniform(b, d, true);
    RejectUniform(ce, d, false);
    RejectUniform(g, d, true);
  }

  /** `get_flags()` finds all five flags, and `get_flags(status=2)` the two with status 2. */
  lemma GetFlagsScenario(t: Target, u1: nat, u2: nat)
    requires u1 != 0 && u2 != 0 && u1 != u2
    ensures |GetFlags(StatusFlags(t, u1, u2), t, None, None)| == 5
    ensures |GetFlags(StatusFlags(t, u1, u2), t, None, Some(2))| == 2
  {
    StatusFlagsRows(t, u1, u2);
    AllAdmitted(StatusRows(t, u1, u2), t, None, None);
    StatusTwoLeavesThree(t, u1, u2);
    RemoveFlagSpec(StatusRows(t, u1, u2), t, None, Some(2));
  }

  // ---------------------------------------------------------------------------
  // get_flags_for_objects

  /**
   * `test_get_flags_for_objects`: three articles of content type `ct`; user `u1`
   * flags the first, user `u2` flags the first, and the second with status 33.
   */
  function ArticleFlags(ct: int, a1: nat, a2: nat, u1: nat, u2: nat): seq<Flag>
  {
    var r1 := AfterSetFlag([], Target(ct, a1), u1, None, None, 1);
    var r2 := AfterSetFlag(r1, Target(ct, a1), u2, None, None, 2);
    AfterSetFlag(r2, Target(ct, a2), u2, None, Some(33), 3)
  }

  /** The flags of user `u1` and of user `u2` on the first article. */
  function FirstArticleRows(ct: int, a1: nat, u1: nat, u2: nat): seq<Flag>
  {
    [On(Target(ct, a1), u1, None, 1), On(Target(ct, a1), u2, None, 2)]
  }

  /** The flag of user `u2` with status 33 on the second article. */
  function SecondArticleRows(ct: int, a2: nat, u2: nat): seq<Flag>
  {
    [On(Target(ct, a2), u2, Some(33), 3)]
  }

  /** None of the three calls is refused. */
  lemma ArticleFlagsRows(ct: int, a1: nat, a2: nat, u1: nat, u2: nat)
    requires a1 != a2 && u1 != 0 && u2 != 0 && u1 != u2
    ensures ArticleFlags(ct, a1, a2, u1, u2) == FirstArticleRows(ct, a1, u1, u2) + SecondArticleRows(ct, a2, u2)
  {
  }

  /** The sizes of the three groups of a finished `get_flags_for_objects` dictionary. */
  predicate GroupSizesAre(result: Dict<int, seq<Flag>>, a1: nat, a2: nat, a3: nat, n1: nat, n2: nat, n3: nat)
  {
    && result.keys == [a1, a2, a3]
    && a1 in result.entries && a2 in result.entries && a3 in result.entries
    && |result.entries[a1]| == n1 && |result.entries[a2]| == n2 && |result.entries[a3]| == n3
  }

  /** With three distinct articles, the dictionary has one key per article, in the order given. */
  lemma ThreeKeys(result: Dict<int, seq<Flag>>, a1: nat, a2: nat, a3: nat)
    requires a1 != a2 && a1 != a3 && a2 != a3
    requires OrderedDicts.Valid(result)
    requires var ids: seq<int> := [a1, a2, a3]; result.keys == Dedup(ids)
    ensures result.keys == [a1, a2, a3]
    ensures a1 in result.entries && a2 in result.entries && a3 in result.entries
  {
    var ids: seq<int> := [a1, a2, a3];
    assert ids[..1][..0] == [];
    assert Dedup(ids[..1]) == [a1];
    assert ids[..2][..1] == ids[..1];
    assert Dedup(ids[..2]) == [a1, a2];
    assert Dedup(ids) == ids;
  }

  /** The group of object `a` in a block whose rows all have it, or all do not. */
  lemma GroupUniform(s: seq<Flag>, a: int, all: bool)
    requires forall f :: f in s ==> (f.objectId == a) == all
    ensures Grouped(s, ByObjectId, a) == if all then s else []
  {
    FilterUniform(s, f => GroupKey(ByObjectId, f) == a, all);
  }

  /** The group of object `a` among rows split into a block that has it and one that does not. */
  lemma GroupOf(s: seq<Flag>, u: seq<Flag>, a: int, sFirst: bool)
    requires forall f :: f in s ==> (f.objectId == a) == sFirst
    requires forall f :: f in u ==> (f.objectId == a) == !sFirst
    ensures Grouped(s + u, ByObjectId, a) == if sFirst then s else u
  {
    FilterAppend(s, u, f => GroupKey(ByObjectId, f) == a);
    FilterUniform(s, f => GroupKey(ByObjectId, f) == a, sFirst);
    FilterUniform(u, f => GroupKey(ByObjectId, f) == a, !sFirst);
  }

  /** The rows a query selects when it takes one block whole and leaves the other. */
  lemma QueryBlocks(s: seq<Flag>, u: seq<Flag>, d: FilterDict, sTaken: bool, uTaken: bool)
    requires forall f :: f in s ==> Matches(d, f) == sTaken
    requires forall f :: f in u ==> Matches(d, f) == uTaken
    ensures Query(s + u, d) == (if sTaken then s else []) + (if uTaken then u else [])
  {
    FilterAppend(s, u, f => Matches(d, f));
    FilterUniform(s, f => Matches(d, f), sTaken);
    FilterUniform(u, f => Matches(d, f), uTaken);
  }

  /** Without a user or status, the groups hold 2, 1 and 0 flags. */
  lemma ObjectsScenarioAll(ct: int, a1: nat, a2: nat, a3: nat, u1: nat, u2: nat, result: Dict<int, seq<Flag>>)
    requires a1 != a2 && a1 != a3 && a2 != a3 && u1 != 0 && u2 != 0 && u1 != u2
    requires FlagsForObjects(ArticleFlags(ct, a1, a2, u1, u2), ct, [a1, a2, a3], None, None, result)
    ensures GroupSizesAre(result, a1, a2, a3, 2, 1, 0)
  {
    ArticleFlagsRows(ct, a1, a2, u1, u2);
    var first, second := FirstArticleRows(ct, a1, u1, u2), SecondArticleRows(ct, a2, u2);
    QueryBlocks(first, second, ComposedFilter(ObjectIdIn(ct, [a1, a2, a3]), None, None), true, true);
    ThreeKeys(result, a1, a2, a3);
    GroupOf(first, second, a1, true);
    GroupOf(first, second, a2, false);
    GroupOf(first + second, [], a3, false);
    assert first + second + [] == first + second;
  }

  /** With user `u1`, only the first article's group has a flag. */
  lemma ObjectsScenarioUser(ct: int, a1: nat, a2: nat, a3: nat, u1: nat, u2: nat, result: Dict<int, seq<Flag>>)
    requires a1 != a2 && a1 != a3 && a2 != a3 && u1 != 0 && u2 != 0 && u1 != u2
    requires FlagsForObjects(ArticleFlags(ct, a1, a2, u1, u2), ct, [a1, a2, a3], Some(u1), None, result)
    ensures GroupSizesAre(result, a1, a2, a3, 1, 0, 0)
  {
    ArticleFlagsRows(ct, a1, a2, u1, u2);
    var x, y := [On(Target(ct, a1), u1, None, 1)], [On(Target(ct, a1), u2, None, 2)] + SecondArticleRows(ct, a2, u2);
    assert FirstArticleRows(ct, a1, u1, u2) + SecondArticleRows(ct, a2, u2) == x + y;
    QueryBlocks(x, y, ComposedFilter(ObjectIdIn(ct, [a1, a2, a3]), Some(u1), None), true, false);
    assert ObjectsQuery(ArticleFlags(ct, a1, a2, u1, u2), ct, [a1, a2, a3], Some(u1), None) == x;
    ThreeKeys(result, a1, a2, a3);
    GroupUniform(x, a1, true);
    GroupUniform(x, a2, false);
    GroupUniform(x, a3, false);
  }

  /** With status 33, only the second article's group has a flag. */
  lemma ObjectsScenarioStatus(ct: int, a1: nat, a2: nat, a3: nat, u1: nat, u2: nat, result: Dict<int, seq<Flag>>)
    requires a1 != a2 && a1 != a3 && a2 != a3 && u1 != 0 && u2 != 0 && u1 != u2
    requires FlagsForObjects(ArticleFlags(ct, a1, a2, u1, u2), ct, [a1, a2, a3], None, Some(33), result)
    ensures GroupSizesAre(result, a1, a2, a3, 0, 1, 0)
  {
    ArticleFlagsRows(ct, a1, a2, u1, u2);
    var first, x := FirstArticleRows(ct, a1, u1, u2), SecondArticleRows(ct, a2, u2);
    QueryBlocks(first, x, ComposedFilter(ObjectIdIn(ct, [a1, a2, a3]), None, Some(33)), false, true);
    assert [] + x == x;
    assert ObjectsQuery(ArticleFlags(ct, a1, a2, u1, u2), ct, [a1, a2, a3], None, Some(33)) == x;
    ThreeKeys(result, a1, a2, a3);
    GroupUniform(x, a1, false);
    GroupUniform(x, a2, true);
    GroupUniform(x, a3, false);
  }
}
