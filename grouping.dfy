/**
 * The `defaultdict(list)` loops of `get_flags_for_types` and
 * `get_flags_for_objects` (siteflags/models.py:89-92, 140-143): the queried
 * rows are grouped by content type or by object id, each group keeping the
 * rows in query order.
 */
module Grouping {
  import opened Flags
  import opened Filters
  import opened OrderedDicts

  datatype GroupBy = ByContentType | ByObjectId

  function GroupKey(g: GroupBy, f: Flag): int
  {
    match g
    case ByContentType => f.contentType
    case ByObjectId => f.objectId
  }

  /** The rows of `s` whose group key is `k`, in their order in `s`. */
  function Grouped(s: seq<Flag>, g: GroupBy, k: int): seq<Flag>
  {
    Filter(s, f => GroupKey(g, f) == k)
  }

  lemma GroupedMembers(s: seq<Flag>, g: GroupBy, k: int)
    ensures forall f :: f in Grouped(s, g, k) <==> f in s && GroupKey(g, f) == k
  {
    FilterMembers(s, f => GroupKey(g, f) == k);
  }

  lemma GroupedSnoc(s: seq<Flag>, x: Flag, g: GroupBy, k: int)
    ensures Grouped(s + [x], g, k) == Grouped(s, g, k) + (if GroupKey(g, x) == k then [x] else [])
  {
  }

  /** `groups` maps each key with a non-empty group in `s` to that group, and no other key. */
  ghost predicate GroupsOf(groups: map<int, seq<Flag>>, s: seq<Flag>, g: GroupBy)
  {
    forall k :: if k in groups then groups[k] == Grouped(s, g, k) && groups[k] != [] else Grouped(s, g, k) == []
  }

  /** Appending a row to its key's list keeps the dictionary equal to the groups. */
  lemma GroupsOfSnoc(groups: map<int, seq<Flag>>, s: seq<Flag>, f: Flag, g: GroupBy)
    requires GroupsOf(groups, s, g)
    ensures
      var k := GroupKey(g, f);
      GroupsOf(groups[k := (if k in groups then groups[k] else []) + [f]], s + [f], g)
  {
  }

  /** A key's group is non-empty exactly when some row has that key. */
  lemma GroupedNonEmpty(s: seq<Flag>, g: GroupBy, k: int)
    ensures Grouped(s, g, k) != [] <==> exists f :: f in s && GroupKey(g, f) == k
  {
    GroupedMembers(s, g, k);
    if Grouped(s, g, k) != [] {
      assert Grouped(s, g, k)[0] in Grouped(s, g, k);
    }
    if exists f :: f in s && GroupKey(g, f) == k {
      var f :| f in s && GroupKey(g, f) == k;
      assert f in Grouped(s, g, k);
    }
  }

  /** The keys of a dictionary of non-empty groups are the keys that occur. */
  lemma GroupsOfKeys(groups: map<int, seq<Flag>>, s: seq<Flag>, g: GroupBy)
    requires GroupsOf(groups, s, g)
    ensures forall k :: k in groups <==> exists f :: f in s && GroupKey(g, f) == k
  {
    forall k
      ensures k in groups <==> exists f :: f in s && GroupKey(g, f) == k
    {
      GroupedNonEmpty(s, g, k);
    }
  }

  lemma GroupsOfValues(groups: map<int, seq<Flag>>, s: seq<Flag>, g: GroupBy)
    requires GroupsOf(groups, s, g)
    ensures forall k :: k in groups ==> groups[k] == Grouped(s, g, k)
    ensures forall k :: k !in groups ==> Grouped(s, g, k) == []
  {
  }

  /**
   * `for flag in flags: flags_dict[key(flag)].append(flag)`. A key is present
   * exactly when some row has it, and its list is that key's group.
   */
  method GroupFlags(flags: seq<Flag>, g: GroupBy) returns (groups: map<int, seq<Flag>>)
    ensures GroupsOf(groups, flags, g)
    ensures forall k :: k in groups <==> exists f :: f in flags && GroupKey(g, f) == k
    ensures forall k :: k in groups ==> groups[k] == Grouped(flags, g, k)
    ensures forall k :: k !in groups ==> Grouped(flags, g, k) == []
  {
    groups := map[];
    for i := 0 to |flags|
      invariant GroupsOf(groups, flags[..i], g)
    {
      var f := flags[i];
      var k := GroupKey(g, f);
      var group := if k in groups then groups[k] else [];
      assert flags[..i + 1] == flags[..i] + [f];
      GroupsOfSnoc(groups, flags[..i], f, g);
      groups := groups[k := group + [f]];
    }
    assert flags[..|flags|] == flags;
    GroupsOfKeys(groups, flags, g);
    GroupsOfValues(groups, flags, g);
  }

  /** The keys that get an entry, in input order: all with `allowEmpty`, otherwise those with a non-empty group. */
  function KeptKeys(keys: seq<int>, flags: seq<Flag>, g: GroupBy, allowEmpty: bool): seq<int>
  {
    if keys == [] then []
    else
      var k := keys[|keys| - 1];
      KeptKeys(keys[..|keys| - 1], flags, g, allowEmpty)
        + (if allowEmpty || Grouped(flags, g, k) != [] then [k] else [])
  }

  lemma {:induction false} KeptKeysMembers(keys: seq<int>, flags: seq<Flag>, g: GroupBy, allowEmpty: bool)
    ensures forall k :: k in KeptKeys(keys, flags, g, allowEmpty) <==>
      k in keys && (allowEmpty || Grouped(flags, g, k) != [])
  {
    if keys != [] {
      var n := |keys| - 1;
      KeptKeysMembers(keys[..n], flags, g, allowEmpty);
      assert keys == keys[..n] + [keys[n]];
    }
  }

  /** With `allowEmpty` every key is kept, in input order. */
  lemma {:induction false} KeptKeysAllowEmpty(keys: seq<int>, flags: seq<Flag>, g: GroupBy)
    ensures KeptKeys(keys, flags, g, true) == keys
  {
    if keys != [] {
      var n := |keys| - 1;
      KeptKeysAllowEmpty(keys[..n], flags, g);
      assert keys == keys[..n] + [keys[n]];
    }
  }

  lemma KeptKeysStep(keys: seq<int>, i: nat, flags: seq<Flag>, g: GroupBy, allowEmpty: bool)
    requires i < |keys|
    ensures KeptKeys(keys[..i + 1], flags, g, allowEmpty)
      == KeptKeys(keys[..i], flags, g, allowEmpty) + (if allowEmpty || Grouped(flags, g, keys[i]) != [] then [keys[i]] else [])
  {
    assert keys[..i + 1][..i] == keys[..i];
  }

  lemma DedupSnoc(s: seq<int>, x: int)
    ensures Dedup(s + [x]) == if x in Dedup(s) then Dedup(s) else Dedup(s) + [x]
  {
  }

  /** One iteration of `Reassemble` keeps its loop invariant. */
  lemma ReassembleStep(result: Dict<int, seq<Flag>>, kept: seq<int>, k: int, groups: map<int, seq<Flag>>, flags: seq<Flag>, g: GroupBy, allowEmpty: bool)
    requires OrderedDicts.Valid(result) && result.keys == Dedup(kept)
    requires forall j :: j in result.entries ==> result.entries[j] == Grouped(flags, g, j)
    requires GroupsOf(groups, flags, g)
    ensures
      var next := if k in groups then Put(result, k, groups[k]) else if allowEmpty then Put(result, k, []) else result;
      && OrderedDicts.Valid(next)
      && next.keys == Dedup(kept + (if allowEmpty || Grouped(flags, g, k) != [] then [k] else []))
      && forall j :: j in next.entries ==> next.entries[j] == Grouped(flags, g, j)
  {
    assert (k in groups) == (Grouped(flags, g, k) != []);
    DedupSnoc(kept, k);
    if k in groups {
      PutKeys(result, k, groups[k]);
    } else if allowEmpty {
      PutKeys(result, k, []);
    } else {
      assert kept + [] == kept;
    }
  }

  /**
   * The second loop of both lookups: for each input key in order, its group
   * when it has one, else an empty entry if `allowEmpty`, else nothing.
   * Assigning a key twice keeps its first position.
   */
  method Reassemble(keys: seq<int>, groups: map<int, seq<Flag>>, ghost flags: seq<Flag>, g: GroupBy, allowEmpty: bool)
    returns (result: Dict<int, seq<Flag>>)
    requires GroupsOf(groups, flags, g)
    ensures OrderedDicts.Valid(result)
    ensures result.keys == Dedup(KeptKeys(keys, flags, g, allowEmpty))
    ensures forall k :: k in result.entries ==> result.entries[k] == Grouped(flags, g, k)
  {
    result := Empty();
    for i := 0 to |keys|
      invariant OrderedDicts.Valid(result)
      invariant result.keys == Dedup(KeptKeys(keys[..i], flags, g, allowEmpty))
      invariant forall k :: k in result.entries ==> result.entries[k] == Grouped(flags, g, k)
    {
      var k := keys[i];
      KeptKeysStep(keys, i, flags, g, allowEmpty);
      ReassembleStep(result, KeptKeys(keys[..i], flags, g, allowEmpty), k, groups, flags, g, allowEmpty);
      if k in groups {
        result := Put(result, k, groups[k]);
      } else if allowEmpty {
        result := Put(result, k, []);
      }
    }
    assert keys[..|keys|] == keys;
  }

  /** The sum of the list lengths of a dictionary of row lists. */
  function TotalLength(d: Dict<int, seq<Flag>>): nat
  {
    SumLengths(d.keys, d.entries)
  }

  function SumLengths(ks: seq<int>, m: map<int, seq<Flag>>): nat
  {
    if ks == [] then 0
    else (if ks[0] in m then |m[ks[0]]| else 0) + SumLengths(ks[1..], m)
  }

  /** The sizes of the groups of the keys `ks`, added up. */
  function GroupSizes(s: seq<Flag>, g: GroupBy, ks: seq<int>): nat
  {
    if ks == [] then 0 else |Grouped(s, g, ks[0])| + GroupSizes(s, g, ks[1..])
  }

  lemma {:induction false} GroupSizesSnoc(s: seq<Flag>, x: Flag, g: GroupBy, ks: seq<int>)
    requires Distinct(ks)
    ensures GroupSizes(s + [x], g, ks) == GroupSizes(s, g, ks) + (if GroupKey(g, x) in ks then 1 else 0)
  {
    if ks != [] {
      GroupedSnoc(s, x, g, ks[0]);
      GroupSizesSnoc(s, x, g, ks[1..]);
      assert ks == [ks[0]] + ks[1..];
      assert GroupKey(g, x) == ks[0] ==> GroupKey(g, x) !in ks[1..];
    }
  }

  /** Groups over distinct keys that cover every row add up to the whole sequence. */
  lemma {:induction false} GroupSizesCover(s: seq<Flag>, g: GroupBy, ks: seq<int>)
    requires Distinct(ks)
    requires forall f :: f in s ==> GroupKey(g, f) in ks
    ensures GroupSizes(s, g, ks) == |s|
  {
    if s == [] {
      GroupSizesOfEmpty(g, ks);
    } else {
      var n := |s| - 1;
      assert s == s[..n] + [s[n]];
      GroupSizesCover(s[..n], g, ks);
      GroupSizesSnoc(s[..n], s[n], g, ks);
    }
  }

  lemma {:induction false} GroupSizesOfEmpty(g: GroupBy, ks: seq<int>)
    ensures GroupSizes([], g, ks) == 0
  {
    if ks != [] {
      GroupSizesOfEmpty(g, ks[1..]);
    }
  }

  lemma {:induction false} SumLengthsOfGroups(s: seq<Flag>, g: GroupBy, ks: seq<int>, m: map<int, seq<Flag>>)
    requires forall k :: k in ks ==> k in m && m[k] == Grouped(s, g, k)
    ensures SumLengths(ks, m) == GroupSizes(s, g, ks)
  {
    if ks != [] {
      SumLengthsOfGroups(s, g, ks[1..], m);
    }
  }

  /**
   * A dictionary whose keys cover every row and whose values are the groups
   * holds, over all its lists, exactly as many rows as the grouped sequence.
   */
  lemma GroupedDictTotal(d: Dict<int, seq<Flag>>, s: seq<Flag>, g: GroupBy)
    requires Valid(d)
    requires forall k :: k in d.entries ==> d.entries[k] == Grouped(s, g, k)
    requires forall f :: f in s ==> GroupKey(g, f) in d.entries
    ensures TotalLength(d) == |s|
  {
    SumLengthsOfGroups(s, g, d.keys, d.entries);
    GroupSizesCover(s, g, d.keys);
  }
}
