/**
 * Python dictionaries as the lookups build them: keys keep the order of their
 * first insertion, and assigning to a present key replaces its value in place.
 */
module OrderedDicts {

  datatype Dict<K, V> = Dict(keys: seq<K>, entries: map<K, V>)

  function Empty<K(!new), V>(): Dict<K, V>
  {
    Dict([], map[])
  }

  /** No element occurs twice. */
  ghost predicate Distinct<T>(s: seq<T>)
  {
    forall i, j :: 0 <= i < j < |s| ==> s[i] != s[j]
  }

  /** The key order lists exactly the keys of the entries, each once. */
  ghost predicate Valid<K(!new), V>(d: Dict<K, V>)
  {
    && Distinct(d.keys)
    && forall k :: k in d.entries <==> k in d.keys
  }

  /** `d[k] = v`. */
  function Put<K(!new), V>(d: Dict<K, V>, k: K, v: V): (r: Dict<K, V>)
    requires Valid(d)
    ensures Valid(r)
    ensures k in r.entries && r.entries[k] == v
    ensures forall j :: j != k ==> (j in r.entries <==> j in d.entries)
    ensures forall j :: j != k && j in d.entries ==> r.entries[j] == d.entries[j]
  {
    var ks := if k in d.entries then d.keys else d.keys + [k];
    Dict(ks, d.entries[k := v])
  }

  lemma PutKeys<K(!new), V>(d: Dict<K, V>, k: K, v: V)
    requires Valid(d)
    ensures Put(d, k, v).keys == if k in d.keys then d.keys else d.keys + [k]
  {
  }

  /** The elements of `s` in the order of their first occurrence. */
  function Dedup<T(==)>(s: seq<T>): seq<T>
  {
    if s == [] then []
    else
      var r := Dedup(s[..|s| - 1]);
      if s[|s| - 1] in r then r else r + [s[|s| - 1]]
  }

  lemma {:induction false} DedupMembers<T>(s: seq<T>)
    ensures forall x :: x in Dedup(s) <==> x in s
  {
    if s != [] {
      var n := |s| - 1;
      DedupMembers(s[..n]);
      assert s == s[..n] + [s[n]];
    }
  }

}
