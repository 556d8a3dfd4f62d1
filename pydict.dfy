/**
 * Python's `dict[str, V]` as its (key, value) pairs in insertion order, which
 * is the order `repr()` writes them in, with no key twice.
 */
module PyDict {

  predicate DistinctKeys<V>(d: seq<(string, V)>)
  {
    forall i, j :: 0 <= i < j < |d| ==> d[i].0 != d[j].0
  }

  type Dict<V> = d: seq<(string, V)> | DistinctKeys(d) witness []

  predicate Distinct(xs: seq<string>)
  {
    forall i, j :: 0 <= i < j < |xs| ==> xs[i] != xs[j]
  }

  /** The keys in insertion order (`list(d)`). */
  function Keys<V>(d: seq<(string, V)>): seq<string>
  {
    seq(|d|, i requires 0 <= i < |d| => d[i].0)
  }

  /** Position of key `k` in `d`, or `|d|` when `k` is not a key. */
  function KeyIndex<V>(d: seq<(string, V)>, k: string): (i: nat)
    ensures i <= |d|
    ensures i < |d| ==> d[i].0 == k
    ensures forall j :: 0 <= j < i ==> d[j].0 != k
  {
    if d == [] then 0
    else if d[0].0 == k then 0
    else 1 + KeyIndex(d[1..], k)
  }

  /**
   * `d[k] = v`: a present key keeps its place and takes the new value, a new
   * key goes last.
   */
  function Insert<V>(d: Dict<V>, k: string, v: V): (r: Dict<V>)
    ensures k in Keys(d) ==> |r| == |d|
    ensures k !in Keys(d) ==> |r| == |d| + 1 && r[|d|] == (k, v)
    ensures forall j :: 0 <= j < |d| ==> r[j] == (if d[j].0 == k then (k, v) else d[j])
  {
    var i := KeyIndex(d, k);
    if i < |d| then
      assert Keys(d)[i] == k;
      d[i := (k, v)]
    else
      assert forall j :: 0 <= j < |d| ==> Keys(d)[j] != k;
      d + [(k, v)]
  }

  /** Position of the first occurrence of `x` in `xs`. */
  function FirstIndex(xs: seq<string>, x: string): (i: nat)
    requires x in xs
    ensures i < |xs| && xs[i] == x
    ensures forall j :: 0 <= j < i ==> xs[j] != x
  {
    if xs[0] == x then 0 else 1 + FirstIndex(xs[1..], x)
  }

  /** `d` holds only keys from `ks`, each mapped to `v`. */
  ghost predicate OnlyKeysOf<V>(d: seq<(string, V)>, ks: seq<string>, v: V)
  {
    forall i :: 0 <= i < |d| ==> d[i].0 in ks && d[i].1 == v
  }

  /** Every element of `ks` is a key of `d`. */
  predicate Covers<V>(d: seq<(string, V)>, ks: seq<string>)
  {
    forall k :: k in ks ==> k in Keys(d)
  }

  /** The keys of `d` come in the order of their first occurrence in `ks`. */
  predicate InFirstOccurrenceOrder<V>(d: seq<(string, V)>, ks: seq<string>)
    requires forall i :: 0 <= i < |d| ==> d[i].0 in ks
  {
    forall i, j :: 0 <= i < j < |d| ==> FirstIndex(ks, d[i].0) < FirstIndex(ks, d[j].0)
  }

  lemma FirstIndexOfPrefix(ks: seq<string>, k: string, x: string)
    requires x in ks
    ensures FirstIndex(ks + [k], x) == FirstIndex(ks, x)
  {
    var i := FirstIndex(ks, x);
    var i' := FirstIndex(ks + [k], x);
    assert (ks + [k])[i] == x;
    assert ks[i'] == x by { if i' > i { assert false; } }
  }

  lemma InsertOnlyKeysOf<V>(d: Dict<V>, prefix: seq<string>, k: string, v: V)
    requires OnlyKeysOf(d, prefix, v)
    ensures OnlyKeysOf(Insert(d, k, v), prefix + [k], v)
  {
    var r := Insert(d, k, v);
    forall i | 0 <= i < |r| ensures r[i].0 in prefix + [k] && r[i].1 == v {
      if i < |d| && d[i].0 != k { assert r[i] == d[i] && d[i].0 in prefix; }
    }
  }

  lemma InsertCovers<V>(d: Dict<V>, prefix: seq<string>, k: string, v: V)
    requires Covers(d, prefix)
    ensures Covers(Insert(d, k, v), prefix + [k])
  {
    var r := Insert(d, k, v);
    forall x | x in prefix + [k] ensures x in Keys(r) {
      if x in Keys(d) {
        var j :| 0 <= j < |d| && Keys(d)[j] == x;
        assert Keys(r)[j] == x;
      } else {
        assert x == k;
        assert Keys(r)[|d|] == x;
      }
    }
  }

  lemma InsertInOrder<V>(d: Dict<V>, prefix: seq<string>, k: string, v: V)
    requires OnlyKeysOf(d, prefix, v) && Covers(d, prefix) && InFirstOccurrenceOrder(d, prefix)
    ensures OnlyKeysOf(Insert(d, k, v), prefix + [k], v)
    ensures InFirstOccurrenceOrder(Insert(d, k, v), prefix + [k])
  {
    InsertOnlyKeysOf(d, prefix, k, v);
    var ks := prefix + [k];
    var r := Insert(d, k, v);
    forall i | 0 <= i < |d| ensures FirstIndex(ks, r[i].0) == FirstIndex(prefix, d[i].0) {
      assert r[i].0 == d[i].0 && d[i].0 in prefix;
      FirstIndexOfPrefix(prefix, k, d[i].0);
    }
    if |r| > |d| {
      assert k !in prefix;
      assert ks[|prefix|] == k;
      assert FirstIndex(ks, r[|d|].0) == |prefix|;
    }
  }

  /** The dict comprehension `{k: v for k in ks}`. */
  function FromKeys<V>(ks: seq<string>, v: V): Dict<V>
  {
    if ks == [] then [] else Insert(FromKeys(ks[..|ks| - 1], v), ks[|ks| - 1], v)
  }

  /**
   * `{k: v for k in ks}` holds every key of `ks` once, in the order of first
   * occurrence, each mapped to `v`.
   */
  lemma {:induction false} FromKeysSpec<V>(ks: seq<string>, v: V)
    ensures OnlyKeysOf(FromKeys(ks, v), ks, v)
    ensures Covers(FromKeys(ks, v), ks)
    ensures InFirstOccurrenceOrder(FromKeys(ks, v), ks)
  {
    if ks != [] {
      var n := |ks| - 1;
      assert ks == ks[..n] + [ks[n]];
      FromKeysSpec(ks[..n], v);
      InsertInOrder(FromKeys(ks[..n], v), ks[..n], ks[n], v);
      InsertCovers(FromKeys(ks[..n], v), ks[..n], ks[n], v);
    }
  }

  /** For keys without repeats, the keys of `{k: v for k in ks}` are `ks` itself. */
  lemma {:induction false} FromKeysDistinct<V>(ks: seq<string>, v: V)
    requires Distinct(ks)
    ensures Keys(FromKeys(ks, v)) == ks
  {
    if ks != [] {
      var n := |ks| - 1;
      var d := FromKeys(ks[..n], v);
      FromKeysDistinct(ks[..n], v);
      assert ks[n] !in Keys(d) by {
        forall j | 0 <= j < n ensures ks[..n][j] != ks[n] { }
      }
      var r := Insert(d, ks[n], v);
      assert Keys(r) == Keys(d) + [ks[n]];
      assert ks == ks[..n] + [ks[n]];
    }
  }
}
