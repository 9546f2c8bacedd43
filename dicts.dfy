/** Python dictionaries with string keys, kept in insertion order (which is
    what `dict.items()` and a dict comprehension observe), and the plain-data
    values that the pipeline serialises with `to_dict` for inter-task transport. */
module Dicts {
  import opened Wrappers
  import opened Seqs

  /** An insertion-ordered dict: keys are distinct in every dict Python builds. */
  type Dict<V> = seq<(string, V)>

  /** `list(d.keys())`. */
  function Keys<V>(d: Dict<V>): (ks: seq<string>)
    ensures |ks| == |d|
  {
    if |d| == 0 then [] else [d[0].0] + Keys(d[1..])
  }

  /** No key occurs twice, as in every dict Python builds. */
  predicate DistinctKeys<V>(d: Dict<V>) {
    |d| == 0 || (d[0].0 !in Keys(d[1..]) && DistinctKeys(d[1..]))
  }

  lemma {:induction false} KeysAt<V>(d: Dict<V>, i: nat)
    requires i < |d|
    ensures Keys(d)[i] == d[i].0
  {
    if i > 0 { KeysAt(d[1..], i - 1); }
  }

  /** `d.get(k)`: the value stored under `k`, or None. */
  function Get<V>(d: Dict<V>, k: string): (r: Option<V>)
    ensures r.None? <==> k !in Keys(d)
  {
    if |d| == 0 then None
    else if d[0].0 == k then Some(d[0].1)
    else Get(d[1..], k)
  }

  /** Looking up in a dict whose first entry is known. */
  lemma GetCons<V>(k0: string, v0: V, rest: Dict<V>, k: string)
    ensures Get([(k0, v0)] + rest, k) == if k0 == k then Some(v0) else Get(rest, k)
  {
    assert ([(k0, v0)] + rest)[1..] == rest;
  }

  /** Looking up the key at index `i`, which no earlier entry has. */
  lemma {:induction false} GetFirstAt<V>(d: Dict<V>, i: nat)
    requires i < |d| && forall j :: 0 <= j < i ==> d[j].0 != d[i].0
    ensures Get(d, d[i].0) == Some(d[i].1)
  {
    if i > 0 {
      GetFirstAt(d[1..], i - 1);
    }
  }

  /** `d.get(k, default)`. */
  function GetOr<V>(d: Dict<V>, k: string, default: V): V {
    match Get(d, k)
    case Some(v) => v
    case None => default
  }

  /** `d[k] = v`: an existing key keeps its place, a new key goes last. */
  function Put<V>(d: Dict<V>, k: string, v: V): (r: Dict<V>)
    ensures Get(r, k) == Some(v)
    ensures forall k' :: k' != k ==> Get(r, k') == Get(d, k')
    ensures Keys(r) == if k in Keys(d) then Keys(d) else Keys(d) + [k]
  {
    if |d| == 0 then [(k, v)]
    else if d[0].0 == k then [(k, v)] + d[1..]
    else
      var rest := Put(d[1..], k, v);
      assert ([d[0]] + rest)[1..] == rest;
      [d[0]] + rest
  }

  /** `d[k] = v` keeps the keys of a dict distinct. */
  lemma {:induction false} PutDistinct<V>(d: Dict<V>, k: string, v: V)
    requires DistinctKeys(d)
    ensures DistinctKeys(Put(d, k, v))
  {
    if |d| > 0 && d[0].0 != k {
      PutDistinct(d[1..], k, v);
      var r := Put(d, k, v);
      assert r[1..] == Put(d[1..], k, v);
    }
  }

  /** Distinct keys, stated on the key list. */
  lemma {:induction false} DistinctKeysDistinct<V>(d: Dict<V>)
    requires DistinctKeys(d)
    ensures Distinct(Keys(d))
  {
    if |d| > 0 {
      DistinctKeysDistinct(d[1..]);
      var ks := Keys(d);
      assert ks == [d[0].0] + Keys(d[1..]);
      forall i, j | 0 <= i < j < |ks| ensures ks[i] != ks[j] {
        if i == 0 {
          assert ks[j] == Keys(d[1..])[j - 1];
        } else {
          assert ks[i] == Keys(d[1..])[i - 1] && ks[j] == Keys(d[1..])[j - 1];
        }
      }
    }
  }

  /** The keys of a prefix are a prefix of the keys. */
  lemma {:induction false} KeysPrefix<V>(d: Dict<V>, n: nat)
    requires n <= |d|
    ensures Keys(d[..n]) == Keys(d)[..n]
  {
    if n > 0 {
      assert d[..n][1..] == d[1..][..n - 1];
      KeysPrefix(d[1..], n - 1);
    }
  }

  /** Distinct keys stay distinct in a prefix, and the last key is not among
      the earlier ones. */
  lemma DistinctKeysLast<V>(d: Dict<V>)
    requires |d| > 0 && DistinctKeys(d)
    ensures DistinctKeys(d[..|d| - 1])
    ensures d[|d| - 1].0 !in Keys(d[..|d| - 1])
  {
    DistinctKeysDistinct(d);
    KeysPrefix(d, |d| - 1);
    KeysAt(d, |d| - 1);
    var ks := Keys(d);
    assert Keys(d[..|d| - 1]) == ks[..|d| - 1];
    DistinctByKeys(d[..|d| - 1]);
  }

  /** Distinct keys, read back from the key list. */
  lemma {:induction false} DistinctByKeys<V>(d: Dict<V>)
    requires Distinct(Keys(d))
    ensures DistinctKeys(d)
  {
    if |d| > 0 {
      var ks := Keys(d);
      assert ks == [d[0].0] + Keys(d[1..]);
      assert forall i :: 0 <= i < |d| - 1 ==> Keys(d[1..])[i] == ks[i + 1];
      DistinctByKeys(d[1..]);
      assert forall i :: 0 <= i < |d| - 1 ==> Keys(d[1..])[i] != ks[0];
    }
  }

  /** Storing a new key appends it. */
  lemma {:induction false} PutNew<V>(d: Dict<V>, k: string, v: V)
    requires k !in Keys(d)
    ensures Put(d, k, v) == d + [(k, v)]
  {
    if |d| > 0 {
      assert Keys(d) == [d[0].0] + Keys(d[1..]);
      PutNew(d[1..], k, v);
      assert d == [d[0]] + d[1..];
    }
  }

  /** A JSON-like plain value: what `to_dict` produces and `from_dict` consumes. */
  datatype Json =
    | JStr(s: string)
    | JNum(x: real)
    | JList(items: seq<Json>)
    | JObj(fields: Dict<Json>)
}
