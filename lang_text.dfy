/**
 * A per-language text field, `{ [languageCode: string]: string }`.
 * A JavaScript object keeps its keys in insertion order, which the
 * application observes through `Object.values(...)[0]` and
 * `Object.entries(...)`, so the map is an ordered list of entries with
 * distinct codes rather than an unordered `map`.
 */
module LangText {
  import opened Base

  /** An object with string keys and values of type `V`, in key-insertion order. */
  type Assoc<V> = seq<(string, V)>

  type LangMap = Assoc<string>

  predicate UniqueKeys<V>(m: Assoc<V>) {
    forall i, j :: 0 <= i < j < |m| ==> m[i].0 != m[j].0
  }

  /** `m[k]`, `undefined` when `k` is not a key. */
  function Lookup<V>(m: Assoc<V>, k: string): (r: Option<V>)
    ensures r.None? <==> forall i :: 0 <= i < |m| ==> m[i].0 != k
    ensures r.Some? ==> exists i :: 0 <= i < |m| && m[i] == (k, r.value)
  {
    if m == [] then None
    else if m[0].0 == k then Some(m[0].1)
    else Lookup(m[1..], k)
  }

  /** With distinct keys, the entry at position `i` is what a lookup of its key finds. */
  lemma {:induction false} LookupAt<V>(m: Assoc<V>, i: nat)
    requires UniqueKeys(m) && i < |m|
    ensures Lookup(m, m[i].0) == Some(m[i].1)
  {
    if i > 0 {
      assert m[0].0 != m[i].0;
      assert m[1..][i - 1] == m[i];
      LookupAt(m[1..], i - 1);
    }
  }

  /** A lookup in a map with one more entry at the end. */
  lemma {:induction false} LookupSnoc<V>(m: Assoc<V>, k: string, v: V, key: string)
    ensures Lookup(m + [(k, v)], key) ==
      if Lookup(m, key).Some? then Lookup(m, key) else if k == key then Some(v) else None
  {
    if m != [] {
      assert (m + [(k, v)])[1..] == m[1..] + [(k, v)];
      LookupSnoc(m[1..], k, v, key);
    }
  }

  /** JavaScript's `{ ...m, [k]: v }`: an existing key keeps its place, a new one goes last. */
  function Set<V>(m: Assoc<V>, k: string, v: V): (r: Assoc<V>)
    ensures Lookup(r, k) == Some(v)
    ensures forall k' :: k' != k ==> Lookup(r, k') == Lookup(m, k')
    ensures Lookup(m, k).None? ==> r == m + [(k, v)]
    ensures Lookup(m, k).Some? ==> |r| == |m|
    ensures forall i :: 0 <= i < |m| ==> r[i].0 == m[i].0
  {
    if m == [] then [(k, v)]
    else if m[0].0 == k then [(k, v)] + m[1..]
    else
      var r := [m[0]] + Set(m[1..], k, v);
      assert m == [m[0]] + m[1..];
      assert r[1..] == Set(m[1..], k, v);
      r
  }

  /** Setting a key never introduces a duplicate key. */
  lemma {:induction false} SetKeepsUniqueKeys<V>(m: Assoc<V>, k: string, v: V)
    requires UniqueKeys(m)
    ensures UniqueKeys(Set(m, k, v))
  {
    var r := Set(m, k, v);
    if Lookup(m, k).None? {
      assert r == m + [(k, v)];
    } else {
      assert |r| == |m|;
      assert forall i :: 0 <= i < |r| ==> r[i].0 == m[i].0;
    }
  }

  /** A later assignment of the same key overrides an earlier one. */
  lemma {:induction false} SetSetSameKey<V>(m: Assoc<V>, k: string, v1: V, v2: V)
    ensures Set(Set(m, k, v1), k, v2) == Set(m, k, v2)
  {
    if m != [] && m[0].0 != k {
      SetSetSameKey(m[1..], k, v1, v2);
      assert Set(m, k, v1)[1..] == Set(m[1..], k, v1);
    }
  }

  /** The values of `m`, `Object.values(m)`. */
  function Values<V>(m: Assoc<V>): (vs: seq<V>)
    ensures |vs| == |m| && forall i :: 0 <= i < |m| ==> vs[i] == m[i].1
  {
    if m == [] then [] else [m[0].1] + Values(m[1..])
  }

  /** The language codes of `m`, `Object.keys(m)`. */
  function Keys<V>(m: Assoc<V>): (ks: seq<string>)
    ensures |ks| == |m| && forall i :: 0 <= i < |m| ==> ks[i] == m[i].0
  {
    if m == [] then [] else [m[0].0] + Keys(m[1..])
  }
}
