/** PHP's ordered arrays with string keys, the shape `toArray` and
    `buildNestedRelationsArray` build: pairs kept in insertion order, where
    writing an existing key overwrites it in place. */
module OrderedMaps {

  datatype Option<+T> = None | Some(value: T) {
    /** The wrapped value, or `default` when there is none. */
    function GetOr(default: T): T {
      match this
      case Some(v) => v
      case None => default
    }
  }

  /** An ordered array: (key, value) pairs in insertion order. */
  type OMap<V> = seq<(string, V)>

  function Keys<V>(m: OMap<V>): (ks: seq<string>)
    ensures |ks| == |m|
    ensures forall i :: 0 <= i < |m| ==> ks[i] == m[i].0
  {
    if m == [] then [] else [m[0].0] + Keys(m[1..])
  }

  predicate Distinct(xs: seq<string>) {
    forall i, j :: 0 <= i < j < |xs| ==> xs[i] != xs[j]
  }

  /** `$m[$k]`: the value stored under `k`, if the key is present. */
  function Lookup<V>(m: OMap<V>, k: string): (r: Option<V>)
    ensures r.Some? <==> k in Keys(m)
    ensures r.Some? ==> exists i :: 0 <= i < |m| && m[i].0 == k && m[i].1 == r.value
  {
    if m == [] then None
    else if m[0].0 == k then Some(m[0].1)
    else Lookup(m[1..], k)
  }

  /** `$m[$k] = $v`: overwrites the entry in place when `k` is present,
      appends a new entry otherwise. */
  function Put<V>(m: OMap<V>, k: string, v: V): (r: OMap<V>)
    ensures Keys(r) == if k in Keys(m) then Keys(m) else Keys(m) + [k]
    ensures Lookup(r, k) == Some(v)
    ensures forall k' :: k' != k ==> Lookup(r, k') == Lookup(m, k')
  {
    if m == [] then [(k, v)]
    else if m[0].0 == k then [(k, v)] + m[1..]
    else [m[0]] + Put(m[1..], k, v)
  }

  /** The distinct elements of `xs`, in order of first appearance. */
  function FirstOccurrences(xs: seq<string>): (d: seq<string>)
    ensures Distinct(d)
    ensures forall x :: x in d <==> x in xs
  {
    if xs == [] then []
    else
      var d := FirstOccurrences(xs[..|xs| - 1]);
      var x := xs[|xs| - 1];
      if x in d then d else d + [x]
  }

  /** Writing key `k` into a map whose keys are the first occurrences of `xs`
      leaves keys that are the first occurrences of `xs + [k]`. */
  lemma PutKeysExtend<V>(m: OMap<V>, xs: seq<string>, k: string, v: V)
    requires Keys(m) == FirstOccurrences(xs)
    ensures Keys(Put(m, k, v)) == FirstOccurrences(xs + [k])
  {
    assert (xs + [k])[..|xs|] == xs;
  }

  /** In a map with distinct keys, looking up the key of any entry finds that entry. */
  lemma {:induction false} LookupAt<V>(m: OMap<V>, i: nat)
    requires Distinct(Keys(m)) && i < |m|
    ensures Lookup(m, m[i].0) == Some(m[i].1)
  {
    if i > 0 {
      assert Keys(m)[0] != Keys(m)[i];
      assert Keys(m[1..]) == Keys(m)[1..];
      LookupAt(m[1..], i - 1);
    }
  }
}
