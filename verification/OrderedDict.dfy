/** Insertion-ordered dictionaries: the values by key, and the keys in the order they arrived. */
module OrderedDict {

  datatype Dict<K(==), V> = Dict(order: seq<K>, at: map<K, V>)

  predicate NoDuplicates<K(==)>(s: seq<K>) { forall i, j :: 0 <= i < j < |s| ==> s[i] != s[j] }

  /** Every held key stands in the order exactly once. */
  ghost predicate Ordered<K(!new), V>(d: Dict<K, V>) {
    NoDuplicates(d.order) && forall k :: k in d.order <==> k in d.at
  }

  function Empty<K(!new), V>(): (d: Dict<K, V>)
    ensures Ordered(d) && d.order == []
  {
    Dict([], map[])
  }

  /** `d[k] = v`: in place for a key held, at the end for a new one. */
  function Put<K(!new), V>(d: Dict<K, V>, k: K, v: V): (e: Dict<K, V>)
    ensures Ordered(d) ==> Ordered(e) && |e.order| == |d.order| + (if k in d.at then 0 else 1)
  {
    Dict(if k in d.at then d.order else d.order + [k], d.at[k := v])
  }

  /** The sequence without the first occurrence of a value, the rest in order. */
  function Without<K(==)>(s: seq<K>, k: K): (t: seq<K>)
    ensures |t| == |s| - (if k in s then 1 else 0)
  {
    if s == [] then [] else if s[0] == k then s[1..] else [s[0]] + Without(s[1..], k)
  }

  lemma {:induction false} WithoutMembers<K>(s: seq<K>, k: K, q: K)
    requires NoDuplicates(s)
    ensures q in Without(s, k) <==> q in s && q != k
  {
    if s != [] && s[0] != k { WithoutMembers(s[1..], k, q); }
  }

  lemma {:induction false} WithoutDuplicates<K>(s: seq<K>, k: K)
    requires NoDuplicates(s)
    ensures NoDuplicates(Without(s, k))
  {
    if s != [] && s[0] != k {
      WithoutDuplicates(s[1..], k);
      WithoutMembers(s[1..], k, s[0]);
    }
  }

  /** `d.pop(k, None)`. */
  function Remove<K(!new), V>(d: Dict<K, V>, k: K): (e: Dict<K, V>)
    ensures Ordered(d) ==> Ordered(e) && |e.order| == |d.order| - (if k in d.at then 1 else 0)
  {
    var e := Dict(Without(d.order, k), d.at - {k});
    assert Ordered(d) ==> Ordered(e) by {
      if Ordered(d) {
        WithoutDuplicates(d.order, k);
        forall q ensures q in e.order <==> q in e.at { WithoutMembers(d.order, k, q); }
      }
    }
    e
  }
}
