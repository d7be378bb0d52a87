/**
 * A Python `dict` as the bot uses it, entries kept in first-insertion order
 * (which is the order `keys()`, `values()` and `items()` iterate in), with
 * assignment to an existing key overwriting the value in place.
 */
module OrderedDict {
  import opened Text

  type Dict<K, V> = seq<(K, V)>

  predicate UniqueKeys<K(==), V>(d: Dict<K, V>) {
    forall i, j :: 0 <= i < j < |d| ==> d[i].0 != d[j].0
  }

  /** `list(d.keys())` */
  function Keys<K, V>(d: Dict<K, V>): (ks: seq<K>)
    ensures |ks| == |d|
    ensures forall i :: 0 <= i < |d| ==> ks[i] == d[i].0
  {
    seq(|d|, i requires 0 <= i < |d| => d[i].0)
  }

  /** `list(d.values())` */
  function Values<K, V>(d: Dict<K, V>): (vs: seq<V>)
    ensures |vs| == |d|
    ensures forall i :: 0 <= i < |d| ==> vs[i] == d[i].1
  {
    seq(|d|, i requires 0 <= i < |d| => d[i].1)
  }

  /** Position of the first occurrence of `x` in `s`. */
  function FirstIndex<T(==)>(s: seq<T>, x: T): (i: nat)
    requires x in s
    ensures i < |s| && s[i] == x && x !in s[..i]
  {
    if s[0] == x then 0 else (assert x in s[1..]; assert s[..1] == [s[0]]; 1 + FirstIndex(s[1..], x))
  }

  lemma FirstIndexAt<T>(s: seq<T>, x: T, j: nat)
    requires j < |s| && s[j] == x && x !in s[..j]
    ensures FirstIndex(s, x) == j
  {
  }

  /** `d[k]` when `k in d`, else `None`. */
  function Get<K(==), V>(d: Dict<K, V>, k: K): (r: Option<V>)
    ensures r.None? <==> k !in Keys(d)
    ensures r.Some? ==> 0 <= FirstIndex(Keys(d), k) < |d| && d[FirstIndex(Keys(d), k)] == (k, r.value)
  {
    if k in Keys(d) then Some(d[FirstIndex(Keys(d), k)].1) else None
  }

  /** `d[k] = v`: overwrite in place when the key exists, append otherwise. */
  function Put<K(==), V>(d: Dict<K, V>, k: K, v: V): (r: Dict<K, V>)
    ensures Keys(r) == if k in Keys(d) then Keys(d) else Keys(d) + [k]
    ensures k !in Keys(d) ==> r == d + [(k, v)]
  {
    if k in Keys(d) then
      var i := FirstIndex(Keys(d), k);
      var r := d[i := (k, v)];
      assert Keys(r) == Keys(d);
      r
    else
      var r := d + [(k, v)];
      assert Keys(r) == Keys(d) + [k];
      r
  }

  /** After `d[k] = v`, `d[k]` is `v` and every other key reads as before. */
  lemma PutGet<K, V>(d: Dict<K, V>, k: K, v: V, k': K)
    ensures Get(Put(d, k, v), k') == if k' == k then Some(v) else Get(d, k')
  {
    var r := Put(d, k, v);
    if k' in Keys(d) {
      var j := FirstIndex(Keys(d), k');
      if k !in Keys(d) {
        assert Keys(r)[..j] == Keys(d)[..j];
      }
      FirstIndexAt(Keys(r), k', j);
    }
  }

  /** Assignment keeps the keys distinct. */
  lemma PutUnique<K, V>(d: Dict<K, V>, k: K, v: V)
    requires UniqueKeys(d)
    ensures UniqueKeys(Put(d, k, v))
  {
    var r := Put(d, k, v);
    forall i, j | 0 <= i < j < |r| ensures r[i].0 != r[j].0 {
      assert r[i].0 == Keys(r)[i] && r[j].0 == Keys(r)[j];
      if j == |d| {
        assert k !in Keys(d);
        assert Keys(d)[i] in Keys(d);
      } else {
        assert Keys(r)[i] == Keys(d)[i] && Keys(r)[j] == Keys(d)[j];
      }
    }
  }

  /** The list without the first occurrence of `c` (Python's `list.remove`). */
  function RemoveFirst<T(==)>(cs: seq<T>, c: T): (r: seq<T>)
    requires c in cs
    ensures |r| == |cs| - 1
  {
    cs[..FirstIndex(cs, c)] + cs[FirstIndex(cs, c) + 1..]
  }

  lemma RemoveFirstAppended<T>(cs: seq<T>, c: T)
    requires c !in cs
    ensures RemoveFirst(cs + [c], c) == cs
  {
    FirstIndexAt(cs + [c], c, |cs|);
    assert (cs + [c])[..|cs|] == cs;
  }

  lemma RemoveFirstMultiset<T>(cs: seq<T>, c: T)
    requires c in cs
    ensures multiset(RemoveFirst(cs, c)) + multiset{c} == multiset(cs)
  {
    var i := FirstIndex(cs, c);
    assert cs == cs[..i] + [c] + cs[i + 1..];
  }
}
