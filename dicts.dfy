/** Python's `dict`, which remembers insertion order: iteration over the pattern
    table, over a token mapping, and `dict.update` all follow that order, and
    the guard's results depend on it. A dict is its entries in insertion order;
    a well-formed one has distinct keys. */
module Dicts {
  import opened Wrappers

  type Dict<K, V> = seq<(K, V)>

  function Keys<K, V>(d: Dict<K, V>): (ks: seq<K>)
    ensures |ks| == |d|
    ensures forall i :: 0 <= i < |d| ==> ks[i] == d[i].0
  {
    seq(|d|, i requires 0 <= i < |d| => d[i].0)
  }

  predicate DistinctKeys<K(==), V>(d: Dict<K, V>) {
    forall i, j :: 0 <= i < j < |d| ==> d[i].0 != d[j].0
  }

  /** Position of the entry for `k`, if there is one. */
  function IndexOf<K(==), V>(d: Dict<K, V>, k: K): (r: Option<nat>)
    ensures r.None? <==> k !in Keys(d)
    ensures r.Some? ==> r.value < |d| && d[r.value].0 == k
    ensures r.Some? ==> forall j :: 0 <= j < r.value ==> d[j].0 != k
  {
    if d == [] then None
    else if d[0].0 == k then Some(0)
    else
      match IndexOf(d[1..], k)
      case None => None
      case Some(i) => Some(i + 1)
  }

  /** `d.get(k)` */
  function Get<K(==), V>(d: Dict<K, V>, k: K): (r: Option<V>)
    ensures r.None? <==> k !in Keys(d)
    ensures r.Some? ==> exists i :: 0 <= i < |d| && d[i] == (k, r.value)
  {
    match IndexOf(d, k)
    case None => None
    case Some(i) => Some(d[i].1)
  }

  /** In a well-formed dict the entry at a key's position is the one `Get` finds. */
  lemma GetAt<K, V>(d: Dict<K, V>, i: nat)
    requires DistinctKeys(d) && i < |d|
    ensures Get(d, d[i].0) == Some(d[i].1)
  {
    IndexOfFirst(d, d[i].0, i);
  }

  /** `d[k] = v`: overwrite the value in place if `k` is present (keeping its
      position), append a new entry otherwise. */
  function Put<K(==,!new), V>(d: Dict<K, V>, k: K, v: V): (r: Dict<K, V>)
    ensures DistinctKeys(d) ==> DistinctKeys(r)
    ensures Get(r, k) == Some(v)
    ensures forall k' :: k' != k ==> Get(r, k') == Get(d, k')
    ensures Keys(r) == if k in Keys(d) then Keys(d) else Keys(d) + [k]
  {
    match IndexOf(d, k)
    case Some(i) =>
      var r := d[i := (k, v)];
      assert Keys(r) == Keys(d);
      assert IndexOf(r, k) == Some(i) by { IndexOfFirst(r, k, i); }
      forall k' | k' != k ensures Get(r, k') == Get(d, k') {
        SameKeysAway(d, r, k', i);
      }
      r
    case None =>
      var r := d + [(k, v)];
      assert Keys(r) == Keys(d) + [k];
      assert IndexOf(r, k) == Some(|d|) by { IndexOfFirst(r, k, |d|); }
      forall k' | k' != k ensures Get(r, k') == Get(d, k') {
        AppendAway(d, k, v, k');
      }
      r
  }

  lemma IndexOfFirst<K, V>(d: Dict<K, V>, k: K, i: nat)
    requires i < |d| && d[i].0 == k
    requires forall j :: 0 <= j < i ==> d[j].0 != k
    ensures IndexOf(d, k) == Some(i)
  {
    if i > 0 {
      IndexOfFirst(d[1..], k, i - 1);
    }
  }

  lemma SameKeysAway<K, V>(d: Dict<K, V>, r: Dict<K, V>, k': K, i: nat)
    requires |r| == |d| && i < |d| && r[i].0 == d[i].0 != k'
    requires forall j :: 0 <= j < |d| && j != i ==> r[j] == d[j]
    ensures Get(r, k') == Get(d, k')
  {
    if d != [] && i > 0 && d[0].0 != k' {
      SameKeysAway(d[1..], r[1..], k', i - 1);
    } else if d != [] && i == 0 {
      assert r[1..] == d[1..];
    }
  }

  lemma AppendAway<K, V>(d: Dict<K, V>, k: K, v: V, k': K)
    requires k' != k
    ensures Get(d + [(k, v)], k') == Get(d, k')
  {
    if d != [] {
      assert (d + [(k, v)])[1..] == d[1..] + [(k, v)];
      AppendAway(d[1..], k, v, k');
    }
  }

  /** `if k not in d: d[k] = v` (the first write wins). */
  function PutIfAbsent<K(==,!new), V>(d: Dict<K, V>, k: K, v: V): (r: Dict<K, V>)
    ensures k in Keys(d) ==> r == d
    ensures k !in Keys(d) ==> r == Put(d, k, v)
  {
    if k in Keys(d) then d else Put(d, k, v)
  }

  /** `d.update(e)`: put every entry of `e`, in `e`'s order. */
  function Update<K(==,!new), V>(d: Dict<K, V>, e: Dict<K, V>): (r: Dict<K, V>)
    ensures DistinctKeys(d) ==> DistinctKeys(r)
    decreases |e|
  {
    if e == [] then d else Update(Put(d, e[0].0, e[0].1), e[1..])
  }

  /** A lookup in a non-empty dict either hits its first entry or looks in the rest. */
  lemma GetCons<K, V>(e: Dict<K, V>, k: K)
    requires e != []
    ensures Get(e, k) == if e[0].0 == k then Some(e[0].1) else Get(e[1..], k)
    ensures k in Keys(e) <==> k == e[0].0 || k in Keys(e[1..])
  {
    assert Keys(e) == [e[0].0] + Keys(e[1..]);
  }

  lemma DistinctTail<K, V>(e: Dict<K, V>)
    requires e != [] && DistinctKeys(e)
    ensures DistinctKeys(e[1..]) && e[0].0 !in Keys(e[1..])
  {
    forall j | 0 <= j < |e[1..]| ensures Keys(e[1..])[j] != e[0].0 {
      assert e[1..][j] == e[j + 1];
    }
  }

  /** After `d.update(e)` a key holds `e`'s value if `e` has it, else `d`'s. */
  lemma {:induction false} UpdateGet<K(!new), V>(d: Dict<K, V>, e: Dict<K, V>, k: K)
    requires DistinctKeys(e)
    ensures Get(Update(d, e), k) == if k in Keys(e) then Get(e, k) else Get(d, k)
    decreases |e|
  {
    if e != [] {
      var d' := Put(d, e[0].0, e[0].1);
      DistinctTail(e);
      GetCons(e, k);
      UpdateGet(d', e[1..], k);
    }
  }

  /** The entries of `d` whose key satisfies `keep`, in order. */
  function Filter<K, V>(d: Dict<K, V>, keep: K -> bool): (r: Dict<K, V>)
    ensures |r| <= |d|
    ensures forall x :: x in r ==> x in d && keep(x.0)
  {
    if d == [] then []
    else if keep(d[0].0) then [d[0]] + Filter(d[1..], keep)
    else Filter(d[1..], keep)
  }

  /** Filtering keeps exactly the lookups of the kept keys. */
  lemma {:induction false} FilterGet<K, V>(d: Dict<K, V>, keep: K -> bool, k: K)
    ensures Get(Filter(d, keep), k) == if keep(k) then Get(d, k) else None
  {
    if d != [] {
      FilterGet(d[1..], keep, k);
      GetCons(d, k);
      var f := Filter(d, keep);
      if keep(d[0].0) {
        assert f == [d[0]] + Filter(d[1..], keep);
        assert f[0] == d[0] && f[1..] == Filter(d[1..], keep);
        GetCons(f, k);
      } else {
        assert f == Filter(d[1..], keep);
      }
    }
  }

  lemma {:induction false} FilterAppend<K, V>(a: Dict<K, V>, b: Dict<K, V>, keep: K -> bool)
    ensures Filter(a + b, keep) == Filter(a, keep) + Filter(b, keep)
  {
    if a == [] {
      assert a + b == b;
    } else {
      assert (a + b)[0] == a[0] && (a + b)[1..] == a[1..] + b;
      FilterAppend(a[1..], b, keep);
    }
  }

  /** Filtering one more entry of a well-formed dict puts it, when kept, as
      a new key at the end. */
  lemma FilterSnoc<K(!new), V>(d: Dict<K, V>, i: nat, keep: K -> bool)
    requires DistinctKeys(d) && i < |d|
    ensures Filter(d[..i + 1], keep)
         == if keep(d[i].0) then Put(Filter(d[..i], keep), d[i].0, d[i].1) else Filter(d[..i], keep)
  {
    var f := Filter(d[..i], keep);
    FilterAppend(d[..i], [d[i]], keep);
    assert d[..i + 1] == d[..i] + [d[i]];
    assert Filter([d[i]], keep) == if keep(d[i].0) then [d[i]] else [];
    assert d[i].0 !in Keys(f) by {
      forall j | 0 <= j < |f| ensures f[j].0 != d[i].0 {
        assert f[j] in d[..i];
      }
    }
    assert IndexOf(f, d[i].0).None?;
    assert Put(f, d[i].0, d[i].1) == f + [d[i]];
  }

  lemma {:induction false} FilterDistinct<K, V>(d: Dict<K, V>, keep: K -> bool)
    requires DistinctKeys(d)
    ensures DistinctKeys(Filter(d, keep))
  {
    if d != [] {
      FilterDistinct(d[1..], keep);
      var t := Filter(d[1..], keep);
      forall x | x in t ensures x.0 != d[0].0 {
        var j :| 0 <= j < |d[1..]| && d[1..][j] == x;
        assert d[j + 1] == x;
      }
    }
  }
}
