/** Python's `sorted(s, key=f)` and `list.sort(key=f, reverse=True)` on
    integer keys. Both are stable; `reverse=True` keeps equal elements in their
    original order, so it is the stable ascending sort on the negated key. */
module Sorting {

  predicate SortedBy<T>(s: seq<T>, key: T -> int) {
    forall i, j :: 0 <= i < j < |s| ==> key(s[i]) <= key(s[j])
  }

  /** Number of leading elements of `t` whose key is below `k`. */
  function Rank<T>(t: seq<T>, key: T -> int, k: int): (p: nat)
    ensures p <= |t|
    ensures forall i :: 0 <= i < p ==> key(t[i]) < k
    ensures p < |t| ==> key(t[p]) >= k
  {
    if t == [] || key(t[0]) >= k then 0 else 1 + Rank(t[1..], key, k)
  }

  /** Put `x` in front of every element of `t` whose key is not below its own. */
  function InsertBy<T>(x: T, t: seq<T>, key: T -> int): (r: seq<T>)
    ensures |r| == |t| + 1
  {
    var p := Rank(t, key, key(x));
    t[..p] + [x] + t[p..]
  }

  /** The stable sort: an earlier element is inserted in front of the
      equal-keyed elements that follow it. */
  function SortBy<T>(s: seq<T>, key: T -> int): (r: seq<T>)
    ensures |r| == |s|
  {
    if s == [] then [] else InsertBy(s[0], SortBy(s[1..], key), key)
  }

  lemma InsertSorted<T>(x: T, t: seq<T>, key: T -> int)
    requires SortedBy(t, key)
    ensures SortedBy(InsertBy(x, t, key), key)
  {
    var p := Rank(t, key, key(x));
    var r := InsertBy(x, t, key);
    forall i, j | 0 <= i < j < |r| ensures key(r[i]) <= key(r[j]) {
      if j > p && p < |t| {
        assert key(t[p]) <= key(t[j - 1]);
      }
    }
  }

  /** The result of the sort is ordered by the key. */
  lemma {:induction false} SortBySorted<T>(s: seq<T>, key: T -> int)
    ensures SortedBy(SortBy(s, key), key)
  {
    if s != [] {
      SortBySorted(s[1..], key);
      InsertSorted(s[0], SortBy(s[1..], key), key);
    }
  }

  lemma InsertPermutes<T>(x: T, t: seq<T>, key: T -> int)
    ensures multiset(InsertBy(x, t, key)) == multiset(t) + multiset{x}
  {
    var p := Rank(t, key, key(x));
    assert InsertBy(x, t, key) == t[..p] + [x] + t[p..];
    assert t == t[..p] + t[p..];
  }

  /** The sort neither loses nor invents elements. */
  lemma {:induction false} SortByPermutes<T>(s: seq<T>, key: T -> int)
    ensures multiset(SortBy(s, key)) == multiset(s)
  {
    if s != [] {
      SortByPermutes(s[1..], key);
      InsertPermutes(s[0], SortBy(s[1..], key), key);
      assert multiset(s) == multiset(s[1..]) + multiset{s[0]} by {
        assert s == [s[0]] + s[1..];
      }
    }
  }

  lemma SortByMembers<T>(s: seq<T>, key: T -> int, x: T)
    ensures x in SortBy(s, key) <==> x in s
  {
    SortByPermutes(s, key);
    assert x in multiset(SortBy(s, key)) <==> x in multiset(s);
  }

  /** The elements whose key is `v`, in order. */
  function WithKey<T>(s: seq<T>, key: T -> int, v: int): (r: seq<T>)
    ensures |r| <= |s|
  {
    if s == [] then []
    else if key(s[0]) == v then [s[0]] + WithKey(s[1..], key, v)
    else WithKey(s[1..], key, v)
  }

  lemma {:induction false} WithKeyConcat<T>(a: seq<T>, b: seq<T>, key: T -> int, v: int)
    ensures WithKey(a + b, key, v) == WithKey(a, key, v) + WithKey(b, key, v)
  {
    if a == [] {
      assert a + b == b;
    } else {
      assert (a + b)[0] == a[0] && (a + b)[1..] == a[1..] + b;
      WithKeyConcat(a[1..], b, key, v);
    }
  }

  lemma {:induction false} WithKeyNone<T>(a: seq<T>, key: T -> int, v: int)
    requires forall i :: 0 <= i < |a| ==> key(a[i]) < v
    ensures WithKey(a, key, v) == []
  {
    if a != [] {
      WithKeyNone(a[1..], key, v);
    }
  }

  /** Inserting `x` adds it in front of the elements with its key. */
  lemma WithKeyCons<T>(x: T, t: seq<T>, key: T -> int, v: int)
    ensures WithKey([x] + t, key, v) == (if key(x) == v then [x] else []) + WithKey(t, key, v)
  {
    assert ([x] + t)[0] == x && ([x] + t)[1..] == t;
  }

  lemma WithKeySplice<T>(before: seq<T>, x: T, after: seq<T>, key: T -> int, v: int)
    requires key(x) == v ==> forall i :: 0 <= i < |before| ==> key(before[i]) < v
    ensures WithKey(before + ([x] + after), key, v)
         == (if key(x) == v then [x] else []) + WithKey(before + after, key, v)
  {
    WithKeyConcat(before, [x] + after, key, v);
    WithKeyCons(x, after, key, v);
    WithKeyConcat(before, after, key, v);
    if key(x) == v {
      WithKeyNone(before, key, v);
    }
  }

  lemma WithKeyInsert<T>(x: T, t: seq<T>, key: T -> int, v: int)
    ensures WithKey(InsertBy(x, t, key), key, v)
         == (if key(x) == v then [x] else []) + WithKey(t, key, v)
  {
    var p := Rank(t, key, key(x));
    assert InsertBy(x, t, key) == t[..p] + ([x] + t[p..]);
    assert t == t[..p] + t[p..];
    WithKeySplice(t[..p], x, t[p..], key, v);
  }

  /** Stability: elements with equal keys keep their relative order. */
  lemma {:induction false} SortByStable<T>(s: seq<T>, key: T -> int, v: int)
    ensures WithKey(SortBy(s, key), key, v) == WithKey(s, key, v)
  {
    if s != [] {
      SortByStable(s[1..], key, v);
      WithKeyInsert(s[0], SortBy(s[1..], key), key, v);
    }
  }
}
