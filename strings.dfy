/** The Python string and list operations the guard relies on, with Python's
    semantics: slices clamp out-of-range bounds and count negative bounds from
    the end, `str.strip` removes Unicode whitespace, `str.split(sep)` keeps
    empty fields, and `re.sub(re.escape(k), v, s)` replaces the leftmost
    non-overlapping occurrences of `k` (and, for an empty `k`, inserts `v` at
    every position). */
module PyStrings {

  // ---------------------------------------------------------------- slicing

  /** How Python normalises a slice bound `i` for a sequence of length `n`. */
  function Clamp(i: int, n: nat): (r: nat)
    ensures r <= n
    ensures 0 <= i <= n ==> r == i
    ensures i < 0 && n + i >= 0 ==> r == n + i
  {
    if i < 0 then (if n + i < 0 then 0 else n + i)
    else if i > n then n
    else i
  }

  /** `s[:i]` */
  function Take<T>(s: seq<T>, i: int): (r: seq<T>)
    ensures |r| <= |s| && r == s[..|r|]
    ensures 0 <= i <= |s| ==> r == s[..i]
    ensures i >= |s| ==> r == s
  {
    s[..Clamp(i, |s|)]
  }

  /** `s[i:]` */
  function Drop<T>(s: seq<T>, i: int): (r: seq<T>)
    ensures |r| <= |s| && r == s[|s| - |r|..]
    ensures 0 <= i <= |s| ==> r == s[i..]
    ensures i >= |s| ==> r == []
  {
    s[Clamp(i, |s|)..]
  }

  /** `s[i:j]` */
  function Slice<T>(s: seq<T>, i: int, j: int): (r: seq<T>)
    ensures 0 <= i <= j <= |s| ==> r == s[i..j]
  {
    var a, b := Clamp(i, |s|), Clamp(j, |s|);
    if a <= b then s[a..b] else []
  }

  // ------------------------------------------------------------ occurrences

  predicate OccursAt(s: string, k: string, p: int) {
    0 <= p && p + |k| <= |s| && s[p..p + |k|] == k
  }

  ghost predicate Contains(s: string, k: string) {
    exists p :: OccursAt(s, k, p)
  }

  lemma OccursInSlice(s: string, k: string, a: int, b: int, p: int)
    requires 0 <= a <= b <= |s|
    requires OccursAt(s[a..b], k, p)
    ensures OccursAt(s, k, a + p)
  {
    var t := s[a..b];
    assert p + |k| <= b - a;
    forall i | 0 <= i < |k| ensures s[a + p..a + p + |k|][i] == k[i] {
      assert t[p..p + |k|][i] == k[i];
    }
  }

  /** An occurrence in `y` is an occurrence in `x + y`, shifted by `|x|`. */
  lemma OccursShift(x: string, y: string, k: string, p: int)
    requires OccursAt(y, k, p)
    ensures OccursAt(x + y, k, |x| + p)
  {
    assert (x + y)[|x| + p..|x| + p + |k|] == y[p..p + |k|];
  }

  /** An occurrence in the middle part of `x + y + z`, shifted by `|x|`. */
  lemma OccursMiddle(x: string, y: string, z: string, k: string, p: int)
    requires OccursAt(y, k, p)
    ensures OccursAt(x + y + z, k, |x| + p)
  {
    assert (x + y + z)[|x| + p..|x| + p + |k|] == y[p..p + |k|];
  }

  /** An occurrence stays one when more text is appended. */
  lemma OccursExtend(x: string, y: string, k: string, p: int)
    requires OccursAt(x, k, p)
    ensures OccursAt(x + y, k, p)
  {
    assert (x + y)[p..p + |k|] == x[p..p + |k|];
  }

  /** Every occurrence of `k` starts with an occurrence of each prefix of `k`. */
  lemma OccursPrefix(s: string, k: string, j: nat, p: int)
    requires j <= |k|
    requires OccursAt(s, k, p)
    ensures OccursAt(s, k[..j], p)
  {
    assert s[p..p + j] == s[p..p + |k|][..j];
  }

  // ------------------------------------------------------------ replace-all

  /** `re.sub(re.escape(k), v, s)` with `v` taken literally: scan from the
      left, replace each occurrence of `k`, resume after it. */
  function ReplaceAll(s: string, k: string, v: string): string
    decreases |s|
  {
    if |k| == 0 then
      if s == [] then v else v + [s[0]] + ReplaceAll(s[1..], k, v)
    else if |s| < |k| then s
    else if s[..|k|] == k then v + ReplaceAll(s[|k|..], k, v)
    else [s[0]] + ReplaceAll(s[1..], k, v)
  }

  /** A string without an occurrence of a non-empty `k` is left as it is. */
  lemma {:induction false} ReplaceAllAbsent(s: string, k: string, v: string)
    requires |k| > 0
    requires forall p :: !OccursAt(s, k, p)
    ensures ReplaceAll(s, k, v) == s
    decreases |s|
  {
    if |s| >= |k| {
      assert !OccursAt(s, k, 0);
      forall p ensures !OccursAt(s[1..], k, p) {
        if OccursAt(s[1..], k, p) {
          assert s[1..] == s[1..|s|];
          OccursInSlice(s, k, 1, |s|, p);
        }
      }
      ReplaceAllAbsent(s[1..], k, v);
    }
  }

  /** No occurrence of `k` in `x + y` starts inside `x` and ends inside `y`. */
  predicate NoStraddle(x: string, y: string, k: string) {
    forall p :: p < |x| < p + |k| ==> !OccursAt(x + y, k, p)
  }

  /** Dropping a prefix of `x` keeps occurrences from straddling. */
  lemma NoStraddleDrop(x: string, y: string, k: string, d: nat)
    requires d <= |x|
    requires NoStraddle(x, y, k)
    ensures NoStraddle(x[d..], y, k)
  {
    var s := x + y;
    var x' := x[d..];
    assert x' + y == s[d..|s|];
    forall p | p < |x'| < p + |k| ensures !OccursAt(x' + y, k, p) {
      if OccursAt(x' + y, k, p) {
        OccursInSlice(s, k, d, |s|, p);
      }
    }
  }

  /** One step of replace-all over `x + y` where `x` begins with the key. */
  lemma ReplaceAllHit(x: string, y: string, k: string, v: string)
    requires 0 < |k| <= |x| && x[..|k|] == k
    ensures ReplaceAll(x + y, k, v) == v + ReplaceAll(x[|k|..] + y, k, v)
    ensures ReplaceAll(x, k, v) == v + ReplaceAll(x[|k|..], k, v)
  {
    var s := x + y;
    assert s[..|k|] == k;
    assert s[|k|..] == x[|k|..] + y;
  }

  /** One step of replace-all over `x + y` where the key does not start it. */
  lemma ReplaceAllMiss(x: string, y: string, k: string, v: string)
    requires 0 < |k| <= |x + y| && x != [] && (x + y)[..|k|] != k
    ensures ReplaceAll(x + y, k, v) == [x[0]] + ReplaceAll(x[1..] + y, k, v)
  {
    assert (x + y)[1..] == x[1..] + y;
  }

  /** One step of replace-all over `x` where the key does not start it. */
  lemma ReplaceAllSkip(x: string, k: string, v: string)
    requires 0 < |k| <= |x| && x[..|k|] != k
    ensures ReplaceAll(x, k, v) == [x[0]] + ReplaceAll(x[1..], k, v)
  {
  }

  /** Replace-all distributes over a concatenation that no occurrence of the
      key straddles. */
  lemma {:induction false} ReplaceAllConcat(x: string, y: string, k: string, v: string)
    requires |k| > 0
    requires NoStraddle(x, y, k)
    ensures ReplaceAll(x + y, k, v) == ReplaceAll(x, k, v) + ReplaceAll(y, k, v)
    decreases |x|, 1
  {
    if x == [] {
      assert x + y == y;
    } else if |x + y| < |k| {
      ReplaceAllShort(y, k, v);
      ReplaceAllShort(x, k, v);
      ReplaceAllShort(x + y, k, v);
    } else if (x + y)[..|k|] == k {
      ConcatHit(x, y, k, v);
    } else {
      ConcatMiss(x, y, k, v);
    }
  }

  /** The case of `ReplaceAllConcat` where the key starts `x`. */
  lemma {:induction false} ConcatHit(x: string, y: string, k: string, v: string)
    requires 0 < |k| <= |x + y| && x != [] && (x + y)[..|k|] == k
    requires NoStraddle(x, y, k)
    ensures ReplaceAll(x + y, k, v) == ReplaceAll(x, k, v) + ReplaceAll(y, k, v)
    decreases |x|, 0
  {
    assert OccursAt(x + y, k, 0);
    assert |k| <= |x|;
    assert x[..|k|] == (x + y)[..|k|];
    ReplaceAllHit(x, y, k, v);
    NoStraddleDrop(x, y, k, |k|);
    ReplaceAllConcat(x[|k|..], y, k, v);
    var a, b := ReplaceAll(x[|k|..], k, v), ReplaceAll(y, k, v);
    assert v + (a + b) == (v + a) + b;
  }

  /** The case of `ReplaceAllConcat` where the key does not start `x + y`. */
  lemma {:induction false} ConcatMiss(x: string, y: string, k: string, v: string)
    requires 0 < |k| <= |x + y| && x != [] && (x + y)[..|k|] != k
    requires NoStraddle(x, y, k)
    ensures ReplaceAll(x + y, k, v) == ReplaceAll(x, k, v) + ReplaceAll(y, k, v)
    decreases |x|, 0
  {
    ReplaceAllMiss(x, y, k, v);
    NoStraddleDrop(x, y, k, 1);
    ReplaceAllConcat(x[1..], y, k, v);
    var a, b := ReplaceAll(x[1..], k, v), ReplaceAll(y, k, v);
    assert [x[0]] + (a + b) == ([x[0]] + a) + b;
    if |x| < |k| {
      ReplaceAllShort(x[1..], k, v);
      ReplaceAllShort(x, k, v);
      assert x == [x[0]] + x[1..];
    } else {
      assert x[..|k|] == (x + y)[..|k|];
      ReplaceAllSkip(x, k, v);
    }
  }

  lemma ReplaceAllShort(s: string, k: string, v: string)
    requires |s| < |k|
    ensures ReplaceAll(s, k, v) == s
  {
  }

  // --------------------------------------------------------------- stripping

  /** The characters Python's `str.isspace` accepts. */
  predicate IsSpace(c: char) {
    c == ' ' || '\t' <= c <= '\r' || '\U{001C}' <= c <= '\U{001F}' || c == '\U{0085}' || c == '\U{00A0}'
    || c == '\U{1680}' || '\U{2000}' <= c <= '\U{200A}' || c == '\U{2028}' || c == '\U{2029}'
    || c == '\U{202F}' || c == '\U{205F}' || c == '\U{3000}'
  }

  const Whitespace: set<char> := set c: char | '\t' <= c <= '\U{3000}' && IsSpace(c)

  predicate AllIn(s: string, cs: set<char>) {
    forall i :: 0 <= i < |s| ==> s[i] in cs
  }

  /** Neither end of `s` is a character of `cs`. */
  predicate StrippedOf(s: string, cs: set<char>) {
    s == [] || (s[0] !in cs && s[|s| - 1] !in cs)
  }

  function LeadingIn(s: string, cs: set<char>): (n: nat)
    ensures n <= |s| && AllIn(s[..n], cs)
    ensures n < |s| ==> s[n] !in cs
  {
    if s == [] || s[0] !in cs then 0
    else
      var m := LeadingIn(s[1..], cs);
      assert s[..1 + m] == [s[0]] + s[1..][..m];
      1 + m
  }

  function TrailingIn(s: string, cs: set<char>): (n: nat)
    ensures n <= |s| && AllIn(s[|s| - n..], cs)
    ensures n < |s| ==> s[|s| - n - 1] !in cs
  {
    if s == [] || s[|s| - 1] !in cs then 0
    else
      var init := s[..|s| - 1];
      var m := TrailingIn(init, cs);
      var suffix := s[|s| - (1 + m)..];
      forall i | 0 <= i < |suffix| ensures suffix[i] in cs {
        if i < m {
          assert suffix[i] == init[|init| - m..][i];
        }
      }
      1 + m
  }

  /** `s` is `r` with only characters of `cs` around it. */
  predicate Surrounds(s: string, r: string, cs: set<char>, i: int) {
    0 <= i && i + |r| <= |s| && s[i..i + |r|] == r && AllIn(s[..i], cs) && AllIn(s[i + |r|..], cs)
  }

  /** `s.strip(chars)`: remove every leading and trailing character of `cs`. */
  function StripChars(s: string, cs: set<char>): string {
    var t := s[LeadingIn(s, cs)..];
    t[..|t| - TrailingIn(t, cs)]
  }

  /** What `strip` leaves: no character of `cs` at either end, only characters
      of `cs` cut away around it, and nothing at all exactly when every
      character is one of `cs`. */
  lemma StripCharsSpec(s: string, cs: set<char>)
    ensures StrippedOf(StripChars(s, cs), cs)
    ensures exists i :: Surrounds(s, StripChars(s, cs), cs, i)
    ensures AllIn(s, cs) <==> StripChars(s, cs) == []
  {
    StripEnds(s, cs);
    StripSurrounds(s, cs);
    StripEmpty(s, cs);
  }

  lemma StripEnds(s: string, cs: set<char>)
    ensures StrippedOf(StripChars(s, cs), cs)
  {
    var a := LeadingIn(s, cs);
    var t := s[a..];
    var b := TrailingIn(t, cs);
    var r := t[..|t| - b];
    assert r == StripChars(s, cs);
    if r != [] {
      assert r[0] == s[a] && a < |s|;
      assert r[|r| - 1] == t[|t| - b - 1] && b < |t|;
    }
  }

  lemma StripSurrounds(s: string, cs: set<char>)
    ensures Surrounds(s, StripChars(s, cs), cs, LeadingIn(s, cs))
  {
    var a := LeadingIn(s, cs);
    var t := s[a..];
    var b := TrailingIn(t, cs);
    var r := t[..|t| - b];
    assert r == StripChars(s, cs);
    assert s[a..a + |r|] == r;
    assert s[a + |r|..] == t[|t| - b..];
  }

  lemma StripEmpty(s: string, cs: set<char>)
    ensures AllIn(s, cs) <==> StripChars(s, cs) == []
  {
    var a := LeadingIn(s, cs);
    var t := s[a..];
    var b := TrailingIn(t, cs);
    var r := t[..|t| - b];
    assert r == StripChars(s, cs);
    if r == [] {
      if a < |s| {
        assert false;
      }
      assert s[..a] == s;
    } else {
      assert r[0] == s[a] && a < |s|;
    }
  }

  /** `s.strip()` */
  function Strip(s: string): string {
    StripChars(s, Whitespace)
  }

  // ------------------------------------------------------------ split, join

  /** `sep.join(parts)` */
  function Join(parts: seq<string>, sep: string): string {
    if parts == [] then []
    else if |parts| == 1 then parts[0]
    else parts[0] + sep + Join(parts[1..], sep)
  }

  /** `s.split(c)`: the fields between occurrences of `c`, empty ones kept. */
  function Split(s: string, c: char): (r: seq<string>)
    ensures |r| >= 1
    ensures Join(r, [c]) == s
    ensures forall i :: 0 <= i < |r| ==> c !in r[i]
  {
    if s == [] then [[]]
    else if s[0] == c then
      var t := Split(s[1..], c);
      assert [[]] + t == [[]] + t;
      assert Join([[]] + t, [c]) == [] + [c] + Join(t, [c]);
      assert s == [c] + s[1..];
      [[]] + t
    else
      var t := Split(s[1..], c);
      var r := [[s[0]] + t[0]] + t[1..];
      assert r[1..] == t[1..];
      assert forall i :: 1 <= i < |r| ==> r[i] == t[i];
      assert s == [s[0]] + s[1..];
      r
  }

  /** Splitting a field that does not contain the separator, followed by the
      separator, peels off that field. */
  lemma {:induction false} SplitAfterField(a: string, c: char, b: string)
    requires c !in a
    ensures Split(a + [c] + b, c) == [a] + Split(b, c)
    decreases |a|
  {
    if a == [] {
      assert a + [c] + b == [c] + b;
      assert ([c] + b)[1..] == b;
    } else {
      var s := a + [c] + b;
      assert s[0] == a[0] && s[1..] == a[1..] + [c] + b;
      SplitAfterField(a[1..], c, b);
      assert [a[0]] + a[1..] == a;
    }
  }

  /** Three separator-free fields joined by the separator split back apart. */
  lemma SplitThree(a: string, b: string, d: string, c: char)
    requires c !in a && c !in b && c !in d
    ensures Split(a + [c] + b + [c] + d, c) == [a, b, d]
  {
    assert a + [c] + b + [c] + d == a + [c] + (b + [c] + d);
    SplitAfterField(a, c, b + [c] + d);
    SplitAfterField(b, c, d);
    SplitField(d, c);
  }

  lemma {:induction false} SplitField(a: string, c: char)
    requires c !in a
    ensures Split(a, c) == [a]
    decreases |a|
  {
    if a != [] {
      SplitField(a[1..], c);
      assert [a[0]] + a[1..] == a;
    }
  }
}
