/** The promise of rag_guard/masker.py: unmasking the text `mask` produced,
    with the mapping it produced, gives back the original text. It holds when
    the entities are non-empty, inside the text, hold the text of their span
    and do not overlap, when the text contains no `<RG:` of its own, when no
    kind contains an angle bracket, and when equal placeholders stand for
    equal texts (no digest collision). */
module RoundTrip {
  import opened Wrappers
  import opened PyStrings
  import opened Dicts
  import opened Sorting
  import opened Ner
  import opened Masker

  /** The text has no placeholder prefix of its own. */
  ghost predicate NoMarker(t: string) {
    forall p :: !OccursAt(t, "<RG:", p)
  }

  predicate NoAngle(s: string) {
    '<' !in s && '>' !in s
  }

  /** The shape of a placeholder: `<RG:` first, `>` last, and no other
      angle bracket. */
  predicate Shaped(k: string) {
    |k| >= 5 && k[..4] == "<RG:" && k[|k| - 1] == '>'
    && (forall i :: 0 < i < |k| ==> k[i] != '<')
    && (forall i :: 0 <= i < |k| - 1 ==> k[i] != '>')
  }

  /** A placeholder whose kind has no angle bracket has that shape. */
  lemma TokenShaped(tz: Tokenizer, kind: string, value: string)
    requires NoAngle(kind)
    ensures Shaped(Token(tz, kind, value))
  {
    var h := ShortHash(tz, kind, value);
    var tok := Token(tz, kind, value);
    assert tok == "<RG:" + kind + ":" + h + ">";
    forall i | 0 <= i < |h| ensures h[i] != '<' && h[i] != '>' {
      assert Base32Char(h[i]);
    }
    forall i | 0 < i < |tok| ensures tok[i] != '<' && (i < |tok| - 1 ==> tok[i] != '>') {
      if 4 <= i < 4 + |kind| {
        assert tok[i] == kind[i - 4];
      } else if 5 + |kind| <= i < 13 + |kind| {
        assert tok[i] == h[i - 5 - |kind|];
      }
    }
  }

  // ------------------------------------------------- the masked text, segment-wise

  /** Entities in processing order that are non-empty, end at or before `n`,
      and each end at or before the start of the one before it. */
  predicate ChainIn(D: seq<Entity>, n: int)
    decreases |D|
  {
    D == [] || (0 <= D[0].start < D[0].end <= n && ChainIn(D[1..], D[0].start))
  }

  lemma ChainWeaken(D: seq<Entity>, n: int, m: int)
    requires ChainIn(D, n) && n <= m
    ensures ChainIn(D, m)
  {
  }

  lemma {:induction false} ChainBounds(D: seq<Entity>, n: int)
    requires ChainIn(D, n)
    ensures forall i :: 0 <= i < |D| ==> 0 <= D[i].start < D[i].end <= n
    decreases |D|
  {
    if D != [] {
      ChainBounds(D[1..], D[0].start);
      forall i | 1 <= i < |D| ensures 0 <= D[i].start < D[i].end <= n {
        assert D[i] == D[1..][i - 1];
      }
    }
  }

  /** Every entity holds the text of its span. */
  predicate InText(t: string, D: seq<Entity>) {
    forall i :: 0 <= i < |D| ==> 0 <= D[i].start <= D[i].end <= |t| && D[i].text == t[D[i].start..D[i].end]
  }

  /** The masked text read right to left: the text before the first
      (right-most) entity masked in turn, its placeholder, the text after it. */
  function Segmented(tz: Tokenizer, t: string, D: seq<Entity>): string
    requires ChainIn(D, |t|)
    decreases |D|
  {
    if D == [] then t
    else Segmented(tz, t[..D[0].start], D[1..]) + EntityToken(tz, D[0]) + t[D[0].end..]
  }

  /** Text after the last entity passes through the splices unchanged. */
  lemma {:induction false} SpliceAppend(tz: Tokenizer, x: string, y: string, R: seq<Entity>)
    requires ChainIn(R, |x|)
    ensures SpliceAll(tz, x + y, R) == SpliceAll(tz, x, R) + y
    decreases |R|
  {
    if R != [] {
      var e := R[0];
      var tok := EntityToken(tz, e);
      assert Take(x + y, e.start) == x[..e.start];
      assert Drop(x + y, e.end) == x[e.end..] + y;
      var x' := Splice(x, e, tok);
      assert Splice(x + y, e, tok) == x' + y;
      ChainWeaken(R[1..], e.start, |x'|);
      SpliceAppend(tz, x', y, R[1..]);
    }
  }

  /** Splicing right to left, in place, gives the segment-wise text. */
  lemma {:induction false} SpliceSegmented(tz: Tokenizer, t: string, D: seq<Entity>)
    requires ChainIn(D, |t|)
    ensures SpliceAll(tz, t, D) == Segmented(tz, t, D)
    decreases |D|
  {
    if D != [] {
      var e := D[0];
      var tok := EntityToken(tz, e);
      var rest := tok + t[e.end..];
      assert Splice(t, e, tok) == t[..e.start] + rest;
      SpliceAppend(tz, t[..e.start], rest, D[1..]);
      SpliceSegmented(tz, t[..e.start], D[1..]);
    }
  }

  lemma SegmentedAppend(tz: Tokenizer, x: string, y: string, R: seq<Entity>)
    requires ChainIn(R, |x|)
    ensures ChainIn(R, |x + y|)
    ensures Segmented(tz, x + y, R) == Segmented(tz, x, R) + y
  {
    ChainWeaken(R, |x|, |x + y|);
    if R != [] {
      assert (x + y)[..R[0].start] == x[..R[0].start];
      assert (x + y)[R[0].end..] == x[R[0].end..] + y;
    }
  }

  // --------------------------------------------------- where a key can occur

  lemma NoMarkerSlice(t: string, a: int, b: int)
    requires NoMarker(t) && 0 <= a <= b <= |t|
    ensures NoMarker(t[a..b])
  {
    forall p ensures !OccursAt(t[a..b], "<RG:", p) {
      if OccursAt(t[a..b], "<RG:", p) {
        OccursInSlice(t, "<RG:", a, b, p);
      }
    }
  }

  /** A placeholder never occurs in a text without `<RG:`. */
  lemma AbsentKey(t: string, k: string)
    requires NoMarker(t) && Shaped(k)
    ensures forall p :: !OccursAt(t, k, p)
  {
    forall p ensures !OccursAt(t, k, p) {
      if OccursAt(t, k, p) {
        OccursPrefix(t, k, 4, p);
      }
    }
  }

  /** No occurrence of a placeholder runs into a `<`. */
  lemma NoStraddleOpen(x: string, y: string, k: string)
    requires Shaped(k) && y != [] && y[0] == '<'
    ensures NoStraddle(x, y, k)
  {
    forall p | p < |x| < p + |k| ensures !OccursAt(x + y, k, p) {
      if 0 <= p && p + |k| <= |x + y| {
        assert (x + y)[p..p + |k|][|x| - p] == (x + y)[|x|];
      }
    }
  }

  /** No occurrence of a placeholder runs on past a `>`. */
  lemma NoStraddleClose(x: string, y: string, k: string)
    requires Shaped(k) && x != [] && x[|x| - 1] == '>'
    ensures NoStraddle(x, y, k)
  {
    forall p | p < |x| < p + |k| ensures !OccursAt(x + y, k, p) {
      if 0 <= p && p + |k| <= |x + y| {
        assert (x + y)[p..p + |k|][|x| - 1 - p] == (x + y)[|x| - 1];
      }
    }
  }

  /** One placeholder occurs in another only as the whole of it. */
  lemma KeyInToken(tok: string, k: string, p: int)
    requires Shaped(tok) && Shaped(k) && OccursAt(tok, k, p)
    ensures p == 0 && k == tok
  {
    assert tok[p..p + |k|][0] == tok[p];
    assert tok[p..p + |k|][|k| - 1] == tok[p + |k| - 1];
  }

  /** Replacing a placeholder inside a placeholder changes it only when the
      two are the same. */
  lemma ReplaceInToken(tok: string, k: string, v: string)
    requires Shaped(tok) && Shaped(k)
    ensures ReplaceAll(tok, k, v) == if tok == k then v else tok
  {
    if tok == k {
      assert ReplaceAll(tok[|k|..], k, v) == [];
      assert v + [] == v;
    } else {
      forall p ensures !OccursAt(tok, k, p) {
        if OccursAt(tok, k, p) {
          KeyInToken(tok, k, p);
        }
      }
      ReplaceAllAbsent(tok, k, v);
    }
  }

  // ------------------------------------------------------ one key, all keys

  /** The entities whose placeholder is not `k`, in order. */
  function Without(tz: Tokenizer, D: seq<Entity>, k: string): (r: seq<Entity>)
    ensures forall e | e in r :: e in D && EntityToken(tz, e) != k
    decreases |D|
  {
    if D == [] then []
    else if EntityToken(tz, D[0]) == k then Without(tz, D[1..], k)
    else [D[0]] + Without(tz, D[1..], k)
  }

  lemma {:induction false} WithoutChain(tz: Tokenizer, D: seq<Entity>, k: string, n: int)
    requires ChainIn(D, n)
    ensures ChainIn(Without(tz, D, k), n)
    decreases |D|
  {
    if D != [] {
      WithoutChain(tz, D[1..], k, D[0].start);
      var W := Without(tz, D[1..], k);
      if EntityToken(tz, D[0]) == k {
        ChainWeaken(W, D[0].start, n);
      } else {
        assert ([D[0]] + W)[1..] == W;
      }
    }
  }

  /** What the text and the entities must satisfy for the replacement of one
      key to undo exactly that key's splices. */
  ghost predicate Restorable(tz: Tokenizer, t: string, D: seq<Entity>) {
    ChainIn(D, |t|) && NoMarker(t) && InText(t, D)
    && forall i :: 0 <= i < |D| ==> Shaped(EntityToken(tz, D[i]))
  }

  lemma RestorableSub(tz: Tokenizer, t: string, D: seq<Entity>, W: seq<Entity>)
    requires Restorable(tz, t, D) && ChainIn(W, |t|)
    requires forall e | e in W :: e in D
    ensures Restorable(tz, t, W)
  {
    forall i | 0 <= i < |W|
      ensures 0 <= W[i].start <= W[i].end <= |t| && W[i].text == t[W[i].start..W[i].end]
      ensures Shaped(EntityToken(tz, W[i]))
    {
      assert W[i] in W;
      var j :| 0 <= j < |D| && D[j] == W[i];
    }
  }

  lemma RestorablePrefix(tz: Tokenizer, t: string, D: seq<Entity>)
    requires Restorable(tz, t, D) && D != []
    ensures Restorable(tz, t[..D[0].start], D[1..])
  {
    var s := D[0].start;
    var t' := t[..s];
    ChainBounds(D[1..], s);
    NoMarkerSlice(t, 0, s);
    assert t[0..s] == t';
    forall i | 0 <= i < |D[1..]|
      ensures D[1..][i].text == t'[D[1..][i].start..D[1..][i].end]
      ensures Shaped(EntityToken(tz, D[1..][i]))
    {
      assert D[1..][i] == D[i + 1];
      assert t'[D[i + 1].start..D[i + 1].end] == t[D[i + 1].start..D[i + 1].end];
    }
  }

  /** Around one placeholder: the part before it and the text after it are
      replaced separately, the placeholder itself only when it is `k`. */
  lemma ReplaceAround(S: string, tok: string, rest: string, k: string, v: string)
    requires Shaped(tok) && Shaped(k) && NoMarker(rest)
    ensures ReplaceAll(S + tok + rest, k, v) == ReplaceAll(S, k, v) + (if tok == k then v else tok) + rest
  {
    assert S + tok + rest == S + (tok + rest);
    NoStraddleOpen(S, tok + rest, k);
    ReplaceAllConcat(S, tok + rest, k, v);
    NoStraddleClose(tok, rest, k);
    ReplaceAllConcat(tok, rest, k, v);
    AbsentKey(rest, k);
    ReplaceAllAbsent(rest, k, v);
    ReplaceInToken(tok, k, v);
  }

  /** A placeholder other than `k` is left in place by the replacement of
      `k`, whatever surrounds it. */
  lemma ReplaceKeepsToken(x: string, u: string, y: string, k: string, v: string)
    requires Shaped(u) && Shaped(k) && u != k
    ensures ReplaceAll(x + u + y, k, v) == ReplaceAll(x, k, v) + u + ReplaceAll(y, k, v)
  {
    assert x + u + y == x + (u + y);
    NoStraddleOpen(x, u + y, k);
    ReplaceAllConcat(x, u + y, k, v);
    NoStraddleClose(u, y, k);
    ReplaceAllConcat(u, y, k, v);
    ReplaceInToken(u, k, v);
  }

  /** Replacing a list of placeholder keys leaves a placeholder that is not
      among them in place. */
  lemma {:induction false} ReplaceKeysKeepToken(x: string, u: string, y: string, m: Dict<string, string>,
                                               ks: seq<string>)
    requires Shaped(u) && u !in ks
    requires forall i :: 0 <= i < |ks| ==> Shaped(ks[i])
    ensures ReplaceKeys(x + u + y, m, ks) == ReplaceKeys(x, m, ks) + u + ReplaceKeys(y, m, ks)
    decreases |ks|
  {
    if ks != [] {
      var v := Get(m, ks[0]).GetOr("");
      ReplaceKeepsToken(x, u, y, ks[0], v);
      ReplaceKeysKeepToken(ReplaceAll(x, ks[0], v), u, ReplaceAll(y, ks[0], v), m, ks[1..]);
    }
  }

  /** `unmask` replaces only the placeholders the mapping holds: when every
      key is a placeholder, one that is not a key stays as it is, and the
      text on either side of it is unmasked on its own. */
  lemma UnmaskKeepsUnknown(x: string, u: string, y: string, m: Dict<string, string>)
    requires forall k | k in Keys(m) :: Shaped(k)
    requires Shaped(u) && u !in Keys(m)
    ensures Unmasked(x + u + y, m) == Unmasked(x, m) + u + Unmasked(y, m)
  {
    var ks := LongestFirst(Keys(m));
    forall i | 0 <= i < |ks| ensures Shaped(ks[i]) {
      SortByMembers(Keys(m), NegLength, ks[i]);
    }
    if u in ks {
      SortByMembers(Keys(m), NegLength, u);
    }
    ReplaceKeysKeepToken(x, u, y, m, ks);
  }

  /** Replacing every occurrence of `k` by the text it stands for turns the
      masked text into the one in which the entities with placeholder `k`
      were never masked. */
  lemma {:induction false} ReplaceStep(tz: Tokenizer, t: string, D: seq<Entity>, k: string, v: string)
    requires Restorable(tz, t, D) && Shaped(k)
    requires forall i :: 0 <= i < |D| && EntityToken(tz, D[i]) == k ==> D[i].text == v
    ensures ChainIn(Without(tz, D, k), |t|)
    ensures ReplaceAll(Segmented(tz, t, D), k, v) == Segmented(tz, t, Without(tz, D, k))
    decreases |D|
  {
    WithoutChain(tz, D, k, |t|);
    if D == [] {
      AbsentKey(t, k);
      ReplaceAllAbsent(t, k, v);
    } else {
      var e, R := D[0], D[1..];
      var s := e.start;
      var t' := t[..s];
      var tok := EntityToken(tz, e);
      var rest := t[e.end..];
      RestorablePrefix(tz, t, D);
      forall i | 0 <= i < |R| && EntityToken(tz, R[i]) == k ensures R[i].text == v {
        assert R[i] == D[i + 1];
      }
      ReplaceStep(tz, t', R, k, v);
      NoMarkerSlice(t, e.end, |t|);
      assert t[e.end..|t|] == rest;
      var S := Segmented(tz, t', R);
      assert Segmented(tz, t, D) == S + tok + rest;
      ReplaceAround(S, tok, rest, k, v);
      var W := Without(tz, R, k);
      WithoutChain(tz, R, k, s);
      if tok == k {
        assert v == t[s..e.end];
        SegmentedSplit(tz, t, s, e.end, W);
      } else {
        assert ([e] + W)[1..] == W;
      }
    }
  }

  /** Putting a span's own text back between the segments before and after it. */
  lemma SegmentedSplit(tz: Tokenizer, t: string, s: int, en: int, W: seq<Entity>)
    requires 0 <= s <= en <= |t| && ChainIn(W, s)
    ensures ChainIn(W, |t|)
    ensures Segmented(tz, t[..s], W) + t[s..en] + t[en..] == Segmented(tz, t, W)
  {
    assert t == t[..s] + t[s..];
    SegmentedAppend(tz, t[..s], t[s..], W);
    assert t[s..] == t[s..en] + t[en..];
  }

  /** Once the first key is done, the remaining keys cover the entities
      whose placeholder is another key. */
  lemma KeysCoverWithout(tz: Tokenizer, D: seq<Entity>, m: Dict<string, string>, ks: seq<string>)
    requires ks != []
    requires forall i :: 0 <= i < |D| ==> EntityToken(tz, D[i]) in ks && Get(m, EntityToken(tz, D[i])) == Some(D[i].text)
    ensures var W := Without(tz, D, ks[0]);
      forall i :: 0 <= i < |W| ==> EntityToken(tz, W[i]) in ks[1..] && Get(m, EntityToken(tz, W[i])) == Some(W[i].text)
  {
    var W := Without(tz, D, ks[0]);
    forall i | 0 <= i < |W|
      ensures EntityToken(tz, W[i]) in ks[1..] && Get(m, EntityToken(tz, W[i])) == Some(W[i].text)
    {
      assert W[i] in W;
      var j :| 0 <= j < |D| && D[j] == W[i];
      InTail(EntityToken(tz, D[j]), ks);
    }
  }

  lemma InTail(x: string, ks: seq<string>)
    requires x in ks && ks[0] != x
    ensures x in ks[1..]
  {
    assert ks == [ks[0]] + ks[1..];
  }

  /** Replacing every key in turn, with the entities' placeholders among the
      keys and each key holding its entities' text, restores the text. */
  lemma {:induction false} RestoreAll(tz: Tokenizer, t: string, D: seq<Entity>, m: Dict<string, string>, ks: seq<string>)
    requires Restorable(tz, t, D)
    requires forall i :: 0 <= i < |D| ==> EntityToken(tz, D[i]) in ks && Get(m, EntityToken(tz, D[i])) == Some(D[i].text)
    requires forall i :: 0 <= i < |ks| ==> Shaped(ks[i])
    ensures ReplaceKeys(Segmented(tz, t, D), m, ks) == t
    decreases |ks|
  {
    if ks != [] {
      var k := ks[0];
      var v := Get(m, k).GetOr("");
      ReplaceStep(tz, t, D, k, v);
      var W := Without(tz, D, k);
      RestorableSub(tz, t, D, W);
      KeysCoverWithout(tz, D, m, ks);
      RestoreAll(tz, t, W, m, ks[1..]);
    }
  }

  // -------------------------------------------------------------- the theorem

  /** Entities by descending start that do not overlap form a chain. */
  lemma {:induction false} DescendingChain(D: seq<Entity>, n: int)
    requires forall i, j :: 0 <= i < j < |D| ==> D[i].start >= D[j].start
    requires Disjoint(D)
    requires forall i :: 0 <= i < |D| ==> 0 <= D[i].start < D[i].end <= n
    ensures ChainIn(D, n)
    decreases |D|
  {
    if D != [] {
      var R := D[1..];
      forall i | 0 <= i < |R| ensures 0 <= R[i].start < R[i].end <= D[0].start {
        assert R[i] == D[i + 1];
        assert !Overlap(D[0], D[i + 1]);
      }
      forall i, j | 0 <= i < j < |R| ensures R[i].start >= R[j].start && !Overlap(R[i], R[j]) {
        assert R[i] == D[i + 1] && R[j] == D[j + 1];
      }
      DescendingChain(R, D[0].start);
    }
  }

  /** The conditions on the recognised entities under which masking can be
      undone. No entity text holds a backslash, which the replacement would
      otherwise read as an escape. */
  ghost predicate Reversible(tz: Tokenizer, t: string, es: seq<Entity>) {
    NoMarker(t) && Disjoint(es)
    && (forall e | e in es ::
          0 <= e.start < e.end <= |t| && e.text == t[e.start..e.end] && NoAngle(e.kind) && '\\' !in e.text)
    && (forall e1, e2 | e1 in es && e2 in es && EntityToken(tz, e1) == EntityToken(tz, e2) :: e1.text == e2.text)
  }

  /** Entities of a list in which equal placeholders mean equal texts. */
  ghost predicate Consistent(tz: Tokenizer, D: seq<Entity>, es: seq<Entity>) {
    (forall i :: 0 <= i < |D| ==> D[i] in es)
    && (forall e | e in es :: NoAngle(e.kind))
    && (forall e1, e2 | e1 in es && e2 in es && EntityToken(tz, e1) == EntityToken(tz, e2) :: e1.text == e2.text)
  }

  /** The mapping built from such entities sends each one's placeholder,
      which is well shaped and among the keys, to its text. */
  lemma MappingEntry(tz: Tokenizer, D: seq<Entity>, es: seq<Entity>, i: nat)
    requires Consistent(tz, D, es) && i < |D|
    ensures var m := MappingOf(tz, [], D); var tok := EntityToken(tz, D[i]);
      Shaped(tok) && tok in LongestFirst(Keys(m)) && Get(m, tok) == Some(D[i].text)
  {
    var m := MappingOf(tz, [], D);
    var tok := EntityToken(tz, D[i]);
    TokenShaped(tz, D[i].kind, D[i].text);
    MaskMapping(tz, D, tok);
    SortByMembers(Keys(m), NegLength, tok);
    var j :| 0 <= j < |D| && EntityToken(tz, D[j]) == tok && D[j].text == FirstText(tz, D, tok).value;
    assert D[j] in es && D[i] in es;
  }

  /** Every key of that mapping is a well-shaped placeholder. */
  lemma MappingKeyShaped(tz: Tokenizer, D: seq<Entity>, es: seq<Entity>, k: string)
    requires Consistent(tz, D, es)
    requires k in LongestFirst(Keys(MappingOf(tz, [], D)))
    ensures Shaped(k)
  {
    SortByMembers(Keys(MappingOf(tz, [], D)), NegLength, k);
    MaskMapping(tz, D, k);
    var j :| 0 <= j < |D| && EntityToken(tz, D[j]) == k;
    assert D[j] in es;
    TokenShaped(tz, D[j].kind, D[j].text);
  }

  /** Unmasking the masked text with the mapping built beside it restores the
      original text. */
  lemma RoundTrip(tz: Tokenizer, t: string, es: seq<Entity>)
    requires Reversible(tz, t, es)
    ensures var D := ProcessingOrder(es);
      UnmaskOutcome(Of(SpliceAll(tz, t, D)), Of(MappingOf(tz, [], D))) == Ok(t)
  {
    var D := ProcessingOrder(es);
    OrderedChain(tz, t, es);
    SpliceSegmented(tz, t, D);
    var m := MappingOf(tz, [], D);
    var ks := LongestFirst(Keys(m));
    forall i | 0 <= i < |D|
      ensures Shaped(EntityToken(tz, D[i]))
      ensures EntityToken(tz, D[i]) in ks && Get(m, EntityToken(tz, D[i])) == Some(D[i].text)
    {
      MappingEntry(tz, D, es, i);
    }
    forall i | 0 <= i < |ks| ensures Shaped(ks[i]) {
      MappingKeyShaped(tz, D, es, ks[i]);
    }
    RestoreAll(tz, t, D, m, ks);
  }

  /** In processing order the entities of a reversible text form a chain
      inside it, lie in it and agree on the texts behind equal placeholders. */
  lemma OrderedChain(tz: Tokenizer, t: string, es: seq<Entity>)
    requires Reversible(tz, t, es)
    ensures var D := ProcessingOrder(es);
      ChainIn(D, |t|) && NoMarker(t) && InText(t, D) && Consistent(tz, D, es)
  {
    var D := ProcessingOrder(es);
    ProcessingOrderSpec(es, 0);
    SortKeepsDisjoint(es, StartDescending);
    forall i | 0 <= i < |D| ensures D[i] in es {
      SortByMembers(es, StartDescending, D[i]);
    }
    DescendingChain(D, |t|);
  }

  /** The same for `mask` and `unmask` themselves: when the recogniser's
      entities are reversible, unmasking what `mask` returns gives the text. */
  lemma MaskUnmask(ner: Recognizer, tz: Tokenizer, t: string)
    requires Recognized(ner, t).Ok? && Reversible(tz, t, Recognized(ner, t).value)
    ensures MaskOutcome(ner, tz, Of(t)).Ok?
    ensures UnmaskOutcome(Of(MaskOutcome(ner, tz, Of(t)).value.text),
                          Of(MaskOutcome(ner, tz, Of(t)).value.mapping)) == Ok(t)
  {
    RoundTrip(tz, t, Recognized(ner, t).value);
  }

  /** A hybrid recogniser already resolves overlaps and checks spans, so
      with a regex engine that matches inside the text and a text within the
      LLM part's length limit only the remaining conditions are needed:
      non-empty entities, kinds without angle
      brackets, no backslash in an entity's text, no digest collision and no
      `<RG:` in the text. */
  lemma HybridRoundTrip(ner: Recognizer, tz: Tokenizer, t: string)
    requires ner.Hybrid? && (ner.regexPart.Some? ==> MatchesInText(ner.regexPart.value.engine))
    requires WithinLlmLimit(ner, t)
    requires NoMarker(t) && Recognized(ner, t).Ok?
    requires forall e | e in Recognized(ner, t).value :: e.start < e.end && NoAngle(e.kind) && '\\' !in e.text
    requires forall e1, e2 | e1 in Recognized(ner, t).value && e2 in Recognized(ner, t).value
               && EntityToken(tz, e1) == EntityToken(tz, e2) :: e1.text == e2.text
    ensures UnmaskOutcome(Of(MaskOutcome(ner, tz, Of(t)).value.text),
                          Of(MaskOutcome(ner, tz, Of(t)).value.mapping)) == Ok(t)
  {
    RecognizedSpans(ner, t);
    MaskUnmask(ner, tz, t);
  }
}
