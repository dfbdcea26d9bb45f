/** rag_guard/masker.py: DataMasker swaps every recognised span for a salted
    placeholder `<RG:{kind}:{h8}>`, records placeholder -> original text, and
    puts the originals back by replacing every placeholder of the mapping. */
module Masker {
  import opened Wrappers
  import opened PyStrings
  import opened Dicts
  import opened Sorting
  import opened Ner

  // ------------------------------------------------------------------ tokens

  /** A character of the lower-cased base32 alphabet `a`-`z`, `2`-`7`. */
  predicate Base32Char(c: char) {
    'a' <= c <= 'z' || '2' <= c <= '7'
  }

  predicate Base32Lower(h: string) {
    forall i :: 0 <= i < |h| ==> Base32Char(h[i])
  }

  /** The first eight characters of the lower-cased, unpadded base32 form of
      a SHA-1 digest. */
  type Hash8 = h: string | |h| == 8 && Base32Lower(h) witness "aaaaaaaa"

  /** The salt and the digest `_short_hash` applies to `salt + kind + value`
      (SHA-1 then base32, not modelled: any function into `Hash8`). */
  datatype Tokenizer = Tokenizer(salt: string, digest: string -> Hash8)

  function ShortHash(tz: Tokenizer, kind: string, value: string): Hash8 {
    tz.digest(tz.salt + kind + value)
  }

  /** `_token(kind, value)` */
  function Token(tz: Tokenizer, kind: string, value: string): string {
    "<RG:" + kind + ":" + ShortHash(tz, kind, value) + ">"
  }

  function EntityToken(tz: Tokenizer, e: Entity): string {
    Token(tz, e.kind, e.text)
  }

  const AngleBrackets: set<char> := {'<', '>'}

  /** The layout of a placeholder: the kind sits between `<RG:` and the
      second colon, the hash is the last eight characters before `>`, and
      equal kind and value give equal placeholders. */
  lemma TokenShape(tz: Tokenizer, kind: string, value: string)
    ensures var tok := Token(tz, kind, value);
      |tok| == |kind| + 14 && tok[..4] == "<RG:" && tok[4..4 + |kind|] == kind
      && tok[4 + |kind|] == ':' && tok[|kind| + 5..|kind| + 13] == ShortHash(tz, kind, value)
      && tok[|tok| - 1] == '>'
  {
    var tok := Token(tz, kind, value);
    var h := ShortHash(tz, kind, value);
    assert tok == "<RG:" + kind + ":" + h + ">";
    assert tok[4..4 + |kind|] == kind;
    assert tok[|kind| + 5..|kind| + 13] == h;
  }

  lemma NoColonInHash(h: Hash8)
    ensures ':' !in h && h[7] !in AngleBrackets
  {
    assert Base32Char(h[7]);
    forall i | 0 <= i < |h| ensures h[i] != ':' {
      assert Base32Char(h[i]);
    }
  }

  /** Stripping the angle brackets off a placeholder leaves `RG:kind:hash`. */
  lemma StripToken(tz: Tokenizer, kind: string, value: string)
    ensures StripChars(Token(tz, kind, value), AngleBrackets) == "RG:" + kind + ":" + ShortHash(tz, kind, value)
  {
    var h := ShortHash(tz, kind, value);
    var tok := Token(tz, kind, value);
    var inner := "RG:" + kind + ":" + h;
    assert tok == ['<'] + inner + ['>'];
    assert LeadingIn(tok[1..], AngleBrackets) == 0 by { assert tok[1..][0] == 'R'; }
    var t := tok[1..];
    assert t == inner + ['>'];
    NoColonInHash(h);
    assert t[..|t| - 1] == inner;
    assert TrailingIn(inner, AngleBrackets) == 0 by { assert inner[|inner| - 1] == h[7]; }
  }

  /** Reading a placeholder back the way the partial unmask does,
      `tok.strip('<>').split(':')`, gives `RG`, the kind and the hash when
      the kind has no colon. */
  lemma TokenParse(tz: Tokenizer, kind: string, value: string)
    requires ':' !in kind
    ensures Split(StripChars(Token(tz, kind, value), AngleBrackets), ':')
         == ["RG", kind, ShortHash(tz, kind, value)]
  {
    var h := ShortHash(tz, kind, value);
    StripToken(tz, kind, value);
    NoColonInHash(h);
    assert "RG:" + kind + ":" + h == "RG" + [':'] + kind + [':'] + h;
    SplitThree("RG", kind, h, ':');
  }

  /** Placeholders of colon-free kinds tell their kinds apart. */
  lemma TokenKindInjective(tz: Tokenizer, k1: string, v1: string, k2: string, v2: string)
    requires ':' !in k1 && ':' !in k2
    requires Token(tz, k1, v1) == Token(tz, k2, v2)
    ensures k1 == k2
  {
    TokenParse(tz, k1, v1);
    TokenParse(tz, k2, v2);
  }

  // --------------------------------------------------------------- masking

  /** `masked[:start] + token + masked[end:]` */
  function Splice(t: string, e: Entity, tok: string): string {
    Take(t, e.start) + tok + Drop(t, e.end)
  }

  /** The splice loop of `mask`, over the entities in processing order. */
  function SpliceAll(tz: Tokenizer, t: string, es: seq<Entity>): string
    decreases |es|
  {
    if es == [] then t else SpliceAll(tz, Splice(t, es[0], EntityToken(tz, es[0])), es[1..])
  }

  /** The mapping loop of `mask`: a placeholder is recorded with the text of
      the first entity that produced it. */
  function MappingOf(tz: Tokenizer, m: Dict<string, string>, es: seq<Entity>): Dict<string, string>
    decreases |es|
  {
    if es == [] then m else MappingOf(tz, PutIfAbsent(m, EntityToken(tz, es[0]), es[0].text), es[1..])
  }

  /** The text of the first entity of `es` whose placeholder is `k`. */
  function FirstText(tz: Tokenizer, es: seq<Entity>, k: string): (r: Option<string>)
    ensures r.None? <==> forall i :: 0 <= i < |es| ==> EntityToken(tz, es[i]) != k
    ensures r.Some? ==> exists i :: 0 <= i < |es| && EntityToken(tz, es[i]) == k && es[i].text == r.value
                                   && forall j :: 0 <= j < i ==> EntityToken(tz, es[j]) != k
  {
    if es == [] then None
    else if EntityToken(tz, es[0]) == k then Some(es[0].text)
    else
      var r := FirstText(tz, es[1..], k);
      assert forall i :: 1 <= i < |es| ==> es[i] == es[1..][i - 1];
      r
  }

  /** After the loop a placeholder maps to what the incoming mapping had for
      it, or else to the text of the first entity that produced it. */
  lemma {:induction false} MappingGet(tz: Tokenizer, m: Dict<string, string>, es: seq<Entity>, k: string)
    ensures Get(MappingOf(tz, m, es), k) == if k in Keys(m) then Get(m, k) else FirstText(tz, es, k)
    ensures DistinctKeys(m) ==> DistinctKeys(MappingOf(tz, m, es))
    decreases |es|
  {
    if es != [] {
      MappingGet(tz, PutIfAbsent(m, EntityToken(tz, es[0]), es[0].text), es[1..], k);
    }
  }

  /** The mapping `mask` returns: its keys are exactly the placeholders of the
      processed entities, each holding the text of the first processed
      entity that produced it. */
  lemma MaskMapping(tz: Tokenizer, es: seq<Entity>, k: string)
    ensures DistinctKeys(MappingOf(tz, [], es))
    ensures k in Keys(MappingOf(tz, [], es)) <==> exists i :: 0 <= i < |es| && EntityToken(tz, es[i]) == k
    ensures Get(MappingOf(tz, [], es), k) == FirstText(tz, es, k)
  {
    MappingGet(tz, [], es, k);
  }

  function StartDescending(e: Entity): int { -e.start }

  /** `entities.sort(key=start, reverse=True)`: stable, descending start. */
  function ProcessingOrder(es: seq<Entity>): seq<Entity> {
    SortBy(es, StartDescending)
  }

  /** The processing order holds the same entities, by descending start,
      and entities with equal starts keep their order. */
  lemma ProcessingOrderSpec(es: seq<Entity>, start: int)
    ensures multiset(ProcessingOrder(es)) == multiset(es)
    ensures forall i, j :: 0 <= i < j < |es| ==> ProcessingOrder(es)[i].start >= ProcessingOrder(es)[j].start
    ensures WithKey(ProcessingOrder(es), StartDescending, -start) == WithKey(es, StartDescending, -start)
  {
    SortByPermutes(es, StartDescending);
    SortBySorted(es, StartDescending);
    SortByStable(es, StartDescending, -start);
  }

  /** What `mask` returns: the masked text, the mapping and the entities in
      processing order. */
  datatype MaskResult = MaskResult(text: string, mapping: Dict<string, string>, entities: seq<Entity>)

  /** `mask(text)`: a non-string input or any failure of the recogniser
      becomes MaskingError. */
  function MaskOutcome(ner: Recognizer, tz: Tokenizer, text: Dyn<string>): Result<MaskResult> {
    match text
    case Other => Err(MaskingError)
    case Of(t) =>
      match Recognized(ner, t)
      case Err(_) => Err(MaskingError)
      case Ok(found) =>
        var es := ProcessingOrder(found);
        Ok(MaskResult(SpliceAll(tz, t, es), MappingOf(tz, [], es), es))
  }

  /** Every failure of `mask` is a MaskingError, and every mapping it
      returns is a well-formed dict. */
  lemma MaskOutcomeShape(ner: Recognizer, tz: Tokenizer, text: Dyn<string>)
    ensures var r := MaskOutcome(ner, tz, text);
      (r.Err? ==> r.error == MaskingError) && (r.Ok? ==> DistinctKeys(r.value.mapping))
  {
    var r := MaskOutcome(ner, tz, text);
    if r.Ok? {
      MaskMapping(tz, r.value.entities, "");
    }
  }

  /** Nothing recognised: the text comes back unchanged with an empty mapping. */
  lemma MaskNothing(ner: Recognizer, tz: Tokenizer, t: string)
    requires Recognized(ner, t) == Ok([])
    ensures MaskOutcome(ner, tz, Of(t)) == Ok(MaskResult(t, [], []))
  {
  }

  // -------------------------------------------------------------- unmasking

  function NegLength(k: string): int { -|k| }

  /** `sorted(mapping.keys(), key=len, reverse=True)` */
  function LongestFirst(ks: seq<string>): seq<string> {
    SortBy(ks, NegLength)
  }

  /** Every key is visited once, longer keys before shorter ones. */
  lemma LongestFirstSpec(ks: seq<string>)
    ensures multiset(LongestFirst(ks)) == multiset(ks)
    ensures forall i, j :: 0 <= i < j < |ks| ==> |LongestFirst(ks)[i]| >= |LongestFirst(ks)[j]|
  {
    SortByPermutes(ks, NegLength);
    SortBySorted(ks, NegLength);
  }

  /** The replacement loop of `unmask`: every occurrence of each key in turn
      becomes that key's value. */
  function ReplaceKeys(text: string, mapping: Dict<string, string>, ks: seq<string>): string
    decreases |ks|
  {
    if ks == [] then text
    else ReplaceKeys(ReplaceAll(text, ks[0], Get(mapping, ks[0]).GetOr("")), mapping, ks[1..])
  }

  function Unmasked(text: string, mapping: Dict<string, string>): string {
    ReplaceKeys(text, mapping, LongestFirst(Keys(mapping)))
  }

  /** `unmask(text, mapping)`: a non-string text or a non-dict mapping is an
      UnmaskingError. */
  function UnmaskOutcome(text: Dyn<string>, mapping: Dyn<Dict<string, string>>): Result<string> {
    match (text, mapping)
    case (Of(t), Of(m)) => Ok(Unmasked(t, m))
    case _ => Err(UnmaskingError)
  }

  lemma {:induction false} ReplaceKeysAbsent(text: string, mapping: Dict<string, string>, ks: seq<string>)
    requires forall i :: 0 <= i < |ks| ==> |ks[i]| > 0 && forall p :: !OccursAt(text, ks[i], p)
    ensures ReplaceKeys(text, mapping, ks) == text
    decreases |ks|
  {
    if ks != [] {
      ReplaceAllAbsent(text, ks[0], Get(mapping, ks[0]).GetOr(""));
      ReplaceKeysAbsent(text, mapping, ks[1..]);
    }
  }

  /** A text in which no (non-empty) key of the mapping occurs is left as it
      is; in particular the empty mapping changes nothing. */
  lemma UnmaskAbsent(text: string, mapping: Dict<string, string>)
    requires forall k | k in Keys(mapping) :: |k| > 0 && forall p :: !OccursAt(text, k, p)
    ensures UnmaskOutcome(Of(text), Of(mapping)) == Ok(text)
    ensures UnmaskOutcome(Of(text), Of([])) == Ok(text)
  {
    var ks := LongestFirst(Keys(mapping));
    forall i | 0 <= i < |ks| ensures |ks[i]| > 0 && forall p :: !OccursAt(text, ks[i], p) {
      SortByMembers(Keys(mapping), NegLength, ks[i]);
    }
    ReplaceKeysAbsent(text, mapping, ks);
  }

  // ----------------------------------------------------------- construction

  /** The built-in pattern table, in its insertion order. */
  const DefaultPatterns: Dict<string, string> := [
    ("EMAIL", @"\b[a-zA-Z0-9._%+-]+@[a-zA-Z0-9.-]+\.[a-zA-Z]{2,}\b"),
    ("PHONE", @"\b(?:\+?\d{1,3}[-.\s]?)?(?:\(?\d{2,4}\)?[-.\s]?)?\d{3,4}[-.\s]?\d{3,4}\b|\b1[3-9]\d{9}\b"),
    ("IDCN", @"\b\d{17}[\dXx]\b|\b\d{15}\b"),
    ("IPV4", @"\b(?:\d{1,3}\.){3}\d{1,3}\b"),
    ("CREDIT_CARD", @"\b(?:\d{4}[-\s]?){3}\d{4}\b"),
    ("BANK_ACCOUNT", @"\b\d{16,19}\b"),
    ("URL", @"https?://[^\s<>\""]+")
  ]

  /** The defaults updated with the custom patterns, when there are any. */
  function PatternTable(custom: Option<Dict<string, string>>): Dict<string, string> {
    if custom.Some? && custom.value != [] then Update(DefaultPatterns, custom.value) else DefaultPatterns
  }

  lemma DefaultPatternsDistinct()
    ensures DistinctKeys(DefaultPatterns)
  {
    var ks := Keys(DefaultPatterns);
    assert ks == ["EMAIL", "PHONE", "IDCN", "IPV4", "CREDIT_CARD", "BANK_ACCOUNT", "URL"];
    forall i, j | 0 <= i < j < |ks| ensures ks[i] != ks[j] {
      assert ks[i][..2] != ks[j][..2] || |ks[i]| != |ks[j]| || ks[i][1] != ks[j][1];
    }
  }

  /** A custom pattern overrides the default of the same label (keeping its
      place); every other default label keeps its pattern. */
  lemma PatternTableGet(custom: Option<Dict<string, string>>, name: string)
    requires custom.Some? ==> DistinctKeys(custom.value)
    ensures DistinctKeys(PatternTable(custom))
    ensures Get(PatternTable(custom), name)
         == if custom.Some? && name in Keys(custom.value) then Get(custom.value, name) else Get(DefaultPatterns, name)
  {
    DefaultPatternsDistinct();
    if custom.Some? && custom.value != [] {
      UpdateGet(DefaultPatterns, custom.value, name);
    }
  }

  const RegexOnlyStrategy: string := "regex_only"
  const LlmOnlyStrategy: string := "llm_only"
  const HybridStrategy: string := "hybrid"

  /** `_init_ner`: the recogniser a strategy builds; every failure is a
      MaskingError. */
  function BuiltRecognizer(strategy: string, patterns: Dict<string, string>, engine: RegexEngine,
                           caller: Option<(seq<string>, string) -> Option<string>>,
                           decode: string -> Option<Reply>, entityTypes: Option<seq<string>>): Result<Recognizer> {
    if strategy == RegexOnlyStrategy then
      if Compiles(patterns, engine) then Ok(RegexOnly(RegexNer(patterns, engine))) else Err(MaskingError)
    else if strategy == LlmOnlyStrategy then
      if caller.None? then Err(MaskingError) else Ok(LlmOnly(NewLlmNer(caller.value, decode, entityTypes)))
    else if strategy == HybridStrategy then
      if !Compiles(patterns, engine) then Err(MaskingError)
      else
        var llm := if caller.Some? then Some(NewLlmNer(caller.value, decode, entityTypes)) else None;
        Ok(Hybrid(Some(RegexNer(patterns, engine)), llm))
    else Err(MaskingError)
  }

  /** The strategies: `regex_only` and `hybrid` need every pattern to
      compile, `llm_only` needs a caller, no other name is accepted; a
      hybrid recogniser always has its regex part and has an LLM part
      exactly when a caller is given. */
  lemma BuiltRecognizerSpec(strategy: string, patterns: Dict<string, string>, engine: RegexEngine,
                            caller: Option<(seq<string>, string) -> Option<string>>,
                            decode: string -> Option<Reply>, entityTypes: Option<seq<string>>)
    ensures var r := BuiltRecognizer(strategy, patterns, engine, caller, decode, entityTypes);
      (r.Err? ==> r.error == MaskingError)
      && (r.Err? <==> strategy !in {RegexOnlyStrategy, LlmOnlyStrategy, HybridStrategy}
                      || (strategy == LlmOnlyStrategy && caller.None?)
                      || (strategy != LlmOnlyStrategy && !Compiles(patterns, engine)))
      && (r.Ok? && strategy == RegexOnlyStrategy ==> r.value.RegexOnly? && r.value.regex.patterns == patterns)
      && (r.Ok? && strategy == LlmOnlyStrategy ==> r.value.LlmOnly? && r.value.llm.threshold == 0.7)
      && (r.Ok? && strategy == HybridStrategy ==>
            r.value.Hybrid? && r.value.regexPart == Some(RegexNer(patterns, engine))
            && (r.value.llmPart.Some? <==> caller.Some?))
  {
  }

  /** `_init_ner`, building the regex recogniser with its compile loop. */
  method InitNer(strategy: string, patterns: Dict<string, string>, engine: RegexEngine,
                 caller: Option<(seq<string>, string) -> Option<string>>,
                 decode: string -> Option<Reply>, entityTypes: Option<seq<string>>) returns (r: Result<Recognizer>)
    requires DistinctKeys(patterns)
    ensures r == BuiltRecognizer(strategy, patterns, engine, caller, decode, entityTypes)
  {
    if strategy == RegexOnlyStrategy {
      var rx := CompileRegexNer(patterns, engine);
      if rx.Err? {
        return Err(MaskingError);
      }
      return Ok(RegexOnly(rx.value));
    } else if strategy == LlmOnlyStrategy {
      if caller.None? {
        return Err(MaskingError);
      }
      return Ok(LlmOnly(NewLlmNer(caller.value, decode, entityTypes)));
    } else if strategy == HybridStrategy {
      var rx := CompileRegexNer(patterns, engine);
      if rx.Err? {
        return Err(MaskingError);
      }
      var llm := if caller.Some? then Some(NewLlmNer(caller.value, decode, entityTypes)) else None;
      var hybrid := NewHybrid(Some(rx.value), llm);
      return Ok(hybrid.value);
    }
    return Err(MaskingError);
  }

  /** `add_pattern(name, pattern)` on a recogniser: it goes into the regex
      table of a RegexNER or of a hybrid's regex part; a pattern that does
      not compile, or a recogniser without a regex table, is a MaskingError. */
  function WithPattern(ner: Recognizer, name: string, pattern: string): Result<Recognizer> {
    match ner
    case RegexOnly(rx) =>
      if rx.engine.compiles(pattern) then Ok(RegexOnly(RegexNer(Put(rx.patterns, name, pattern), rx.engine)))
      else Err(MaskingError)
    case Hybrid(Some(rx), llm) =>
      if rx.engine.compiles(pattern) then Ok(Hybrid(Some(RegexNer(Put(rx.patterns, name, pattern), rx.engine)), llm))
      else Err(MaskingError)
    case _ => Err(MaskingError)
  }

  /** A recogniser's regex table, if it has one. */
  function RegexTable(ner: Recognizer): Option<RegexNer> {
    match ner
    case RegexOnly(rx) => Some(rx)
    case Hybrid(rx, _) => rx
    case LlmOnly(_) => None
  }

  /** Adding a pattern fails exactly when there is no regex table or the
      pattern does not compile; otherwise the label now holds the pattern,
      every other label keeps its own, the kind of recogniser is unchanged,
      and a hybrid keeps its LLM part. */
  lemma WithPatternSpec(ner: Recognizer, name: string, pattern: string, other: string)
    requires other != name
    ensures var r := WithPattern(ner, name, pattern);
      (r.Err? <==> RegexTable(ner).None? || !RegexTable(ner).value.engine.compiles(pattern))
      && (r.Err? ==> r.error == MaskingError)
      && (r.Ok? ==>
            RegexTable(r.value).Some?
            && Get(RegexTable(r.value).value.patterns, name) == Some(pattern)
            && Get(RegexTable(r.value).value.patterns, other) == Get(RegexTable(ner).value.patterns, other)
            && (DistinctKeys(RegexTable(ner).value.patterns) ==> DistinctKeys(RegexTable(r.value).value.patterns))
            && r.value.RegexOnly? == ner.RegexOnly?
            && (ner.Hybrid? ==> r.value.Hybrid? && r.value.llmPart == ner.llmPart))
  {
  }

  // -------------------------------------------------------------- DataMasker

  /** The loop of `mask`: for each entity in processing order, record its
      placeholder unless already present, and splice the placeholder over
      its span. */
  method SpliceEntities(tz: Tokenizer, t: string, entities: seq<Entity>)
    returns (masked: string, mapping: Dict<string, string>)
    ensures masked == SpliceAll(tz, t, entities)
    ensures mapping == MappingOf(tz, [], entities)
  {
    mapping := [];
    masked := t;
    for i := 0 to |entities|
      invariant SpliceAll(tz, masked, entities[i..]) == SpliceAll(tz, t, entities)
      invariant MappingOf(tz, mapping, entities[i..]) == MappingOf(tz, [], entities)
    {
      assert entities[i..][1..] == entities[i + 1..];
      var entity := entities[i];
      var token := Token(tz, entity.kind, entity.text);
      if token !in Keys(mapping) {
        mapping := Put(mapping, token, entity.text);
      }
      masked := Take(masked, entity.start) + token + Drop(masked, entity.end);
    }
  }

  class DataMasker {
    const salt: string
    const strategy: string
    const tokenizer: Tokenizer
    var ner: Recognizer
    var lastEntities: seq<Entity>

    /** The salt passed validation and feeds the placeholders, and the last
        entity list is in processing order (it is the very list `mask`
        sorted in place). */
    ghost predicate Valid()
      reads this
    {
      |salt| >= 8 && tokenizer.salt == salt
      && forall i, j :: 0 <= i < j < |lastEntities| ==> lastEntities[i].start >= lastEntities[j].start
    }

    constructor (salt: string, strategy: string, digest: string -> Hash8, ner: Recognizer)
      requires |salt| >= 8
      ensures Valid()
      ensures this.salt == salt && this.strategy == strategy && tokenizer == Tokenizer(salt, digest)
      ensures this.ner == ner && lastEntities == []
    {
      this.salt := salt;
      this.strategy := strategy;
      this.tokenizer := Tokenizer(salt, digest);
      this.ner := ner;
      this.lastEntities := [];
    }

    /** `DataMasker(salt, custom_patterns, llm_caller, ..., ner_strategy)`: the
        salt is checked first, then the recogniser for the strategy is built
        from the default patterns updated with the custom ones. */
    static method New(salt: string, customPatterns: Option<Dict<string, string>>, engine: RegexEngine,
                      caller: Option<(seq<string>, string) -> Option<string>>, decode: string -> Option<Reply>,
                      entityTypes: Option<seq<string>>, strategy: string, digest: string -> Hash8)
      returns (r: Result<DataMasker>)
      requires customPatterns.Some? ==> DistinctKeys(customPatterns.value)
      ensures r.Err? ==> r.error == MaskingError
      ensures |salt| < 8 ==> r.Err?
      ensures var built := BuiltRecognizer(strategy, PatternTable(customPatterns), engine, caller, decode, entityTypes);
        r.Err? <==> |salt| < 8 || built.Err?
      ensures r.Ok? ==> fresh(r.value) && r.value.Valid() && r.value.salt == salt
      ensures r.Ok? ==> r.value.lastEntities == [] && r.value.strategy == strategy
      ensures r.Ok? ==>
        r.value.ner == BuiltRecognizer(strategy, PatternTable(customPatterns), engine, caller, decode, entityTypes).value
    {
      if |salt| < 8 {
        return Err(MaskingError);
      }
      var patterns := PatternTable(customPatterns);
      PatternTableGet(customPatterns, "");
      var built := InitNer(strategy, patterns, engine, caller, decode, entityTypes);
      if built.Err? {
        return Err(MaskingError);
      }
      var masker := new DataMasker(salt, strategy, digest, built.value);
      return Ok(masker);
    }

    /** `add_pattern(name, pattern)` */
    method AddPattern(name: string, pattern: string) returns (r: Result<()>)
      modifies this`ner
      ensures var w := WithPattern(old(ner), name, pattern);
        (r.Err? <==> w.Err?) && (r.Err? ==> r.error == MaskingError && ner == old(ner))
        && (r.Ok? ==> ner == w.value)
    {
      var w := WithPattern(ner, name, pattern);
      if w.Err? {
        return Err(MaskingError);
      }
      ner := w.value;
      return Ok(());
    }

    /** `mask(text)`: recognise, sort in place by descending start (the list
        `last_entities` refers to), then splice each placeholder in and
        record it, right to left. */
    method Mask(text: Dyn<string>) returns (r: Result<MaskResult>)
      requires Valid()
      modifies this`lastEntities
      ensures Valid()
      ensures r == MaskOutcome(ner, tokenizer, text)
      ensures r.Ok? ==> lastEntities == r.value.entities
      ensures r.Err? ==> lastEntities == old(lastEntities)
    {
      if text.Other? {
        return Err(MaskingError);
      }
      var t := text.value;
      var found := Recognize(ner, t);
      if found.Err? {
        return Err(MaskingError);
      }
      var entities := ProcessingOrder(found.value);
      ProcessingOrderSpec(found.value, 0);
      lastEntities := entities;
      var masked, mapping := SpliceEntities(tokenizer, t, entities);
      return Ok(MaskResult(masked, mapping, entities));
    }

    /** `get_last_entities()` */
    method GetLastEntities() returns (es: seq<Entity>)
      requires Valid()
      ensures es == lastEntities
      ensures forall i, j :: 0 <= i < j < |es| ==> es[i].start >= es[j].start
    {
      return lastEntities;
    }

    /** `unmask(text, mapping)`: replace every occurrence of each key, longest
        key first. */
    method Unmask(text: Dyn<string>, mapping: Dyn<Dict<string, string>>) returns (r: Result<string>)
      ensures r == UnmaskOutcome(text, mapping)
    {
      if text.Other? || mapping.Other? {
        return Err(UnmaskingError);
      }
      var m := mapping.value;
      var tokens := LongestFirst(Keys(m));
      var result := text.value;
      for i := 0 to |tokens|
        invariant ReplaceKeys(result, m, tokens[i..]) == Unmasked(text.value, m)
      {
        assert tokens[i..][1..] == tokens[i + 1..];
        result := ReplaceAll(result, tokens[i], Get(m, tokens[i]).GetOr(""));
      }
      return Ok(result);
    }
  }
}
