/** rag_guard/ner.py: the entity recognisers. A recogniser turns a text into
    a list of entities; the regex recogniser runs one pattern per label, the
    LLM recogniser asks a model and checks the offsets it reports, and the
    hybrid recogniser concatenates both lists and resolves overlaps greedily. */
module Ner {
  import opened Wrappers
  import opened PyStrings
  import opened Dicts
  import opened Sorting
  import opened Utils

  /** A sensitive span: its text, its kind, its offsets `[start, end)` in the
      text it was found in, and how sure the recogniser is of it. */
  datatype Entity = Entity(text: string, kind: string, start: int, end: int, confidence: real)

  function StartOf(e: Entity): int { e.start }

  // ------------------------------------------------------------------- overlap

  /** `_is_overlap`: neither span ends at or before the other's start. */
  predicate Overlap(a: Entity, b: Entity) {
    !(a.end <= b.start || b.end <= a.start)
  }

  predicate Covers(e: Entity, x: int) {
    e.start <= x < e.end
  }

  /** The test does not depend on the order of its arguments, and two
      non-empty spans overlap exactly when some position lies in both. */
  lemma OverlapMeaning(a: Entity, b: Entity)
    ensures Overlap(a, b) == Overlap(b, a)
    ensures a.start < a.end && b.start < b.end ==>
      (Overlap(a, b) <==> exists x :: Covers(a, x) && Covers(b, x))
  {
    if Overlap(a, b) && a.start < a.end && b.start < b.end {
      var x := if a.start < b.start then b.start else a.start;
      assert Covers(a, x) && Covers(b, x);
    }
  }

  /** No two entities of the list overlap. */
  predicate Disjoint(s: seq<Entity>) {
    forall i, j :: 0 <= i < j < |s| ==> !Overlap(s[i], s[j])
  }

  // ---------------------------------------------------------------- RegexNER

  datatype Match = Match(start: int, end: int)

  /** The `re` module as the recogniser uses it: whether a pattern compiles,
      and the matches `finditer(pattern, text)` yields, left to right. */
  datatype RegexEngine = RegexEngine(compiles: string -> bool, finditer: (string, string) -> seq<Match>)

  /** What a real regex engine guarantees: every match lies inside the text. */
  ghost predicate MatchesInText(engine: RegexEngine) {
    forall p, t, m | m in engine.finditer(p, t) :: 0 <= m.start <= m.end <= |t|
  }

  /** A RegexNER: its pattern table, label to pattern, in insertion order. */
  datatype RegexNer = RegexNer(patterns: Dict<string, string>, engine: RegexEngine)

  /** The entity for one match: the matched text, the pattern's label, full confidence. */
  function MatchEntity(kind: string, m: Match, text: string): Entity {
    Entity(Slice(text, m.start, m.end), kind, m.start, m.end, 1.0)
  }

  function LabelEntities(kind: string, ms: seq<Match>, text: string): seq<Entity> {
    seq(|ms|, i requires 0 <= i < |ms| => MatchEntity(kind, ms[i], text))
  }

  /** All matches of every pattern, pattern by pattern in table order. */
  function RegexEntities(patterns: Dict<string, string>, engine: RegexEngine, text: string): seq<Entity> {
    if patterns == [] then []
    else LabelEntities(patterns[0].0, engine.finditer(patterns[0].1, text), text)
         + RegexEntities(patterns[1..], engine, text)
  }

  /** Every pattern of the table compiles. */
  predicate Compiles(patterns: Dict<string, string>, engine: RegexEngine) {
    forall i :: 0 <= i < |patterns| ==> engine.compiles(patterns[i].1)
  }

  /** `RegexNER(patterns)`: compile every pattern in table order; the first
      one that does not compile raises NERError. */
  method CompileRegexNer(patterns: Dict<string, string>, engine: RegexEngine) returns (r: Result<RegexNer>)
    requires DistinctKeys(patterns)
    ensures r.Err? <==> !Compiles(patterns, engine)
    ensures r.Err? ==> r.error == NerError
    ensures r.Ok? ==> r.value == RegexNer(patterns, engine)
  {
    var table: Dict<string, string> := [];
    for i := 0 to |patterns|
      invariant table == patterns[..i]
      invariant forall j :: 0 <= j < i ==> engine.compiles(patterns[j].1)
    {
      var (kind, pattern) := patterns[i];
      if !engine.compiles(pattern) {
        return Err(NerError);
      }
      assert kind !in Keys(table);
      table := Put(table, kind, pattern);
      assert table == patterns[..i + 1];
    }
    assert patterns[..|patterns|] == patterns;
    return Ok(RegexNer(table, engine));
  }

  /** The inner loop of `RegexNER.extract_entities`: one entity per match
      of a pattern, in match order. */
  method MatchesToEntities(kind: string, ms: seq<Match>, text: string) returns (es: seq<Entity>)
    ensures es == LabelEntities(kind, ms, text)
  {
    es := [];
    for j := 0 to |ms|
      invariant es == LabelEntities(kind, ms[..j], text)
    {
      es := es + [Entity(Slice(text, ms[j].start, ms[j].end), kind, ms[j].start, ms[j].end, 1.0)];
      assert LabelEntities(kind, ms[..j + 1], text) == LabelEntities(kind, ms[..j], text) + [MatchEntity(kind, ms[j], text)];
    }
    assert ms[..|ms|] == ms;
  }

  /** The table from position `i` on yields the matches of pattern `i`, then the rest. */
  lemma RegexEntitiesStep(patterns: Dict<string, string>, engine: RegexEngine, text: string, i: nat)
    requires i < |patterns|
    ensures RegexEntities(patterns[i..], engine, text)
         == LabelEntities(patterns[i].0, engine.finditer(patterns[i].1, text), text)
            + RegexEntities(patterns[i + 1..], engine, text)
  {
    assert patterns[i..][1..] == patterns[i + 1..];
  }

  /** `RegexNER.extract_entities`: the nested loop over patterns and matches. */
  method RegexExtract(ner: RegexNer, text: string) returns (es: seq<Entity>)
    ensures es == RegexEntities(ner.patterns, ner.engine, text)
  {
    es := [];
    var patterns := ner.patterns;
    for i := 0 to |patterns|
      invariant es + RegexEntities(patterns[i..], ner.engine, text) == RegexEntities(patterns, ner.engine, text)
    {
      var (kind, pattern) := patterns[i];
      var found := MatchesToEntities(kind, ner.engine.finditer(pattern, text), text);
      RegexEntitiesStep(patterns, ner.engine, text, i);
      es := es + found;
    }
  }

  /** An entity comes out of the regex recogniser exactly when some pattern
      of the table matched its span; it then carries that pattern's label,
      confidence 1.0 and the text of its span. */
  lemma {:induction false} RegexEntityOrigin(patterns: Dict<string, string>, engine: RegexEngine, text: string, e: Entity)
    ensures e in RegexEntities(patterns, engine, text) <==>
      exists i, m :: 0 <= i < |patterns| && m in engine.finditer(patterns[i].1, text)
        && e == MatchEntity(patterns[i].0, m, text)
    ensures e in RegexEntities(patterns, engine, text) ==>
      e.confidence == 1.0 && e.kind in Keys(patterns) && e.text == Slice(text, e.start, e.end)
  {
    if patterns != [] {
      RegexEntityOrigin(patterns[1..], engine, text, e);
      var ms := engine.finditer(patterns[0].1, text);
      var here := LabelEntities(patterns[0].0, ms, text);
      assert e in here <==> exists m :: m in ms && e == MatchEntity(patterns[0].0, m, text) by {
        if e in here {
          var k :| 0 <= k < |here| && here[k] == e;
          assert ms[k] in ms;
        }
        if exists m :: m in ms && e == MatchEntity(patterns[0].0, m, text) {
          var m :| m in ms && e == MatchEntity(patterns[0].0, m, text);
          var k :| 0 <= k < |ms| && ms[k] == m;
          assert here[k] == e;
        }
      }
      if e in RegexEntities(patterns[1..], engine, text) {
        var i, m :| 0 <= i < |patterns[1..]| && m in engine.finditer(patterns[1..][i].1, text)
          && e == MatchEntity(patterns[1..][i].0, m, text);
        assert patterns[1..][i] == patterns[i + 1];
      }
      if exists i, m :: 0 <= i < |patterns| && m in engine.finditer(patterns[i].1, text)
          && e == MatchEntity(patterns[i].0, m, text) {
        var i, m :| 0 <= i < |patterns| && m in engine.finditer(patterns[i].1, text)
          && e == MatchEntity(patterns[i].0, m, text);
        if i > 0 {
          assert patterns[1..][i - 1] == patterns[i];
        }
      }
    }
  }

  // ------------------------------------------------------------------ LLMNER

  /** The `confidence` field of a candidate as `float()` sees it: a number
      (or numeric string), a string `float()` rejects with ValueError, or a
      value of another type that `float()` rejects with TypeError. */
  datatype ConfidenceField = Number(value: real) | Unparsable | WrongType

  /** One item of the reply's `entities` list, each field possibly missing;
      a `text` of a type other than str never equals a slice. */
  datatype Candidate = Candidate(
    text: Option<Dyn<string>>,
    kind: Option<string>,
    start: Option<int>,
    end: Option<int>,
    confidence: Option<ConfidenceField>)

  /** A decoded reply: a JSON value that is not an object, or an object with
      a possibly missing `entities` field whose items may not be objects. */
  datatype Reply = NotAnObject | Object(entities: Option<Dyn<seq<Dyn<Candidate>>>>)

  /** An LLMNER. `caller` stands for building the prompt from the entity types
      and the text and calling the model (None: the call raised); `decode` is
      `json.loads` (None: JSONDecodeError). */
  datatype LlmNer = LlmNer(
    caller: (seq<string>, string) -> Option<string>,
    decode: string -> Option<Reply>,
    entityTypes: seq<string>,
    threshold: real,
    maxTextLength: int)

  const DefaultEntityTypes: seq<string> := [
    "PERSON", "EMAIL", "PHONE", "ID_NUMBER", "IDCN", "CREDIT_CARD", "BANK_ACCOUNT", "ADDRESS",
    "ORGANIZATION", "COMPANY", "LICENSE_PLATE", "IP_ADDRESS", "URL", "LOCATION", "FINANCIAL_INFO"
  ]
  const DefaultThreshold: real := 0.7
  const DefaultMaxTextLength: int := 2000

  /** `LLMNER(llm_caller, entity_types)` with the default threshold and length
      limit: a missing or empty type list becomes the fifteen default types. */
  function NewLlmNer(caller: (seq<string>, string) -> Option<string>, decode: string -> Option<Reply>,
                     entityTypes: Option<seq<string>>): (r: LlmNer)
    ensures r.entityTypes != []
    ensures entityTypes.Some? && entityTypes.value != [] ==> r.entityTypes == entityTypes.value
    ensures entityTypes.None? || entityTypes.value == [] ==> r.entityTypes == DefaultEntityTypes
    ensures r.threshold == 0.7 && r.maxTextLength == 2000
  {
    var types := if entityTypes.Some? && entityTypes.value != [] then entityTypes.value else DefaultEntityTypes;
    LlmNer(caller, decode, types, DefaultThreshold, DefaultMaxTextLength)
  }

  function FirstIndex(s: string, c: char): (r: Option<nat>)
    ensures r.None? <==> c !in s
    ensures r.Some? ==> r.value < |s| && s[r.value] == c && c !in s[..r.value]
  {
    if s == [] then None
    else if s[0] == c then Some(0)
    else
      match FirstIndex(s[1..], c)
      case None => None
      case Some(i) => assert s[..i + 1] == [s[0]] + s[1..][..i]; Some(i + 1)
  }

  function LastIndex(s: string, c: char): (r: Option<nat>)
    ensures r.None? <==> c !in s
    ensures r.Some? ==> r.value < |s| && s[r.value] == c && c !in s[r.value + 1..]
  {
    if s == [] then None
    else if s[|s| - 1] == c then Some(|s| - 1)
    else
      var init := s[..|s| - 1];
      assert s == init + [s[|s| - 1]];
      match LastIndex(init, c)
      case None => None
      case Some(i) => assert s[i + 1..] == init[i + 1..] + [s[|s| - 1]]; Some(i)
  }

  /** Some `{` comes before some `}`: the regex `\{.*\}` (DOTALL) matches. */
  predicate HasBlock(s: string) {
    exists i, j :: 0 <= i < j < |s| && s[i] == '{' && s[j] == '}'
  }

  /** The part of the reply handed to the JSON decoder: from its first `{`
      through its last `}` when the regex matches, otherwise the whole reply. */
  function ExtractBlock(reply: string): (r: string)
    ensures HasBlock(reply) ==>
      2 <= |r| && r[0] == '{' && r[|r| - 1] == '}'
      && exists a :: 0 <= a <= |reply| - |r| && reply[a..a + |r|] == r
           && '{' !in reply[..a] && '}' !in reply[a + |r|..]
    ensures !HasBlock(reply) ==> r == reply
  {
    match (FirstIndex(reply, '{'), LastIndex(reply, '}'))
    case (Some(i), Some(j)) =>
      if i < j then
        var r := reply[i..j + 1];
        assert reply[i..i + |r|] == r;
        r
      else reply
    case _ => reply
  }

  /** The offset check: with missing offsets read as 0, `0 <= start < end <=
      len(text)` and the reported text equals the slice. */
  predicate Accepted(c: Candidate, text: string) {
    var start, end := c.start.GetOr(0), c.end.GetOr(0);
    0 <= start < end <= |text| && c.text.GetOr(Of("")) == Of(text[start..end])
  }

  /** The entity built from an accepted candidate; a missing label reads as
      UNKNOWN. */
  function CandidateEntity(c: Candidate, text: string, confidence: real): Entity
    requires Accepted(c, text)
  {
    var start, end := c.start.GetOr(0), c.end.GetOr(0);
    Entity(text[start..end], c.kind.GetOr("UNKNOWN"), start, end, confidence)
  }

  /** What reading a candidate's confidence does: a missing field reads as 0.5. */
  function ConfidenceOf(c: Candidate): ConfidenceField {
    c.confidence.GetOr(Number(0.5))
  }

  /** The outcome of the item loop: the entities built, or a ValueError from
      `float()` (which abandons the whole reply), or another exception. */
  datatype Parsed = Parsed(entities: seq<Entity>) | Abandoned | Raised

  function ParseItems(items: seq<Dyn<Candidate>>, text: string): Parsed {
    if items == [] then Parsed([])
    else
      match items[0]
      case Other => Raised
      case Of(c) =>
        if !Accepted(c, text) then ParseItems(items[1..], text)
        else
          match ConfidenceOf(c)
          case Unparsable => Abandoned
          case WrongType => Raised
          case Number(x) =>
            match ParseItems(items[1..], text)
            case Parsed(es) => Parsed([CandidateEntity(c, text, x)] + es)
            case other => other
  }

  /** `_parse_llm_response(reply, text)`: Err when an exception escapes it. */
  function ParsedReply(decode: string -> Option<Reply>, reply: string, text: string): Result<seq<Entity>> {
    match decode(ExtractBlock(reply))
    case None => Ok([])
    case Some(NotAnObject) => Err(NerError)
    case Some(Object(None)) => Ok([])
    case Some(Object(Some(Other))) => Err(NerError)
    case Some(Object(Some(Of(items)))) =>
      match ParseItems(items, text)
      case Parsed(es) => Ok(es)
      case Abandoned => Ok([])
      case Raised => Err(NerError)
  }

  function Prefixed(xs: seq<Entity>, p: Parsed): Parsed {
    match p
    case Parsed(ys) => Parsed(xs + ys)
    case other => other
  }

  /** The loop of `_parse_llm_response`, which appends each accepted candidate. */
  method ParseReply(decode: string -> Option<Reply>, reply: string, text: string) returns (r: Result<seq<Entity>>)
    ensures r == ParsedReply(decode, reply, text)
  {
    var data := decode(ExtractBlock(reply));
    if data.None? {
      return Ok([]);
    }
    if data.value.NotAnObject? {
      return Err(NerError);
    }
    var field := data.value.entities;
    if field.None? {
      return Ok([]);
    }
    if field.value.Other? {
      return Err(NerError);
    }
    var items := field.value.value;
    var entities: seq<Entity> := [];
    assert Prefixed([], ParseItems(items, text)) == ParseItems(items, text) by {
      if ParseItems(items, text).Parsed? {
        assert [] + ParseItems(items, text).entities == ParseItems(items, text).entities;
      }
    }
    for i := 0 to |items|
      invariant ParseItems(items, text) == Prefixed(entities, ParseItems(items[i..], text))
    {
      assert items[i..][0] == items[i] && items[i..][1..] == items[i + 1..];
      if items[i].Other? {
        return Err(NerError);
      }
      var c := items[i].value;
      if Accepted(c, text) {
        var start, end := c.start.GetOr(0), c.end.GetOr(0);
        var conf := ConfidenceOf(c);
        if conf.Unparsable? {
          return Ok([]);
        }
        if conf.WrongType? {
          return Err(NerError);
        }
        var e := Entity(text[start..end], c.kind.GetOr("UNKNOWN"), start, end, conf.value);
        assert e == CandidateEntity(c, text, conf.value);
        if ParseItems(items[i + 1..], text).Parsed? {
          var es := ParseItems(items[i + 1..], text).entities;
          assert ParseItems(items[i..], text) == Parsed([e] + es);
          assert entities + ([e] + es) == (entities + [e]) + es;
        }
        entities := entities + [e];
      } else {
        assert ParseItems(items[i..], text) == ParseItems(items[i + 1..], text);
      }
    }
    assert entities + [] == entities;
    return Ok(entities);
  }

  /** Every entity the item loop builds comes from an item that passed the
      offset check, with that item's offsets, a label defaulting to UNKNOWN
      and a confidence defaulting to 0.5. */
  lemma {:induction false} ParseItemsSound(items: seq<Dyn<Candidate>>, text: string)
    requires ParseItems(items, text).Parsed?
    ensures forall e | e in ParseItems(items, text).entities ::
      exists c :: Of(c) in items && Accepted(c, text) && ConfidenceOf(c) == Number(e.confidence)
        && e.start == c.start.GetOr(0) && e.end == c.end.GetOr(0)
        && e.kind == c.kind.GetOr("UNKNOWN")
        && 0 <= e.start < e.end <= |text| && e.text == text[e.start..e.end]
  {
    if items != [] {
      assert forall x | x in items[1..] :: x in items;
      if items[0].Of? && Accepted(items[0].value, text) {
        if ParseItems(items[1..], text).Parsed? {
          ParseItemsSound(items[1..], text);
        }
      } else {
        ParseItemsSound(items[1..], text);
      }
    }
  }

  /** A candidate with no `end` never passes the offset check (its end reads as 0). */
  lemma MissingEndRejected(c: Candidate, text: string)
    requires c.end.None?
    ensures !Accepted(c, text)
  {
  }

  /** The entities kept by the threshold filter: those at or above it, in order. */
  function AboveThreshold(es: seq<Entity>, threshold: real): (r: seq<Entity>)
    ensures |r| <= |es|
    ensures forall e :: e in r <==> e in es && e.confidence >= threshold
  {
    if es == [] then []
    else
      var rest := AboveThreshold(es[1..], threshold);
      assert forall e :: e in es <==> e == es[0] || e in es[1..];
      if es[0].confidence >= threshold then [es[0]] + rest else rest
  }

  /** The part of the original text the model was shown. */
  function Visible(text: string, maxTextLength: int): string {
    if |text| > maxTextLength then Take(text, maxTextLength) else text
  }

  /** `LLMNER.extract_entities`, with the reported offsets checked against
      `view`: call the model on the cut text, parse its reply, keep the
      entities at or above the threshold; any exception becomes NERError. */
  function LlmEntitiesAgainst(llm: LlmNer, text: string, view: string): Result<seq<Entity>> {
    match llm.caller(llm.entityTypes, Truncate(text, llm.maxTextLength))
    case None => Err(NerError)
    case Some(reply) =>
      match ParsedReply(llm.decode, reply, view)
      case Err(_) => Err(NerError)
      case Ok(es) => Ok(AboveThreshold(es, llm.threshold))
  }

  /** The extraction as written: offsets are checked against the cut text,
      marker included. */
  function LlmEntitiesAsWritten(llm: LlmNer, text: string): Result<seq<Entity>> {
    LlmEntitiesAgainst(llm, text, Truncate(text, llm.maxTextLength))
  }

  /** The extraction as intended: offsets are checked against the part of
      the original text the model was shown. */
  function LlmEntities(llm: LlmNer, text: string): Result<seq<Entity>> {
    LlmEntitiesAgainst(llm, text, Visible(text, llm.maxTextLength))
  }

  /** The LLM recogniser's steps, calling the item loop; the offsets are
      checked against the cut text the model was shown, as written. */
  method LlmExtract(llm: LlmNer, text: string) returns (r: Result<seq<Entity>>)
    ensures r == LlmEntitiesAsWritten(llm, text)
  {
    var shown := Truncate(text, llm.maxTextLength);
    var reply := llm.caller(llm.entityTypes, shown);
    if reply.None? {
      return Err(NerError);
    }
    var parsed := ParseReply(llm.decode, reply.value, shown);
    if parsed.Err? {
      return Err(NerError);
    }
    return Ok(AboveThreshold(parsed.value, llm.threshold));
  }

  /** The reply parser returns only offset-checked entities, and an
      undecodable reply gives no entities rather than an error. */
  lemma ParsedReplySound(decode: string -> Option<Reply>, reply: string, text: string)
    ensures decode(ExtractBlock(reply)).None? ==> ParsedReply(decode, reply, text) == Ok([])
    ensures ParsedReply(decode, reply, text).Ok? ==>
      forall e | e in ParsedReply(decode, reply, text).value ::
        0 <= e.start < e.end <= |text| && e.text == text[e.start..e.end]
  {
    match decode(ExtractBlock(reply))
    case Some(Object(Some(Of(items)))) =>
      if ParseItems(items, text).Parsed? {
        ParseItemsSound(items, text);
      }
    case _ =>
  }

  /** Every entity the (intended) LLM recogniser returns meets the threshold
      and is a non-empty span of the ORIGINAL text holding its reported text. */
  lemma LlmEntitiesSound(llm: LlmNer, text: string)
    ensures LlmEntities(llm, text).Ok? ==>
      forall e | e in LlmEntities(llm, text).value ::
        e.confidence >= llm.threshold
        && 0 <= e.start < e.end <= |text| && e.text == text[e.start..e.end]
  {
    var view := Visible(text, llm.maxTextLength);
    assert view == text[..|view|];
    match llm.caller(llm.entityTypes, Truncate(text, llm.maxTextLength))
    case None =>
    case Some(reply) =>
      ParsedReplySound(llm.decode, reply, view);
      forall e | LlmEntities(llm, text).Ok? && e in LlmEntities(llm, text).value
        ensures e.confidence >= llm.threshold
          && 0 <= e.start < e.end <= |text| && e.text == text[e.start..e.end]
      {
        assert text[e.start..e.end] == view[e.start..e.end];
      }
  }

  /** As written, the guarantee holds only of the cut text: every entity is a
      span of `text[:max] + "...[截断]"`. */
  lemma LlmEntitiesAsWrittenSound(llm: LlmNer, text: string)
    ensures LlmEntitiesAsWritten(llm, text).Ok? ==>
      forall e | e in LlmEntitiesAsWritten(llm, text).value ::
        e.confidence >= llm.threshold
        && 0 <= e.start < e.end <= |Truncate(text, llm.maxTextLength)|
        && e.text == Truncate(text, llm.maxTextLength)[e.start..e.end]
  {
    var view := Truncate(text, llm.maxTextLength);
    match llm.caller(llm.entityTypes, view)
    case None =>
    case Some(reply) =>
      ParsedReplySound(llm.decode, reply, view);
  }

  /** Within the length limit nothing is cut, and the extraction as written
      is the intended one. */
  lemma LlmAgreesWithinLimit(llm: LlmNer, text: string)
    requires |text| <= llm.maxTextLength
    ensures LlmEntitiesAsWritten(llm, text) == LlmEntities(llm, text)
    ensures LlmEntitiesAsWritten(llm, text).Ok? ==>
      forall e | e in LlmEntitiesAsWritten(llm, text).value ::
        e.confidence >= llm.threshold
        && 0 <= e.start < e.end <= |text| && e.text == text[e.start..e.end]
  {
    TruncateShape(text, llm.maxTextLength);
    LlmEntitiesSound(llm, text);
  }

  /** The counterexample: a 2010-character text, a model that reports the
      span [1999, 2003) of what it was shown ("a..."), and the recogniser as
      written accepts it although the original text there reads "aaaa". */
  lemma TruncatedOffsetsMismatch()
    ensures var text := seq(2010, _ => 'a');
      var c := Candidate(Some(Of("a...")), Some("PERSON"), Some(1999), Some(2003), Some(Number(0.9)));
      var llm := LlmNer((types, shown) => Some("{}"), block => Some(Object(Some(Of([Of(c)])))),
                        DefaultEntityTypes, DefaultThreshold, DefaultMaxTextLength);
      LlmEntitiesAsWritten(llm, text) == Ok([Entity("a...", "PERSON", 1999, 2003, 0.9)])
      && text[1999..2003] != "a..."
  {
    var text := seq(2010, _ => 'a');
    var c := Candidate(Some(Of("a...")), Some("PERSON"), Some(1999), Some(2003), Some(Number(0.9)));
    var llm := LlmNer((types, shown) => Some("{}"), block => Some(Object(Some(Of([Of(c)])))),
                      DefaultEntityTypes, DefaultThreshold, DefaultMaxTextLength);
    var shown := Truncate(text, 2000);
    assert shown == text[..2000] + TruncationMarker;
    assert shown[1999..2003] == "a...";
    assert Accepted(c, shown);
    assert ParseItems([Of(c)][1..], shown) == Parsed([]);
    assert ParseItems([Of(c)], shown) == Parsed([Entity("a...", "PERSON", 1999, 2003, 0.9)]);
    assert text[1999..2003][1] == 'a';
  }

  // --------------------------------------------------------------- HybridNER

  /** The recogniser a DataMasker holds: a RegexNER, an LLMNER, or a
      HybridNER with either part possibly absent. */
  datatype Recognizer =
    | RegexOnly(regex: RegexNer)
    | LlmOnly(llm: LlmNer)
    | Hybrid(regexPart: Option<RegexNer>, llmPart: Option<LlmNer>)

  /** `HybridNER(regex_ner, llm_ner)`: at least one part must be given. */
  function NewHybrid(regexPart: Option<RegexNer>, llmPart: Option<LlmNer>): (r: Result<Recognizer>)
    ensures r.Err? <==> regexPart.None? && llmPart.None?
    ensures r.Err? ==> r.error == NerError
    ensures r.Ok? ==> r.value.Hybrid? && r.value.regexPart == regexPart && r.value.llmPart == llmPart
  {
    if regexPart.None? && llmPart.None? then Err(NerError) else Ok(Hybrid(regexPart, llmPart))
  }

  /** The index of the first accepted entity the candidate overlaps. */
  function FirstOverlap(merged: seq<Entity>, c: Entity): (r: Option<nat>)
    ensures r.None? ==> forall j :: 0 <= j < |merged| ==> !Overlap(c, merged[j])
    ensures r.Some? ==> r.value < |merged| && Overlap(c, merged[r.value])
    ensures r.Some? ==> forall j :: 0 <= j < r.value ==> !Overlap(c, merged[j])
  {
    if merged == [] then None
    else if Overlap(c, merged[0]) then Some(0)
    else
      match FirstOverlap(merged[1..], c)
      case None => None
      case Some(i) => Some(i + 1)
  }

  /** One candidate against the accepted list: appended if it overlaps
      nothing, otherwise it replaces the first entity it overlaps when it is
      strictly more confident, and is dropped if not. */
  function MergeStep(merged: seq<Entity>, c: Entity): seq<Entity> {
    match FirstOverlap(merged, c)
    case None => merged + [c]
    case Some(i) => if c.confidence > merged[i].confidence then merged[i := c] else merged
  }

  function MergeAll(merged: seq<Entity>, cs: seq<Entity>): seq<Entity>
    decreases |cs|
  {
    if cs == [] then merged else MergeAll(MergeStep(merged, cs[0]), cs[1..])
  }

  /** `_merge_entities`: the candidates in stable ascending-start order, each
      merged into the accepted list in turn. */
  function Merge(es: seq<Entity>): seq<Entity> {
    if es == [] then [] else MergeAll([], SortBy(es, StartOf))
  }

  /** The nested loop of `_merge_entities`, with its `overlapped` flag. */
  method MergeEntities(entities: seq<Entity>) returns (merged: seq<Entity>)
    ensures merged == Merge(entities)
  {
    if entities == [] {
      return [];
    }
    var sorted := SortBy(entities, StartOf);
    merged := [];
    for n := 0 to |sorted|
      invariant MergeAll(merged, sorted[n..]) == Merge(entities)
    {
      var entity := sorted[n];
      assert sorted[n..][1..] == sorted[n + 1..];
      var overlapped := false;
      ghost var before := merged;
      var i := 0;
      while i < |merged|
        invariant 0 <= i <= |merged| == |before|
        invariant !overlapped ==> merged == before && forall j :: 0 <= j < i ==> !Overlap(entity, merged[j])
        invariant overlapped ==> merged == MergeStep(before, entity)
      {
        if Overlap(entity, merged[i]) {
          assert FirstOverlap(before, entity) == Some(i);
          if entity.confidence > merged[i].confidence {
            merged := merged[i := entity];
          }
          overlapped := true;
          break;
        }
        i := i + 1;
      }
      if !overlapped {
        assert FirstOverlap(before, entity).None?;
        merged := merged + [entity];
      }
    }
  }

  /** A candidate starting at or after two entities that it both overlaps
      shows that those two overlap each other. */
  lemma OverlapThroughStart(c: Entity, x: Entity, y: Entity)
    requires x.start <= c.start && y.start <= c.start
    ensures Overlap(c, x) && Overlap(c, y) ==> Overlap(x, y)
  {
  }

  /** A merge step keeps the accepted list free of overlaps as long as no
      accepted entity starts after the candidate, and only adds the candidate. */
  lemma MergeStepKeeps(m: seq<Entity>, c: Entity)
    requires Disjoint(m)
    requires forall x | x in m :: x.start <= c.start
    ensures Disjoint(MergeStep(m, c))
    ensures forall x | x in MergeStep(m, c) :: x.start <= c.start
    ensures multiset(MergeStep(m, c)) <= multiset(m) + multiset{c}
    ensures 1 <= |MergeStep(m, c)| <= |m| + 1 && |m| <= |MergeStep(m, c)|
  {
    match FirstOverlap(m, c)
    case None =>
    case Some(i) =>
      if c.confidence > m[i].confidence {
        var r := m[i := c];
        forall p, q | 0 <= p < q < |r| ensures !Overlap(r[p], r[q]) {
          if p == i {
            OverlapThroughStart(c, m[i], m[q]);
          } else if q == i {
            OverlapThroughStart(c, m[p], m[i]);
          }
        }
        assert forall x | x in r :: x == c || x in m;
      }
  }

  lemma {:induction false} MergeAllKeeps(m: seq<Entity>, cs: seq<Entity>)
    requires Disjoint(m) && SortedBy(cs, StartOf)
    requires cs != [] ==> forall x | x in m :: x.start <= cs[0].start
    ensures Disjoint(MergeAll(m, cs))
    ensures multiset(MergeAll(m, cs)) <= multiset(m) + multiset(cs)
    ensures |m| <= |MergeAll(m, cs)| <= |m| + |cs|
    ensures cs != [] ==> 1 <= |MergeAll(m, cs)|
    decreases |cs|
  {
    if cs != [] {
      MergeStepKeeps(m, cs[0]);
      var m' := MergeStep(m, cs[0]);
      assert cs == [cs[0]] + cs[1..];
      if |cs| > 1 {
        assert StartOf(cs[0]) <= StartOf(cs[1]);
      }
      MergeAllKeeps(m', cs[1..]);
    }
  }

  /** The merge gives nothing for nothing; otherwise at least one and at most
      as many entities as it was given, each one of the inputs, and no two
      of them overlap. */
  lemma MergeResult(es: seq<Entity>)
    ensures es == [] ==> Merge(es) == []
    ensures es != [] ==> 1 <= |Merge(es)| <= |es|
    ensures multiset(Merge(es)) <= multiset(es)
    ensures Disjoint(Merge(es))
  {
    if es != [] {
      var sorted := SortBy(es, StartOf);
      SortBySorted(es, StartOf);
      SortByPermutes(es, StartOf);
      MergeAllKeeps([], sorted);
    }
  }

  lemma {:induction false} MergeAllDisjoint(m: seq<Entity>, cs: seq<Entity>)
    requires Disjoint(m + cs)
    ensures MergeAll(m, cs) == m + cs
    decreases |cs|
  {
    if cs != [] {
      var s := m + cs;
      forall j | 0 <= j < |m| ensures !Overlap(cs[0], m[j]) {
        assert s[j] == m[j] && s[|m|] == cs[0];
      }
      assert MergeStep(m, cs[0]) == m + [cs[0]];
      assert (m + [cs[0]]) + cs[1..] == s;
      MergeAllDisjoint(m + [cs[0]], cs[1..]);
    }
  }

  lemma InsertDisjoint(a: seq<Entity>, x: Entity, b: seq<Entity>)
    requires Disjoint(a + b)
    requires forall y | y in a + b :: !Overlap(x, y)
    ensures Disjoint(a + [x] + b)
  {
    var s, r := a + b, a + [x] + b;
    forall i, j | 0 <= i < j < |r| ensures !Overlap(r[i], r[j]) {
      var i' := if i < |a| then i else i - 1;
      var j' := if j < |a| then j else j - 1;
      if i == |a| {
        assert r[j] == s[j'] && s[j'] in s;
      } else if j == |a| {
        assert r[i] == s[i'] && s[i'] in s;
      } else {
        assert r[i] == s[i'] && r[j] == s[j'] && i' < j';
      }
    }
  }

  /** Sorting does not make entities overlap. */
  lemma {:induction false} SortKeepsDisjoint(s: seq<Entity>, key: Entity -> int)
    requires Disjoint(s)
    ensures Disjoint(SortBy(s, key))
  {
    if s != [] {
      var x := s[0];
      var t := SortBy(s[1..], key);
      assert Disjoint(s[1..]) by {
        forall i, j | 0 <= i < j < |s[1..]| ensures !Overlap(s[1..][i], s[1..][j]) {
          assert s[1..][i] == s[i + 1] && s[1..][j] == s[j + 1];
        }
      }
      SortKeepsDisjoint(s[1..], key);
      var p := Rank(t, key, key(x));
      assert t == t[..p] + t[p..];
      forall y | y in t[..p] + t[p..] ensures !Overlap(x, y) {
        SortByMembers(s[1..], key, y);
        var j :| 0 <= j < |s[1..]| && s[1..][j] == y;
        assert s[j + 1] == y;
      }
      InsertDisjoint(t[..p], x, t[p..]);
    }
  }

  /** Entities that do not overlap all survive the merge, in stable
      ascending-start order. */
  lemma MergeDisjointInput(es: seq<Entity>)
    requires Disjoint(es)
    ensures Merge(es) == SortBy(es, StartOf)
  {
    if es != [] {
      SortKeepsDisjoint(es, StartOf);
      assert [] + SortBy(es, StartOf) == SortBy(es, StartOf);
      MergeAllDisjoint([], SortBy(es, StartOf));
    }
  }

  // The merge rule on two overlapping spans A = [0, 10) and B = [5, 15):
  // the first in start order is kept unless the later one is strictly more
  // confident, in which case it takes its place; a tie keeps the first.

  /** A more confident first span beats the later one. */
  lemma MergeKeepsFirst()
    ensures Merge([Entity("aaaaaaaaaa", "EMAIL", 0, 10, 1.0), Entity("bbbbbbbbbb", "PHONE", 5, 15, 0.5)])
         == [Entity("aaaaaaaaaa", "EMAIL", 0, 10, 1.0)]
  {
    var a, b := Entity("aaaaaaaaaa", "EMAIL", 0, 10, 1.0), Entity("bbbbbbbbbb", "PHONE", 5, 15, 0.5);
    assert SortBy([a, b], StartOf) == [a, b] by {
      assert SortBy([b], StartOf) == [b];
    }
  }

  /** A strictly more confident later span replaces the earlier one, whatever
      the order the two were listed in. */
  lemma MergeTakesMoreConfident()
    ensures Merge([Entity("bbbbbbbbbb", "PHONE", 5, 15, 0.9), Entity("aaaaaaaaaa", "EMAIL", 0, 10, 0.5)])
         == [Entity("bbbbbbbbbb", "PHONE", 5, 15, 0.9)]
  {
    var a, b := Entity("aaaaaaaaaa", "EMAIL", 0, 10, 0.5), Entity("bbbbbbbbbb", "PHONE", 5, 15, 0.9);
    assert SortBy([b, a], StartOf) == [a, b] by {
      assert SortBy([a], StartOf) == [a];
      assert Rank([a], StartOf, 5) == 1;
    }
    assert FirstOverlap([a], b) == Some(0);
    assert MergeAll([a], [b]) == [b];
    assert MergeStep([], a) == [a] && [a, b][1..] == [b];
  }

  /** Equal confidence keeps the span that starts first. */
  lemma MergeTieKeepsFirst()
    ensures Merge([Entity("aaaaaaaaaa", "EMAIL", 0, 10, 0.8), Entity("bbbbbbbbbb", "PHONE", 5, 15, 0.8)])
         == [Entity("aaaaaaaaaa", "EMAIL", 0, 10, 0.8)]
  {
    var a, b := Entity("aaaaaaaaaa", "EMAIL", 0, 10, 0.8), Entity("bbbbbbbbbb", "PHONE", 5, 15, 0.8);
    assert SortBy([a, b], StartOf) == [a, b] by {
      assert SortBy([b], StartOf) == [b];
    }
    assert FirstOverlap([a], b) == Some(0);
    assert MergeAll([a], [b]) == [a];
  }

  // ------------------------------------------------------------- dispatching

  /** `extract_entities` of the recogniser: the hybrid one puts the regex
      results before the LLM results and merges them. */
  function Recognized(ner: Recognizer, text: string): Result<seq<Entity>> {
    match ner
    case RegexOnly(rx) => Ok(RegexEntities(rx.patterns, rx.engine, text))
    case LlmOnly(llm) => LlmEntitiesAsWritten(llm, text)
    case Hybrid(rx, llm) =>
      var fromRegex := if rx.Some? then RegexEntities(rx.value.patterns, rx.value.engine, text) else [];
      var fromLlm := if llm.Some? then LlmEntitiesAsWritten(llm.value, text) else Ok([]);
      match fromLlm
      case Err(e) => Err(e)
      case Ok(found) => Ok(Merge(fromRegex + found))
  }

  method Recognize(ner: Recognizer, text: string) returns (r: Result<seq<Entity>>)
    ensures r == Recognized(ner, text)
  {
    match ner
    case RegexOnly(rx) =>
      var es := RegexExtract(rx, text);
      return Ok(es);
    case LlmOnly(llm) =>
      r := LlmExtract(llm, text);
    case Hybrid(rx, llm) =>
      var all: seq<Entity> := [];
      if rx.Some? {
        all := RegexExtract(rx.value, text);
      }
      if llm.Some? {
        var found := LlmExtract(llm.value, text);
        if found.Err? {
          return Err(found.error);
        }
        all := all + found.value;
      } else {
        assert all + [] == all;
      }
      var merged := MergeEntities(all);
      return Ok(merged);
  }

  /** The text is within the length limit of the recogniser's LLM part, if
      it has one, so the model sees all of it. */
  predicate WithinLlmLimit(ner: Recognizer, text: string) {
    match ner
    case RegexOnly(_) => true
    case LlmOnly(llm) => |text| <= llm.maxTextLength
    case Hybrid(_, llm) => llm.Some? ==> |text| <= llm.value.maxTextLength
  }

  /** With an engine whose matches lie in the text and a text the LLM part
      sees in full, every recognised entity is a span of the text holding its
      reported text; a hybrid recogniser also returns no two overlapping
      entities. */
  lemma RecognizedSpans(ner: Recognizer, text: string)
    requires ner.RegexOnly? ==> MatchesInText(ner.regex.engine)
    requires ner.Hybrid? && ner.regexPart.Some? ==> MatchesInText(ner.regexPart.value.engine)
    requires WithinLlmLimit(ner, text)
    ensures Recognized(ner, text).Ok? ==> SpansOf(Recognized(ner, text).value, text)
    ensures ner.Hybrid? && Recognized(ner, text).Ok? ==> Disjoint(Recognized(ner, text).value)
  {
    match ner
    case RegexOnly(rx) =>
      RegexSpans(rx.patterns, rx.engine, text);
    case LlmOnly(llm) =>
      LlmAgreesWithinLimit(llm, text);
    case Hybrid(rx, llm) =>
      var fromRegex := if rx.Some? then RegexEntities(rx.value.patterns, rx.value.engine, text) else [];
      if rx.Some? {
        RegexSpans(rx.value.patterns, rx.value.engine, text);
      }
      if llm.Some? {
        LlmAgreesWithinLimit(llm.value, text);
      }
      if Recognized(ner, text).Ok? {
        var found := if llm.Some? then LlmEntitiesAsWritten(llm.value, text).value else [];
        assert SpansOf(fromRegex + found, text);
        MergeResult(fromRegex + found);
        MergeSpans(fromRegex + found, text);
      }
  }

  /** Every entity of the list is a span of the text holding its text. */
  predicate SpansOf(es: seq<Entity>, text: string) {
    forall e | e in es :: 0 <= e.start <= e.end <= |text| && e.text == text[e.start..e.end]
  }

  /** With an engine whose matches lie in the text, every regex entity is a
      span of the text. */
  lemma RegexSpans(patterns: Dict<string, string>, engine: RegexEngine, text: string)
    requires MatchesInText(engine)
    ensures SpansOf(RegexEntities(patterns, engine, text), text)
  {
    forall e | e in RegexEntities(patterns, engine, text)
      ensures 0 <= e.start <= e.end <= |text| && e.text == text[e.start..e.end]
    {
      RegexEntityOrigin(patterns, engine, text, e);
    }
  }

  /** Merging only drops entities, so spans stay spans. */
  lemma MergeSpans(es: seq<Entity>, text: string)
    requires SpansOf(es, text)
    ensures SpansOf(Merge(es), text)
  {
    MergeResult(es);
    forall e | e in Merge(es)
      ensures 0 <= e.start <= e.end <= |text| && e.text == text[e.start..e.end]
    {
      assert e in multiset(Merge(es));
    }
  }
}
