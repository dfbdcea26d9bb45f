/** rag_guard/pipeline.py: the RAGGuard facade. `prepare_chunks` masks every
    retrieved chunk and merges their mappings, `build_prompt` lays out the
    instructions, the masked context and the question, and `postprocess`
    restores all placeholders of an answer, or only those of chosen kinds. */
module Pipeline {
  import opened Wrappers
  import opened PyStrings
  import opened Dicts
  import opened Utils
  import opened Ner
  import opened Masker

  // ----------------------------------------------------------- prepare_chunks

  const DefaultMaxChunkLength: int := 10000

  /** What `prepare_chunks` returns: the masked chunks and the merged mapping. */
  datatype Prepared = Prepared(masked: seq<string>, mapping: Dict<string, string>)

  /** One chunk, cut at the limit and masked. */
  function MaskedChunk(ner: Recognizer, tz: Tokenizer, chunk: string, limit: int): Result<MaskResult> {
    MaskOutcome(ner, tz, Of(Truncate(chunk, limit)))
  }

  /** What masking each chunk on its own gives. */
  function ChunkOutcomes(ner: Recognizer, tz: Tokenizer, chunks: seq<string>, limit: int): (r: seq<Result<MaskResult>>)
    ensures |r| == |chunks|
    ensures forall i :: 0 <= i < |chunks| ==> r[i] == MaskedChunk(ner, tz, chunks[i], limit)
  {
    seq(|chunks|, i requires 0 <= i < |chunks| => MaskedChunk(ner, tz, chunks[i], limit))
  }

  /** The per-chunk outcomes taken left to right: each masked text is
      appended and each mapping merged with `dict.update`; the first failure
      propagates. */
  function Merged(os: seq<Result<MaskResult>>): Result<Prepared>
    decreases |os|
  {
    if os == [] then Ok(Prepared([], []))
    else
      match Merged(os[..|os| - 1])
      case Err(e) => Err(e)
      case Ok(p) =>
        match os[|os| - 1]
        case Err(e) => Err(e)
        case Ok(m) => Ok(Prepared(p.masked + [m.text], Update(p.mapping, m.mapping)))
  }

  /** `prepare_chunks` with the limit already defaulted. */
  function PreparedOutcome(ner: Recognizer, tz: Tokenizer, chunks: seq<string>, limit: int): Result<Prepared> {
    Merged(ChunkOutcomes(ner, tz, chunks, limit))
  }

  /** What the masker remembers as its last entities after the chunks are
      masked left to right from `initial`: those of the last chunk masked
      before the first failure. */
  function LastEntities(os: seq<Result<MaskResult>>, initial: seq<Entity>): seq<Entity>
    decreases |os|
  {
    if os == [] then initial
    else if Merged(os[..|os| - 1]).Ok? && os[|os| - 1].Ok? then os[|os| - 1].value.entities
    else LastEntities(os[..|os| - 1], initial)
  }

  /** After the first failure no chunk is masked, so the remembered entities
      stay those of the failed prefix. */
  lemma {:induction false} LastEntitiesStay(os: seq<Result<MaskResult>>, n: nat, initial: seq<Entity>)
    requires n <= |os|
    requires Merged(os[..n]).Err?
    ensures LastEntities(os, initial) == LastEntities(os[..n], initial)
    decreases |os|
  {
    if n == |os| {
      assert os[..n] == os;
    } else {
      var init := os[..|os| - 1];
      assert init[..n] == os[..n];
      MergedFailureStays(init, n);
      LastEntitiesStay(init, n, initial);
    }
  }

  /** One chunk more: a success extends the merge and becomes the
      remembered entities, a failure ends both. */
  lemma ChunkStep(os: seq<Result<MaskResult>>, i: nat, masked: seq<string>, combined: Dict<string, string>,
                  initial: seq<Entity>)
    requires i < |os|
    requires Merged(os[..i]) == Ok(Prepared(masked, combined))
    ensures os[i].Err? ==> Merged(os) == Err(os[i].error)
    ensures os[i].Err? ==> LastEntities(os, initial) == LastEntities(os[..i], initial)
    ensures os[i].Ok? ==> Merged(os[..i + 1]) == Ok(Prepared(masked + [os[i].value.text], Update(combined, os[i].value.mapping)))
    ensures os[i].Ok? ==> LastEntities(os[..i + 1], initial) == os[i].value.entities
  {
    assert os[..i + 1][..i] == os[..i];
    if os[i].Err? {
      MergedFailureStays(os, i + 1);
      LastEntitiesStay(os, i + 1, initial);
    }
  }

  /** After a merge that succeeded the remembered entities are those of the
      last chunk. */
  lemma LastEntitiesOfSuccess(os: seq<Result<MaskResult>>, initial: seq<Entity>)
    requires Merged(os).Ok? && os != []
    ensures LastEntities(os, initial) == os[|os| - 1].value.entities
  {
  }

  /** Outcome `o` carries a mapping that holds placeholder `k`. */
  predicate HasKey(o: Result<MaskResult>, k: string) {
    o.Ok? && k in Keys(o.value.mapping)
  }

  /** Merging a prefix that already failed gives the same failure. */
  lemma {:induction false} MergedFailureStays(os: seq<Result<MaskResult>>, n: nat)
    requires n <= |os|
    requires Merged(os[..n]).Err?
    ensures Merged(os) == Merged(os[..n])
    decreases |os|
  {
    if n == |os| {
      assert os[..n] == os;
    } else {
      var init := os[..|os| - 1];
      assert init[..n] == os[..n];
      MergedFailureStays(init, n);
    }
  }

  /** The merge fails exactly when some chunk failed, and then with the
      failure of the first one. */
  lemma {:induction false} MergedFailure(os: seq<Result<MaskResult>>)
    ensures Merged(os).Err? <==> exists i :: 0 <= i < |os| && os[i].Err?
    ensures Merged(os).Err? ==> exists i :: 0 <= i < |os| && os[i].Err? && os[i].error == Merged(os).error && forall j :: 0 <= j < i ==> os[j].Ok?
    decreases |os|
  {
    if os != [] {
      var init := os[..|os| - 1];
      MergedFailure(init);
      if Merged(init).Err? {
        var i :| 0 <= i < |init| && init[i].Err? && init[i].error == Merged(init).error && forall j :: 0 <= j < i ==> init[j].Ok?;
        assert os[i] == init[i];
        assert forall j :: 0 <= j < i ==> os[j] == init[j];
      } else if os[|os| - 1].Ok? {
        forall i | 0 <= i < |os| ensures os[i].Ok? {
          if i < |init| {
            assert os[i] == init[i];
          }
        }
      } else {
        assert forall j :: 0 <= j < |init| ==> os[j] == init[j];
      }
    }
  }

  /** A successful merge of a non-empty list is the successful merge of
      all but the last outcome, extended by the last one. */
  lemma MergedLast(os: seq<Result<MaskResult>>)
    requires os != [] && Merged(os).Ok?
    ensures Merged(os[..|os| - 1]).Ok? && os[|os| - 1].Ok?
    ensures Merged(os).value.masked == Merged(os[..|os| - 1]).value.masked + [os[|os| - 1].value.text]
    ensures Merged(os).value.mapping == Update(Merged(os[..|os| - 1]).value.mapping, os[|os| - 1].value.mapping)
  {
  }

  /** On success there is one masked text per chunk, in order, and the merged
      mapping is a well-formed dict. */
  lemma {:induction false} MergedShape(os: seq<Result<MaskResult>>)
    requires Merged(os).Ok?
    ensures |Merged(os).value.masked| == |os| && DistinctKeys(Merged(os).value.mapping)
    ensures forall i :: 0 <= i < |os| ==> os[i].Ok? && Merged(os).value.masked[i] == os[i].value.text
    decreases |os|
  {
    if os != [] {
      var init := os[..|os| - 1];
      MergedLast(os);
      MergedShape(init);
      TextsSnoc(os, Merged(init).value.masked, Merged(os).value.masked);
    }
  }

  /** Appending the last outcome's text to the texts of the others gives
      the texts of all of them. */
  lemma TextsSnoc(os: seq<Result<MaskResult>>, before: seq<string>, after: seq<string>)
    requires os != [] && os[|os| - 1].Ok? && after == before + [os[|os| - 1].value.text]
    requires |before| == |os| - 1
    requires forall i :: 0 <= i < |os[..|os| - 1]| ==> os[..|os| - 1][i].Ok? && before[i] == os[..|os| - 1][i].value.text
    ensures forall i :: 0 <= i < |os| ==> os[i].Ok? && after[i] == os[i].value.text
  {
    forall i | 0 <= i < |os| ensures os[i].Ok? && after[i] == os[i].value.text {
      if i < |os| - 1 {
        assert os[..|os| - 1][i] == os[i];
        assert after[i] == before[i];
      }
    }
  }

  /** After merging, a placeholder holds the value from the last chunk whose
      mapping has it (`dict.update` overwrites earlier chunks). */
  lemma {:induction false} MergedLookup(os: seq<Result<MaskResult>>, k: string, i: nat)
    requires Merged(os).Ok?
    requires forall j :: 0 <= j < |os| && os[j].Ok? ==> DistinctKeys(os[j].value.mapping)
    requires i < |os| && HasKey(os[i], k)
    requires forall j :: i < j < |os| ==> !HasKey(os[j], k)
    ensures Get(Merged(os).value.mapping, k) == Get(os[i].value.mapping, k)
    decreases |os|
  {
    var init := os[..|os| - 1];
    UpdateGet(Merged(init).value.mapping, os[|os| - 1].value.mapping, k);
    if i < |os| - 1 {
      assert forall j :: 0 <= j < |init| ==> init[j] == os[j];
      MergedLookup(init, k, i);
    }
  }

  /** A placeholder that no chunk produced is absent from the merged mapping. */
  lemma {:induction false} MergedLookupAbsent(os: seq<Result<MaskResult>>, k: string)
    requires Merged(os).Ok?
    requires forall j :: 0 <= j < |os| && os[j].Ok? ==> DistinctKeys(os[j].value.mapping)
    requires forall j :: 0 <= j < |os| ==> !HasKey(os[j], k)
    ensures Get(Merged(os).value.mapping, k) == None
    decreases |os|
  {
    if os != [] {
      var init := os[..|os| - 1];
      UpdateGet(Merged(init).value.mapping, os[|os| - 1].value.mapping, k);
      assert forall j :: 0 <= j < |init| ==> init[j] == os[j];
      MergedLookupAbsent(init, k);
    }
  }

  /** `prepare_chunks` fails, with MaskingError, exactly when some cut chunk
      fails to mask. */
  lemma PreparedFailure(ner: Recognizer, tz: Tokenizer, chunks: seq<string>, limit: int)
    ensures var r := PreparedOutcome(ner, tz, chunks, limit);
      r.Err? <==> exists i :: 0 <= i < |chunks| && MaskedChunk(ner, tz, chunks[i], limit).Err?
    ensures var r := PreparedOutcome(ner, tz, chunks, limit);
      r.Err? ==> r.error == MaskingError
  {
    var os := ChunkOutcomes(ner, tz, chunks, limit);
    MergedFailure(os);
    if Merged(os).Err? {
      var i :| 0 <= i < |os| && os[i].Err? && os[i].error == Merged(os).error && forall j :: 0 <= j < i ==> os[j].Ok?;
      MaskOutcomeShape(ner, tz, Of(Truncate(chunks[i], limit)));
    }
  }

  /** On success, chunk `i` comes back as the masked text of its cut and
      the merged mapping is a well-formed dict. */
  lemma PreparedChunks(ner: Recognizer, tz: Tokenizer, chunks: seq<string>, limit: int)
    requires PreparedOutcome(ner, tz, chunks, limit).Ok?
    ensures var p := PreparedOutcome(ner, tz, chunks, limit).value;
      |p.masked| == |chunks| && DistinctKeys(p.mapping)
    ensures var p := PreparedOutcome(ner, tz, chunks, limit).value;
      forall i :: 0 <= i < |chunks| ==>
        MaskedChunk(ner, tz, chunks[i], limit).Ok? && p.masked[i] == MaskedChunk(ner, tz, chunks[i], limit).value.text
  {
    MergedShape(ChunkOutcomes(ner, tz, chunks, limit));
  }

  lemma ChunkMappingsDistinct(ner: Recognizer, tz: Tokenizer, chunks: seq<string>, limit: int)
    ensures var os := ChunkOutcomes(ner, tz, chunks, limit);
      forall j :: 0 <= j < |os| && os[j].Ok? ==> DistinctKeys(os[j].value.mapping)
  {
    var os := ChunkOutcomes(ner, tz, chunks, limit);
    forall j | 0 <= j < |os| && os[j].Ok? ensures DistinctKeys(os[j].value.mapping) {
      MaskOutcomeShape(ner, tz, Of(Truncate(chunks[j], limit)));
    }
  }

  /** On success a placeholder maps to its value in the last chunk that
      produced it, and is absent when no chunk did. */
  lemma PreparedLookup(ner: Recognizer, tz: Tokenizer, chunks: seq<string>, limit: int, k: string)
    requires PreparedOutcome(ner, tz, chunks, limit).Ok?
    ensures var m := PreparedOutcome(ner, tz, chunks, limit).value.mapping; var os := ChunkOutcomes(ner, tz, chunks, limit);
      forall i :: 0 <= i < |os| && HasKey(os[i], k) && (forall j :: i < j < |os| ==> !HasKey(os[j], k)) ==>
        Get(m, k) == Get(os[i].value.mapping, k)
    ensures var m := PreparedOutcome(ner, tz, chunks, limit).value.mapping; var os := ChunkOutcomes(ner, tz, chunks, limit);
      (forall j :: 0 <= j < |os| ==> !HasKey(os[j], k)) ==> Get(m, k) == None
  {
    var os := ChunkOutcomes(ner, tz, chunks, limit);
    ChunkMappingsDistinct(ner, tz, chunks, limit);
    forall i | 0 <= i < |os| && HasKey(os[i], k) && (forall j :: i < j < |os| ==> !HasKey(os[j], k))
      ensures Get(Merged(os).value.mapping, k) == Get(os[i].value.mapping, k)
    {
      MergedLookup(os, k, i);
    }
    if forall j :: 0 <= j < |os| ==> !HasKey(os[j], k) {
      MergedLookupAbsent(os, k);
    }
  }

  // ------------------------------------------------------------- build_prompt

  /** The instructions used when no template is given. */
  const DefaultTemplate: string :=
    "你将看到已脱敏的上下文和问题。\n"
    + "占位符格式为 <RG:{KIND}:{HASH}>，表示某类实体（如 EMAIL、PHONE、IDCN、IPV4 等）。\n"
    + "请忽略占位符的具体值，只需利用上下文语义回答问题。\n"
    + "如果需要引用具体值，请直接引用占位符原样（不要猜测还原）。\n"

  /** The context used when there are no chunks. */
  const NoContext: string := "[无相关上下文]"

  /** What separates the context from the question. */
  const QuestionHeader: string := "\n\n[QUESTION]\n"

  function Digit(d: nat): (c: char)
    requires d < 10
    ensures '0' <= c <= '9'
  {
    ('0' as int + d) as char
  }

  /** `str(n)` for a natural number. */
  function Decimal(n: nat): (r: string)
    ensures |r| >= 1
    ensures forall i :: 0 <= i < |r| ==> '0' <= r[i] <= '9'
  {
    if n < 10 then [Digit(n)] else Decimal(n / 10) + [Digit(n % 10)]
  }

  /** The number a string of decimal digits denotes. */
  function ValueOf(s: string): int {
    if s == [] then 0 else 10 * ValueOf(s[..|s| - 1]) + (s[|s| - 1] as int - '0' as int)
  }

  /** `Decimal` writes exactly the number it is given. */
  lemma {:induction false} DecimalValue(n: nat)
    ensures ValueOf(Decimal(n)) == n
  {
    if n >= 10 {
      var s := Decimal(n);
      assert s[..|s| - 1] == Decimal(n / 10);
      DecimalValue(n / 10);
    }
  }

  /** `"[CTX#{i}]\n{content}".format(i=i+1, content=chunk)`: blocks are numbered from 1. */
  function CtxBlock(i: nat, chunk: string): string {
    "[CTX#" + Decimal(i + 1) + "]\n" + chunk
  }

  function CtxBlocks(chunks: seq<string>): (r: seq<string>)
    ensures |r| == |chunks|
    ensures forall i :: 0 <= i < |chunks| ==> r[i] == CtxBlock(i, chunks[i])
  {
    seq(|chunks|, i requires 0 <= i < |chunks| => CtxBlock(i, chunks[i]))
  }

  function Context(chunks: seq<string>): string {
    if chunks == [] then NoContext else Join(CtxBlocks(chunks), "\n\n")
  }

  /** `template or default_template`: an absent or empty template falls back. */
  function Instructions(template: Option<string>): string {
    if template.Some? && template.value != [] then template.value else DefaultTemplate
  }

  /** `build_prompt(question, masked_chunks, template)`: a question that is
      not a string raises RAGGuardError. */
  function Prompt(question: Dyn<string>, chunks: seq<string>, template: Option<string>): Result<string> {
    match question
    case Other => Err(GuardError)
    case Of(q) => Ok(Instructions(template) + "\n" + Context(chunks) + QuestionHeader + q)
  }

  /** Where part `i` starts in `sep.join(parts)`. */
  function JoinPos(parts: seq<string>, sep: string, i: nat): nat
    requires i < |parts|
  {
    if i == 0 then 0 else |parts[0]| + |sep| + JoinPos(parts[1..], sep, i - 1)
  }

  /** Each part occurs in the joined string, at its position. */
  lemma {:induction false} JoinOccurs(parts: seq<string>, sep: string, i: nat)
    requires i < |parts|
    ensures OccursAt(Join(parts, sep), parts[i], JoinPos(parts, sep, i))
  {
    if |parts| == 1 {
      assert OccursAt(Join(parts, sep), parts[0], 0);
    } else if i == 0 {
      assert Join(parts, sep)[..|parts[0]|] == parts[0];
    } else {
      var rest := Join(parts[1..], sep);
      assert Join(parts, sep) == (parts[0] + sep) + rest;
      JoinOccurs(parts[1..], sep, i - 1);
      assert parts[1..][i - 1] == parts[i];
      OccursShift(parts[0] + sep, rest, parts[i], JoinPos(parts[1..], sep, i - 1));
    }
  }

  /** The layout of `instr + "\n" + ctx + header + q`, for any parts. */
  lemma PromptParts(instr: string, ctx: string, header: string, q: string)
    ensures var p := instr + "\n" + ctx + header + q;
      OccursAt(p, instr + "\n", 0)
      && OccursAt(p, header + q, |p| - |header + q|)
      && p[|instr| + 1..|p| - |header + q|] == ctx
  {
    var head := instr + "\n";
    var p := head + ctx + header + q;
    assert p == head + ctx + (header + q);
    assert p[..|head|] == head;
    assert p[|head| + |ctx|..] == header + q;
    assert p[|head|..|head| + |ctx|] == ctx;
  }

  /** The prompt starts with the instructions and a newline, ends with the
      question under its header and holds the context in between; an absent
      or empty template means the default instructions, no chunks the
      no-context marker, and a question that is not a string is refused. */
  lemma PromptLayout(q: string, chunks: seq<string>, template: Option<string>)
    ensures Prompt(Other, chunks, template) == Err(GuardError)
    ensures Prompt(Of(q), chunks, template).Ok?
    ensures var p := Prompt(Of(q), chunks, template).value;
      OccursAt(p, Instructions(template) + "\n", 0)
      && OccursAt(p, QuestionHeader + q, |p| - |QuestionHeader + q|)
      && p[|Instructions(template)| + 1..|p| - |QuestionHeader + q|] == Context(chunks)
    ensures chunks == [] ==> Context(chunks) == NoContext
    ensures template.None? || template == Some([]) ==> Instructions(template) == DefaultTemplate
  {
    PromptParts(Instructions(template), Context(chunks), QuestionHeader, q);
  }

  lemma JoinedPartBetween(head: string, parts: seq<string>, t1: string, t2: string, i: nat)
    requires i < |parts|
    ensures OccursAt(head + Join(parts, "\n\n") + t1 + t2, parts[i], |head| + JoinPos(parts, "\n\n", i))
  {
    var joined := Join(parts, "\n\n");
    var c := JoinPos(parts, "\n\n", i);
    JoinOccurs(parts, "\n\n", i);
    OccursMiddle(head, joined, t1, parts[i], c);
    OccursExtend(head + joined + t1, t2, parts[i], |head| + c);
  }

  /** Every chunk appears in the prompt inside its numbered block, after
      the instructions. */
  lemma PromptBlocks(q: string, chunks: seq<string>, template: Option<string>, i: nat)
    requires i < |chunks|
    ensures exists pos ::
      |Instructions(template)| + 1 <= pos && OccursAt(Prompt(Of(q), chunks, template).value, CtxBlock(i, chunks[i]), pos)
  {
    var head := Instructions(template) + "\n";
    var blocks := CtxBlocks(chunks);
    var p := head + Join(blocks, "\n\n") + QuestionHeader + q;
    assert Prompt(Of(q), chunks, template) == Ok(p);
    JoinedPartBetween(head, blocks, QuestionHeader, q, i);
  }

  // -------------------------------------------------------------- postprocess

  /** The partial-unmask test of a placeholder: `tok.strip('<>').split(':')`
      has three fields and the middle one is a chosen kind. */
  predicate Kept(token: string, kinds: seq<string>) {
    var parts := Split(StripChars(token, AngleBrackets), ':');
    |parts| == 3 && parts[1] in kinds
  }

  function KeepKinds(kinds: seq<string>): string -> bool {
    token => Kept(token, kinds)
  }

  /** The mapping `postprocess` hands to `unmask`: the whole mapping, or
      only the entries of chosen kinds when `partial_unmask` is non-empty. */
  function RestoreMapping(mapping: Dict<string, string>, partial: Option<seq<string>>): Dict<string, string> {
    if partial.Some? && partial.value != [] then Filter(mapping, KeepKinds(partial.value)) else mapping
  }

  /** `postprocess(answer, mapping, need_unmask, partial_unmask)`: without
      `need_unmask` the answer comes back as it is, whatever its type. */
  function Postprocessed(answer: Dyn<string>, mapping: Dict<string, string>, needUnmask: bool,
                         partial: Option<seq<string>>): Result<Dyn<string>>
  {
    if !needUnmask then Ok(answer)
    else
      match UnmaskOutcome(answer, Of(RestoreMapping(mapping, partial)))
      case Err(e) => Err(e)
      case Ok(s) => Ok(Of(s))
  }

  /** A placeholder of a colon-free kind is kept exactly when its kind is chosen. */
  lemma KeptToken(tz: Tokenizer, kind: string, value: string, kinds: seq<string>)
    requires ':' !in kind
    ensures Kept(Token(tz, kind, value), kinds) <==> kind in kinds
  {
    TokenParse(tz, kind, value);
  }

  /** Postprocessing without `need_unmask` is the identity; with it, the
      mapping used keeps exactly the lookups of the chosen kinds (all of
      them when no kind is chosen), stays a well-formed dict and never grows. */
  lemma PostprocessSpec(answer: Dyn<string>, mapping: Dict<string, string>, partial: Option<seq<string>>, k: string)
    ensures Postprocessed(answer, mapping, false, partial) == Ok(answer)
    ensures Get(RestoreMapping(mapping, partial), k)
         == if partial.Some? && partial.value != [] && !Kept(k, partial.value) then None else Get(mapping, k)
    ensures DistinctKeys(mapping) ==> DistinctKeys(RestoreMapping(mapping, partial))
    ensures |RestoreMapping(mapping, partial)| <= |mapping|
  {
    if partial.Some? && partial.value != [] {
      FilterGet(mapping, KeepKinds(partial.value), k);
      if DistinctKeys(mapping) {
        FilterDistinct(mapping, KeepKinds(partial.value));
      }
    }
  }

  /** With chosen kinds, the placeholder of a colon-free kind is restored to
      its mapped value when its kind is chosen and left alone otherwise. */
  lemma PartialRestore(tz: Tokenizer, mapping: Dict<string, string>, kinds: seq<string>, kind: string, value: string)
    requires kinds != [] && ':' !in kind
    ensures Get(RestoreMapping(mapping, Some(kinds)), Token(tz, kind, value))
         == if kind in kinds then Get(mapping, Token(tz, kind, value)) else None
  {
    PostprocessSpec(Other, mapping, Some(kinds), Token(tz, kind, value));
    KeptToken(tz, kind, value, kinds);
  }

  // ----------------------------------------------------------------- RAGGuard

  class RAGGuard {
    const masker: DataMasker

    constructor (masker: DataMasker)
      ensures this.masker == masker
    {
      this.masker := masker;
    }

    /** One iteration of `prepare_chunks`: cut the chunk at the limit, then
        mask it. */
    method MaskChunk(chunk: string, limit: int) returns (r: Result<MaskResult>)
      requires masker.Valid()
      modifies masker`lastEntities
      ensures masker.Valid()
      ensures r == MaskedChunk(masker.ner, masker.tokenizer, chunk, limit)
      ensures r.Ok? ==> masker.lastEntities == r.value.entities
      ensures r.Err? ==> masker.lastEntities == old(masker.lastEntities)
    {
      var cut := chunk;
      if |cut| > limit {
        cut := Take(cut, limit) + TruncationMarker;
      }
      r := masker.Mask(Of(cut));
    }

    /** `prepare_chunks(chunks, max_chunk_length)`: a missing limit is 10000. */
    method PrepareChunks(chunks: seq<string>, maxChunkLength: Option<int>) returns (r: Result<Prepared>)
      requires masker.Valid()
      modifies masker`lastEntities
      ensures masker.Valid()
      ensures r == PreparedOutcome(masker.ner, masker.tokenizer, chunks, maxChunkLength.GetOr(DefaultMaxChunkLength))
      ensures masker.lastEntities == LastEntities(ChunkOutcomes(masker.ner, masker.tokenizer, chunks,
                maxChunkLength.GetOr(DefaultMaxChunkLength)), old(masker.lastEntities))
      ensures r.Ok? && chunks != [] ==>
                masker.lastEntities == MaskedChunk(masker.ner, masker.tokenizer, chunks[|chunks| - 1],
                                                   maxChunkLength.GetOr(DefaultMaxChunkLength)).value.entities
      ensures chunks == [] ==> masker.lastEntities == old(masker.lastEntities)
    {
      var limit := maxChunkLength.GetOr(DefaultMaxChunkLength);
      ghost var os := ChunkOutcomes(masker.ner, masker.tokenizer, chunks, limit);
      var masked: seq<string> := [];
      var combined: Dict<string, string> := [];
      for i := 0 to |chunks|
        invariant masker.Valid()
        invariant os == ChunkOutcomes(masker.ner, masker.tokenizer, chunks, limit)
        invariant Merged(os[..i]) == Ok(Prepared(masked, combined))
        invariant masker.lastEntities == LastEntities(os[..i], old(masker.lastEntities))
      {
        var res := MaskChunk(chunks[i], limit);
        assert res == os[i];
        ChunkStep(os, i, masked, combined, old(masker.lastEntities));
        if res.Err? {
          return Err(res.error);
        }
        masked := masked + [res.value.text];
        combined := Update(combined, res.value.mapping);
      }
      assert os[..|chunks|] == os;
      if chunks != [] {
        LastEntitiesOfSuccess(os, old(masker.lastEntities));
      }
      return Ok(Prepared(masked, combined));
    }

    /** `build_prompt(question, masked_chunks, template)` with the default
        block format. */
    method BuildPrompt(question: Dyn<string>, chunks: seq<string>, template: Option<string>) returns (r: Result<string>)
      ensures r == Prompt(question, chunks, template)
    {
      if question.Other? {
        return Err(GuardError);
      }
      var instructions := if template.Some? && template.value != [] then template.value else DefaultTemplate;
      var ctx := NoContext;
      if chunks != [] {
        var parts: seq<string> := [];
        for i := 0 to |chunks|
          invariant |parts| == i
          invariant forall j :: 0 <= j < i ==> parts[j] == CtxBlock(j, chunks[j])
        {
          parts := parts + ["[CTX#" + Decimal(i + 1) + "]\n" + chunks[i]];
        }
        assert parts == CtxBlocks(chunks);
        ctx := Join(parts, "\n\n");
      }
      return Ok(instructions + "\n" + ctx + "\n\n[QUESTION]\n" + question.value);
    }

    /** `postprocess(external_answer, mapping, need_unmask, partial_unmask)`. */
    method Postprocess(answer: Dyn<string>, mapping: Dict<string, string>, needUnmask: bool,
                       partial: Option<seq<string>>) returns (r: Result<Dyn<string>>)
      requires DistinctKeys(mapping)
      ensures r == Postprocessed(answer, mapping, needUnmask, partial)
    {
      if !needUnmask {
        return Ok(answer);
      }
      var m := mapping;
      if partial.Some? && partial.value != [] {
        var kinds := partial.value;
        var filtered: Dict<string, string> := [];
        for i := 0 to |mapping|
          invariant filtered == Filter(mapping[..i], KeepKinds(kinds))
        {
          var (token, original) := mapping[i];
          FilterSnoc(mapping, i, KeepKinds(kinds));
          var parts := Split(StripChars(token, AngleBrackets), ':');
          if |parts| == 3 && parts[1] in kinds {
            filtered := Put(filtered, token, original);
          }
        }
        assert mapping[..|mapping|] == mapping;
        m := filtered;
      }
      var u := masker.Unmask(answer, Of(m));
      if u.Err? {
        return Err(u.error);
      }
      return Ok(Of(u.value));
    }
  }
}
