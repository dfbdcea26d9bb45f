# rag_guard, modelled in Dafny

rag_guard masks sensitive data before retrieved context goes to an external
language model, and restores it in the answer. A recogniser finds
entities in a text: emails, phone numbers, ID numbers and so on. It is
one of three kinds:

- `RegexNER`: one regular expression per label.
- `LLMNER`: a language model that is asked for JSON.
- `HybridNER`: runs both and merges overlapping results.

`DataMasker.mask` replaces each entity, right to left, by a placeholder
`<RG:{KIND}:{HASH}>`. The hash is eight lowercase base32 characters of a
salted digest of kind and value. `mask` also returns a mapping from each
placeholder back to the original text. `unmask` replaces every placeholder
of the mapping, longest first. `RAGGuard` masks a batch of chunks and
merges their mappings. It then lays out the prompt and restores the
model's answer: fully, or only for chosen kinds. `GuardConfig` fills in
defaults and validates the salt and the strategy. `validate_chunks` and
`batch_process` clean and split inputs.

The model is split into these files:

- `wrappers.dfy`: `Option`, `Result` and `Dyn`, plus the error kinds of the
  exception hierarchy. `Dyn` is an argument that may have the wrong
  Python type.
- `strings.dfy`: Python's clamped slicing, `strip`, `split`, `join`, and
  the literal replace-all that `re.sub(re.escape(k), v, s)` performs when
  `v` holds no backslash.
- `dicts.dfy`: insertion-ordered dicts as sequences of pairs, with
  `d[k] = v`, `get` and `update`.
- `sorting.dfy`: the stable `sorted`/`list.sort` by an integer key.
- `ner.dfy`: the three recognisers, the JSON reply parser and the merge.
- `masker.dfy`: placeholders, `mask`, `unmask`, and the `DataMasker` class.
- `roundtrip.dfy`: the conditions under which `unmask` undoes `mask`.
- `pipeline.dfy`: the `RAGGuard` class.
- `config.dfy`: the `GuardConfig` class.
- `utils.dfy`: `validate_chunks`, `batch_process`, and the length cut.

Some of the system's surroundings are parameters of the model rather
than code:

- The regex engine: `compiles` and `finditer`.
- `json.loads`: a decoder returning a structured reply, or nothing.
- The language-model call: a function from entity types and text to a
  reply, or nothing when the call raises.
- The salted digest: any function into 8-character lowercase base32
  strings.
- The `RAG_GUARD_SALT` environment lookup.

The hybrid merge is greedy. A candidate is compared only with the first
accepted entity it overlaps. Even so, its output never holds two
overlapping entities (`Ner.MergeResult`): candidates arrive in ascending
start order, so every accepted entity that a candidate overlaps contains
the candidate's start. In the hybrid path, the round trip therefore
needs no separate disjointness assumption.

## Model

| member | source | states |
|---|---|---|
| Utils.TruncateShape | rag_guard/utils.py:29-30 | A text no longer than the limit is unchanged. A longer one becomes a prefix plus `...[截断]`, and for a non-negative limit that prefix is exactly the limit long. |
| Utils.ValidateChunks | rag_guard/utils.py:16-34 | The cleaning loop returns the outcome the cleaning specification defines. |
| Utils.CleanFromFails | rag_guard/utils.py:19-21 | Cleaning fails exactly when some chunk is not a string. The ValueError then names the first such chunk by its 1-based position. |
| Utils.CleanedChunks | rag_guard/utils.py:18-34 | Output chunks are non-empty, carry no surrounding whitespace, and are no more numerous than the inputs. They are exactly the non-blank inputs, in input order, each stripped and cut. |
| Utils.CutStripped | rag_guard/utils.py:24-30 | Cutting a stripped non-empty chunk leaves it stripped and non-empty. |
| Utils.ChunkedShape | rag_guard/utils.py:43-46 | For a positive batch size, the batches concatenate back to the items. Every batch but the last is full, the last is non-empty, and there are ⌈n/size⌉ batches. |
| Utils.ChunkedAt | rag_guard/utils.py:45-46 | Batch k is the slice `items[k*size:(k+1)*size]`. |
| Utils.BatchProcess | rag_guard/utils.py:43-46 | The range loop over `0, size, 2*size, …` collects exactly the outcome `Batches` gives. |
| Utils.BatchesSpec | rag_guard/utils.py:43-46 | A step of 0 is a ValueError (as `range` raises), and a negative step yields no batch. A positive step yields the slices `items[k*size:(k+1)*size]`, which concatenate back to the items. |
| PyStrings.StripCharsSpec | rag_guard/pipeline.py:110 | `strip` leaves no stripped character at either end and removes only such characters around the result. It yields "" exactly when every character is one to strip. |
| PyStrings.Split | rag_guard/pipeline.py:110 | `split(c)` gives at least one field, no field contains `c`, and joining with `c` gives back the string. |
| PyStrings.ReplaceAllConcat | rag_guard/masker.py:167 | Replace-all distributes over a concatenation that no occurrence of the key straddles. |
| PyStrings.ReplaceAllAbsent | rag_guard/masker.py:167 | A text without the key is left unchanged. |
| Dicts.UpdateGet | rag_guard/pipeline.py:40 | After `d.update(e)`, a key holds `e`'s value if `e` has the key, and `d`'s value otherwise. |
| Dicts.Put | rag_guard/masker.py:133 | `d[k] = v` makes `k` hold `v`, leaves other keys alone, keeps keys distinct, and appends `k` only when it is new. |
| Dicts.FilterGet | rag_guard/pipeline.py:105-112 | Filtering keeps exactly the lookups of the kept keys. |
| Sorting.SortBySorted | rag_guard/ner.py:271 | The sort is ordered by the key. |
| Sorting.SortByPermutes | rag_guard/ner.py:271 | The sort is a permutation of its input. |
| Sorting.SortByStable | rag_guard/masker.py:124 | Elements with equal keys keep their relative order. |
| Ner.OverlapMeaning | rag_guard/ner.py:290-292 | The overlap test is symmetric. Two non-empty spans overlap exactly when some position lies in both. |
| Ner.CompileRegexNer | rag_guard/ner.py:33-39 | Construction fails, with NERError, exactly when some pattern does not compile. Otherwise it keeps the table as given. |
| Ner.MatchesToEntities | rag_guard/ner.py:44-52 | The inner loop yields one entity per match, in match order. Each has the pattern's label, the match offsets, the matched text and confidence 1.0. |
| Ner.RegexExtract | rag_guard/ner.py:41-53 | The nested loops return all matches, pattern by pattern in table order. |
| Ner.RegexEntityOrigin | rag_guard/ner.py:41-53 | An entity is returned exactly when some pattern matched its span. It then has that pattern's label, confidence 1.0 and the span's text. |
| Ner.NewLlmNer | rag_guard/ner.py:59-94 | A missing or empty type list becomes the 15 default types, and a given non-empty list is kept. The threshold is 0.7 and the length limit 2000. |
| Ner.FirstIndex | rag_guard/ner.py:182-186 | The position of the first `{`, or none when there is none. |
| Ner.LastIndex | rag_guard/ner.py:182-186 | The position of the last `}`, or none when there is none. |
| Ner.ExtractBlock | rag_guard/ner.py:182-186 | When some `{` precedes some `}`, the result is the stretch from the first `{` to the last `}`. Otherwise it is the whole reply. |
| Ner.ParseReply | rag_guard/ner.py:178-214 | The item loop computes the parser's specification, including fallback to `[]` and escaping exceptions. |
| Ner.ParseItemsSound | rag_guard/ner.py:191-208 | Every parsed entity comes from an item that passed the offset-and-text check. It carries that item's offsets, its label (default UNKNOWN) and its confidence (default 0.5). |
| Ner.MissingEndRejected | rag_guard/ner.py:193-198 | An item without `end` reads `end` as 0 and is never accepted. |
| Ner.ParsedReplySound | rag_guard/ner.py:178-221 | An undecodable reply gives no entities rather than an error. Every returned entity is a non-empty in-range span whose text matches. |
| Ner.AboveThreshold | rag_guard/ner.py:168-171 | Exactly the entities at or above the threshold are kept, and the list never grows. |
| Ner.LlmExtract | rag_guard/ner.py:155-176 | LLM extraction computes the extraction as written. The model is shown the cut text, and the offsets are checked against that cut text. |
| Ner.LlmEntitiesSound | rag_guard/ner.py:155-176 | Every entity meets the threshold and is a non-empty span of the original text that holds its reported text. |
| Ner.LlmEntitiesAsWrittenSound | rag_guard/ner.py:157-165 | As written, the span guarantee holds only of the cut text. |
| Ner.LlmAgreesWithinLimit | rag_guard/ner.py:155-165 | Within the length limit nothing is cut. The extraction as written is then the intended one, and every entity is a span of the original text. |
| Ner.TruncatedOffsetsMismatch | rag_guard/ner.py:157-158 | As written, an entity is accepted whose text differs from the original text at its offsets. |
| Ner.NewHybrid | rag_guard/ner.py:227-244 | Construction fails, with NERError, exactly when both parts are missing. |
| Ner.FirstOverlap | rag_guard/ner.py:277-283 | The index of the first kept entity that overlaps the candidate, or none. |
| Ner.MergeEntities | rag_guard/ner.py:265-288 | The merge loop computes the merge specification. |
| Ner.MergeResult | rag_guard/ner.py:265-288 | Empty input gives empty output. Otherwise there are between 1 and n entities, all drawn from the input, and no two of them overlap. |
| Ner.MergeDisjointInput | rag_guard/ner.py:265-288 | Input without overlaps comes back complete, sorted by start. |
| Ner.MergeKeepsFirst | rag_guard/ner.py:278-283 | Of the spans [0, 10) and [5, 15), the first is kept when it is more confident. |
| Ner.MergeTakesMoreConfident | rag_guard/ner.py:278-283 | A strictly more confident later span replaces the earlier one, even when the input lists it first. |
| Ner.MergeTieKeepsFirst | rag_guard/ner.py:278-283 | With equal confidence, the span that starts first is kept. |
| Ner.MergeAllDisjoint | rag_guard/ner.py:274-286 | When nothing overlaps, the loop keeps every candidate, in order. |
| Ner.SortKeepsDisjoint | rag_guard/ner.py:271 | Sorting does not create overlaps. |
| Ner.Recognize | rag_guard/ner.py:246-263 | Dispatch computes the recogniser specification, with the LLM part as written. The hybrid puts regex results before LLM results, then merges. |
| Ner.RecognizedSpans | rag_guard/ner.py:246-263 | With in-text regex matches and a text within the LLM part's length limit, every entity is a span of the text holding its text. A hybrid's entities do not overlap. |
| Masker.TokenShape | rag_guard/masker.py:104-105 | A placeholder is `<RG:`, the kind, `:`, the 8-character hash and `>`. |
| Masker.TokenParse | rag_guard/masker.py:104-105 | Stripping `<>` and splitting on `:` gives back `RG`, the kind and the hash, when the kind has no colon. |
| Masker.TokenKindInjective | rag_guard/masker.py:104-105 | Equal placeholders of colon-free kinds have equal kinds. |
| Masker.FirstText | rag_guard/masker.py:130-134 | The text of the first processed entity that produces a placeholder, or none. |
| Masker.MaskMapping | rag_guard/masker.py:126-134 | The mapping's keys are exactly the placeholders of the processed entities. Each holds the text of the first entity that produced it. |
| Masker.ProcessingOrderSpec | rag_guard/masker.py:124 | The entities are processed in a permutation of recogniser order, by descending start. Equal starts keep their order. |
| Masker.MaskOutcomeShape | rag_guard/masker.py:115-145 | Every failure of `mask` is a MaskingError, and every mapping it returns has distinct keys. |
| Masker.MaskNothing | rag_guard/masker.py:120-142 | With no entities, the text comes back unchanged with an empty mapping. |
| Masker.LongestFirstSpec | rag_guard/masker.py:163 | The keys are visited once each, longest first. |
| RoundTrip.UnmaskKeepsUnknown | rag_guard/masker.py:151-168 | Only placeholders the mapping holds are replaced. When every key is a placeholder, a placeholder that is not a key stays in place, and the text on each side of it is unmasked on its own. |
| Masker.UnmaskAbsent | rag_guard/masker.py:151-170 | A text containing no key is unchanged, and so is any text with an empty mapping. |
| Masker.PatternTableGet | rag_guard/masker.py:38-49 | A custom pattern overrides the default of the same label; other labels keep their defaults. |
| Masker.BuiltRecognizerSpec | rag_guard/masker.py:56-75 | Which strategies fail (unknown name, `llm_only` without a caller, uncompilable patterns), always with MaskingError. Otherwise the recogniser each strategy builds. |
| Masker.InitNer | rag_guard/masker.py:56-75 | Construction with compile loops computes the strategy specification. |
| Masker.WithPatternSpec | rag_guard/masker.py:82-95 | Adding a pattern fails exactly without a regex table or on a bad pattern. Otherwise the label holds the pattern and everything else is kept. |
| Masker.DataMasker.constructor | rag_guard/masker.py:33-51 | The salt, strategy and recogniser are stored, and the last-entity list starts empty. |
| Masker.DataMasker.New | rag_guard/masker.py:15-80 | A short salt, or a recogniser that cannot be built, is a MaskingError. Otherwise the masker holds the recogniser built from the updated pattern table. |
| Masker.DataMasker.AddPattern | rag_guard/masker.py:82-95 | The recogniser is updated as `WithPattern` says, and is left unchanged on error. |
| Masker.SpliceEntities | rag_guard/masker.py:126-140 | The splice loop produces the masked text and mapping that the mask specification defines. |
| Masker.DataMasker.Mask | rag_guard/masker.py:107-145 | Masking computes the mask specification. The last-entity list becomes the processed list, and is unchanged on error. |
| Masker.DataMasker.GetLastEntities | rag_guard/masker.py:147-149 | Returns the last entity list, ordered by descending start. |
| Masker.DataMasker.Unmask | rag_guard/masker.py:151-170 | The replace loop computes the unmask specification, with a non-string text or mapping raising UnmaskingError. |
| RoundTrip.ReplaceStep | rag_guard/masker.py:167 | Replacing one placeholder by its text undoes exactly the splices of the entities with that placeholder. |
| RoundTrip.RestoreAll | rag_guard/masker.py:163-168 | Replacing each key in turn restores the text when every entity's placeholder is a key mapped to its text. |
| RoundTrip.RoundTrip | rag_guard/masker.py:107-170 | For well-placed entities, unmasking the masked text with its mapping restores the original text. Well-placed means: non-overlapping, non-empty, in range, text-consistent, with bracket-free kinds, no backslash in any entity's text, no digest collision, and no `<RG:` in the text. |
| RoundTrip.MaskUnmask | rag_guard/masker.py:107-170 | The same for `mask` followed by `unmask`, under the same conditions, including no backslash in any entity's text. |
| RoundTrip.HybridRoundTrip | rag_guard/masker.py:107-170 | For a hybrid recogniser and a text within its LLM part's length limit, overlap and span conditions hold already. The round trip needs only non-empty entities, bracket-free kinds, no backslash in any entity's text, no collision and no `<RG:` in the text. |
| Pipeline.MergedFailure | rag_guard/pipeline.py:33-40 | Preparing fails exactly when some chunk fails, with the first failure. |
| Pipeline.MergedShape | rag_guard/pipeline.py:33-40 | One masked text per chunk, in order, and a mapping with distinct keys. |
| Pipeline.MergedLookup | rag_guard/pipeline.py:40 | A placeholder maps to its value in the last chunk that produced it. |
| Pipeline.MergedLookupAbsent | rag_guard/pipeline.py:40 | A placeholder no chunk produced is absent. |
| Pipeline.PreparedFailure | rag_guard/pipeline.py:33-39 | `prepare_chunks` fails, with MaskingError, exactly when some cut chunk fails to mask. |
| Pipeline.PreparedChunks | rag_guard/pipeline.py:26-39 | Chunk i comes back as the masked text of its cut, with `...[截断]` past the limit (default 10000). |
| Pipeline.PreparedLookup | rag_guard/pipeline.py:40 | The combined mapping is the union of the chunk mappings, where a later chunk wins. |
| Pipeline.RAGGuard.MaskChunk | rag_guard/pipeline.py:34-38 | One loop iteration cuts the chunk past the limit and masks it, as the chunk specification says. On success the masker's last-entity list becomes the chunk's entities; on error it is unchanged. |
| Pipeline.RAGGuard.PrepareChunks | rag_guard/pipeline.py:22-43 | The loop computes the preparation specification and keeps the masker valid. The last-entity list ends as the entities of the last chunk masked before any failure. That is the last chunk's list on success, and the list is unchanged when there are no chunks. |
| Pipeline.DecimalValue | rag_guard/pipeline.py:74 | The block number is written as the decimal digits of the number itself. |
| Pipeline.PromptLayout | rag_guard/pipeline.py:64-80 | A non-string question raises. The prompt is the instructions, a newline, the context, then `\n\n[QUESTION]\n` and the question. An absent or empty template means the default instructions; no chunks means `[无相关上下文]`. |
| Pipeline.PromptBlocks | rag_guard/pipeline.py:71-76 | Chunk i appears after the instructions inside its block `[CTX#i+1]\n`. |
| Pipeline.JoinOccurs | rag_guard/pipeline.py:76 | Every part occurs in the joined context. It starts after all earlier parts, each followed by its separator. |
| Pipeline.RAGGuard.BuildPrompt | rag_guard/pipeline.py:45-81 | The block loop computes the prompt specification. |
| Pipeline.KeptToken | rag_guard/pipeline.py:110-111 | A placeholder of a colon-free kind passes the partial test exactly when its kind is chosen. |
| Pipeline.PostprocessSpec | rag_guard/pipeline.py:102-116 | Without `need_unmask`, the answer is returned as it is. The mapping used keeps exactly the lookups of chosen kinds, or all of them when none are chosen. It keeps distinct keys and never grows. |
| Pipeline.PartialRestore | rag_guard/pipeline.py:105-113 | With chosen kinds, a placeholder is restored exactly when its kind is chosen. |
| Pipeline.RAGGuard.Postprocess | rag_guard/pipeline.py:83-116 | The filter loop computes the postprocess specification. |
| Config.Checked | rag_guard/config.py:60-65 | Validation passes exactly with a salt of at least 8 characters and a known strategy. The salt is checked first, and each failure is a ValueError. |
| Config.GuardConfig.PostInit | rag_guard/config.py:36-65 | A missing pattern table becomes empty and a missing type list the 15 defaults, before validation. The result is the validation outcome. |
| Config.GuardConfig.New | rag_guard/config.py:7-65 | Construction succeeds exactly when validation passes. The fields are then as given, with defaults filled in. |
| Config.GuardConfig.Default | rag_guard/config.py:13-34 | The all-defaults configuration is valid exactly when the environment salt, or the fallback, is long enough. |
| Config.GuardConfig.ToDict | rag_guard/config.py:72-86 | The salt is always `[HIDDEN]`. Custom patterns are reported by label only, and `[]` when missing or empty. |
| Config.ToDictHides | rag_guard/config.py:72-86 | The view depends neither on the salt, nor on the pattern texts, nor on the prompt template. |

## Left out

- Regular expressions: `re.compile` and `finditer` are the engine parameter. The default patterns are kept as text, not interpreted.
- `json.loads` is the decoder parameter. Replies whose `entities` field is an empty string, dict or other falsy non-list are modelled as an error, whereas Python iterates them as empty. Offsets and labels that are not integers or strings are not modelled, and `float()` overflow is not modelled.
- The language-model call and the prompt text `LLMNER._build_prompt` builds: the call is the caller parameter.
- SHA-1 and base32 in `_short_hash`: the digest is a parameter yielding 8 lowercase base32 characters.
- `unmask` is literal replace-all. `re.sub` reads backslash escapes in a mapped value as a template: `\b` becomes a backspace, and an unknown escape such as `\d` raises, which becomes UnmaskingError. The round-trip lemmas therefore require that no entity text holds a backslash, where the two agree.
- Masker.DataMasker.Mask: the in-place sort, and `last_entities` aliasing the sorted list, are modelled by storing the sorted value. Concurrent calls are not modelled.
- Ner.RecognizedSpans: stated only for a text within the LLM part's length limit. Past the limit the LLM offsets refer to the cut text, not the original (see Findings).
- RoundTrip.HybridRoundTrip: stated only for a text within the LLM part's length limit, for the same reason.
- Overlapping regex matches under `regex_only`: `mask` splices them as written (clamped slices), but the round trip is stated only for non-overlapping entities.
- Pipeline.RAGGuard.PrepareChunks: chunks are typed strings, so a non-string chunk (which raises TypeError or MaskingError in Python) is not modelled. The collected `all_entities` list is unused by the source and left out.
- Pipeline.RAGGuard.BuildPrompt: only the default `context_format` is modelled. Arbitrary `str.format` templates are not.
- Pipeline.RAGGuard.Postprocess: the mapping is typed as a dict. A non-dict mapping, which raises AttributeError on the partial path, is not modelled.
- `get_template_variables`, `get_entities`, `DataMasker.get_ner_info`, `GuardConfig.from_dict`: pass-throughs and diagnostic reports with no logic of their own.
- `guard.py`, `__init__.py`, `exceptions.py` as classes, `estimate_tokens` (floating point) and `timing_decorator` (clock and printing).
- The `use_llm_ner` and `merge_strategy` arguments: the source stores them but never reads them. The configuration's `llm_confidence_threshold` and `max_chunk_length` are not passed on by the source either.
- Confidences are reals used only for comparison; float rounding is not modelled.

## Findings

| source | as written | input that shows it | evidently intended | confidence | as-written member | corrected member |
|---|---|---|---|---|---|---|
| rag_guard/ner.py:157-165 | When the text is over `max_text_length`, LLMNER checks the model's offsets against the cut text `text[:2000] + "...[截断]"`, and `mask` then splices those offsets into the original text. | A 2010-character text of `a`, and a model reporting `{"text": "a...", "label": "PERSON", "start": 1999, "end": 2003, "confidence": 0.9}`: the entity is accepted, but the original reads `aaaa` there. | Offsets are checked against the part of the original text the model was shown, so every entity is a span of the original text. The rest of the model keeps the code as written; the two agree within the limit (Ner.LlmAgreesWithinLimit). | not executed | Ner.TruncatedOffsetsMismatch | Ner.LlmEntitiesSound |
