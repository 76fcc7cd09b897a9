# AI Legal Doc Explainer — a verified model of the text-processing core

The application reads contract PDFs, cuts them into page-tagged chunks, indexes them, and then
extracts key clauses, flags risky ones, answers questions about the contract and summarises it.
A language model (hosted Gemini or a local text-generation pipeline) helps where one is
available; without one, every step falls back to deterministic keyword heuristics. This project
models that deterministic core in Dafny and proves what it promises. The index, the splitter,
the retriever, the hash functions and the language model are inputs to the model.

One module per source file:

- `PdfLoader` (`pdf_loader.dfy`): `clean_text` of src/ingest/pdf_loader.py.
- `Chunker` (`chunker.dfy`): `chunk_documents` of src/ingest/chunker.py, with the per-character
  page map, the approximate even split and the majority vote that tags each chunk with a page.
- `Embeddings` (`embeddings.dfy`): `HashingEmbedding` of src/embeddings/embeddings.py, as the
  token count vector before normalisation.
- `Fallback` (`fallback.dfy`): `LocalLLM.generate` of src/llm/fallback.py, with its stub reply
  and its prompt-echo stripping; the pipeline is a function given to the model.
- `Clauses` (`clauses.dfy`): `extract_clauses` of src/analysis/clauses.py: the keyword scoring,
  the strict and relaxed heuristic passes, the `CLAUSE_LINE_RE` line parser, and the shared
  deduplicate / merge / sort tail.
- `LinePattern` (`line_pattern.dfy`): the lazy-group line grammar shared by `CLAUSE_LINE_RE` and
  the red-flag `LINE_RE`.
- `RedFlags` (`redflags.dfy`): `detect_redflags` of src/analysis/redflags.py: the base-30
  scoring, the reply parser, clamping and the threshold filter, and the broadened pass with the
  "no liability cap" rule.
- `QAChain` (`qa_chain.dfy`): `QAChain.ask` and `build_qa_chain` of src/rag/qa_chain.py: the
  definition fast path and the scored general path, up to the answer, citations, confidence and
  highlighting.
- `Summarizer` (`summarizer.dfy`): the heuristic document summary and the LLM bullet batching
  and clean-up of src/summarize/summarizer.py.
- `LegacyAnalysis` (`analysis.dfy`): `extract_key_clauses`, `detect_red_flags`,
  `answer_with_confidence`, `compute_similarity_confidence` and `compute_risk_index` of
  modules/analysis.py.
- `RetrieverQA` (`qa_with_retriever.dfy`): the similarity mapping and the answer choice of
  `answer_query_with_retriever` in modules/qa_with_retriever.py.
- Shared modules: `Types` (the records of src/utils/types.py and the configuration fields the
  core reads), `Text` (Python's string primitives), `Seqs` (filters, counts and first-occurrence
  deduplication), `Sorting` (the stable `list.sort` / `sorted`), `Wrappers` (`Option`).

Each loop of the source is a method whose loop invariant ties the state built so far to a
specification function of the prefix processed; the lemmas state the source's promises about
those functions.

Notes on behaviour the model reproduces as written:

- The chunker advances its cursor by the full split length although the splits overlap
  (src/ingest/chunker.py:55), so later chunks sample further into the page map than where their
  text starts, and past its end fall back to page 1 (`Chunker.CursorIsTotalLength`,
  `Chunker.PastTheMapIsPageOne`).
- The highlight step of `QAChain.ask` replaces each matched token by the literal text `**\1**`
  rather than the token in bold, because the replacement string is a raw string with a doubled
  backslash (src/rag/qa_chain.py:232); `QAChain.HighlightCapital` states this.
- In the heuristic summary a truncated bullet's "..." is removed again by the final
  `rstrip('. ')` (src/summarize/summarizer.py:70-72); `Summarizer.BulletShape` states the real
  shape.
- `compute_risk_index` picks the level from the unrounded score while the index it returns is
  rounded, so the indexes 26, 56 and 76 can carry either of two levels
  (modules/analysis.py:182-184).
- In modules/analysis.py the severity test has an `elif` branch that assigns "medium", the value
  the severity already holds, so every keyword outside the high set is "medium".
- tests/test_analysis.py imports `bulletize_summary` and `extract_obligations`, which
  modules/analysis.py does not define, and takes `RISK_KEYWORDS` from modules.constants, which is
  not part of this model; the model uses the keyword tables of modules/analysis.py.

One behaviour is modelled in its corrected form instead: the strict pass of `extract_clauses`
deduplicates on the md5 of the plain concatenation of type, page and lowercased snippet, where a
key over the three fields is evidently intended (see Findings). The pipeline of the model uses
the corrected key; `Clauses.StrictResultsAsWritten` is the pass as the source writes it, and
`Clauses.StrictResultsAgree` states when the two coincide.

## Model

| member | source | states |
|---|---|---|
| PdfLoader.CollapseSpaces | src/ingest/pdf_loader.py:18-22 | every whitespace run becomes one space: the result is empty iff the input is, starts with whitespace iff the input does, has no whitespace except spaces, never two whitespace characters in a row, and no character that was not in the input |
| PdfLoader.CleanTextShape | src/ingest/pdf_loader.py:20-23 | `clean_text` output holds no NUL, no whitespace but the space, no two adjacent whitespace characters, and no leading or trailing whitespace |
| PdfLoader.CleanTextKeepsVisible | src/ingest/pdf_loader.py:20-23 | the characters that are neither whitespace nor NUL survive `clean_text`, all of them and in order |
| PdfLoader.CleanTextIdempotent | src/ingest/pdf_loader.py:20-23 | cleaning a cleaned text changes nothing |
| PdfLoader.CollapseKeepsVisible | src/ingest/pdf_loader.py:22 | collapsing whitespace keeps the visible characters in order |
| PdfLoader.StripKeepsVisible | src/ingest/pdf_loader.py:23 | `strip()` keeps the visible characters in order |
| PdfLoader.CollapseOfCollapsed | src/ingest/pdf_loader.py:22 | a text whose only whitespace is single spaces is left unchanged by the substitution |
| Chunker.BuildPageMap | src/ingest/chunker.py:23-28 | the page-map loop yields the per-character tag list of the segments and `full`, their concatenation |
| Chunker.PageTagsLength | src/ingest/chunker.py:25-28 | `len(page_map) == len(full)` |
| Chunker.PageTagsSegments | src/ingest/chunker.py:25-28 | each segment sits at its offset in `full`, and every character there carries the segment's page number |
| Chunker.PagesTextMap | src/ingest/chunker.py:21-28 | with per-page text, `full` is the pages joined in order, the map is as long as `full`, and every character of page `i` carries tag `i + 1` |
| Chunker.ApproxSegmentText | src/ingest/chunker.py:31-36 | the boundaries do not decrease, and segment `i` of the approximate split is the text between boundaries `i` and `i + 1` |
| Chunker.ApproxSegmentsCover | src/ingest/chunker.py:29-42 | without per-page text there are `max(pages, 1)` segments numbered 1 upwards, and they join back to exactly `doc.text` |
| Chunker.DocTagsBounded | src/ingest/chunker.py:21-42 | every tag of a document's page map lies between 1 and its page count |
| Chunker.Sample | src/ingest/chunker.py:48-51 | the sampled tags over `range(cursor, min(cursor + len, cursor + 200, len(page_map)))` all come from the page map |
| Chunker.Counts | src/ingest/chunker.py:49-52 | the `pages` dictionary has exactly the sampled tags as keys, each mapped to its number of occurrences |
| Chunker.MajorityPage | src/ingest/chunker.py:53 | the assigned page is 1 for an empty sample, otherwise a sampled tag at least as frequent as every other, the smaller one on a tie |
| Chunker.MajorityUnique | src/ingest/chunker.py:53 | at most one tag is the majority of a sample, so the sort key picks a unique page |
| Chunker.CountTags | src/ingest/chunker.py:49-52 | the counting loop builds exactly the tag counts of the sampled slice, with its keys in insertion order, the first being the first sampled tag |
| Chunker.FirstBySortKey | src/ingest/chunker.py:53 | `sorted(pages.items(), key=(-count, page))[0][0]`: a key that beats every other by count, then by smaller page |
| Chunker.AssignPage | src/ingest/chunker.py:47-53 | the page a split gets is the majority page of its sample |
| Chunker.ChunkSplits | src/ingest/chunker.py:44-55 | the split loop yields the chunks of `SplitChunks`: id, document name, majority page at the running cursor, and content |
| Chunker.ChunkDocument | src/ingest/chunker.py:20-55 | one document's chunks are those of its segments, page map and splitter output |
| Chunker.ChunkDocuments | src/ingest/chunker.py:7-56 | `chunk_documents` yields the chunks of every document, document by document |
| Chunker.DocChunksShape | src/ingest/chunker.py:43-54 | a document yields one chunk per split, in split order, named after the document, with the split as content, the id `sha1(f"{name}-{i}")[:12]` and a page between 1 and its page count |
| Chunker.CursorIsTotalLength | src/ingest/chunker.py:44-55 | the cursor of split `i` is the total length of the earlier splits, whatever their overlap |
| Chunker.PastTheMapIsPageOne | src/ingest/chunker.py:48-53 | a split whose cursor has run past the page map is given page 1 |
| Chunker.PageTagsBounded | src/ingest/chunker.py:25-27 | when every segment's page number lies in [lo, hi], so does every entry of the page map |
| Chunker.BestOf | src/ingest/chunker.py:53 | the chosen page is a candidate that beats every candidate by count, then by smaller page |
| PdfLoader.CollapseOfNulFree | src/ingest/pdf_loader.py:22 | collapsing the whitespace of a NUL-free text leaves no NUL, only spaces as whitespace and no two adjacent whitespace characters |
| Embeddings.Buckets | src/embeddings/embeddings.py:36-38 | every token's bucket `h(tok) % dim` is below `dim` |
| Embeddings.Counts | src/embeddings/embeddings.py:32-39 | the count vector has length `dim` |
| Embeddings.Embedding | src/embeddings/embeddings.py:31-39 | the vector of a text, before normalisation, has length `dim` |
| Embeddings.CountTokens | src/embeddings/embeddings.py:36-39 | the `vec[idx] += 1.0` loop computes the count vector of the tokens |
| Embeddings.Vectorize | src/embeddings/embeddings.py:31-39 | `_vectorize` before normalisation is the count vector of the lower-cased, whitespace-split tokens |
| Embeddings.EmbeddingsOf | src/embeddings/embeddings.py:44-45 | one vector per text, in order, each the text's embedding |
| Embeddings.EmbedDocuments | src/embeddings/embeddings.py:44-45 | `embed_documents` maps `_vectorize` over the texts |
| Embeddings.EmbedQuery | src/embeddings/embeddings.py:47-48 | `embed_query(t)` is `_vectorize(t)` |
| Embeddings.CountsAreBucketFrequencies | src/embeddings/embeddings.py:36-39 | each bucket holds the number of tokens whose hash falls in it |
| Embeddings.CountsSum | src/embeddings/embeddings.py:36-39 | the bucket counts add up to the number of tokens |
| Embeddings.BlankTextIsZero | src/embeddings/embeddings.py:32-35 | a text of whitespace only gives the all-zero vector |
| Fallback.ContextSignals | src/llm/fallback.py:56-57 | exactly the last min(8, n) of the prompt's n lines, in order, each cut to its first 60 characters |
| Fallback.StubReply | src/llm/fallback.py:54-57 | the stub reply starts with "Fallback (no local model). Context signals: " and adds at most 400 characters |
| Fallback.Request | src/llm/fallback.py:59-66 | the pipeline gets the prompt, `max_new_tokens = min(max_tokens, 256)`, the temperature, and sampling iff the temperature is positive |
| Fallback.LocalGenerate | src/llm/fallback.py:53-70 | no pipeline gives the stub reply, a raising pipeline the fixed local-error text, otherwise the generated text with an echoed prompt stripped |
| Fallback.StripEchoRoundTrip | src/llm/fallback.py:67-68 | generated text that echoes the prompt gives back the stripped reply alone |
| Fallback.StripEchoNoEcho | src/llm/fallback.py:68 | generated text that does not start with the prompt is returned whole |
| Fallback.StripKeepsPrefix | src/rag/qa_chain.py:195-196 | stripping a reply keeps a prefix that neither starts nor ends with whitespace, so the stub's reply still starts with its marker |
| Clauses.Categories | src/analysis/clauses.py:47-59 | the categories a keyword table names, one per entry, in its order |
| Clauses.KeywordTableCoversTargets | src/analysis/clauses.py:13-15 | the heuristic keyword table and `TARGET_CLAUSES` name the same eleven categories in the same order |
| Clauses.ScoreCounts | src/analysis/clauses.py:63-73 | a sentence's score is twice the number of phrases found plus three times the number of keyword tuples fully found |
| Clauses.ScoreThreshold | src/analysis/clauses.py:92-94 | a sentence passes `sc >= 3` iff two phrases or one tuple of its category are found |
| Clauses.HitsIffScore | src/analysis/clauses.py:130-139 | the relaxed pass's hit count is positive iff the strict score is positive iff some keyword of the category matches |
| Clauses.DefinitionNoiseMatchesPattern | src/analysis/clauses.py:89 | the definitional-noise test agrees with the line-89 pattern (a capitalised head of up to 41 characters, a colon, optional whitespace, then `means` or `the`) read as a search over its possible match lengths |
| Clauses.NoiseFound | src/analysis/clauses.py:89 | a sentence the pattern matches has a concrete match: a head length and a whitespace run |
| Clauses.NoiseForced | src/analysis/clauses.py:89 | any concrete match of the head, colon, whitespace and `means`/`the` makes the pattern match |
| Clauses.TypeCandidatesIff | src/analysis/clauses.py:91-96 | a sentence becomes a candidate for a category exactly when the category is scanned and scores at least 3, with the chunk's page and its score |
| Clauses.SentenceCandidatesSound | src/analysis/clauses.py:84-96 | every candidate of a chunk is one of its stripped pieces, of length 30 to 450 and not definitional noise, with a target category scoring at least 3 |
| Clauses.ChunkCandidatesSound | src/analysis/clauses.py:78-96 | a chunk with more than five replacement characters gives no candidate; the others give candidates drawn from their pieces, on their page |
| Clauses.CandidatesSound | src/analysis/clauses.py:78-96 | every strict-pass candidate comes from some chunk and satisfies the length, noise and score conditions |
| Clauses.GroupShape | src/analysis/clauses.py:95-96 | `best` has one list per (type, page) met, listing that group's entries in order; the keys are recorded once each, in insertion order |
| Clauses.ScoredLeTotalPreorder | src/analysis/clauses.py:99 | the sort key `(-score, len(sentence))` orders entries totally |
| Clauses.TopTwoBest | src/analysis/clauses.py:99-100 | `lst[:2]` after the sort keeps at most two entries of the group (exactly two when it has two), and none of the dropped entries is better |
| Clauses.Importance | src/analysis/clauses.py:108-113 | Indemnity and Liability with score at least 5 are High; below 5 the table's value (default Low) stands; otherwise only a Low with score at least 6 changes, to Medium |
| Clauses.GroupResultsKeyed | src/analysis/clauses.py:101-120 | the results built from a group carry that group's type and page |
| Clauses.StrictKeyIdentifies | src/analysis/clauses.py:103 | with a separated key, two results collide exactly when type, page and lower-cased snippet agree |
| Clauses.SelectedPerKey | src/analysis/clauses.py:98-120 | before deduplication the results for one (type, page) are exactly those built from its top two entries |
| Clauses.StrictAtMostTwo | src/analysis/clauses.py:97-120 | the strict pass emits at most two results per (type, page), with snippets of at most 350 characters |
| Clauses.StrictKeyCollision | src/analysis/clauses.py:103 | the hashed string `clause_type + str(page) + snippet.lower()` is the same for snippet `"2"+x` on page 1 and `x` on page 12 |
| Clauses.StrictKeyAsWrittenDrops | src/analysis/clauses.py:103-106 | so deduplicating on the as-written key drops the second result, while the separated key keeps both |
| Clauses.StrictResultsDropOnlyRepeats | src/analysis/clauses.py:101-106 | with the corrected key the strict results have pairwise distinct (type, page, lowercased snippet) keys, lose no key of the selected results, keep their order, and keep every selected result that is the first of its key |
| Clauses.StrictResultsAsWritten | src/analysis/clauses.py:101-106 | the strict pass as written, deduplicating on the separator-free hashed string: its results have distinct hashed strings and are a subsequence of the corrected results |
| Clauses.StrictResultsAgree | src/analysis/clauses.py:103-106 | when no two selected results share the hashed string without sharing type, page and lowercased snippet, the as-written and corrected strict passes give the same results |
| Clauses.FirstCategory | src/analysis/clauses.py:130-148 | none iff no category has a hit; otherwise the first category of the table with a hit |
| Clauses.RelaxedResultIff | src/analysis/clauses.py:125-148 | a sentence gives a relaxed result iff its length is 20 to 500 and some category has a hit; the result is the first such category's, on the chunk's page, with its 350-character snippet, an explanation of at most 160 characters and the table's importance |
| Clauses.RelaxedResultShaped | src/analysis/clauses.py:139-147 | a relaxed result has the shape every relaxed result has |
| Clauses.RelaxedAtMostOnePerSentence | src/analysis/clauses.py:125-148 | the relaxed pass gives each sentence at most one result, each of that shape |
| Clauses.HeuristicResults | src/analysis/clauses.py:44-148 | the heuristic mode returns the strict results, or the relaxed results exactly when the strict pass found nothing |
| Clauses.ParseClauseLine | src/analysis/clauses.py:32 | a match's page group is all digits |
| Clauses.ParseClauseLineSound | src/analysis/clauses.py:32 | a match reassembles to the line, and the lazy type and explanation groups contain no earlier occurrence of the next tag |
| Clauses.PageTagOfAssembled | src/analysis/clauses.py:32 | in a line of the grammar the page tag sits just before the trailing digits |
| Clauses.ParseClauseLineComplete | src/analysis/clauses.py:32 | every line of the grammar matches; when type and explanation hold no pipe character the groups are exactly the parts the line was built from |
| Clauses.FromGroups | src/analysis/clauses.py:158-166 | the result from a matched line has the stripped type, the stripped explanation and snippet cut to 400, and the page's decimal value |
| Clauses.FromGroupsShaped | src/analysis/clauses.py:158-166 | such a result has the table's importance and fields of at most 400 characters |
| Clauses.LineResult | src/analysis/clauses.py:155-166 | a line yields a result iff its stripped form matches, and that result has the model-read shape |
| Clauses.LineResults | src/analysis/clauses.py:154-166 | every result read from a reply has the model-read shape |
| Clauses.LineResultsStep | src/analysis/clauses.py:154-157 | one more line adds its result iff its stripped form matches |
| Clauses.KeyIndex | src/analysis/clauses.py:181 | `merged.get(k)`: the position of the entry with key k, or none iff no entry has it |
| Clauses.MergeStep | src/analysis/clauses.py:179-187 | a new (type, page) is appended; a known one keeps its place and takes r exactly when r's explanation is shorter and not contained in the kept one |
| Clauses.MergeStepShape | src/analysis/clauses.py:179-187 | a merge step keeps keys distinct, adds r's key, and keeps only old entries or r |
| Clauses.MergedShape | src/analysis/clauses.py:178-188 | the merged list has one entry per (type, page) of its input, each an input entry |
| Clauses.MergedMonotone | src/analysis/clauses.py:179-187 | later merge steps keep an entry's position and key and never lengthen its explanation |
| Clauses.MergedNotLonger | src/analysis/clauses.py:186 | the entry kept for a (type, page) is never longer-explained than the first result with that key |
| Clauses.MergePair | src/analysis/clauses.py:182-187 | of two results for one (type, page), the second is kept iff it replaces the first |
| Clauses.ClauseLeTotalPreorder | src/analysis/clauses.py:190-191 | the sort key (rank of importance, page, type) orders results totally |
| Sorting.SortByStable | src/analysis/clauses.py:191 | `list.sort` is stable: for any key value, the elements with that key appear in the sorted list in the same relative order as in the input |
| Clauses.ExtractedClausesProperties | src/analysis/clauses.py:168-192 | the output is sorted by (rank, page, type), has exactly one entry per (type, page) found, and each entry is a found result |
| Clauses.DedupeKeysThrough | src/analysis/clauses.py:169-176 | deduplicating on (type, page, snippet[:60]) loses no (type, page) |
| Clauses.TypeHits | src/analysis/clauses.py:91-96 | the category loop over one sentence yields its candidates |
| Clauses.SentenceHits | src/analysis/clauses.py:84-96 | the sentence loop over one chunk yields that chunk's candidates |
| Clauses.FindCandidates | src/analysis/clauses.py:78-96 | the chunk loop yields all candidates, in the order found |
| Clauses.GroupCandidates | src/analysis/clauses.py:76-96 | `setdefault(...).append` builds the grouping and its insertion order |
| Clauses.BuildStrictResult | src/analysis/clauses.py:102-120 | builds the result of one kept entry: snippet cut to 350, first sentence cut to 180, promoted importance |
| Clauses.AddGroup | src/analysis/clauses.py:101-120 | the `take` loop continues the deduplication on the corrected (type, page, lowercased snippet) key, keeping `snippet_seen` equal to the keys emitted |
| Clauses.ReduceGroups | src/analysis/clauses.py:98-120 | the reduction loop emits the top-two results of every group in insertion order, deduplicated on the corrected key |
| Clauses.StrictPass | src/analysis/clauses.py:75-120 | the strict pass computes the strict results, deduplicated on the corrected key |
| Clauses.CountHits | src/analysis/clauses.py:131-138 | the keyword loop counts the hits of a category |
| Clauses.FirstHitCategory | src/analysis/clauses.py:130-148 | the category loop stops at the first category with a hit |
| Clauses.RelaxedSentencesLoop | src/analysis/clauses.py:125-148 | the sentence loop of the relaxed pass yields that chunk's relaxed results |
| Clauses.RelaxedPass | src/analysis/clauses.py:122-148 | the relaxed pass over all chunks |
| Clauses.ParseReply | src/analysis/clauses.py:154-166 | the line loop reads the results of one reply |
| Clauses.LlmPass | src/analysis/clauses.py:150-166 | the model mode sends chunks in batches of ten and concatenates the results read from each reply |
| Clauses.Dedupe | src/analysis/clauses.py:169-176 | the `seen` loop keeps the first result per (type, page, snippet[:60]) |
| Clauses.MirrorsStep | src/analysis/clauses.py:179-187 | an update of the `merged` dictionary mirrors one merge step on its values in insertion order |
| Clauses.MirrorsValues | src/analysis/clauses.py:188 | `list(merged.values())` is the merged list |
| Clauses.Merge | src/analysis/clauses.py:178-188 | the `merged` loop computes the merged list |
| Clauses.ExtractClauses | src/analysis/clauses.py:35-192 | `extract_clauses`: heuristic passes for the stub client, the model's replies otherwise, then deduplication, merge and sort |
| LinePattern.Positions | src/analysis/redflags.py:28 | the lazy groups `(.*?)` end at the first occurrence of the closing tag after the head and the first following tag after that |
| LinePattern.Cut | src/analysis/redflags.py:28 | when the last tag sits at p, the groups reassemble the line, the tail follows that tag, and the two lazy groups hold no earlier occurrence of their closing tag |
| LinePattern.AssembleCuts | src/analysis/clauses.py:32 | cutting a line at its four tag occurrences and joining the pieces gives back the line |
| LinePattern.PositionsReach | src/analysis/clauses.py:32 | a line holding the tags in order has its lazy groups closed no later than any such occurrence |
| LinePattern.AssembleInjective | src/analysis/clauses.py:32 | two readings of one line with groups of the same lengths are the same reading |
| LinePattern.CutFound | src/analysis/redflags.py:28 | every line built from groups by the pattern's grammar is matched |
| LinePattern.FirstGroupLength | src/analysis/redflags.py:28 | the lazy first group ends where the built group ends when that group lacks the first character of the next tag |
| LinePattern.SecondGroupLength | src/analysis/redflags.py:28 | likewise for the second group |
| LinePattern.CutExact | src/analysis/redflags.py:28 | with the tags' first characters absent from the groups before them, matching a built line gives back exactly its groups |
| RedFlags.SumDeltasFilter | src/analysis/redflags.py:41-44 | the points added by the matching rules never exceed the table's total |
| RedFlags.ScoreBounds | src/analysis/redflags.py:39-53 | a snippet scores between 30 and 90, and exactly 30 when no rule matches, so the cap at 95 never applies |
| RedFlags.ReasonsIff | src/analysis/redflags.py:41-44 | a rule's label is among the reasons iff the snippet matches that rule's pattern |
| RedFlags.KeywordNamesDistinct | src/analysis/redflags.py:13-18 | the four rules have distinct labels |
| RedFlags.LabelsFilterIff | src/analysis/redflags.py:41-44 | with distinct labels, a rule's label is listed iff the rule applies |
| RedFlags.ScoreSnippet | src/analysis/redflags.py:39-44 | the rule loop computes the snippet's score and its reasons in table order |
| RedFlags.MatchStep | src/analysis/redflags.py:41-44 | one more rule adds its points and label exactly when it matches |
| RedFlags.HeuristicFlagShape | src/analysis/redflags.py:47-54 | a heuristic flag has the clause's type and page, a reason of at most 300 characters (the generic "Potential ... exposure" when no rule matched), the first 400 characters of the snippet and the score in [30, 90] as confidence |
| RedFlags.HeuristicFlagsFilter | src/analysis/redflags.py:38-54 | the heuristic mode flags exactly the clauses whose score reaches the threshold, in order |
| RedFlags.HeuristicFlagsAll | src/analysis/redflags.py:45-46 | at a threshold of at most 30 every clause is flagged |
| RedFlags.HeuristicPass | src/analysis/redflags.py:38-54 | the clause loop computes the heuristic flags |
| RedFlags.TailSplit | src/analysis/redflags.py:28 | the text from the page tag on is the page tag, the page digits, the score tag and the score digits |
| RedFlags.ParseRiskLine | src/analysis/redflags.py:28 | a match's page and score are digit strings, and the tail is page, score tag and score |
| RedFlags.ParseRiskLineSound | src/analysis/redflags.py:28 | a match reassembles to the line, and the lazy risk type and reason hold no earlier occurrence of the next tag |
| RedFlags.TailOfAssembled | src/analysis/redflags.py:28 | in a line of the grammar the page and score are read back where they were put |
| RedFlags.ParseRiskLineComplete | src/analysis/redflags.py:28 | every line of the grammar matches; when risk type and reason hold no pipe character the fields are exactly the parts it was built from |
| RedFlags.GrammarTail | src/analysis/redflags.py:28 | the tail of a line of the grammar is found at the page tag that was put |
| RedFlags.FieldsFlag | src/analysis/redflags.py:71-78 | a flag read from a line has a stripped risk type, a reason of at most 300 and a snippet of at most 400 characters, and non-negative page and confidence |
| RedFlags.LineFlagOfGrammar | src/analysis/redflags.py:67-78 | a model line written in the grammar gives back its stripped risk type, its score as confidence and its page |
| RedFlags.LineFlagOfParsed | src/analysis/redflags.py:67-78 | a stripped line that matches yields the flag of its fields |
| RedFlags.BatchesOfTwelve | src/analysis/redflags.py:56-57 | the batches hold every clause once, in order, at most twelve at a time |
| RedFlags.BatchLines | src/analysis/redflags.py:58-64 | the heuristic line loop writes one CLAUSE/SNIPPET/PAGE/BASE line per clause of the batch |
| RedFlags.ParseReply | src/analysis/redflags.py:67-78 | the line loop reads the flags of one reply |
| RedFlags.LlmPass | src/analysis/redflags.py:56-78 | the model mode prompts per batch of twelve and concatenates the flags read from each reply |
| RedFlags.ClampRange | src/analysis/redflags.py:81-85 | clamping puts the confidence in [0, 100], leaves one already there alone, and changes nothing else |
| RedFlags.ClampAll | src/analysis/redflags.py:81-85 | the in-place clamping loop clamps every result |
| RedFlags.FindThenIff | src/analysis/redflags.py:94-96 | the left-to-right search for `a.*b` finds a match exactly when `b` follows `a` on the same line |
| RedFlags.BroadThenMeaning | src/analysis/redflags.py:93-100 | each `a.*b` alternative of the broad patterns matches exactly when `b` follows `a` on one line |
| RedFlags.BroadThenAlts | src/analysis/redflags.py:93-100 | every `a.*b` alternative of the table has a non-empty `a` and no newline in `b` |
| RedFlags.FirstPattern | src/analysis/redflags.py:102-111 | the first broad pattern from k on that the snippet matches, and none iff no later pattern matches |
| RedFlags.FirstIndemnity | src/analysis/redflags.py:113 | the chosen clause is one of the clauses |
| RedFlags.FirstIndemnityIsFirst | src/analysis/redflags.py:113 | when some type starts with "indemn", the chosen clause is the first such |
| RedFlags.BroadFlagsShape | src/analysis/redflags.py:101-111 | at most one pattern flag per clause, each with one of the six risk types and that pattern's confidence |
| RedFlags.BroadFlagFirst | src/analysis/redflags.py:101-111 | a clause yields a pattern flag iff one of the six patterns matches; the flag is the first matching pattern's, on the clause's page |
| RedFlags.NoPatternIsNoCap | src/analysis/redflags.py:93-120 | no pattern flag has the "No explicit liability cap located" type |
| RedFlags.NoCapIff | src/analysis/redflags.py:91-120 | the no-cap flag is added iff some clause type starts with "indemn" and none with "liability" |
| RedFlags.NoCapSurvives | src/analysis/redflags.py:121-128 | deduplication by (risk type, page) keeps the no-cap flag |
| RedFlags.BroadenedConfidence | src/analysis/redflags.py:94-119 | every broadened flag has confidence between 60 and 72 |
| RedFlags.FindPattern | src/analysis/redflags.py:102-111 | the inner loop stops at the first matching pattern |
| RedFlags.BroadPass | src/analysis/redflags.py:101-111 | the clause loop computes the pattern flags |
| RedFlags.DedupeFlags | src/analysis/redflags.py:121-128 | the `seen` loop keeps the first flag per (risk type, page) |
| RedFlags.DetectedCases | src/analysis/redflags.py:86-130 | the detector returns the filtered results when any pass, otherwise (with clauses present) the deduplicated broadened flags; the output has distinct (type, page) or is the filtered list |
| RedFlags.DetectedConfidence | src/analysis/redflags.py:80-130 | every returned confidence is in [0, 100], and a filtered result reaches the threshold |
| RedFlags.ClampedFilterRange | src/analysis/redflags.py:80-86 | clamped results that pass the filter lie in [threshold, 100] |
| RedFlags.DedupedBroadenedRange | src/analysis/redflags.py:121-129 | the deduplicated broadened flags have confidences in [0, 100] |
| RedFlags.DetectRedflags | src/analysis/redflags.py:31-130 | `detect_redflags` for the chosen client computes the detected flags |
| RedFlags.StubLowThreshold | src/analysis/redflags.py:37-86 | with the stub client and a threshold of at most 30, every clause yields its heuristic flag, in order |
| RedFlags.ExampleRiskTypes | tests/test_redflags_detection.py:18-24 | the test's two clauses yield two flags carrying their clause types, in order |
| RedFlags.ExampleDetection | tests/test_redflags_detection.py:18-26 | for any Termination and Indemnity clause at threshold 0 with the stub, a flag mentions "termination" and one mentions "indemn" |
| RedFlags.ThenAltMeaning | src/analysis/redflags.py:94-99 | a well-formed `a.*b` alternative matches exactly when `b` follows `a` on one line |
| QAChain.BuildQAChain | src/rag/qa_chain.py:236-239 | no chain iff no store; a chain keeps the configuration and the store |
| QAChain.BuiltChainStub | src/rag/qa_chain.py:29-35 | the built chain's client is the stub exactly when Gemini is off or unavailable and the local client has no pipeline |
| QAChain.InjectedClientWins | src/rag/qa_chain.py:26-27 | an injected client is used as is |
| QAChain.WsThen | src/rag/qa_chain.py:41 | `\s+` followed by a word: a non-empty whitespace run ending where the word ends |
| QAChain.PrefixEnd | src/rag/qa_chain.py:41 | the end of the `what\s+is`, `define` or `meaning\s+of` prefix lies within the question |
| QAChain.TermGroup | src/rag/qa_chain.py:41 | the lazy term group is a non-empty run of `[\w\-\&\/\s\.]` characters cut from after the prefix |
| QAChain.AfterArticle | src/rag/qa_chain.py:46 | what follows a leading article and whitespace is a proper suffix of the term |
| QAChain.DropArticle | src/rag/qa_chain.py:46 | removing a leading "the", "a" or "an" and its whitespace leaves a suffix of the term |
| QAChain.AfterArticleStripped | src/rag/qa_chain.py:45-46 | a stripped term stays stripped and non-empty after its article |
| QAChain.DropArticleStripped | src/rag/qa_chain.py:45-48 | dropping the article keeps a stripped term stripped and non-empty |
| QAChain.DefinitionTargetStripped | src/rag/qa_chain.py:40-48 | a definition target is non-empty and stripped |
| QAChain.DefinitionTargetLower | src/rag/qa_chain.py:40-48 | a definition target is lower-case |
| QAChain.QuestionTermLower | src/rag/qa_chain.py:41-46 | the term read from a lower-case question is lower-case |
| QAChain.DefinitionTargetChars | src/rag/qa_chain.py:41-48 | a definition target holds only the pattern's term characters |
| QAChain.WhatIsTarget | src/rag/qa_chain.py:40-48 | a question reading "what is t?" in lower case, for a plain term t, has target t |
| QAChain.WhatIsTerm | src/rag/qa_chain.py:41-46 | the term of "what is t?" is t |
| QAChain.TheDropped | src/rag/qa_chain.py:46 | "the " before a term is removed |
| QAChain.SaasQuestion | tests/test_definition_fastpath.py:34 | "What is SaaS?" has target "saas" |
| QAChain.TargetTokens | src/rag/qa_chain.py:50-55 | the target comes first, followed by at most two acronym expansions |
| QAChain.CountPresent | src/rag/qa_chain.py:66-73 | the number of target tokens found, positive iff any is present |
| QAChain.SentenceHit | src/rag/qa_chain.py:62-77 | a hit carries the document's page and the stripped sentence, and satisfies the length, token and cue conditions |
| QAChain.HitScoreBounds | src/rag/qa_chain.py:70-76 | a hit scores between 4 and four per token plus 6 |
| QAChain.SentenceHits | src/rag/qa_chain.py:61-77 | every sentence hit of a document carries its page |
| QAChain.SentenceHitsStep | src/rag/qa_chain.py:61-77 | one more sentence adds its hit when it has one |
| QAChain.AllHits | src/rag/qa_chain.py:58-77 | every definition hit satisfies the hit conditions |
| QAChain.ScoreLeTotal | src/rag/qa_chain.py:79 | the key `(-score, len(sentence))` orders scored sentences totally |
| QAChain.TopHitIsFirstBest | src/rag/qa_chain.py:79-80 | the top definition hit is a hit of greatest score, shortest among those, and the first such in order |
| QAChain.ScoreHit | src/rag/qa_chain.py:70-76 | the scoring loop computes a hit's score |
| QAChain.DocHitsLoop | src/rag/qa_chain.py:61-77 | the sentence loop computes one document's hits |
| QAChain.CheckSentence | src/rag/qa_chain.py:62-77 | the checks of one sentence compute its hit |
| QAChain.CollectHits | src/rag/qa_chain.py:58-77 | the document loop computes all definition hits |
| QAChain.TrimmedAppend | src/rag/qa_chain.py:90-92 | applying trims in sequence composes |
| QAChain.ApplyTrims | src/rag/qa_chain.py:90-92 | the trim loop applies every trim pattern in order |
| QAChain.SpacedMeansIsWord | src/rag/qa_chain.py:94-96 | a text containing " means " has "means" as a whole word, so the split yields two parts |
| QAChain.MeansAt | src/rag/qa_chain.py:95 | the first whole-word "means", case-insensitively |
| QAChain.MeansHead | src/rag/qa_chain.py:97-98 | the text before it, stripped and cut at the first comma |
| QAChain.MeansTail | src/rag/qa_chain.py:95-98 | the text after it up to the next "means" or the first period, whichever comes first |
| QAChain.MeansCutShape | src/rag/qa_chain.py:94-98 | the shortened definition starts with the head and " means", ends with a period and is at most two characters longer |
| QAChain.CapLength | src/rag/qa_chain.py:100-101 | at most 320 characters; a shorter text is kept; a longer one becomes a prefix followed by "..." |
| QAChain.Shape | src/rag/qa_chain.py:93-101 | at most 320 characters, and a text of at most 260 is unchanged |
| QAChain.Concise | src/rag/qa_chain.py:90-102 | the heuristic definition is stripped and at most 320 characters |
| QAChain.Refinement | src/rag/qa_chain.py:104-112 | the stub is never asked; a refinement is kept only if stripped and 16 to 399 characters |
| QAChain.HeuristicDefinition | src/rag/qa_chain.py:113-116 | the fallback answer is non-empty for a non-empty sentence, and at most 320 characters unless it is the sentence itself |
| QAChain.DefinitionAnswer | src/rag/qa_chain.py:103-116 | the fast path cites the top hit's page and first 300 characters, without confidence |
| QAChain.DefinitionAnswerBounds | src/rag/qa_chain.py:103-116 | the fast-path answer is non-empty and shorter than 420 characters |
| QAChain.StubDefinition | src/rag/qa_chain.py:104-116 | with the stub, the answer is the heuristic definition, or the sentence when that is empty |
| QAChain.ShortSentenceAnswers | src/rag/qa_chain.py:90-116 | a stripped, untrimmed sentence of 16 to 260 characters with no refinement is the answer itself |
| QAChain.ConciseOfShort | src/rag/qa_chain.py:90-102 | a stripped untrimmed sentence of at most 260 characters is left as is |
| QAChain.LetterRuns | src/rag/qa_chain.py:128 | `re.findall(r"[a-zA-Z]{3,}")`: maximal letter runs of length at least 3 |
| QAChain.LetterRunsLower | src/rag/qa_chain.py:126-128 | the runs of a lower-case text are lower-case |
| QAChain.RawTokensShape | src/rag/qa_chain.py:126-128 | every raw token is a lower-case letter run of at least 3 that is not a stopword |
| QAChain.StemBy | src/rag/qa_chain.py:129-133 | the stem is a prefix of the token; a changed token is the stem plus one of the suffixes, and the stem is longer than two |
| QAChain.StemShape | src/rag/qa_chain.py:129-133 | stems of tokens of length at least 3 have length at least 3 |
| QAChain.StemNone | src/rag/qa_chain.py:129-133 | a token with none of the suffixes is its own stem |
| QAChain.StemExamples | src/rag/qa_chain.py:129-133 | "terminated" stems to "terminat" and "payment" to "pay" |
| QAChain.QueryTokensShape | src/rag/qa_chain.py:126-134 | the query tokens are lower-case and at least 3 characters long |
| QAChain.TokenScore | src/rag/qa_chain.py:160-167 | a token adds 3 when present, 2 for its first present synonym, 0 iff neither |
| QAChain.TokensScore | src/rag/qa_chain.py:160-167 | the token part of the score is between 0 and three per token |
| QAChain.TokensScoreZero | src/rag/qa_chain.py:160-167 | with no token or synonym present the token part is 0 |
| QAChain.TokensScorePresent | src/rag/qa_chain.py:160-162 | a present token gives at least 3 |
| QAChain.BoostScoreBounds | src/rag/qa_chain.py:169-171 | the domain boosters add between 0 and their total, and 0 when none is present |
| QAChain.NoSignalNoScore | src/rag/qa_chain.py:157-178 | a sentence without tokens, synonyms or boosters scores at most 0 and is dropped |
| QAChain.ScoreSentenceBounds | src/rag/qa_chain.py:157-178 | a score lies in [-2, 3 per token + 24], and a sentence of at most 250 characters with a token present scores at least 3 |
| QAChain.BoostTotalIs20 | src/rag/qa_chain.py:169 | the booster weights add up to 20 |
| QAChain.PageCandidates | src/rag/qa_chain.py:142-146 | every candidate is a stripped sentence of 12 to 400 characters on the document's page |
| QAChain.Collected | src/rag/qa_chain.py:139-147 | every collected sentence is such a candidate |
| QAChain.PageCandidatesLoop | src/rag/qa_chain.py:143-146 | the sentence loop collects one document's candidates |
| QAChain.CollectSentences | src/rag/qa_chain.py:139-147 | the document loop collects all candidates |
| QAChain.CandidatePool | src/rag/qa_chain.py:148-154 | the pool, retrieved or broadened to the whole store when fewer than five, holds only candidates |
| QAChain.PositivesScored | src/rag/qa_chain.py:180-181 | every kept sentence scores above 0 and comes from the pool |
| QAChain.TopSentencesProps | src/rag/qa_chain.py:184 | at most five sentences, sorted by the key, empty iff nothing scored, drawn from the scored ones, and none left out beats one kept |
| QAChain.TopSentencesScored | src/rag/qa_chain.py:180-184 | every top sentence has a positive score and comes from the pool |
| QAChain.ChunkSnippet | src/rag/qa_chain.py:191 | the fallback snippet is at most 280 characters with no newline |
| QAChain.FallbackBlocks | src/rag/qa_chain.py:189-193 | the document loop builds one context block and one citation per retrieved document |
| QAChain.GroundedReply | src/rag/qa_chain.py:196-197 | the reply is kept only when at least 25 characters and not the stub's; otherwise the no-match text |
| QAChain.FallbackAnswer | src/rag/qa_chain.py:185-198 | the chunk-level answer cites each retrieved document's page and snippet, in order, without confidence |
| QAChain.GroundedStub | src/rag/qa_chain.py:196-197 | the stub's reply always becomes the no-match text |
| QAChain.StubMarkFacts | src/rag/qa_chain.py:196 | the stub's reply begins with a text that lower-cases to the marker tested |
| QAChain.StubFallback | src/rag/qa_chain.py:185-198 | with the stub client the chunk-level answer is the no-match text |
| QAChain.FirstClause | src/rag/qa_chain.py:205 | the part before the first "; ", stripped, is no longer than the sentence |
| QAChain.SelectSentences | src/rag/qa_chain.py:201-211 | the loop keeps the first clause and a citation of each sentence whose clause was not seen |
| QAChain.KeptProps | src/rag/qa_chain.py:203-211 | the kept sentences have distinct lower-cased clauses, cover every clause, keep their order and include the top sentence |
| QAChain.OrderedPartition | src/rag/qa_chain.py:214-218 | the answer order is the definitional clauses followed by the others, a permutation of the clauses |
| QAChain.PartitionBy | src/rag/qa_chain.py:216 | "not in definitional" selects exactly the non-definitional clauses |
| QAChain.Compose | src/rag/qa_chain.py:219-221 | the answer is non-empty and at most 500 characters |
| QAChain.ComposeStartsWithFirst | src/rag/qa_chain.py:219 | the answer starts with the first ordered clause (cut to 500) |
| QAChain.SumScoresPositive | src/rag/qa_chain.py:224 | positive scores add up to at least their number |
| QAChain.ConfidenceRange | src/rag/qa_chain.py:223-225 | the confidence is in (0, 100], and 100 once the mean score reaches 25/3 |
| QAChain.Highlight | src/rag/qa_chain.py:229-232 | the highlight loop applies the substitution for every token of at least 3 characters, longest first |
| QAChain.HighlightNone | src/rag/qa_chain.py:232 | with no tokens the answer is unchanged |
| QAChain.HighlightHead | src/rag/qa_chain.py:232 | highlighting keeps a non-word first character non-word |
| QAChain.HighlightTwice | src/rag/qa_chain.py:230-232 | two successive substitutions equal one substitution of both token sets |
| QAChain.HighlightCapital | src/rag/qa_chain.py:232 | the match is case-insensitive and the whole word becomes the literal `**\1**` |
| QAChain.HighlightWholeWords | src/rag/qa_chain.py:232 | only whole words are replaced: the token "pay" leaves "payment" alone |
| QAChain.GeneralAnswer | src/rag/qa_chain.py:119-233 | with no scored sentence, the chunk-level answer; otherwise the mean-score confidence and one citation per kept sentence |
| QAChain.FindDefinitionHits | src/rag/qa_chain.py:52-77 | the fast path's loops compute the definition hits |
| QAChain.AnswerGeneral | src/rag/qa_chain.py:119-233 | the general path computes the general answer |
| QAChain.Ask | src/rag/qa_chain.py:37-233 | `ask` computes the fast-path answer when there are definition hits, the general answer otherwise |
| QAChain.DefinitionHitsNeedTarget | src/rag/qa_chain.py:43-52 | definition hits need a target and a docstore |
| QAChain.BestHit | src/rag/qa_chain.py:79-80 | the first hit after the sort is a hit no other beats |
| QAChain.FastPathAnswer | src/rag/qa_chain.py:78-116 | with definition hits, `ask` answers from the best hit, citing it, without confidence |
| QAChain.StubNoMatch | src/rag/qa_chain.py:185-198 | with the stub and nothing scored, `ask` gives the no-match text and one citation per retrieved document |
| QAChain.GeneralAnswerShape | src/rag/qa_chain.py:200-233 | with scored sentences, the confidence is in (0, 100], there are one to five citations, and the first cites the top sentence |
| Summarizer.Names | src/summarize/summarizer.py:29-40 | a table names at most as many categories as it has entries |
| Summarizer.FirstCategory | src/summarize/summarizer.py:52-56 | the category found is one of the table's |
| Summarizer.FirstCategoryIff | src/summarize/summarizer.py:41-56 | some category is found exactly when some keyword of the table occurs |
| Summarizer.ScorePositive | src/summarize/summarizer.py:45 | the keyword score is positive exactly when some keyword occurs |
| Summarizer.ScoreIffCategory | src/summarize/summarizer.py:41-56 | a sentence scores exactly when it has a category |
| Summarizer.CandidateOf | src/summarize/summarizer.py:44-47 | a piece is a candidate iff its length is in (15, 300) and some keyword occurs; the candidate is stripped with a positive score |
| Summarizer.Candidates | src/summarize/summarizer.py:43-47 | at most one candidate per sentence, each with a positive score and shorter than 300 |
| Summarizer.ScoreSentences | src/summarize/summarizer.py:43-47 | the scoring loop computes the candidates |
| Summarizer.CandidateLeTotal | src/summarize/summarizer.py:48 | the key (-score, length) orders candidates totally |
| Summarizer.SortedCandidates | src/summarize/summarizer.py:48 | the sorted candidates are a permutation of the candidates, by descending score and then ascending length |
| Summarizer.BestStep | src/summarize/summarizer.py:50-56 | a sentence sets its category only when the category has no sentence yet |
| Summarizer.BestIsFirst | src/summarize/summarizer.py:49-56 | a category has a sentence iff some sentence is classified under it, and it is the first such sentence |
| Summarizer.BestKeys | src/summarize/summarizer.py:49-56 | every chosen category is one the classifier can give |
| Summarizer.BestSaturated | src/summarize/summarizer.py:57-58 | once every category is filled, the rest of the loop changes nothing |
| Summarizer.PickBest | src/summarize/summarizer.py:49-58 | the selection loop with its early exit at ten categories computes the first sentence per category |
| Summarizer.PickBestBy | src/summarize/summarizer.py:49-58 | the same loop for any classifier with at most ten categories |
| Summarizer.ClassifyNames | src/summarize/summarizer.py:52-56 | the classifier gives only the table's categories |
| Summarizer.BestFull | src/summarize/summarizer.py:57-58 | with ten of at most ten categories filled, the early exit loses nothing |
| Summarizer.ArticleAt | src/summarize/summarizer.py:68 | an article at the head: "the", "a" or "an" in any case, then whitespace up to the next non-space |
| Summarizer.StripArticlesFrom | src/summarize/summarizer.py:68 | removing the articles never lengthens the text |
| Summarizer.StripArticles | src/summarize/summarizer.py:68 | removing the articles never lengthens the text |
| Summarizer.StripArticlesNoSpace | src/summarize/summarizer.py:68 | text without whitespace has no article to remove |
| Summarizer.ArticleInsideWord | src/summarize/summarizer.py:68 | the article must stand alone: "Theory" keeps its "The" |
| Summarizer.ArticleAnyCase | src/summarize/summarizer.py:68 | a leading "An" and its space are removed |
| Summarizer.Shortened | src/summarize/summarizer.py:69-70 | at most 170 characters, and a text of at most 170 is unchanged |
| Summarizer.BulletBody | src/summarize/summarizer.py:67-71 | the body is at most 170 characters and ends neither in a dot nor a space |
| Summarizer.BulletShape | src/summarize/summarizer.py:71 | a bullet is "- category: ", a body of at most 170 and exactly one final dot; the "..." of a shortened text does not survive |
| Summarizer.Bullets | src/summarize/summarizer.py:64-71 | at most one bullet per category of the order |
| Summarizer.BulletsStep | src/summarize/summarizer.py:65-71 | one more category adds its bullet iff it has a sentence |
| Summarizer.BulletsFollowOrder | src/summarize/summarizer.py:64-71 | the bullets are those of the categories having a sentence, in the fixed order |
| Summarizer.BulletsEmpty | src/summarize/summarizer.py:64-72 | there are no bullets iff no category of the order has a sentence |
| Summarizer.MakeBullets | src/summarize/summarizer.py:64-71 | the bullet loop computes the bullets |
| Summarizer.HeuristicDocumentSummary | src/summarize/summarizer.py:22-75 | `heuristic_document_summary` computes the heuristic summary ("- (No text extracted)" for no blocks) |
| Summarizer.OrderCoversCategories | src/summarize/summarizer.py:29-63 | every category of the table is in the bullet order |
| Summarizer.PlainBulletsOnlyUnplaced | src/summarize/summarizer.py:64-74 | when every candidate has a category in the order, the plain bullets are used only when there is no candidate |
| Summarizer.PlainBulletsUnused | src/summarize/summarizer.py:72-74 | the same for the summariser's own tables |
| Summarizer.BatchRepliesCount | src/summarize/summarizer.py:93-97 | one reply per batch of six parts: none for no parts, otherwise just enough to cover them |
| Summarizer.CollectReplies | src/summarize/summarizer.py:93-97 | the batch loop collects the stripped replies |
| Summarizer.Tidy | src/summarize/summarizer.py:103 | the tidied line is stripped and no longer than the line |
| Summarizer.ReplyLines | src/summarize/summarizer.py:103 | one tidied line per non-blank line of the reply |
| Summarizer.FirstMapped | src/summarize/summarizer.py:117-121 | the category of the first key of the table occurring in the line, and none iff no key occurs |
| Summarizer.MappedBounded | src/summarize/summarizer.py:105-122 | the categories found lie in the order, so at most ten are found and the `<= 10` test always holds |
| Summarizer.MapCategoriesOrdered | src/summarize/summarizer.py:105-123 | every category of the mapping is in the order |
| Summarizer.BestEmpty | src/summarize/summarizer.py:113-121 | no category is found exactly when no line is classified |
| Summarizer.ArrangedUnmapped | src/summarize/summarizer.py:122-124 | a reply none of whose lines names a category keeps its lines |
| Summarizer.ArrangedMapped | src/summarize/summarizer.py:122-124 | when some line names a category, the lines become one to ten "category: line" entries for the found categories, in the order |
| Summarizer.ArrangedFound | src/summarize/summarizer.py:122-124 | with one to ten categories found, the lines are the labelled lines of the found categories in order |
| Summarizer.LabelledLines | src/summarize/summarizer.py:124 | each of those is "category: line" with the category's first line |
| Summarizer.CleanedBullets | src/summarize/summarizer.py:125-136 | at most ten bullets, each "- " and at most 160 characters of a non-empty line; bullets not cut differ ignoring case |
| Summarizer.CleanStep | src/summarize/summarizer.py:127-134 | an empty line or one whose lower case was seen is skipped, any other is kept |
| Summarizer.CleanedEarly | src/summarize/summarizer.py:135-136 | once ten bullets are kept the break changes nothing |
| Summarizer.CleanBullets | src/summarize/summarizer.py:125-136 | the cleaning loop computes the cleaned bullets |
| Summarizer.MapBest | src/summarize/summarizer.py:115-121 | the category loop computes the first line per category |
| Summarizer.Consolidate | src/summarize/summarizer.py:92-101 | batch replies, then one consolidating prompt of the fixed instructions and the replies |
| Summarizer.SummarizeReply | src/summarize/summarizer.py:103-137 | normalisation, category arrangement and cleaning of the consolidated reply |
| Summarizer.ModelDocumentSummary | src/summarize/summarizer.py:92-137 | the model path's summary of one document |
| Summarizer.PartsOfAbsent | src/summarize/summarizer.py:86 | a document without chunks has no parts |
| Summarizer.GroupStep | src/summarize/summarizer.py:82-83 | one more chunk appends its text to its document's list |
| Summarizer.GroupChunks | src/summarize/summarizer.py:81-86 | `chunks_by_doc` has a key per document with chunks, holding their texts in order; other names get no parts |
| Summarizer.SummarizeParts | src/summarize/summarizer.py:86-137 | the heuristic summary for the stub client, the model summary otherwise |
| Summarizer.SummarizedStep | src/summarize/summarizer.py:85-137 | recording a document's summary keeps every summary that of its parts |
| Summarizer.NamesStep | src/summarize/summarizer.py:85-89 | recording the next document adds its name |
| Summarizer.SummarizeDocuments | src/summarize/summarizer.py:78-138 | one summary per document name, each the summary of that document's chunk texts |
| LegacyAnalysis.RoundHalfEven | modules/analysis.py:184 | Python's `round` to an integer: within one half of x, and a tie goes to the even neighbour |
| LegacyAnalysis.RoundMonotone | modules/analysis.py:184 | rounding never reverses order |
| LegacyAnalysis.RoundOfInt | modules/analysis.py:184 | an integer rounds to itself |
| LegacyAnalysis.Round2Between | modules/analysis.py:174 | `round(x, 2)` stays between any two whole-cent bounds of x |
| LegacyAnalysis.Round2OfCents | modules/analysis.py:174 | a whole number of cents is unchanged by `round(x, 2)` |
| LegacyAnalysis.Clamp | modules/analysis.py:174 | `max(0.05, min(0.95, x))` lies in [0.05, 0.95] and leaves values there alone |
| LegacyAnalysis.RoundedClamp | modules/analysis.py:174 | the rounded clamp still lies in [0.05, 0.95] |
| LegacyAnalysis.Lookup | modules/analysis.py:85 | `dict.get`: the default for an absent key, otherwise the key's entry |
| LegacyAnalysis.PageOf | modules/analysis.py:90 | the "page" metadata when present, otherwise the "page_number" metadata |
| LegacyAnalysis.Snippet | modules/analysis.py:82-84 | up to 120 characters before the keyword and 180 from it, with newlines replaced |
| LegacyAnalysis.SnippetShowsKeyword | modules/analysis.py:80-84 | the snippet shows the keyword it was cut around (for keywords of at most 180 characters without newline) |
| LegacyAnalysis.KeywordHitShaped | modules/analysis.py:79-92 | a clause is found only when the lower-cased text holds the keyword; it carries the keyword, its note, the table's category or "General", the page, and a snippet of at most 300 characters without newline that shows the keyword |
| LegacyAnalysis.CandidateOrigin | modules/analysis.py:77-92 | every collected clause comes from one document and one risk keyword |
| LegacyAnalysis.KeyClausesProperties | modules/analysis.py:93-101 | the result has distinct (keyword, page), at most top_n entries, is a prefix of the deduplicated clauses in order, holds only collected clauses, and with a large top_n covers every (keyword, page) found |
| LegacyAnalysis.CollectKeyClauses | modules/analysis.py:76-92 | the nested document and keyword loops collect the clauses in order |
| LegacyAnalysis.DedupePages | modules/analysis.py:94-100 | the `seen` loop keeps the first clause per (keyword, page) |
| LegacyAnalysis.ExtractKeyClauses | modules/analysis.py:74-101 | `extract_key_clauses` with the module's two tables |
| LegacyAnalysis.Severity | modules/analysis.py:109-114 | a severity is "high" or "medium" |
| LegacyAnalysis.DetectRedFlags | modules/analysis.py:106-116 | one flag per clause, in order, carrying the clause; "high" exactly for the five high keywords, "medium" for every other keyword |
| LegacyAnalysis.Weight | modules/analysis.py:178-179 | weights 1 to 3: 3 exactly for "high", 2 exactly for "medium" |
| LegacyAnalysis.RawScoreBounds | modules/analysis.py:179 | the raw score lies between the number of flags and three times it |
| LegacyAnalysis.RawScoreOfFlagged | modules/analysis.py:179 | with every severity high or medium, the raw score lies in [2n, 3n], and is 3n iff all are high |
| LegacyAnalysis.FlaggedRawScore | modules/analysis.py:179 | the same for the flags `detect_red_flags` produces |
| LegacyAnalysis.Denominator | modules/analysis.py:181 | the denominator is at least 1 |
| LegacyAnalysis.Scaled | modules/analysis.py:182 | the scaled score lies in [0, 100] |
| LegacyAnalysis.ComputeRiskIndex | modules/analysis.py:177-184 | the index is in [0, 100] and the level one of the four |
| LegacyAnalysis.RiskLevelOfIndex | modules/analysis.py:183-184 | an index up to 25 is Low, 27-55 Moderate, 57-75 Elevated, 77 or more High |
| LegacyAnalysis.RiskIndexMonotone | modules/analysis.py:179-184 | a larger raw score never lowers the index or the level |
| LegacyAnalysis.RiskIndexOfNoFlags | modules/analysis.py:177-184 | no flags give index 0, level Low |
| LegacyAnalysis.RiskIndexOfFourFlags | tests/test_analysis.py:33-40 | the test's four flags over 5000 characters give index 100, level High |
| LegacyAnalysis.AnswerWithConfidence | modules/analysis.py:150-160 | the answer is kept and the confidence lies in [0.05, 0.95] |
| LegacyAnalysis.AnswerConfidenceValues | modules/analysis.py:152-160 | the confidence is one of 0.3 to 0.7; hedging keeps it at most 0.5, its absence at least 0.5; 0.7 exactly for unhedged, short, decisive answers |
| LegacyAnalysis.SimilarityConfidence | modules/analysis.py:163-174 | no similarities give 0.1; otherwise the confidence lies in [0.05, 0.95] |
| LegacyAnalysis.SumBetween | modules/analysis.py:171 | a sum of values in [lo, hi] lies between n*lo and n*hi |
| LegacyAnalysis.SimilarityBlendRange | modules/analysis.py:169-173 | similarities in [-1, 1] give a blend in [0, 1] |
| LegacyAnalysis.SimilarityTopThree | modules/analysis.py:170 | only the first three similarities matter |
| LegacyAnalysis.SimilarityPerfect | modules/analysis.py:169-174 | perfect similarities and an answer of at least 180 characters give 0.95 |
| RetrieverQA.Similarity | modules/qa_with_retriever.py:53-54 | a score above 1 is read as a distance and becomes a similarity in (0, 0.5); any other score is kept; the result never exceeds 1 |
| RetrieverQA.SimilarityReversesDistance | modules/qa_with_retriever.py:54 | among distances, a larger distance gives a smaller similarity |
| RetrieverQA.ConvertScores | modules/qa_with_retriever.py:52-55 | the loop converts every score, one similarity per score, in order |
| RetrieverQA.Similarities | modules/qa_with_retriever.py:47-58 | the converted scores when the store gives scores, otherwise 0.5 per retrieved document |
| RetrieverQA.SimilaritiesBounded | modules/qa_with_retriever.py:47-58 | non-negative scores give similarities in [0, 1] |
| RetrieverQA.QueryTermsMembers | modules/qa_with_retriever.py:71 | a query term is exactly a whitespace-separated word of the lower-cased query longer than two characters |
| RetrieverQA.QueryTermsNonEmpty | modules/qa_with_retriever.py:71 | no query term is empty |
| RetrieverQA.FirstMention | modules/qa_with_retriever.py:72-77 | the first retrieved document whose lower-cased text holds a query term, and none iff no document does |
| RetrieverQA.Excerpt | modules/qa_with_retriever.py:76-79 | text of at most 600 characters is kept whole; longer text gives its first 600 characters followed by "..." |
| RetrieverQA.ChooseMention | modules/qa_with_retriever.py:72-77 | the document loop with its `break` picks the excerpt of the first mentioning document |
| RetrieverQA.OfflineAnswerChoice | modules/qa_with_retriever.py:70-81 | the offline answer ends with the offline marker and is the first mentioning document's excerpt, else the first document's non-empty excerpt, else the not-found sentence |
| RetrieverQA.AnsweredShape | modules/qa_with_retriever.py:27-81 | a failed index load gives the error answer with no documents and no similarities; otherwise the retrieved documents and their similarities are returned, and without Gemini the answer is the offline one |
| RetrieverQA.ComputeSimilarities | modules/qa_with_retriever.py:47-58 | computes the similarities of the retrieval |
| RetrieverQA.AnswerOffline | modules/qa_with_retriever.py:70-81 | computes the offline answer |
| RetrieverQA.AnswerQueryWithRetriever | modules/qa_with_retriever.py:27-81 | `answer_query_with_retriever` computes the modelled answer |

## Left out

- PDF reading (`load_pdfs` in src/ingest/pdf_loader.py, modules/pdf_reader.py): file and pypdf I/O. Only `clean_text` is modelled, and documents are inputs. The source builds its Document after the per-file loop (src/ingest/pdf_loader.py:61-62), so only the last file is kept; this is not modelled.
- The text splitter (`RecursiveCharacterTextSplitter`, src/ingest/chunker.py:14-18): a library call, given to the model as a function from text to splits.
- The chunk id: sha1 is a function given to the model, applied to the document name and the split index.
- The embedding hash: `int(sha1(tok).hexdigest(), 16)` is a function given to the model.
- Embeddings.Vectorize: stops at the count vector; the L2 normalisation (src/embeddings/embeddings.py:41-42) is floating-point arithmetic and is not modelled.
- FAISS, the retrievers and index persistence (src/vectorstore, src/rag/retriever.py, modules/retriever.py, modules/embed_store.py): the docstore contents and the retriever's result are inputs, and so is the choice between `invoke` and `get_relevant_documents` (src/rag/qa_chain.py:120-123).
- The language-model clients: the Gemini client (network, retries) and the loading of the transformers pipeline (src/llm/fallback.py:16-34). The hosted client is a function from prompt to reply that does not raise; the local pipeline is a function whose None stands for a raised call.
- `_get_llm` falling back to the local model when the Gemini client cannot be built (src/analysis/clauses.py:24-30 and its copies): the client is an input.
- The prompt templates read from src/prompts/ are not part of this model: they are template functions given to the model.
- The text of the hosted model's reply is whatever the reply function returns. The model does not capture an exception raised by the hosted client in `ask`'s definition refinement (src/rag/qa_chain.py:107-112) or in the other callers.
- The address and registration trim regexes (src/rag/qa_chain.py:85-92): string-to-string steps given to the model, applied in order.
- `extract_entities` (modules/analysis.py:119-147): regex-based entity extraction; not a core operation.
- `summarize_documents` and `refine_plain_language` of modules/analysis.py: calls into the hosted model with a small split-and-join offline fallback; not core operations.
- The exception branches of the legacy module (modules/analysis.py:70-71 and 102-103, which return `[{"error": ...}]`) and the index-load try blocks of modules/qa_with_retriever.py (lines 14-24): the model covers the failed load as a missing index, which yields the fixed error answer.
- The `k` and the index path arguments of `answer_query_with_retriever`: the retrieval result is an input.
- `math.log10` in `compute_risk_index`: a function given to the model; `LegacyAnalysis.RiskLevelOfIndex` holds for any such function.
- Floating point: Python floats are reals. `round` to an integer is half-to-even on exact reals; `round(x, 2)` rounds on exact reals, so binary representation effects are not modelled.
- Lowercasing is on the ASCII letters only; Python's full Unicode case mapping is not modelled.
- md5 in the clause deduplication is taken as injective: `Clauses.StrictResultsAsWritten` keys on the hashed string itself.
- AddGroup: deduplicates on the corrected key (type, page, lowercased snippet), so it keeps a result whose hashed string collides with an earlier one's on a different type, page or snippet, which the source drops (see Findings).
- ReduceGroups: uses the corrected deduplication key, as AddGroup does, so it does not reproduce the source's drop on a hashed-string collision.
- StrictPass: computes the corrected strict results, so it does not reproduce the source's drop on a hashed-string collision; `Clauses.StrictResultsAgree` states when it matches the source.
- HeuristicResults: its strict results use the corrected deduplication key, so the source's drop on a hashed-string collision is not reproduced.
- ExtractClauses: with the stub client it runs the corrected strict pass, so it keeps the results the source drops on a hashed-string collision.
- QAChain.IsTermChar: the `\w` class is ASCII letters, digits and the underscore in the model, where Python's `\w` on `str` is Unicode; a term with a non-ASCII letter does not match the definition question pattern in the model.
- QAChain.HasCue: the `\b` word boundary around a cue word is taken over the ASCII word class.
- QAChain.HighlightSet: the `\b` boundaries of the highlight step are taken over the ASCII word class, so a token next to a non-ASCII letter is treated as a whole word.
- QAChain.MeansAt: the `\b` around "means" in the definition split is taken over the ASCII word class, where Python's `\b` on `str` is Unicode; a "means" right after a non-ASCII letter counts as a whole word in the model.
- QAChain.NextMeans: the same ASCII word boundary as QAChain.MeansAt, for the end of the second part of the split.
- QAChain.MeansTail: found through QAChain.NextMeans, so it has the same ASCII word boundary.
- Summarizer.ArticleAt: the `\b` boundary before an article is taken over the ASCII word class.
- Summarizer.StripArticlesFrom: the same ASCII word boundary as Summarizer.ArticleAt.
- Clauses.ParseClauseLine: `\d+` accepts only the ASCII digits, where Python also accepts other Unicode decimal digits that `int()` reads.
- RedFlags.ParseRiskLine: the same ASCII `\d+` as Clauses.ParseClauseLine, for both the page and the score.
- The Streamlit UI, the session manager, logging, JSON export and environment parsing: presentation, threads, clocks and I/O.

## Findings

| source | as written | input that shows it | evidently intended | confidence | as-written member | corrected member |
|---|---|---|---|---|---|---|
| src/analysis/clauses.py:103 | the strict-pass dedup key hashes `clause_type + str(page) + snippet.lower()` with no separator | two results of one clause type: snippet "2" followed by x on page 1, and snippet x on page 12; both give the same hashed string, so the second is dropped | a key over the three fields (type, page, lower-cased snippet), so only true repeats are dropped | not executed | Clauses.StrictResultsAsWritten | Clauses.StrictResultsDropOnlyRepeats |
