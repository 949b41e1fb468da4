# transcript-write, modelled in Dafny

transcript-write turns a video's subtitle file into a cleaned Markdown transcript:

1. **Parsing.** It reads SRT or WebVTT captions into timestamped segments and drops consecutive repeats. It then writes them out as plain text with a `[HH:MM:SS]` marker before each new start time.
2. **Chunking.** It cuts that text into chunks. Each cut is placed at the last paragraph break, sentence end or timestamp marker near the target size. Every chunk after the first carries the tail of the previous one as context.
3. **Cleaning.** It sends each chunk, embedded in a prompt template, to a language model. Transient API errors are retried up to three times. Each call is priced from a per-model table.
4. **Resumable runs.** A resumable runner persists a job state after every chunk. The state lives in a primary JSON file with a backup, so a run can be paused, can crash, and can later resume, skipping the chunks already completed.
5. **Validation.** The cleaned output is checked for filler words, leaked prompt markers, malformed timestamps, suspicious length changes and many questions.
6. **Writing.** The result is written as a Markdown document plus a JSON metadata file.
7. **Estimating.** A cost estimator predicts tokens, dollars and minutes before a run.

The model has one Dafny module per source file:

| module | source file |
|---|---|
| `TranscriptParsing` | `src/transcript_parser.py` |
| `Chunking` | `src/chunker.py` |
| `LlmProcessing` | `src/llm_processor.py` |
| `StateManagement` | `src/state_manager.py` |
| `ResumableProcessing` | `src/resumable_processor.py` |
| `Validation` | `src/validator.py` |
| `MarkdownWriting` | `src/markdown_writer.py` |
| `CostEstimation` | `src/cost_estimator.py` |

Three shared modules support them:
- `Text` holds the Python string operations the source relies on: `strip`, `split`, `join`, `replace`, `startswith`, `lower`, `int` and `str` of naturals, and `round`.
- `Sorting` holds Python's stable `sort` with a key.
- `Wrappers` holds `Option` and `Result`.

**Classes and methods.** Where the source mutates an object, the model is a class:
- `ProcessingState`, `StateManager`, `ResumableProcessor` and `CostEstimator` are classes whose methods are proved against functions on values.
- Loops in the source are methods with loop invariants: `chunk_transcript`, `_deduplicate`, `to_plain_text`, `process_all_chunks`, the validator's checks, `_build_markdown`, `get_content_for_preview` and `estimate_total`.

**Inputs and oracles.** Outside effects become parameters:
- The language model is an oracle from the prompt and the attempt number to a reply or an error.
- The resumable runner's remote call is an oracle from the chunk position to success, a recoverable failure or a fatal failure.
- The pause button is a predicate on the chunk position.
- Clock readings and the md5 file id are string parameters.
- The state files are a two-slot `Store`. Each slot is absent, corrupt, or holds a record.

## Model

| member | source | states |
|---|---|---|
| TranscriptParsing.Pad2 | src/transcript_parser.py:86-88 | `:02d` gives at least two decimal digits that read back as the number, and exactly two below 100 |
| TranscriptParsing.FormatTimeSpec | src/transcript_parser.py:86-88 | the SRT time is three ':'-separated digit fields reading back as hours, minutes and seconds (milliseconds dropped); `HH:MM:SS`, 8 characters, below 100 hours |
| TranscriptParsing.VttShortTime | src/transcript_parser.py:90-94 | `MM:SS.mmm` becomes `00:MM:SS` |
| TranscriptParsing.VttLongTime | src/transcript_parser.py:90-96 | `HH:MM:SS.mmm` becomes `HH:MM:SS` |
| TranscriptParsing.VttNoColon | src/transcript_parser.py:90-96 | a time without ':' fails with an index error (there is no `parts[1]`) |
| TranscriptParsing.StripTagsFrom | src/transcript_parser.py:100 | tag removal keeps only characters of the input |
| TranscriptParsing.StripTagsFromNoTags | src/transcript_parser.py:100 | after `re.sub(r"<[^>]+>", "", ...)` no `<...>` tag is left |
| TranscriptParsing.StripTagsNone | src/transcript_parser.py:100 | text without '<' is unchanged by tag removal |
| TranscriptParsing.Words | src/transcript_parser.py:101 | `str.split()` yields non-empty words without whitespace |
| TranscriptParsing.JoinWordsNormalized | src/transcript_parser.py:101 | words joined by one space have no whitespace at the ends and only single spaces between words |
| TranscriptParsing.CleanTextSpec | src/transcript_parser.py:98-102 | `_clean_text` leaves no tag, its result is whitespace-normalised, and the final `strip` changes nothing |
| TranscriptParsing.CleanPlainText | src/transcript_parser.py:98-102 | text without tags only has its whitespace normalised |
| TranscriptParsing.SrtSegments | src/transcript_parser.py:56-68 | each SRT cue gives the segment with its own index, formatted start and end and cleaned text, in order |
| TranscriptParsing.CaptionSegmentSpec | src/transcript_parser.py:76-82 | a caption yields a segment iff both its times convert; the start is converted first, so its error wins |
| TranscriptParsing.CaptionErrorIsIndex | src/transcript_parser.py:90-96 | a caption only fails on a time with no second field |
| TranscriptParsing.NumberedAllOk | src/transcript_parser.py:76-82 | when every element converts, element k yields the value at 1-based position k+1 |
| TranscriptParsing.NumberedFirstFailure | src/transcript_parser.py:76-82 | the first failing element's error is the error of the whole |
| TranscriptParsing.NumberedError | src/transcript_parser.py:76-82 | a failure is always some element's failure |
| TranscriptParsing.VttSegmentsSpec | src/transcript_parser.py:71-83 | captions are numbered from 1 in order; the first caption with an unconvertible time decides the error |
| TranscriptParsing.Dedup | src/transcript_parser.py:130-142 | the result is no longer than the input, empty iff the input is, starts with the first segment and ends with the last text |
| TranscriptParsing.DedupStep | src/transcript_parser.py:138-140 | one more segment is kept exactly when its text differs from its predecessor's |
| TranscriptParsing.KeptPositionsSpec | src/transcript_parser.py:137-140 | a position is kept exactly when it is the first or its text differs from the previous segment's |
| TranscriptParsing.DedupAtKept | src/transcript_parser.py:130-142 | the result is the input read at the kept positions |
| TranscriptParsing.DedupSpec | src/transcript_parser.py:130-142 | the result is the subsequence at increasing positions, each kept iff it starts a new text |
| TranscriptParsing.DedupNoRepeats | src/transcript_parser.py:130-142 | the result never has two neighbouring segments with the same text |
| TranscriptParsing.DedupUnchanged | src/transcript_parser.py:130-142 | without neighbouring repeats nothing is dropped |
| TranscriptParsing.DedupIdempotent | src/transcript_parser.py:130-142 | deduplicating twice equals deduplicating once |
| TranscriptParsing.Deduplicate | src/transcript_parser.py:130-142 | the loop computes `Dedup` |
| TranscriptParsing.ParseSpec | src/transcript_parser.py:22-32 | only `.srt`/`.vtt` suffixes (any case) are read; any other suffix fails with "Unsupported format: " and the lower-cased suffix; an SRT file yields its deduplicated cues, a converting VTT file its deduplicated captions, and a VTT file with a caption whose time does not convert fails with that caption's index error |
| TranscriptParsing.Texts | src/transcript_parser.py:149-154 | the segment texts, one per segment, in order |
| TranscriptParsing.PlainLinesStep | src/transcript_parser.py:149-154 | each segment adds a marker line iff its start time is new, then its text line |
| TranscriptParsing.PlainLinesSpec | src/transcript_parser.py:144-156 | when no segment text itself starts with a newline and '[', the marker lines are exactly one `\n[start]` per new start time, and the other lines are the segment texts in order |
| TranscriptParsing.ToPlainText | src/transcript_parser.py:144-156 | the loop with its `current_time` joins the marker and text lines with newlines |
| Chunking.FullTextForLlmSpec | src/chunker.py:15-27 | with a non-empty context the text is the context block, a blank line, then the new-content block; otherwise only the new-content block; it always ends with the chunk text |
| Chunking.LastParagraphEndSpec | src/chunker.py:92-94 | the result ends a `\n\n` and no `\n\n` starts at or after it; none is found iff there is none |
| Chunking.ParagraphMatchesSpec | src/chunker.py:92 | the matches `re.finditer(r"\n\n")` reports are breaks, at least two apart, and every break is a match or overlaps the match before it (greedy, non-overlapping) |
| Chunking.LastParagraphEndIsLastMatch | src/chunker.py:92-94 | the paragraph split is the end of the last reported match (in `"\n\n\n"` that is 2, not 3), and there is none without a match |
| Chunking.LastSentenceEndSpec | src/chunker.py:96-98 | the split lands after the last `[.!?]` plus whitespace, and none is found iff there is none |
| Chunking.LastMarkerStartSpec | src/chunker.py:100-102 | the split lands at the start of the last `[digits:colons]` marker, and none is found iff there is none |
| Chunking.Window | src/chunker.py:89-90 | the search window runs from `max(start, target-100)` to `target+50`, clamped to the text |
| Chunking.FindBestSplit | src/chunker.py:85-104 | the split point lies between `start` and the end of the text, and strictly after `start` when the target is more than 100 past it |
| Chunking.SplitPreference | src/chunker.py:85-104 | paragraph break first, else sentence end, else timestamp marker, else the target itself, each at its last occurrence in the window |
| Chunking.PyTail | src/chunker.py:111 | `s[-k:]` is a suffix of length `min(k, len)`, and all of `s` for k = 0 |
| Chunking.FirstSentenceBreakEndSpec | src/chunker.py:112-115 | `re.search(r"[.!?]\s+")` finds the first sentence end and takes its whole whitespace run, and finds none iff there is none |
| Chunking.ContextIsSuffix | src/chunker.py:106-117 | the context is a suffix of the previous chunk text, and all of it when that text fits in the overlap |
| Chunking.ContextLength | src/chunker.py:106-117 | with a positive overlap the context is at most overlap + 50 characters |
| Chunking.ZeroOverlapTakesWholeText | src/chunker.py:111-117 | with overlap 0 and no sentence end in the last 50 characters, `[-0:]` makes the context the whole stripped previous text |
| Chunking.FirstTimestampAtSpec | src/chunker.py:119-122 | the search finds the first `[dd:dd:dd]` marker, and none iff there is none |
| Chunking.StartTimestampIsFirstMarker | src/chunker.py:70-75 | a chunk's start timestamp is the inside of its first `[dd:dd:dd]` marker |
| Chunking.StartTimestampDefault | src/chunker.py:70-75 | without such a marker the timestamp is `00:00:00` |
| Chunking.NextCut | src/chunker.py:55-58 | the slice end never moves backwards, and moves forward when the chunk size exceeds 100 |
| Chunking.BuildFromAt | src/chunker.py:66-81 | chunk k is built from piece k, numbered in order, with the previous piece as context source |
| Chunking.ChunkContexts | src/chunker.py:66-77 | only the first chunk lacks a context; every other context is a suffix of the previous chunk's text, bounded by overlap + 50 |
| Chunking.CutsFromPieces | src/chunker.py:54-81 | the positions the loop visits strictly increase inside the text, and the pieces are the stripped non-blank slices between them |
| Chunking.PiecesFromStripped | src/chunker.py:60-64 | blank slices are skipped and every chunk text is stripped and non-empty |
| Chunking.ChunkFromStops | src/chunker.py:54-81 | the loop ends at the end of the text, or at a position whose split point does not move |
| Chunking.ChunkFromBuilds | src/chunker.py:54-81 | when the loop finishes, its chunks are built in order from the pieces it cut |
| Chunking.ChunkFromTerminates | src/chunker.py:54-81 | with a chunk size above 100 the loop always reaches the end of the text |
| Chunking.ChunkTranscript | src/chunker.py:47-83 | the while loop computes the recursive description of the chunking |
| Chunking.ChunkTranscriptDelivers | src/chunker.py:47-83 | the visited positions start at 0 and increase to the end of the text; the chunks are built from the stripped non-blank slices; a stall needs a chunk size of at most 100 |
| Chunking.SmallChunkSizeCanStall | src/chunker.py:54-64 | with chunk size 50 and a marker at the start, the split point does not move (the source then loops forever) |
| LlmProcessing.NewProcessor | src/llm_processor.py:55-76 | an explicit non-empty key wins, else the environment's; with neither it fails with the `ValueError` message |
| LlmProcessing.BuildPromptWithoutPlaceholders | src/llm_processor.py:184-198 | a template without placeholders is sent unchanged |
| LlmProcessing.BuildPromptFillsChunkText | src/llm_processor.py:184-198 | the `{{chunkText}}` placeholder is replaced by the chunk's full text with context |
| LlmProcessing.BuildPromptEveryOccurrence | src/llm_processor.py:184-198 | every `{{fileName}}` of the template becomes the title, then every `{{chunkText}}` of the result becomes the chunk's full text: the prompt is the template split at the title placeholders (no piece holding one), joined with the title, split at the chunk-text placeholders (no piece holding one) and joined with the full text |
| LlmProcessing.BuildPromptFillsBoth | src/llm_processor.py:184-198 | the documented template `pre {{fileName}} mid {{chunkText}} post`, with one title placeholder and, once the title is in, one chunk-text placeholder, becomes `pre title mid fullText post` |
| Text.ReplaceIsSplitJoin | src/llm_processor.py:195-196 | `str.replace` replaces every non-overlapping occurrence left to right: `s.replace(pat, rep) == rep.join(s.split(pat))` |
| Text.SplitOnJoin | src/llm_processor.py:195-196 | the pieces of `s.split(pat)` joined with `pat` give `s` back, and no piece contains `pat` |
| Text.ReplaceOnce | src/llm_processor.py:195-196 | a pattern that overlaps no shifted copy of itself, occurring once between pattern-free text, is replaced by `rep` with the text around it kept |
| LlmProcessing.PricesFor | src/llm_processor.py:44-53 | the table's rates for a listed model, Sonnet's for any other; both rates positive |
| LlmProcessing.CalculateCost | src/llm_processor.py:200-210 | the cost is non-negative and zero iff no tokens were used |
| LlmProcessing.UnknownModelPricedAsSonnet | src/llm_processor.py:204 | an unlisted model costs exactly what Sonnet costs |
| LlmProcessing.CostAdditive | src/llm_processor.py:200-209 | the cost of summed token counts is the sum of the costs |
| LlmProcessing.Retry | src/llm_processor.py:93-101 | between one and three attempts are made |
| LlmProcessing.RetrySpec | src/llm_processor.py:93-101 | every attempt but the last raised a retryable error (rate limit, connection, internal server); the last replied, raised a non-retryable error that surfaces, or was the third retryable failure |
| LlmProcessing.ProcessChunkResult | src/llm_processor.py:102-152 | a result carries the chunk's index and text, the reply's text and usage, the model, and the cost of that usage; the reply came from one of the three attempts on the built prompt |
| LlmProcessing.ProcessAllChunks | src/llm_processor.py:154-182 | on success, result i is chunk i's and the callback saw (1,n)..(n,n); on failure the first failing chunk's error propagates after callbacks for the chunks before it |
| LlmProcessing.ProcessedInOrder | src/llm_processor.py:175-177 | results keep the chunks' order, indices and texts |
| LlmProcessing.Summarize | src/llm_processor.py:235-246 | the summary counts the results and names the model |
| LlmProcessing.SumsAppend | src/llm_processor.py:236-238 | token and cost sums split over a concatenation |
| LlmProcessing.TotalCostFromTotals | src/llm_processor.py:236-238 | with one model, the summed cost is the cost of the summed tokens |
| LlmProcessing.ProcessTranscript | src/llm_processor.py:214-248 | a missing key fails exactly as the constructor does, before any callback; with a key it succeeds iff every chunk's `process_chunk` succeeds, result `i` is chunk `i`'s, the callback receives `(1, n)`..`(k, n)`, a failure is the `process_chunk` error of the first failing chunk, and the summary's cost is the cost of its token totals |
| Sorting.InsertByMultiset | src/resumable_processor.py:214-215 | appending and sorting adds exactly the new element |
| Sorting.InsertBySorted | src/resumable_processor.py:214-215 | inserting into a sorted list keeps it sorted |
| Sorting.SortBySpec | src/resumable_processor.py:174-175 | sorting by chunk index gives a sorted permutation |
| Sorting.SortBySorted | src/resumable_processor.py:214-215 | sorting a sorted list changes nothing |
| Sorting.AppendSortIsInsert | src/resumable_processor.py:214-215 | append-then-sort on a sorted list is one stable insertion |
| Sorting.InsertStrict | src/state_manager.py:72-74 | adding a new index to an ascending duplicate-free list keeps it so |
| StateManagement.RemainingChunksSpec | src/state_manager.py:63-68 | the remaining indices ascend and are exactly those in `[0, total)` neither completed nor failed |
| StateManagement.ResumableLeavesWork | src/state_manager.py:56-61 | a resumable job has an index in range not yet completed |
| StateManagement.ResumableWithoutFailuresHasRemaining | src/state_manager.py:56-68 | a resumable job without failures has remaining chunks |
| StateManagement.FirstWithIndexSpec | src/state_manager.py:94-98 | the search finds the first cached entry with the index, and none iff there is none |
| StateManagement.UpsertSpec | src/state_manager.py:93-103 | the cache holds the new result, keeps every other index's entry, adds nothing else, keeps one entry per index, and appends when the index is new |
| StateManagement.WithIndexMembers | src/state_manager.py:72-74 | completing adds exactly the index to the completed list |
| StateManagement.WithIndexSpec | src/state_manager.py:72-74 | the completed list stays ascending without repeats |
| StateManagement.CompletingSpec | src/state_manager.py:70-105 | completing keeps the bookkeeping, marks the index, caches the result as its index's only entry, adds cost and tokens, and leaves the failures alone |
| StateManagement.CompletingNewIndexKeepsCostSum | src/state_manager.py:76-103 | the cost total matches the cache while each index is completed once |
| StateManagement.CompletingTwiceDoubleCounts | src/state_manager.py:76-103 | completing an index twice adds its cost twice but caches it once |
| StateManagement.Store.Write | src/state_manager.py:176-190 | after a write the primary file holds the record |
| StateManagement.WriteThenRead | src/state_manager.py:155-190 | a read after a write returns the record; a second write moves the first into the backup |
| StateManagement.DamagedPrimaryRecoversPrevious | src/state_manager.py:161-174 | a corrupt primary file falls back to the previously written state |
| StateManagement.AbsentPrimaryReadsNothing | src/state_manager.py:158-159 | without a primary file there is no state, whatever the backup holds |
| StateManagement.WriteAfterClear | src/state_manager.py:217-221 | after a clear the first write leaves no backup, so the cleared job cannot come back |
| StateManagement.NewRecordSpec | src/state_manager.py:192-215 | a new job is idle and not resumable, keeps its bookkeeping, has a zero cost matching its empty cache, and has every index in range remaining |
| StateManagement.ProcessingState.FromRecord | src/state_manager.py:47-50 | the object holds the record's fields |
| StateManagement.ProcessingState.UpdateTimestamp | src/state_manager.py:52-54 | only `last_updated` changes |
| StateManagement.ProcessingState.AddCompletedChunk | src/state_manager.py:70-105 | the new state is `Completing` of the old |
| StateManagement.ProcessingState.MarkCompleted | src/state_manager.py:72-74 | only the completed list changes, gaining the index in order |
| StateManagement.ProcessingState.AddTotals | src/state_manager.py:76-79 | only the cost and token totals change, by the result's amounts |
| StateManagement.ProcessingState.CacheResult | src/state_manager.py:93-103 | only the cache changes, by the upsert |
| StateManagement.ProcessingState.AddFailedChunk | src/state_manager.py:107-110 | the index's failure message is recorded or overwritten and the time stamped |
| StateManagement.StateManager.ReadState | src/state_manager.py:155-174 | a fresh state object holding the stored record, or none exactly when the store reads nothing |
| StateManagement.StateManager.WriteState | src/state_manager.py:176-190 | the state is stamped, then the primary moves to the backup and the state is installed |
| StateManagement.StateManager.CreateNewState | src/state_manager.py:192-215 | a fresh object holding `NewRecord` |
| StateManagement.StateManager.ClearState | src/state_manager.py:217-221 | both files are gone |
| StateManagement.StateManager.HasResumableState | src/state_manager.py:223-226 | true iff a state is readable and resumable |
| ResumableProcessing.RunFromStep | src/resumable_processor.py:179-238 | a run from position i is one iteration followed by the rest |
| ResumableProcessing.StepKeeps | src/resumable_processor.py:179-238 | every iteration persists what it changed over a backup and keeps the chunk count |
| ResumableProcessing.StepExtends | src/resumable_processor.py:179-238 | an iteration never forgets a completed index, a failed index or a sent position |
| ResumableProcessing.StepSends | src/resumable_processor.py:179-238 | a completed chunk or a chunk met with the pause flag set is never sent; a sent chunk ends up completed or failed |
| ResumableProcessing.StepStops | src/resumable_processor.py:190-238 | an iteration stops only on pause (status `paused`, chunk not sent) or on a fatal error (status `crashed`, message recorded) |
| ResumableProcessing.StepResults | src/resumable_processor.py:213-215 | the results list stays sorted and gains exactly each success |
| ResumableProcessing.StepWellKept | src/resumable_processor.py:217-231 | an iteration keeps the state's bookkeeping |
| ResumableProcessing.RunCheckpoints | src/resumable_processor.py:177-265 | a run ends with the final state stored over a backup and the status telling how it ended |
| ResumableProcessing.KeepsAlong | src/resumable_processor.py:179-238 | completed and failed indices and sent positions survive the rest of the run |
| ResumableProcessing.RunSends | src/resumable_processor.py:179-238 | only chunks still needing work are sent, and each ends up completed or failed |
| ResumableProcessing.RunStops | src/resumable_processor.py:190-265 | a pause stops before its chunk and nothing from it on is sent; a fatal failure is recorded with its message and nothing after it is sent |
| ResumableProcessing.RunFinishes | src/resumable_processor.py:240-255 | on normal exit every chunk was sent or already done, and the summary counts results and failures and carries the state's totals |
| ResumableProcessing.RunResults | src/resumable_processor.py:159-215 | the returned results are sorted by chunk index and are the cached results plus every success |
| ResumableProcessing.RunWellKept | src/resumable_processor.py:177-242 | a run keeps the completed list ascending without repeats and one cached result per index |
| ResumableProcessing.StartPersistsProcessing | src/resumable_processor.py:155-157 | before any chunk the state is marked `processing`, stamped and written: a read returns it, the previous state is the backup, nothing is sent or reported yet |
| ResumableProcessing.RunGuarantees | src/resumable_processor.py:113-265 | status `processing` is persisted first (the run starts from that written state, nothing sent yet); only chunks the stored state had not completed are sent, only while the pause flag is clear; the run ends checkpointed with its status; on normal exit every chunk was handled and the results are sorted and complete |
| ResumableProcessing.ResumableProcessor.constructor | src/resumable_processor.py:27-51 | not paused, not processing |
| ResumableProcessing.ResumableProcessor.StartNewJob | src/resumable_processor.py:53-99 | clears the store, then stores only an idle state with the configuration snapshot |
| ResumableProcessing.ResumableProcessor.ResumeFromState | src/resumable_processor.py:101-111 | the stored state iff there is one and it is resumable |
| ResumableProcessing.ResumableProcessor.Pause | src/resumable_processor.py:267-269 | sets the pause flag and nothing else |
| ResumableProcessing.ResumableProcessor.Checkpoint | src/resumable_processor.py:236-237 | sets the status and persists the state |
| ResumableProcessing.ResumableProcessor.MergeSuccess | src/resumable_processor.py:217-219 | merges the result into the state and persists it |
| ResumableProcessing.ResumableProcessor.RecordFailure | src/resumable_processor.py:229-232 | records the failure and persists the state |
| ResumableProcessing.ResumableProcessor.PauseBefore | src/resumable_processor.py:190-195 | persists `paused` and stops before the chunk |
| ResumableProcessing.ResumableProcessor.SendChunk | src/resumable_processor.py:197-238 | one send-and-record iteration, as `StepAt` describes |
| ResumableProcessing.ResumableProcessor.ProcessAllChunks | src/resumable_processor.py:113-265 | without a stored state it raises `ValueError` and changes no file; otherwise it runs exactly as `Run` describes |
| Validation.CountSeverityPositive | src/validator.py:29-43 | a severity's count is positive iff some issue has it |
| Validation.CountSeverityAppend | src/validator.py:38-43 | counts add up over concatenation |
| Validation.ResultFlags | src/validator.py:29-43 | `has_errors` iff `error_count > 0`, `has_warnings` iff `warning_count > 0`, and together they never exceed the issues |
| Validation.ToDict | src/validator.py:45-60 | the dictionary's totals and counts are the result's, and issue k keeps its severity value, rule and chunk |
| Validation.ToDictCounts | src/validator.py:45-60 | the dictionary's counts agree with the flags and fit in the total |
| Validation.FirstThree | src/validator.py:123 | `matches[:3]` keeps at most three matches, in order |
| Validation.MatchIssuesSpec | src/validator.py:123-134 | every match gives one filler warning |
| Validation.PatternIssuesSpec | src/validator.py:113-136 | at most three warnings per pattern in all, each a filler warning |
| Validation.PatternAddsFirstThree | src/validator.py:120-124 | each pattern appends, after the earlier patterns' warnings, one warning for each of its first three matches |
| Validation.NoMatchesNoFillers | src/validator.py:113-136 | without any match there is no filler warning |
| Validation.CheckFillers | src/validator.py:113-136 | the nested loop computes the filler warnings |
| Validation.MarkerIssuesCount | src/validator.py:138-153 | each distinct marker present gives exactly one error, an absent one none |
| Validation.MarkerIssuesSpec | src/validator.py:74-79 | each of the four prompt markers in the output gives one error, and nothing else is reported |
| Validation.CheckContextMarkers | src/validator.py:138-153 | the loop computes the marker errors |
| Validation.BracketTokensSpec | src/validator.py:160 | every token found is a bracketed run of digits, ':' and '.' occurring in the text |
| Validation.WellFormedStampExact | src/validator.py:162-163 | a bracketed token is accepted iff it is exactly `[dd:dd:dd]` or `[dd:dd]` |
| Validation.StampIssuesSpec | src/validator.py:155-171 | one warning per malformed token occurrence and none for the others |
| Validation.CheckTimestampFormat | src/validator.py:155-171 | the loop computes the timestamp warnings |
| Validation.RoundedPercentSpec | src/validator.py:173-202 | the `.0%` figure is within half a percent of the exact ratio |
| Validation.RatioThresholds | src/validator.py:173-202 | the 0.3 and 1.2 ratio tests are integer comparisons of the lengths |
| Validation.LengthIssuesSpec | src/validator.py:173-202 | at most one warning: truncation iff the original is empty or the output is under 3/10 of it, expansion iff the output is over 12/10 of a non-empty original |
| Validation.QuestionMatchesCount | src/validator.py:209 | `re.findall(r"[^.!?]*\?")` finds one match per '?' |
| Validation.QuestionIssuesSpec | src/validator.py:204-219 | one informational issue iff the text holds more than two '?' |
| Validation.ValidateChunk | src/validator.py:81-94 | the five checks concatenated in order |
| Validation.ChunkIssuesSpec | src/validator.py:81-94 | every issue carries the chunk's index; errors are exactly the marker findings, present iff a marker occurs |
| Validation.ConcatAppend | src/validator.py:103-109 | issues of a concatenation are the concatenated issues |
| Validation.ConcatSeverity | src/validator.py:103-109 | a severity occurs iff some chunk's issues have it |
| Validation.ValidateAll | src/validator.py:96-111 | the loop extends the result with each chunk's issues in order |
| Validation.AllIssuesAppend | src/validator.py:96-111 | validating a concatenation concatenates the validations |
| Validation.AllIssuesSpec | src/validator.py:96-111 | every issue names a validated chunk, errors are the marker findings, and the result has errors iff some cleaned text holds a marker |
| MarkdownWriting.MetadataToDict | src/markdown_writer.py:99-113 | fields under their JSON names, the cost as `cost_usd`, and a token total equal to input + output |
| MarkdownWriting.Scaled | src/markdown_writer.py:84 | the cost in ten-thousandths is within half a unit of the exact value |
| MarkdownWriting.Fixed4Spec | src/markdown_writer.py:84 | `:.4f` writes a sign, integer digits, a point and four decimals reading back as the rounded value |
| MarkdownWriting.Kept | src/markdown_writer.py:91-95 | at most one kept text per chunk |
| MarkdownWriting.HeaderSpec | src/markdown_writer.py:79-89 | the header starts with `# title`, has a duration line exactly when a non-empty duration is given, and otherwise holds the fixed facts |
| MarkdownWriting.KeptSpec | src/markdown_writer.py:91-95 | kept texts are non-empty and stripped; all-blank chunks give none |
| MarkdownWriting.BodyShape | src/markdown_writer.py:91-97 | the body adds each kept text followed by a blank line |
| MarkdownWriting.MarkdownShape | src/markdown_writer.py:71-97 | the document is the header, then the kept texts separated by blank lines with a final newline, or the header alone |
| MarkdownWriting.MarkdownStartsWithTitle | src/markdown_writer.py:79 | the document begins with the title line |
| MarkdownWriting.BuildMarkdown | src/markdown_writer.py:71-97 | the loop builds `Markdown` |
| MarkdownWriting.RemoveForbidden | src/markdown_writer.py:117 | removes every `<>:"/\|?*` and keeps only original characters |
| MarkdownWriting.CollapseSpaces | src/markdown_writer.py:118 | no whitespace is left; every character is original or a '-' |
| MarkdownWriting.DropLeadingDashes | src/markdown_writer.py:119 | `lstrip('-')` leaves a suffix that does not start with '-' |
| MarkdownWriting.DropTrailingDashes | src/markdown_writer.py:119 | `rstrip('-')` leaves a prefix that does not end with '-' |
| MarkdownWriting.SanitizeSpec | src/markdown_writer.py:115-119 | a safe name has no forbidden or whitespace character, at most 50 characters, and no '-' at either end |
| MarkdownWriting.RemoveForbiddenNone | src/markdown_writer.py:117 | without forbidden characters nothing is removed |
| MarkdownWriting.CollapseSpacesNone | src/markdown_writer.py:118 | without whitespace nothing changes |
| MarkdownWriting.SanitizeIdempotent | src/markdown_writer.py:115-119 | sanitising a sanitised name changes nothing |
| MarkdownWriting.PathsSpec | src/markdown_writer.py:56-61 | both files sit in the output directory under one stem and differ by their endings |
| MarkdownWriting.WriteSpec | src/markdown_writer.py:30-69 | the files are `<dir>/<safe title>-<timestamp>.md` and `...-metadata.json`, distinct; the document opens with the title; the metadata carries the summary's figures |
| MarkdownWriting.Stripped | src/markdown_writer.py:129 | text k is chunk k's stripped cleaned text |
| MarkdownWriting.PreviewPrefix | src/markdown_writer.py:128-136 | texts that fit are taken whole |
| MarkdownWriting.PreviewFits | src/markdown_writer.py:121-138 | when everything fits, the preview is all stripped texts joined by blank lines |
| MarkdownWriting.PreviewOverflow | src/markdown_writer.py:128-138 | the first text that does not fit is cut to the budget with "..." if more than 100 characters remain, else dropped, and nothing follows |
| MarkdownWriting.PreviewBudget | src/markdown_writer.py:121-138 | the parts exceed the budget by at most the three dots |
| MarkdownWriting.GetContentForPreview | src/markdown_writer.py:121-138 | the loop with its running total computes `Preview` |
| CostEstimation.UnknownModel | src/cost_estimator.py:97-101 | an unlisted model is priced and timed as Sonnet: $0.003/$0.015 per thousand, 5 s per chunk |
| CostEstimation.RoundToSpec | src/cost_estimator.py:108-112 | `round(x, places)` is within half a unit of the last kept place |
| CostEstimation.TokenCount | src/cost_estimator.py:56-63 | without an encoder, or when encoding fails, the count is `len // 4` |
| CostEstimation.FourFifths | src/cost_estimator.py:77 | `int(n * 0.8)` truncates four fifths and never exceeds n |
| CostEstimation.ChunkTokens | src/cost_estimator.py:65-78 | the output estimate never exceeds the input estimate |
| CostEstimation.ChunkTokensFallback | src/cost_estimator.py:65-78 | without an encoder the estimate depends only on the lengths |
| CostEstimation.TotalsAppend | src/cost_estimator.py:86-95 | totals of a concatenation are the sums of the totals |
| CostEstimation.TotalsOutputBounded | src/cost_estimator.py:86-95 | the summed output estimate never exceeds the summed input |
| CostEstimation.RoundedSpec | src/cost_estimator.py:97-113 | the breakdown reports the totals and chunk count; each cost is within half a ten-thousandth of the exact one, and the minutes within half a tenth |
| CostEstimation.UnknownModelBreakdown | src/cost_estimator.py:97-113 | an unlisted model's breakdown uses Sonnet's prices and 5 s per chunk |
| CostEstimation.EstimateSpec | src/cost_estimator.py:80-113 | the estimate reports the summed per-chunk token estimates of the full LLM texts and the chunk count, with output never above input |
| CostEstimation.EmptyEstimate | src/cost_estimator.py:80-113 | no chunks means all-zero figures |
| CostEstimation.CostEstimator.constructor | src/cost_estimator.py:43-45 | no encoder is loaded yet |
| CostEstimation.CostEstimator.Encoder | src/cost_estimator.py:47-54 | the encoder is available iff tiktoken is, and is loaded once on first use |
| CostEstimation.CostEstimator.CountTokens | src/cost_estimator.py:56-63 | computes `TokenCount` through the encoder property |
| CostEstimation.CostEstimator.EstimateChunkTokens | src/cost_estimator.py:65-78 | computes `ChunkTokens` |
| CostEstimation.CostEstimator.EstimateTotal | src/cost_estimator.py:80-113 | the accumulation loop computes `Estimate`; the encoder is loaded iff tiktoken is available and there was a chunk |

## Left out

- **Files, locks, JSON and atomic renames.** Opening and writing files, `FileLock`, `json.dump`/`json.load` and `_atomic_write` are not modelled. The state files are a two-slot `Store`, and an unreadable file is the `Corrupt` slot. A failed rename during the backup step, and lock timeouts, are not modelled.
- **Clocks, md5 and the pause thread.** `datetime.now`, the md5 file id (`_generate_file_id`) and the `%Y%m%d-%H%M%S` stamp are string parameters. The pause button, pressed from another thread, is the input `pauseAt`.
- **Floating point.** Costs, ratios and minutes are exact reals. `round` is modelled as round-half-to-even on the exact value, with no binary floating-point error.
- LlmProcessing.CalculateCost: returns the exact cost without `round(cost, 6)`.
- LlmProcessing.Summarize: carries the exact total cost without `round(total_cost, 4)`.
- ResumableProcessing.RunFinishes: the summary carries the exact `actual_cost` without `round(..., 4)`.
- **Oracles.**
  - The Anthropic SDK is an oracle from prompt and attempt number to a reply or an exception class.
  - The resumable runner's `process_chunk` call is an oracle per chunk position.
  - `_is_recoverable_error` is folded into that oracle's `Recoverable`/`Fatal` outcome.
  - The tenacity backoff waits are not modelled.
- **pysrt, webvtt and tiktoken.** The readers are inputs: the list of SRT cues and the list of VTT captions. The tiktoken encoding is an oracle `encode: string -> Option<nat>` (`None` when it raises). `HAS_TIKTOKEN` is a constructor parameter of `CostEstimator`. Loading the encoding (`tiktoken.get_encoding`, src/cost_estimator.py:51-54, outside the `try` of `count_tokens`) is assumed to succeed; an error it raised would reach `estimate_total`, and the model does not capture that.
- **Provider and output language.** The shipped `src/llm_processor.py` has no provider attribute, and its `process_chunk` takes no output language. `src/resumable_processor.py` and `src/state_manager.py` nevertheless use both. The model gives `Processor` a provider string that is stored in results and in the job configuration. The runner's remote oracle stands for whatever the call does, including failing.
- **Filler patterns.** The thirteen regular expressions with `\b` and look-arounds are an abstract matcher from a pattern and the lower-cased text to its matches (positions and matched text). The rest of `_check_fillers` is modelled.
- **ASCII only.** `str.lower` and `\d` are modelled on ASCII only. Whitespace is Python's `str.isspace` set.
- Chunking.ChunkTranscript: with a chunk size of at most 100, a timestamp marker at the start of the search window can keep the split point where it is. The source then loops forever; the model stops with the outcome `NoProgress(position)` (see `SmallChunkSizeCanStall`).
- ResumableProcessing.ResumableProcessor.ProcessAllChunks: on the `ValueError` path the source leaves `_is_processing` true, and so does the model. The specification function `Run` reads the store once; the method reads it as the source does (src/resumable_processor.py:143-153), twice when a resume is refused, and both reads give the same state.
- **Not modelled at all:**
  - `get_progress_percentage`, `get_state_summary` and `format_estimate`: display formatting.
  - `load_prompt_template`: a file read; the template is a parameter.
  - `parse_from_bytes`: writes a temporary file, then calls `parse`.
  - `get_current_state` and `clear_state` of the runner: one-line delegations to the state manager.
  - `process_transcript_resumable`: builds a runner and calls it.
  - `_normalize_transcript_whitespace`: `ToPlainText` models the raw text before that normalisation.
- **Paths.** `Path` normalisation is left out: joining is `dir + "/" + name`, and a suffix is taken from the last '/'-component.
