/**
 * The LLM processor: fills the prompt template for one chunk, sends it to the model with a
 * bounded retry policy, prices the reply from its token usage, processes a whole chunk list in
 * order and summarises the run.  The remote model is an oracle `api(prompt, attempt)`.
 */
module LlmProcessing {
  import opened Wrappers
  import opened Text
  import opened Chunking

  const SonnetModel: string := "claude-3-5-sonnet-20241022"
  const HaikuModel: string := "claude-3-5-haiku-20241022"
  const FileNamePlaceholder: string := "{{fileName}}"
  const ChunkTextPlaceholder: string := "{{chunkText}}"
  const MissingKeyMessage: string := "API key required. Set ANTHROPIC_API_KEY env var."
  /** `stop_after_attempt(3)`. */
  const MaxAttempts: nat := 3

  /** The result of processing one chunk; `provider` names the service that produced it. */
  datatype ProcessedChunk = ProcessedChunk(
    chunkIndex: int,
    originalText: string,
    cleanedText: string,
    inputTokens: nat,
    outputTokens: nat,
    cost: real,
    model: string,
    provider: string)

  /** The processor's configuration (the SDK client itself is not modelled). */
  datatype Processor = Processor(apiKey: string, model: string, temperature: real, maxTokens: nat, provider: string)

  /** The constructor: an explicit non-empty key wins, else the environment's, else `ValueError`. */
  function NewProcessor(apiKey: Option<string>, envKey: Option<string>, model: string,
                        temperature: real, maxTokens: nat, provider: string): (r: Result<Processor, string>)
    ensures r.Err? <==> (apiKey.None? || apiKey.value == []) && (envKey.None? || envKey.value == [])
    ensures r.Err? ==> r.error == MissingKeyMessage
    ensures r.Ok? ==> r.value.apiKey != [] && r.value.model == model && r.value.provider == provider
    ensures r.Ok? && apiKey.Some? && apiKey.value != [] ==> r.value.apiKey == apiKey.value
    ensures r.Ok? && (apiKey.None? || apiKey.value == []) ==> r.value.apiKey == envKey.value
  {
    var key := if apiKey.Some? && apiKey.value != [] then apiKey else envKey;
    if key.None? || key.value == [] then Err(MissingKeyMessage)
    else Ok(Processor(key.value, model, temperature, maxTokens, provider))
  }

  // ---------------------------------------------------------------------------------------
  // Prompt building
  // ---------------------------------------------------------------------------------------

  /** Every `{{fileName}}` becomes the title, then every `{{chunkText}}` the chunk's full text. */
  function BuildPrompt(chunk: Chunk, template: string, videoTitle: string): string {
    var withTitle := Replace(template, FileNamePlaceholder, videoTitle);
    Replace(withTitle, ChunkTextPlaceholder, FullTextForLlm(chunk))
  }

  /** A template with neither placeholder is sent unchanged. */
  lemma BuildPromptWithoutPlaceholders(chunk: Chunk, template: string, videoTitle: string)
    requires !Contains(template, FileNamePlaceholder) && !Contains(template, ChunkTextPlaceholder)
    ensures BuildPrompt(chunk, template, videoTitle) == template
  {
    ReplaceAbsent(template, FileNamePlaceholder, videoTitle);
    ReplaceAbsent(template, ChunkTextPlaceholder, FullTextForLlm(chunk));
  }

  /**
   * A template `pre + {{chunkText}} + post` without a title placeholder, whose only chunk-text
   * placeholder is the marked one, becomes `pre + full text + post`.
   */
  lemma BuildPromptFillsChunkText(chunk: Chunk, pre: string, post: string, videoTitle: string)
    requires !Contains(pre + ChunkTextPlaceholder + post, FileNamePlaceholder)
    requires forall i :: 0 <= i < |pre| ==> !OccursAt(pre + ChunkTextPlaceholder + post, ChunkTextPlaceholder, i)
    requires !Contains(post, ChunkTextPlaceholder)
    ensures BuildPrompt(chunk, pre + ChunkTextPlaceholder + post, videoTitle) == pre + FullTextForLlm(chunk) + post
  {
    var template := pre + ChunkTextPlaceholder + post;
    ReplaceAbsent(template, FileNamePlaceholder, videoTitle);
    ReplaceFirst(pre, ChunkTextPlaceholder, FullTextForLlm(chunk), post);
    ReplaceAbsent(post, ChunkTextPlaceholder, FullTextForLlm(chunk));
  }

  /**
   * Every `{{fileName}}` becomes the title and then every `{{chunkText}}` the chunk's full text:
   * the prompt is the template split at the title placeholders, joined with the title, split
   * at the chunk-text placeholders and joined with the full text.
   */
  lemma BuildPromptEveryOccurrence(chunk: Chunk, template: string, videoTitle: string)
    ensures var pieces := SplitOn(template, FileNamePlaceholder);
      && Join(FileNamePlaceholder, pieces) == template
      && (forall k :: 0 <= k < |pieces| ==> !Contains(pieces[k], FileNamePlaceholder))
      && var filled := Join(videoTitle, pieces);
         var parts := SplitOn(filled, ChunkTextPlaceholder);
         && Join(ChunkTextPlaceholder, parts) == filled
         && (forall k :: 0 <= k < |parts| ==> !Contains(parts[k], ChunkTextPlaceholder))
         && BuildPrompt(chunk, template, videoTitle) == Join(FullTextForLlm(chunk), parts)
  {
    SplitOnJoin(template, FileNamePlaceholder);
    ReplaceIsSplitJoin(template, FileNamePlaceholder, videoTitle);
    var filled := Replace(template, FileNamePlaceholder, videoTitle);
    SplitOnJoin(filled, ChunkTextPlaceholder);
    ReplaceIsSplitJoin(filled, ChunkTextPlaceholder, FullTextForLlm(chunk));
  }

  /** Neither placeholder overlaps a shifted copy of itself. */
  lemma PlaceholdersUnbordered()
    ensures Unbordered(FileNamePlaceholder) && Unbordered(ChunkTextPlaceholder)
  {
    forall k | 0 < k < |FileNamePlaceholder|
      ensures FileNamePlaceholder[k..] != FileNamePlaceholder[..|FileNamePlaceholder| - k]
    {
      if k == 1 {
        assert FileNamePlaceholder[k..][1] != FileNamePlaceholder[..|FileNamePlaceholder| - k][1];
      } else {
        assert FileNamePlaceholder[k..][0] != FileNamePlaceholder[..|FileNamePlaceholder| - k][0];
      }
    }
    forall k | 0 < k < |ChunkTextPlaceholder|
      ensures ChunkTextPlaceholder[k..] != ChunkTextPlaceholder[..|ChunkTextPlaceholder| - k]
    {
      if k == 1 {
        assert ChunkTextPlaceholder[k..][1] != ChunkTextPlaceholder[..|ChunkTextPlaceholder| - k][1];
      } else {
        assert ChunkTextPlaceholder[k..][0] != ChunkTextPlaceholder[..|ChunkTextPlaceholder| - k][0];
      }
    }
  }

  /**
   * The documented template shape `pre {{fileName}} mid {{chunkText}} post`, with one title
   * placeholder and, once the title is in, one chunk-text placeholder, becomes
   * `pre title mid fullText post`.
   */
  lemma BuildPromptFillsBoth(chunk: Chunk, pre: string, mid: string, post: string, videoTitle: string)
    requires !Contains(pre, FileNamePlaceholder)
    requires !Contains(mid + ChunkTextPlaceholder + post, FileNamePlaceholder)
    requires !Contains(pre + videoTitle + mid, ChunkTextPlaceholder)
    requires !Contains(post, ChunkTextPlaceholder)
    ensures BuildPrompt(chunk, pre + FileNamePlaceholder + mid + ChunkTextPlaceholder + post, videoTitle)
         == pre + videoTitle + mid + FullTextForLlm(chunk) + post
  {
    PlaceholdersUnbordered();
    var text := FullTextForLlm(chunk);
    var rest := mid + ChunkTextPlaceholder + post;
    ReplaceOnce(pre, FileNamePlaceholder, rest, videoTitle);
    TemplateRegroup(pre, FileNamePlaceholder, mid, ChunkTextPlaceholder, post);
    TemplateRegroup(pre, videoTitle, mid, ChunkTextPlaceholder, post);
    ReplaceOnce(pre + videoTitle + mid, ChunkTextPlaceholder, post, text);
  }

  /** `a + b + (c + d + e)` regrouped as written left to right. */
  lemma TemplateRegroup(a: string, b: string, c: string, d: string, e: string)
    ensures a + b + (c + d + e) == a + b + c + d + e
  {
  }

  // ---------------------------------------------------------------------------------------
  // Pricing
  // ---------------------------------------------------------------------------------------

  /** Dollars per 1000 tokens. */
  datatype Rates = Rates(input: real, output: real)

  /** The `PRICING` table. */
  function PricingTable(model: string): Option<Rates> {
    if model == SonnetModel then Some(Rates(0.003, 0.015))
    else if model == HaikuModel then Some(Rates(0.001, 0.005))
    else None
  }

  /** `PRICING.get(model, PRICING[sonnet])`. */
  function PricesFor(model: string): (p: Rates)
    ensures p.input > 0.0 && p.output > 0.0
    ensures PricingTable(model).Some? ==> p == PricingTable(model).value
    ensures PricingTable(model).None? ==> p == PricingTable(SonnetModel).value
  {
    match PricingTable(model)
    case Some(rates) => rates
    case None => Rates(0.003, 0.015)
  }

  /** The cost of one call before rounding to 6 decimals. */
  function CalculateCost(model: string, inputTokens: nat, outputTokens: nat): (cost: real)
    ensures cost >= 0.0
    ensures cost == 0.0 <==> inputTokens == 0 && outputTokens == 0
  {
    var p := PricesFor(model);
    (inputTokens as real / 1000.0) * p.input + (outputTokens as real / 1000.0) * p.output
  }

  /** Any model outside the table is priced exactly as the sonnet model. */
  lemma UnknownModelPricedAsSonnet(model: string, inputTokens: nat, outputTokens: nat)
    requires PricingTable(model).None?
    ensures CalculateCost(model, inputTokens, outputTokens) == CalculateCost(SonnetModel, inputTokens, outputTokens)
  {
  }

  /** Cost is additive in token counts: two calls cost what one call with their sums costs. */
  lemma CostAdditive(model: string, in1: nat, out1: nat, in2: nat, out2: nat)
    ensures CalculateCost(model, in1 + in2, out1 + out2)
         == CalculateCost(model, in1, out1) + CalculateCost(model, in2, out2)
  {
    var p := PricesFor(model);
    assert (in1 + in2) as real / 1000.0 * p.input == in1 as real / 1000.0 * p.input + in2 as real / 1000.0 * p.input;
    assert (out1 + out2) as real / 1000.0 * p.output == out1 as real / 1000.0 * p.output + out2 as real / 1000.0 * p.output;
  }

  // ---------------------------------------------------------------------------------------
  // The retry policy on `process_chunk`
  // ---------------------------------------------------------------------------------------

  /** The errors the SDK can raise; the first three are the retryable ones. */
  datatype ApiError = RateLimit | ApiConnection | InternalServer | OtherApiError(message: string)

  predicate IsRetryable(e: ApiError) {
    e.RateLimit? || e.ApiConnection? || e.InternalServer?
  }

  /** A reply: the first content block's text and the usage counters. */
  datatype ApiResponse = ApiResponse(text: string, inputTokens: nat, outputTokens: nat)

  /** What one attempt of the remote call does. */
  datatype Attempt = Replied(response: ApiResponse) | Raised(error: ApiError)

  /**
   * How a chunk fails: a non-retryable error surfaces as itself; a retryable error on the last
   * allowed attempt ends in tenacity's `RetryError`, carrying that error.
   */
  datatype CallFailure = Surfaced(error: ApiError) | RetriesExhausted(lastError: ApiError)

  /** The oracle: the remote model's behaviour on the `attempt`-th (0-based) try of `prompt`. */
  type Api = (string, nat) -> Attempt

  /** The decorated call from attempt `attempt` on; the count is the number of attempts made. */
  function Retry(api: Api, prompt: string, attempt: nat): (r: (Result<ApiResponse, CallFailure>, nat))
    requires attempt < MaxAttempts
    ensures attempt < r.1 <= MaxAttempts
    decreases MaxAttempts - attempt
  {
    match api(prompt, attempt)
    case Replied(response) => (Ok(response), attempt + 1)
    case Raised(e) =>
      if !IsRetryable(e) then (Err(Surfaced(e)), attempt + 1)
      else if attempt + 1 == MaxAttempts then (Err(RetriesExhausted(e)), attempt + 1)
      else Retry(api, prompt, attempt + 1)
  }

  /**
   * The policy: every attempt but the last raised a retryable error; the last one replied, raised
   * a non-retryable error (which surfaces), or was the third and raised a retryable error.
   */
  lemma {:induction false} RetrySpec(api: Api, prompt: string, attempt: nat)
    requires attempt < MaxAttempts
    ensures var (r, n) := Retry(api, prompt, attempt);
      && (forall k :: attempt <= k < n - 1 ==> api(prompt, k).Raised? && IsRetryable(api(prompt, k).error))
      && (r.Ok? <==> api(prompt, n - 1).Replied?)
      && (r.Ok? ==> r.value == api(prompt, n - 1).response)
      && (r.Err? && r.error.Surfaced? ==> api(prompt, n - 1) == Raised(r.error.error) && !IsRetryable(r.error.error))
      && (r.Err? && r.error.RetriesExhausted? ==>
            n == MaxAttempts && api(prompt, n - 1) == Raised(r.error.lastError) && IsRetryable(r.error.lastError))
    decreases MaxAttempts - attempt
  {
    match api(prompt, attempt)
    case Replied(_) =>
    case Raised(e) =>
      if IsRetryable(e) && attempt + 1 < MaxAttempts {
        RetrySpec(api, prompt, attempt + 1);
      }
  }

  /** `process_chunk`: one prompt, the retry policy, and the priced result. */
  function ProcessChunk(p: Processor, chunk: Chunk, template: string, videoTitle: string, api: Api)
    : Result<ProcessedChunk, CallFailure>
  {
    var (reply, _) := Retry(api, BuildPrompt(chunk, template, videoTitle), 0);
    match reply
    case Ok(response) =>
      Ok(ProcessedChunk(chunk.index, chunk.text, response.text, response.inputTokens, response.outputTokens,
                        CalculateCost(p.model, response.inputTokens, response.outputTokens), p.model, p.provider))
    case Err(failure) => Err(failure)
  }

  /**
   * A successful result carries the chunk's index and text, the reply's text and usage, the
   * processor's model and provider, and the cost of that usage; the reply came from one of the
   * three allowed attempts on the built prompt.
   */
  lemma ProcessChunkResult(p: Processor, chunk: Chunk, template: string, videoTitle: string, api: Api)
    ensures var r := ProcessChunk(p, chunk, template, videoTitle, api);
      r.Ok? ==>
        && r.value.chunkIndex == chunk.index
        && r.value.originalText == chunk.text
        && r.value.model == p.model
        && r.value.provider == p.provider
        && r.value.cost == CalculateCost(p.model, r.value.inputTokens, r.value.outputTokens)
        && exists k :: 0 <= k < MaxAttempts &&
             api(BuildPrompt(chunk, template, videoTitle), k)
               == Replied(ApiResponse(r.value.cleanedText, r.value.inputTokens, r.value.outputTokens))
  {
    var prompt := BuildPrompt(chunk, template, videoTitle);
    RetrySpec(api, prompt, 0);
    var (reply, n) := Retry(api, prompt, 0);
    if reply.Ok? {
      assert api(prompt, n - 1) == Replied(reply.value);
    }
  }

  // ---------------------------------------------------------------------------------------
  // Processing a whole chunk list
  // ---------------------------------------------------------------------------------------

  /** The callback arguments `(1, n), (2, n), ..., (k, n)`. */
  function ProgressCalls(k: nat, n: nat): (calls: seq<(nat, nat)>)
    ensures |calls| == k
  {
    seq(k, i => (i + 1, n))
  }

  /**
   * `process_all_chunks`: the chunks in order, the callback after each one; the first failure
   * propagates (no callback for the failing chunk).
   */
  method ProcessAllChunks(p: Processor, chunks: seq<Chunk>, template: string, videoTitle: string, api: Api)
    returns (r: Result<seq<ProcessedChunk>, CallFailure>, progress: seq<(nat, nat)>)
    ensures r.Ok? ==> |r.value| == |chunks| && progress == ProgressCalls(|chunks|, |chunks|)
    ensures r.Ok? ==> forall i :: 0 <= i < |chunks| ==> ProcessChunk(p, chunks[i], template, videoTitle, api) == Ok(r.value[i])
    ensures r.Err? ==> |progress| < |chunks| && progress == ProgressCalls(|progress|, |chunks|)
    ensures r.Err? ==> ProcessChunk(p, chunks[|progress|], template, videoTitle, api) == Err(r.error)
    ensures r.Err? ==> forall i :: 0 <= i < |progress| ==> ProcessChunk(p, chunks[i], template, videoTitle, api).Ok?
  {
    var results: seq<ProcessedChunk> := [];
    progress := [];
    for i := 0 to |chunks|
      invariant |results| == i && progress == ProgressCalls(i, |chunks|)
      invariant forall j :: 0 <= j < i ==> ProcessChunk(p, chunks[j], template, videoTitle, api) == Ok(results[j])
    {
      var result := ProcessChunk(p, chunks[i], template, videoTitle, api);
      if result.Err? {
        return Err(result.error), progress;
      }
      results := results + [result.value];
      progress := progress + [(i + 1, |chunks|)];
    }
    r := Ok(results);
  }

  /** Successful processing keeps the input order: result `i` is chunk `i`'s. */
  lemma ProcessedInOrder(p: Processor, chunks: seq<Chunk>, template: string, videoTitle: string, api: Api,
                         results: seq<ProcessedChunk>)
    requires |results| == |chunks|
    requires forall i :: 0 <= i < |chunks| ==> ProcessChunk(p, chunks[i], template, videoTitle, api) == Ok(results[i])
    ensures forall i :: 0 <= i < |chunks| ==>
      results[i].chunkIndex == chunks[i].index && results[i].originalText == chunks[i].text
  {
    forall i | 0 <= i < |chunks|
      ensures results[i].chunkIndex == chunks[i].index && results[i].originalText == chunks[i].text
    {
      ProcessChunkResult(p, chunks[i], template, videoTitle, api);
    }
  }

  // ---------------------------------------------------------------------------------------
  // The `process_transcript` summary
  // ---------------------------------------------------------------------------------------

  datatype Summary = Summary(chunksProcessed: nat, totalInputTokens: nat, totalOutputTokens: nat, totalCost: real, model: string)

  function SumInput(rs: seq<ProcessedChunk>): nat {
    if rs == [] then 0 else rs[0].inputTokens + SumInput(rs[1..])
  }

  function SumOutput(rs: seq<ProcessedChunk>): nat {
    if rs == [] then 0 else rs[0].outputTokens + SumOutput(rs[1..])
  }

  function SumCost(rs: seq<ProcessedChunk>): real {
    if rs == [] then 0.0 else rs[0].cost + SumCost(rs[1..])
  }

  /** The summary dictionary (the total cost before rounding to 4 decimals). */
  function Summarize(results: seq<ProcessedChunk>, model: string): (s: Summary)
    ensures s.chunksProcessed == |results| && s.model == model
  {
    Summary(|results|, SumInput(results), SumOutput(results), SumCost(results), model)
  }

  /** The totals split over a concatenation, so a run processed in parts sums the same. */
  lemma {:induction false} SumsAppend(a: seq<ProcessedChunk>, b: seq<ProcessedChunk>)
    ensures SumInput(a + b) == SumInput(a) + SumInput(b)
    ensures SumOutput(a + b) == SumOutput(a) + SumOutput(b)
    ensures SumCost(a + b) == SumCost(a) + SumCost(b)
  {
    if a != [] {
      assert (a + b)[1..] == a[1..] + b;
      SumsAppend(a[1..], b);
    } else {
      assert a + b == b;
    }
  }

  /** When every result is priced by one model, the summed cost is the cost of the summed tokens. */
  lemma {:induction false} TotalCostFromTotals(results: seq<ProcessedChunk>, model: string)
    requires forall i :: 0 <= i < |results| ==>
      results[i].cost == CalculateCost(model, results[i].inputTokens, results[i].outputTokens)
    ensures SumCost(results) == CalculateCost(model, SumInput(results), SumOutput(results))
  {
    if results != [] {
      TotalCostFromTotals(results[1..], model);
      CostAdditive(model, results[0].inputTokens, results[0].outputTokens, SumInput(results[1..]), SumOutput(results[1..]));
    }
  }

  /** Why `process_transcript` gives up. */
  datatype TranscriptError = NoApiKey(message: string) | ChunkFailed(failure: CallFailure)

  /**
   * `process_transcript`: build the processor, process every chunk, summarise.  The template is
   * a parameter (its file read is not modelled).
   */
  method ProcessTranscript(chunks: seq<Chunk>, apiKey: Option<string>, envKey: Option<string>, videoTitle: string,
                           model: string, provider: string, template: string, api: Api)
    returns (r: Result<(seq<ProcessedChunk>, Summary), TranscriptError>, progress: seq<(nat, nat)>)
    ensures NewProcessor(apiKey, envKey, model, 0.3, 4096, provider).Err? <==> r.Err? && r.error.NoApiKey?
    ensures r.Ok? ==> |r.value.0| == |chunks| && r.value.1 == Summarize(r.value.0, model)
    ensures r.Ok? ==> r.value.1.totalCost == CalculateCost(model, r.value.1.totalInputTokens, r.value.1.totalOutputTokens)
    ensures r.Ok? ==> forall i :: 0 <= i < |chunks| ==>
      r.value.0[i].chunkIndex == chunks[i].index && r.value.0[i].originalText == chunks[i].text
    ensures NewProcessor(apiKey, envKey, model, 0.3, 4096, provider).Err? ==> progress == []
    ensures var made := NewProcessor(apiKey, envKey, model, 0.3, 4096, provider);
      made.Ok? ==>
        && (r.Ok? <==> forall i :: 0 <= i < |chunks| ==> ProcessChunk(made.value, chunks[i], template, videoTitle, api).Ok?)
        && (r.Ok? ==> progress == ProgressCalls(|chunks|, |chunks|))
        && (r.Ok? ==> forall i :: 0 <= i < |chunks| ==>
              ProcessChunk(made.value, chunks[i], template, videoTitle, api) == Ok(r.value.0[i]))
        && (r.Err? ==> r.error.ChunkFailed? && |progress| < |chunks| && progress == ProgressCalls(|progress|, |chunks|))
        && (r.Err? ==> ProcessChunk(made.value, chunks[|progress|], template, videoTitle, api) == Err(r.error.failure))
  {
    progress := [];
    var made := NewProcessor(apiKey, envKey, model, 0.3, 4096, provider);
    if made.Err? {
      return Err(NoApiKey(made.error)), progress;
    }
    var p := made.value;
    var results;
    results, progress := ProcessAllChunks(p, chunks, template, videoTitle, api);
    if results.Err? {
      return Err(ChunkFailed(results.error)), progress;
    }
    ProcessedInOrder(p, chunks, template, videoTitle, api, results.value);
    forall i | 0 <= i < |results.value|
      ensures results.value[i].cost == CalculateCost(model, results.value[i].inputTokens, results.value[i].outputTokens)
    {
      ProcessChunkResult(p, chunks[i], template, videoTitle, api);
    }
    TotalCostFromTotals(results.value, model);
    r := Ok((results.value, Summarize(results.value, model)));
  }
}
