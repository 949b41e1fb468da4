/**
 * Cost estimation before processing: token counts with a length-based fallback, per-chunk
 * input and output estimates, and their totals priced per model.  The tokenizer is an input:
 * `encode(text)` is the token count it returns, or `None` when encoding raises.
 */
module CostEstimation {
  import opened Wrappers
  import opened Text
  import opened Chunking

  const Sonnet := "claude-3-5-sonnet-20241022"
  const Haiku := "claude-3-5-haiku-20241022"

  /** Dollars per thousand tokens. */
  datatype Price = Price(input: real, output: real)

  const Pricing: map<string, Price> := map[Sonnet := Price(0.003, 0.015), Haiku := Price(0.001, 0.005)]

  /** Seconds per chunk. */
  const TimePerChunk: map<string, nat> := map[Sonnet := 5, Haiku := 3]

  /** `CostBreakdown`. */
  datatype CostBreakdown = CostBreakdown(
    inputTokens: nat,
    outputTokensEst: nat,
    inputCost: real,
    outputCost: real,
    totalCost: real,
    chunks: nat,
    processingTimeMinutes: real)

  /** Input and output token estimates. */
  datatype Tokens = Tokens(input: nat, output: nat)

  /** The model's prices, or Sonnet's for a model without an entry. */
  function PriceFor(model: string): Price {
    if model in Pricing then Pricing[model] else Pricing[Sonnet]
  }

  /** The model's seconds per chunk, or 5 for a model without an entry. */
  function SecondsPerChunk(model: string): nat {
    if model in TimePerChunk then TimePerChunk[model] else 5
  }

  /** A model without a table entry is priced and timed as Sonnet. */
  lemma UnknownModel(model: string)
    requires model != Sonnet && model != Haiku
    ensures PriceFor(model) == PriceFor(Sonnet) == Price(0.003, 0.015)
    ensures SecondsPerChunk(model) == SecondsPerChunk(Sonnet) == 5
  {
    assert model !in Pricing && model !in TimePerChunk;
  }

  /** `round(x, places)` on an exact real, ties to even. */
  function RoundTo(x: real, places: nat): real {
    Pow10Positive(places);
    RoundScaled(x, Pow10(places) as real)
  }

  /** `x` rounded to the nearest multiple of `1 / p`, ties to even. */
  function RoundScaled(x: real, p: real): real
    requires p > 0.0
  {
    RoundHalfEven(x * p) as real / p
  }

  /** The rounded value is within half a unit of the last kept place. */
  lemma RoundToSpec(x: real, places: nat)
    ensures 2.0 * (x - RoundTo(x, places)) * Pow10(places) as real <= 1.0
    ensures 2.0 * (RoundTo(x, places) - x) * Pow10(places) as real <= 1.0
  {
    Pow10Positive(places);
    var p := Pow10(places) as real;
    RoundScaledSpec(x, p);
    assert RoundTo(x, places) == RoundScaled(x, p);
  }

  /** The rounded value is within half of `1 / p` of `x`. */
  lemma RoundScaledSpec(x: real, p: real)
    requires p > 0.0
    ensures 2.0 * (x - RoundScaled(x, p)) * p <= 1.0 && 2.0 * (RoundScaled(x, p) - x) * p <= 1.0
  {
    ScaleBack(x, p, RoundHalfEven(x * p) as real);
  }

  /** A value within half a unit of `x * p` gives, divided by `p`, one within half of `1 / p` of `x`. */
  lemma ScaleBack(x: real, p: real, n: real)
    requires p > 0.0 && 2.0 * (x * p - n) <= 1.0 && 2.0 * (n - x * p) <= 1.0
    ensures 2.0 * (x - n / p) * p <= 1.0 && 2.0 * (n / p - x) * p <= 1.0
  {
    assert (n / p) * p == n;
    assert 2.0 * (x - n / p) * p == 2.0 * (x * p - n);
    assert 2.0 * (n / p - x) * p == 2.0 * (n - x * p);
  }

  lemma {:induction false} Pow10Positive(k: nat)
    ensures Pow10(k) >= 1
  {
    if k > 0 {
      Pow10Positive(k - 1);
    }
  }

  /** Rounding zero gives zero. */
  lemma RoundZero(places: nat)
    ensures RoundTo(0.0, places) == 0.0
  {
    Pow10Positive(places);
  }

  /** `count_tokens`: the encoder's count when there is an encoder and it succeeds, else a quarter of the length. */
  function TokenCount(hasEncoder: bool, encoded: Option<nat>, text: string): (n: nat)
    ensures !hasEncoder || encoded.None? ==> 4 * n <= |text| < 4 * n + 4
  {
    if hasEncoder && encoded.Some? then encoded.value else |text| / 4
  }

  /** `int(x * 0.8)` for a natural `x`: truncation of four fifths. */
  function FourFifths(x: nat): (n: nat)
    ensures 5 * n <= 4 * x < 5 * n + 5
    ensures n <= x
  {
    (x as real * 0.8).Floor
  }

  /** `estimate_chunk_tokens`: template plus chunk in, four fifths of the chunk out. */
  function ChunkTokens(hasEncoder: bool, encode: string -> Option<nat>, chunkText: string, template: string): (t: Tokens)
    ensures t.output <= t.input
  {
    var chunkCount := TokenCount(hasEncoder, encode(chunkText), chunkText);
    Tokens(TokenCount(hasEncoder, encode(template), template) + chunkCount, FourFifths(chunkCount))
  }

  /** Without an encoder the estimate depends only on the lengths. */
  lemma ChunkTokensFallback(encode: string -> Option<nat>, chunkText: string, template: string)
    ensures var t := ChunkTokens(false, encode, chunkText, template);
      && t.input == |template| / 4 + |chunkText| / 4
      && 5 * t.output <= 4 * (|chunkText| / 4) < 5 * t.output + 5
  {
  }

  /** The per-chunk estimates of `full_text_for_llm`, summed. */
  function Totals(hasEncoder: bool, encode: string -> Option<nat>, chunks: seq<Chunk>, template: string): (t: Tokens) {
    if chunks == [] then Tokens(0, 0)
    else
      var init := Totals(hasEncoder, encode, chunks[..|chunks| - 1], template);
      var last := ChunkTokens(hasEncoder, encode, FullTextForLlm(chunks[|chunks| - 1]), template);
      Tokens(init.input + last.input, init.output + last.output)
  }

  /** Totals of a concatenation are the sums of the totals. */
  lemma {:induction false} TotalsAppend(hasEncoder: bool, encode: string -> Option<nat>, a: seq<Chunk>, b: seq<Chunk>, template: string)
    ensures var ta, tb, t := Totals(hasEncoder, encode, a, template), Totals(hasEncoder, encode, b, template), Totals(hasEncoder, encode, a + b, template);
      t.input == ta.input + tb.input && t.output == ta.output + tb.output
    decreases |b|
  {
    if b == [] {
      assert a + b == a;
    } else {
      TotalsAppend(hasEncoder, encode, a, b[..|b| - 1], template);
      assert (a + b)[..|a + b| - 1] == a + b[..|b| - 1];
    }
  }

  /** The estimated output never exceeds the input. */
  lemma {:induction false} TotalsOutputBounded(hasEncoder: bool, encode: string -> Option<nat>, chunks: seq<Chunk>, template: string)
    ensures Totals(hasEncoder, encode, chunks, template).output <= Totals(hasEncoder, encode, chunks, template).input
  {
    if chunks != [] {
      TotalsOutputBounded(hasEncoder, encode, chunks[..|chunks| - 1], template);
    }
  }

  /** Dollars for `tokens` at a price per thousand tokens. */
  function Cost(tokens: nat, perThousand: real): real {
    tokens as real / 1000.0 * perThousand
  }

  /** The breakdown from exact costs and seconds, rounded as `estimate_total` rounds them. */
  function Rounded(totals: Tokens, inputCost: real, outputCost: real, chunkCount: nat, seconds: nat): CostBreakdown {
    CostBreakdown(totals.input, totals.output,
                  RoundTo(inputCost, 4), RoundTo(outputCost, 4), RoundTo(inputCost + outputCost, 4),
                  chunkCount, RoundTo(seconds as real / 60.0, 1))
  }

  /** `estimate_total`'s result for the given totals: the model's prices and seconds per chunk. */
  function Breakdown(model: string, totals: Tokens, chunkCount: nat): CostBreakdown {
    var price := PriceFor(model);
    Rounded(totals, Cost(totals.input, price.input), Cost(totals.output, price.output),
            chunkCount, chunkCount * SecondsPerChunk(model))
  }

  /** `estimate_total`. */
  function Estimate(model: string, hasEncoder: bool, encode: string -> Option<nat>, chunks: seq<Chunk>, template: string): CostBreakdown {
    Breakdown(model, Totals(hasEncoder, encode, chunks, template), |chunks|)
  }

  /** Rounding to four places stays within half a ten-thousandth. */
  lemma RoundTo4(x: real)
    ensures 20000.0 * (RoundTo(x, 4) - x) <= 1.0 && 20000.0 * (x - RoundTo(x, 4)) <= 1.0
  {
    RoundToSpec(x, 4);
    assert Pow10(4) == 10000;
  }

  /** Rounding to one place stays within half a tenth. */
  lemma RoundTo1(x: real)
    ensures 20.0 * (RoundTo(x, 1) - x) <= 1.0 && 20.0 * (x - RoundTo(x, 1)) <= 1.0
  {
    RoundToSpec(x, 1);
    assert Pow10(1) == 10;
  }

  /**
   * The rounded breakdown reports the given totals and chunk count; each cost is within half a
   * ten-thousandth of a dollar of the exact one, and the minutes within half a tenth.
   */
  lemma RoundedSpec(totals: Tokens, inputCost: real, outputCost: real, chunkCount: nat, seconds: nat)
    ensures var b, minutes := Rounded(totals, inputCost, outputCost, chunkCount, seconds), seconds as real / 60.0;
      && b.inputTokens == totals.input && b.outputTokensEst == totals.output && b.chunks == chunkCount
      && 20000.0 * (b.inputCost - inputCost) <= 1.0 && 20000.0 * (inputCost - b.inputCost) <= 1.0
      && 20000.0 * (b.outputCost - outputCost) <= 1.0 && 20000.0 * (outputCost - b.outputCost) <= 1.0
      && 20000.0 * (b.totalCost - (inputCost + outputCost)) <= 1.0 && 20000.0 * (inputCost + outputCost - b.totalCost) <= 1.0
      && 20.0 * (b.processingTimeMinutes - minutes) <= 1.0 && 20.0 * (minutes - b.processingTimeMinutes) <= 1.0
  {
    RoundTo4(inputCost);
    RoundTo4(outputCost);
    RoundTo4(inputCost + outputCost);
    RoundTo1(seconds as real / 60.0);
  }

  /** An unknown model is priced at Sonnet's $0.003 and $0.015 per thousand tokens and timed at 5 s per chunk. */
  lemma UnknownModelBreakdown(model: string, totals: Tokens, chunkCount: nat)
    requires model != Sonnet && model != Haiku
    ensures Breakdown(model, totals, chunkCount) == Rounded(totals, Cost(totals.input, 0.003), Cost(totals.output, 0.015), chunkCount, chunkCount * 5)
  {
    UnknownModel(model);
  }

  /** The estimate is the breakdown of the summed per-chunk estimates, with output never above input. */
  lemma EstimateSpec(model: string, hasEncoder: bool, encode: string -> Option<nat>, chunks: seq<Chunk>, template: string)
    ensures var b, t := Estimate(model, hasEncoder, encode, chunks, template), Totals(hasEncoder, encode, chunks, template);
      && b.inputTokens == t.input && b.outputTokensEst == t.output && b.chunks == |chunks|
      && b.outputTokensEst <= b.inputTokens
  {
    TotalsOutputBounded(hasEncoder, encode, chunks, template);
  }

  /** No chunks: nothing to send, nothing to pay, no time. */
  lemma EmptyEstimate(model: string, hasEncoder: bool, encode: string -> Option<nat>, template: string)
    ensures Estimate(model, hasEncoder, encode, [], template) == CostBreakdown(0, 0, 0.0, 0.0, 0.0, 0, 0.0)
  {
    RoundZero(4);
    RoundZero(1);
  }

  /** `CostEstimator`: the model, whether tiktoken could be imported, and whether `_encoder` is loaded. */
  class CostEstimator {
    const model: string
    const hasTiktoken: bool
    var encoderLoaded: bool

    constructor(model: string, hasTiktoken: bool)
      ensures this.model == model && this.hasTiktoken == hasTiktoken && !encoderLoaded
    {
      this.model := model;
      this.hasTiktoken := hasTiktoken;
      encoderLoaded := false;
    }

    /** The `encoder` property: loads the encoder on first use when tiktoken is available. */
    method Encoder() returns (available: bool)
      modifies this
      ensures available == hasTiktoken
      ensures encoderLoaded == (old(encoderLoaded) || hasTiktoken)
    {
      if !hasTiktoken {
        return false;
      }
      if !encoderLoaded {
        encoderLoaded := true;
      }
      return true;
    }

    /** `count_tokens`. */
    method CountTokens(text: string, encode: string -> Option<nat>) returns (n: nat)
      modifies this
      ensures n == TokenCount(hasTiktoken, encode(text), text)
      ensures encoderLoaded == (old(encoderLoaded) || hasTiktoken)
    {
      var available := Encoder();
      if available {
        match encode(text)
        case Some(k) =>
          return k;
        case None =>
      }
      n := |text| / 4;
    }

    /** `estimate_chunk_tokens`. */
    method EstimateChunkTokens(chunkText: string, template: string, encode: string -> Option<nat>) returns (t: Tokens)
      modifies this
      ensures t == ChunkTokens(hasTiktoken, encode, chunkText, template)
      ensures encoderLoaded == (old(encoderLoaded) || hasTiktoken)
    {
      var templateCount := CountTokens(template, encode);
      var chunkCount := CountTokens(chunkText, encode);
      var again := CountTokens(chunkText, encode);
      t := Tokens(templateCount + chunkCount, FourFifths(again));
    }

    /** `estimate_total`: accumulates the per-chunk estimates, then prices them. */
    method EstimateTotal(chunks: seq<Chunk>, template: string, encode: string -> Option<nat>) returns (b: CostBreakdown)
      modifies this
      ensures b == Estimate(model, hasTiktoken, encode, chunks, template)
      ensures encoderLoaded == (old(encoderLoaded) || (hasTiktoken && chunks != []))
    {
      var totalInput: nat, totalOutput: nat := 0, 0;
      for k := 0 to |chunks|
        invariant Tokens(totalInput, totalOutput) == Totals(hasTiktoken, encode, chunks[..k], template)
        invariant encoderLoaded == (old(encoderLoaded) || (hasTiktoken && k > 0))
      {
        assert chunks[..k + 1][..k] == chunks[..k];
        var t := EstimateChunkTokens(FullTextForLlm(chunks[k]), template, encode);
        totalInput := totalInput + t.input;
        totalOutput := totalOutput + t.output;
      }
      assert chunks[..|chunks|] == chunks;
      b := Breakdown(model, Tokens(totalInput, totalOutput), |chunks|);
    }
  }
}
