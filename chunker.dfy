/**
 * The segmenter: splits a transcript into contiguous chunks, cutting at a paragraph break,
 * a sentence end or a timestamp marker near the target size, and gives every chunk after
 * the first a context tail taken from its predecessor.
 */
module Chunking {
  import opened Wrappers
  import opened Text

  const ContextMarker: string := "[CONTEXT FROM PREVIOUS SECTION]"
  const NewContentMarker: string := "[NEW CONTENT TO PROCESS]"
  const DefaultTimestamp: string := "00:00:00"

  /** One unit of work: its position in the sequence, its text, its first timestamp and its context tail. */
  datatype Chunk = Chunk(index: int, text: string, startTimestamp: string, contextBuffer: Option<string>)

  /** Python truthiness of the optional context: present and non-empty. */
  predicate HasContext(c: Chunk) {
    c.contextBuffer.Some? && c.contextBuffer.value != []
  }

  /** The lines joined into the text sent to the model: the context block (when there is context), then the new content. */
  function LlmTextLines(c: Chunk): seq<string> {
    if HasContext(c) then [ContextMarker, c.contextBuffer.value, "", NewContentMarker, c.text]
    else [NewContentMarker, c.text]
  }

  /** `full_text_for_llm`. */
  function FullTextForLlm(c: Chunk): string {
    Join("\n", LlmTextLines(c))
  }

  /** Without context the text is the new-content line; with context the marked context block comes first. */
  lemma FullTextForLlmSpec(c: Chunk)
    ensures HasContext(c) ==>
      FullTextForLlm(c) == ContextMarker + "\n" + c.contextBuffer.value + "\n\n" + NewContentMarker + "\n" + c.text
    ensures !HasContext(c) ==> FullTextForLlm(c) == NewContentMarker + "\n" + c.text
    ensures EndsWith(FullTextForLlm(c), c.text)
  {
    var tail := [NewContentMarker, c.text];
    var jt := NewContentMarker + "\n" + c.text;
    JoinCons("\n", tail);
    assert Join("\n", tail) == jt;
    if HasContext(c) {
      var ctx := c.contextBuffer.value;
      var parts := [ContextMarker, ctx, ""] + tail;
      assert LlmTextLines(c) == parts;
      assert parts[1..] == [ctx, ""] + tail && parts[1..][1..] == [""] + tail && parts[1..][1..][1..] == tail;
      JoinCons("\n", parts);
      JoinCons("\n", parts[1..]);
      JoinCons("\n", parts[1..][1..]);
      ContextRegroup(ContextMarker, ctx, NewContentMarker, c.text);
      EndsWithAppend(ContextMarker + "\n" + ctx + "\n\n" + NewContentMarker + "\n", c.text);
    } else {
      EndsWithAppend(NewContentMarker + "\n", c.text);
    }
  }

  /** `Join` over two or more parts puts the first, then the separator, then the join of the rest. */
  lemma JoinCons(sep: string, parts: seq<string>)
    requires |parts| >= 2
    ensures Join(sep, parts) == parts[0] + sep + Join(sep, parts[1..])
  {
  }

  /** The joined context block, regrouped. */
  lemma ContextRegroup(cm: string, ctx: string, ncm: string, t: string)
    ensures cm + "\n" + (ctx + "\n" + ("" + "\n" + (ncm + "\n" + t)))
         == cm + "\n" + ctx + "\n\n" + ncm + "\n" + t
  {
  }

  lemma EndsWithAppend(x: string, t: string)
    ensures EndsWith(x + t, t)
  {
    assert (x + t)[|x|..] == t;
  }

  function Min(a: int, b: int): int {
    if a <= b then a else b
  }

  function Max(a: int, b: int): int {
    if a >= b then a else b
  }

  // ---------------------------------------------------------------------------------------
  // The three patterns `_find_best_split` looks for.
  // ---------------------------------------------------------------------------------------

  /** A match of `\n\n` starts at `j`. */
  predicate ParagraphBreakAt(w: string, j: int) {
    0 <= j && j + 1 < |w| && w[j] == '\n' && w[j + 1] == '\n'
  }

  predicate IsSentencePunctuation(c: char) {
    c == '.' || c == '!' || c == '?'
  }

  /** A match of `[.!?][\s\n]` starts at `j`. */
  predicate SentenceEndAt(w: string, j: int) {
    0 <= j && j + 1 < |w| && IsSentencePunctuation(w[j]) && IsSpace(w[j + 1])
  }

  predicate IsMarkerChar(c: char) {
    IsDigit(c) || c == ':'
  }

  /** The first position at or after `k` that does not hold a digit or a colon. */
  function MarkerRunEnd(w: string, k: nat): (e: nat)
    requires k <= |w|
    ensures k <= e <= |w|
    decreases |w| - k
  {
    if k < |w| && IsMarkerChar(w[k]) then MarkerRunEnd(w, k + 1) else k
  }

  /** A match of `\[[\d:]+\]` starts at `j`: '[' then one or more digits or colons, then ']'. */
  predicate MarkerAt(w: string, j: int) {
    0 <= j < |w| && w[j] == '['
    && var e := MarkerRunEnd(w, j + 1); j + 1 < e < |w| && w[e] == ']'
  }

  /**
   * End of the last match of `\n\n` in `w[i..]` when matches are taken left to right
   * without overlap, as `re.finditer` does (in "\n\n\n" the only match ends at 2).
   */
  function LastParagraphEnd(w: string, i: nat): (r: Option<nat>)
    requires i <= |w|
    ensures r.Some? ==> i + 2 <= r.value <= |w|
    decreases |w| - i
  {
    if i + 2 > |w| then None
    else if w[i] == '\n' && w[i + 1] == '\n' then
      match LastParagraphEnd(w, i + 2)
      case Some(e) => Some(e)
      case None => Some(i + 2)
    else LastParagraphEnd(w, i + 1)
  }

  /** `LastParagraphEnd` finds the end of the last break, and finds none exactly when there is none. */
  lemma {:induction false} LastParagraphEndSpec(w: string, i: nat)
    requires i <= |w|
    ensures var r := LastParagraphEnd(w, i);
      && (r.Some? ==> ParagraphBreakAt(w, r.value - 2) && forall j :: r.value <= j ==> !ParagraphBreakAt(w, j))
      && (r.None? <==> forall j :: i <= j ==> !ParagraphBreakAt(w, j))
    decreases |w| - i
  {
    if i + 2 <= |w| {
      if w[i] == '\n' && w[i + 1] == '\n' {
        LastParagraphEndSpec(w, i + 2);
        assert ParagraphBreakAt(w, i);
      } else {
        LastParagraphEndSpec(w, i + 1);
      }
    }
  }

  /**
   * The starts of the `\n\n` matches `re.finditer` reports in `w[i..]`: scanning left to right,
   * a match at `j` resumes the scan at `j + 2`.
   */
  function ParagraphMatches(w: string, i: nat): seq<nat>
    requires i <= |w|
    decreases |w| - i
  {
    if i + 2 > |w| then []
    else if ParagraphBreakAt(w, i) then [i] + ParagraphMatches(w, i + 2)
    else ParagraphMatches(w, i + 1)
  }

  /**
   * The reported matches are breaks at or after `i`, at least two apart (they do not overlap),
   * and every break is a match or overlaps the match just before it: the greedy non-overlapping
   * matching.
   */
  lemma {:induction false} ParagraphMatchesSpec(w: string, i: nat)
    requires i <= |w|
    ensures forall k :: 0 <= k < |ParagraphMatches(w, i)| ==>
      i <= ParagraphMatches(w, i)[k] && ParagraphBreakAt(w, ParagraphMatches(w, i)[k])
    ensures forall k :: 0 <= k < |ParagraphMatches(w, i)| - 1 ==>
      ParagraphMatches(w, i)[k] + 2 <= ParagraphMatches(w, i)[k + 1]
    ensures forall j :: i <= j && ParagraphBreakAt(w, j) ==>
      j in ParagraphMatches(w, i) || j - 1 in ParagraphMatches(w, i)
    decreases |w| - i
  {
    var ms := ParagraphMatches(w, i);
    if i + 2 <= |w| {
      if ParagraphBreakAt(w, i) {
        ParagraphMatchesSpec(w, i + 2);
        var rest := ParagraphMatches(w, i + 2);
        assert ms == [i] + rest;
        forall k | 1 <= k < |ms|
          ensures ms[k] == rest[k - 1]
        {
        }
        forall j | i <= j && ParagraphBreakAt(w, j)
          ensures j in ms || j - 1 in ms
        {
          if j >= i + 2 {
            assert j in rest || j - 1 in rest;
          }
        }
      } else {
        ParagraphMatchesSpec(w, i + 1);
        assert ms == ParagraphMatches(w, i + 1);
      }
    } else {
      forall j | i <= j && ParagraphBreakAt(w, j)
        ensures false
      {
      }
    }
  }

  /** `LastParagraphEnd` is the end of the last match `re.finditer` reports, and none without one. */
  lemma {:induction false} LastParagraphEndIsLastMatch(w: string, i: nat)
    requires i <= |w|
    ensures var ms := ParagraphMatches(w, i);
      LastParagraphEnd(w, i) == if ms == [] then None else Some(ms[|ms| - 1] + 2)
    decreases |w| - i
  {
    if i + 2 <= |w| {
      if ParagraphBreakAt(w, i) {
        LastParagraphEndIsLastMatch(w, i + 2);
        var rest := ParagraphMatches(w, i + 2);
        var later := LastParagraphEnd(w, i + 2);
        assert ParagraphMatches(w, i) == [i] + rest;
        assert LastParagraphEnd(w, i) == if later.Some? then later else Some(i + 2);
        if rest != [] {
          assert ([i] + rest)[|rest|] == rest[|rest| - 1];
        }
      } else {
        LastParagraphEndIsLastMatch(w, i + 1);
        assert ParagraphMatches(w, i) == ParagraphMatches(w, i + 1);
        assert LastParagraphEnd(w, i) == LastParagraphEnd(w, i + 1);
      }
    }
  }

  /**
   * End of the last sentence-end match starting before `n`. Two such matches never
   * overlap (the second character is whitespace, never punctuation), so `re.finditer`
   * reports every occurrence and the last one is the last occurrence.
   */
  function LastSentenceEnd(w: string, n: nat): (r: Option<nat>)
    requires n <= |w|
    ensures r.Some? ==> 2 <= r.value <= |w|
  {
    if n == 0 then None
    else if SentenceEndAt(w, n - 1) then Some(n + 1)
    else LastSentenceEnd(w, n - 1)
  }

  /** `LastSentenceEnd` finds the end of the last sentence end before `n`, and none exactly when there is none. */
  lemma {:induction false} LastSentenceEndSpec(w: string, n: nat)
    requires n <= |w|
    ensures var r := LastSentenceEnd(w, n);
      && (r.Some? ==> SentenceEndAt(w, r.value - 2) && forall j :: r.value - 2 < j < n ==> !SentenceEndAt(w, j))
      && (r.None? <==> forall j :: j < n ==> !SentenceEndAt(w, j))
  {
    if n > 0 && !SentenceEndAt(w, n - 1) {
      LastSentenceEndSpec(w, n - 1);
    }
  }

  /**
   * Start of the last timestamp-marker match starting before `n`. A marker's inside holds
   * no '[', so matches never overlap and the last match is the last occurrence.
   */
  function LastMarkerStart(w: string, n: nat): (r: Option<nat>)
    requires n <= |w|
    ensures r.Some? ==> r.value < n
  {
    if n == 0 then None
    else if MarkerAt(w, n - 1) then Some(n - 1)
    else LastMarkerStart(w, n - 1)
  }

  /** `LastMarkerStart` finds the start of the last marker before `n`, and none exactly when there is none. */
  lemma {:induction false} LastMarkerStartSpec(w: string, n: nat)
    requires n <= |w|
    ensures var r := LastMarkerStart(w, n);
      && (r.Some? ==> MarkerAt(w, r.value) && forall j :: r.value < j < n ==> !MarkerAt(w, j))
      && (r.None? <==> forall j :: j < n ==> !MarkerAt(w, j))
  {
    if n > 0 && !MarkerAt(w, n - 1) {
      LastMarkerStartSpec(w, n - 1);
    }
  }

  /** Where `_find_best_split` searches: `text[max(start, targetEnd - 100):targetEnd + 50]`. */
  function WindowStart(start: nat, targetEnd: nat): nat {
    Max(start, targetEnd - 100)
  }

  function Window(text: string, start: nat, targetEnd: nat): (w: string)
    requires start <= targetEnd <= |text|
    ensures |w| == Min(targetEnd + 50, |text|) - WindowStart(start, targetEnd)
  {
    text[WindowStart(start, targetEnd)..Min(targetEnd + 50, |text|)]
  }

  /** The split point near `targetEnd`: paragraph break, else sentence end, else marker, else `targetEnd`. */
  function FindBestSplit(text: string, start: nat, targetEnd: nat): (p: nat)
    requires start <= targetEnd <= |text|
    ensures start <= p <= |text|
    ensures targetEnd > start + 100 ==> p > start
  {
    var searchStart := WindowStart(start, targetEnd);
    var w := Window(text, start, targetEnd);
    match LastParagraphEnd(w, 0)
    case Some(e) => searchStart + e
    case None =>
      match LastSentenceEnd(w, |w|)
      case Some(e) => searchStart + e
      case None =>
        match LastMarkerStart(w, |w|)
        case Some(m) => searchStart + m
        case None => targetEnd
  }

  /** The preference order of `FindBestSplit`, stated on the search window. */
  lemma SplitPreference(text: string, start: nat, targetEnd: nat)
    requires start <= targetEnd <= |text|
    ensures var p, w, ws := FindBestSplit(text, start, targetEnd), Window(text, start, targetEnd),
                           WindowStart(start, targetEnd);
      && ((exists j :: ParagraphBreakAt(w, j)) ==>
            ws + 2 <= p && ParagraphBreakAt(w, p - ws - 2)
            && forall j :: p - ws <= j ==> !ParagraphBreakAt(w, j))
      && ((forall j :: !ParagraphBreakAt(w, j)) && (exists j :: SentenceEndAt(w, j)) ==>
            ws + 2 <= p && SentenceEndAt(w, p - ws - 2)
            && forall j :: p - ws - 2 < j ==> !SentenceEndAt(w, j))
      && ((forall j :: !ParagraphBreakAt(w, j)) && (forall j :: !SentenceEndAt(w, j))
          && (exists j :: MarkerAt(w, j)) ==>
            ws <= p && MarkerAt(w, p - ws) && forall j :: p - ws < j ==> !MarkerAt(w, j))
      && ((forall j :: !ParagraphBreakAt(w, j)) && (forall j :: !SentenceEndAt(w, j))
          && (forall j :: !MarkerAt(w, j))
          ==> p == targetEnd)
  {
    var w := Window(text, start, targetEnd);
    LastParagraphEndSpec(w, 0);
    LastSentenceEndSpec(w, |w|);
    LastMarkerStartSpec(w, |w|);
    assert forall j :: SentenceEndAt(w, j) ==> j < |w|;
    assert forall j :: MarkerAt(w, j) ==> j < |w|;
  }

  // ---------------------------------------------------------------------------------------
  // The context tail and the first timestamp.
  // ---------------------------------------------------------------------------------------

  /** Python's `s[-k:]` for `k >= 0` (note that `s[-0:]` is the whole of `s`). */
  function PyTail(s: string, k: nat): (r: string)
    ensures EndsWith(s, r)
    ensures k > 0 ==> |r| == Min(k, |s|)
    ensures k == 0 ==> r == s
  {
    if k == 0 || k >= |s| then s else s[|s| - k..]
  }

  /** The end of the whitespace run that starts at `k`. */
  function SpaceRunEnd(t: string, k: nat): (e: nat)
    requires k <= |t|
    ensures k <= e <= |t|
    ensures e < |t| ==> !IsSpace(t[e])
    decreases |t| - k
  {
    if k < |t| && IsSpace(t[k]) then SpaceRunEnd(t, k + 1) else k
  }

  /** End of the first match of `[.!?]\s+` in `t[j..]` (`re.search`, greedy whitespace run). */
  function FirstSentenceBreakEnd(t: string, j: nat): (r: Option<nat>)
    requires j <= |t|
    ensures r.Some? ==> j + 2 <= r.value <= |t|
    decreases |t| - j
  {
    if j + 1 >= |t| then None
    else if SentenceEndAt(t, j) then Some(SpaceRunEnd(t, j + 1))
    else FirstSentenceBreakEnd(t, j + 1)
  }

  /**
   * `FirstSentenceBreakEnd` finds a break exactly when a sentence end occurs at or after `j`;
   * the break then ends the whitespace run after the first such sentence end.
   */
  lemma {:induction false} FirstSentenceBreakEndSpec(t: string, j: nat)
    requires j <= |t|
    ensures var r := FirstSentenceBreakEnd(t, j);
      && (r.None? <==> forall i :: j <= i ==> !SentenceEndAt(t, i))
      && (r.Some? ==> exists i: nat :: FirstSentenceEnd(t, j, i) && r.value == SpaceRunEnd(t, i + 1))
    decreases |t| - j
  {
    if j + 1 < |t| {
      if SentenceEndAt(t, j) {
        assert FirstSentenceEnd(t, j, j);
      } else {
        FirstSentenceBreakEndSpec(t, j + 1);
        var r := FirstSentenceBreakEnd(t, j + 1);
        if r.Some? {
          var i: nat :| FirstSentenceEnd(t, j + 1, i) && r.value == SpaceRunEnd(t, i + 1);
          assert FirstSentenceEnd(t, j, i);
        }
      }
    }
  }

  /** `i` is the first position at or after `j` where a sentence end starts. */
  ghost predicate FirstSentenceEnd(t: string, j: nat, i: nat) {
    j <= i && SentenceEndAt(t, i) && forall k :: j <= k < i ==> !SentenceEndAt(t, k)
  }

  /** `_get_context_buffer`: the tail of the previous chunk's text given to the next chunk. */
  function ContextBuffer(previous: string, overlap: nat): string {
    if |previous| <= overlap then previous
    else
      var t := PyTail(previous, overlap + 50);
      match FirstSentenceBreakEnd(t, 0)
      case Some(e) => Strip(t[e..])
      case None => Strip(PyTail(previous, overlap))
  }

  /** The strip of a suffix of a string that does not end in whitespace is a suffix of it. */
  lemma StripOfSuffix(s: string, k: nat)
    requires k <= |s|
    requires |s| == 0 || !IsSpace(s[|s| - 1])
    ensures EndsWith(s, Strip(s[k..]))
  {
    var x := s[k..];
    if |x| > 0 {
      assert x[|x| - 1] == s[|s| - 1];
      StripNoTrailing(x);
      assert x[LeadingSpaces(x)..] == s[k + LeadingSpaces(x)..];
    }
  }

  lemma EndsWithTransitive(a: string, b: string, c: string)
    requires EndsWith(a, b) && EndsWith(b, c)
    ensures EndsWith(a, c)
  {
    assert a[|a| - |c|..] == a[|a| - |b|..][|b| - |c|..];
  }

  /** The context of a chunk is a suffix of the previous chunk's text, and all of it when short. */
  lemma ContextIsSuffix(previous: string, overlap: nat)
    requires |previous| == 0 || !IsSpace(previous[|previous| - 1])
    ensures EndsWith(previous, ContextBuffer(previous, overlap))
    ensures |previous| <= overlap ==> ContextBuffer(previous, overlap) == previous
  {
    if |previous| > overlap {
      var t := PyTail(previous, overlap + 50);
      var u := PyTail(previous, overlap);
      assert t[|t| - 1] == previous[|previous| - 1];
      assert u[|u| - 1] == previous[|previous| - 1];
      var r := ContextBuffer(previous, overlap);
      match FirstSentenceBreakEnd(t, 0)
      case Some(e) =>
        StripOfSuffix(t, e);
        EndsWithTransitive(previous, t, r);
      case None =>
        StripOfSuffix(u, 0);
        assert u[0..] == u;
        EndsWithTransitive(previous, u, r);
    }
  }

  /** With a positive overlap the context is at most `overlap + 50` characters long. */
  lemma ContextLength(previous: string, overlap: nat)
    requires overlap >= 1
    ensures |ContextBuffer(previous, overlap)| <= overlap + 50
  {
  }

  /**
   * With overlap 0 and no sentence end in the last 50 characters, `previous[-0:]` makes the
   * context the whole (stripped) previous text, however long it is.
   */
  lemma ZeroOverlapTakesWholeText(previous: string)
    requires |previous| > 0
    requires forall j :: !SentenceEndAt(PyTail(previous, 50), j)
    ensures ContextBuffer(previous, 0) == Strip(previous)
  {
    FirstSentenceBreakEndSpec(PyTail(previous, 50), 0);
  }

  /** A `[dd:dd:dd]` marker starts at `i`. */
  predicate TimestampAt(s: string, i: int) {
    0 <= i && i + 10 <= |s| && s[i] == '['
    && IsDigit(s[i + 1]) && IsDigit(s[i + 2]) && s[i + 3] == ':'
    && IsDigit(s[i + 4]) && IsDigit(s[i + 5]) && s[i + 6] == ':'
    && IsDigit(s[i + 7]) && IsDigit(s[i + 8]) && s[i + 9] == ']'
  }

  /** Position of the first `[dd:dd:dd]` marker at or after `i` (`re.search`). */
  function FirstTimestampAt(s: string, i: nat): (r: Option<nat>)
    ensures r.Some? ==> i <= r.value && r.value + 10 <= |s|
    decreases |s| - i
  {
    if i + 10 > |s| then None
    else if TimestampAt(s, i) then Some(i)
    else FirstTimestampAt(s, i + 1)
  }

  /** `FirstTimestampAt` finds the first marker at or after `i`, and none exactly when there is none. */
  lemma {:induction false} FirstTimestampAtSpec(s: string, i: nat)
    ensures var r := FirstTimestampAt(s, i);
      && (r.Some? ==> TimestampAt(s, r.value) && forall j :: i <= j < r.value ==> !TimestampAt(s, j))
      && (r.None? <==> forall j :: i <= j ==> !TimestampAt(s, j))
    decreases |s| - i
  {
    if i + 10 <= |s| && !TimestampAt(s, i) {
      FirstTimestampAtSpec(s, i + 1);
    }
  }

  /** `_extract_first_timestamp` together with the `or "00:00:00"` default of its caller. */
  function StartTimestamp(s: string): (ts: string)
    ensures |ts| == 8
  {
    match FirstTimestampAt(s, 0)
    case Some(j) => s[j + 1..j + 9]
    case None => DefaultTimestamp
  }

  /** The start timestamp is the inside of the first `[dd:dd:dd]` marker. */
  lemma StartTimestampIsFirstMarker(s: string, j: nat)
    requires TimestampAt(s, j)
    requires forall i :: 0 <= i < j ==> !TimestampAt(s, i)
    ensures StartTimestamp(s) == s[j + 1..j + 9]
    ensures IsDigit(StartTimestamp(s)[0]) && StartTimestamp(s)[2] == ':' && StartTimestamp(s)[5] == ':'
  {
    FirstTimestampAtSpec(s, 0);
  }

  /** Without a marker the start timestamp is the default. */
  lemma StartTimestampDefault(s: string)
    requires forall j :: !TimestampAt(s, j)
    ensures StartTimestamp(s) == DefaultTimestamp
  {
    FirstTimestampAtSpec(s, 0);
  }

  // ---------------------------------------------------------------------------------------
  // The chunking loop.
  // ---------------------------------------------------------------------------------------

  /**
   * The result of `chunk_transcript`. `NoProgress(position)` stands for the run the source
   * never finishes: at `position` the split point equals `position`, the slice is empty and
   * the loop repeats forever.
   */
  datatype ChunkingOutcome = Chunked(chunks: seq<Chunk>) | NoProgress(position: nat)

  /** Where the slice that starts at `pos` ends (the first three lines of the loop body). */
  function NextCut(text: string, pos: nat, chunkSize: nat): (p: nat)
    requires pos < |text| && chunkSize > 0
    ensures pos <= p <= |text|
    ensures chunkSize > 100 ==> p > pos
  {
    var endPos := Min(pos + chunkSize, |text|);
    if endPos < |text| then FindBestSplit(text, pos, endPos) else endPos
  }

  /** `cuts` strictly increase and stay inside `text`. */
  ghost predicate IncreasingCuts(text: string, cuts: seq<nat>)
    decreases |cuts|
  {
    |cuts| > 0 ==>
      && cuts[0] <= |text|
      && (|cuts| >= 2 ==> cuts[0] < cuts[1] <= |text| && IncreasingCuts(text, cuts[1..]))
  }

  /** The stripped, non-blank slices of `text` between consecutive cuts, in order. */
  ghost function Pieces(text: string, cuts: seq<nat>): seq<string>
    requires IncreasingCuts(text, cuts)
    decreases |cuts|
  {
    if |cuts| < 2 then []
    else
      var piece := Strip(text[cuts[0]..cuts[1]]);
      (if piece == [] then [] else [piece]) + Pieces(text, cuts[1..])
  }

  /** The chunk the loop body builds; it gets a context only after a non-empty previous text. */
  function BuildChunk(index: nat, text: string, previousText: string, overlap: nat): Chunk {
    var contextBuffer := if previousText != [] && index > 0 then Some(ContextBuffer(previousText, overlap)) else None;
    Chunk(index, text, StartTimestamp(text), contextBuffer)
  }

  /**
   * The chunks the loop builds from `texts`, numbered from `index`, when the text of the
   * chunk before them was `previousText`.
   */
  function BuildFrom(index: nat, previousText: string, texts: seq<string>, overlap: nat): (chunks: seq<Chunk>)
    ensures |chunks| == |texts|
    decreases |texts|
  {
    if texts == [] then []
    else [BuildChunk(index, texts[0], previousText, overlap)] + BuildFrom(index + 1, texts[0], texts[1..], overlap)
  }

  lemma BuildFromCons(index: nat, previousText: string, t: string, texts: seq<string>, overlap: nat)
    ensures BuildFrom(index, previousText, [t] + texts, overlap)
         == [BuildChunk(index, t, previousText, overlap)] + BuildFrom(index + 1, t, texts, overlap)
  {
    assert ([t] + texts)[1..] == texts;
  }

  lemma AppendAssociative<T>(a: seq<T>, b: seq<T>, c: seq<T>)
    ensures (a + b) + c == a + (b + c)
  {
  }

  /** The chunks the loop builds from the texts of the non-blank slices, in order. */
  function BuildAll(texts: seq<string>, overlap: nat): seq<Chunk> {
    BuildFrom(0, "", texts, overlap)
  }

  /** The k-th chunk is built from the k-th text and the text before it. */
  lemma {:induction false} BuildFromAt(index: nat, previousText: string, texts: seq<string>, overlap: nat, k: nat)
    requires k < |texts|
    ensures BuildFrom(index, previousText, texts, overlap)[k]
         == BuildChunk(index + k, texts[k], if k == 0 then previousText else texts[k - 1], overlap)
    decreases |texts|
  {
    var first := BuildChunk(index, texts[0], previousText, overlap);
    var rest := texts[1..];
    var later := BuildFrom(index + 1, texts[0], rest, overlap);
    assert BuildFrom(index, previousText, texts, overlap) == [first] + later;
    if k > 0 {
      BuildFromAt(index + 1, texts[0], rest, overlap, k - 1);
      assert ([first] + later)[k] == later[k - 1];
      assert rest[k - 1] == texts[k];
      assert (if k - 1 == 0 then texts[0] else rest[k - 2]) == texts[k - 1];
    }
  }

  /** Every piece is non-blank and already stripped. */
  ghost predicate AllStripped(texts: seq<string>) {
    forall k :: 0 <= k < |texts| ==> texts[k] != [] && Strip(texts[k]) == texts[k]
  }

  /**
   * The k-th chunk: its timestamp is the first marker of its text, and its context (absent
   * only for the first chunk) is a suffix of the previous text, at most `overlap + 50` long
   * when the overlap is positive.
   */
  lemma ChunkContexts(texts: seq<string>, overlap: nat, k: nat)
    requires AllStripped(texts) && k < |texts|
    ensures BuildAll(texts, overlap)[k].startTimestamp == StartTimestamp(texts[k])
    ensures k == 0 <==> BuildAll(texts, overlap)[k].contextBuffer.None?
    ensures k > 0 ==>
              && BuildAll(texts, overlap)[k].contextBuffer == Some(ContextBuffer(texts[k - 1], overlap))
              && EndsWith(texts[k - 1], ContextBuffer(texts[k - 1], overlap))
              && (overlap >= 1 ==> |ContextBuffer(texts[k - 1], overlap)| <= overlap + 50)
  {
    BuildFromAt(0, "", texts, overlap, k);
    if k > 0 {
      var prev := texts[k - 1];
      assert prev != [] && Strip(prev) == prev;
      StrippedEnds(prev);
      ContextIsSuffix(prev, overlap);
      if overlap >= 1 {
        ContextLength(prev, overlap);
      }
    }
  }

  /**
   * The outcome of the chunking loop entered at position `pos`, with `chunks` built so far and
   * `previousText` the text of the last one (or empty): one iteration per call.
   */
  function ChunkFrom(text: string, chunkSize: nat, overlap: nat, pos: nat, chunks: seq<Chunk>, previousText: string): ChunkingOutcome
    requires chunkSize > 0 && pos <= |text|
    decreases |text| - pos
  {
    if pos == |text| then Chunked(chunks)
    else
      var e := NextCut(text, pos, chunkSize);
      if e == pos then NoProgress(pos)
      else
        var piece := Strip(text[pos..e]);
        if piece == [] then ChunkFrom(text, chunkSize, overlap, e, chunks, previousText)
        else ChunkFrom(text, chunkSize, overlap, e, chunks + [BuildChunk(|chunks|, piece, previousText, overlap)], piece)
  }

  /** The positions the loop moves to after `pos`, up to the end of the text or the position where it stalls. */
  ghost function CutsFrom(text: string, chunkSize: nat, pos: nat): seq<nat>
    requires chunkSize > 0 && pos <= |text|
    decreases |text| - pos
  {
    if pos == |text| then []
    else
      var e := NextCut(text, pos, chunkSize);
      if e == pos then [] else [e] + CutsFrom(text, chunkSize, e)
  }

  /** The stripped non-blank slices the loop cuts after `pos`, in order. */
  ghost function PiecesFrom(text: string, chunkSize: nat, pos: nat): seq<string>
    requires chunkSize > 0 && pos <= |text|
    decreases |text| - pos
  {
    if pos == |text| then []
    else
      var e := NextCut(text, pos, chunkSize);
      if e == pos then []
      else
        var piece := Strip(text[pos..e]);
        (if piece == [] then [] else [piece]) + PiecesFrom(text, chunkSize, e)
  }

  /**
   * The positions the loop visits from `pos` on strictly increase inside the text, and the
   * stripped non-blank slices between them are the pieces it cuts.
   */
  lemma {:induction false} CutsFromPieces(text: string, chunkSize: nat, pos: nat)
    requires chunkSize > 0 && pos <= |text|
    ensures var all := [pos] + CutsFrom(text, chunkSize, pos);
      IncreasingCuts(text, all) && Pieces(text, all) == PiecesFrom(text, chunkSize, pos)
    decreases |text| - pos
  {
    var all := [pos] + CutsFrom(text, chunkSize, pos);
    if pos == |text| || NextCut(text, pos, chunkSize) == pos {
      assert all == [pos];
    } else {
      var e := NextCut(text, pos, chunkSize);
      var rest := [e] + CutsFrom(text, chunkSize, e);
      CutsFromPieces(text, chunkSize, e);
      assert all == [pos] + rest && all[1..] == rest;
    }
  }

  /** Every piece the loop cuts from `pos` on is non-blank and already stripped. */
  lemma {:induction false} PiecesFromStripped(text: string, chunkSize: nat, pos: nat)
    requires chunkSize > 0 && pos <= |text|
    ensures AllStripped(PiecesFrom(text, chunkSize, pos))
    decreases |text| - pos
  {
    if pos < |text| && NextCut(text, pos, chunkSize) != pos {
      var e := NextCut(text, pos, chunkSize);
      PiecesFromStripped(text, chunkSize, e);
      var piece := Strip(text[pos..e]);
      if piece != [] {
        StripIdempotent(text[pos..e]);
      }
    }
  }

  /** Where the loop stops: at the end of the text, or at a position whose split point does not move. */
  lemma {:induction false} ChunkFromStops(text: string, chunkSize: nat, overlap: nat, pos: nat, chunks: seq<Chunk>, previousText: string)
    requires chunkSize > 0 && pos <= |text|
    ensures var r, all := ChunkFrom(text, chunkSize, overlap, pos, chunks, previousText), [pos] + CutsFrom(text, chunkSize, pos);
      && (r.Chunked? ==> all[|all| - 1] == |text|)
      && (r.NoProgress? ==> r.position == all[|all| - 1] < |text| && NextCut(text, r.position, chunkSize) == r.position)
    decreases |text| - pos
  {
    if pos < |text| {
      var e := NextCut(text, pos, chunkSize);
      if e != pos {
        var piece := Strip(text[pos..e]);
        var chunks' := if piece == [] then chunks else chunks + [BuildChunk(|chunks|, piece, previousText, overlap)];
        var previous' := if piece == [] then previousText else piece;
        assert ChunkFrom(text, chunkSize, overlap, pos, chunks, previousText)
            == ChunkFrom(text, chunkSize, overlap, e, chunks', previous');
        ChunkFromStops(text, chunkSize, overlap, e, chunks', previous');
        var rest := [e] + CutsFrom(text, chunkSize, e);
        assert [pos] + CutsFrom(text, chunkSize, pos) == [pos] + rest;
        assert ([pos] + rest)[|rest|] == rest[|rest| - 1];
      }
    }
  }

  /** When the loop finishes, it has appended the chunks built from the pieces it cuts after `pos`. */
  lemma {:induction false} ChunkFromBuilds(text: string, chunkSize: nat, overlap: nat, pos: nat, chunks: seq<Chunk>, previousText: string)
    requires chunkSize > 0 && pos <= |text|
    ensures var r := ChunkFrom(text, chunkSize, overlap, pos, chunks, previousText);
      r.Chunked? ==> r.chunks == chunks + BuildFrom(|chunks|, previousText, PiecesFrom(text, chunkSize, pos), overlap)
    decreases |text| - pos, 1
  {
    if pos == |text| {
      assert chunks + [] == chunks;
    } else if NextCut(text, pos, chunkSize) != pos {
      var e := NextCut(text, pos, chunkSize);
      if Strip(text[pos..e]) == [] {
        SkipBuilds(text, chunkSize, overlap, pos, chunks, previousText);
      } else {
        AppendBuilds(text, chunkSize, overlap, pos, chunks, previousText);
      }
    }
  }

  /** The step of `ChunkFromBuilds` over a blank slice. */
  lemma {:induction false} SkipBuilds(text: string, chunkSize: nat, overlap: nat, pos: nat, chunks: seq<Chunk>, previousText: string)
    requires chunkSize > 0 && pos < |text|
    requires NextCut(text, pos, chunkSize) != pos && Strip(text[pos..NextCut(text, pos, chunkSize)]) == []
    ensures var r := ChunkFrom(text, chunkSize, overlap, pos, chunks, previousText);
      r.Chunked? ==> r.chunks == chunks + BuildFrom(|chunks|, previousText, PiecesFrom(text, chunkSize, pos), overlap)
    decreases |text| - pos, 0
  {
    var e := NextCut(text, pos, chunkSize);
    ChunkFromBuilds(text, chunkSize, overlap, e, chunks, previousText);
    assert PiecesFrom(text, chunkSize, pos) == [] + PiecesFrom(text, chunkSize, e) == PiecesFrom(text, chunkSize, e);
  }

  /** The step of `ChunkFromBuilds` over a slice with content. */
  lemma {:induction false} AppendBuilds(text: string, chunkSize: nat, overlap: nat, pos: nat, chunks: seq<Chunk>, previousText: string)
    requires chunkSize > 0 && pos < |text|
    requires NextCut(text, pos, chunkSize) != pos && Strip(text[pos..NextCut(text, pos, chunkSize)]) != []
    ensures var r := ChunkFrom(text, chunkSize, overlap, pos, chunks, previousText);
      r.Chunked? ==> r.chunks == chunks + BuildFrom(|chunks|, previousText, PiecesFrom(text, chunkSize, pos), overlap)
    decreases |text| - pos, 0
  {
    var e := NextCut(text, pos, chunkSize);
    var piece := Strip(text[pos..e]);
    var c := BuildChunk(|chunks|, piece, previousText, overlap);
    var rest := PiecesFrom(text, chunkSize, e);
    assert ChunkFrom(text, chunkSize, overlap, pos, chunks, previousText)
        == ChunkFrom(text, chunkSize, overlap, e, chunks + [c], piece);
    assert PiecesFrom(text, chunkSize, pos) == [piece] + rest;
    ChunkFromBuilds(text, chunkSize, overlap, e, chunks + [c], piece);
    var later := BuildFrom(|chunks| + 1, piece, rest, overlap);
    BuildFromCons(|chunks|, previousText, piece, rest, overlap);
    AppendAssociative(chunks, [c], later);
  }

  /** With a chunk size above 100 the loop always reaches the end of the text. */
  lemma {:induction false} ChunkFromTerminates(text: string, chunkSize: nat, overlap: nat, pos: nat, chunks: seq<Chunk>, previousText: string)
    requires 100 < chunkSize && pos <= |text|
    ensures ChunkFrom(text, chunkSize, overlap, pos, chunks, previousText).Chunked?
    decreases |text| - pos
  {
    if pos < |text| {
      var e := NextCut(text, pos, chunkSize);
      var piece := Strip(text[pos..e]);
      if piece == [] {
        ChunkFromTerminates(text, chunkSize, overlap, e, chunks, previousText);
      } else {
        ChunkFromTerminates(text, chunkSize, overlap, e, chunks + [BuildChunk(|chunks|, piece, previousText, overlap)], piece);
      }
    }
  }

  /** `SmartChunker.chunk_transcript`. */
  method ChunkTranscript(text: string, chunkSize: nat, overlap: nat) returns (r: ChunkingOutcome)
    requires chunkSize > 0
    ensures r == ChunkFrom(text, chunkSize, overlap, 0, [], "")
  {
    var chunks: seq<Chunk> := [];
    var currentPos: nat := 0;
    var chunkIndex := 0;
    var previousChunkText := "";
    while currentPos < |text|
      invariant currentPos <= |text| && chunkIndex == |chunks|
      invariant ChunkFrom(text, chunkSize, overlap, currentPos, chunks, previousChunkText)
             == ChunkFrom(text, chunkSize, overlap, 0, [], "")
      decreases |text| - currentPos
    {
      var endPos := Min(currentPos + chunkSize, |text|);
      if endPos < |text| {
        endPos := FindBestSplit(text, currentPos, endPos);
      }
      assert endPos == NextCut(text, currentPos, chunkSize);
      if endPos == currentPos {
        // the source spins here forever: the slice is empty and the position never moves
        r := NoProgress(currentPos);
        return;
      }
      var chunkText := Strip(text[currentPos..endPos]);
      if chunkText != [] {
        chunks := chunks + [BuildChunk(chunkIndex, chunkText, previousChunkText, overlap)];
        previousChunkText := chunkText;
        chunkIndex := chunkIndex + 1;
      }
      currentPos := endPos;
    }
    r := Chunked(chunks);
  }

  /**
   * What `chunk_transcript` delivers: the positions it visits start at 0 and strictly
   * increase; when it finishes they end at the end of the text and its chunks are built, in
   * order, from the stripped non-blank slices between consecutive positions; it stalls only
   * at a position whose split point does not move, which a chunk size above 100 rules out.
   */
  lemma ChunkTranscriptDelivers(text: string, chunkSize: nat, overlap: nat)
    requires chunkSize > 0
    ensures var r, cuts := ChunkFrom(text, chunkSize, overlap, 0, [], ""), [0] + CutsFrom(text, chunkSize, 0);
      && IncreasingCuts(text, cuts)
      && (r.Chunked? ==>
            && cuts[|cuts| - 1] == |text|
            && r.chunks == BuildAll(Pieces(text, cuts), overlap)
            && AllStripped(Pieces(text, cuts)))
      && (r.NoProgress? ==> r.position == cuts[|cuts| - 1] < |text| && NextCut(text, r.position, chunkSize) == r.position)
      && (chunkSize > 100 ==> r.Chunked?)
  {
    CutsFromPieces(text, chunkSize, 0);
    ChunkFromStops(text, chunkSize, overlap, 0, [], "");
    ChunkFromBuilds(text, chunkSize, overlap, 0, [], "");
    assert [] + BuildAll(PiecesFrom(text, chunkSize, 0), overlap) == BuildAll(PiecesFrom(text, chunkSize, 0), overlap);
    PiecesFromStripped(text, chunkSize, 0);
    if chunkSize > 100 {
      ChunkFromTerminates(text, chunkSize, overlap, 0, [], "");
    }
  }

  /** With a chunk size of at most 100 the loop can stop moving: a marker at the window's start. */
  lemma SmallChunkSizeCanStall()
    ensures NextCut("[1]" + seq(200, _ => 'a'), 0, 50) == 0
  {
    var text := "[1]" + seq(200, _ => 'a');
    var w := Window(text, 0, 50);
    assert w == text[0..100];
    assert forall j :: !ParagraphBreakAt(w, j);
    assert forall j :: !SentenceEndAt(w, j);
    assert MarkerRunEnd(w, 1) == 2;
    assert MarkerAt(w, 0);
    assert forall j :: 0 < j < |w| ==> !MarkerAt(w, j);
    LastParagraphEndSpec(w, 0);
    LastSentenceEndSpec(w, |w|);
    LastMarkerStartSpec(w, |w|);
  }
}
