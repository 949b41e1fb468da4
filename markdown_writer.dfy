/**
 * Turning processed chunks into the final Markdown document, its JSON metadata and a short
 * preview: the document header and body, the cost figure with four decimals, the file-name
 * sanitiser, the output file names and the budgeted preview.  Files, clocks and JSON encoding are
 * not modelled: the clock readings are parameters and the metadata is a record.
 */
module MarkdownWriting {
  import opened Wrappers
  import opened Text
  import opened LlmProcessing

  /** The metadata of one processed transcript. */
  datatype TranscriptMetadata = TranscriptMetadata(
    title: string,
    originalDuration: Option<string>,
    processedAt: string,
    model: string,
    totalCost: real,
    chunksProcessed: int,
    inputTokens: int,
    outputTokens: int)

  datatype TokenCounts = TokenCounts(input: int, output: int, total: int)

  /** The dictionary written as the metadata JSON. */
  datatype MetadataDict = MetadataDict(
    title: string,
    originalDuration: Option<string>,
    processedAt: string,
    model: string,
    costUsd: real,
    chunksProcessed: int,
    tokens: TokenCounts)

  // ---------------------------------------------------------------------------------------
  // Metadata
  // ---------------------------------------------------------------------------------------

  /** The metadata `write` assembles from the title, the duration and the processing summary. */
  function MetadataOf(title: string, duration: Option<string>, processedAt: string, summary: Summary): TranscriptMetadata {
    TranscriptMetadata(title, duration, processedAt, summary.model, summary.totalCost, summary.chunksProcessed,
                       summary.totalInputTokens, summary.totalOutputTokens)
  }

  /**
   * `_metadata_to_dict`: the metadata's fields under their JSON names, the cost as `cost_usd`, and
   * a token total that is the sum of the input and output counts.
   */
  function MetadataToDict(m: TranscriptMetadata): (d: MetadataDict)
    ensures d.tokens.total == d.tokens.input + d.tokens.output
    ensures d.tokens.input == m.inputTokens && d.tokens.output == m.outputTokens
    ensures d.costUsd == m.totalCost && d.chunksProcessed == m.chunksProcessed
    ensures d.title == m.title && d.originalDuration == m.originalDuration
    ensures d.processedAt == m.processedAt && d.model == m.model
  {
    MetadataDict(m.title, m.originalDuration, m.processedAt, m.model, m.totalCost, m.chunksProcessed,
                 TokenCounts(m.inputTokens, m.outputTokens, m.inputTokens + m.outputTokens))
  }

  // ---------------------------------------------------------------------------------------
  // The cost with four decimals
  // ---------------------------------------------------------------------------------------

  function Magnitude(x: real): (r: real)
    ensures r >= 0.0 && (r == x || r == -x)
  {
    if x < 0.0 then -x else x
  }

  /** `|x|` in ten-thousandths, rounded half to even: within half a unit of the exact value. */
  function Scaled(x: real): (n: nat)
    ensures 2.0 * (Magnitude(x) * 10000.0 - n as real) <= 1.0
    ensures 2.0 * (n as real - Magnitude(x) * 10000.0) <= 1.0
  {
    RoundHalfEven(Magnitude(x) * 10000.0)
  }

  /** A count of ten-thousandths written as sign, integer digits, a point and four decimals. */
  function FormatScaled(negative: bool, n: nat): string {
    (if negative then "-" else "") + NatToDecimal(n / 10000) + "." + PadZeros(NatToDecimal(n % 10000), 4)
  }

  predicate Negative(x: real) {
    x < 0.0
  }

  /** `f"{x:.4f}"` on an exact value. */
  function Fixed4(x: real): string {
    FormatScaled(Negative(x), Scaled(x))
  }

  /** `s` is the sign, then `whole`, a point and `frac`, digits reading back as `n` ten-thousandths. */
  ghost predicate ReadsAs(s: string, negative: bool, whole: string, frac: string, n: nat) {
    && AllDigits(whole) && |whole| >= 1 && AllDigits(frac) && |frac| == 4
    && s == (if negative then "-" else "") + whole + "." + frac
    && DecimalValue(whole) * 10000 + DecimalValue(frac) == n
  }

  /** The written digits read back as the count: whole part times 10000 plus the four decimals. */
  lemma FormatScaledSpec(negative: bool, n: nat)
    ensures exists whole: string, frac: string :: ReadsAs(FormatScaled(negative, n), negative, whole, frac, n)
  {
    var whole := NatToDecimal(n / 10000);
    var frac := PadZeros(NatToDecimal(n % 10000), 4);
    DecimalLength(n % 10000, 4);
    DecimalRoundTrip(n / 10000);
    DecimalRoundTrip(n % 10000);
    assert ReadsAs(FormatScaled(negative, n), negative, whole, frac, n);
  }

  /**
   * The cost figure reads back as the magnitude of `x` in ten-thousandths, rounded half to even
   * (see `Scaled`): a sign for negative values, then integer digits, a point and four decimals.
   */
  lemma Fixed4Spec(x: real)
    ensures exists whole: string, frac: string :: ReadsAs(Fixed4(x), Negative(x), whole, frac, Scaled(x))
  {
    FormatScaledSpec(Negative(x), Scaled(x));
    var whole, frac :| ReadsAs(FormatScaled(Negative(x), Scaled(x)), Negative(x), whole, frac, Scaled(x));
    assert ReadsAs(Fixed4(x), Negative(x), whole, frac, Scaled(x));
  }

  // ---------------------------------------------------------------------------------------
  // The document
  // ---------------------------------------------------------------------------------------

  /** `s[:n]`. */
  function Prefix(s: string, n: nat): (r: string)
    ensures |r| <= n && StartsWith(s, r)
  {
    if |s| <= n then s else s[..n]
  }

  /** The header: title, blank line, the facts (duration only when given and non-empty), a rule. */
  function HeaderLines(m: TranscriptMetadata): seq<string> {
    ["# " + m.title, "",
     "**Processed:** " + Prefix(m.processedAt, 10),
     "**Model:** " + m.model,
     "**Cost:** $" + Fixed4(m.totalCost)]
    + DurationLines(m.originalDuration)
    + ["", "---", ""]
  }

  /** Two lines per chunk whose stripped cleaned text is non-empty: the text, then a blank line. */
  function BodyLines(chunks: seq<ProcessedChunk>): seq<string> {
    if chunks == [] then []
    else
      var cleaned := Strip(chunks[|chunks| - 1].cleanedText);
      BodyLines(chunks[..|chunks| - 1]) + (if cleaned != "" then [cleaned, ""] else [])
  }

  /** The stripped, non-empty cleaned texts in chunk order. */
  function Kept(chunks: seq<ProcessedChunk>): (r: seq<string>)
    ensures |r| <= |chunks|
  {
    if chunks == [] then []
    else
      var cleaned := Strip(chunks[|chunks| - 1].cleanedText);
      Kept(chunks[..|chunks| - 1]) + (if cleaned != "" then [cleaned] else [])
  }

  /** `_build_markdown`'s document. */
  function Markdown(chunks: seq<ProcessedChunk>, m: TranscriptMetadata): string {
    Join("\n", HeaderLines(m) + BodyLines(chunks))
  }

  /** A line starting with the duration label. */
  predicate IsDurationLine(line: string) {
    StartsWith(line, "**Duration:**")
  }

  /** A line too short, not opening with '*', or without 'D' third is not a duration line. */
  lemma NotDurationLine(line: string)
    requires |line| < 3 || line[0] != '*' || line[2] != 'D'
    ensures !IsDurationLine(line)
  {
    if |line| >= 13 {
      assert line[..13][0] == line[0] && line[..13][2] == line[2];
    }
  }

  /** The label written before a given non-empty duration. */
  function DurationLines(duration: Option<string>): seq<string> {
    if duration.Some? && duration.value != "" then ["**Duration:** " + duration.value] else []
  }

  /**
   * The header begins with the title line and carries a duration line exactly when a non-empty
   * duration is given, holding that duration; all other header lines are the fixed facts.
   */
  lemma HeaderSpec(m: TranscriptMetadata)
    ensures var h := HeaderLines(m);
      && h[0] == "# " + m.title
      && h == ["# " + m.title, "", "**Processed:** " + Prefix(m.processedAt, 10), "**Model:** " + m.model,
               "**Cost:** $" + Fixed4(m.totalCost)] + DurationLines(m.originalDuration) + ["", "---", ""]
      && ((exists k :: 0 <= k < |h| && IsDurationLine(h[k])) <==> m.originalDuration.Some? && m.originalDuration.value != "")
  {
    var h := HeaderLines(m);
    var given := m.originalDuration.Some? && m.originalDuration.value != "";
    forall k | 0 <= k < |h| && !(given && k == 5)
      ensures !IsDurationLine(h[k])
    {
      if k == 0 {
        assert h[k][0] == '#';
      } else if k == 2 {
        assert h[k][2] == 'P';
      } else if k == 3 {
        assert h[k][2] == 'M';
      } else if k == 4 {
        assert h[k][2] == 'C';
      } else {
        assert h[k] == "" || h[k] == "---";
      }
      NotDurationLine(h[k]);
    }
    if given {
      assert h[5] == "**Duration:** " + m.originalDuration.value;
      assert IsDurationLine(h[5]);
    }
  }

  /** The kept texts are exactly the stripped non-blank ones: each is non-empty and already stripped. */
  lemma {:induction false} KeptSpec(chunks: seq<ProcessedChunk>)
    ensures forall t :: t in Kept(chunks) ==> t != "" && Strip(t) == t
    ensures (forall k :: 0 <= k < |chunks| ==> AllSpace(chunks[k].cleanedText)) ==> Kept(chunks) == []
  {
    if chunks != [] {
      var init := chunks[..|chunks| - 1];
      var c := chunks[|chunks| - 1].cleanedText;
      KeptSpec(init);
      StripIdempotent(c);
      StripSpec(c);
      if forall k :: 0 <= k < |chunks| ==> AllSpace(chunks[k].cleanedText) {
        assert forall k :: 0 <= k < |init| ==> init[k] == chunks[k];
      }
    }
  }

  /** `Join` over two non-empty lists puts the separator between their joins. */
  lemma {:induction false} JoinConcat(sep: string, a: seq<string>, b: seq<string>)
    requires a != []
    ensures Join(sep, a + b) == if b == [] then Join(sep, a) else Join(sep, a) + sep + Join(sep, b)
    decreases |a|
  {
    if |a| > 1 {
      assert (a + b)[1..] == a[1..] + b;
      JoinConcat(sep, a[1..], b);
    } else if b != [] {
      assert (a + b)[1..] == b;
    } else {
      assert a + b == a;
    }
  }

  /** The shape of the document after the lines `h`: each kept text, then a blank line. */
  ghost predicate BodyJoined(h: seq<string>, body: seq<string>, kept: seq<string>) {
    Join("\n", h + body) == Join("\n", h) + (if kept == [] then "" else "\n" + Join("\n\n", kept) + "\n")
  }

  /** Regrouping the separators around a first kept text. */
  lemma RegroupFirst(jh: string, c: string)
    ensures (jh + "") + "\n" + c + "\n" == jh + ("\n" + c + "\n")
  {
  }

  /** Regrouping the separators around a new kept text. */
  lemma Regroup(jh: string, jk: string, c: string)
    ensures (jh + ("\n" + jk + "\n")) + "\n" + c + "\n" == jh + ("\n" + (jk + "\n\n" + c) + "\n")
  {
  }

  /** Joining a text and a blank line onto non-empty lines adds the text between two newlines. */
  lemma JoinTextLine(lines: seq<string>, c: string)
    requires lines != []
    ensures Join("\n", lines + [c, ""]) == Join("\n", lines) + "\n" + c + "\n"
  {
    assert lines + [c, ""] == (lines + [c]) + [""];
    JoinAppend("\n", lines + [c], "");
    JoinAppend("\n", lines, c);
  }

  /** Appending a text and a blank line to the lines appends the text to the kept texts. */
  lemma JoinStep(h: seq<string>, body: seq<string>, kept: seq<string>, c: string)
    requires h != [] && BodyJoined(h, body, kept)
    ensures BodyJoined(h, body + [c, ""], kept + [c])
  {
    var jh, jk, jb := Join("\n", h), Join("\n\n", kept), Join("\n", h + body);
    assert h + (body + [c, ""]) == (h + body) + [c, ""];
    JoinTextLine(h + body, c);
    assert Join("\n", h + (body + [c, ""])) == jb + "\n" + c + "\n";
    JoinAppend("\n\n", kept, c);
    if kept == [] {
      assert jb == jh + "";
      RegroupFirst(jh, c);
      assert Join("\n\n", kept + [c]) == c;
    } else {
      assert jb == jh + ("\n" + jk + "\n");
      Regroup(jh, jk, c);
      assert Join("\n\n", kept + [c]) == jk + "\n\n" + c;
    }
  }

  /** After any non-empty first lines, the body adds each kept text and a blank line. */
  lemma {:induction false} BodyShape(h: seq<string>, chunks: seq<ProcessedChunk>)
    requires h != []
    ensures BodyJoined(h, BodyLines(chunks), Kept(chunks))
  {
    if chunks == [] {
      assert h + BodyLines(chunks) == h;
    } else {
      var init := chunks[..|chunks| - 1];
      var cleaned := Strip(chunks[|chunks| - 1].cleanedText);
      BodyShape(h, init);
      if cleaned != "" {
        assert BodyLines(chunks) == BodyLines(init) + [cleaned, ""];
        assert Kept(chunks) == Kept(init) + [cleaned];
        JoinStep(h, BodyLines(init), Kept(init), cleaned);
      } else {
        assert BodyLines(chunks) == BodyLines(init);
        assert Kept(chunks) == Kept(init);
      }
    }
  }

  /**
   * The document is the header, then each kept chunk text separated by a blank line, then a final
   * newline; with no kept text it is the header alone.
   */
  lemma MarkdownShape(chunks: seq<ProcessedChunk>, m: TranscriptMetadata)
    ensures Markdown(chunks, m)
      == Join("\n", HeaderLines(m)) + (if Kept(chunks) == [] then "" else "\n" + Join("\n\n", Kept(chunks)) + "\n")
  {
    BodyShape(HeaderLines(m), chunks);
    assert BodyJoined(HeaderLines(m), BodyLines(chunks), Kept(chunks));
  }

  /** The document starts with the title line. */
  lemma MarkdownStartsWithTitle(chunks: seq<ProcessedChunk>, m: TranscriptMetadata)
    ensures StartsWith(Markdown(chunks, m), "# " + m.title)
  {
    var lines := HeaderLines(m) + BodyLines(chunks);
    JoinConcat("\n", [lines[0]], lines[1..]);
    assert [lines[0]] + lines[1..] == lines;
  }

  /** The header lines, grouped as `_build_markdown` appends them. */
  lemma HeaderByAppends(m: TranscriptMetadata)
    ensures HeaderLines(m)
      == ["# " + m.title, ""] + ["**Processed:** " + Prefix(m.processedAt, 10)] + ["**Model:** " + m.model]
         + ["**Cost:** $" + Fixed4(m.totalCost)] + DurationLines(m.originalDuration) + [""] + ["---"] + [""]
  {
  }

  /** Appending two lines one at a time appends the pair. */
  lemma AppendPair<T>(a: seq<T>, b: seq<T>, x: T, y: T)
    ensures a + b + [x] + [y] == a + (b + [x, y])
  {
  }

  /** One more chunk adds its two lines when its stripped text is non-empty, and nothing otherwise. */
  lemma BodyLinesStep(chunks: seq<ProcessedChunk>, i: nat)
    requires i < |chunks|
    ensures var cleaned := Strip(chunks[i].cleanedText);
      BodyLines(chunks[..i + 1]) == BodyLines(chunks[..i]) + (if cleaned != "" then [cleaned, ""] else [])
  {
    assert chunks[..i + 1][..i] == chunks[..i];
  }

  /** `_build_markdown`: the header lines, then two lines per non-blank chunk, joined by newlines. */
  method BuildMarkdown(chunks: seq<ProcessedChunk>, m: TranscriptMetadata) returns (content: string)
    ensures content == Markdown(chunks, m)
  {
    var lines := ["# " + m.title, ""];
    lines := lines + ["**Processed:** " + Prefix(m.processedAt, 10)];
    lines := lines + ["**Model:** " + m.model];
    lines := lines + ["**Cost:** $" + Fixed4(m.totalCost)];
    ghost var fixed := lines;
    if m.originalDuration.Some? && m.originalDuration.value != "" {
      lines := lines + ["**Duration:** " + m.originalDuration.value];
    }
    assert lines == fixed + DurationLines(m.originalDuration);
    lines := lines + [""] + ["---"] + [""];
    HeaderByAppends(m);
    for i := 0 to |chunks|
      invariant lines == HeaderLines(m) + BodyLines(chunks[..i])
    {
      var cleaned := Strip(chunks[i].cleanedText);
      BodyLinesStep(chunks, i);
      if cleaned != "" {
        lines := lines + [cleaned];
        lines := lines + [""];
        AppendPair(HeaderLines(m), BodyLines(chunks[..i]), cleaned, "");
      }
    }
    assert chunks[..|chunks|] == chunks;
    content := Join("\n", lines);
  }

  // ---------------------------------------------------------------------------------------
  // File names
  // ---------------------------------------------------------------------------------------

  /** The characters removed from titles: `<>:"/\|?*`. */
  predicate Forbidden(c: char) {
    c in "<>:\"/\\|?*"
  }

  /** `re.sub(r'[<>:"/\\|?*]', '', s)`. */
  function RemoveForbidden(s: string): (r: string)
    ensures |r| <= |s|
    ensures forall k :: 0 <= k < |r| ==> !Forbidden(r[k]) && r[k] in s
  {
    if s == [] then []
    else
      var c := s[|s| - 1];
      var init := RemoveForbidden(s[..|s| - 1]);
      assert forall k :: 0 <= k < |init| ==> init[k] in s;
      if Forbidden(c) then init else init + [c]
  }

  /** `re.sub(r'\s+', '-', s)`: every maximal run of whitespace becomes one '-'. */
  function CollapseSpaces(s: string): (r: string)
    ensures |r| <= |s|
    ensures forall k :: 0 <= k < |r| ==> !IsSpace(r[k]) && (r[k] == '-' || r[k] in s)
  {
    if s == [] then []
    else
      var c := s[|s| - 1];
      var init := s[..|s| - 1];
      var r := CollapseSpaces(init);
      assert forall k :: 0 <= k < |r| ==> r[k] == '-' || r[k] in s by {
        forall k | 0 <= k < |r| && r[k] != '-'
          ensures r[k] in s
        {
          var m :| 0 <= m < |init| && init[m] == r[k];
          assert s[m] == init[m];
        }
      }
      NotSpaceChar('-');
      if !IsSpace(c) then r + [c]
      else if init != [] && IsSpace(init[|init| - 1]) then r
      else r + ['-']
  }

  /** `s.lstrip('-')`. */
  function DropLeadingDashes(s: string): (r: string)
    ensures |r| <= |s| && r == s[|s| - |r|..]
    ensures r != [] ==> r[0] != '-'
  {
    if s != [] && s[0] == '-' then DropLeadingDashes(s[1..]) else s
  }

  /** `s.rstrip('-')`. */
  function DropTrailingDashes(s: string): (r: string)
    ensures |r| <= |s| && r == s[..|r|]
    ensures r != [] ==> r[|r| - 1] != '-'
  {
    if s != [] && s[|s| - 1] == '-' then DropTrailingDashes(s[..|s| - 1]) else s
  }

  /** `s.strip('-')`. */
  function StripDashes(s: string): string {
    DropTrailingDashes(DropLeadingDashes(s))
  }

  /** `_sanitize_filename`. */
  function Sanitize(title: string): string {
    StripDashes(Prefix(CollapseSpaces(RemoveForbidden(title)), 50))
  }

  /** Every character of a stripped string is one of the original's. */
  lemma StripDashesInfix(s: string)
    ensures var r := StripDashes(s);
      && (r != [] ==> r[0] != '-' && r[|r| - 1] != '-')
      && |r| <= |s|
      && forall k :: 0 <= k < |r| ==> r[k] in s
  {
    var l := DropLeadingDashes(s);
    var r := DropTrailingDashes(l);
    if r != [] {
      assert r[0] == l[0];
    }
    forall k | 0 <= k < |r|
      ensures r[k] in s
    {
      assert r[k] == l[k] == s[|s| - |l| + k];
    }
  }

  /**
   * A sanitised title has none of `<>:"/\|?*`, no whitespace, at most 50 characters, and neither
   * starts nor ends with '-'.
   */
  lemma SanitizeSpec(title: string)
    ensures var r := Sanitize(title);
      && |r| <= 50
      && (forall k :: 0 <= k < |r| ==> !Forbidden(r[k]) && !IsSpace(r[k]))
      && (r != [] ==> r[0] != '-' && r[|r| - 1] != '-')
  {
    CutIsClean(title);
    StripDashesInfix(Prefix(CollapseSpaces(RemoveForbidden(title)), 50));
  }

  /** Before the dashes are stripped, the cut title has no forbidden or whitespace character. */
  lemma CutIsClean(title: string)
    ensures forall c :: c in Prefix(CollapseSpaces(RemoveForbidden(title)), 50) ==> !Forbidden(c) && !IsSpace(c)
  {
    var collapsed := CollapseSpaces(RemoveForbidden(title));
    var cut := Prefix(collapsed, 50);
    assert !Forbidden('-');
    forall c | c in cut
      ensures !Forbidden(c) && !IsSpace(c)
    {
      var k :| 0 <= k < |cut| && cut[k] == c;
      assert c == collapsed[k];
    }
  }

  /** Without forbidden characters nothing is removed. */
  lemma {:induction false} RemoveForbiddenNone(s: string)
    requires forall k :: 0 <= k < |s| ==> !Forbidden(s[k])
    ensures RemoveForbidden(s) == s
  {
    if s != [] {
      RemoveForbiddenNone(s[..|s| - 1]);
      assert s[..|s| - 1] + [s[|s| - 1]] == s;
    }
  }

  /** Without whitespace nothing is collapsed. */
  lemma {:induction false} CollapseSpacesNone(s: string)
    requires forall k :: 0 <= k < |s| ==> !IsSpace(s[k])
    ensures CollapseSpaces(s) == s
  {
    if s != [] {
      CollapseSpacesNone(s[..|s| - 1]);
      assert s[..|s| - 1] + [s[|s| - 1]] == s;
    }
  }

  /** Sanitising a sanitised title changes nothing. */
  lemma SanitizeIdempotent(title: string)
    ensures Sanitize(Sanitize(title)) == Sanitize(title)
  {
    var r := Sanitize(title);
    SanitizeSpec(title);
    RemoveForbiddenNone(r);
    CollapseSpacesNone(r);
    assert Prefix(r, 50) == r;
    assert DropLeadingDashes(r) == r;
    assert DropTrailingDashes(r) == r;
  }

  /** The common stem of both output files: `<sanitized title>-<timestamp>`. */
  function BaseName(title: string, timestamp: string): string {
    Sanitize(title) + "-" + timestamp
  }

  function MarkdownPath(outputDir: string, base: string): string {
    outputDir + "/" + base + ".md"
  }

  function MetadataPath(outputDir: string, base: string): string {
    outputDir + "/" + base + "-metadata.json"
  }

  /** Both paths lie in the output directory under the same stem and differ in their endings. */
  lemma PathsSpec(outputDir: string, base: string)
    ensures var md, json := MarkdownPath(outputDir, base), MetadataPath(outputDir, base);
      && StartsWith(md, outputDir + "/" + base) && EndsWith(md, ".md")
      && StartsWith(json, outputDir + "/" + base) && EndsWith(json, "-metadata.json")
      && md != json
  {
    var stem := outputDir + "/" + base;
    assert MarkdownPath(outputDir, base) == stem + ".md";
    assert MetadataPath(outputDir, base) == stem + "-metadata.json";
    assert |MarkdownPath(outputDir, base)| != |MetadataPath(outputDir, base)|;
  }

  /** What `write` produces: the two paths, the document and the metadata dictionary. */
  datatype Written = Written(markdownPath: string, markdown: string, metadataPath: string, metadata: MetadataDict)

  /**
   * `write`, with the two clock readings as parameters: `processedAt` (the ISO time stored in the
   * metadata) and `timestamp` (the `%Y%m%d-%H%M%S` stamp in the file names).
   */
  function Write(outputDir: string, chunks: seq<ProcessedChunk>, title: string, summary: Summary,
                 duration: Option<string>, processedAt: string, timestamp: string): Written
  {
    var metadata := MetadataOf(title, duration, processedAt, summary);
    var base := BaseName(title, timestamp);
    Written(MarkdownPath(outputDir, base), Markdown(chunks, metadata), MetadataPath(outputDir, base), MetadataToDict(metadata))
  }

  /**
   * Both files live in the output directory under the stem `<sanitized title>-<timestamp>`; one
   * ends in `.md`, the other in `-metadata.json`, so they never coincide; the document opens with
   * the title line and the metadata carries the summary's figures.
   */
  lemma WriteSpec(outputDir: string, chunks: seq<ProcessedChunk>, title: string, summary: Summary,
                  duration: Option<string>, processedAt: string, timestamp: string)
    ensures var w := Write(outputDir, chunks, title, summary, duration, processedAt, timestamp);
      var stem := outputDir + "/" + Sanitize(title) + "-" + timestamp;
      && StartsWith(w.markdownPath, stem) && EndsWith(w.markdownPath, ".md")
      && StartsWith(w.metadataPath, stem) && EndsWith(w.metadataPath, "-metadata.json")
      && w.markdownPath != w.metadataPath
      && StartsWith(w.markdown, "# " + title)
      && w.metadata.tokens.total == summary.totalInputTokens + summary.totalOutputTokens
      && w.metadata.costUsd == summary.totalCost && w.metadata.model == summary.model
  {
    var m := MetadataOf(title, duration, processedAt, summary);
    var base := BaseName(title, timestamp);
    PathsSpec(outputDir, base);
    StemRegroup(outputDir + "/", Sanitize(title), "-", timestamp);
    MarkdownStartsWithTitle(chunks, m);
  }

  /** The stem of the output paths, regrouped. */
  lemma StemRegroup(dir: string, x: string, y: string, z: string)
    ensures dir + (x + y + z) == dir + x + y + z
  {
  }

  // ---------------------------------------------------------------------------------------
  // Preview
  // ---------------------------------------------------------------------------------------

  /** The stripped cleaned texts. */
  function Stripped(chunks: seq<ProcessedChunk>): (r: seq<string>)
    ensures |r| == |chunks| && forall k :: 0 <= k < |chunks| ==> r[k] == Strip(chunks[k].cleanedText)
  {
    seq(|chunks|, k requires 0 <= k < |chunks| => Strip(chunks[k].cleanedText))
  }

  /** Total length of the texts. */
  function LengthSum(ts: seq<string>): nat {
    if ts == [] then 0 else |ts[0]| + LengthSum(ts[1..])
  }

  /**
   * The preview parts of `texts` when `total` characters are already used: each text while the
   * running total stays within `maxChars`; the first one that would exceed it is cut to the
   * remaining budget and marked with "..." if more than 100 characters remain, else dropped, and
   * nothing after it is taken.
   */
  function PreviewParts(texts: seq<string>, maxChars: int, total: int): seq<string> {
    if texts == [] then []
    else
      var t := texts[0];
      if total + |t| > maxChars then
        var remaining := maxChars - total;
        if remaining > 100 then [t[..remaining] + "..."] else []
      else [t] + PreviewParts(texts[1..], maxChars, total + |t|)
  }

  /** `get_content_for_preview`. */
  function Preview(chunks: seq<ProcessedChunk>, maxChars: int): string {
    Join("\n\n", PreviewParts(Stripped(chunks), maxChars, 0))
  }

  /** The length sum of a non-empty run is its first length plus the rest. */
  lemma LengthSumCons(t: string, front: seq<string>)
    ensures LengthSum([t] + front) == |t| + LengthSum(front)
  {
    assert ([t] + front)[1..] == front;
  }

  /** A first text that fits is taken and the rest continues from the new total. */
  lemma PreviewFirstFits(texts: seq<string>, maxChars: int, total: int)
    requires texts != [] && total + |texts[0]| <= maxChars
    ensures PreviewParts(texts, maxChars, total) == [texts[0]] + PreviewParts(texts[1..], maxChars, total + |texts[0]|)
  {
  }

  /** A run of texts that fits is taken whole, and the rest continues from its total. */
  lemma {:induction false} PreviewPrefix(texts: seq<string>, maxChars: int, total: int, j: nat)
    requires j <= |texts| && total + LengthSum(texts[..j]) <= maxChars
    ensures PreviewParts(texts, maxChars, total)
      == texts[..j] + PreviewParts(texts[j..], maxChars, total + LengthSum(texts[..j]))
  {
    if j == 0 {
      assert texts[..0] == [] && texts[0..] == texts;
    } else {
      var t, tail := texts[0], texts[1..];
      var front := tail[..j - 1];
      assert texts[..j] == [t] + front;
      LengthSumCons(t, front);
      PreviewFirstFits(texts, maxChars, total);
      PreviewPrefix(tail, maxChars, total + |t|, j - 1);
      assert tail[j - 1..] == texts[j..];
      var later := PreviewParts(texts[j..], maxChars, total + LengthSum(texts[..j]));
      assert [t] + (front + later) == ([t] + front) + later;
    }
  }

  /** When all stripped texts fit in the budget, the preview is all of them joined by blank lines. */
  lemma PreviewFits(chunks: seq<ProcessedChunk>, maxChars: int)
    requires LengthSum(Stripped(chunks)) <= maxChars
    ensures Preview(chunks, maxChars) == Join("\n\n", Stripped(chunks))
  {
    var s := Stripped(chunks);
    assert s[..|s|] == s;
    PreviewPrefix(s, maxChars, 0, |s|);
    assert s[|s|..] == [];
    assert PreviewParts(s[|s|..], maxChars, LengthSum(s)) == [];
    assert PreviewParts(s, maxChars, 0) == s;
    assert Preview(chunks, maxChars) == Join("\n\n", PreviewParts(s, maxChars, 0));
  }

  /**
   * When the `j`-th stripped text is the first that does not fit, the preview is the texts before
   * it, followed by that text cut to the remaining budget plus "..." if more than 100 characters
   * remain; nothing after it appears.
   */
  lemma PreviewOverflow(chunks: seq<ProcessedChunk>, maxChars: int, j: nat)
    requires j < |chunks|
    requires LengthSum(Stripped(chunks)[..j]) <= maxChars < LengthSum(Stripped(chunks)[..j]) + |Strip(chunks[j].cleanedText)|
    ensures var s := Stripped(chunks);
      var remaining := maxChars - LengthSum(s[..j]);
      && 0 <= remaining < |s[j]|
      && Preview(chunks, maxChars)
        == Join("\n\n", s[..j] + (if remaining > 100 then [s[j][..remaining] + "..."] else []))
  {
    var s := Stripped(chunks);
    PreviewPrefix(s, maxChars, 0, j);
    assert s[j..][0] == s[j];
  }

  /** The parts never exceed the remaining budget by more than the three dots. */
  lemma {:induction false} PreviewBudget(texts: seq<string>, maxChars: int, total: int)
    requires total <= maxChars
    ensures LengthSum(PreviewParts(texts, maxChars, total)) <= maxChars - total + 3
  {
    if texts != [] && total + |texts[0]| <= maxChars {
      PreviewBudget(texts[1..], maxChars, total + |texts[0]|);
      var rest := PreviewParts(texts[1..], maxChars, total + |texts[0]|);
      assert ([texts[0]] + rest)[1..] == rest;
    } else if texts != [] && maxChars - total > 100 {
      var part := texts[0][..maxChars - total] + "...";
      assert [part][1..] == [];
    }
  }

  /** A text that fits is taken and the rest continues after it. */
  lemma PreviewTake(s: seq<string>, i: nat, maxChars: int, total: int, content: seq<string>, all: seq<string>)
    requires i < |s| && total + |s[i]| <= maxChars
    requires content + PreviewParts(s[i..], maxChars, total) == all
    ensures (content + [s[i]]) + PreviewParts(s[i + 1..], maxChars, total + |s[i]|) == all
  {
    assert s[i..][0] == s[i] && s[i..][1..] == s[i + 1..];
    var rest := PreviewParts(s[i + 1..], maxChars, total + |s[i]|);
    assert PreviewParts(s[i..], maxChars, total) == [s[i]] + rest;
    assert content + ([s[i]] + rest) == (content + [s[i]]) + rest;
  }

  /** The first text that does not fit ends the preview, cut or dropped. */
  lemma PreviewStop(s: seq<string>, i: nat, maxChars: int, total: int, content: seq<string>, all: seq<string>)
    requires i < |s| && total + |s[i]| > maxChars
    requires content + PreviewParts(s[i..], maxChars, total) == all
    ensures 0 <= maxChars - total <= |s[i]| || maxChars - total <= 100
    ensures content + (if maxChars - total > 100 then [s[i][..maxChars - total] + "..."] else []) == all
  {
    assert s[i..][0] == s[i];
  }

  /** `get_content_for_preview`: a running character total, stopping at the first text that does not fit. */
  method GetContentForPreview(chunks: seq<ProcessedChunk>, maxChars: int) returns (preview: string)
    ensures preview == Preview(chunks, maxChars)
  {
    var s := Stripped(chunks);
    ghost var all := PreviewParts(s, maxChars, 0);
    var content: seq<string> := [];
    var totalChars := 0;
    var i := 0;
    assert s[0..] == s;
    while i < |chunks|
      invariant 0 <= i <= |chunks|
      invariant content + PreviewParts(s[i..], maxChars, totalChars) == all
    {
      var text := Strip(chunks[i].cleanedText);
      assert text == s[i];
      if totalChars + |text| > maxChars {
        PreviewStop(s, i, maxChars, totalChars, content, all);
        var remaining := maxChars - totalChars;
        if remaining > 100 {
          content := content + [text[..remaining] + "..."];
        }
        assert content == all;
        break;
      }
      PreviewTake(s, i, maxChars, totalChars, content, all);
      content := content + [text];
      totalChars := totalChars + |text|;
      i := i + 1;
    }
    if i == |chunks| {
      assert s[i..] == [];
      assert PreviewParts(s[i..], maxChars, totalChars) == [];
      assert content == all;
    }
    preview := Join("\n\n", content);
  }
}
