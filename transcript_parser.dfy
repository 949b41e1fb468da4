/**
 * Subtitle post-processing: choosing the reader by file suffix, formatting cue times as
 * `HH:MM:SS`, cleaning cue text, dropping consecutive repeated captions and rendering segments as
 * timestamped plain text.  The SRT and WebVTT readers themselves are not modelled: the cues they
 * would return are inputs.
 */
module TranscriptParsing {
  import opened Wrappers
  import opened Text

  /** One subtitle segment: times as `HH:MM:SS`. */
  datatype Segment = Segment(index: int, startTime: string, endTime: string, text: string)

  /** An SRT time as the reader returns it. */
  datatype SrtTime = SrtTime(hours: nat, minutes: nat, seconds: nat, milliseconds: nat)

  /** An SRT cue as the reader returns it. */
  datatype SrtCue = SrtCue(index: int, start: SrtTime, end: SrtTime, text: string)

  /** A WebVTT caption as the reader returns it: times as text such as `00:01:02.500`. */
  datatype VttCaption = VttCaption(start: string, end: string, text: string)

  datatype Format = Srt | Vtt

  /** `ValueError("Unsupported format: ...")`, or the `IndexError` of a time without any ':'. */
  datatype ParseError = Unsupported(message: string) | IndexOutOfRange(time: string)

  // ---------------------------------------------------------------------------------------
  // Suffix dispatch
  // ---------------------------------------------------------------------------------------

  /** The position of the last `c` in `s`, if any. */
  function LastIndexOf(s: string, c: char): (r: Option<nat>)
    ensures r.Some? ==> r.value < |s| && s[r.value] == c && forall k :: r.value < k < |s| ==> s[k] != c
    ensures r.None? ==> c !in s
  {
    if s == [] then None
    else if s[|s| - 1] == c then Some(|s| - 1)
    else
      assert s == s[..|s| - 1] + [s[|s| - 1]];
      LastIndexOf(s[..|s| - 1], c)
  }

  /** The last non-empty component. */
  function LastNonEmpty(parts: seq<string>): string {
    if parts == [] then ""
    else if parts[|parts| - 1] != "" then parts[|parts| - 1]
    else LastNonEmpty(parts[..|parts| - 1])
  }

  /** `PurePath.name`: the last non-empty '/'-separated component. */
  function FileName(path: string): string {
    LastNonEmpty(Split(path, '/'))
  }

  /** `PurePath.suffix`: the name from its last '.', unless that '.' is the name's first or last character. */
  function Suffix(path: string): string {
    var name := FileName(path);
    match LastIndexOf(name, '.')
    case Some(i) => if 0 < i < |name| - 1 then name[i..] else ""
    case None => ""
  }

  /** `parse`'s dispatch on the lower-cased suffix. */
  function DetectFormat(path: string): Result<Format, ParseError> {
    var suffix := Lower(Suffix(path));
    if suffix == ".srt" then Ok(Srt)
    else if suffix == ".vtt" then Ok(Vtt)
    else Err(Unsupported("Unsupported format: " + suffix))
  }

  // ---------------------------------------------------------------------------------------
  // Times
  // ---------------------------------------------------------------------------------------

  /** `f"{n:02d}"` for a natural number. */
  function Pad2(n: nat): (r: string)
    ensures AllDigits(r) && |r| >= 2 && DecimalValue(r) == n
    ensures n < 100 ==> |r| == 2
  {
    DecimalRoundTrip(n);
    if n < 100 then
      DecimalLength(n, 2);
      PadZeros(NatToDecimal(n), 2)
    else PadZeros(NatToDecimal(n), 2)
  }

  /** `_format_time`: hours, minutes and seconds, each zero-padded to two digits. */
  function FormatTime(t: SrtTime): string {
    Pad2(t.hours) + ":" + Pad2(t.minutes) + ":" + Pad2(t.seconds)
  }

  /** Digit strings hold neither ':' nor '.'. */
  lemma DigitsHaveNoSeparators(s: string)
    requires AllDigits(s)
    ensures ':' !in s && '.' !in s
  {
    forall k | 0 <= k < |s|
      ensures s[k] != ':' && s[k] != '.'
    {
      assert IsDigit(s[k]);
    }
  }

  /**
   * The formatted time is three ':'-separated fields of at least two digits reading back as the
   * hours, minutes and seconds (milliseconds are dropped); below 100 hours it is exactly `HH:MM:SS`.
   */
  lemma FormatTimeSpec(t: SrtTime)
    ensures var parts := Split(FormatTime(t), ':');
      && |parts| == 3
      && AllDigits(parts[0]) && AllDigits(parts[1]) && AllDigits(parts[2])
      && DecimalValue(parts[0]) == t.hours && DecimalValue(parts[1]) == t.minutes && DecimalValue(parts[2]) == t.seconds
      && |parts[0]| >= 2 && |parts[1]| >= 2 && |parts[2]| >= 2
      && (t.hours < 100 && t.minutes < 100 && t.seconds < 100 ==> |FormatTime(t)| == 8)
  {
    var h, m, s := Pad2(t.hours), Pad2(t.minutes), Pad2(t.seconds);
    DigitsHaveNoSeparators(h);
    DigitsHaveNoSeparators(m);
    DigitsHaveNoSeparators(s);
    SplitNoSeparator(s, ':');
    SplitFirst(m, ':', s);
    SplitFirst(h, ':', m + ":" + s);
    assert FormatTime(t) == h + [':'] + (m + [':'] + s);
  }

  /** A seconds field without its fraction: the text before the first '.'. */
  function WholeSeconds(field: string): string {
    Split(field, '.')[0]
  }

  /**
   * `_vtt_time_to_str`: with two ':'-fields, `00:` then the minutes and the seconds without their
   * fraction; with three or more, the first three fields, the third without its fraction; a time
   * without ':' fails on the missing second field.
   */
  function VttTimeToStr(time: string): Result<string, ParseError> {
    var parts := Split(time, ':');
    if |parts| == 2 then Ok("00:" + parts[0] + ":" + WholeSeconds(parts[1]))
    else if |parts| >= 3 then Ok(parts[0] + ":" + parts[1] + ":" + WholeSeconds(parts[2]))
    else Err(IndexOutOfRange(time))
  }

  /** Two fields around one separator. */
  lemma SplitPair(a: string, c: char, b: string)
    requires c !in a && c !in b
    ensures Split(a + [c] + b, c) == [a, b]
  {
    SplitNoSeparator(b, c);
    SplitFirst(a, c, b);
  }

  /** The fraction after the first '.' is dropped. */
  lemma WholeSecondsOf(ss: string, frac: string)
    requires '.' !in ss
    ensures WholeSeconds(ss + "." + frac) == ss
  {
    SplitFirst(ss, '.', frac);
    assert ss + "." + frac == ss + ['.'] + frac;
  }

  /** `MM:SS.mmm` becomes `00:MM:SS`. */
  lemma VttShortTime(mm: string, ss: string, frac: string)
    requires ':' !in mm && ':' !in ss && ':' !in frac && '.' !in ss
    ensures VttTimeToStr(mm + ":" + ss + "." + frac) == Ok("00:" + mm + ":" + ss)
  {
    var rest := ss + "." + frac;
    assert mm + ":" + ss + "." + frac == mm + [':'] + rest;
    SplitPair(mm, ':', rest);
    WholeSecondsOf(ss, frac);
  }

  /** `HH:MM:SS.mmm` becomes `HH:MM:SS`. */
  lemma VttLongTime(hh: string, mm: string, ss: string, frac: string)
    requires ':' !in hh && ':' !in mm && ':' !in ss && ':' !in frac && '.' !in ss
    ensures VttTimeToStr(hh + ":" + mm + ":" + ss + "." + frac) == Ok(hh + ":" + mm + ":" + ss)
  {
    var rest := ss + "." + frac;
    assert hh + ":" + mm + ":" + ss + "." + frac == hh + [':'] + (mm + [':'] + rest);
    SplitPair(mm, ':', rest);
    SplitFirst(hh, ':', mm + [':'] + rest);
    WholeSecondsOf(ss, frac);
  }

  /** A time without ':' has no second field. */
  lemma VttNoColon(time: string)
    requires ':' !in time
    ensures VttTimeToStr(time) == Err(IndexOutOfRange(time))
  {
    SplitNoSeparator(time, ':');
  }

  // ---------------------------------------------------------------------------------------
  // Cleaning cue text
  // ---------------------------------------------------------------------------------------

  /** The first position at or after `k` holding '>', or the end. */
  function CloseFrom(s: string, k: nat): (j: nat)
    requires k <= |s|
    ensures k <= j <= |s|
    ensures forall m :: k <= m < j ==> s[m] != '>'
    ensures j < |s| ==> s[j] == '>'
    decreases |s| - k
  {
    if k == |s| || s[k] == '>' then k else CloseFrom(s, k + 1)
  }

  /** `<[^>]+>` matches at `i`: a '<', at least one character that is not '>', then a '>'. */
  predicate TagAt(s: string, i: nat)
    requires i < |s|
  {
    s[i] == '<' && i + 1 < CloseFrom(s, i + 1) < |s|
  }

  /** `re.sub(r"<[^>]+>", "", s[i..])`: leftmost matches removed, scanning left to right. */
  function StripTagsFrom(s: string, i: nat): (r: string)
    requires i <= |s|
    ensures forall k :: 0 <= k < |r| ==> r[k] in s[i..]
    decreases |s| - i
  {
    if i == |s| then []
    else if TagAt(s, i) then
      var r := StripTagsFrom(s, CloseFrom(s, i + 1) + 1);
      assert forall k :: 0 <= k < |r| ==> r[k] in s[i..] by {
        forall k | 0 <= k < |r|
          ensures r[k] in s[i..]
        {
          var m :| CloseFrom(s, i + 1) + 1 <= m < |s| && s[m] == r[k];
          assert s[i..][m - i] == r[k];
        }
      }
      r
    else
      var r := StripTagsFrom(s, i + 1);
      assert forall k :: 0 <= k < |r| ==> r[k] in s[i..] by {
        forall k | 0 <= k < |r|
          ensures r[k] in s[i..]
        {
          var m :| i + 1 <= m < |s| && s[m] == r[k];
          assert s[i..][m - i] == r[k];
        }
      }
      assert s[i..][0] == s[i];
      [s[i]] + r
  }

  function StripTags(s: string): string {
    StripTagsFrom(s, 0)
  }

  /**
   * No `<[^>]+>` match anywhere: whenever a '<' is followed, two or more places on, by a '>', the
   * character right after the '<' is itself a '>'.
   */
  ghost predicate NoTags(r: string) {
    forall i, j :: 0 <= i && i + 1 < j < |r| && r[i] == '<' && r[j] == '>' ==> r[i + 1] == '>'
  }

  /**
   * A '<' that does not open a tag, followed later in the stripped rest by a '>': the '>' comes
   * right after it.
   */
  lemma OpenWithoutTag(s: string, i: nat, k: nat)
    requires i < |s| && s[i] == '<' && !TagAt(s, i)
    requires k < |StripTagsFrom(s, i + 1)| && StripTagsFrom(s, i + 1)[k] == '>'
    ensures StripTagsFrom(s, i + 1)[0] == '>'
  {
    var m :| i + 1 <= m < |s| && s[m] == '>';
    var close := CloseFrom(s, i + 1);
    assert close <= m;
    assert close == i + 1;
    assert !TagAt(s, i + 1);
    assert StripTagsFrom(s, i + 1) == [s[i + 1]] + StripTagsFrom(s, i + 2);
  }

  /** A character put before a tag-free text leaves it tag-free unless it is a '<' with a later '>' not right after it. */
  lemma NoTagsCons(c: char, rest: string)
    requires NoTags(rest)
    requires forall k :: 0 <= k < |rest| && c == '<' && rest[k] == '>' ==> rest[0] == '>'
    ensures NoTags([c] + rest)
  {
    var r := [c] + rest;
    forall a, b | 0 <= a && a + 1 < b < |r| && r[a] == '<' && r[b] == '>'
      ensures r[a + 1] == '>'
    {
      if a == 0 {
        assert rest[b - 1] == '>';
      } else {
        assert rest[a - 1] == '<' && rest[b - 1] == '>';
      }
    }
  }

  /** After tag removal no tag is left. */
  lemma {:induction false} StripTagsFromNoTags(s: string, i: nat)
    requires i <= |s|
    ensures NoTags(StripTagsFrom(s, i))
    decreases |s| - i
  {
    if i < |s| {
      if TagAt(s, i) {
        StripTagsFromNoTags(s, CloseFrom(s, i + 1) + 1);
      } else {
        var rest := StripTagsFrom(s, i + 1);
        StripTagsFromNoTags(s, i + 1);
        forall k | 0 <= k < |rest| && s[i] == '<' && rest[k] == '>'
          ensures rest[0] == '>'
        {
          OpenWithoutTag(s, i, k);
        }
        NoTagsCons(s[i], rest);
        assert StripTagsFrom(s, i) == [s[i]] + rest;
      }
    }
  }

  /** Without any '<' nothing is removed. */
  lemma {:induction false} StripTagsNone(s: string, i: nat)
    requires i <= |s| && '<' !in s
    ensures StripTagsFrom(s, i) == s[i..]
    decreases |s| - i
  {
    if i < |s| {
      StripTagsNone(s, i + 1);
      assert s[i..] == [s[i]] + s[i + 1..];
    }
  }

  /** Number of non-whitespace characters at the front of `s`. */
  function WordLength(s: string): (n: nat)
    ensures n <= |s|
    ensures forall k :: 0 <= k < n ==> !IsSpace(s[k])
    ensures n < |s| ==> IsSpace(s[n])
  {
    if |s| > 0 && !IsSpace(s[0]) then
      var n := 1 + WordLength(s[1..]);
      assert forall k :: 1 <= k < n ==> s[k] == s[1..][k - 1];
      n
    else 0
  }

  /** A word: non-empty, without whitespace. */
  ghost predicate IsWord(w: string) {
    w != [] && forall k :: 0 <= k < |w| ==> !IsSpace(w[k])
  }

  /** Python's `s.split()`: the maximal runs of non-whitespace characters. */
  function Words(s: string): (ws: seq<string>)
    ensures forall k :: 0 <= k < |ws| ==> IsWord(ws[k])
    decreases |s|
  {
    LeadingSpacesSpec(s);
    var a := LeadingSpaces(s);
    if a == |s| then []
    else
      var rest := s[a..];
      var n := WordLength(rest);
      [rest[..n]] + Words(rest[n..])
  }

  /** `_clean_text`: tags removed, whitespace runs collapsed to one space, ends stripped. */
  function CleanText(text: string): string {
    Strip(Join(" ", Words(StripTags(text))))
  }

  /** Whitespace-normalised: no whitespace at the ends, and every whitespace character a single space between words. */
  ghost predicate Normalized(r: string) {
    && (r != [] ==> !IsSpace(r[0]) && !IsSpace(r[|r| - 1]))
    && forall k :: 0 <= k < |r| && IsSpace(r[k]) ==> r[k] == ' ' && k + 1 < |r| && !IsSpace(r[k + 1])
  }

  /** The space is whitespace. */
  lemma SpaceIsSpace()
    ensures IsSpace(' ')
  {
    assert SpaceChars[9] == ' ';
    SpaceCharAt(9, 0);
  }

  /** The scan from `j` finds every space character at or after `j`. */
  lemma {:induction false} SpaceCharAt(k: nat, j: nat)
    requires j <= k < |SpaceChars|
    ensures SpaceCharFrom(SpaceChars[k], j)
    decreases k - j
  {
    if j < k {
      SpaceCharAt(k, j + 1);
    }
  }

  /** Words joined by single spaces are normalised. */
  lemma {:induction false} JoinWordsNormalized(ws: seq<string>)
    requires forall k :: 0 <= k < |ws| ==> IsWord(ws[k])
    ensures Normalized(Join(" ", ws))
    decreases |ws|
  {
    if |ws| > 1 {
      var w := ws[0];
      var rest := Join(" ", ws[1..]);
      JoinWordsNormalized(ws[1..]);
      assert IsWord(ws[1]);
      var r := w + " " + rest;
      assert Join(" ", ws) == r;
      SpaceIsSpace();
      assert rest != [] by {
        JoinNonEmpty(ws[1..]);
      }
      assert forall k :: 0 <= k < |w| ==> r[k] == w[k] && !IsSpace(r[k]);
      forall k | |w| <= k < |r| && IsSpace(r[k])
        ensures r[k] == ' ' && k + 1 < |r| && !IsSpace(r[k + 1])
      {
        if k == |w| {
          assert r[k + 1] == rest[0];
        } else {
          assert r[k] == rest[k - |w| - 1];
          if k + 1 < |r| {
            assert r[k + 1] == rest[k - |w|];
          }
        }
      }
    }
  }

  /** Joining non-empty words gives a non-empty string starting with the first word. */
  lemma {:induction false} JoinNonEmpty(ws: seq<string>)
    requires |ws| > 0 && IsWord(ws[0])
    ensures Join(" ", ws) != [] && Join(" ", ws)[0] == ws[0][0]
  {
  }

  /**
   * `_clean_text` leaves no tag from the original text, and its result is whitespace-normalised;
   * the final strip changes nothing.
   */
  lemma CleanTextSpec(text: string)
    ensures NoTags(StripTags(text))
    ensures Normalized(CleanText(text))
    ensures CleanText(text) == Join(" ", Words(StripTags(text)))
  {
    StripTagsFromNoTags(text, 0);
    var joined := Join(" ", Words(StripTags(text)));
    JoinWordsNormalized(Words(StripTags(text)));
    StripUnchanged(joined);
  }

  /** Text without '<' only has its whitespace normalised. */
  lemma CleanPlainText(text: string)
    requires '<' !in text
    ensures CleanText(text) == Strip(Join(" ", Words(text)))
  {
    StripTagsNone(text, 0);
  }

  // ---------------------------------------------------------------------------------------
  // Segments
  // ---------------------------------------------------------------------------------------

  /** `_parse_srt` before deduplication: the cue's index, its formatted times and its cleaned text. */
  function SrtSegments(cues: seq<SrtCue>): (r: seq<Segment>)
    ensures |r| == |cues|
    ensures forall k :: 0 <= k < |cues| ==>
      r[k] == Segment(cues[k].index, FormatTime(cues[k].start), FormatTime(cues[k].end), CleanText(cues[k].text))
  {
    seq(|cues|, k requires 0 <= k < |cues| =>
      Segment(cues[k].index, FormatTime(cues[k].start), FormatTime(cues[k].end), CleanText(cues[k].text)))
  }

  /** One caption's segment at the given 1-based position: its start converted first, then its end. */
  function CaptionSegment(c: VttCaption, position: nat): Result<Segment, ParseError> {
    match VttTimeToStr(c.start)
    case Err(e) => Err(e)
    case Ok(start) =>
      match VttTimeToStr(c.end)
      case Err(e) => Err(e)
      case Ok(end) => Ok(Segment(position, start, end, CleanText(c.text)))
  }

  /** A caption yields a segment exactly when both its times convert, and the segment carries them and the cleaned text. */
  lemma CaptionSegmentSpec(c: VttCaption, position: nat)
    ensures CaptionSegment(c, position).Ok? <==> VttTimeToStr(c.start).Ok? && VttTimeToStr(c.end).Ok?
    ensures CaptionSegment(c, position).Ok? ==>
      CaptionSegment(c, position).value
      == Segment(position, VttTimeToStr(c.start).value, VttTimeToStr(c.end).value, CleanText(c.text))
    ensures VttTimeToStr(c.start).Err? ==> CaptionSegment(c, position) == Err(VttTimeToStr(c.start).error)
  {
  }

  /** `f` applied to each element and its 1-based position, in order; the first failure fails the whole. */
  function Numbered<A, B, E>(xs: seq<A>, f: (A, nat) -> Result<B, E>): Result<seq<B>, E> {
    if xs == [] then Ok([])
    else
      match Numbered(xs[..|xs| - 1], f)
      case Err(e) => Err(e)
      case Ok(init) =>
        match f(xs[|xs| - 1], |xs|)
        case Err(e) => Err(e)
        case Ok(y) => Ok(init + [y])
  }

  /** When every element succeeds, the result holds each element's value at its position. */
  lemma {:induction false} NumberedAllOk<A, B, E>(xs: seq<A>, f: (A, nat) -> Result<B, E>)
    requires forall k :: 0 <= k < |xs| ==> f(xs[k], k + 1).Ok?
    ensures Numbered(xs, f).Ok?
    ensures var r := Numbered(xs, f).value;
      |r| == |xs| && forall k :: 0 <= k < |r| ==> r[k] == f(xs[k], k + 1).value
  {
    if xs != [] {
      var n := |xs| - 1;
      var init := xs[..n];
      forall k | 0 <= k < n
        ensures f(init[k], k + 1).Ok?
      {
        assert init[k] == xs[k];
      }
      NumberedAllOk(init, f);
      var r, ri := Numbered(xs, f).value, Numbered(init, f).value;
      forall k | 0 <= k < n
        ensures r[k] == f(xs[k], k + 1).value
      {
        assert r[k] == ri[k] && init[k] == xs[k];
      }
    }
  }

  /** The first failing element's error is the result. */
  lemma {:induction false} NumberedFirstFailure<A, B, E>(xs: seq<A>, f: (A, nat) -> Result<B, E>, k: nat)
    requires k < |xs| && f(xs[k], k + 1).Err?
    requires forall j :: 0 <= j < k ==> f(xs[j], j + 1).Ok?
    ensures Numbered(xs, f) == Err(f(xs[k], k + 1).error)
  {
    var n := |xs| - 1;
    var init := xs[..n];
    if k == n {
      forall j | 0 <= j < n
        ensures f(init[j], j + 1).Ok?
      {
        assert init[j] == xs[j];
      }
      NumberedAllOk(init, f);
    } else {
      assert init[k] == xs[k];
      forall j | 0 <= j < k
        ensures f(init[j], j + 1).Ok?
      {
        assert init[j] == xs[j];
      }
      NumberedFirstFailure(init, f, k);
    }
  }

  /** A failure is the failure of some element. */
  lemma {:induction false} NumberedError<A, B, E>(xs: seq<A>, f: (A, nat) -> Result<B, E>)
    requires Numbered(xs, f).Err?
    ensures exists k :: 0 <= k < |xs| && f(xs[k], k + 1) == Err(Numbered(xs, f).error)
  {
    var n := |xs| - 1;
    var init := xs[..n];
    if Numbered(init, f).Err? {
      NumberedError(init, f);
      var k :| 0 <= k < |init| && f(init[k], k + 1) == Err(Numbered(init, f).error);
      assert init[k] == xs[k];
    } else {
      assert f(xs[n], n + 1) == Err(Numbered(xs, f).error);
    }
  }

  /** A caption fails only on a time without ':'. */
  lemma CaptionErrorIsIndex(c: VttCaption, position: nat)
    ensures CaptionSegment(c, position).Err? ==> CaptionSegment(c, position).error.IndexOutOfRange?
  {
  }

  /** `_parse_vtt` before deduplication: one segment per caption, numbered from 1; the first failing caption fails. */
  function VttSegments(captions: seq<VttCaption>): Result<seq<Segment>, ParseError> {
    Numbered(captions, CaptionSegment)
  }

  /**
   * When every caption converts, each yields its segment at its 1-based position; otherwise the
   * first caption with a time that does not convert decides the error.
   */
  lemma VttSegmentsSpec(captions: seq<VttCaption>)
    ensures (forall k :: 0 <= k < |captions| ==> CaptionSegment(captions[k], k + 1).Ok?) ==>
      && VttSegments(captions).Ok?
      && |VttSegments(captions).value| == |captions|
      && forall k :: 0 <= k < |captions| ==> VttSegments(captions).value[k] == CaptionSegment(captions[k], k + 1).value
    ensures forall k ::
      (0 <= k < |captions| && CaptionSegment(captions[k], k + 1).Err?
       && forall j :: 0 <= j < k ==> CaptionSegment(captions[j], j + 1).Ok?) ==>
      VttSegments(captions) == Err(CaptionSegment(captions[k], k + 1).error)
  {
    if forall k :: 0 <= k < |captions| ==> CaptionSegment(captions[k], k + 1).Ok? {
      NumberedAllOk(captions, CaptionSegment);
    }
    forall k | 0 <= k < |captions| && CaptionSegment(captions[k], k + 1).Err?
      && (forall j :: 0 <= j < k ==> CaptionSegment(captions[j], j + 1).Ok?)
      ensures VttSegments(captions) == Err(CaptionSegment(captions[k], k + 1).error)
    {
      NumberedFirstFailure(captions, CaptionSegment, k);
    }
  }

  /** `_deduplicate`: drops a segment whose text repeats the last kept segment's text. */
  function Dedup(segments: seq<Segment>): (r: seq<Segment>)
    ensures |r| <= |segments|
    ensures segments == [] <==> r == []
    ensures segments != [] ==> r[0] == segments[0] && r[|r| - 1].text == segments[|segments| - 1].text
  {
    if segments == [] then []
    else
      var d := Dedup(segments[..|segments| - 1]);
      var last := segments[|segments| - 1];
      if d == [] || last.text != d[|d| - 1].text then d + [last] else d
  }

  /** The segment at `k` is the first or its text differs from its predecessor's. */
  predicate NewText(segments: seq<Segment>, k: nat)
    requires k < |segments|
  {
    k == 0 || segments[k].text != segments[k - 1].text
  }

  /** One step of `Dedup`: the last segment is kept exactly when it starts a new text. */
  lemma DedupStep(segments: seq<Segment>)
    requires segments != []
    ensures var n := |segments| - 1;
      Dedup(segments) == Dedup(segments[..n]) + (if NewText(segments, n) then [segments[n]] else [])
  {
    var n := |segments| - 1;
    if n > 0 {
      assert segments[..n][n - 1] == segments[n - 1];
    }
  }

  /** `NewText` only looks back one place, so a prefix agrees with the whole. */
  lemma NewTextPrefix(segments: seq<Segment>, n: nat, k: nat)
    requires k < n <= |segments|
    ensures NewText(segments[..n], k) == NewText(segments, k)
  {
    if k > 0 {
      assert segments[..n][k - 1] == segments[k - 1];
    }
  }

  /** The positions `_deduplicate` keeps. */
  ghost function KeptPositions(segments: seq<Segment>): (p: seq<nat>)
    ensures forall j :: 0 <= j < |p| ==> p[j] < |segments|
    ensures forall i, j :: 0 <= i < j < |p| ==> p[i] < p[j]
  {
    if segments == [] then []
    else
      var n := |segments| - 1;
      KeptPositions(segments[..n]) + (if NewText(segments, n) then [n] else [])
  }

  /** A position is kept exactly when it starts a new text. */
  lemma {:induction false} KeptPositionsSpec(segments: seq<Segment>)
    ensures forall k :: 0 <= k < |segments| ==> (k in KeptPositions(segments) <==> NewText(segments, k))
  {
    if segments != [] {
      var n := |segments| - 1;
      KeptPositionsSpec(segments[..n]);
      forall k | 0 <= k < n
        ensures k in KeptPositions(segments) <==> NewText(segments, k)
      {
        NewTextPrefix(segments, n, k);
      }
    }
  }

  /** The result is `segments` read at the kept positions. */
  lemma {:induction false} DedupAtKept(segments: seq<Segment>)
    ensures var r, p := Dedup(segments), KeptPositions(segments);
      |p| == |r| && forall j :: 0 <= j < |p| ==> r[j] == segments[p[j]]
  {
    if segments != [] {
      var n := |segments| - 1;
      var pre := segments[..n];
      var d, q := Dedup(pre), KeptPositions(pre);
      DedupAtKept(pre);
      DedupStep(segments);
      var extra, extraAt := if NewText(segments, n) then [segments[n]] else [], if NewText(segments, n) then [n] else [];
      assert Dedup(segments) == d + extra && KeptPositions(segments) == q + extraAt;
      forall j | 0 <= j < |q|
        ensures d[j] == segments[q[j]]
      {
        assert pre[q[j]] == segments[q[j]];
      }
      ReadAtAppend(d, q, extra, extraAt, segments);
    }
  }

  /** Reading `xs` at positions, extended by more reads at more positions. */
  lemma ReadAtAppend<T>(d: seq<T>, q: seq<nat>, extra: seq<T>, extraAt: seq<nat>, xs: seq<T>)
    requires |d| == |q| && |extra| == |extraAt|
    requires forall j :: 0 <= j < |q| ==> q[j] < |xs| && d[j] == xs[q[j]]
    requires forall j :: 0 <= j < |extraAt| ==> extraAt[j] < |xs| && extra[j] == xs[extraAt[j]]
    ensures forall j :: 0 <= j < |q + extraAt| ==> (d + extra)[j] == xs[(q + extraAt)[j]]
  {
    forall j | 0 <= j < |q + extraAt|
      ensures (d + extra)[j] == xs[(q + extraAt)[j]]
    {
      if j >= |q| {
        assert (d + extra)[j] == extra[j - |q|] && (q + extraAt)[j] == extraAt[j - |q|];
      }
    }
  }

  /**
   * The result is the subsequence of `segments` at `KeptPositions`: increasing positions, each
   * kept exactly when it is the first or its text differs from the previous segment's.
   */
  lemma DedupSpec(segments: seq<Segment>)
    ensures var r, p := Dedup(segments), KeptPositions(segments);
      && |p| == |r|
      && (forall j :: 0 <= j < |p| ==> p[j] < |segments| && r[j] == segments[p[j]])
      && (forall i, j :: 0 <= i < j < |p| ==> p[i] < p[j])
      && (forall k :: 0 <= k < |segments| ==> (k in p <==> NewText(segments, k)))
  {
    DedupAtKept(segments);
    KeptPositionsSpec(segments);
  }

  /** No two neighbouring segments share a text. */
  ghost predicate NoAdjacentRepeats(segments: seq<Segment>) {
    forall j :: 0 <= j < |segments| - 1 ==> segments[j].text != segments[j + 1].text
  }

  /** The result never repeats a text twice in a row. */
  lemma {:induction false} DedupNoRepeats(segments: seq<Segment>)
    ensures NoAdjacentRepeats(Dedup(segments))
  {
    if segments != [] {
      DedupNoRepeats(segments[..|segments| - 1]);
    }
  }

  /** A prefix of a sequence without neighbouring repeats has none either. */
  lemma NoRepeatsPrefix(segments: seq<Segment>, n: nat)
    requires n <= |segments| && NoAdjacentRepeats(segments)
    ensures NoAdjacentRepeats(segments[..n])
  {
    forall j | 0 <= j < n - 1
      ensures segments[..n][j].text != segments[..n][j + 1].text
    {
      assert segments[j].text != segments[j + 1].text;
    }
  }

  /** Without neighbouring repeats nothing is dropped. */
  lemma {:induction false} DedupUnchanged(segments: seq<Segment>)
    requires NoAdjacentRepeats(segments)
    ensures Dedup(segments) == segments
  {
    if segments != [] {
      var n := |segments| - 1;
      NoRepeatsPrefix(segments, n);
      DedupUnchanged(segments[..n]);
      DedupStep(segments);
      if n > 0 {
        assert segments[n - 1].text != segments[n].text;
      }
      assert segments[..n] + [segments[n]] == segments;
    }
  }

  /** Deduplicating twice is deduplicating once. */
  lemma DedupIdempotent(segments: seq<Segment>)
    ensures Dedup(Dedup(segments)) == Dedup(segments)
  {
    DedupNoRepeats(segments);
    DedupUnchanged(Dedup(segments));
  }

  /** One more segment of a prefix is kept exactly when its text differs from the last kept one. */
  lemma DedupPrefixStep(segments: seq<Segment>, k: nat, d: seq<Segment>)
    requires k < |segments| && d == Dedup(segments[..k])
    ensures Dedup(segments[..k + 1]) == if d == [] || segments[k].text != d[|d| - 1].text then d + [segments[k]] else d
  {
    assert segments[..k + 1][..k] == segments[..k];
  }

  /** `_deduplicate`: the first segment, then each segment whose text differs from the last kept one. */
  method Deduplicate(segments: seq<Segment>) returns (result: seq<Segment>)
    ensures result == Dedup(segments)
  {
    if segments == [] {
      return segments;
    }
    result := [segments[0]];
    DedupPrefixStep(segments, 0, []);
    for k := 1 to |segments|
      invariant result != [] && result == Dedup(segments[..k])
    {
      DedupPrefixStep(segments, k, result);
      if segments[k].text != result[|result| - 1].text {
        result := result + [segments[k]];
      }
    }
    assert segments[..|segments|] == segments;
  }

  /** `parse`: dispatch on the suffix, then the reader's cues as deduplicated segments. */
  function Parse(path: string, srtCues: seq<SrtCue>, vttCaptions: seq<VttCaption>): Result<seq<Segment>, ParseError> {
    match DetectFormat(path)
    case Err(e) => Err(e)
    case Ok(Srt) => Ok(Dedup(SrtSegments(srtCues)))
    case Ok(Vtt) =>
      match VttSegments(vttCaptions)
      case Err(e) => Err(e)
      case Ok(segments) => Ok(Dedup(segments))
  }

  /**
   * Only the suffixes `.srt` and `.vtt`, in any letter case, are read; any other suffix fails with
   * "Unsupported format: " and the lower-cased suffix.  An SRT file yields its deduplicated cues;
   * a VTT file yields its deduplicated captions, or the index error of the first caption whose
   * time does not convert.
   */
  lemma ParseSpec(path: string, srtCues: seq<SrtCue>, vttCaptions: seq<VttCaption>)
    ensures var suffix := Lower(Suffix(path));
      var r := Parse(path, srtCues, vttCaptions);
      && ((r.Err? && r.error.Unsupported?) <==> suffix != ".srt" && suffix != ".vtt")
      && (r.Err? && r.error.Unsupported? ==> r.error.message == "Unsupported format: " + suffix)
      && (suffix == ".srt" ==> r == Ok(Dedup(SrtSegments(srtCues))))
      && (suffix == ".vtt" && VttSegments(vttCaptions).Ok? ==> r == Ok(Dedup(VttSegments(vttCaptions).value)))
      && (suffix == ".vtt" && VttSegments(vttCaptions).Err? ==> r == Err(VttSegments(vttCaptions).error))
  {
    if VttSegments(vttCaptions).Err? {
      NumberedError(vttCaptions, CaptionSegment);
      var k :| 0 <= k < |vttCaptions| && CaptionSegment(vttCaptions[k], k + 1) == Err(VttSegments(vttCaptions).error);
      CaptionErrorIsIndex(vttCaptions[k], k + 1);
    }
  }

  // ---------------------------------------------------------------------------------------
  // Plain text
  // ---------------------------------------------------------------------------------------

  /** The marker line written before a new start time. */
  function StartMarker(startTime: string): string {
    "\n[" + startTime + "]"
  }

  /** A segment gets a marker when it is the first or its start differs from the previous segment's. */
  predicate StartsNewTime(segments: seq<Segment>, k: nat)
    requires k < |segments|
  {
    k == 0 || segments[k].startTime != segments[k - 1].startTime
  }

  /** `to_plain_text`'s lines: a marker for each new start time, then each segment's text. */
  function PlainLines(segments: seq<Segment>): seq<string> {
    if segments == [] then []
    else
      var n := |segments| - 1;
      PlainLines(segments[..n])
      + (if StartsNewTime(segments, n) then [StartMarker(segments[n].startTime)] else [])
      + [segments[n].text]
  }

  /** The start markers in order: one per new start time. */
  function Markers(segments: seq<Segment>): (r: seq<string>)
    ensures |r| <= |segments|
  {
    if segments == [] then []
    else
      var n := |segments| - 1;
      Markers(segments[..n]) + (if StartsNewTime(segments, n) then [StartMarker(segments[n].startTime)] else [])
  }

  /** The segment texts in order. */
  function Texts(segments: seq<Segment>): (r: seq<string>)
    ensures |r| == |segments| && forall k :: 0 <= k < |r| ==> r[k] == segments[k].text
  {
    if segments == [] then []
    else
      var n := |segments| - 1;
      var init := Texts(segments[..n]);
      assert forall k :: 0 <= k < n ==> init[k] == segments[k].text;
      init + [segments[n].text]
  }

  predicate IsMarkerLine(line: string) {
    StartsWith(line, "\n[")
  }

  /** The lines that satisfy, or fail, `IsMarkerLine`. */
  function FilterLines(lines: seq<string>, markers: bool): seq<string> {
    if lines == [] then []
    else
      var last := lines[|lines| - 1];
      FilterLines(lines[..|lines| - 1], markers) + (if IsMarkerLine(last) == markers then [last] else [])
  }

  lemma {:induction false} FilterLinesAppend(a: seq<string>, b: seq<string>, markers: bool)
    ensures FilterLines(a + b, markers) == FilterLines(a, markers) + FilterLines(b, markers)
    decreases |b|
  {
    if b == [] {
      assert a + b == a;
    } else {
      FilterLinesAppend(a, b[..|b| - 1], markers);
      assert (a + b)[..|a + b| - 1] == a + b[..|b| - 1];
    }
  }

  /**
   * When no segment text looks like a marker line (cleaned texts never start with a newline), the
   * marker lines of the output are exactly one per new start time, and the other lines are the
   * segment texts in order.
   */
  lemma {:induction false} PlainLinesSpec(segments: seq<Segment>)
    requires forall k :: 0 <= k < |segments| ==> !IsMarkerLine(segments[k].text)
    ensures FilterLines(PlainLines(segments), true) == Markers(segments)
    ensures FilterLines(PlainLines(segments), false) == Texts(segments)
  {
    if segments != [] {
      var n := |segments| - 1;
      var init := segments[..n];
      forall k | 0 <= k < n
        ensures !IsMarkerLine(init[k].text)
      {
        assert init[k] == segments[k];
      }
      PlainLinesSpec(init);
      PlainLinesStep(segments);
    }
  }

  /** One segment more: its marker, if any, joins the marker lines and its text the other lines. */
  lemma PlainLinesStep(segments: seq<Segment>)
    requires segments != [] && !IsMarkerLine(segments[|segments| - 1].text)
    ensures var n := |segments| - 1;
      var mark := if StartsNewTime(segments, n) then [StartMarker(segments[n].startTime)] else [];
      && FilterLines(PlainLines(segments), true) == FilterLines(PlainLines(segments[..n]), true) + mark
      && FilterLines(PlainLines(segments), false) == FilterLines(PlainLines(segments[..n]), false) + [segments[n].text]
  {
    var n := |segments| - 1;
    var mark := if StartsNewTime(segments, n) then [StartMarker(segments[n].startTime)] else [];
    MarkerLineShape(segments[n].startTime);
    FilterTail(PlainLines(segments[..n]), mark, segments[n].text, true);
    FilterTail(PlainLines(segments[..n]), mark, segments[n].text, false);
  }

  /** Every marker line is recognised as one. */
  lemma MarkerLineShape(startTime: string)
    ensures IsMarkerLine(StartMarker(startTime))
  {
    assert StartMarker(startTime)[..2] == "\n[";
  }

  /** Filtering the lines one segment adds: its marker, if any, and its text. */
  lemma FilterTail(prefix: seq<string>, mark: seq<string>, text: string, markers: bool)
    requires |mark| <= 1 && (forall m :: m in mark ==> IsMarkerLine(m)) && !IsMarkerLine(text)
    ensures FilterLines(prefix + mark + [text], markers) == FilterLines(prefix, markers) + (if markers then mark else [text])
  {
    FilterLinesAppend(prefix, mark + [text], markers);
    FilterLinesAppend(mark, [text], markers);
    assert prefix + mark + [text] == prefix + (mark + [text]);
    assert FilterLines([text], markers) == FilterLines([], markers) + (if markers then [] else [text]);
    if mark != [] {
      assert mark[..0] == [];
      assert FilterLines(mark, markers) == FilterLines([], markers) + (if markers then mark else []);
    }
  }

  /** `to_plain_text` before whitespace normalisation: tracks the last marked start time. */
  method ToPlainText(segments: seq<Segment>) returns (raw: string)
    ensures raw == Join("\n", PlainLines(segments))
  {
    var lines: seq<string> := [];
    var currentTime: Option<string> := None;
    for k := 0 to |segments|
      invariant lines == PlainLines(segments[..k])
      invariant currentTime == if k == 0 then None else Some(segments[k - 1].startTime)
    {
      assert segments[..k + 1][..k] == segments[..k];
      if currentTime != Some(segments[k].startTime) {
        lines := lines + [StartMarker(segments[k].startTime)];
        currentTime := Some(segments[k].startTime);
      }
      lines := lines + [segments[k].text];
    }
    assert segments[..|segments|] == segments;
    raw := Join("\n", lines);
  }
}
