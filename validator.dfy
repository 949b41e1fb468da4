/**
 * The rule-based checks run over cleaned chunk output: leftover filler words, prompt markers
 * copied into the output, malformed bracketed timestamps, over-truncation or expansion, and too
 * many questions.  The filler patterns are matched by an abstract matcher.
 */
module Validation {
  import opened Wrappers
  import opened Text
  import opened Chunking
  import opened LlmProcessing

  datatype Severity = Error | Warning | Info

  /** The enum's value, as `to_dict` writes it. */
  function SeverityValue(s: Severity): string {
    match s
    case Error => "error"
    case Warning => "warning"
    case Info => "info"
  }

  datatype Issue = Issue(severity: Severity, rule: string, message: string, chunkIndex: Option<int>, snippet: Option<string>)

  datatype ValidationResult = ValidationResult(issues: seq<Issue>)

  // ---------------------------------------------------------------------------------------
  // Aggregates of a result
  // ---------------------------------------------------------------------------------------

  /** Some issue has severity `s`. */
  predicate HasSeverity(issues: seq<Issue>, s: Severity) {
    exists k :: 0 <= k < |issues| && issues[k].severity == s
  }

  /** Number of issues with severity `s`. */
  function CountSeverity(issues: seq<Issue>, s: Severity): (n: nat)
    ensures n <= |issues|
  {
    if issues == [] then 0
    else CountSeverity(issues[..|issues| - 1], s) + (if issues[|issues| - 1].severity == s then 1 else 0)
  }

  /** The count is positive exactly when some issue has the severity. */
  lemma {:induction false} CountSeverityPositive(issues: seq<Issue>, s: Severity)
    ensures CountSeverity(issues, s) > 0 <==> HasSeverity(issues, s)
  {
    if issues != [] {
      var init := issues[..|issues| - 1];
      CountSeverityPositive(init, s);
      if HasSeverity(init, s) {
        var k :| 0 <= k < |init| && init[k].severity == s;
        assert issues[k].severity == s;
      }
      if HasSeverity(issues, s) && issues[|issues| - 1].severity != s {
        var k :| 0 <= k < |issues| && issues[k].severity == s;
        assert init[k].severity == s;
      }
    }
  }

  /** Counts add up over concatenation. */
  lemma {:induction false} CountSeverityAppend(a: seq<Issue>, b: seq<Issue>, s: Severity)
    ensures CountSeverity(a + b, s) == CountSeverity(a, s) + CountSeverity(b, s)
    decreases |b|
  {
    if b == [] {
      assert a + b == a;
    } else {
      var init := b[..|b| - 1];
      CountSeverityAppend(a, init, s);
      assert (a + b)[..|a + b| - 1] == a + init;
    }
  }

  predicate HasErrors(r: ValidationResult) {
    HasSeverity(r.issues, Error)
  }

  predicate HasWarnings(r: ValidationResult) {
    HasSeverity(r.issues, Warning)
  }

  function ErrorCount(r: ValidationResult): nat {
    CountSeverity(r.issues, Error)
  }

  function WarningCount(r: ValidationResult): nat {
    CountSeverity(r.issues, Warning)
  }

  /** `has_errors` iff `error_count > 0`, `has_warnings` iff `warning_count > 0`. */
  lemma ResultFlags(r: ValidationResult)
    ensures HasErrors(r) <==> ErrorCount(r) > 0
    ensures HasWarnings(r) <==> WarningCount(r) > 0
    ensures ErrorCount(r) + WarningCount(r) <= |r.issues|
  {
    CountSeverityPositive(r.issues, Error);
    CountSeverityPositive(r.issues, Warning);
    CountsBounded(r.issues);
  }

  /** Errors and warnings are disjoint, so together they never exceed the issues. */
  lemma {:induction false} CountsBounded(issues: seq<Issue>)
    ensures CountSeverity(issues, Error) + CountSeverity(issues, Warning) <= |issues|
  {
    if issues != [] {
      CountsBounded(issues[..|issues| - 1]);
    }
  }

  /** One entry of the `issues` list in `to_dict`. */
  datatype IssueEntry = IssueEntry(severity: string, rule: string, message: string, chunk: Option<int>, snippet: Option<string>)

  /** The dictionary `to_dict` returns. */
  datatype ResultDict = ResultDict(totalIssues: nat, errors: nat, warnings: nat, issues: seq<IssueEntry>)

  function ToDict(r: ValidationResult): (d: ResultDict)
    ensures d.totalIssues == |r.issues| && |d.issues| == |r.issues|
    ensures d.errors == ErrorCount(r) && d.warnings == WarningCount(r)
    ensures forall k :: 0 <= k < |r.issues| ==>
      && d.issues[k].severity == SeverityValue(r.issues[k].severity)
      && d.issues[k].rule == r.issues[k].rule
      && d.issues[k].chunk == r.issues[k].chunkIndex
  {
    ResultDict(|r.issues|, ErrorCount(r), WarningCount(r),
               seq(|r.issues|, k requires 0 <= k < |r.issues| =>
                 var i := r.issues[k];
                 IssueEntry(SeverityValue(i.severity), i.rule, i.message, i.chunkIndex, i.snippet)))
  }

  /** The dictionary's counts agree with the flags: errors exist iff `errors > 0`, and the counts fit in the total. */
  lemma ToDictCounts(r: ValidationResult)
    ensures var d := ToDict(r);
      && (HasErrors(r) <==> d.errors > 0)
      && (HasWarnings(r) <==> d.warnings > 0)
      && d.errors + d.warnings <= d.totalIssues
  {
    ResultFlags(r);
  }

  // ---------------------------------------------------------------------------------------
  // Filler words
  // ---------------------------------------------------------------------------------------

  /** The `FILLERS` regular expressions, in order. */
  const FillerPatterns: seq<string> := [
    "\\buh\\b", "\\bum\\b", "\\bah\\b", "\\ber\\b",
    "\\byou know\\b", "\\blike\\b(?!\\s+this|\\s+that)",
    "\\bokay\\b", "\\bso\\b(?=\\s*,)",
    "\\bbasically\\b", "\\bactually\\b", "\\breally\\b",
    "\\bthe thing is\\b", "\\bwhat I'm trying to say\\b"
  ]

  /** One match of `re.finditer`: its span in the lower-cased text and the matched text. */
  datatype FillerMatch = FillerMatch(start: nat, end: nat, group: string)

  /** `re.finditer(pattern, lowered, re.IGNORECASE)`, left abstract. */
  type FillerMatcher = (string, string) -> seq<FillerMatch>

  /** Python's `s[a:b]` for non-negative bounds: bounds clamp to the length, and an empty range gives "". */
  function PySlice(s: string, a: nat, b: nat): (r: string)
    ensures |r| <= |s|
  {
    var lo := if a < |s| then a else |s|;
    var hi := if b < |s| then b else |s|;
    if lo < hi then s[lo..hi] else ""
  }

  /** The warning for one filler match: 20 characters of context on each side, in the original casing. */
  function FillerIssue(text: string, chunkIndex: int, m: FillerMatch): Issue {
    var from := if m.start >= 20 then m.start - 20 else 0;
    var to := if m.end + 20 <= |text| then m.end + 20 else |text|;
    Issue(Warning, "filler_detected", "Possible filler word: '" + m.group + "'", Some(chunkIndex),
          Some("..." + PySlice(text, from, to) + "..."))
  }

  /** `matches[:3]`. */
  function FirstThree(ms: seq<FillerMatch>): (r: seq<FillerMatch>)
    ensures |r| <= 3 && (|ms| <= 3 ==> r == ms)
    ensures forall k :: 0 <= k < |r| ==> r[k] == ms[k]
  {
    if |ms| <= 3 then ms else ms[..3]
  }

  /** The warnings for a list of matches, in order. */
  function MatchIssues(text: string, chunkIndex: int, ms: seq<FillerMatch>): (r: seq<Issue>)
    ensures |r| == |ms|
  {
    if ms == [] then []
    else MatchIssues(text, chunkIndex, ms[..|ms| - 1]) + [FillerIssue(text, chunkIndex, ms[|ms| - 1])]
  }

  /** The filler warnings for the patterns `ps`, pattern by pattern. */
  function PatternIssues(text: string, chunkIndex: int, matcher: FillerMatcher, ps: seq<string>): seq<Issue> {
    if ps == [] then []
    else PatternIssues(text, chunkIndex, matcher, ps[..|ps| - 1])
         + MatchIssues(text, chunkIndex, FirstThree(matcher(ps[|ps| - 1], Lower(text))))
  }

  /** `_check_fillers`. */
  function FillerIssues(text: string, chunkIndex: int, matcher: FillerMatcher): seq<Issue> {
    PatternIssues(text, chunkIndex, matcher, FillerPatterns)
  }

  /** A filler warning, with a snippet wrapped in "...". */
  ghost predicate IsFillerWarning(i: Issue, chunkIndex: int) {
    && i.severity == Warning && i.rule == "filler_detected" && i.chunkIndex == Some(chunkIndex)
    && i.snippet.Some? && StartsWith(i.snippet.value, "...") && EndsWith(i.snippet.value, "...")
  }

  /** Every match issue is a filler warning. */
  lemma {:induction false} MatchIssuesSpec(text: string, chunkIndex: int, ms: seq<FillerMatch>)
    ensures forall i :: i in MatchIssues(text, chunkIndex, ms) ==> IsFillerWarning(i, chunkIndex)
  {
    if ms != [] {
      MatchIssuesSpec(text, chunkIndex, ms[..|ms| - 1]);
      var i := FillerIssue(text, chunkIndex, ms[|ms| - 1]);
      var sn := i.snippet.value;
      assert sn[..3] == "...";
      assert sn[|sn| - 3..] == "...";
    }
  }

  /**
   * Each further pattern adds, after the warnings of the patterns before it, one warning for each
   * of its first three matches: at most three, and fewer only when it matches fewer times.
   */
  lemma PatternAddsFirstThree(text: string, chunkIndex: int, matcher: FillerMatcher, ps: seq<string>, p: string)
    ensures var ms := matcher(p, Lower(text));
      var before := PatternIssues(text, chunkIndex, matcher, ps);
      var after := PatternIssues(text, chunkIndex, matcher, ps + [p]);
      && after[..|before|] == before
      && |after| - |before| == (if |ms| <= 3 then |ms| else 3)
  {
    var qs := ps + [p];
    assert qs[..|qs| - 1] == ps && qs[|qs| - 1] == p;
  }

  /** At most three warnings per pattern in all, and every one is a filler warning. */
  lemma {:induction false} PatternIssuesSpec(text: string, chunkIndex: int, matcher: FillerMatcher, ps: seq<string>)
    ensures |PatternIssues(text, chunkIndex, matcher, ps)| <= 3 * |ps|
    ensures forall i :: i in PatternIssues(text, chunkIndex, matcher, ps) ==> IsFillerWarning(i, chunkIndex)
  {
    if ps != [] {
      PatternIssuesSpec(text, chunkIndex, matcher, ps[..|ps| - 1]);
      MatchIssuesSpec(text, chunkIndex, FirstThree(matcher(ps[|ps| - 1], Lower(text))));
    }
  }

  /** Without any match there is no filler warning. */
  lemma {:induction false} NoMatchesNoFillers(text: string, chunkIndex: int, matcher: FillerMatcher, ps: seq<string>)
    requires forall p :: p in ps ==> matcher(p, Lower(text)) == []
    ensures PatternIssues(text, chunkIndex, matcher, ps) == []
  {
    if ps != [] {
      NoMatchesNoFillers(text, chunkIndex, matcher, ps[..|ps| - 1]);
    }
  }

  /** The inner loop of `_check_fillers`: a warning for each match, in order. */
  method ReportMatches(text: string, chunkIndex: int, matches: seq<FillerMatch>) returns (issues: seq<Issue>)
    ensures issues == MatchIssues(text, chunkIndex, matches)
  {
    issues := [];
    for k := 0 to |matches|
      invariant issues == MatchIssues(text, chunkIndex, matches[..k])
    {
      assert matches[..k + 1][..k] == matches[..k];
      issues := issues + [FillerIssue(text, chunkIndex, matches[k])];
    }
    assert matches[..|matches|] == matches;
  }

  /** `_check_fillers`: for each pattern, a warning for each of its first three matches. */
  method CheckFillers(text: string, chunkIndex: int, matcher: FillerMatcher) returns (issues: seq<Issue>)
    ensures issues == FillerIssues(text, chunkIndex, matcher)
  {
    var lowered := Lower(text);
    issues := [];
    for p := 0 to |FillerPatterns|
      invariant issues == PatternIssues(text, chunkIndex, matcher, FillerPatterns[..p])
    {
      var found := ReportMatches(text, chunkIndex, FirstThree(matcher(FillerPatterns[p], lowered)));
      issues := issues + found;
      assert FillerPatterns[..p + 1][..p] == FillerPatterns[..p];
    }
    assert FillerPatterns[..|FillerPatterns|] == FillerPatterns;
  }

  // ---------------------------------------------------------------------------------------
  // Prompt markers in the output
  // ---------------------------------------------------------------------------------------

  /** A prompt marker: the literal text and the escaped regular expression that finds it. */
  datatype Marker = Marker(literal: string, pattern: string)

  const VideoInfoMarker: string := "[VIDEO INFO]"
  const TranscriptMarker: string := "[TRANSCRIPT TO PROCESS]"

  /** `CONTEXT_MARKERS`, in order. */
  const ContextMarkers: seq<Marker> := [
    Marker(ContextMarker, "\\[CONTEXT FROM PREVIOUS SECTION\\]"),
    Marker(NewContentMarker, "\\[NEW CONTENT TO PROCESS\\]"),
    Marker(VideoInfoMarker, "\\[VIDEO INFO\\]"),
    Marker(TranscriptMarker, "\\[TRANSCRIPT TO PROCESS\\]")
  ]

  /** The error for a marker found in the output; the message quotes the pattern. */
  function MarkerIssue(m: Marker, chunkIndex: int): Issue {
    Issue(Error, MarkerRule, "Context marker found in output: " + m.pattern, Some(chunkIndex), None)
  }

  /** One error per marker in `ms` that occurs in `text`, in marker order. */
  function MarkerIssuesOf(text: string, chunkIndex: int, ms: seq<Marker>): seq<Issue> {
    if ms == [] then []
    else
      var m := ms[|ms| - 1];
      MarkerIssuesOf(text, chunkIndex, ms[..|ms| - 1]) + (if Contains(text, m.literal) then [MarkerIssue(m, chunkIndex)] else [])
  }

  /** `_check_context_markers`. */
  function MarkerIssues(text: string, chunkIndex: int): seq<Issue> {
    MarkerIssuesOf(text, chunkIndex, ContextMarkers)
  }

  ghost predicate DistinctPatterns(ms: seq<Marker>) {
    forall i, j :: 0 <= i < j < |ms| ==> ms[i].pattern != ms[j].pattern
  }

  /** Errors for markers with different patterns differ. */
  lemma MarkerIssueInjective(a: Marker, b: Marker, chunkIndex: int)
    requires a.pattern != b.pattern
    ensures MarkerIssue(a, chunkIndex) != MarkerIssue(b, chunkIndex)
  {
    assert ("Context marker found in output: " + a.pattern)[32..] == a.pattern;
    assert ("Context marker found in output: " + b.pattern)[32..] == b.pattern;
  }

  /** Every error reported is the error of some marker in `ms` that occurs in the text. */
  lemma {:induction false} MarkerIssuesFound(text: string, chunkIndex: int, ms: seq<Marker>)
    ensures forall i :: i in MarkerIssuesOf(text, chunkIndex, ms) ==>
      exists k :: 0 <= k < |ms| && Contains(text, ms[k].literal) && i == MarkerIssue(ms[k], chunkIndex)
  {
    if ms != [] {
      var init := ms[..|ms| - 1];
      MarkerIssuesFound(text, chunkIndex, init);
      forall i | i in MarkerIssuesOf(text, chunkIndex, ms)
        ensures exists k :: 0 <= k < |ms| && Contains(text, ms[k].literal) && i == MarkerIssue(ms[k], chunkIndex)
      {
        if i in MarkerIssuesOf(text, chunkIndex, init) {
          var k :| 0 <= k < |init| && Contains(text, init[k].literal) && i == MarkerIssue(init[k], chunkIndex);
          assert ms[k] == init[k];
        }
      }
    }
  }

  /** Markers with distinct patterns: each marker present yields exactly one error, an absent one none. */
  lemma {:induction false} MarkerIssuesCount(text: string, chunkIndex: int, ms: seq<Marker>)
    requires DistinctPatterns(ms)
    ensures forall k :: 0 <= k < |ms| ==>
      multiset(MarkerIssuesOf(text, chunkIndex, ms))[MarkerIssue(ms[k], chunkIndex)]
        == if Contains(text, ms[k].literal) then 1 else 0
  {
    if ms != [] {
      var init := ms[..|ms| - 1];
      var m := ms[|ms| - 1];
      var before := MarkerIssuesOf(text, chunkIndex, init);
      MarkerIssuesCount(text, chunkIndex, init);
      MarkerIssuesFound(text, chunkIndex, init);
      forall k | 0 <= k < |ms|
        ensures multiset(MarkerIssuesOf(text, chunkIndex, ms))[MarkerIssue(ms[k], chunkIndex)]
          == if Contains(text, ms[k].literal) then 1 else 0
      {
        if k < |ms| - 1 {
          assert init[k] == ms[k];
          MarkerIssueInjective(ms[k], m, chunkIndex);
        } else {
          forall j | 0 <= j < |init|
            ensures MarkerIssue(init[j], chunkIndex) != MarkerIssue(m, chunkIndex)
          {
            assert init[j] == ms[j];
            MarkerIssueInjective(init[j], m, chunkIndex);
          }
          assert MarkerIssue(m, chunkIndex) !in before;
        }
      }
    }
  }

  /** Each of the four markers present in the cleaned text yields exactly one error; nothing else is reported. */
  lemma MarkerIssuesSpec(text: string, chunkIndex: int)
    ensures forall k :: 0 <= k < |ContextMarkers| ==>
      multiset(MarkerIssues(text, chunkIndex))[MarkerIssue(ContextMarkers[k], chunkIndex)]
        == if Contains(text, ContextMarkers[k].literal) then 1 else 0
    ensures forall i :: i in MarkerIssues(text, chunkIndex) ==>
      i.severity == Error && i.rule == MarkerRule
      && exists k :: 0 <= k < |ContextMarkers| && Contains(text, ContextMarkers[k].literal)
  {
    assert DistinctPatterns(ContextMarkers) by {
      forall i, j | 0 <= i < j < |ContextMarkers|
        ensures ContextMarkers[i].pattern != ContextMarkers[j].pattern
      {
        assert |ContextMarkers[i].pattern| != |ContextMarkers[j].pattern|;
      }
    }
    MarkerIssuesCount(text, chunkIndex, ContextMarkers);
    MarkerIssuesFound(text, chunkIndex, ContextMarkers);
  }

  /** `_check_context_markers`: one error per marker found, in marker order. */
  method CheckContextMarkers(text: string, chunkIndex: int) returns (issues: seq<Issue>)
    ensures issues == MarkerIssues(text, chunkIndex)
  {
    issues := [];
    for k := 0 to |ContextMarkers|
      invariant issues == MarkerIssuesOf(text, chunkIndex, ContextMarkers[..k])
    {
      assert ContextMarkers[..k + 1][..k] == ContextMarkers[..k];
      if Contains(text, ContextMarkers[k].literal) {
        issues := issues + [MarkerIssue(ContextMarkers[k], chunkIndex)];
      }
    }
    assert ContextMarkers[..|ContextMarkers|] == ContextMarkers;
  }

  // ---------------------------------------------------------------------------------------
  // Bracketed timestamps
  // ---------------------------------------------------------------------------------------

  /** A character of the class `[\d:\.]`. */
  predicate IsStampChar(c: char) {
    IsDigit(c) || c == ':' || c == '.'
  }

  /** The end of the run of stamp characters starting at `k`. */
  function StampRunEnd(s: string, k: nat): (e: nat)
    requires k <= |s|
    ensures k <= e <= |s|
    ensures forall j :: k <= j < e ==> IsStampChar(s[j])
    ensures e < |s| ==> !IsStampChar(s[e])
    decreases |s| - k
  {
    if k < |s| && IsStampChar(s[k]) then StampRunEnd(s, k + 1) else k
  }

  /** `re.findall(r"\[[\d:\.]+\]", s[i..])`: leftmost, non-overlapping. */
  function BracketTokensFrom(s: string, i: nat): seq<string>
    requires i <= |s|
    decreases |s| - i
  {
    if i == |s| then []
    else if s[i] == '[' && i + 1 < |s| then
      var e := StampRunEnd(s, i + 1);
      if e > i + 1 && e < |s| && s[e] == ']' then [s[i..e + 1]] + BracketTokensFrom(s, e + 1)
      else BracketTokensFrom(s, i + 1)
    else BracketTokensFrom(s, i + 1)
  }

  function BracketTokens(s: string): seq<string> {
    BracketTokensFrom(s, 0)
  }

  /** A bracketed token: '[', one or more stamp characters, ']'. */
  ghost predicate IsBracketToken(t: string) {
    && |t| >= 3 && t[0] == '[' && t[|t| - 1] == ']'
    && forall k :: 1 <= k < |t| - 1 ==> IsStampChar(t[k])
  }

  /** Every token found is a bracketed token occurring in the text. */
  lemma {:induction false} BracketTokensSpec(s: string, i: nat)
    requires i <= |s|
    ensures forall t :: t in BracketTokensFrom(s, i) ==> IsBracketToken(t) && exists p :: OccursAt(s, t, p)
    decreases |s| - i
  {
    if i < |s| {
      if s[i] == '[' && i + 1 < |s| {
        var e := StampRunEnd(s, i + 1);
        if e > i + 1 && e < |s| && s[e] == ']' {
          BracketTokensSpec(s, e + 1);
          assert OccursAt(s, s[i..e + 1], i);
        } else {
          BracketTokensSpec(s, i + 1);
        }
      } else {
        BracketTokensSpec(s, i + 1);
      }
    }
  }

  predicate TwoDigitsAt(t: string, k: nat) {
    k + 1 < |t| && IsDigit(t[k]) && IsDigit(t[k + 1])
  }

  /** `[dd:dd:dd]` at the start of `t`. */
  predicate LongStampPrefix(t: string) {
    |t| >= 10 && t[0] == '[' && TwoDigitsAt(t, 1) && t[3] == ':' && TwoDigitsAt(t, 4) && t[6] == ':'
    && TwoDigitsAt(t, 7) && t[9] == ']'
  }

  /** `[dd:dd]` at the start of `t`. */
  predicate ShortStampPrefix(t: string) {
    |t| >= 7 && t[0] == '[' && TwoDigitsAt(t, 1) && t[3] == ':' && TwoDigitsAt(t, 4) && t[6] == ']'
  }

  /** `re.match(r"\[\d{2}:\d{2}:\d{2}\]|\[\d{2}:\d{2}\]", t)`: anchored at the start only. */
  predicate WellFormedStamp(t: string) {
    LongStampPrefix(t) || ShortStampPrefix(t)
  }

  /**
   * For a bracketed token the start-anchored match is an exact match: the token is accepted iff
   * it is exactly `[dd:dd:dd]` or `[dd:dd]`.
   */
  lemma WellFormedStampExact(t: string)
    requires IsBracketToken(t)
    ensures WellFormedStamp(t) <==> (|t| == 10 && LongStampPrefix(t)) || (|t| == 7 && ShortStampPrefix(t))
  {
  }

  function StampIssue(t: string, chunkIndex: int): Issue {
    Issue(Warning, "invalid_timestamp_format", "Invalid timestamp format: " + t, Some(chunkIndex), None)
  }

  /** One warning per malformed token, in order. */
  function StampIssuesOf(ts: seq<string>, chunkIndex: int): seq<Issue> {
    if ts == [] then []
    else
      var t := ts[|ts| - 1];
      StampIssuesOf(ts[..|ts| - 1], chunkIndex) + (if WellFormedStamp(t) then [] else [StampIssue(t, chunkIndex)])
  }

  /** `_check_timestamp_format`. */
  function StampIssues(text: string, chunkIndex: int): seq<Issue> {
    StampIssuesOf(BracketTokens(text), chunkIndex)
  }

  /** The warnings are exactly those for the malformed tokens. */
  lemma {:induction false} StampIssuesOfSpec(ts: seq<string>, chunkIndex: int)
    ensures forall i :: i in StampIssuesOf(ts, chunkIndex) <==>
      exists t :: t in ts && !WellFormedStamp(t) && i == StampIssue(t, chunkIndex)
  {
    if ts != [] {
      var init := ts[..|ts| - 1];
      StampIssuesOfSpec(init, chunkIndex);
      assert ts == init + [ts[|ts| - 1]];
    }
  }

  /**
   * `_check_timestamp_format` warns, once per occurrence, about bracketed stamp tokens that are
   * not exactly `[dd:dd:dd]` or `[dd:dd]`.
   */
  lemma StampIssuesSpec(text: string, chunkIndex: int)
    ensures forall i :: i in StampIssues(text, chunkIndex) <==>
      exists t :: t in BracketTokens(text) && !WellFormedStamp(t) && i == StampIssue(t, chunkIndex)
    ensures forall t :: t in BracketTokens(text) ==>
      && IsBracketToken(t)
      && (WellFormedStamp(t) <==> (|t| == 10 && LongStampPrefix(t)) || (|t| == 7 && ShortStampPrefix(t)))
  {
    StampIssuesOfSpec(BracketTokens(text), chunkIndex);
    BracketTokensSpec(text, 0);
    forall t | t in BracketTokens(text)
      ensures WellFormedStamp(t) <==> (|t| == 10 && LongStampPrefix(t)) || (|t| == 7 && ShortStampPrefix(t))
    {
      WellFormedStampExact(t);
    }
  }

  /** `_check_timestamp_format`: one warning per malformed token, in order. */
  method CheckTimestampFormat(text: string, chunkIndex: int) returns (issues: seq<Issue>)
    ensures issues == StampIssues(text, chunkIndex)
  {
    var tokens := BracketTokens(text);
    issues := [];
    for k := 0 to |tokens|
      invariant issues == StampIssuesOf(tokens[..k], chunkIndex)
    {
      assert tokens[..k + 1][..k] == tokens[..k];
      if !WellFormedStamp(tokens[k]) {
        issues := issues + [StampIssue(tokens[k], chunkIndex)];
      }
    }
    assert tokens[..|tokens|] == tokens;
  }

  // ---------------------------------------------------------------------------------------
  // Content length
  // ---------------------------------------------------------------------------------------

  /** `cleaned_len / original_len`, or 0 for an empty original. */
  function Ratio(originalLen: nat, cleanedLen: nat): real {
    if originalLen > 0 then cleanedLen as real / originalLen as real else 0.0
  }

  /** The ratio as a whole percentage, rounded half to even (the `.0%` format). */
  function RoundedPercent(originalLen: nat, cleanedLen: nat): nat {
    if originalLen == 0 then 0
    else
      var q := (100 * cleanedLen) / originalLen;
      var r := (100 * cleanedLen) % originalLen;
      if 2 * r > originalLen || (2 * r == originalLen && q % 2 == 1) then q + 1 else q
  }

  /** The rounded percentage is within half a percent of the exact ratio. */
  lemma RoundedPercentSpec(originalLen: nat, cleanedLen: nat)
    requires originalLen > 0
    ensures var p := RoundedPercent(originalLen, cleanedLen);
      && 2 * (p * originalLen - 100 * cleanedLen) <= originalLen
      && 2 * (100 * cleanedLen - p * originalLen) <= originalLen
  {
    var q := (100 * cleanedLen) / originalLen;
    var r := (100 * cleanedLen) % originalLen;
    assert 100 * cleanedLen == q * originalLen + r;
    assert (q + 1) * originalLen == q * originalLen + originalLen;
  }

  /** `_check_content_length`. */
  function LengthIssues(original: string, cleaned: string, chunkIndex: int): seq<Issue> {
    var ratio := Ratio(|original|, |cleaned|);
    var percent := NatToDecimal(RoundedPercent(|original|, |cleaned|));
    if ratio < 0.3 then
      [Issue(Warning, "excessive_truncation",
             "Output too short (" + percent + "% of original). May have lost content.", Some(chunkIndex), None)]
    else if ratio > 1.2 then
      [Issue(Warning, "content_expansion",
             "Output longer than original (" + percent + "%). LLM may have added content.", Some(chunkIndex), None)]
    else []
  }

  /** The thresholds in integers: below 3/10 of the original, or above 12/10 of it. */
  lemma RatioThresholds(o: nat, c: nat)
    requires o > 0
    ensures Ratio(o, c) < 0.3 <==> 10 * c < 3 * o
    ensures Ratio(o, c) > 1.2 <==> 10 * c > 12 * o
  {
    var cr, or := c as real, o as real;
    DivCompare(cr, or, 0.3);
    ScaleLess(cr, 0.3 * or, 10.0);
    ScaleLess(1.2 * or, cr, 10.0);
    assert (10 * c) as real == cr * 10.0;
    assert (3 * o) as real == 0.3 * or * 10.0;
    assert (12 * o) as real == 1.2 * or * 10.0;
    DivCompare(cr, or, 1.2);
  }

  /** Comparing a quotient is comparing the dividend with the scaled bound. */
  lemma DivCompare(c: real, o: real, x: real)
    requires o > 0.0
    ensures c / o < x <==> c < x * o
    ensures c / o > x <==> c > x * o
  {
    ScaleLess(c / o, x, o);
    ScaleLess(x, c / o, o);
    assert c / o * o == c;
  }

  /** Multiplying by a positive factor keeps a strict order. */
  lemma ScaleLess(x: real, y: real, k: real)
    requires k > 0.0
    ensures x < y <==> x * k < y * k
  {
    if x < y {
      assert (y - x) * k > 0.0;
    }
    if x * k < y * k {
      assert (y - x) * k > 0.0;
    }
  }

  /**
   * At most one length warning: truncation iff the original is empty or the output is under 3/10
   * of it, expansion iff the output is over 12/10 of a non-empty original.
   */
  lemma LengthIssuesSpec(original: string, cleaned: string, chunkIndex: int)
    ensures var r := LengthIssues(original, cleaned, chunkIndex);
      && |r| <= 1
      && (forall i :: i in r ==> i.severity == Warning)
      && ((|r| == 1 && r[0].rule == "excessive_truncation") <==> (|original| == 0 || 10 * |cleaned| < 3 * |original|))
      && ((|r| == 1 && r[0].rule == "content_expansion") <==> (|original| > 0 && 10 * |cleaned| > 12 * |original|))
  {
    if |original| > 0 {
      RatioThresholds(|original|, |cleaned|);
    }
  }

  // ---------------------------------------------------------------------------------------
  // Questions
  // ---------------------------------------------------------------------------------------

  predicate IsTerminator(c: char) {
    c == '.' || c == '!' || c == '?'
  }

  /** The first position at or after `i` holding a terminator, or the end. */
  function TerminatorFrom(s: string, i: nat): (j: nat)
    requires i <= |s|
    ensures i <= j <= |s|
    ensures forall k :: i <= k < j ==> !IsTerminator(s[k])
    ensures j < |s| ==> IsTerminator(s[j])
    decreases |s| - i
  {
    if i == |s| || IsTerminator(s[i]) then i else TerminatorFrom(s, i + 1)
  }

  /** `re.findall(r"[^.!?]*\?", s[i..])`: leftmost, non-overlapping. */
  function QuestionMatchesFrom(s: string, i: nat): seq<string>
    requires i <= |s|
    decreases |s| - i
  {
    if i == |s| then []
    else
      var j := TerminatorFrom(s, i);
      if j < |s| && s[j] == '?' then [s[i..j + 1]] + QuestionMatchesFrom(s, j + 1)
      else QuestionMatchesFrom(s, i + 1)
  }

  /** Number of occurrences of `c` in `s[i..]`. */
  function OccurrencesFrom(s: string, c: char, i: nat): nat
    requires i <= |s|
    decreases |s| - i
  {
    if i == |s| then 0 else (if s[i] == c then 1 else 0) + OccurrencesFrom(s, c, i + 1)
  }

  /** A stretch without any terminator holds no '?'. */
  lemma {:induction false} NoTerminatorNoQuestion(s: string, i: nat, j: nat)
    requires i <= j <= |s|
    requires forall k :: i <= k < j ==> !IsTerminator(s[k])
    ensures OccurrencesFrom(s, '?', i) == OccurrencesFrom(s, '?', j)
    decreases j - i
  {
    if i < j {
      NoTerminatorNoQuestion(s, i + 1, j);
    }
  }

  /** Each match ends at exactly one '?', and every '?' ends a match. */
  lemma {:induction false} QuestionMatchesCount(s: string, i: nat)
    requires i <= |s|
    ensures |QuestionMatchesFrom(s, i)| == OccurrencesFrom(s, '?', i)
    decreases |s| - i
  {
    if i < |s| {
      var j := TerminatorFrom(s, i);
      NoTerminatorNoQuestion(s, i, j);
      if j < |s| && s[j] == '?' {
        QuestionMatchesCount(s, j + 1);
      } else {
        QuestionMatchesCount(s, i + 1);
        assert s[i] != '?';
      }
    }
  }

  /** `_check_questions`. */
  function QuestionIssues(text: string, chunkIndex: int): seq<Issue> {
    var n := |QuestionMatchesFrom(text, 0)|;
    if n > 2 then
      [Issue(Info, "many_questions", "Found " + NatToDecimal(n) + " questions. Consider if they should be statements.",
             Some(chunkIndex), None)]
    else []
  }

  /** One informational issue iff the text holds more than two '?' characters. */
  lemma QuestionIssuesSpec(text: string, chunkIndex: int)
    ensures var r := QuestionIssues(text, chunkIndex);
      && |r| == (if OccurrencesFrom(text, '?', 0) > 2 then 1 else 0)
      && forall i :: i in r ==> i.severity == Info && i.rule == "many_questions"
  {
    QuestionMatchesCount(text, 0);
  }

  // ---------------------------------------------------------------------------------------
  // A chunk and all chunks
  // ---------------------------------------------------------------------------------------

  /** `validate_chunk`: fillers, markers, timestamps, length, questions, in that order. */
  function ChunkIssues(original: string, cleaned: string, chunkIndex: int, matcher: FillerMatcher): seq<Issue> {
    FillerIssues(cleaned, chunkIndex, matcher) + MarkerIssues(cleaned, chunkIndex) + StampIssues(cleaned, chunkIndex)
    + LengthIssues(original, cleaned, chunkIndex) + QuestionIssues(cleaned, chunkIndex)
  }

  /** `validate_chunk`. */
  method ValidateChunk(original: string, cleaned: string, chunkIndex: int, matcher: FillerMatcher)
    returns (issues: seq<Issue>)
    ensures issues == ChunkIssues(original, cleaned, chunkIndex, matcher)
  {
    var fillers := CheckFillers(cleaned, chunkIndex, matcher);
    var markers := CheckContextMarkers(cleaned, chunkIndex);
    var stamps := CheckTimestampFormat(cleaned, chunkIndex);
    issues := fillers + markers + stamps + LengthIssues(original, cleaned, chunkIndex) + QuestionIssues(cleaned, chunkIndex);
  }

  const MarkerRule := "context_marker_in_output"

  /** Every issue carries the chunk's index. */
  ghost predicate Tagged(r: seq<Issue>, chunkIndex: int) {
    forall i :: i in r ==> i.chunkIndex == Some(chunkIndex)
  }

  /** Issues of a non-marker rule: tagged, and none an error or a marker finding. */
  ghost predicate PlainIssues(r: seq<Issue>, chunkIndex: int) {
    forall i :: i in r ==> i.chunkIndex == Some(chunkIndex) && i.severity != Error && i.rule != MarkerRule
  }

  /** Marker findings: tagged errors of the marker rule. */
  ghost predicate MarkerErrors(r: seq<Issue>, chunkIndex: int) {
    forall i :: i in r ==> i.chunkIndex == Some(chunkIndex) && i.severity == Error && i.rule == MarkerRule
  }

  /** Errors are exactly the marker findings. */
  ghost predicate ErrorsAreMarkers(r: seq<Issue>) {
    forall i :: i in r ==> (i.severity == Error <==> i.rule == MarkerRule)
  }

  /** One of the four markers occurs in the text. */
  ghost predicate MarkerPresent(text: string) {
    exists k :: 0 <= k < |ContextMarkers| && Contains(text, ContextMarkers[k].literal)
  }

  lemma FillerPart(cleaned: string, chunkIndex: int, matcher: FillerMatcher)
    ensures PlainIssues(FillerIssues(cleaned, chunkIndex, matcher), chunkIndex)
  {
    PatternIssuesSpec(cleaned, chunkIndex, matcher, FillerPatterns);
  }

  lemma MarkerPart(cleaned: string, chunkIndex: int)
    ensures MarkerErrors(MarkerIssues(cleaned, chunkIndex), chunkIndex)
    ensures MarkerIssues(cleaned, chunkIndex) != [] <==> MarkerPresent(cleaned)
  {
    var m := MarkerIssues(cleaned, chunkIndex);
    MarkerIssuesSpec(cleaned, chunkIndex);
    MarkerIssuesFound(cleaned, chunkIndex, ContextMarkers);
    forall i | i in m
      ensures i.chunkIndex == Some(chunkIndex) && i.severity == Error && i.rule == MarkerRule
    {
      var k :| 0 <= k < |ContextMarkers| && Contains(cleaned, ContextMarkers[k].literal) && i == MarkerIssue(ContextMarkers[k], chunkIndex);
    }
    if MarkerPresent(cleaned) {
      var k :| 0 <= k < |ContextMarkers| && Contains(cleaned, ContextMarkers[k].literal);
      assert MarkerIssue(ContextMarkers[k], chunkIndex) in multiset(m);
    }
    if m != [] {
      assert m[0] in m;
    }
  }

  lemma StampPart(cleaned: string, chunkIndex: int)
    ensures PlainIssues(StampIssues(cleaned, chunkIndex), chunkIndex)
  {
    StampIssuesOfSpec(BracketTokens(cleaned), chunkIndex);
    forall i: Issue | i in StampIssues(cleaned, chunkIndex)
      ensures i.chunkIndex == Some(chunkIndex) && i.severity != Error && i.rule != MarkerRule
    {
      var t :| t in BracketTokens(cleaned) && !WellFormedStamp(t) && i == StampIssue(t, chunkIndex);
    }
  }

  lemma LengthPart(original: string, cleaned: string, chunkIndex: int)
    ensures PlainIssues(LengthIssues(original, cleaned, chunkIndex), chunkIndex)
  {
  }

  lemma QuestionPart(cleaned: string, chunkIndex: int)
    ensures PlainIssues(QuestionIssues(cleaned, chunkIndex), chunkIndex)
  {
  }

  /** Five issue lists, only the second of them marker errors: errors are exactly that part. */
  lemma FiveParts(f: seq<Issue>, m: seq<Issue>, t: seq<Issue>, l: seq<Issue>, q: seq<Issue>, chunkIndex: int)
    requires PlainIssues(f, chunkIndex) && MarkerErrors(m, chunkIndex)
    requires PlainIssues(t, chunkIndex) && PlainIssues(l, chunkIndex) && PlainIssues(q, chunkIndex)
    ensures Tagged(f + m + t + l + q, chunkIndex)
    ensures ErrorsAreMarkers(f + m + t + l + q)
    ensures HasSeverity(f + m + t + l + q, Error) <==> m != []
  {
    var r := f + m + t + l + q;
    if m != [] {
      assert r[|f|] == m[0];
    }
    if HasSeverity(r, Error) {
      var p :| 0 <= p < |r| && r[p].severity == Error;
      assert r[p] in r;
    }
  }

  /**
   * Within a chunk, errors are exactly the marker findings: every issue carries the chunk's index,
   * and the chunk has an error iff one of the four markers occurs in the cleaned text.
   */
  lemma ChunkIssuesSpec(original: string, cleaned: string, chunkIndex: int, matcher: FillerMatcher)
    ensures Tagged(ChunkIssues(original, cleaned, chunkIndex, matcher), chunkIndex)
    ensures ErrorsAreMarkers(ChunkIssues(original, cleaned, chunkIndex, matcher))
    ensures HasSeverity(ChunkIssues(original, cleaned, chunkIndex, matcher), Error) <==> MarkerPresent(cleaned)
  {
    FillerPart(cleaned, chunkIndex, matcher);
    MarkerPart(cleaned, chunkIndex);
    StampPart(cleaned, chunkIndex);
    LengthPart(original, cleaned, chunkIndex);
    QuestionPart(cleaned, chunkIndex);
    FiveParts(FillerIssues(cleaned, chunkIndex, matcher), MarkerIssues(cleaned, chunkIndex), StampIssues(cleaned, chunkIndex),
              LengthIssues(original, cleaned, chunkIndex), QuestionIssues(cleaned, chunkIndex), chunkIndex);
  }

  /** The lists `f(x)` concatenated in the order of `xs`. */
  function Concat<T>(xs: seq<T>, f: T -> seq<Issue>): seq<Issue> {
    if xs == [] then [] else Concat(xs[..|xs| - 1], f) + f(xs[|xs| - 1])
  }

  /** Concatenating over a concatenation is concatenating the parts. */
  lemma {:induction false} ConcatAppend<T>(a: seq<T>, b: seq<T>, f: T -> seq<Issue>)
    ensures Concat(a + b, f) == Concat(a, f) + Concat(b, f)
    decreases |b|
  {
    if b == [] {
      assert a + b == a;
    } else {
      var init, last := b[..|b| - 1], b[|b| - 1];
      ConcatAppend(a, init, f);
      assert (a + b)[..|a + b| - 1] == a + init && (a + b)[|a + b| - 1] == last;
      assert Concat(a + b, f) == Concat(a + init, f) + f(last);
      assert Concat(b, f) == Concat(init, f) + f(last);
      assert (Concat(a, f) + Concat(init, f)) + f(last) == Concat(a, f) + (Concat(init, f) + f(last));
    }
  }

  /** Each issue of the concatenation comes from one element's list. */
  lemma {:induction false} ConcatFrom<T>(xs: seq<T>, f: T -> seq<Issue>)
    ensures forall i :: i in Concat(xs, f) ==> exists k :: 0 <= k < |xs| && i in f(xs[k])
  {
    if xs != [] {
      var init := xs[..|xs| - 1];
      ConcatFrom(init, f);
      forall i | i in Concat(xs, f)
        ensures exists k :: 0 <= k < |xs| && i in f(xs[k])
      {
        if i in Concat(init, f) {
          var k :| 0 <= k < |init| && i in f(init[k]);
          assert xs[k] == init[k];
        } else {
          assert i in f(xs[|xs| - 1]);
        }
      }
    }
  }

  /** A severity occurs in the concatenation iff it occurs in some element's list. */
  lemma {:induction false} ConcatSeverity<T>(xs: seq<T>, f: T -> seq<Issue>, s: Severity)
    ensures HasSeverity(Concat(xs, f), s) <==> exists k :: 0 <= k < |xs| && HasSeverity(f(xs[k]), s)
  {
    if xs != [] {
      var init := xs[..|xs| - 1];
      ConcatSeverity(init, f, s);
      SeverityAppend(Concat(init, f), f(xs[|xs| - 1]), s);
      if exists k :: 0 <= k < |init| && HasSeverity(f(init[k]), s) {
        var k :| 0 <= k < |init| && HasSeverity(f(init[k]), s);
        assert xs[k] == init[k];
      }
      if exists k :: 0 <= k < |xs| && HasSeverity(f(xs[k]), s) {
        var k :| 0 <= k < |xs| && HasSeverity(f(xs[k]), s);
        if k < |init| {
          assert init[k] == xs[k];
        }
      }
    }
  }

  /** `validate_all`'s issues: the chunks' issues concatenated in chunk order. */
  function AllIssues(chunks: seq<ProcessedChunk>, matcher: FillerMatcher): seq<Issue> {
    Concat(chunks, (c: ProcessedChunk) => ChunkIssues(c.originalText, c.cleanedText, c.chunkIndex, matcher))
  }

  /** One more chunk appends its issues. */
  lemma AllIssuesStep(chunks: seq<ProcessedChunk>, k: nat, matcher: FillerMatcher)
    requires k < |chunks|
    ensures AllIssues(chunks[..k + 1], matcher)
      == AllIssues(chunks[..k], matcher) + ChunkIssues(chunks[k].originalText, chunks[k].cleanedText, chunks[k].chunkIndex, matcher)
  {
    assert chunks[..k + 1][..k] == chunks[..k];
  }

  /** `validate_all`: extends the result with each chunk's issues in order. */
  method ValidateAll(chunks: seq<ProcessedChunk>, matcher: FillerMatcher) returns (result: ValidationResult)
    ensures result.issues == AllIssues(chunks, matcher)
  {
    result := ValidationResult([]);
    for k := 0 to |chunks|
      invariant result.issues == AllIssues(chunks[..k], matcher)
    {
      var c := chunks[k];
      var issues := ValidateChunk(c.originalText, c.cleanedText, c.chunkIndex, matcher);
      AllIssuesStep(chunks, k, matcher);
      result := result.(issues := result.issues + issues);
    }
    assert chunks[..|chunks|] == chunks;
  }

  /** Validating a concatenation is concatenating the validations: chunk order is issue order. */
  lemma AllIssuesAppend(a: seq<ProcessedChunk>, b: seq<ProcessedChunk>, matcher: FillerMatcher)
    ensures AllIssues(a + b, matcher) == AllIssues(a, matcher) + AllIssues(b, matcher)
  {
    ConcatAppend(a, b, (c: ProcessedChunk) => ChunkIssues(c.originalText, c.cleanedText, c.chunkIndex, matcher));
  }

  /**
   * Over all chunks: every issue names the index of a validated chunk, errors are exactly the
   * marker findings, and the result has errors iff some chunk's cleaned text contains a marker.
   */
  lemma AllIssuesSpec(chunks: seq<ProcessedChunk>, matcher: FillerMatcher)
    ensures forall i :: i in AllIssues(chunks, matcher) ==>
      exists k :: 0 <= k < |chunks| && i.chunkIndex == Some(chunks[k].chunkIndex)
    ensures ErrorsAreMarkers(AllIssues(chunks, matcher))
    ensures HasErrors(ValidationResult(AllIssues(chunks, matcher))) <==>
      exists k :: 0 <= k < |chunks| && MarkerPresent(chunks[k].cleanedText)
  {
    var f := (c: ProcessedChunk) => ChunkIssues(c.originalText, c.cleanedText, c.chunkIndex, matcher);
    var all := Concat(chunks, f);
    ConcatFrom(chunks, f);
    ConcatSeverity(chunks, f, Error);
    forall k | 0 <= k < |chunks|
      ensures Tagged(f(chunks[k]), chunks[k].chunkIndex)
      ensures ErrorsAreMarkers(f(chunks[k]))
      ensures HasSeverity(f(chunks[k]), Error) <==> MarkerPresent(chunks[k].cleanedText)
    {
      var c := chunks[k];
      ChunkIssuesSpec(c.originalText, c.cleanedText, c.chunkIndex, matcher);
    }
    forall i: Issue | i in all
      ensures (exists k :: 0 <= k < |chunks| && i.chunkIndex == Some(chunks[k].chunkIndex))
      ensures i.severity == Error <==> i.rule == MarkerRule
    {
      var k :| 0 <= k < |chunks| && i in f(chunks[k]);
    }
  }

  /** A severity occurs in a concatenation iff it occurs in one of the parts. */
  lemma SeverityAppend(a: seq<Issue>, b: seq<Issue>, s: Severity)
    ensures HasSeverity(a + b, s) <==> HasSeverity(a, s) || HasSeverity(b, s)
  {
    if HasSeverity(a + b, s) {
      var k :| 0 <= k < |a + b| && (a + b)[k].severity == s;
      if k >= |a| {
        assert b[k - |a|].severity == s;
      }
    }
    if HasSeverity(b, s) {
      var k :| 0 <= k < |b| && b[k].severity == s;
      assert (a + b)[|a| + k].severity == s;
    }
    if HasSeverity(a, s) {
      var k :| 0 <= k < |a| && a[k].severity == s;
      assert (a + b)[k].severity == s;
    }
  }
}
