/**
 * String helpers with the semantics of the Python built-ins the pipeline relies on:
 * `str.isspace`, `str.strip`, `sep.join`, `str.replace`, `str.split(sep)`, `in`,
 * `str.lower` (ASCII letters only), `int`/`str` conversions of naturals and `round`.
 */
module Text {

  /** The characters for which Python's `str.isspace` holds (the set `\s` and `str.split()` use). */
  const SpaceChars: string :=
    "\t\n\U{0b}\U{0c}\r\U{1c}\U{1d}\U{1e}\U{1f} \U{85}\U{a0}\U{1680}"
    + "\U{2000}\U{2001}\U{2002}\U{2003}\U{2004}\U{2005}\U{2006}\U{2007}\U{2008}\U{2009}\U{200a}"
    + "\U{2028}\U{2029}\U{202f}\U{205f}\U{3000}"

  /** Python's `str.isspace` for one character. */
  predicate IsSpace(c: char) {
    SpaceCharFrom(c, 0)
  }

  /** `c` is one of `SpaceChars[k..]`. */
  predicate SpaceCharFrom(c: char, k: nat)
    decreases |SpaceChars| - k
  {
    k < |SpaceChars| && (c == SpaceChars[k] || SpaceCharFrom(c, k + 1))
  }

  /** A character outside `SpaceChars[k..]` is not found by the scan from `k`. */
  lemma {:induction false} NotSpaceFrom(c: char, k: nat)
    requires c !in SpaceChars
    ensures !SpaceCharFrom(c, k)
    decreases |SpaceChars| - k
  {
    if k < |SpaceChars| {
      NotSpaceFrom(c, k + 1);
    }
  }

  /** A character missing from `SpaceChars` is not whitespace. */
  lemma NotSpaceChar(c: char)
    requires c !in SpaceChars
    ensures !IsSpace(c)
  {
    NotSpaceFrom(c, 0);
  }

  predicate IsDigit(c: char) {
    '0' <= c <= '9'
  }

  ghost predicate AllSpace(s: string) {
    forall k :: 0 <= k < |s| ==> IsSpace(s[k])
  }

  ghost predicate AllDigits(s: string) {
    forall k :: 0 <= k < |s| ==> IsDigit(s[k])
  }

  /** Number of whitespace characters at the front of `s`. */
  function LeadingSpaces(s: string): (n: nat)
    ensures n <= |s|
  {
    if |s| > 0 && IsSpace(s[0]) then 1 + LeadingSpaces(s[1..]) else 0
  }

  /** `LeadingSpaces` counts the whole whitespace run at the front and stops at a non-whitespace character. */
  lemma {:induction false} LeadingSpacesSpec(s: string)
    ensures var n := LeadingSpaces(s);
      (forall k :: 0 <= k < n ==> IsSpace(s[k])) && (n < |s| ==> !IsSpace(s[n]))
    decreases |s|
  {
    if |s| > 0 && IsSpace(s[0]) {
      LeadingSpacesSpec(s[1..]);
      var n := LeadingSpaces(s);
      forall k | 0 < k < n
        ensures IsSpace(s[k])
      {
        assert s[k] == s[1..][k - 1];
      }
    }
  }

  /** Number of whitespace characters at the back of `s`. */
  function TrailingSpaces(s: string): (n: nat)
    ensures n <= |s|
  {
    if |s| > 0 && IsSpace(s[|s| - 1]) then 1 + TrailingSpaces(s[..|s| - 1]) else 0
  }

  /** `TrailingSpaces` counts the whole whitespace run at the back and stops at a non-whitespace character. */
  lemma {:induction false} TrailingSpacesSpec(s: string)
    ensures var n := TrailingSpaces(s);
      (forall k :: |s| - n <= k < |s| ==> IsSpace(s[k])) && (n < |s| ==> !IsSpace(s[|s| - 1 - n]))
    decreases |s|
  {
    if |s| > 0 && IsSpace(s[|s| - 1]) {
      TrailingSpacesSpec(s[..|s| - 1]);
    }
  }

  /** Python's `s.strip()`: remove leading and trailing whitespace. */
  function Strip(s: string): string {
    var t := s[LeadingSpaces(s)..];
    t[..|t| - TrailingSpaces(t)]
  }

  /**
   * `Strip` keeps the infix of `s` that starts at its first non-whitespace character and
   * ends at its last one; it is empty exactly when `s` is all whitespace.
   */
  lemma StripSpec(s: string)
    ensures var r := Strip(s);
      && (r == [] <==> AllSpace(s))
      && (r != [] ==> !IsSpace(r[0]) && !IsSpace(r[|r| - 1]))
      && LeadingSpaces(s) + |r| <= |s| && r == s[LeadingSpaces(s)..LeadingSpaces(s) + |r|]
  {
    StripInfix(s);
    StripEmpty(s);
    StripEnds(s);
  }

  /** The strip is the infix of `s` after its leading whitespace. */
  lemma StripInfix(s: string)
    ensures var r, a := Strip(s), LeadingSpaces(s); a + |r| <= |s| && r == s[a..a + |r|]
  {
    var a := LeadingSpaces(s);
    var t := s[a..];
    var r := t[..|t| - TrailingSpaces(t)];
    assert Strip(s) == r;
    assert r == s[a..a + |r|];
  }

  /** The strip is empty exactly when `s` is all whitespace. */
  lemma StripEmpty(s: string)
    ensures Strip(s) == [] <==> AllSpace(s)
  {
    LeadingSpacesSpec(s);
    var a := LeadingSpaces(s);
    var t := s[a..];
    if a < |s| {
      assert t[0] == s[a];
      TrailingSpacesSpec(t);
      assert TrailingSpaces(t) < |t|;
      assert !AllSpace(s) by {
        assert !IsSpace(s[a]);
      }
    }
  }

  /** A non-empty strip starts and ends with non-whitespace characters. */
  lemma StripEnds(s: string)
    ensures var r := Strip(s); r != [] ==> !IsSpace(r[0]) && !IsSpace(r[|r| - 1])
  {
    var a := LeadingSpaces(s);
    var t := s[a..];
    var b := TrailingSpaces(t);
    var r := t[..|t| - b];
    assert Strip(s) == r;
    if r != [] {
      LeadingSpacesSpec(s);
      TrailingSpacesSpec(t);
      assert r[0] == t[0] == s[a] && r[|r| - 1] == t[|t| - 1 - b];
    }
  }

  /** Without trailing whitespace, `Strip` only removes the leading run. */
  lemma StripNoTrailing(s: string)
    requires |s| > 0 && !IsSpace(s[|s| - 1])
    ensures Strip(s) == s[LeadingSpaces(s)..]
  {
    LeadingSpacesSpec(s);
    var t := s[LeadingSpaces(s)..];
    TrailingSpacesSpec(t);
    assert t != [] && t[|t| - 1] == s[|s| - 1];
  }

  /** A string that starts and ends with non-whitespace is its own strip. */
  lemma StripUnchanged(s: string)
    requires |s| == 0 || (!IsSpace(s[0]) && !IsSpace(s[|s| - 1]))
    ensures Strip(s) == s
  {
    if |s| > 0 {
      LeadingSpacesSpec(s);
      StripNoTrailing(s);
    }
  }

  /** A string that `Strip` leaves unchanged starts and ends with a non-whitespace character. */
  lemma StrippedEnds(s: string)
    requires s != [] && Strip(s) == s
    ensures !IsSpace(s[0]) && !IsSpace(s[|s| - 1])
  {
    var r := Strip(s);
    StripSpec(s);
    assert r != [];
    assert !IsSpace(r[0]) && !IsSpace(r[|r| - 1]);
  }

  /** Stripping twice is stripping once. */
  lemma StripIdempotent(s: string)
    ensures Strip(Strip(s)) == Strip(s)
  {
    StripSpec(s);
    StripUnchanged(Strip(s));
  }

  /** Python's `sep.join(parts)`. */
  function Join(sep: string, parts: seq<string>): string {
    if |parts| == 0 then []
    else if |parts| == 1 then parts[0]
    else parts[0] + sep + Join(sep, parts[1..])
  }

  lemma {:induction false} JoinAppend(sep: string, parts: seq<string>, p: string)
    ensures Join(sep, parts + [p]) == if parts == [] then p else Join(sep, parts) + sep + p
  {
    if |parts| > 1 {
      assert (parts + [p])[1..] == parts[1..] + [p];
      JoinAppend(sep, parts[1..], p);
    }
  }

  /** `p` is a prefix of `s`. */
  predicate StartsWith(s: string, p: string) {
    |p| <= |s| && s[..|p|] == p
  }

  /** `p` is a suffix of `s`. */
  predicate EndsWith(s: string, p: string) {
    |p| <= |s| && s[|s| - |p|..] == p
  }

  /** Python's `p in s` for strings. */
  predicate Contains(s: string, p: string)
    decreases |s|
  {
    StartsWith(s, p) || (|s| > 0 && Contains(s[1..], p))
  }

  /** `p` occurs in `s` starting at position `i`. */
  predicate OccursAt(s: string, p: string, i: int) {
    0 <= i <= |s| - |p| && s[i..i + |p|] == p
  }

  /** `Contains` finds exactly the occurrences at some position. */
  lemma {:induction false} ContainsAt(s: string, p: string)
    ensures Contains(s, p) <==> exists i :: OccursAt(s, p, i)
    decreases |s|
  {
    if StartsWith(s, p) {
      assert OccursAt(s, p, 0);
    } else if |s| > 0 {
      ContainsAt(s[1..], p);
      if Contains(s[1..], p) {
        var i :| OccursAt(s[1..], p, i);
        assert s[1..][i..i + |p|] == s[i + 1..i + 1 + |p|];
        assert OccursAt(s, p, i + 1);
      }
      if exists i :: OccursAt(s, p, i) {
        var i :| OccursAt(s, p, i);
        assert i != 0;
        assert s[1..][i - 1..i - 1 + |p|] == s[i..i + |p|];
        assert OccursAt(s[1..], p, i - 1);
      }
    } else {
      assert forall i :: OccursAt(s, p, i) ==> i == 0 && |p| == 0;
    }
  }

  /** Python's `s.replace(pat, rep)`: left-to-right, non-overlapping replacement. */
  function Replace(s: string, pat: string, rep: string): string
    requires |pat| > 0
    decreases |s|
  {
    if |s| < |pat| then s
    else if s[..|pat|] == pat then rep + Replace(s[|pat|..], pat, rep)
    else [s[0]] + Replace(s[1..], pat, rep)
  }

  /** Without an occurrence of `pat`, replacing changes nothing. */
  lemma {:induction false} ReplaceAbsent(s: string, pat: string, rep: string)
    requires |pat| > 0 && !Contains(s, pat)
    ensures Replace(s, pat, rep) == s
    decreases |s|
  {
    if |s| >= |pat| {
      assert !StartsWith(s, pat);
      ReplaceAbsent(s[1..], pat, rep);
      assert [s[0]] + s[1..] == s;
    }
  }

  /** Replacing a pattern by itself changes nothing. */
  lemma {:induction false} ReplaceIdentity(s: string, pat: string)
    requires |pat| > 0
    ensures Replace(s, pat, pat) == s
    decreases |s|
  {
    if |s| >= |pat| {
      if s[..|pat|] == pat {
        ReplaceIdentity(s[|pat|..], pat);
        assert pat + s[|pat|..] == s;
      } else {
        ReplaceIdentity(s[1..], pat);
        assert [s[0]] + s[1..] == s;
      }
    }
  }

  /** Without an occurrence of `pat` starting before `n`, replacing leaves `s[..n]` untouched. */
  lemma {:induction false} ReplaceKeepsPrefix(s: string, pat: string, rep: string, n: nat)
    requires |pat| > 0 && n <= |s|
    requires forall i :: 0 <= i < n ==> !OccursAt(s, pat, i)
    ensures Replace(s, pat, rep) == s[..n] + Replace(s[n..], pat, rep)
    decreases n
  {
    if n > 0 {
      var t := s[1..];
      ReplaceNoMatchAtStart(s, pat, rep);
      ShiftNoOccurrence(s, pat, n);
      ReplaceKeepsPrefix(t, pat, rep, n - 1);
      var later := Replace(s[n..], pat, rep);
      assert t[n - 1..] == s[n..];
      assert [s[0]] + t[..n - 1] == s[..n];
      assert [s[0]] + (t[..n - 1] + later) == ([s[0]] + t[..n - 1]) + later;
    }
  }

  /** Without an occurrence at the start, the first character is kept and the rest is replaced. */
  lemma ReplaceNoMatchAtStart(s: string, pat: string, rep: string)
    requires |pat| > 0 && |s| > 0 && !OccursAt(s, pat, 0)
    ensures Replace(s, pat, rep) == [s[0]] + Replace(s[1..], pat, rep)
  {
    if |s| >= |pat| {
      assert s[..|pat|] != pat by {
        assert s[..|pat|] == s[0..|pat|];
      }
    } else {
      assert Replace(s[1..], pat, rep) == s[1..];
      assert [s[0]] + s[1..] == s;
    }
  }

  /** No occurrence before `n` in `s` means none before `n - 1` in `s[1..]`. */
  lemma ShiftNoOccurrence(s: string, pat: string, n: nat)
    requires 0 < n <= |s|
    requires forall i :: 0 <= i < n ==> !OccursAt(s, pat, i)
    ensures forall i :: 0 <= i < n - 1 ==> !OccursAt(s[1..], pat, i)
  {
    forall i | 0 <= i < n - 1
      ensures !OccursAt(s[1..], pat, i)
    {
      assert !OccursAt(s, pat, i + 1);
      if i + |pat| <= |s| - 1 {
        assert s[1..][i..i + |pat|] == s[i + 1..i + 1 + |pat|];
      }
    }
  }

  /** When the first occurrence of `pat` starts right after `pre`, the replacement keeps `pre`. */
  lemma ReplaceFirst(pre: string, pat: string, rep: string, post: string)
    requires |pat| > 0
    requires forall i :: 0 <= i < |pre| ==> !OccursAt(pre + pat + post, pat, i)
    ensures Replace(pre + pat + post, pat, rep) == pre + rep + Replace(post, pat, rep)
  {
    var s := pre + pat + post;
    ReplaceKeepsPrefix(s, pat, rep, |pre|);
    var u := s[|pre|..];
    assert s[..|pre|] == pre && u == pat + post;
    assert u[..|pat|] == pat && u[|pat|..] == post;
  }

  /**
   * Python's `s.split(pat)` for a non-empty pattern: the pieces between the non-overlapping
   * occurrences of `pat`, found left to right as `Replace` finds them.
   */
  function SplitOn(s: string, pat: string): (parts: seq<string>)
    requires |pat| > 0
    ensures |parts| >= 1
    decreases |s|
  {
    if |s| < |pat| then [s]
    else if s[..|pat|] == pat then [[]] + SplitOn(s[|pat|..], pat)
    else
      var rest := SplitOn(s[1..], pat);
      [[s[0]] + rest[0]] + rest[1..]
  }

  /** Joining the pieces with `pat` gives `s` back, and no piece holds `pat`. */
  lemma {:induction false} SplitOnJoin(s: string, pat: string)
    requires |pat| > 0
    ensures Join(pat, SplitOn(s, pat)) == s
    ensures forall k :: 0 <= k < |SplitOn(s, pat)| ==> !Contains(SplitOn(s, pat)[k], pat)
    decreases |s|
  {
    var parts := SplitOn(s, pat);
    if |s| < |pat| {
      assert !StartsWith(s, pat);
      ShortAbsent(s, pat);
    } else if s[..|pat|] == pat {
      var tail := s[|pat|..];
      SplitOnJoin(tail, pat);
      var rest := SplitOn(tail, pat);
      assert parts == [[]] + rest && parts[1..] == rest;
      assert Join(pat, parts) == [] + pat + Join(pat, rest);
      assert pat + tail == s;
      assert !Contains(parts[0], pat);
      assert forall k :: 1 <= k < |parts| ==> parts[k] == rest[k - 1];
    } else {
      var tail := s[1..];
      SplitOnJoin(tail, pat);
      var rest := SplitOn(tail, pat);
      var head := [s[0]] + rest[0];
      assert parts == [head] + rest[1..] && parts[1..] == rest[1..];
      JoinHeadExtend(pat, s[0], rest);
      assert [s[0]] + tail == s;
      assert !Contains(head, pat) by {
        assert head[1..] == rest[0];
        PrefixJoinHead(rest, pat);
      }
      assert forall k :: 1 <= k < |parts| ==> parts[k] == rest[k];
    }
  }

  /** A string shorter than the pattern does not contain it. */
  lemma {:induction false} ShortAbsent(s: string, pat: string)
    requires |s| < |pat|
    ensures !Contains(s, pat)
    decreases |s|
  {
    if |s| > 0 {
      ShortAbsent(s[1..], pat);
    }
  }

  /** The first piece of a join is a prefix of it. */
  lemma PrefixJoinHead(parts: seq<string>, sep: string)
    requires |parts| >= 1
    ensures |parts[0]| <= |Join(sep, parts)| && Join(sep, parts)[..|parts[0]|] == parts[0]
  {
  }

  /** Putting a character in front of the first piece puts it in front of the join. */
  lemma JoinHeadExtend(sep: string, c: char, parts: seq<string>)
    requires |parts| >= 1
    ensures Join(sep, [[c] + parts[0]] + parts[1..]) == [c] + Join(sep, parts)
  {
    var ext := [[c] + parts[0]] + parts[1..];
    if |parts| > 1 {
      assert ext[1..] == parts[1..];
      var later := Join(sep, parts[1..]);
      assert Join(sep, ext) == ([c] + parts[0]) + sep + later;
      assert Join(sep, parts) == parts[0] + sep + later;
    }
  }

  /** Python's identity `s.replace(pat, rep) == rep.join(s.split(pat))`: every occurrence is replaced. */
  lemma {:induction false} ReplaceIsSplitJoin(s: string, pat: string, rep: string)
    requires |pat| > 0
    ensures Replace(s, pat, rep) == Join(rep, SplitOn(s, pat))
    decreases |s|
  {
    if |s| < |pat| {
    } else if s[..|pat|] == pat {
      var tail := s[|pat|..];
      ReplaceIsSplitJoin(tail, pat, rep);
      var rest := SplitOn(tail, pat);
      var parts := [[]] + rest;
      assert parts[1..] == rest;
      assert Join(rep, parts) == [] + rep + Join(rep, rest);
    } else {
      var tail := s[1..];
      ReplaceIsSplitJoin(tail, pat, rep);
      JoinHeadExtend(rep, s[0], SplitOn(tail, pat));
    }
  }

  /** `pat` overlaps no shifted copy of itself (no proper prefix is also a suffix). */
  ghost predicate Unbordered(pat: string) {
    forall k :: 0 < k < |pat| ==> pat[k..] != pat[..|pat| - k]
  }

  /**
   * For an unbordered pattern, `pre` without `pat` gives no occurrence in `pre + pat + post`
   * starting inside `pre`.
   */
  lemma AbsentBeforePattern(pre: string, pat: string, post: string)
    requires |pat| > 0 && Unbordered(pat) && !Contains(pre, pat)
    ensures forall i :: 0 <= i < |pre| ==> !OccursAt(pre + pat + post, pat, i)
  {
    var s := pre + pat + post;
    forall i | 0 <= i < |pre|
      ensures !OccursAt(s, pat, i)
    {
      if OccursAt(s, pat, i) {
        if i + |pat| <= |pre| {
          assert pre[i..i + |pat|] == s[i..i + |pat|];
          ContainsAt(pre, pat);
          assert OccursAt(pre, pat, i);
        } else {
          ShiftedBorder(pre, pat, post, i);
        }
      }
    }
  }

  /** For an unbordered pattern, its one occurrence between pattern-free `pre` and `post` is replaced. */
  lemma ReplaceOnce(pre: string, pat: string, post: string, rep: string)
    requires |pat| > 0 && Unbordered(pat) && !Contains(pre, pat) && !Contains(post, pat)
    ensures Replace(pre + pat + post, pat, rep) == pre + rep + post
  {
    AbsentBeforePattern(pre, pat, post);
    ReplaceFirst(pre, pat, rep, post);
    ReplaceAbsent(post, pat, rep);
  }

  /** An occurrence starting inside `pre` and running into `pat` makes a border of `pat`. */
  lemma ShiftedBorder(pre: string, pat: string, post: string, i: nat)
    requires i < |pre| < i + |pat| && OccursAt(pre + pat + post, pat, i)
    ensures pat[|pre| - i..] == pat[..|pat| - (|pre| - i)]
  {
    var s := pre + pat + post;
    var k := |pre| - i;
    forall j | 0 <= j < |pat| - k
      ensures pat[k..][j] == pat[..|pat| - k][j]
    {
      assert s[i..i + |pat|][k + j] == s[|pre| + j];
    }
  }

  /** Python's `s.split(c)` for a one-character separator. */
  function Split(s: string, c: char): (parts: seq<string>)
    ensures |parts| >= 1
    ensures forall k :: 0 <= k < |parts| ==> c !in parts[k]
    ensures Join([c], parts) == s
  {
    if |s| == 0 then [[]]
    else if s[0] == c then
      var rest := Split(s[1..], c);
      assert ([[]] + rest)[1..] == rest;
      [[]] + rest
    else
      var rest := Split(s[1..], c);
      var parts := [[s[0]] + rest[0]] + rest[1..];
      assert Join([c], parts) == [s[0]] + Join([c], rest) by {
        if |rest| > 1 {
          assert parts[1..] == rest[1..];
        }
      }
      parts
  }

  lemma SplitNoSeparator(s: string, c: char)
    requires c !in s
    ensures Split(s, c) == [s]
  {
    if |s| > 0 {
      SplitNoSeparator(s[1..], c);
      assert [s[0]] + s[1..] == s;
    }
  }

  lemma {:induction false} SplitFirst(a: string, c: char, b: string)
    requires c !in a
    ensures Split(a + [c] + b, c) == [a] + Split(b, c)
    decreases |a|
  {
    var s := a + [c] + b;
    if |a| == 0 {
      assert s[1..] == b;
    } else {
      assert s[1..] == a[1..] + [c] + b;
      SplitFirst(a[1..], c, b);
      assert [a[0]] + a[1..] == a;
    }
  }

  /** Python's `str.lower` restricted to ASCII letters. */
  function LowerChar(c: char): char {
    if 'A' <= c <= 'Z' then (c as int + 32) as char else c
  }

  function Lower(s: string): (r: string)
    ensures |r| == |s|
    ensures forall k :: 0 <= k < |s| ==> r[k] == LowerChar(s[k])
  {
    seq(|s|, k requires 0 <= k < |s| => LowerChar(s[k]))
  }

  function DigitChar(d: nat): (c: char)
    requires d < 10
    ensures IsDigit(c)
  {
    ('0' as int + d) as char
  }

  /** `str(n)` for a natural number. */
  function NatToDecimal(n: nat): (r: string)
    ensures 1 <= |r|
    ensures AllDigits(r)
    decreases n
  {
    if n < 10 then [DigitChar(n)] else NatToDecimal(n / 10) + [DigitChar(n % 10)]
  }

  /** `int(s)` for a string of decimal digits. */
  function DecimalValue(s: string): nat
    requires AllDigits(s)
  {
    if |s| == 0 then 0 else 10 * DecimalValue(s[..|s| - 1]) + (s[|s| - 1] as int - '0' as int)
  }

  lemma {:induction false} DecimalRoundTrip(n: nat)
    ensures DecimalValue(NatToDecimal(n)) == n
    decreases n
  {
    if n >= 10 {
      var r := NatToDecimal(n);
      assert r[..|r| - 1] == NatToDecimal(n / 10);
      DecimalRoundTrip(n / 10);
    }
  }

  /** Leading zeros do not change the value of a digit string. */
  lemma {:induction false} LeadingZero(s: string)
    requires AllDigits(s)
    ensures AllDigits("0" + s) && DecimalValue("0" + s) == DecimalValue(s)
    decreases |s|
  {
    if |s| > 0 {
      assert ("0" + s)[..|s|] == "0" + s[..|s| - 1];
      LeadingZero(s[..|s| - 1]);
    }
  }

  /** Left-pads a digit string with zeros to at least `width` characters. */
  function PadZeros(s: string, width: nat): (r: string)
    requires AllDigits(s)
    ensures AllDigits(r) && |r| == if |s| >= width then |s| else width
    ensures DecimalValue(r) == DecimalValue(s)
    decreases width - |s|
  {
    LeadingZero(s);
    if |s| >= width then s else PadZeros("0" + s, width)
  }

  function Pow10(k: nat): nat {
    if k == 0 then 1 else 10 * Pow10(k - 1)
  }

  /** A number below `10^k` has at most `k` digits. */
  lemma {:induction false} DecimalLength(n: nat, k: nat)
    requires 1 <= k && n < Pow10(k)
    ensures |NatToDecimal(n)| <= k
  {
    if n >= 10 {
      DecimalLength(n / 10, k - 1);
    }
  }

  /** Python's `round` on an exact real: the nearest integer, ties to the even one. */
  function RoundHalfEven(y: real): (n: int)
    ensures 2.0 * (y - n as real) <= 1.0 && 2.0 * (n as real - y) <= 1.0
    ensures y >= 0.0 ==> n >= 0
  {
    var q := y.Floor;
    var f := y - q as real;
    if f > 0.5 || (f == 0.5 && q % 2 == 1) then q + 1 else q
  }
}
