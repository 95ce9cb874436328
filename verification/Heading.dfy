/**
 * The release-heading pattern of ParseLatest,
 *
 *   ^#\s*([0-9]+(?:\.[0-9]+){1,2}(?:-[0-9A-Za-z.-]+)?(?:\+[0-9A-Za-z.-]+)?)\s*-\s*(.+)$
 *
 * as a hand-written deterministic matcher over one line.
 *
 * Go's regexp package reports the submatches that a backtracking matcher
 * would find (leftmost-first): every greedy quantifier first tries its longest
 * run and gives characters back only when the rest of the pattern fails. The
 * matcher below follows exactly that order. The leading `\s*`, the digit runs
 * and the `\s*` before the separating `-` can never give anything back (the
 * character after them would not fit), so they are maximal spans. The
 * pre-release and build groups, whose class contains `-`, are tried from their
 * longest extent down to one character and then left out. The `\s*` after the
 * separator is greedy and gives back only what `(.+)$` needs. So the matcher
 * prefers the longest optional groups that still let the line match, and
 * `MatchIsLongest` proves the outcome: of all the ways the line fits the
 * pattern, it picks the one with the longest version and, for that version,
 * the shortest summary.
 */
module Heading {
  import opened Wrappers
  import Text

  /** `[0-9]` */
  predicate IsDigit(c: char) { '0' <= c <= '9' }

  /** `[0-9A-Za-z.-]`, the characters of the pre-release and build parts. */
  predicate IsIdentChar(c: char) {
    IsDigit(c) || ('A' <= c <= 'Z') || ('a' <= c <= 'z') || c == '.' || c == '-'
  }

  /** `\s` of Go's regexp syntax: `[\t\n\f\r ]`. */
  predicate IsRegexSpace(c: char) {
    c == '\t' || c == '\n' || c == '\U{C}' || c == '\r' || c == ' '
  }

  /** `.` without the `s` flag: any character but a newline. */
  predicate IsLineChar(c: char) { c != '\n' }

  /** Every character of s[i..j] satisfies `p`. */
  predicate All(s: string, i: nat, j: nat, p: char -> bool)
    requires i <= j <= |s|
  {
    forall k :: i <= k < j ==> p(s[k])
  }

  /** The end of the longest run of `p`-characters that starts at `i`. */
  function Span(s: string, i: nat, p: char -> bool): (j: nat)
    requires i <= |s|
    ensures i <= j <= |s| && All(s, i, j, p)
    ensures j == |s| || !p(s[j])
    decreases |s| - i
  {
    if i < |s| && p(s[i]) then Span(s, i + 1, p) else i
  }

  /** A run of `p` that cannot be extended is the span. */
  lemma SpanUnique(s: string, i: nat, j: nat, p: char -> bool)
    requires i <= j <= |s| && All(s, i, j, p)
    requires j == |s| || !p(s[j])
    ensures j == Span(s, i, p)
  {
    var m := Span(s, i, p);
  }

  // ---------------------------------------------------------------------
  // The pattern, stated declaratively: where each part of a line ends.
  // ---------------------------------------------------------------------

  /**
   * Where the parts of a version end: the major digits end at `majorEnd` (a
   * dot follows), the minor digits at `minorEnd`, the optional patch digits at
   * `patchEnd` (equal to `minorEnd` when absent) and the optional pre-release at
   * `preEnd` (equal to `patchEnd` when absent); the build part runs to the end.
   */
  datatype Shape = Shape(majorEnd: nat, minorEnd: nat, patchEnd: nat, preEnd: nat)

  /** `[0-9]+(?:\.[0-9]+){1,2}` occupies s[i..patchEnd]. */
  predicate CoreAt(s: string, i: nat, w: Shape)
  {
    && i < w.majorEnd < w.minorEnd <= w.patchEnd <= |s|
    && All(s, i, w.majorEnd, IsDigit)
    && s[w.majorEnd] == '.' && w.majorEnd + 1 < w.minorEnd && All(s, w.majorEnd + 1, w.minorEnd, IsDigit)
    && (w.patchEnd == w.minorEnd
        || (s[w.minorEnd] == '.' && w.minorEnd + 1 < w.patchEnd && All(s, w.minorEnd + 1, w.patchEnd, IsDigit)))
  }

  /** `(?:-[0-9A-Za-z.-]+)?` occupies s[i..j]. */
  predicate PreAt(s: string, i: nat, j: nat)
  {
    i <= j <= |s| && (j == i || (s[i] == '-' && i + 1 < j && All(s, i + 1, j, IsIdentChar)))
  }

  /** `(?:\+[0-9A-Za-z.-]+)?` occupies s[i..j]. */
  predicate BuildAt(s: string, i: nat, j: nat)
  {
    i <= j <= |s| && (j == i || (s[i] == '+' && i + 1 < j && All(s, i + 1, j, IsIdentChar)))
  }

  /** s[i..j] is a version of the pattern's first group. */
  predicate VersionAt(s: string, i: nat, j: nat, w: Shape)
  {
    CoreAt(s, i, w) && PreAt(s, w.patchEnd, w.preEnd) && BuildAt(s, w.preEnd, j)
  }

  /** `\s*(.+)$` with the summary group starting at `g`. */
  predicate SummaryAt(s: string, u: nat, g: nat)
  {
    u <= g < |s| && All(s, u, g, IsRegexSpace) && All(s, g, |s|, IsLineChar)
  }

  /** `\s*-\s*(.+)$` after the version end `ve`, with the dash at `dash`. */
  predicate TailAt(s: string, ve: nat, dash: nat, g: nat)
  {
    ve <= dash < |s| && All(s, ve, dash, IsRegexSpace) && s[dash] == '-' && SummaryAt(s, dash + 1, g)
  }

  /**
   * One way of reading a line as the whole pattern: `#`, white space up to
   * `vs`, the version s[vs..ve], the separator and the summary s[gs..].
   */
  datatype Parse = Parse(vs: nat, shape: Shape, ve: nat, dash: nat, gs: nat)

  predicate IsParse(s: string, p: Parse)
  {
    && 0 < |s| && s[0] == '#'
    && 1 <= p.vs <= p.ve <= |s|
    && All(s, 1, p.vs, IsRegexSpace)
    && VersionAt(s, p.vs, p.ve, p.shape)
    && TailAt(s, p.ve, p.dash, p.gs)
  }

  /** The line matches the pattern (in some way). */
  ghost predicate Matches(s: string)
  {
    exists p :: IsParse(s, p)
  }

  /** A whole string is a version of the pattern's first group. */
  ghost predicate IsVersion(v: string)
  {
    exists w :: VersionAt(v, 0, |v|, w)
  }

  // ---------------------------------------------------------------------
  // The matcher, in the order a backtracking engine tries the alternatives.
  // ---------------------------------------------------------------------

  /** Positions fixed after the numeric core: pre-release end, version end, dash, summary start. */
  datatype Rest = Rest(pre: nat, ve: nat, dash: nat, gs: nat)

  /** `\s*(.+)$` from `u`: greedy white space, giving back one character when nothing else is left. */
  function MatchSummary(s: string, u: nat): (g: Option<nat>)
    requires u <= |s|
    ensures g.Some? ==> SummaryAt(s, u, g.value)
    ensures forall g': nat :: SummaryAt(s, u, g') ==> g.Some? && g' <= g.value
  {
    var b := Span(s, u, IsRegexSpace);
    if b < |s| then
      if All(s, b, |s|, IsLineChar) then Some(b) else None
    else if u < |s| && s[|s| - 1] != '\n' then Some(|s| - 1)
    else None
  }

  /** `\s*-\s*(.+)$` from the version end `ve`. */
  function MatchTail(s: string, pre: nat, ve: nat): (r: Option<Rest>)
    requires ve <= |s|
    ensures r.Some? ==> r.value.pre == pre && r.value.ve == ve && TailAt(s, ve, r.value.dash, r.value.gs)
    ensures forall d: nat, g: nat :: TailAt(s, ve, d, g) ==> r.Some? && r.value.dash == d && g <= r.value.gs
  {
    var a := Span(s, ve, IsRegexSpace);
    if a < |s| && s[a] == '-' then
      match MatchSummary(s, a + 1)
      case Some(g) => Some(Rest(pre, ve, a, g))
      case None => None
    else None
  }

  /** The build group ending at `e`, then at e-1, ..., down to one character after its `+`. */
  function TryBuild(s: string, pre: nat, e: nat): (r: Option<Rest>)
    requires pre + 1 <= e <= |s|
    ensures r.Some? ==> r.value.pre == pre && pre + 2 <= r.value.ve <= e && TailAt(s, r.value.ve, r.value.dash, r.value.gs)
    ensures forall b: nat, d: nat, g: nat :: pre + 2 <= b <= e && TailAt(s, b, d, g) ==>
              r.Some? && b <= r.value.ve && (b == r.value.ve ==> g <= r.value.gs)
    decreases e
  {
    if e < pre + 2 then None
    else
      match MatchTail(s, pre, e)
      case Some(r) => Some(r)
      case None => TryBuild(s, pre, e - 1)
  }

  /** `(?:\+[0-9A-Za-z.-]+)?` at `pre`, longest first and absent last, then the tail. */
  function MatchBuild(s: string, pre: nat): (r: Option<Rest>)
    requires pre <= |s|
    ensures r.Some? ==> r.value.pre == pre && BuildAt(s, pre, r.value.ve) && TailAt(s, r.value.ve, r.value.dash, r.value.gs)
    ensures forall b: nat, d: nat, g: nat :: BuildAt(s, pre, b) && TailAt(s, b, d, g) ==>
              r.Some? && b <= r.value.ve && (b == r.value.ve ==> g <= r.value.gs)
  {
    if pre < |s| && s[pre] == '+' then
      var m := Span(s, pre + 1, IsIdentChar);
      match TryBuild(s, pre, m)
      case Some(r) => Some(r)
      case None => MatchTail(s, pre, pre)
    else MatchTail(s, pre, pre)
  }

  /** The pre-release group ending at `e`, then at e-1, ..., down to one character after its `-`. */
  function TryPre(s: string, patch: nat, e: nat): (r: Option<Rest>)
    requires patch + 1 <= e <= |s| && All(s, patch + 1, e, IsIdentChar)
    ensures r.Some? ==> patch + 2 <= r.value.pre <= e && BuildAt(s, r.value.pre, r.value.ve) && TailAt(s, r.value.ve, r.value.dash, r.value.gs)
    ensures forall p: nat, b: nat, d: nat, g: nat :: patch + 2 <= p <= e && BuildAt(s, p, b) && TailAt(s, b, d, g) ==>
              r.Some? && b <= r.value.ve && (b == r.value.ve ==> g <= r.value.gs)
    decreases e
  {
    if e < patch + 2 then None
    else
      match MatchBuild(s, e)
      case Some(r) => Some(r)
      case None => TryPre(s, patch, e - 1)
  }

  /** `(?:-[0-9A-Za-z.-]+)?` at `patch`, longest first and absent last, then the build group and the tail. */
  function MatchPre(s: string, patch: nat): (r: Option<Rest>)
    requires patch <= |s|
    ensures r.Some? ==> PreAt(s, patch, r.value.pre) && BuildAt(s, r.value.pre, r.value.ve) && TailAt(s, r.value.ve, r.value.dash, r.value.gs)
    ensures forall p: nat, b: nat, d: nat, g: nat :: PreAt(s, patch, p) && BuildAt(s, p, b) && TailAt(s, b, d, g) ==>
              r.Some? && b <= r.value.ve && (b == r.value.ve ==> g <= r.value.gs)
  {
    if patch < |s| && s[patch] == '-' then
      var m := Span(s, patch + 1, IsIdentChar);
      match TryPre(s, patch, m)
      case Some(r) => Some(r)
      case None => MatchBuild(s, patch)
    else MatchBuild(s, patch)
  }

  /** Where the `#`, the white space and the numeric core of a line end. */
  datatype Core = Core(vs: nat, major: nat, minor: nat, patch: nat)

  /**
   * `^#\s*[0-9]+(?:\.[0-9]+){1,2}` at the start of the line `s`. This part is
   * forced: each digit run is maximal and a second `.digits` group is taken
   * whenever one follows.
   */
  function MatchCore(s: string): (r: Option<Core>)
    ensures r.Some? ==> 0 < |s| && s[0] == '#' && 1 <= r.value.vs <= |s| && All(s, 1, r.value.vs, IsRegexSpace)
    ensures r.Some? ==> CoreAt(s, r.value.vs, Shape(r.value.major, r.value.minor, r.value.patch, r.value.patch))
  {
    if |s| == 0 || s[0] != '#' then None
    else
      var vs := Span(s, 1, IsRegexSpace);
      var major := Span(s, vs, IsDigit);
      if major == vs || major == |s| || s[major] != '.' then None
      else
        var minor := Span(s, major + 1, IsDigit);
        if minor == major + 1 then None
        else
          var patch :=
            if minor + 1 < |s| && s[minor] == '.' && IsDigit(s[minor + 1]) then Span(s, minor + 1, IsDigit) else minor;
          Some(Core(vs, major, minor, patch))
  }

  /**
   * The whole pattern against the line `s`: the forced numeric core, then the
   * choices MatchPre makes.
   */
  function Match(s: string): (r: Option<Parse>)
    ensures r.Some? ==> IsParse(s, r.value)
  {
    match MatchCore(s)
    case None => None
    case Some(c) =>
      match MatchPre(s, c.patch)
      case None => None
      case Some(r) => Some(Parse(c.vs, Shape(c.major, c.minor, c.patch, r.pre), r.ve, r.dash, r.gs))
  }

  /**
   * In any reading of a line, the character at the end of a digit run is not
   * a digit: it is a dot, the `-` of a pre-release, the `+` of a build, white
   * space before the separator or the separator itself.
   */
  lemma DigitRunsEnd(s: string, p: Parse)
    requires IsParse(s, p)
    ensures p.shape.minorEnd < |s| && !IsDigit(s[p.shape.minorEnd])
    ensures p.shape.patchEnd < |s| && !IsDigit(s[p.shape.patchEnd])
    ensures p.shape.patchEnd == p.shape.minorEnd ==> s[p.shape.minorEnd] != '.'
  {
    var w := p.shape;
    assert p.ve <= p.dash;
    if w.preEnd == w.patchEnd && p.ve == w.preEnd && p.ve < p.dash {
      assert IsRegexSpace(s[p.ve]);
    }
  }

  /** Every reading of a line agrees with the matcher on the white space and the numeric core. */
  lemma CoreIsForced(s: string, p: Parse)
    requires IsParse(s, p)
    ensures p.vs == Span(s, 1, IsRegexSpace)
    ensures p.shape.majorEnd == Span(s, p.vs, IsDigit)
    ensures p.shape.minorEnd == Span(s, p.shape.majorEnd + 1, IsDigit)
    ensures p.shape.patchEnd ==
              if p.shape.minorEnd + 1 < |s| && s[p.shape.minorEnd] == '.' && IsDigit(s[p.shape.minorEnd + 1])
              then Span(s, p.shape.minorEnd + 1, IsDigit) else p.shape.minorEnd
  {
    var w := p.shape;
    assert IsDigit(s[p.vs]);
    SpanUnique(s, 1, p.vs, IsRegexSpace);
    SpanUnique(s, p.vs, w.majorEnd, IsDigit);
    DigitRunsEnd(s, p);
    SpanUnique(s, w.majorEnd + 1, w.minorEnd, IsDigit);
    if w.patchEnd > w.minorEnd {
      assert IsDigit(s[w.minorEnd + 1]);
      SpanUnique(s, w.minorEnd + 1, w.patchEnd, IsDigit);
    }
  }

  /** Every reading of a line starts with the core the matcher finds. */
  lemma CoreOfParse(s: string, p: Parse)
    requires IsParse(s, p)
    ensures MatchCore(s) == Some(Core(p.vs, p.shape.majorEnd, p.shape.minorEnd, p.shape.patchEnd))
  {
    CoreIsForced(s, p);
  }

  /**
   * The matcher fails only on lines that do not fit the pattern, and when it
   * succeeds it returns the leftmost-first reading: no reading has a longer
   * version, and no reading with the same version has a shorter summary.
   */
  lemma MatchIsLongest(s: string, p: Parse)
    requires IsParse(s, p)
    ensures Match(s).Some?
    ensures Match(s).value.vs == p.vs
    ensures p.ve <= Match(s).value.ve
    ensures p.ve == Match(s).value.ve ==> p.gs <= Match(s).value.gs
  {
    CoreOfParse(s, p);
    var w := p.shape;
    assert PreAt(s, w.patchEnd, w.preEnd) && BuildAt(s, w.preEnd, p.ve) && TailAt(s, p.ve, p.dash, p.gs);
    var r := MatchPre(s, w.patchEnd);
    assert r.Some? && p.ve <= r.value.ve && (p.ve == r.value.ve ==> p.gs <= r.value.gs);
  }

  /** The line matches the pattern exactly when the matcher succeeds. */
  lemma MatchIffMatches(s: string)
    ensures Match(s).Some? <==> Matches(s)
  {
    if Match(s).None? && Matches(s) {
      var p :| IsParse(s, p);
      MatchIsLongest(s, p);
    }
  }

  // ---------------------------------------------------------------------
  // The submatches FindStringSubmatch reports.
  // ---------------------------------------------------------------------

  /** Submatches 1 (the version) and 2 (the summary, untrimmed) of the pattern. */
  datatype Captures = Captures(version: string, summary: string)

  /** regexp.FindStringSubmatch with the heading pattern: nil, or the two groups. */
  function MatchHeading(line: string): (r: Option<Captures>)
    ensures r.Some? ==> |line| > 0 && line[0] == '#'
    ensures r.Some? ==> r.value.version != [] && r.value.summary != [] && '\n' !in r.value.summary
  {
    match Match(line)
    case None => None
    case Some(p) =>
      assert line[p.gs..][0] == line[p.gs];
      assert forall k :: 0 <= k < |line[p.gs..]| ==> line[p.gs..][k] == line[p.gs + k];
      Some(Captures(line[p.vs..p.ve], line[p.gs..]))
  }

  /** A version is made of digits, `.`, `-`, `+` and letters only. */
  lemma VersionChars(s: string, i: nat, j: nat, w: Shape, k: nat)
    requires VersionAt(s, i, j, w) && i <= k < j
    ensures IsIdentChar(s[k]) || s[k] == '+'
  {
  }

  /** All(s, a, b, p) seen from inside the slice s[i..j]. */
  lemma AllInSlice(s: string, i: nat, j: nat, a: nat, b: nat, p: char -> bool)
    requires i <= a <= b <= j <= |s| && All(s, a, b, p)
    ensures All(s[i..j], a - i, b - i, p)
  {
    forall k | a - i <= k < b - i ensures p(s[i..j][k]) {
      assert s[i..j][k] == s[k + i];
    }
  }

  /** All(t, a, b, p) seen from the string `pre + t + post`. */
  lemma AllInContext(pre: string, t: string, post: string, a: nat, b: nat, p: char -> bool)
    requires a <= b <= |t| && All(t, a, b, p)
    ensures All(pre + t + post, |pre| + a, |pre| + b, p)
  {
    var s := pre + t + post;
    forall k | |pre| + a <= k < |pre| + b ensures p(s[k]) {
      assert s[k] == t[k - |pre|];
    }
  }

  /** A version occupying s[i..j] is a version on its own. */
  lemma VersionInSlice(s: string, i: nat, j: nat, w: Shape)
    requires VersionAt(s, i, j, w)
    ensures VersionAt(s[i..j], 0, j - i, Shape(w.majorEnd - i, w.minorEnd - i, w.patchEnd - i, w.preEnd - i))
  {
    AllInSlice(s, i, j, i, w.majorEnd, IsDigit);
    AllInSlice(s, i, j, w.majorEnd + 1, w.minorEnd, IsDigit);
    if w.patchEnd > w.minorEnd {
      AllInSlice(s, i, j, w.minorEnd + 1, w.patchEnd, IsDigit);
    }
    if w.preEnd > w.patchEnd {
      AllInSlice(s, i, j, w.patchEnd + 1, w.preEnd, IsIdentChar);
    }
    if j > w.preEnd {
      AllInSlice(s, i, j, w.preEnd + 1, j, IsIdentChar);
    }
  }

  /** A version set inside a longer string keeps its shape, shifted by the text before it. */
  lemma VersionInContext(pre: string, v: string, post: string, w: Shape)
    requires VersionAt(v, 0, |v|, w)
    ensures VersionAt(pre + v + post, |pre|, |pre| + |v|,
                      Shape(w.majorEnd + |pre|, w.minorEnd + |pre|, w.patchEnd + |pre|, w.preEnd + |pre|))
  {
    var s := pre + v + post;
    var n := |pre|;
    AllInContext(pre, v, post, 0, w.majorEnd, IsDigit);
    assert s[n + w.majorEnd] == v[w.majorEnd];
    AllInContext(pre, v, post, w.majorEnd + 1, w.minorEnd, IsDigit);
    if w.patchEnd > w.minorEnd {
      assert s[n + w.minorEnd] == v[w.minorEnd];
      AllInContext(pre, v, post, w.minorEnd + 1, w.patchEnd, IsDigit);
    }
    if w.preEnd > w.patchEnd {
      assert s[n + w.patchEnd] == v[w.patchEnd];
      AllInContext(pre, v, post, w.patchEnd + 1, w.preEnd, IsIdentChar);
    }
    if |v| > w.preEnd {
      assert s[n + w.preEnd] == v[w.preEnd];
      AllInContext(pre, v, post, w.preEnd + 1, |v|, IsIdentChar);
    }
  }

  /**
   * The version the pattern captures has a numeric head, one or two `.digits`
   * groups, then optional `-pre` and `+build` parts over `[0-9A-Za-z.-]`; it
   * contains no white space, so trimming it changes nothing.
   */
  lemma CapturedVersion(line: string)
    requires MatchHeading(line).Some?
    ensures IsVersion(MatchHeading(line).value.version)
    ensures forall k :: 0 <= k < |MatchHeading(line).value.version| ==>
              !Text.IsSpace(MatchHeading(line).value.version[k])
    ensures Text.IsTrimmed(MatchHeading(line).value.version)
  {
    var p := Match(line).value;
    ParsedVersion(line, p);
  }

  /** The version of any reading of a line is a version on its own, free of white space. */
  lemma ParsedVersion(s: string, p: Parse)
    requires IsParse(s, p)
    ensures IsVersion(s[p.vs..p.ve])
    ensures forall k :: 0 <= k < |s[p.vs..p.ve]| ==> !Text.IsSpace(s[p.vs..p.ve][k])
    ensures Text.IsTrimmed(s[p.vs..p.ve])
  {
    var v := s[p.vs..p.ve];
    var w := p.shape;
    VersionInSlice(s, p.vs, p.ve, w);
    assert VersionAt(v, 0, |v|, Shape(w.majorEnd - p.vs, w.minorEnd - p.vs, w.patchEnd - p.vs, w.preEnd - p.vs));
    forall k | 0 <= k < |v| ensures !Text.IsSpace(v[k]) {
      assert v[k] == s[p.vs + k];
      VersionChars(s, p.vs, p.ve, w, p.vs + k);
      VersionCharNotSpace(v[k]);
    }
  }

  /** No character a version may contain is white space. */
  lemma VersionCharNotSpace(c: char)
    requires IsIdentChar(c) || c == '+'
    ensures !Text.IsSpace(c) && !IsRegexSpace(c)
  {
  }

  /** How a release heading is written: `# <version> - <summary>`. */
  function RenderHeading(version: string, summary: string): string
  {
    "# " + version + " - " + summary
  }

  /**
   * A heading written from a version and a trimmed single-line summary is
   * matched back into exactly that version and summary: the space after the
   * version stops the version, and the summary's first character stops the
   * white space before it.
   */
  lemma HeadingRoundTrip(version: string, summary: string)
    requires IsVersion(version)
    requires summary != [] && Text.IsTrimmed(summary) && '\n' !in summary
    ensures MatchHeading(RenderHeading(version, summary)) == Some(Captures(version, summary))
  {
    var line := RenderHeading(version, summary);
    RenderedMatch(version, summary);
    RenderedSlices(version, summary);
    CapturesOf(line);
  }

  /** The matcher reads a written heading the obvious way. */
  lemma RenderedMatch(version: string, summary: string)
    requires IsVersion(version)
    requires summary != [] && Text.IsTrimmed(summary) && '\n' !in summary
    ensures Match(RenderHeading(version, summary)).Some?
    ensures Match(RenderHeading(version, summary)).value.vs == 2
    ensures Match(RenderHeading(version, summary)).value.ve == |version| + 2
    ensures Match(RenderHeading(version, summary)).value.gs == |version| + 5
  {
    var n := |version|;
    var w :| VersionAt(version, 0, n, w);
    var p := Parse(2, Shape(w.majorEnd + 2, w.minorEnd + 2, w.patchEnd + 2, w.preEnd + 2), n + 2, n + 3, n + 5);
    RenderedIsParse(version, summary, w);
    MatchIsLongest(RenderHeading(version, summary), p);
    RenderedReadingIsFixed(version, summary, Match(RenderHeading(version, summary)).value);
  }

  /** The captures are the slices of the line the matcher's reading marks. */
  lemma CapturesOf(line: string)
    requires Match(line).Some?
    ensures MatchHeading(line) == Some(Captures(line[Match(line).value.vs..Match(line).value.ve], line[Match(line).value.gs..]))
  {
  }

  /** The version and the summary sit at fixed places of a written heading. */
  lemma RenderedSlices(version: string, summary: string)
    ensures RenderHeading(version, summary)[2..|version| + 2] == version
    ensures RenderHeading(version, summary)[|version| + 5..] == summary
  {
    var line := RenderHeading(version, summary);
    assert line == "# " + version + (" - " + summary);
  }

  /** The obvious reading of a written heading. */
  lemma RenderedIsParse(version: string, summary: string, w: Shape)
    requires VersionAt(version, 0, |version|, w)
    requires summary != [] && '\n' !in summary
    ensures IsParse(RenderHeading(version, summary),
                    Parse(2, Shape(w.majorEnd + 2, w.minorEnd + 2, w.patchEnd + 2, w.preEnd + 2),
                          |version| + 2, |version| + 3, |version| + 5))
  {
    RenderedVersion(version, summary, w);
    RenderedTail(version, summary);
    assert RenderHeading(version, summary)[..2] == "# ";
  }

  /** The version of a written heading sits right after `# `. */
  lemma RenderedVersion(version: string, summary: string, w: Shape)
    requires VersionAt(version, 0, |version|, w)
    ensures VersionAt(RenderHeading(version, summary), 2, |version| + 2,
                      Shape(w.majorEnd + 2, w.minorEnd + 2, w.patchEnd + 2, w.preEnd + 2))
  {
    assert RenderHeading(version, summary) == "# " + version + (" - " + summary);
    VersionInContext("# ", version, " - " + summary, w);
  }

  /** After the version of a written heading come the separator and the summary. */
  lemma RenderedTail(version: string, summary: string)
    requires summary != [] && '\n' !in summary
    ensures TailAt(RenderHeading(version, summary), |version| + 2, |version| + 3, |version| + 5)
  {
    var line := RenderHeading(version, summary);
    var n := |version|;
    assert line == ("# " + version + " - ") + summary;
    assert line[n + 2] == ' ' && line[n + 3] == '-' && line[n + 4] == ' ';
    forall k | n + 5 <= k < |line| ensures IsLineChar(line[k]) {
      assert line[k] == summary[k - n - 5];
    }
  }

  /**
   * A reading of a written heading that is at least as long as the obvious one
   * is the obvious one: a version cannot take the space after it, and the
   * summary's first character, not being white space, ends the `\s*` before it.
   */
  lemma RenderedReadingIsFixed(version: string, summary: string, q: Parse)
    requires summary != [] && Text.IsTrimmed(summary)
    requires IsParse(RenderHeading(version, summary), q)
    requires q.vs == 2 && |version| + 2 <= q.ve
    requires q.ve == |version| + 2 ==> |version| + 5 <= q.gs
    ensures q.ve == |version| + 2 && q.gs == |version| + 5
  {
    var line := RenderHeading(version, summary);
    var n := |version|;
    assert line == "# " + version + (" - " + summary);
    assert line[n + 2] == ' ' && line[n + 3] == '-' && line[n + 5] == summary[0];
    if q.ve > n + 2 {
      VersionChars(line, q.vs, q.ve, q.shape, n + 2);
    }
  }

  /**
   * A line whose first character after `#` and white space is not a digit is
   * not a release heading: the title `# Changelog`, or any deeper heading such
   * as `## 1.2.3 - x`.
   */
  lemma HeadingNeedsDigit(line: string)
    requires |line| > 0
    requires Span(line, 1, IsRegexSpace) == |line| || !IsDigit(line[Span(line, 1, IsRegexSpace)])
    ensures MatchHeading(line) == None
  {
    if Matches(line) {
      var p :| IsParse(line, p);
      CoreIsForced(line, p);
    }
    MatchIffMatches(line);
  }

  /** Only level-one headings can be release headings. */
  lemma DeeperHeadingIgnored(line: string)
    requires |line| > 1 && line[1] == '#'
    ensures MatchHeading(line) == None
  {
    HeadingNeedsDigit(line);
  }

  /** The versions of the repository's own examples fit the pattern. */
  lemma SampleVersions()
    ensures IsVersion("1.2.3")
    ensures IsVersion("1.2.3-beta.1+exp.sha")
  {
    assert VersionAt("1.2.3", 0, 5, Shape(1, 3, 5, 5));
    assert VersionAt("1.2.3-beta.1+exp.sha", 0, 20, Shape(1, 3, 5, 12));
  }
}
