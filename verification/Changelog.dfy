/**
 * ParseLatest of internal/changelog: the newest release entry of a changelog.
 *
 * The file is read line by line. Lines before the first release heading are
 * ignored; the first release heading gives the version and the summary; the
 * bullet lines after it, up to the next release heading, give the description.
 * Opening the file is modelled by a `Source`: either the reason it could not be
 * opened, or the bytes that could be read together with the read failure that
 * stopped the reading, if any.
 */
module Changelog {
  import opened Wrappers
  import Text
  import Heading

  const DefaultPath := "changelog.md"
  const ExpectedFormat := "# <version> - <summary>"

  const OpenFailed := "failed to open changelog"
  const ReadFailed := "failed while reading changelog"
  const Unparsable := "unable to parse latest release entry (expected " + ExpectedFormat + ")"

  /** The newest release: its version, its one-line summary and its bullet list. */
  datatype Entry = Entry(version: string, summary: string, description: string)

  /** ParseError: the changelog path, what went wrong and the underlying error, if any. */
  datatype ParseError = ParseError(path: string, msg: string, cause: Option<string>)

  /** ParseError.Error: `path: msg`, followed by `: cause` when there is an underlying error. */
  function ErrorText(e: ParseError): (r: string)
    ensures Text.HasPrefix(r, e.path + ": " + e.msg)
    ensures e.cause.None? <==> |r| == |e.path| + 2 + |e.msg|
    ensures e.cause.Some? ==> r[|e.path| + 2 + |e.msg|..] == ": " + e.cause.value
  {
    match e.cause
    case Some(c) => e.path + ": " + e.msg + ": " + c
    case None => e.path + ": " + e.msg
  }

  /**
   * A read that failed: the reason, and how many lines the scanner had handed
   * out when it recorded the failure. A Scan call records the failure before
   * it hands out its own line, so a failure recorded by the call that hands
   * out line k (counting from 0) has `recordedAfter == k`; the scanner goes
   * on handing out the lines it already holds after recording it.
   */
  datatype ReadFailure = ReadFailure(cause: string, recordedAfter: nat)

  /** The changelog file: not openable, or the text read from it and the failure that ended the reading, if any. */
  datatype Source = Missing(cause: string) | Readable(data: string, failure: Option<ReadFailure>)

  // ---------------------------------------------------------------------
  // Lines, as bufio.ScanLines produces them.
  // ---------------------------------------------------------------------

  /** A line without its one trailing carriage return. */
  function DropCR(s: string): (r: string)
    ensures r == s || (s == r + ['\r'])
    ensures r == [] || r[|r| - 1] != '\r' || s == r + ['\r']
  {
    if |s| > 0 && s[|s| - 1] == '\r' then s[..|s| - 1] else s
  }

  /**
   * The lines of `data`: split at each newline, a trailing carriage return
   * dropped from each, and a last line without newline kept when it is not
   * empty.
   */
  function ScanLines(data: string): (lines: seq<string>)
    ensures forall k :: 0 <= k < |lines| ==> '\n' !in lines[k]
    ensures data == [] <==> lines == []
    decreases |data|
  {
    if data == [] then []
    else if '\n' in data then
      var i := Text.IndexOf(data, '\n');
      [DropCR(data[..i])] + ScanLines(data[i + 1..])
    else [DropCR(data)]
  }

  /** The text of a file whose lines are `lines`, each ended by a newline. */
  function Unlines(lines: seq<string>): string
  {
    if lines == [] then [] else lines[0] + "\n" + Unlines(lines[1..])
  }

  /** A line as written in a file: no newline inside, no carriage return at its end. */
  predicate IsPlainLine(line: string)
  {
    '\n' !in line && (line == [] || line[|line| - 1] != '\r')
  }

  /** Reading back the text of plain lines gives the lines. */
  lemma {:induction false} ScanUnlines(lines: seq<string>)
    requires forall k :: 0 <= k < |lines| ==> IsPlainLine(lines[k])
    ensures ScanLines(Unlines(lines)) == lines
  {
    if lines != [] {
      var data := Unlines(lines);
      var rest := Unlines(lines[1..]);
      assert data == lines[0] + "\n" + rest;
      assert data[|lines[0]|] == '\n';
      var i := Text.IndexOf(data, '\n');
      assert i == |lines[0]| by {
        assert data[..|lines[0]|] == lines[0];
      }
      assert data[..i] == lines[0];
      assert data[i + 1..] == rest;
      ScanUnlines(lines[1..]);
    }
  }

  // ---------------------------------------------------------------------
  // Headings and bullets.
  // ---------------------------------------------------------------------

  /**
   * How the scan reads a line: `heading` is the heading pattern (no match, or
   * the two submatches), `bullet` the description line a line yields, if
   * any, and `trim` the trimming applied to the submatches. The scan is
   * stated for any reader and used with `Markdown`; its proofs need nothing
   * about how the three are computed.
   */
  datatype Reader = Reader(heading: string -> Option<Heading.Captures>, bullet: string -> Option<string>,
                           trim: string -> string)

  /** A line the parser takes as a release heading: it starts with `#` and matches the heading pattern. */
  predicate IsHeading(rd: Reader, line: string)
  {
    |line| > 0 && line[0] == '#' && rd.heading(line).Some?
  }

  /** With the real pattern, the `#` test in front of it is implied by the pattern itself. */
  lemma HeadingIffMatch(line: string)
    ensures IsHeading(Markdown, line) <==> Heading.MatchHeading(line).Some?
  {
  }

  /** No release heading among lines[from..to]. */
  predicate NoHeading(rd: Reader, lines: seq<string>, from: nat, to: nat)
    requires from <= to <= |lines|
  {
    forall k {:trigger IsHeading(rd, lines[k])} :: from <= k < to ==> !IsHeading(rd, lines[k])
  }

  /** A heading-free stretch grows by a line that is not a heading. */
  lemma NoHeadingStep(rd: Reader, lines: seq<string>, from: nat, i: nat)
    requires from <= i < |lines| && NoHeading(rd, lines, from, i) && !IsHeading(rd, lines[i])
    ensures NoHeading(rd, lines, from, i + 1)
  {
  }

  /** The index of the first release heading at or after `from`. */
  function FirstHeading(rd: Reader, lines: seq<string>, from: nat): (r: Option<nat>)
    requires from <= |lines|
    ensures r.Some? ==> from <= r.value < |lines| && IsHeading(rd, lines[r.value]) && NoHeading(rd, lines, from, r.value)
    ensures r.None? ==> NoHeading(rd, lines, from, |lines|)
    decreases |lines| - from
  {
    if from == |lines| then None
    else if IsHeading(rd, lines[from]) then Some(from)
    else FirstHeading(rd, lines, from + 1)
  }

  /** The first heading is determined by where the heading-free stretch ends. */
  lemma FirstHeadingAt(rd: Reader, lines: seq<string>, from: nat, j: nat)
    requires from <= j <= |lines| && NoHeading(rd, lines, from, j)
    requires j == |lines| || IsHeading(rd, lines[j])
    ensures FirstHeading(rd, lines, from) == if j == |lines| then None else Some(j)
  {
  }

  /** The index of the first release heading at or after `from`, or the number of lines if there is none. */
  function NextHeading(rd: Reader, lines: seq<string>, from: nat): (e: nat)
    requires from <= |lines|
    ensures from <= e <= |lines| && NoHeading(rd, lines, from, e)
    ensures e == |lines| || IsHeading(rd, lines[e])
  {
    match FirstHeading(rd, lines, from) case Some(j) => j case None => |lines|
  }

  /** The next heading is where the heading-free stretch ends. */
  lemma NextHeadingAt(rd: Reader, lines: seq<string>, from: nat, j: nat)
    requires from <= j <= |lines| && NoHeading(rd, lines, from, j)
    requires j == |lines| || IsHeading(rd, lines[j])
    ensures NextHeading(rd, lines, from) == j
  {
    FirstHeadingAt(rd, lines, from, j);
  }

  /**
   * A description line: after trimming it starts with `-`, and what follows
   * the dash, trimmed, is not empty. It is kept as `- ` and that text.
   */
  function BulletOf(line: string): (r: Option<string>)
    ensures r.Some? ==> |r.value| > 2 && r.value[..2] == "- " && Text.IsTrimmed(r.value[2..])
  {
    var t := Text.Trim(line);
    if |t| > 0 && t[0] == '-' then
      var b := Text.Trim(t[1..]);
      if b != [] then Some("- " + b) else None
    else None
  }

  /** A kept bullet is already in its final form: parsing it again keeps it unchanged. */
  lemma BulletIdempotent(line: string)
    requires BulletOf(line).Some?
    ensures BulletOf(BulletOf(line).value) == BulletOf(line)
  {
    var r := BulletOf(line).value;
    var b := r[2..];
    assert r == "- " + b;
    BulletOfItem(b);
  }

  /** A bullet written as `- item`, with a trimmed item, is kept as written. */
  lemma BulletOfItem(item: string)
    requires item != [] && Text.IsTrimmed(item)
    ensures BulletOf("- " + item) == Some("- " + item)
  {
    assert "- " + item == [] + "-" + (" " + item + []);
    DashTrimmed([], " ", item, []);
  }

  /** A blank line, or one of white space only, is not a bullet. */
  lemma BlankNoBullet(line: string)
    requires Text.AllSpace(line)
    ensures BulletOf(line) == None
  {
  }

  /**
   * A line whose first non-space character is not `-` is prose, not a
   * bullet: it contributes nothing to the description.
   */
  lemma ProseNoBullet(indent: string, c: char, rest: string)
    requires Text.AllSpace(indent) && !Text.IsSpace(c) && c != '-'
    ensures BulletOf(indent + [c] + rest) == None
  {
    assert indent + [c] + rest == indent + ([c] + rest);
    Text.TrimAfterSpaces(indent, [c] + rest);
    Text.TrimKeepsFirst([c] + rest);
  }

  /**
   * A line whose first non-space character is `-` is a bullet exactly when
   * the text after the dash is not blank, and that text, trimmed, is what
   * the bullet keeps behind a normalised `- `.
   */
  lemma DashLine(indent: string, text: string)
    requires Text.AllSpace(indent)
    ensures BulletOf(indent + "-" + text) ==
      if Text.Trim(text) == [] then None else Some("- " + Text.Trim(text))
  {
    var before, after := Text.TrimSplit(text);
    DashTrimmed(indent, before, Text.Trim(text), after);
  }

  /** DashLine, with the text after the dash cut around its trimming. */
  lemma DashTrimmed(indent: string, before: string, b: string, after: string)
    requires Text.AllSpace(indent) && Text.AllSpace(before) && Text.AllSpace(after) && Text.IsTrimmed(b)
    ensures BulletOf(indent + "-" + (before + b + after)) == if b == [] then None else Some("- " + b)
  {
    var line := indent + "-" + (before + b + after);
    if b == [] {
      assert line == indent + "-" + (before + after);
      Text.TrimUnique(indent, "-", before + after);
    } else {
      var kept := "-" + (before + b);
      assert kept[0] == '-' && kept[|kept| - 1] == b[|b| - 1];
      assert line == indent + kept + after;
      Text.TrimUnique(indent, kept, after);
      assert kept[1..] == before + b;
      assert before + b == before + b + [];
      Text.TrimUnique(before, b, []);
    }
  }

  /** A line that starts with `#` is never a bullet. */
  lemma HashLineNoBullet(line: string)
    requires line != [] && line[0] == '#'
    ensures BulletOf(line) == None
  {
    Text.TrimKeepsFirst(line);
  }

  /** The reader of this changelog format: the release-heading pattern and BulletOf. */
  const Markdown := Reader(Heading.MatchHeading, BulletOf, Text.Trim)

  /**
   * The bullet a line contributes once collecting: none for a line starting
   * with `#` (a heading that is not a release heading is passed over), else
   * the reader's bullet, if any.
   */
  function Kept(rd: Reader, line: string): seq<string>
  {
    if |line| > 0 && line[0] == '#' then []
    else match rd.bullet(line)
      case Some(b) => [b]
      case None => []
  }

  /** With the real reader, the `#` test in Kept changes nothing: such a line is no bullet anyway. */
  lemma KeptMarkdown(line: string)
    ensures Kept(Markdown, line) == match BulletOf(line) case Some(b) => [b] case None => []
  {
    if |line| > 0 && line[0] == '#' {
      HashLineNoBullet(line);
    }
  }

  /** The bullets among lines[from..upto], in order. */
  function Bullets(rd: Reader, lines: seq<string>, from: nat, upto: nat): (r: seq<string>)
    requires from <= upto <= |lines|
    ensures |r| <= upto - from
    decreases upto
  {
    if upto == from then [] else Bullets(rd, lines, from, upto - 1) + Kept(rd, lines[upto - 1])
  }

  /** A bullet taken from a line without newline has no newline. */
  lemma BulletSingleLine(line: string)
    requires '\n' !in line && BulletOf(line).Some?
    ensures '\n' !in BulletOf(line).value
  {
    var t := Text.Trim(line);
    Text.TrimAddsNothing(line, '\n');
    Text.SuffixAddsNothing(t, 1, '\n');
    Text.TrimAddsNothing(t[1..], '\n');
    var b := Text.Trim(t[1..]);
    assert BulletOf(line).value == "- " + b;
  }

  // ---------------------------------------------------------------------
  // The newest entry, stated over the lines.
  // ---------------------------------------------------------------------

  /**
   * The newest release section of a changelog: the submatches of its heading,
   * its bullets and where it ends (the index of the next release heading, or
   * the number of lines).
   */
  datatype Section = Section(heading: Heading.Captures, bullets: seq<string>, end: nat)

  /** The section opened by the first release heading, if there is one. */
  function Latest(rd: Reader, lines: seq<string>): (r: Option<Section>)
    ensures r.Some? ==> r.value.end <= |lines|
    ensures r.None? <==> NoHeading(rd, lines, 0, |lines|)
    ensures r.Some? ==> r.value.end == |lines| || IsHeading(rd, lines[r.value.end])
  {
    match FirstHeading(rd, lines, 0)
    case None => None
    case Some(h) =>
      var end := NextHeading(rd, lines, h + 1);
      Some(Section(rd.heading(lines[h]).value, Bullets(rd, lines, h + 1, end), end))
  }

  /**
   * Whether scanner.Err reports the read failure after the loop: always when
   * the loop ran out of lines, and after an early stop only when one of the
   * `consumed` Scan calls the loop made recorded it, that is, before the
   * last line the loop took was handed out.
   */
  predicate FailureSeen(failure: ReadFailure, exhausted: bool, consumed: nat)
  {
    exhausted || failure.recordedAfter < consumed
  }

  /**
   * The result once the lines are scanned: `n` lines, `sec` the newest
   * section, `trim` the trimming of its submatches. A read failure the scanner reports comes first; then a missing
   * release heading or a blank summary; else the entry, whose description is
   * the bullets joined by newlines.
   */
  function Outcome(trim: string -> string, path: string, failure: Option<ReadFailure>, n: nat, sec: Option<Section>)
    : (r: Result<Entry, ParseError>)
    ensures r.Failure? ==> r.error.path == path && r.error.msg in {ReadFailed, Unparsable}
    ensures r.Failure? ==> (r.error.cause.None? <==> r.error.msg == Unparsable)
    ensures r.Success? ==> r.value.summary != []
  {
    var exhausted := sec.None? || sec.value.end == n;
    var consumed := if exhausted then n else sec.value.end + 1;
    if failure.Some? && FailureSeen(failure.value, exhausted, consumed) then
      Failure(ParseError(path, ReadFailed, Some(failure.value.cause)))
    else if sec.None? || trim(sec.value.heading.summary) == [] then
      Failure(ParseError(path, Unparsable, None))
    else
      var bullets := sec.value.bullets;
      Success(Entry(trim(sec.value.heading.version), trim(sec.value.heading.summary),
                    if |bullets| > 0 then Text.Join(bullets, "\n") else ""))
  }

  /** What ParseLatest returns for the changelog at `path`, with the lines read by `rd`. */
  function LatestEntryWith(rd: Reader, path: string, src: Source): (r: Result<Entry, ParseError>)
    ensures r.Failure? ==> r.error.path == path && r.error.msg in {OpenFailed, ReadFailed, Unparsable}
    ensures r.Failure? ==> (r.error.cause.None? <==> r.error.msg == Unparsable)
  {
    match src
    case Missing(cause) => Failure(ParseError(path, OpenFailed, Some(cause)))
    case Readable(data, failure) =>
      var lines := ScanLines(data);
      Outcome(rd.trim, path, failure, |lines|, Latest(rd, lines))
  }

  /**
   * What ParseLatest returns for the changelog at `path`: on success, a
   * version of the pattern without white space and a trimmed one-line summary.
   */
  function LatestEntry(path: string, src: Source): (r: Result<Entry, ParseError>)
    ensures r.Failure? ==> r.error.path == path && r.error.msg in {OpenFailed, ReadFailed, Unparsable}
    ensures r.Failure? ==> (r.error.cause.None? <==> r.error.msg == Unparsable)
    ensures r.Success? ==> Heading.IsVersion(r.value.version)
    ensures r.Success? ==> r.value.summary != [] && Text.IsTrimmed(r.value.summary) && '\n' !in r.value.summary
    ensures r.Success? ==> forall k :: 0 <= k < |r.value.version| ==> !Text.IsSpace(r.value.version[k])
  {
    var r := LatestEntryWith(Markdown, path, src);
    if r.Success? then EntryFacts(path, src); r else r
  }

  /**
   * The version and summary ParseLatest returns come from the first release
   * heading: the version is its captured version as it stands, the summary
   * its captured summary trimmed.
   */
  lemma EntryFacts(path: string, src: Source)
    requires LatestEntryWith(Markdown, path, src).Success?
    ensures src.Readable? && FirstHeading(Markdown, ScanLines(src.data), 0).Some?
    ensures var lines := ScanLines(src.data); var h := FirstHeading(Markdown, lines, 0).value;
      && Heading.MatchHeading(lines[h]).Some?
      && LatestEntryWith(Markdown, path, src).value.version == Heading.MatchHeading(lines[h]).value.version
      && LatestEntryWith(Markdown, path, src).value.summary == Text.Trim(Heading.MatchHeading(lines[h]).value.summary)
    ensures Heading.IsVersion(LatestEntryWith(Markdown, path, src).value.version)
    ensures LatestEntryWith(Markdown, path, src).value.summary != []
    ensures Text.IsTrimmed(LatestEntryWith(Markdown, path, src).value.summary)
    ensures '\n' !in LatestEntryWith(Markdown, path, src).value.summary
    ensures forall k :: 0 <= k < |LatestEntryWith(Markdown, path, src).value.version| ==>
              !Text.IsSpace(LatestEntryWith(Markdown, path, src).value.version[k])
  {
    var r := LatestEntryWith(Markdown, path, src);
    var lines := ScanLines(src.data);
    var h := FirstHeading(Markdown, lines, 0).value;
    var caps := Heading.MatchHeading(lines[h]).value;
    assert r.value.version == Text.Trim(caps.version) && r.value.summary == Text.Trim(caps.summary);
    Heading.CapturedVersion(lines[h]);
    Text.TrimOfTrimmed(caps.version);
    Text.TrimAddsNothing(caps.summary, '\n');
  }

  /**
   * What the scanning loop knows after the first `i` lines: before the first
   * release heading nothing is kept; after it, its trimmed submatches and the
   * bullets seen since.
   */
  ghost predicate Scanned(rd: Reader, lines: seq<string>, i: nat, collecting: bool, h: nat,
                          version: string, summary: string, bullets: seq<string>)
    requires i <= |lines|
  {
    if !collecting then NoHeading(rd, lines, 0, i)
    else
      && h < i && NoHeading(rd, lines, 0, h) && IsHeading(rd, lines[h]) && NoHeading(rd, lines, h + 1, i)
      && version == rd.trim(rd.heading(lines[h]).value.version)
      && summary == rd.trim(rd.heading(lines[h]).value.summary)
      && bullets == Bullets(rd, lines, h + 1, i)
  }

  /** Before the first release heading, a line that is not one is passed over. */
  lemma ScanSkip(rd: Reader, lines: seq<string>, i: nat, h: nat,
                 version: string, summary: string, bullets: seq<string>)
    requires i < |lines| && Scanned(rd, lines, i, false, h, version, summary, bullets)
    requires !IsHeading(rd, lines[i])
    ensures Scanned(rd, lines, i + 1, false, h, version, summary, bullets)
  {
    NoHeadingStep(rd, lines, 0, i);
  }

  /** After the first release heading, a line that is not one adds its bullet, if any. */
  lemma ScanBullet(rd: Reader, lines: seq<string>, i: nat, h: nat,
                   version: string, summary: string, bullets: seq<string>)
    requires i < |lines| && Scanned(rd, lines, i, true, h, version, summary, bullets)
    requires !IsHeading(rd, lines[i])
    ensures Scanned(rd, lines, i + 1, true, h, version, summary, bullets + Kept(rd, lines[i]))
  {
    NoHeadingStep(rd, lines, h + 1, i);
  }

  /** The first release heading starts the collection with no bullets. */
  lemma ScanOpen(rd: Reader, lines: seq<string>, i: nat, h: nat,
                 version: string, summary: string, bullets: seq<string>)
    requires i < |lines| && Scanned(rd, lines, i, false, h, version, summary, bullets)
    requires IsHeading(rd, lines[i])
    ensures Scanned(rd, lines, i + 1, true, i, rd.trim(rd.heading(lines[i]).value.version),
                    rd.trim(rd.heading(lines[i]).value.summary), [])
  {
  }

  /** The state the scanning loop ends in, given by the newest section. */
  ghost predicate ScanResult(rd: Reader, lines: seq<string>, collecting: bool, version: string, summary: string,
                             bulletLines: seq<string>, stopped: bool, i: nat)
  {
    match Latest(rd, lines)
    case None => !collecting && !stopped && i == |lines|
    case Some(sec) =>
      && collecting && i == sec.end && (stopped <==> i < |lines|)
      && version == rd.trim(sec.heading.version) && summary == rd.trim(sec.heading.summary)
      && bulletLines == sec.bullets
  }

  /**
   * When the loop ends, at the end of the lines or at the second release
   * heading (at index `i`), its state is the newest section.
   */
  lemma ScanDone(rd: Reader, lines: seq<string>, i: nat, collecting: bool, h: nat,
                 version: string, summary: string, bullets: seq<string>, stopped: bool)
    requires i <= |lines| && Scanned(rd, lines, i, collecting, h, version, summary, bullets)
    requires i == |lines| || (collecting && IsHeading(rd, lines[i]))
    requires stopped <==> i < |lines|
    ensures ScanResult(rd, lines, collecting, version, summary, bullets, stopped, i)
  {
    if collecting {
      FirstHeadingAt(rd, lines, 0, h);
      NextHeadingAt(rd, lines, h + 1, i);
    } else {
      FirstHeadingAt(rd, lines, 0, i);
    }
  }

  /**
   * The scanning loop of ParseLatest: skips to the first release heading,
   * keeps its trimmed submatches, collects the bullets after it and stops at
   * the next release heading. `i` is the index of that heading, or the number
   * of lines when the loop ran out of lines.
   */
  method ScanLatest(rd: Reader, lines: seq<string>)
    returns (collecting: bool, version: string, summary: string, bulletLines: seq<string>, stopped: bool, i: nat)
    ensures ScanResult(rd, lines, collecting, version, summary, bulletLines, stopped, i)
  {
    version, summary := "", "";
    collecting := false;
    bulletLines := [];
    stopped := false;
    ghost var h := 0;
    i := 0;
    while i < |lines|
      invariant i <= |lines|
      invariant Scanned(rd, lines, i, collecting, h, version, summary, bulletLines)
    {
      var line := lines[i];
      if |line| > 0 && line[0] == '#' {
        var matches := rd.heading(line);
        if matches.None? {
          if collecting {
            ScanBullet(rd, lines, i, h, version, summary, bulletLines);
            assert bulletLines + Kept(rd, line) == bulletLines;
          } else {
            ScanSkip(rd, lines, i, h, version, summary, bulletLines);
          }
          i := i + 1;
          continue;
        }
        if !collecting {
          ScanOpen(rd, lines, i, h, version, summary, bulletLines);
          bulletLines := [];
          version := rd.trim(matches.value.version);
          summary := rd.trim(matches.value.summary);
          collecting := true;
          h := i;
          i := i + 1;
          continue;
        }
        stopped := true;
        break;
      }
      if !collecting {
        ScanSkip(rd, lines, i, h, version, summary, bulletLines);
      } else {
        ScanBullet(rd, lines, i, h, version, summary, bulletLines);
        match rd.bullet(line)
        case Some(bullet) =>
          assert Kept(rd, line) == [bullet];
          bulletLines := bulletLines + [bullet];
        case None =>
          assert bulletLines + Kept(rd, line) == bulletLines;
      }
      i := i + 1;
    }
    ScanDone(rd, lines, i, collecting, h, version, summary, bulletLines, stopped);
  }

  /** ParseLatest, with the lines read by `rd`. */
  method ParseLatestWith(rd: Reader, path: string, src: Source) returns (r: Result<Entry, ParseError>)
    ensures r == LatestEntryWith(rd, path, src)
  {
    if src.Missing? {
      return Failure(ParseError(path, OpenFailed, Some(src.cause)));
    }
    var lines := ScanLines(src.data);
    var collecting, version, summary, bulletLines, stopped, i := ScanLatest(rd, lines);
    ghost var sec := Latest(rd, lines);
    assert LatestEntryWith(rd, path, src) == Outcome(rd.trim, path, src.failure, |lines|, sec);
    var consumed := if stopped then i + 1 else i;
    if src.failure.Some? && (!stopped || src.failure.value.recordedAfter < consumed) {
      return Failure(ParseError(path, ReadFailed, Some(src.failure.value.cause)));
    }
    if !collecting || summary == "" {
      return Failure(ParseError(path, Unparsable, None));
    }
    var description := "";
    if |bulletLines| > 0 {
      description := Text.Join(bulletLines, "\n");
    }
    return Success(Entry(version, summary, description));
  }

  /** ParseLatest: the newest release entry of the changelog at `path`. */
  method ParseLatest(path: string, src: Source) returns (r: Result<Entry, ParseError>)
    ensures r == LatestEntry(path, src)
  {
    r := ParseLatestWith(Markdown, path, src);
  }
}
