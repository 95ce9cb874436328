/**
 * What ParseLatest promises about whole changelogs: text before the first
 * release heading and text after the second one play no part, a file without
 * a release heading is rejected, the description is the bullet list line by
 * line, a read failure is reported exactly when the scanner sees it, and a
 * changelog written in the expected format is read back as written.
 */
module ChangelogFacts {
  import opened Wrappers
  import Text
  import Heading
  import opened Changelog

  // ---------------------------------------------------------------------
  // Where the newest section lies.
  // ---------------------------------------------------------------------

  /** A heading-free stretch of `lines` is heading-free in any longer file. */
  lemma NoHeadingExtended(rd: Reader, lines: seq<string>, tail: seq<string>, from: nat, to: nat)
    requires from <= to <= |lines| && NoHeading(rd, lines, from, to)
    ensures NoHeading(rd, lines + tail, from, to)
  {
    forall k | from <= k < to ensures !IsHeading(rd, (lines + tail)[k]) {
      assert (lines + tail)[k] == lines[k];
    }
  }

  /** The bullets of a stretch of `lines` are the same in any longer file. */
  lemma BulletsExtended(rd: Reader, lines: seq<string>, tail: seq<string>, from: nat, upto: nat)
    requires from <= upto <= |lines|
    ensures Bullets(rd, lines + tail, from, upto) == Bullets(rd, lines, from, upto)
    decreases upto
  {
    if upto > from {
      BulletsExtended(rd, lines, tail, from, upto - 1);
      assert (lines + tail)[upto - 1] == lines[upto - 1];
    }
  }

  /**
   * Once the newest section is closed by a second release heading, whatever
   * follows is never read: the section is the same in any longer file.
   */
  lemma StopsAtNextHeading(rd: Reader, lines: seq<string>, tail: seq<string>)
    requires Latest(rd, lines).Some? && Latest(rd, lines).value.end < |lines|
    ensures Latest(rd, lines + tail) == Latest(rd, lines)
  {
    var all := lines + tail;
    var h := FirstHeading(rd, lines, 0).value;
    var e := NextHeading(rd, lines, h + 1);
    assert all[h] == lines[h] && all[e] == lines[e];
    NoHeadingExtended(rd, lines, tail, 0, h);
    NoHeadingExtended(rd, lines, tail, h + 1, e);
    FirstHeadingAt(rd, all, 0, h);
    NextHeadingAt(rd, all, h + 1, e);
    BulletsExtended(rd, lines, tail, h + 1, e);
  }

  /** The newest section of `lines`, moved `n` lines down. */
  function Shifted(sec: Option<Section>, n: nat): (r: Option<Section>)
    ensures r.Some? <==> sec.Some?
    ensures r.Some? ==> r.value.end == sec.value.end + n
  {
    match sec
    case None => None
    case Some(s) => Some(s.(end := s.end + n))
  }

  /** A line of `lines` read behind a preamble. */
  lemma IndexShifted(pre: seq<string>, lines: seq<string>, i: nat)
    requires i < |lines|
    ensures (pre + lines)[i + |pre|] == lines[i]
  {
  }

  /** Heading-free stretches of `lines` stay heading-free behind a preamble. */
  lemma NoHeadingShifted(rd: Reader, pre: seq<string>, lines: seq<string>, from: nat, upto: nat)
    requires from <= upto <= |lines| && NoHeading(rd, lines, from, upto)
    ensures NoHeading(rd, pre + lines, from + |pre|, upto + |pre|)
  {
    forall k | from + |pre| <= k < upto + |pre| ensures !IsHeading(rd, (pre + lines)[k]) {
      IndexShifted(pre, lines, k - |pre|);
    }
  }

  /** The bullets of a stretch of `lines` are the same behind a preamble. */
  lemma BulletsShifted(rd: Reader, pre: seq<string>, lines: seq<string>, from: nat, upto: nat)
    requires from <= upto <= |lines|
    ensures Bullets(rd, pre + lines, from + |pre|, upto + |pre|) == Bullets(rd, lines, from, upto)
    decreases upto
  {
    if upto > from {
      BulletsShifted(rd, pre, lines, from, upto - 1);
      IndexShifted(pre, lines, upto - 1);
    }
  }

  /** A heading-free preamble joined to heading-free lines is heading-free. */
  lemma NoHeadingJoined(rd: Reader, pre: seq<string>, lines: seq<string>, upto: nat)
    requires upto <= |lines| && NoHeading(rd, pre, 0, |pre|) && NoHeading(rd, lines, 0, upto)
    ensures NoHeading(rd, pre + lines, 0, upto + |pre|)
  {
    NoHeadingExtended(rd, pre, lines, 0, |pre|);
    NoHeadingShifted(rd, pre, lines, 0, upto);
  }

  /**
   * Text before the first release heading (a title, an introduction, lower
   * level headings) is skipped: the newest section is the same, only further
   * down.
   */
  lemma PreambleIgnored(rd: Reader, pre: seq<string>, lines: seq<string>)
    requires NoHeading(rd, pre, 0, |pre|)
    ensures Latest(rd, pre + lines) == Shifted(Latest(rd, lines), |pre|)
  {
    match FirstHeading(rd, lines, 0)
    case None =>
      NoHeadingJoined(rd, pre, lines, |lines|);
      FirstHeadingAt(rd, pre + lines, 0, |pre + lines|);
    case Some(h) =>
      PreambleBeforeRelease(rd, pre, lines, h);
  }

  /** PreambleIgnored when `lines` has a first release heading, at `h`. */
  lemma PreambleBeforeRelease(rd: Reader, pre: seq<string>, lines: seq<string>, h: nat)
    requires NoHeading(rd, pre, 0, |pre|)
    requires FirstHeading(rd, lines, 0) == Some(h)
    ensures Latest(rd, pre + lines) == Shifted(Latest(rd, lines), |pre|)
  {
    var all, e := pre + lines, NextHeading(rd, lines, h + 1);
    var h', e' := h + |pre|, e + |pre|;
    HeadingShifted(rd, pre, lines, h);
    assert FirstHeading(rd, all, 0) == Some(h') && all[h'] == lines[h];
    EndShifted(rd, pre, lines, h, e);
    assert NextHeading(rd, all, h' + 1) == e';
    BulletsShifted(rd, pre, lines, h + 1, e);
    assert Bullets(rd, all, h' + 1, e') == Bullets(rd, lines, h + 1, e);
    LatestAt(rd, lines, h, e);
    LatestAt(rd, all, h', e');
  }

  /** The first release heading, behind a heading-free preamble. */
  lemma HeadingShifted(rd: Reader, pre: seq<string>, lines: seq<string>, h: nat)
    requires NoHeading(rd, pre, 0, |pre|)
    requires FirstHeading(rd, lines, 0) == Some(h)
    ensures FirstHeading(rd, pre + lines, 0) == Some(h + |pre|)
    ensures (pre + lines)[h + |pre|] == lines[h]
  {
    NoHeadingJoined(rd, pre, lines, h);
    IndexShifted(pre, lines, h);
    FirstHeadingAt(rd, pre + lines, 0, h + |pre|);
  }

  /** The end of the newest section, behind a preamble. */
  lemma EndShifted(rd: Reader, pre: seq<string>, lines: seq<string>, h: nat, e: nat)
    requires h < |lines| && e == NextHeading(rd, lines, h + 1)
    ensures NextHeading(rd, pre + lines, h + |pre| + 1) == e + |pre|
  {
    NoHeadingShifted(rd, pre, lines, h + 1, e);
    if e < |lines| {
      IndexShifted(pre, lines, e);
    }
    NextHeadingAt(rd, pre + lines, h + |pre| + 1, e + |pre|);
  }

  /** The newest section when its heading is at `h` and the next one at `e`. */
  lemma LatestAt(rd: Reader, lines: seq<string>, h: nat, e: nat)
    requires FirstHeading(rd, lines, 0) == Some(h) && e == NextHeading(rd, lines, h + 1)
    ensures Latest(rd, lines) == Some(Section(rd.heading(lines[h]).value, Bullets(rd, lines, h + 1, e), e))
  {
  }

  // ---------------------------------------------------------------------
  // Lines that are neither release headings nor bullets.
  // ---------------------------------------------------------------------

  /** `lines` with `x` put in at index `k`. */
  function Inserted(lines: seq<string>, k: nat, x: string): (r: seq<string>)
    requires k <= |lines|
    ensures |r| == |lines| + 1 && r[k] == x
    ensures forall j :: 0 <= j < |lines| ==> r[Moved(k, j)] == lines[j]
  {
    lines[..k] + [x] + lines[k..]
  }

  /** Where index `j` of the lines goes once a line is put in at `k`. */
  function Moved(k: nat, j: nat): nat
  {
    if j < k then j else j + 1
  }

  /** Where a stretch starting at `j` starts once a line is put in at `k`: the new line joins it. */
  function MovedStart(k: nat, j: nat): nat
  {
    if j <= k then j else j + 1
  }

  /** A heading-free stretch stays heading-free when a line that is no heading is put in. */
  lemma NoHeadingInserted(rd: Reader, lines: seq<string>, k: nat, x: string, from: nat, to: nat)
    requires k <= |lines| && !IsHeading(rd, x)
    requires from <= to <= |lines| && NoHeading(rd, lines, from, to)
    ensures NoHeading(rd, Inserted(lines, k, x), MovedStart(k, from), Moved(k, to))
  {
    var ins := Inserted(lines, k, x);
    forall j | MovedStart(k, from) <= j < Moved(k, to) ensures !IsHeading(rd, ins[j]) {
      if j > k {
        assert ins[j] == ins[Moved(k, j - 1)] == lines[j - 1];
      } else if j < k {
        assert ins[j] == ins[Moved(k, j)] == lines[j];
      }
    }
  }

  /** A stretch keeps its bullets when a line that keeps nothing is put in. */
  lemma {:induction false} BulletsInserted(rd: Reader, lines: seq<string>, k: nat, x: string, from: nat, upto: nat)
    requires k <= |lines| && Kept(rd, x) == []
    requires from <= upto <= |lines|
    ensures MovedStart(k, from) <= Moved(k, upto)
    ensures Bullets(rd, Inserted(lines, k, x), MovedStart(k, from), Moved(k, upto)) == Bullets(rd, lines, from, upto)
    decreases upto
  {
    var ins := Inserted(lines, k, x);
    var start := MovedStart(k, from);
    if upto == from {
      if from == k {
        assert Bullets(rd, ins, k, k + 1) == Bullets(rd, ins, k, k) + Kept(rd, x);
      }
    } else {
      BulletsInserted(rd, lines, k, x, from, upto - 1);
      var before := Bullets(rd, ins, start, Moved(k, upto - 1));
      assert ins[Moved(k, upto - 1)] == lines[upto - 1];
      if upto == k {
        assert Bullets(rd, ins, start, k + 1) == Bullets(rd, ins, start, k) + Kept(rd, x);
      }
      assert Bullets(rd, ins, start, Moved(k, upto)) == before + Kept(rd, lines[upto - 1]);
    }
  }

  /**
   * A line that is neither a release heading nor kept as a bullet changes
   * nothing about the newest section, wherever it is put in: the same
   * heading and the same bullets, ending one line further down if the line
   * went in before its end.
   */
  lemma NoteInserted(rd: Reader, lines: seq<string>, k: nat, x: string)
    requires k <= |lines| && !IsHeading(rd, x) && Kept(rd, x) == []
    ensures Latest(rd, Inserted(lines, k, x)).None? <==> Latest(rd, lines).None?
    ensures Latest(rd, lines).Some? ==>
      Latest(rd, Inserted(lines, k, x)) == Some(Latest(rd, lines).value.(end := Moved(k, Latest(rd, lines).value.end)))
  {
    var ins := Inserted(lines, k, x);
    match FirstHeading(rd, lines, 0)
    case None =>
      NoHeadingInserted(rd, lines, k, x, 0, |lines|);
      FirstHeadingAt(rd, ins, 0, |ins|);
    case Some(h) =>
      var e := NextHeading(rd, lines, h + 1);
      var h', e' := Moved(k, h), Moved(k, e);
      NoHeadingInserted(rd, lines, k, x, 0, h);
      FirstHeadingAt(rd, ins, 0, h');
      NoHeadingInserted(rd, lines, k, x, h + 1, e);
      assert MovedStart(k, h + 1) == h' + 1;
      if e < |lines| {
        assert ins[e'] == lines[e];
      }
      NextHeadingAt(rd, ins, h' + 1, e');
      BulletsInserted(rd, lines, k, x, h + 1, e);
      LatestAt(rd, lines, h, e);
      LatestAt(rd, ins, h', e');
  }

  /**
   * A blank line, a prose line or any other line that is neither a release
   * heading nor a bullet can be added anywhere in a changelog that reads
   * without failure, and ParseLatest returns the same entry or error.
   */
  lemma NoteLineIgnored(path: string, lines: seq<string>, k: nat, x: string)
    requires k <= |lines| && IsPlainLine(x) && forall j :: 0 <= j < |lines| ==> IsPlainLine(lines[j])
    requires !IsHeading(Markdown, x) && BulletOf(x) == None
    ensures LatestEntry(path, Readable(Unlines(Inserted(lines, k, x)), None))
              == LatestEntry(path, Readable(Unlines(lines), None))
  {
    InsertedPlain(lines, k, x);
    ReadLines(path, lines);
    ReadLines(path, Inserted(lines, k, x));
    NoteSameOutcome(path, lines, k, x);
  }

  /** NoteLineIgnored, on the lines of the changelog. */
  lemma NoteSameOutcome(path: string, lines: seq<string>, k: nat, x: string)
    requires k <= |lines| && !IsHeading(Markdown, x) && BulletOf(x) == None
    ensures Outcome(Markdown.trim, path, None, |lines| + 1, Latest(Markdown, Inserted(lines, k, x)))
              == Outcome(Markdown.trim, path, None, |lines|, Latest(Markdown, lines))
  {
    KeptMarkdown(x);
    NoteInserted(Markdown, lines, k, x);
    SameSectionSameOutcome(Markdown.trim, path, |lines| + 1, Latest(Markdown, Inserted(lines, k, x)), |lines|, Latest(Markdown, lines));
  }

  /** A changelog written from plain lines and read without failure gives the outcome for those lines. */
  lemma ReadLines(path: string, lines: seq<string>)
    requires forall j :: 0 <= j < |lines| ==> IsPlainLine(lines[j])
    ensures LatestEntry(path, Readable(Unlines(lines), None))
              == Outcome(Markdown.trim, path, None, |lines|, Latest(Markdown, lines))
  {
    ScanUnlines(lines);
    assert LatestEntryWith(Markdown, path, Readable(Unlines(lines), None))
             == Outcome(Markdown.trim, path, None, |lines|, Latest(Markdown, lines));
  }

  /** Putting a plain line among plain lines gives plain lines. */
  lemma InsertedPlain(lines: seq<string>, k: nat, x: string)
    requires k <= |lines| && IsPlainLine(x) && forall j :: 0 <= j < |lines| ==> IsPlainLine(lines[j])
    ensures forall j :: 0 <= j < |lines| + 1 ==> IsPlainLine(Inserted(lines, k, x)[j])
  {
    var ins := Inserted(lines, k, x);
    forall j | 0 <= j < |ins| ensures IsPlainLine(ins[j]) {
      if j < k {
        assert ins[j] == ins[Moved(k, j)];
      } else if j > k {
        assert ins[j] == ins[Moved(k, j - 1)];
      }
    }
  }

  /** Without a read failure, the result depends on the newest section's heading and bullets only. */
  lemma SameSectionSameOutcome(trim: string -> string, path: string, n: nat, sec: Option<Section>, m: nat, sec': Option<Section>)
    requires sec.None? <==> sec'.None?
    requires sec.Some? ==> sec.value.heading == sec'.value.heading && sec.value.bullets == sec'.value.bullets
    ensures Outcome(trim, path, None, n, sec) == Outcome(trim, path, None, m, sec')
  {
  }

  // ---------------------------------------------------------------------
  // Errors.
  // ---------------------------------------------------------------------

  /** A changelog without any release heading is rejected as unparsable, unless reading it failed. */
  lemma NoReleaseUnparsable(path: string, data: string)
    requires NoHeading(Markdown, ScanLines(data), 0, |ScanLines(data)|)
    ensures LatestEntry(path, Readable(data, None)) == Failure(ParseError(path, Unparsable, None))
  {
  }

  /**
   * A changelog whose headings are all deeper than level one (`## 1.2.3 - x`)
   * has no release heading.
   */
  lemma DeeperHeadingsUnparsable(path: string, data: string)
    requires forall k :: 0 <= k < |ScanLines(data)| && |ScanLines(data)[k]| > 0 && ScanLines(data)[k][0] == '#' ==>
               |ScanLines(data)[k]| > 1 && ScanLines(data)[k][1] == '#'
    ensures LatestEntry(path, Readable(data, None)).Failure?
    ensures LatestEntry(path, Readable(data, None)).error.msg == Unparsable
  {
    var lines := ScanLines(data);
    forall k | 0 <= k < |lines| ensures !IsHeading(Markdown, lines[k]) {
      if |lines[k]| > 0 && lines[k][0] == '#' {
        Heading.DeeperHeadingIgnored(lines[k]);
      }
    }
    NoReleaseUnparsable(path, data);
  }

  /** A read failure is reported when the loop ran out of lines, whatever it had found. */
  lemma FailureAtEndReported(path: string, data: string, f: ReadFailure)
    requires Latest(Markdown, ScanLines(data)).None? || Latest(Markdown, ScanLines(data)).value.end == |ScanLines(data)|
    ensures LatestEntry(path, Readable(data, Some(f))) == Failure(ParseError(path, ReadFailed, Some(f.cause)))
  {
  }

  /**
   * A read failure the scanner records only after it handed out the line
   * that stopped the loop is never seen: no further Scan call is made, and
   * the result is the one without the failure.
   */
  lemma LateFailureIgnored(path: string, data: string, f: ReadFailure)
    requires Latest(Markdown, ScanLines(data)).Some?
    requires Latest(Markdown, ScanLines(data)).value.end < |ScanLines(data)|
    requires f.recordedAfter > Latest(Markdown, ScanLines(data)).value.end
    ensures LatestEntry(path, Readable(data, Some(f))) == LatestEntry(path, Readable(data, None))
  {
  }

  /**
   * A read failure recorded by one of the Scan calls the loop made, up to the
   * one that handed out the line that stopped it, is reported.
   */
  lemma EarlyFailureReported(path: string, data: string, f: ReadFailure)
    requires Latest(Markdown, ScanLines(data)).Some?
    requires f.recordedAfter <= Latest(Markdown, ScanLines(data)).value.end
    ensures LatestEntry(path, Readable(data, Some(f))) == Failure(ParseError(path, ReadFailed, Some(f.cause)))
  {
  }

  // ---------------------------------------------------------------------
  // The description.
  // ---------------------------------------------------------------------

  /** A description line: `- ` and a trimmed, non-empty text on one line. */
  predicate IsItemLine(b: string)
  {
    |b| > 2 && b[..2] == "- " && Text.IsTrimmed(b[2..]) && '\n' !in b
  }

  /** Every bullet `rd` takes from a line without newline is a description line. */
  ghost predicate ItemBullets(rd: Reader)
  {
    forall line :: '\n' !in line && rd.bullet(line).Some? ==> IsItemLine(rd.bullet(line).value)
  }

  /** BulletOf takes only description lines. */
  lemma MarkdownItemBullets()
    ensures ItemBullets(Markdown)
  {
    forall line | '\n' !in line && Markdown.bullet(line).Some? ensures IsItemLine(Markdown.bullet(line).value) {
      BulletSingleLine(line);
    }
  }

  /** The bullets of newline-free lines are description lines. */
  lemma {:induction false} BulletsAreItems(rd: Reader, lines: seq<string>, from: nat, upto: nat)
    requires ItemBullets(rd) && from <= upto <= |lines|
    requires forall k :: 0 <= k < |lines| ==> '\n' !in lines[k]
    ensures forall k :: 0 <= k < |Bullets(rd, lines, from, upto)| ==> IsItemLine(Bullets(rd, lines, from, upto)[k])
    decreases upto
  {
    if upto > from {
      BulletsAreItems(rd, lines, from, upto - 1);
    }
  }

  /** The description ParseLatest builds: the bullets joined by newlines, or nothing. */
  lemma DescriptionOf(rd: Reader, path: string, data: string)
    requires LatestEntryWith(rd, path, Readable(data, None)).Success?
    ensures Latest(rd, ScanLines(data)).Some?
    ensures var bullets := Latest(rd, ScanLines(data)).value.bullets;
            LatestEntryWith(rd, path, Readable(data, None)).value.description
              == if bullets == [] then [] else Text.Join(bullets, "\n")
  {
  }

  /**
   * The description is empty exactly when the newest section has no bullets;
   * otherwise its lines are those bullets, in order, each a description line.
   */
  lemma DescriptionIsBulletList(path: string, data: string)
    requires LatestEntry(path, Readable(data, None)).Success?
    ensures Latest(Markdown, ScanLines(data)).Some?
    ensures var d := LatestEntry(path, Readable(data, None)).value.description;
            var bullets := Latest(Markdown, ScanLines(data)).value.bullets;
            && (d == [] <==> bullets == [])
            && (d != [] ==> Text.Split(d, '\n') == bullets)
            && forall k :: 0 <= k < |bullets| ==> IsItemLine(bullets[k])
  {
    var lines := ScanLines(data);
    DescriptionOf(Markdown, path, data);
    var h := FirstHeading(Markdown, lines, 0).value;
    MarkdownItemBullets();
    BulletsAreItems(Markdown, lines, h + 1, NextHeading(Markdown, lines, h + 1));
    JoinedItems(Latest(Markdown, lines).value.bullets);
  }

  /** Description lines joined by newlines split back into themselves, and join to nothing only when there are none. */
  lemma JoinedItems(bullets: seq<string>)
    requires forall k :: 0 <= k < |bullets| ==> IsItemLine(bullets[k])
    ensures var d := if bullets == [] then [] else Text.Join(bullets, "\n");
      && (d == [] <==> bullets == [])
      && (d != [] ==> Text.Split(d, '\n') == bullets)
  {
    if bullets != [] {
      Text.SplitJoin(bullets, '\n');
      Text.JoinEmptyIff(bullets, "\n");
    }
  }

  // ---------------------------------------------------------------------
  // Writing a changelog and reading it back.
  // ---------------------------------------------------------------------

  /** The description lines `- item` of the given items. */
  function ItemLines(items: seq<string>): (r: seq<string>)
    ensures |r| == |items|
    ensures forall k :: 0 <= k < |r| ==> r[k] == "- " + items[k]
  {
    if items == [] then [] else ItemLines(items[..|items| - 1]) + ["- " + items[|items| - 1]]
  }

  /** A text fit to be a summary or an item: non-empty, trimmed, on one line. */
  predicate IsOneLineText(s: string)
  {
    s != [] && Text.IsTrimmed(s) && '\n' !in s
  }

  /** A stretch of lines each kept whole gives its own lines as bullets. */
  lemma {:induction false} AllKept(rd: Reader, lines: seq<string>, from: nat, upto: nat)
    requires from <= upto <= |lines|
    requires forall k :: from <= k < upto ==> Kept(rd, lines[k]) == [lines[k]]
    ensures Bullets(rd, lines, from, upto) == lines[from..upto]
    decreases upto
  {
    if upto > from {
      AllKept(rd, lines, from, upto - 1);
      assert lines[from..upto] == lines[from..upto - 1] + [lines[upto - 1]];
    }
  }

  /** A written `- item` line is kept as written. */
  lemma ItemKept(item: string)
    requires IsOneLineText(item)
    ensures Kept(Markdown, "- " + item) == ["- " + item]
  {
    BulletOfItem(item);
    KeptMarkdown("- " + item);
  }

  /** No written `- item` line is a heading. */
  lemma ItemLinesNoHeading(items: seq<string>)
    ensures NoHeading(Markdown, ItemLines(items), 0, |items|)
  {
    var r := ItemLines(items);
    forall k | 0 <= k < |items| ensures !IsHeading(Markdown, r[k]) {
      assert r[k][0] == '-';
    }
  }

  /** A one-line text does not end in a carriage return, which is white space. */
  lemma OneLinePlain(prefix: string, s: string)
    requires IsOneLineText(s) && '\n' !in prefix
    ensures IsPlainLine(prefix + s)
  {
    assert (prefix + s)[|prefix + s| - 1] == s[|s| - 1];
  }

  /** The lines of a changelog with one release: its heading, then its items. */
  function Release(version: string, summary: string, items: seq<string>): seq<string>
  {
    [Heading.RenderHeading(version, summary)] + ItemLines(items)
  }

  /** The lines of a written release are plain lines. */
  lemma ReleasePlain(version: string, summary: string, items: seq<string>)
    requires Heading.IsVersion(version) && IsOneLineText(summary)
    requires forall k :: 0 <= k < |items| ==> IsOneLineText(items[k])
    ensures forall k :: 0 <= k < |Release(version, summary, items)| ==> IsPlainLine(Release(version, summary, items)[k])
  {
    var lines := Release(version, summary, items);
    forall k | 0 <= k < |lines| ensures IsPlainLine(lines[k]) {
      if k == 0 {
        VersionOneLine(version);
        OneLinePlain("# " + version + " - ", summary);
      } else {
        assert lines[k] == "- " + items[k - 1];
        OneLinePlain("- ", items[k - 1]);
      }
    }
  }

  /** A version holds no newline. */
  lemma VersionOneLine(version: string)
    requires Heading.IsVersion(version)
    ensures '\n' !in version
  {
    var w :| Heading.VersionAt(version, 0, |version|, w);
    forall k | 0 <= k < |version| ensures version[k] != '\n' {
      Heading.VersionChars(version, 0, |version|, w, k);
    }
  }

  /** A file that opens with a release heading and has no other has that one section, to its end. */
  lemma SingleSection(rd: Reader, head: string, body: seq<string>)
    requires IsHeading(rd, head) && NoHeading(rd, body, 0, |body|)
    ensures Latest(rd, [head] + body) == Some(Section(rd.heading(head).value, Bullets(rd, [head] + body, 1, |body| + 1), |body| + 1))
  {
    var lines := [head] + body;
    FirstHeadingAt(rd, lines, 0, 0);
    NoHeadingShifted(rd, [head], body, 0, |body|);
    NextHeadingAt(rd, lines, 1, |lines|);
  }

  /** A written heading is a release heading with the written version and summary. */
  lemma RenderedIsHeading(version: string, summary: string)
    requires Heading.IsVersion(version) && IsOneLineText(summary)
    ensures IsHeading(Markdown, Heading.RenderHeading(version, summary))
    ensures Markdown.heading(Heading.RenderHeading(version, summary)) == Some(Heading.Captures(version, summary))
  {
    Heading.HeadingRoundTrip(version, summary);
  }

  /** The newest section of a written release: its heading and all its items. */
  lemma ReleaseSection(version: string, summary: string, items: seq<string>)
    requires Heading.IsVersion(version) && IsOneLineText(summary)
    requires forall k :: 0 <= k < |items| ==> IsOneLineText(items[k])
    ensures Latest(Markdown, Release(version, summary, items))
              == Some(Section(Heading.Captures(version, summary), ItemLines(items), |items| + 1))
  {
    var body := ItemLines(items);
    RenderedIsHeading(version, summary);
    ItemLinesNoHeading(items);
    forall k | 0 <= k < |body| ensures Kept(Markdown, body[k]) == [body[k]] {
      ItemKept(items[k]);
    }
    WholeSection(Markdown, Heading.RenderHeading(version, summary), body);
  }

  /**
   * A file made of one release heading and lines each kept whole has one
   * section, whose bullets are those lines.
   */
  lemma WholeSection(rd: Reader, head: string, body: seq<string>)
    requires IsHeading(rd, head) && NoHeading(rd, body, 0, |body|)
    requires forall k :: 0 <= k < |body| ==> Kept(rd, body[k]) == [body[k]]
    ensures Latest(rd, [head] + body) == Some(Section(rd.heading(head).value, body, |body| + 1))
  {
    var lines := [head] + body;
    SingleSection(rd, head, body);
    forall k | 1 <= k < |lines| ensures Kept(rd, lines[k]) == [lines[k]] {
      assert lines[k] == body[k - 1];
    }
    AllKept(rd, lines, 1, |lines|);
    assert lines[1..|lines|] == body;
  }

  /** The entry ParseLatest returns for a file read without failure whose newest section runs to its end. */
  lemma EntryOfSection(rd: Reader, path: string, data: string, sec: Section)
    requires Latest(rd, ScanLines(data)) == Some(sec) && sec.end == |ScanLines(data)|
    requires rd.trim(sec.heading.summary) != []
    ensures LatestEntryWith(rd, path, Readable(data, None))
              == Success(Entry(rd.trim(sec.heading.version), rd.trim(sec.heading.summary),
                               if sec.bullets == [] then "" else Text.Join(sec.bullets, "\n")))
  {
  }

  /**
   * A changelog written in the expected format, `# <version> - <summary>`
   * followed by `- item` lines, is read back as written: the same version and
   * summary, and the items as the description.
   */
  lemma ReleaseRoundTrip(path: string, version: string, summary: string, items: seq<string>)
    requires Heading.IsVersion(version) && IsOneLineText(summary)
    requires forall k :: 0 <= k < |items| ==> IsOneLineText(items[k])
    ensures LatestEntry(path, Readable(Unlines(Release(version, summary, items)), None))
              == Success(Entry(version, summary, if items == [] then "" else Text.Join(ItemLines(items), "\n")))
  {
    var lines := Release(version, summary, items);
    var data := Unlines(lines);
    ReleasePlain(version, summary, items);
    ScanUnlines(lines);
    ReleaseSection(version, summary, items);
    var sec := Section(Heading.Captures(version, summary), ItemLines(items), |items| + 1);
    VersionTrimmed(version);
    Text.TrimOfTrimmed(summary);
    EntryOfSection(Markdown, path, data, sec);
  }

  /** A version is its own trimming. */
  lemma VersionTrimmed(version: string)
    requires Heading.IsVersion(version)
    ensures Text.Trim(version) == version
  {
    var w :| Heading.VersionAt(version, 0, |version|, w);
    Heading.VersionChars(version, 0, |version|, w, 0);
    Heading.VersionChars(version, 0, |version|, w, |version| - 1);
    Heading.VersionCharNotSpace(version[0]);
    Heading.VersionCharNotSpace(version[|version| - 1]);
    Text.TrimOfTrimmed(version);
  }
}
