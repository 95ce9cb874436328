/**
 * The few functions of Go's `strings` and `unicode` packages that the core
 * relies on, over Dafny strings (sequences of Unicode scalar values).
 */
module Text {

  /**
   * unicode.IsSpace: the Latin-1 spaces '\t', '\n', '\v', '\f', '\r', ' ',
   * U+0085 and U+00A0, plus the other characters with the White_Space property.
   * These are the characters strings.TrimSpace removes.
   */
  predicate IsSpace(c: char) {
    || c == '\t' || c == '\n' || c == '\U{B}' || c == '\U{C}' || c == '\r' || c == ' '
    || c == '\U{85}' || c == '\U{A0}' || c == '\U{1680}'
    || ('\U{2000}' <= c <= '\U{200A}')
    || c == '\U{2028}' || c == '\U{2029}' || c == '\U{202F}' || c == '\U{205F}' || c == '\U{3000}'
  }

  /** Every character of `s` is white space (the empty string included). */
  predicate AllSpace(s: string) {
    forall k :: 0 <= k < |s| ==> IsSpace(s[k])
  }

  /** `s` neither starts nor ends with white space: TrimSpace leaves it alone. */
  predicate IsTrimmed(s: string) {
    s == [] || (!IsSpace(s[0]) && !IsSpace(s[|s| - 1]))
  }

  /** strings.HasPrefix */
  predicate HasPrefix(s: string, prefix: string) {
    |prefix| <= |s| && s[..|prefix|] == prefix
  }

  /** Drops the leading white space of `s`. */
  function TrimLeft(s: string): (r: string)
    ensures |r| <= |s| && r == s[|s| - |r|..]
    ensures AllSpace(s[..|s| - |r|])
    ensures r == [] || !IsSpace(r[0])
  {
    if s != [] && IsSpace(s[0]) then TrimLeft(s[1..]) else s
  }

  /** Drops the trailing white space of `s`. */
  function TrimRight(s: string): (r: string)
    ensures |r| <= |s| && r == s[..|r|]
    ensures AllSpace(s[|r|..])
    ensures r == [] || !IsSpace(r[|r| - 1])
  {
    if s != [] && IsSpace(s[|s| - 1]) then
      var init := s[..|s| - 1];
      var r := TrimRight(init);
      assert r == s[..|r|];
      assert s[|r|..] == init[|r|..] + [s[|s| - 1]];
      r
    else s
  }

  /** `s` holds `r` at position `i`, with only white space before and after it. */
  predicate Surrounds(s: string, i: int, r: string) {
    0 <= i <= |s| - |r| && r == s[i..i + |r|] && AllSpace(s[..i]) && AllSpace(s[i + |r|..])
  }

  /**
   * strings.TrimSpace: `s` without its leading and trailing white space. The
   * result is a stretch of `s` with only white space before and after it,
   * it starts and ends with a non-space, and it is empty exactly when `s`
   * is all white space.
   */
  function Trim(s: string): (r: string)
    ensures IsTrimmed(r)
    ensures r == [] <==> AllSpace(s)
  {
    var l := TrimLeft(s);
    var r := TrimRight(l);
    Cut(s, |s| - |l|, l, r);
    r
  }

  /** The trimming is a stretch of the text with only white space before and after it. */
  lemma TrimSurrounds(s: string)
    ensures exists i :: Surrounds(s, i, Trim(s))
  {
    var l := TrimLeft(s);
    assert Trim(s) == TrimRight(l);
    Cut(s, |s| - |l|, l, TrimRight(l));
  }

  /** The text is the white space before the trimming, the trimming and the white space after it. */
  lemma TrimSplit(s: string) returns (before: string, after: string)
    ensures AllSpace(before) && AllSpace(after)
    ensures s == before + Trim(s) + after
  {
    var r := Trim(s);
    TrimSurrounds(s);
    var i :| Surrounds(s, i, r);
    before, after := s[..i], s[i + |r|..];
    SurroundsSplit(s, i, r);
  }

  lemma SurroundsSplit(s: string, i: int, r: string)
    requires 0 <= i <= |s| - |r| && r == s[i..i + |r|]
    ensures s == s[..i] + r + s[i + |r|..]
  {
    assert s == s[..i] + s[i..];
    assert s[i..] == r + s[i + |r|..];
  }

  /**
   * `s` cut at `i` into leading white space and `l`, and `l` cut into `r`
   * and trailing white space.
   */
  lemma Cut(s: string, i: nat, l: string, r: string)
    requires i <= |s| && l == s[i..] && AllSpace(s[..i]) && (l == [] || !IsSpace(l[0]))
    requires |r| <= |l| && r == l[..|r|] && AllSpace(l[|r|..]) && (r == [] || !IsSpace(r[|r| - 1]))
    ensures Surrounds(s, i, r) && IsTrimmed(r) && (r == [] <==> AllSpace(s))
  {
    assert r == s[i..i + |r|];
    assert l[|r|..] == s[i + |r|..];
    if r == [] {
      assert s == s[..i] + l;
      AllSpaceJoined(s[..i], l);
    } else {
      assert s[i] == r[0] == l[0];
    }
  }

  lemma AllSpaceJoined(a: string, b: string)
    requires AllSpace(a) && AllSpace(b)
    ensures AllSpace(a + b)
  {
  }

  /**
   * The trimming is determined by the stretch it keeps: a trimmed text with
   * only white space around it is the trimming of the whole.
   */
  lemma TrimUnique(a: string, t: string, b: string)
    requires AllSpace(a) && AllSpace(b) && IsTrimmed(t)
    ensures Trim(a + t + b) == t
  {
    var s := a + t + b;
    var r := Trim(s);
    if t == [] {
      assert s == a + b;
      assert AllSpace(s);
    } else {
      assert s[|a|] == t[0];
      TrimSurrounds(s);
      var i :| Surrounds(s, i, r);
      OnlyStretch(a, t, b, i, r);
    }
  }

  /** The only trimmed, non-empty stretch of `a + t + b` with white space around it is `t`. */
  lemma OnlyStretch(a: string, t: string, b: string, i: int, r: string)
    requires AllSpace(a) && AllSpace(b) && IsTrimmed(t) && t != []
    requires Surrounds(a + t + b, i, r) && IsTrimmed(r) && r != []
    ensures r == t
  {
    var s := a + t + b;
    assert s[i] == r[0];
    assert s[..|a|] == a && s[|a|] == t[0];
    NoSpaceAfter(s, i, |a|);
    NoSpaceAfter(s, |a|, i);
    var j := i + |r|;
    var end := |a| + |t|;
    assert s[end..] == b && s[end - 1] == t[|t| - 1];
    assert s[j - 1] == r[|r| - 1];
    NoSpaceBefore(s, j, end - 1);
    NoSpaceBefore(s, end, j - 1);
    assert s[|a|..end] == t;
  }

  /** A non-space character lies at or after the end of a leading run of spaces. */
  lemma NoSpaceAfter(s: string, i: int, k: int)
    requires 0 <= i <= |s| && 0 <= k < |s| && AllSpace(s[..i]) && !IsSpace(s[k])
    ensures i <= k
  {
  }

  /** A non-space character lies before the start of a trailing run of spaces. */
  lemma NoSpaceBefore(s: string, j: int, k: int)
    requires 0 <= j <= |s| && 0 <= k < |s| && AllSpace(s[j..]) && !IsSpace(s[k])
    ensures k < j
  {
  }

  /** A string that is already trimmed is its own trimming. */
  lemma TrimOfTrimmed(s: string)
    requires IsTrimmed(s)
    ensures Trim(s) == s
  {
    assert TrimLeft(s) == s;
    assert TrimRight(s) == s;
  }

  /** Leading white space does not change the trimming. */
  lemma TrimAfterSpaces(p: string, s: string)
    requires AllSpace(p)
    ensures Trim(p + s) == Trim(s)
  {
    TrimLeftAfterSpaces(p, s);
  }

  /** Leading white space is dropped with the rest of the leading white space. */
  lemma {:induction false} TrimLeftAfterSpaces(p: string, s: string)
    requires AllSpace(p)
    ensures TrimLeft(p + s) == TrimLeft(s)
  {
    if p != [] {
      assert (p + s)[1..] == p[1..] + s;
      TrimLeftAfterSpaces(p[1..], s);
    } else {
      assert p + s == s;
    }
  }

  /** Trimming is idempotent. */
  lemma TrimIdempotent(s: string)
    ensures Trim(Trim(s)) == Trim(s)
  {
    TrimOfTrimmed(Trim(s));
  }

  /** Trimming a string that starts with a non-space keeps its first character. */
  lemma TrimKeepsFirst(s: string)
    requires s != [] && !IsSpace(s[0])
    ensures Trim(s) != [] && Trim(s)[0] == s[0]
  {
    assert TrimLeft(s) == s;
  }

  /** Trimming adds no character. */
  lemma TrimAddsNothing(s: string, c: char)
    requires c !in s
    ensures c !in Trim(s)
  {
    SuffixAddsNothing(s, |s| - |TrimLeft(s)|, c);
    PrefixAddsNothing(TrimLeft(s), |TrimRight(TrimLeft(s))|, c);
  }

  /** A suffix of a string holds only characters of the string. */
  lemma SuffixAddsNothing(s: string, i: nat, c: char)
    requires i <= |s| && c !in s
    ensures c !in s[i..]
  {
    assert forall k :: 0 <= k < |s| - i ==> s[i..][k] == s[i + k];
  }

  /** A prefix of a string holds only characters of the string. */
  lemma PrefixAddsNothing(s: string, i: nat, c: char)
    requires i <= |s| && c !in s
    ensures c !in s[..i]
  {
    assert forall k :: 0 <= k < i ==> s[..i][k] == s[k];
  }

  /** strings.Join */
  function Join(parts: seq<string>, sep: string): string
  {
    if parts == [] then [] else if |parts| == 1 then parts[0] else parts[0] + sep + Join(parts[1..], sep)
  }

  /** Splits `s` at every occurrence of the character `sep` (strings.Split with a one-character separator). */
  function Split(s: string, sep: char): (parts: seq<string>)
    ensures |parts| >= 1
    decreases |s|
  {
    if sep !in s then [s]
    else
      var i := IndexOf(s, sep);
      [s[..i]] + Split(s[i + 1..], sep)
  }

  /** Index of the first occurrence of `c` in `s`. */
  function IndexOf(s: string, c: char): (i: nat)
    requires c in s
    ensures i < |s| && s[i] == c && c !in s[..i]
  {
    if s[0] == c then 0 else
      assert c in s[1..] by { assert s == [s[0]] + s[1..]; }
      1 + IndexOf(s[1..], c)
  }

  /**
   * Joining parts that do not contain the separator character is lossless:
   * splitting the result gives the parts back.
   */
  lemma {:induction false} SplitJoin(parts: seq<string>, sep: char)
    requires parts != []
    requires forall i :: 0 <= i < |parts| ==> sep !in parts[i]
    ensures Split(Join(parts, [sep]), sep) == parts
  {
    if |parts| > 1 {
      var rest := Join(parts[1..], [sep]);
      var s := parts[0] + [sep] + rest;
      assert sep in s by { assert s[|parts[0]|] == sep; }
      var i := IndexOf(s, sep);
      assert i == |parts[0]|;
      assert s[..i] == parts[0];
      assert s[i + 1..] == rest;
      SplitJoin(parts[1..], sep);
    }
  }

  /**
   * Joining is injective when the separator's first character occurs in no
   * part: the first occurrence of that character marks where the first part
   * ends.
   */
  lemma {:induction false} JoinInjective(xs: seq<string>, ys: seq<string>, sep: string)
    requires xs != [] && ys != [] && sep != []
    requires forall i :: 0 <= i < |xs| ==> sep[0] !in xs[i]
    requires forall i :: 0 <= i < |ys| ==> sep[0] !in ys[i]
    requires Join(xs, sep) == Join(ys, sep)
    ensures xs == ys
    decreases |xs|
  {
    var s := Join(xs, sep);
    JoinHead(xs, sep);
    JoinHead(ys, sep);
    if |xs| > 1 {
      FirstOccurrence(s, sep[0], |xs[0]|, |ys[0]|);
      assert xs[0] == s[..|xs[0]|] == ys[0];
      assert Join(xs[1..], sep) == s[|xs[0]| + |sep|..] == Join(ys[1..], sep);
      JoinInjective(xs[1..], ys[1..], sep);
      assert xs == [xs[0]] + xs[1..] && ys == [ys[0]] + ys[1..];
    } else {
      assert xs == [s] == ys;
    }
  }

  /** A join of several parts is the first part, then the separator, then the join of the rest. */
  lemma JoinHead(xs: seq<string>, sep: string)
    requires xs != [] && sep != [] && sep[0] !in xs[0]
    ensures |xs| > 1 <==> sep[0] in Join(xs, sep)
    ensures |xs| == 1 ==> Join(xs, sep) == xs[0]
    ensures |xs| > 1 ==> |xs[0]| < |Join(xs, sep)| && Join(xs, sep)[|xs[0]|] == sep[0]
    ensures |xs| > 1 ==> Join(xs, sep)[..|xs[0]|] == xs[0]
    ensures |xs| > 1 ==> Join(xs, sep)[|xs[0]| + |sep|..] == Join(xs[1..], sep)
  {
  }

  /** Two positions that both hold the first occurrence of `c` are the same. */
  lemma FirstOccurrence(s: string, c: char, i: nat, j: nat)
    requires i < |s| && j < |s| && s[i] == c && s[j] == c && c !in s[..i] && c !in s[..j]
    ensures i == j
  {
  }

  /** A join of non-empty parts is empty exactly when there are no parts. */
  lemma {:induction false} JoinEmptyIff(parts: seq<string>, sep: string)
    requires forall i :: 0 <= i < |parts| ==> parts[i] != []
    ensures Join(parts, sep) == [] <==> parts == []
  {
    if |parts| > 1 {
      assert |Join(parts, sep)| >= |parts[0]|;
    }
  }
}
