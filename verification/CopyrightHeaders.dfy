// The copyright header fixer (tools/copyright_headers.py): a text is split into lines the way Python's
// str.splitlines(keepends=True) does it, a header is spliced in, and the result is checked by
// splitting it again.

module CopyrightHeaders {
  import opened Text

  const COPYRIGHT := "Copyright 2026 Exasol AG"
  const SPDX := "SPDX-License-Identifier: MIT"

  // ----- lines -----

  /** The line boundaries of str.splitlines. */
  predicate IsBreak(c: char) {
    || '\n' <= c <= '\r' || '\U{001C}' <= c <= '\U{001E}' || c == '\U{0085}'
    || c == '\U{2028}' || c == '\U{2029}'
  }

  lemma BreaksListed(c: char)
    ensures IsBreak(c) <==> c in "\n\r\U{000B}\U{000C}\U{001C}\U{001D}\U{001E}\U{0085}\U{2028}\U{2029}"
  {
  }

  /** Where the first line ends, its boundary included; "\r\n" is one boundary. */
  function FirstLine(s: string): (n: nat)
    requires s != ""
    ensures 1 <= n <= |s|
  {
    if IsBreak(s[0]) then
      if s[0] == '\r' && |s| > 1 && s[1] == '\n' then 2 else 1
    else if |s| == 1 then 1
    else 1 + FirstLine(s[1..])
  }

  /** str.splitlines(keepends=True) */
  function SplitLines(s: string): seq<string> {
    if s == "" then [] else [s[..FirstLine(s)]] + SplitLines(s[FirstLine(s)..])
  }

  /** "".join(lines) */
  function Concat(lines: seq<string>): string {
    if lines == [] then "" else lines[0] + Concat(lines[1..])
  }

  predicate Terminated(s: string) {
    s == "" || IsBreak(s[|s| - 1])
  }

  /** Appending `b` to `a` neither continues the last line of `a` nor merges "\r" with "\n". */
  predicate Separate(a: string, b: string) {
    Terminated(a) && (a != "" && b != "" ==> a[|a| - 1] != '\r' || b[0] != '\n')
  }

  lemma {:induction false} FirstLineLocal(a: string, b: string)
    requires a != "" && Separate(a, b)
    ensures FirstLine(a + b) == FirstLine(a)
  {
    if !IsBreak(a[0]) {
      assert (a + b)[1..] == a[1..] + b;
      FirstLineLocal(a[1..], b);
    } else if |a| == 1 {
    } else {
      assert (a + b)[1] == a[1];
    }
  }

  lemma {:induction false} SplitLinesConcat(a: string, b: string)
    requires Separate(a, b)
    ensures SplitLines(a + b) == SplitLines(a) + SplitLines(b)
    decreases |a|
  {
    hide FirstLine, IsBreak;
    if a == "" {
      assert a + b == b;
    } else {
      FirstLineLocal(a, b);
      var n := FirstLine(a);
      assert (a + b)[..n] == a[..n] && (a + b)[n..] == a[n..] + b;
      SplitLinesConcat(a[n..], b);
    }
  }

  lemma {:induction false} ConcatSplit(s: string)
    ensures Concat(SplitLines(s)) == s
    decreases |s|
  {
    hide FirstLine;
    if s == "" {
    } else {
      var n := FirstLine(s);
      ConcatSplit(s[n..]);
      assert SplitLines(s) == [s[..n]] + SplitLines(s[n..]);
      assert SplitLines(s)[1..] == SplitLines(s[n..]);
    }
  }

  lemma {:induction false} ConcatAppend(a: seq<string>, b: seq<string>)
    ensures Concat(a + b) == Concat(a) + Concat(b)
    decreases |a|
  {
    if a == [] {
      assert a + b == b;
    } else {
      ConcatAppend(a[1..], b);
      assert (a + b)[1..] == a[1..] + b;
    }
  }

  /** A text without an inner boundary is one line. */
  lemma {:induction false} OneLine(s: string)
    requires s != "" && forall i | 0 <= i < |s| - 1 :: !IsBreak(s[i])
    ensures FirstLine(s) == |s| && SplitLines(s) == [s]
  {
    if |s| == 1 {
    } else {
      OneLine(s[1..]);
    }
    assert s[..|s|] == s;
  }

  /** The first line holds no boundary before its end, and ends with one unless it is everything. */
  lemma {:induction false} FirstLineShape(s: string)
    requires s != ""
    ensures
      var n := FirstLine(s);
      && (n < |s| ==> IsBreak(s[n - 1]))
      && (!IsBreak(s[n - 1]) ==> forall i | 0 <= i < n :: !IsBreak(s[i]))
      && SplitLines(s[..n]) == [s[..n]]
      && (n < |s| && s[n - 1] == '\r' ==> s[n] != '\n')
  {
    var n := FirstLine(s);
    if IsBreak(s[0]) {
      assert FirstLine(s[..n]) == n;
      assert s[..n][..n] == s[..n] && s[..n][n..] == "";
    } else if |s| == 1 {
      assert s[..n] == s;
      OneLine(s);
    } else {
      FirstLineShape(s[1..]);
      assert s[..n][1..] == s[1..][..n - 1];
      FirstLineOfPiece(s[1..][..n - 1]);
      assert FirstLine(s[..n]) == n;
      assert s[..n][..n] == s[..n] && s[..n][n..] == "";
    }
  }

  lemma FirstLineOfPiece(piece: string)
    requires piece != "" && SplitLines(piece) == [piece]
    ensures FirstLine(piece) == |piece|
  {
    assert SplitLines(piece)[0] == piece[..FirstLine(piece)];
  }

  // ----- headers -----

  /** str.strip() == "" */
  predicate IsBlank(line: string) {
    forall i | 0 <= i < |line| :: IsSpace(line[i]) || '\U{001C}' <= line[i] <= '\U{001F}'
  }

  lemma BlankListed(line: string)
    ensures IsBlank(line) <==>
      forall i | 0 <= i < |line| :: line[i] in WHITE_SPACE || line[i] in "\U{001C}\U{001D}\U{001E}\U{001F}"
  {
    forall i | 0 <= i < |line|
      ensures IsSpace(line[i]) || '\U{001C}' <= line[i] <= '\U{001F}' <==>
        line[i] in WHITE_SPACE || line[i] in "\U{001C}\U{001D}\U{001E}\U{001F}"
    {
      SpacesListed(line[i]);
    }
  }

  predicate IsStyle(style: string) { style == "#" || style == "//" }

  function HeaderFor(style: string): seq<string> {
    [style + " " + COPYRIGHT + "\n", style + " " + SPDX + "\n", "\n"]
  }

  function InsertionIndex(lines: seq<string>): (at: nat)
    ensures at <= |lines|
  {
    if lines != [] && "#!" <= lines[0] then 1 else 0
  }

  predicate Contains(s: string, pattern: string) {
    exists i :: 0 <= i <= |s| && At(s, pattern, i)
  }

  function Window(lines: seq<string>): string {
    var from := InsertionIndex(lines);
    var to := if |lines| < from + 8 then |lines| else from + 8;
    Concat(lines[from..to])
  }

  predicate HasHeader(lines: seq<string>) {
    Contains(Window(lines), COPYRIGHT) && Contains(Window(lines), SPDX)
  }

  /** The first line at or after `from` that is not blank. */
  function SkipBlank(lines: seq<string>, from: nat): (to: nat)
    requires from <= |lines|
    ensures from <= to <= |lines|
    ensures forall i | from <= i < to :: IsBlank(lines[i])
    ensures to < |lines| ==> !IsBlank(lines[to])
    decreases |lines| - from
  {
    if from < |lines| && IsBlank(lines[from]) then SkipBlank(lines, from + 1) else from
  }

  /** The shebang (if any), then the header, then the text without the blank lines at that point. */
  function HeaderAdded(text: string, style: string): string {
    var lines := SplitLines(text);
    var at := InsertionIndex(lines);
    Concat(lines[..at]) + Concat(HeaderFor(style)) + Concat(lines[SkipBlank(lines, at)..])
  }

  /** add_header, deleting and splicing the list of lines in place. */
  method AddHeader(text: string, style: string) returns (result: string)
    ensures result == HeaderAdded(text, style)
  {
    hide SplitLines, Concat, HeaderFor, IsBlank, SkipBlank;
    var lines := SplitLines(text);
    ghost var original := lines;
    var insertAt := InsertionIndex(lines);
    hide InsertionIndex;
    ghost var skipped := insertAt;
    while insertAt < |lines| && IsBlank(lines[insertAt])
      invariant insertAt <= skipped <= |original|
      invariant lines == original[..insertAt] + original[skipped..]
      invariant SkipBlank(original, insertAt) == SkipBlank(original, skipped)
      decreases |lines|
    {
      OneBlankLess(original, insertAt, skipped);
      lines := lines[..insertAt] + lines[insertAt + 1..];
      skipped := skipped + 1;
    }
    NothingToSkip(original, insertAt, skipped);
    Spliced(original, insertAt, skipped, HeaderFor(style));
    lines := lines[..insertAt] + HeaderFor(style) + lines[insertAt..];
    result := Concat(lines);
  }

  /** Deleting a blank line at the insertion point. */
  lemma OneBlankLess(original: seq<string>, at: nat, skipped: nat)
    requires at <= skipped <= |original|
    requires var lines := original[..at] + original[skipped..]; at < |lines| && IsBlank(lines[at])
    ensures
      var lines := original[..at] + original[skipped..];
      lines[..at] + lines[at + 1..] == original[..at] + original[skipped + 1..]
    ensures SkipBlank(original, skipped) == SkipBlank(original, skipped + 1)
  {
    assert (original[..at] + original[skipped..])[at] == original[skipped];
  }

  lemma NothingToSkip(original: seq<string>, at: nat, skipped: nat)
    requires at <= skipped <= |original|
    requires var lines := original[..at] + original[skipped..]; at < |lines| ==> !IsBlank(lines[at])
    ensures SkipBlank(original, skipped) == skipped
  {
    if skipped < |original| {
      assert (original[..at] + original[skipped..])[at] == original[skipped];
    }
  }

  /** Splicing a block of lines into the list. */
  lemma Spliced(original: seq<string>, at: nat, skipped: nat, block: seq<string>)
    requires at <= skipped <= |original|
    ensures
      var lines := original[..at] + original[skipped..];
      Concat(lines[..at] + block + lines[at..]) == Concat(original[..at]) + Concat(block) + Concat(original[skipped..])
  {
    hide Concat;
    var lines := original[..at] + original[skipped..];
    assert lines[..at] == original[..at] && lines[at..] == original[skipped..];
    ConcatAppend(original[..at] + block, original[skipped..]);
    ConcatAppend(original[..at], block);
  }

  /** A file that is nothing but a shebang line without a line boundary. */
  predicate LoneShebang(text: string) {
    "#!" <= text && forall i | 0 <= i < |text| :: !IsBreak(text[i])
  }

  // ----- the header that was added is found -----

  lemma HeaderLines(style: string)
    requires IsStyle(style)
    ensures SplitLines(Concat(HeaderFor(style))) == HeaderFor(style)
    ensures Terminated(Concat(HeaderFor(style))) && Concat(HeaderFor(style)) != ""
    ensures
      var h := Concat(HeaderFor(style));
      h[|h| - 1] == '\n' && !IsBreak(h[0]) && !("#!" <= HeaderFor(style)[0])
  {
    var h := HeaderFor(style);
    PrintableHeader(style);
    OneLine(h[0]);
    OneLine(h[1]);
    OneLine(h[2]);
    ConcatThree(h[0], h[1], h[2]);
    assert Concat(h) == h[0] + (h[1] + h[2]);
    SplitLinesConcat(h[1], h[2]);
    SplitLinesConcat(h[0], h[1] + h[2]);
  }

  lemma ConcatThree(a: string, b: string, c: string)
    ensures Concat([a, b, c]) == a + b + c
  {
    var lines := [a, b, c];
    assert lines[1..] == [b, c] && lines[1..][1..] == [c] && lines[1..][1..][1..] == [];
    assert Concat([c]) == c + "" && c + "" == c;
    assert a + (b + c) == a + b + c;
  }

  lemma PrintableHeader(style: string)
    requires IsStyle(style)
    ensures forall k | 0 <= k < 2 :: forall i | 0 <= i < |HeaderFor(style)[k]| - 1 :: !IsBreak(HeaderFor(style)[k][i])
  {
    assert forall i | 0 <= i < |COPYRIGHT| :: ' ' <= COPYRIGHT[i] <= 'z';
    assert forall i | 0 <= i < |SPDX| :: ' ' <= SPDX[i] <= 'z';
  }

  /** Splitting the output again finds the shebang, the header and the remaining lines. */
  lemma SplitAdded(text: string, style: string)
    requires IsStyle(style) && !LoneShebang(text)
    ensures
      var lines := SplitLines(text);
      var at := InsertionIndex(lines);
      SplitLines(HeaderAdded(text, style))
        == lines[..at] + HeaderFor(style) + SplitLines(Concat(lines[SkipBlank(lines, at)..]))
  {
    var lines := SplitLines(text);
    var at := InsertionIndex(lines);
    var head, header, rest := Concat(lines[..at]), Concat(HeaderFor(style)), Concat(lines[SkipBlank(lines, at)..]);
    hide SplitLines, Concat, HeaderFor, SkipBlank, InsertionIndex, LoneShebang, IsBreak;
    HeaderLines(style);
    ShebangLine(text);
    SplitThreeParts(head, header, rest);
  }

  lemma SplitThreeParts(head: string, header: string, rest: string)
    requires Terminated(head) && header != "" && !IsBreak(header[0]) && header[|header| - 1] == '\n'
    ensures SplitLines(head + header + rest) == SplitLines(head) + SplitLines(header) + SplitLines(rest)
  {
    hide SplitLines;
    SplitLinesConcat(header, rest);
    SplitLinesConcat(head, header + rest);
    assert head + header + rest == head + (header + rest);
  }

  lemma ShebangLine(text: string)
    ensures
      var lines := SplitLines(text);
      var at := InsertionIndex(lines);
      && SplitLines(Concat(lines[..at])) == lines[..at]
      && (!LoneShebang(text) ==> Terminated(Concat(lines[..at])))
  {
    var lines := SplitLines(text);
    if InsertionIndex(lines) == 1 {
      FirstLineShape(text);
      var n := FirstLine(text);
      assert lines[..1] == [text[..n]] && lines[..1][1..] == [];
      assert Concat(lines[..1]) == text[..n] + "";
      assert text[..n] + "" == text[..n];
      if !IsBreak(text[n - 1]) {
        assert text[..n] == text;
      }
    } else {
      assert lines[..0] == [];
    }
  }

  lemma ContainsAfter(before: string, pattern: string, after: string)
    ensures Contains(before + pattern + after, pattern)
  {
    var s := before + pattern + after;
    assert s[|before|..|before| + |pattern|] == pattern;
    assert At(s, pattern, |before|);
  }

  lemma WindowStartsWithHeader(lines: seq<string>, at: nat, style: string, rest: seq<string>)
    requires at == InsertionIndex(lines) && at <= |lines| && lines == lines[..at] + HeaderFor(style) + rest
    ensures HasHeader(lines)
  {
    var to := if |lines| < at + 8 then |lines| else at + 8;
    var h := HeaderFor(style);
    var tail := lines[at + 3..to];
    assert lines[at..to] == h + tail;
    ConcatAppend(h, tail);
    ConcatThree(h[0], h[1], h[2]);
    HeaderPrefixes(style, Concat(tail));
  }

  lemma HeaderPrefixes(style: string, after: string)
    ensures
      var text := HeaderFor(style)[0] + HeaderFor(style)[1] + HeaderFor(style)[2] + after;
      Contains(text, COPYRIGHT) && Contains(text, SPDX)
  {
    hide Contains;
    var h := HeaderFor(style);
    var text := h[0] + h[1] + h[2] + after;
    ContainsAfter(style + " ", COPYRIGHT, "\n" + h[1] + h[2] + after);
    assert text == style + " " + COPYRIGHT + ("\n" + h[1] + h[2] + after);
    ContainsAfter(h[0] + style + " ", SPDX, "\n" + h[2] + after);
    assert text == h[0] + style + " " + SPDX + ("\n" + h[2] + after);
  }

  lemma AddedIsFound(text: string, style: string)
    requires IsStyle(style) && !LoneShebang(text)
    ensures HasHeader(SplitLines(HeaderAdded(text, style)))
  {
    hide HeaderAdded, SplitLines, HeaderFor, HasHeader, LoneShebang, Concat;
    var lines := SplitLines(text);
    var at := InsertionIndex(lines);
    var rest := SplitLines(Concat(lines[SkipBlank(lines, at)..]));
    SplitAdded(text, style);
    HeaderLines(style);
    HeaderCount(style);
    var after := SplitLines(HeaderAdded(text, style));
    assert after[at] == HeaderFor(style)[0];
    assert after[..at] == lines[..at];
    WindowStartsWithHeader(after, at, style, rest);
  }

  lemma HeaderCount(style: string)
    ensures |HeaderFor(style)| == 3
  {
  }

  // ----- what the check looks at -----

  /** A phrase that a text contains and that holds no line boundary. */
  predicate Phrase(p: string) {
    p != "" && forall i | 0 <= i < |p| :: !IsBreak(p[i])
  }

  lemma ContainsInPart(a: string, b: string, p: string)
    ensures Contains(a, p) || Contains(b, p) ==> Contains(a + b, p)
  {
    if Contains(a, p) {
      var i :| 0 <= i <= |a| && At(a, p, i);
      assert (a + b)[i..i + |p|] == a[i..i + |p|];
      assert At(a + b, p, i);
    }
    if Contains(b, p) {
      var i :| 0 <= i <= |b| && At(b, p, i);
      assert (a + b)[|a| + i..|a| + i + |p|] == b[i..i + |p|];
      assert At(a + b, p, |a| + i);
    }
  }

  /** A phrase does not reach across a line boundary. */
  lemma ContainsInOnePart(a: string, b: string, p: string)
    requires Phrase(p) && Terminated(a)
    ensures Contains(a + b, p) <==> Contains(a, p) || Contains(b, p)
  {
    ContainsInPart(a, b, p);
    if Contains(a + b, p) {
      var i :| 0 <= i <= |a + b| && At(a + b, p, i);
      if i + |p| <= |a| {
        assert a[i..i + |p|] == (a + b)[i..i + |p|];
        assert At(a, p, i);
      } else if i >= |a| {
        assert b[i - |a|..i - |a| + |p|] == (a + b)[i..i + |p|];
        assert At(b, p, i - |a|);
      } else {
        assert (a + b)[i..i + |p|][|a| - 1 - i] == a[|a| - 1];
      }
    }
  }

  /** One of the lines contains the phrase. */
  predicate InSomeLine(lines: seq<string>, p: string) {
    exists k :: 0 <= k < |lines| && Contains(lines[k], p)
  }

  /** Every line but the last one ends with a boundary. */
  ghost predicate Lines(lines: seq<string>) {
    forall k | 0 <= k < |lines| - 1 :: Terminated(lines[k])
  }

  lemma {:induction false} ConcatContains(lines: seq<string>, p: string)
    requires Phrase(p) && Lines(lines)
    ensures Contains(Concat(lines), p) <==> InSomeLine(lines, p)
    decreases |lines|
  {
    hide Contains, IsBreak;
    if lines == [] {
      EmptyContainsNothing(p);
    } else if |lines| == 1 {
      assert Concat(lines[1..]) == "" && lines[0] + "" == lines[0];
      assert Contains(lines[0], p) ==> InSomeLine(lines, p);
    } else {
      var rest := lines[1..];
      assert forall k | 0 <= k < |rest| :: rest[k] == lines[k + 1];
      ConcatContains(rest, p);
      ContainsInOnePart(lines[0], Concat(rest), p);
      if InSomeLine(lines, p) {
        var k :| 0 <= k < |lines| && Contains(lines[k], p);
        if k > 0 { assert Contains(rest[k - 1], p); }
      }
      if InSomeLine(rest, p) {
        var k :| 0 <= k < |rest| && Contains(rest[k], p);
        assert Contains(lines[k + 1], p);
      }
    }
  }

  lemma EmptyContainsNothing(p: string)
    requires p != ""
    ensures !Contains("", p)
  {
  }

  lemma {:induction false} SplitTerminates(s: string)
    ensures Lines(SplitLines(s))
    decreases |s|
  {
    if s == "" {
    } else {
      var n := FirstLine(s);
      FirstLineShape(s);
      SplitTerminates(s[n..]);
      hide FirstLine, IsBreak;
      assert SplitLines(s) == [s[..n]] + SplitLines(s[n..]);
      if n == |s| { assert s[n..] == "" && SplitLines(s[n..]) == []; }
      FirstOfMore(s, n);
    }
  }

  lemma FirstOfMore(s: string, n: nat)
    requires 1 <= n <= |s| && (n < |s| ==> IsBreak(s[n - 1]))
    ensures n < |s| ==> Terminated(s[..n])
  {
  }

  /** The part of a file that the check looks at: eight lines, from the one after the shebang on. */
  function TopLines(text: string): seq<string> {
    var lines := SplitLines(text);
    var from := if "#!" <= text then 1 else 0;
    lines[if from <= |lines| then from else |lines|..if from + 8 <= |lines| then from + 8 else |lines|]
  }

  /** A file passes the check exactly when one of those lines contains the one phrase and one the other. */
  lemma CheckCharacterised(text: string)
    ensures HasHeader(SplitLines(text)) <==>
      InSomeLine(TopLines(text), "Copyright 2026 Exasol AG") && InSomeLine(TopLines(text), "SPDX-License-Identifier: MIT")
  {
    ShebangIsFirst(text);
    SplitTerminates(text);
    PhrasesArePhrases();
    hide SplitLines, Concat, Contains, Terminated, Phrase, InSomeLine;
    ConcatContains(TopLines(text), COPYRIGHT);
    ConcatContains(TopLines(text), SPDX);
  }

  lemma PhrasesArePhrases()
    ensures Phrase(COPYRIGHT) && Phrase(SPDX)
  {
    assert forall i | 0 <= i < |COPYRIGHT| :: ' ' <= COPYRIGHT[i] <= 'z';
    assert forall i | 0 <= i < |SPDX| :: ' ' <= SPDX[i] <= 'z';
  }

  /** The header goes after a shebang and otherwise at the top. */
  lemma ShebangIsFirst(text: string)
    ensures InsertionIndex(SplitLines(text)) == if "#!" <= text then 1 else 0
  {
    if text != "" {
      var n := FirstLine(text);
      assert SplitLines(text)[0] == text[..n];
      if "#!" <= text {
        assert text[0] == '#' && text[1] == '!' && text[..2] == "#!";
        assert FirstLine(text) == 1 + FirstLine(text[1..]);
        assert "#!" <= text[..n];
      }
    }
  }

  /** The header: two comment lines of the file's own style, and a blank line. */
  lemma HeaderText(style: string)
    ensures Concat(HeaderFor(style)) == (style + " " + COPYRIGHT + "\n") + (style + " " + SPDX + "\n") + "\n"
  {
    ConcatThree(HeaderFor(style)[0], HeaderFor(style)[1], HeaderFor(style)[2]);
  }

  // ----- the exception: a lone unterminated shebang -----

  lemma LoneShebangLines(text: string)
    requires LoneShebang(text)
    ensures SplitLines(text) == [text] && InsertionIndex([text]) == 1 && SkipBlank([text], 1) == 1
  {
    OneLine(text);
  }

  lemma NoCopyrightInSpdx(style: string)
    requires IsStyle(style)
    ensures !Contains(HeaderFor(style)[1] + "\n", COPYRIGHT)
  {
    var w := HeaderFor(style)[1] + "\n";
    assert forall i | 0 <= i < |SPDX| :: SPDX[i] != 'C';
    assert forall i | 0 <= i < |w| :: w[i] != 'C';
    forall i | 0 <= i <= |w| ensures !At(w, COPYRIGHT, i) {
      if i + |COPYRIGHT| <= |w| {
        assert w[i..i + |COPYRIGHT|][0] != COPYRIGHT[0];
      }
    }
  }

  lemma LoneShebangOutput(text: string, style: string)
    requires LoneShebang(text)
    ensures
      var h := HeaderFor(style);
      HeaderAdded(text, style) == text + h[0] + h[1] + h[2]
  {
    hide SplitLines, SkipBlank, LoneShebang, InsertionIndex;
    var h := HeaderFor(style);
    LoneShebangLines(text);
    assert [text][..1] == [text] && [text][1..] == [];
    assert Concat([text]) == text + "" && text + "" == text;
    ConcatThree(h[0], h[1], h[2]);
    assert text + (h[0] + h[1] + h[2]) + "" == text + h[0] + h[1] + h[2];
  }

  lemma WindowOfThree(first: string, second: string, third: string)
    requires "#!" <= first
    ensures Window([first, second, third]) == second + third
  {
    var lines := [first, second, third];
    assert lines[1..3] == [second, third];
    assert [second, third][1..] == [third] && [third][1..] == [];
    assert Concat([third]) == third + "" && third + "" == third;
  }

  /** There the header's first line is glued to the shebang, so the check does not see it. */
  lemma LoneShebangSwallowsHeader(text: string, style: string)
    requires IsStyle(style) && LoneShebang(text)
    ensures !HasHeader(SplitLines(HeaderAdded(text, style))) && !LoneShebang(HeaderAdded(text, style))
  {
    hide SplitLines, HeaderAdded, Window, Contains;
    var h := HeaderFor(style);
    LoneShebangOutput(text, style);
    GluedLines(text, style);
    WindowOfThree(text + h[0], h[1], h[2]);
    NoCopyrightInSpdx(style);
    var out := HeaderAdded(text, style);
    assert out[|out| - 1] == '\n';
  }

  lemma GluedLines(text: string, style: string)
    requires IsStyle(style) && LoneShebang(text)
    ensures
      var h := HeaderFor(style);
      SplitLines(text + h[0] + h[1] + h[2]) == [text + h[0], h[1], h[2]]
  {
    var h := HeaderFor(style);
    PrintableHeader(style);
    OneLine(text + h[0]);
    OneLine(h[1]);
    OneLine(h[2]);
    hide SplitLines;
    SplitThreeParts(text + h[0], h[1], h[2]);
  }

  // ----- fix, then check -----

  /** What --fix leaves in a file. */
  function Fixed(text: string, style: string): string {
    if HasHeader(SplitLines(text)) then text else HeaderAdded(text, style)
  }

  /** The check passes after a fix exactly when it passed before or the file is not a lone unterminated shebang. */
  lemma FixThenCheck(text: string, style: string)
    requires IsStyle(style)
    ensures HasHeader(SplitLines(Fixed(text, style))) <==> HasHeader(SplitLines(text)) || !LoneShebang(text)
  {
    hide HeaderAdded, SplitLines, HasHeader, LoneShebang;
    if LoneShebang(text) {
      LoneShebangSwallowsHeader(text, style);
    } else {
      AddedIsFound(text, style);
    }
  }

  /** A second fix changes nothing, under the same condition and only then; a third one never does. */
  lemma FixIsIdempotent(text: string, style: string)
    requires IsStyle(style)
    ensures Fixed(Fixed(text, style), style) == Fixed(text, style) <==> HasHeader(SplitLines(text)) || !LoneShebang(text)
    ensures HasHeader(SplitLines(Fixed(Fixed(text, style), style)))
  {
    hide HeaderAdded, SplitLines, HasHeader, LoneShebang;
    FixThenCheck(text, style);
    FixThenCheck(Fixed(text, style), style);
    if LoneShebang(text) {
      LoneShebangSwallowsHeader(text, style);
    }
  }

  /**
   * The text and the output differ by the header and by blank lines at the insertion point, and by
   * nothing else: shebang + blank lines + remainder becomes shebang + header + remainder.
   */
  lemma AddedKeepsTheText(text: string, style: string)
    ensures
      var lines := SplitLines(text);
      var at := InsertionIndex(lines);
      var to := SkipBlank(lines, at);
      && text == Concat(lines[..at]) + Concat(lines[at..to]) + Concat(lines[to..])
      && HeaderAdded(text, style) == Concat(lines[..at])
           + ((style + " " + COPYRIGHT + "\n") + (style + " " + SPDX + "\n") + "\n") + Concat(lines[to..])
      && (forall i | at <= i < to :: IsBlank(lines[i]))
      && (to < |lines| ==> !IsBlank(lines[to]))
      && at == if "#!" <= text then 1 else 0
  {
    ShebangIsFirst(text);
    HeaderText(style);
    hide SplitLines, IsBlank, HeaderFor;
    var lines := SplitLines(text);
    var at := InsertionIndex(lines);
    var to := SkipBlank(lines, at);
    ConcatSplit(text);
    ConcatAppend(lines[..at] + lines[at..to], lines[to..]);
    ConcatAppend(lines[..at], lines[at..to]);
    assert lines == lines[..at] + lines[at..to] + lines[to..];
  }

  /** What candidate_files read: a path, the text found there, and the comment style of that path and text. */
  datatype Candidate = Candidate(path: string, text: string, style: string)

  /**
   * The candidates are up to date. An unmerged file is listed more than once; its path then repeats,
   * with the same text and so with the same style.
   */
  ghost predicate Current(candidates: seq<Candidate>, files: map<string, string>) {
    && (forall c | c in candidates :: c.path in files && c.text == files[c.path])
    && (forall c, d | c in candidates && d in candidates && c.path == d.path :: c.style == d.style)
  }

  /** The paths of the candidates without a header, in order and with repetitions. */
  function Missing(candidates: seq<Candidate>): (paths: seq<string>)
    decreases |candidates|
  {
    if candidates == [] then []
    else
      var last := candidates[|candidates| - 1];
      Missing(candidates[..|candidates| - 1]) + if HasHeader(SplitLines(last.text)) then [] else [last.path]
  }

  lemma {:induction false} MissingLackHeaders(candidates: seq<Candidate>)
    ensures forall path :: path in Missing(candidates) <==>
      exists c :: c in candidates && c.path == path && !HasHeader(SplitLines(c.text))
    decreases |candidates|
  {
    hide HasHeader, SplitLines;
    if candidates == [] {
    } else {
      MissingLackHeaders(candidates[..|candidates| - 1]);
      assert candidates == candidates[..|candidates| - 1] + [candidates[|candidates| - 1]];
    }
  }

  /** The order of the candidates is kept. */
  lemma {:induction false} MissingInOrder(a: seq<Candidate>, b: seq<Candidate>)
    ensures Missing(a + b) == Missing(a) + Missing(b)
    decreases |b|
  {
    hide HasHeader, SplitLines;
    if b == [] {
      assert a + b == a;
    } else {
      MissingInOrder(a, b[..|b| - 1]);
      assert (a + b)[..|a + b| - 1] == a + b[..|b| - 1];
    }
  }

  class Repository {
    var files: map<string, string>

    constructor (files: map<string, string>)
      ensures this.files == files
    {
      this.files := files;
    }

    /** --check: the candidates without a header, in order. */
    method Check(candidates: seq<Candidate>) returns (missing: seq<string>)
      requires Current(candidates, files)
      ensures missing == Missing(candidates)
      ensures forall path :: path in missing <==>
        exists c :: c in candidates && c.path == path && !HasHeader(SplitLines(files[path]))
    {
      hide HasHeader, SplitLines;
      missing := [];
      for i := 0 to |candidates|
        invariant missing == Missing(candidates[..i])
      {
        assert candidates[..i + 1][..i] == candidates[..i];
        if !HasHeader(SplitLines(candidates[i].text)) {
          missing := missing + [candidates[i].path];
        }
      }
      assert candidates[..|candidates|] == candidates;
      MissingLackHeaders(candidates);
    }

    /** --fix: every candidate ends up fixed, and no other file is touched. */
    method Fix(candidates: seq<Candidate>)
      requires Current(candidates, files) && forall c | c in candidates :: IsStyle(c.style)
      modifies this
      ensures files.Keys == old(files).Keys
      ensures forall c | c in candidates :: files[c.path] == Fixed(old(files)[c.path], c.style)
      ensures forall path | path in files && (forall c | c in candidates :: c.path != path) :: files[path] == old(files)[path]
    {
      hide HasHeader, SplitLines, HeaderAdded;
      for i := 0 to |candidates|
        invariant files.Keys == old(files).Keys
        invariant forall j | 0 <= j < i ::
          files[candidates[j].path] == Fixed(candidates[j].text, candidates[j].style)
        invariant forall path | path in files && (forall j | 0 <= j < i :: candidates[j].path != path) ::
          files[path] == old(files)[path]
      {
        var c := candidates[i];
        if !HasHeader(SplitLines(c.text)) {
          var added := AddHeader(c.text, c.style);
          files := files[c.path := added];
        }
      }
    }
  }
}
