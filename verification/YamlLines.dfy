/** Line-level text handling of the frontmatter dialect: splitting and joining, the closing marker
    of a page header, and literal block scalars (section 8.1.2 of YAML 1.2). */
module YamlLines {
  import opened Evidence
  import opened YamlText

  predicate OneLine(s: string) { '\n' !in s }

  predicate OneLineEach(lines: seq<string>) { forall k :: 0 <= k < |lines| ==> OneLine(lines[k]) }

  /** `lines.join('\n')` */
  function Join(lines: seq<string>): string {
    if lines == [] then [] else if |lines| == 1 then lines[0] else lines[0] + "\n" + Join(lines[1..])
  }

  /** `text.split('\n')` */
  function Split(text: string): (lines: seq<string>)
    ensures lines != [] && OneLineEach(lines)
  {
    if text == [] then [[]]
    else if text[0] == '\n' then [[]] + Split(text[1..])
    else
      var lines := Split(text[1..]);
      [[text[0]] + lines[0]] + lines[1..]
  }

  lemma {:induction false} SplitLine(line: string, rest: string)
    requires OneLine(line) && (rest == [] || rest[0] == '\n')
    ensures Split(line + rest) == [line] + (if rest == [] then [] else Split(rest[1..]))
  {
    if line == [] {
      assert line + rest == rest;
    } else {
      assert (line + rest)[1..] == line[1..] + rest;
      assert OneLine(line[1..]);
      SplitLine(line[1..], rest);
      assert [line[0]] + line[1..] == line;
    }
  }

  /** Splitting undoes joining on lines that are lines. */
  lemma {:induction false} SplitJoined(lines: seq<string>)
    requires lines != [] && OneLineEach(lines)
    ensures Split(Join(lines)) == lines
  {
    if |lines| == 1 {
      assert lines[0] + [] == lines[0];
      SplitLine(lines[0], []);
    } else {
      var rest := "\n" + Join(lines[1..]);
      assert Join(lines) == lines[0] + rest && rest[1..] == Join(lines[1..]);
      SplitLine(lines[0], rest);
      SplitJoined(lines[1..]);
    }
  }

  /** Joining undoes splitting on every text. */
  lemma {:induction false} JoinSplit(text: string)
    ensures Join(Split(text)) == text
  {
    if text != [] {
      var lines := Split(text[1..]);
      JoinSplit(text[1..]);
      if text[0] == '\n' {
        assert ([[]] + lines)[1..] == lines;
      } else {
        var all := [[text[0]] + lines[0]] + lines[1..];
        assert all[1..] == lines[1..];
      }
    }
  }

  lemma {:induction false} JoinConcat(a: seq<string>, b: seq<string>)
    requires a != [] && b != []
    ensures Join(a + b) == Join(a) + "\n" + Join(b)
  {
    assert (a + b)[1..] == a[1..] + b;
    if |a| > 1 { JoinConcat(a[1..], b); }
  }

  // ---- The closing marker -------------------------------------------------------------------------

  const CLOSING := "\n---\n"

  /** `text.indexOf('\n---\n')` */
  function FirstClosing(text: string): (r: Option<nat>)
    ensures r.Some? ==> r.value + 5 <= |text|
  {
    if |text| < 5 then None
    else if text[..5] == CLOSING then Some(0)
    else
      match FirstClosing(text[1..])
      case None => None
      case Some(k) => Some(k + 1)
  }

  lemma {:induction false} SkipLine(line: string, rest: string)
    requires OneLine(line) && FirstClosing(rest).Some?
    ensures FirstClosing(line + rest) == Some(|line| + FirstClosing(rest).value)
  {
    if line == [] {
      assert line + rest == rest;
    } else {
      assert (line + rest)[1..] == line[1..] + rest && OneLine(line[1..]);
      assert (line + rest)[0] == line[0] && line[0] in line;
      SkipLine(line[1..], rest);
    }
  }

  lemma SkipBreak(line: string, rest: string)
    requires OneLine(line) && line != "---" && rest != [] && rest[0] == '\n'
    requires FirstClosing(line + rest).Some?
    ensures FirstClosing("\n" + (line + rest)) == Some(1 + FirstClosing(line + rest).value)
  {
    var text := "\n" + (line + rest);
    assert text[1..] == line + rest;
    assert forall k :: 0 <= k < |line| ==> text[k + 1] == line[k] && line[k] in line;
    assert text[|line| + 1] == '\n';
    if |line| == 3 {
      assert line == [line[0], line[1], line[2]];
      assert text[..5][1] == line[0] && text[..5][2] == line[1] && text[..5][3] == line[2];
    } else if |line| < 3 {
      assert text[..5][|line| + 1] == '\n';
    } else {
      assert text[..5][4] == line[3];
    }
  }

  lemma ClosingHere(body: string)
    ensures FirstClosing(CLOSING + body) == Some(0)
  {
    assert (CLOSING + body)[..5] == CLOSING;
  }

  /** A joined text, and what follows it, begins with its first line. */
  lemma JoinedHead(lines: seq<string>, end: string) returns (after: string)
    requires lines != [] && end != [] && end[0] == '\n'
    ensures after != [] && after[0] == '\n' && Join(lines) + end == lines[0] + after
  {
    after := if |lines| == 1 then end else "\n" + Join(lines[1..]) + end;
    assert Join(lines) + end == lines[0] + after;
  }

  /** The closing marker found is the one written after the header, whatever the body holds. */
  lemma {:induction false} ClosingAfterLines(lines: seq<string>, body: string)
    requires OneLineEach(lines) && forall k :: 0 <= k < |lines| ==> lines[k] != "---"
    ensures FirstClosing(Join(lines) + (CLOSING + body)) == Some(|Join(lines)|)
  {
    hide FirstClosing;
    var end := CLOSING + body;
    ClosingHere(body);
    if lines == [] {
      assert Join(lines) + end == end;
    } else if |lines| == 1 {
      SkipLine(lines[0], end);
    } else {
      var more := Join(lines[1..]);
      ClosingAfterLines(lines[1..], body);
      var after := JoinedHead(lines[1..], end);
      assert OneLine(lines[1..][0]);
      SkipBreak(lines[1..][0], after);
      SkipLine(lines[0], "\n" + (more + end));
      assert Join(lines) + end == lines[0] + ("\n" + (more + end));
    }
  }

  // ---- Literal block scalars ----------------------------------------------------------------------

  predicate Blank(line: string) { Trim(line) == "" }

  /** How many of the next lines a block introduced at `indent` takes: blank or deeper ones. */
  function BlockLength(lines: seq<string>, indent: nat): (n: nat)
    ensures n <= |lines|
  {
    if lines != [] && (Blank(lines[0]) || LeadingSpaces(lines[0]) > indent)
    then 1 + BlockLength(lines[1..], indent) else 0
  }

  /** The least indentation of the non-blank lines, if there is one. */
  function CommonIndent(lines: seq<string>): (r: Option<nat>)
    ensures r.None? <==> forall k :: 0 <= k < |lines| ==> Blank(lines[k])
    ensures r.Some? ==> forall k :: 0 <= k < |lines| && !Blank(lines[k]) ==> r.value <= LeadingSpaces(lines[k])
    ensures r.Some? ==> exists k :: 0 <= k < |lines| && !Blank(lines[k]) && r.value == LeadingSpaces(lines[k])
  {
    if lines == [] then None
    else
      var more := CommonIndent(lines[1..]);
      assert forall k :: 0 < k < |lines| ==> lines[k] == lines[1..][k - 1];
      assert forall k :: 0 <= k < |lines| - 1 ==> lines[1..][k] == lines[k + 1];
      if Blank(lines[0]) then more
      else
        assert lines[0] == lines[0];
        var own := LeadingSpaces(lines[0]);
        if more.None? || own <= more.value then Some(own) else more
  }

  function Stripped(lines: seq<string>, strip: nat): (r: seq<string>)
    requires forall k :: 0 <= k < |lines| && !Blank(lines[k]) ==> strip <= |lines[k]|
    ensures |r| == |lines|
    ensures forall k :: 0 <= k < |lines| ==> r[k] == if Blank(lines[k]) then "" else lines[k][strip..]
  {
    seq(|lines|, k requires 0 <= k < |lines| => if Blank(lines[k]) then "" else lines[k][strip..])
  }

  /** The text of a block: blank lines emptied, the common indentation stripped. */
  function BlockText(block: seq<string>): string {
    var strip := match CommonIndent(block) case None => 0 case Some(n) => n;
    Join(Stripped(block, strip))
  }

  /** `readBlockScalar`, with its line index, collected list and minimum. */
  method ReadBlockScalar(lines: seq<string>, start: nat, indent: nat) returns (text: string, next: nat)
    requires start <= |lines|
    ensures next == start + BlockLength(lines[start..], indent)
    ensures text == BlockText(lines[start..next])
  {
    hide Blank, LeadingSpaces;
    var collected: seq<string> := [];
    next := start;
    while next < |lines|
      invariant start <= next <= |lines|
      invariant collected == lines[start..next]
      invariant start + BlockLength(lines[start..], indent) == next + BlockLength(lines[next..], indent)
    {
      assert lines[next..][0] == lines[next] && lines[next..][1..] == lines[next + 1..];
      if !Blank(lines[next]) && LeadingSpaces(lines[next]) <= indent { break; }
      collected := collected + [lines[next]];
      next := next + 1;
    }
    text := BlockText(collected);
  }

  /** How the writer lays a text out under its key: every line pushed `column` to the right. */
  function Indented(parts: seq<string>, column: nat): (r: seq<string>)
    ensures |r| == |parts| && forall k :: 0 <= k < |parts| ==> r[k] == Pad(column) + parts[k]
  {
    seq(|parts|, k requires 0 <= k < |parts| => Pad(column) + parts[k])
  }

  lemma {:induction false} TrimStartPadded(n: nat, s: string)
    ensures TrimStart(Pad(n) + s) == TrimStart(s)
  {
    if n == 0 {
      assert Pad(0) + s == s;
    } else {
      assert (Pad(n) + s)[1..] == Pad(n - 1) + s;
      TrimStartPadded(n - 1, s);
    }
  }

  lemma TrimStartSuffix(s: string)
    ensures TrimStart(s) == s[|s| - |TrimStart(s)|..]
    ensures TrimStart(s) == s <==> s == "" || s[0] !in SPACES
  {
  }

  /** Padding keeps blankness and adds to the indentation. */
  lemma PaddedLine(n: nat, s: string)
    ensures Blank(Pad(n) + s) <==> Blank(s)
    ensures LeadingSpaces(Pad(n) + s) == n + LeadingSpaces(s)
  {
    TrimStartPadded(n, s);
  }

  lemma NonBlankIndent(s: string)
    requires !Blank(s)
    ensures LeadingSpaces(s) < |s|
  {
  }

  /** A text laid out in a block comes back exactly when this holds of its lines: no line is blank
      without being empty, and some line is not indented, unless all are empty. */
  predicate BlockCarried(text: string) {
    var parts := Split(text);
    && (forall k :: 0 <= k < |parts| && Blank(parts[k]) ==> parts[k] == "")
    && (|| (forall k :: 0 <= k < |parts| ==> Blank(parts[k]))
        || (exists k :: 0 <= k < |parts| && !Blank(parts[k]) && LeadingSpaces(parts[k]) == 0))
  }

  lemma PaddedLines(parts: seq<string>, column: nat)
    ensures forall k :: 0 <= k < |parts| ==>
      (Blank(Indented(parts, column)[k]) <==> Blank(parts[k]))
      && LeadingSpaces(Indented(parts, column)[k]) == column + LeadingSpaces(parts[k])
  {
    hide Blank, LeadingSpaces;
    forall k | 0 <= k < |parts|
      ensures Blank(Indented(parts, column)[k]) <==> Blank(parts[k])
      ensures LeadingSpaces(Indented(parts, column)[k]) == column + LeadingSpaces(parts[k])
    {
      PaddedLine(column, parts[k]);
    }
  }

  /** The indentation stripped from a written block is the column plus the text's own. */
  lemma CommonIndentOfWritten(parts: seq<string>, column: nat)
    ensures CommonIndent(Indented(parts, column)) ==
      match CommonIndent(parts) case None => None case Some(n) => Some(column + n)
  {
    hide Blank, LeadingSpaces, CommonIndent;
    PaddedLines(parts, column);
    var block := Indented(parts, column);
    if CommonIndent(parts).Some? {
      var k :| 0 <= k < |parts| && !Blank(parts[k]) && CommonIndent(parts).value == LeadingSpaces(parts[k]);
      assert !Blank(block[k]);
      var j :| 0 <= j < |block| && !Blank(block[j]) && CommonIndent(block).value == LeadingSpaces(block[j]);
      assert CommonIndent(parts).value <= LeadingSpaces(parts[j]);
      assert CommonIndent(block).value <= LeadingSpaces(block[k]);
    }
  }

  /** What the reader makes of a written block: the text less its own common indentation. */
  lemma BlockTextOfWritten(parts: seq<string>, column: nat)
    requires OneLineEach(parts)
    ensures BlockText(Indented(parts, column)) == BlockText(parts)
  {
    hide Blank, LeadingSpaces, CommonIndent, Join;
    CommonIndentOfWritten(parts, column);
    PaddedLines(parts, column);
    var block := Indented(parts, column);
    if CommonIndent(parts).Some? {
      var n := CommonIndent(parts).value;
      forall k | 0 <= k < |parts| && !Blank(parts[k])
        ensures n <= |parts[k]| && block[k][column + n..] == parts[k][n..]
      {
        NonBlankIndent(parts[k]);
      }
      assert Stripped(block, column + n) == Stripped(parts, n);
    } else {
      assert Stripped(block, 0) == Stripped(parts, 0);
    }
  }

  lemma StrippedOneLine(parts: seq<string>, strip: nat)
    requires OneLineEach(parts)
    requires forall k :: 0 <= k < |parts| && !Blank(parts[k]) ==> strip <= |parts[k]|
    ensures OneLineEach(Stripped(parts, strip))
  {
    hide Blank;
    forall k | 0 <= k < |parts| ensures OneLine(Stripped(parts, strip)[k]) {
      assert OneLine(parts[k]);
    }
  }

  lemma StrippedIsSameIff(parts: seq<string>, strip: nat)
    requires forall k :: 0 <= k < |parts| && !Blank(parts[k]) ==> strip <= |parts[k]|
    ensures Stripped(parts, strip) == parts <==>
      && (forall k :: 0 <= k < |parts| && Blank(parts[k]) ==> parts[k] == "")
      && ((forall k :: 0 <= k < |parts| ==> Blank(parts[k])) || strip == 0)
  {
    hide Blank;
    var r := Stripped(parts, strip);
    if r == parts {
      forall k | 0 <= k < |parts| && Blank(parts[k]) ensures parts[k] == "" {
        assert r[k] == parts[k];
      }
      forall k | 0 <= k < |parts| && strip != 0 ensures Blank(parts[k]) {
        assert r[k] == parts[k];
      }
    }
  }

  lemma StripOfText(parts: seq<string>, strip: nat)
    requires strip == match CommonIndent(parts) case None => 0 case Some(n) => n
    ensures forall k :: 0 <= k < |parts| && !Blank(parts[k]) ==> strip <= |parts[k]|
    ensures ((forall k :: 0 <= k < |parts| ==> Blank(parts[k])) || strip == 0) <==>
      ((forall k :: 0 <= k < |parts| ==> Blank(parts[k]))
       || (exists k :: 0 <= k < |parts| && !Blank(parts[k]) && LeadingSpaces(parts[k]) == 0))
  {
    hide Blank, LeadingSpaces, CommonIndent;
    forall k | 0 <= k < |parts| && !Blank(parts[k]) ensures strip <= |parts[k]| {
      NonBlankIndent(parts[k]);
    }
  }

  /** Writing a text as a block and reading it back gives the text if and only if it is carried. */
  lemma BlockReadsBackIff(text: string, column: nat)
    ensures BlockText(Indented(Split(text), column)) == text <==> BlockCarried(text)
  {
    hide Blank, LeadingSpaces, CommonIndent, Join, Split, Stripped;
    var parts := Split(text);
    BlockTextOfWritten(parts, column);
    JoinSplit(text);
    var strip := match CommonIndent(parts) case None => 0 case Some(n) => n;
    StripOfText(parts, strip);
    StrippedIsSameIff(parts, strip);
    StrippedOneLine(parts, strip);
    var r := Stripped(parts, strip);
    SplitJoined(r);
    SplitJoined(parts);
    assert BlockText(parts) == Join(r);
  }

  /** A written block is taken whole: it ends where a non-blank line no deeper than its key stands. */
  lemma {:induction false} BlockIsTaken(parts: seq<string>, column: nat, indent: nat, tail: seq<string>)
    requires column > indent
    requires tail != [] ==> !Blank(tail[0]) && LeadingSpaces(tail[0]) <= indent
    ensures BlockLength(Indented(parts, column) + tail, indent) == |parts|
  {
    hide Blank, LeadingSpaces;
    if parts == [] {
      assert Indented(parts, column) + tail == tail;
    } else {
      var all := Indented(parts, column) + tail;
      PaddedLine(column, parts[0]);
      assert all[0] == Pad(column) + parts[0];
      assert Indented(parts, column)[1..] == Indented(parts[1..], column);
      assert all[1..] == Indented(parts[1..], column) + tail;
      BlockIsTaken(parts[1..], column, indent, tail);
    }
  }
}
