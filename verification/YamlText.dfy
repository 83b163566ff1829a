/** Character-level text handling of the frontmatter dialect: trimming, quoting, unquoting and
    the inline-array scanner, with the facts the round trip rests on. */
module YamlText {
  import opened Evidence

  // ---- Whitespace ----------------------------------------------------------------------------

  const LINE_TERMINATORS: set<char> := {'\n', '\r', '\U{2028}', '\U{2029}'}

  const SPACES: set<char> := {
    ' ', '\t', '\n', '\r', '\U{0b}', '\U{0c}', '\U{a0}', '\U{1680}',
    '\U{2000}', '\U{2001}', '\U{2002}', '\U{2003}', '\U{2004}', '\U{2005}', '\U{2006}', '\U{2007}', '\U{2008}', '\U{2009}', '\U{200a}',
    '\U{2028}', '\U{2029}', '\U{202f}', '\U{205f}', '\U{3000}', '\U{feff}'}

  function TrimStart(s: string): (r: string)
    ensures |r| <= |s| && (r != [] ==> r[0] !in SPACES)
  {
    if s != [] && s[0] in SPACES then TrimStart(s[1..]) else s
  }

  function TrimEnd(s: string): (r: string)
    ensures |r| <= |s|
  {
    if s != [] && s[|s| - 1] in SPACES then TrimEnd(s[..|s| - 1]) else s
  }

  function Trim(s: string): string { TrimEnd(TrimStart(s)) }

  function LeadingSpaces(s: string): nat { |s| - |TrimStart(s)| }

  /** No whitespace at either end, and not empty. */
  predicate Tight(s: string) { s != [] && s[0] !in SPACES && s[|s| - 1] !in SPACES }

  predicate NoneOf(s: string, bad: set<char>) { forall c :: c in s ==> c !in bad }

  /** No line terminator of any kind. */
  predicate SingleLine(s: string) { NoneOf(s, LINE_TERMINATORS) }

  function Pad(n: nat): (r: string)
    ensures |r| == n && forall k :: 0 <= k < n ==> r[k] == ' '
  {
    seq(n, _ => ' ')
  }

  lemma {:induction false} TrimPadded(n: nat, s: string)
    requires Tight(s)
    ensures TrimStart(Pad(n) + s) == s && Trim(Pad(n) + s) == s && LeadingSpaces(Pad(n) + s) == n
  {
    if n == 0 {
      assert Pad(0) + s == s;
    } else {
      assert (Pad(n) + s)[1..] == Pad(n - 1) + s;
      TrimPadded(n - 1, s);
    }
  }

  lemma TightConcat(a: string, b: string, c: string)
    requires Tight(a) && Tight(c)
    ensures Tight(a + b + c)
  {
  }

  // ---- Quoting --------------------------------------------------------------------------------

  const SPECIAL: set<char> := {':', '[', ']', '{', '}', ',', '&', '*', '#', '?', '|', '<', '>', '=', '!', '%', '@', '`', '\'', '"'}

  /** `.replace(/x/g, 'xy')`-style: every occurrence of one character by a string. */
  function ReplaceChar(s: string, c: char, with: string): string {
    if s == [] then [] else (if s[0] == c then with else [s[0]]) + ReplaceChar(s[1..], c, with)
  }

  /** Every non-overlapping `ab`, left to right, by the single character `c`. */
  function ReplacePair(s: string, a: char, b: char, c: char): string {
    if |s| < 2 then s
    else if s[0] == a && s[1] == b then [c] + ReplacePair(s[2..], a, b, c)
    else [s[0]] + ReplacePair(s[1..], a, b, c)
  }

  function Escape(s: string): string { ReplaceChar(ReplaceChar(s, '\\', "\\\\"), '"', "\\\"") }

  function Unescape(s: string): string { ReplacePair(ReplacePair(s, '\\', '"', '"'), '\\', '\\', '\\') }

  /** One character, escaped. */
  function EscapeOne(c: char): string { if c == '\\' then "\\\\" else if c == '"' then "\\\"" else [c] }

  lemma {:induction false} ReplaceConcat(s: string, t: string, c: char, w: string)
    ensures ReplaceChar(s + t, c, w) == ReplaceChar(s, c, w) + ReplaceChar(t, c, w)
  {
    if s == [] {
      assert s + t == t;
    } else {
      assert (s + t)[1..] == s[1..] + t;
      ReplaceConcat(s[1..], t, c, w);
    }
  }

  /** The two escaping passes work character by character. */
  lemma EscapeStep(s: string)
    requires s != []
    ensures Escape(s) == EscapeOne(s[0]) + Escape(s[1..])
  {
    var first := if s[0] == '\\' then "\\\\" else [s[0]];
    ReplaceConcat(first, ReplaceChar(s[1..], '\\', "\\\\"), '"', "\\\"");
    if s[0] == '\\' {
      assert "\\\\"[1..] == "\\" && "\\"[1..] == "";
      assert ReplaceChar("\\", '"', "\\\"") == "\\";
      assert ReplaceChar("\\\\", '"', "\\\"") == "\\\\";
    } else {
      assert [s[0]][1..] == [];
      assert ReplaceChar([s[0]], '"', "\\\"") == EscapeOne(s[0]);
    }
  }

  /** An escaped text never begins with a bare quote. */
  lemma EscapeHead(s: string)
    ensures Escape(s) != [] ==> Escape(s)[0] != '"'
  {
    if s != [] { EscapeStep(s); }
  }

  function Doubled(s: string): string { ReplaceChar(s, '\\', "\\\\") }

  lemma PairAtBackslashes(rest: string)
    requires rest != [] ==> rest[0] != '"'
    ensures ReplacePair("\\\\" + rest, '\\', '"', '"') == "\\\\" + ReplacePair(rest, '\\', '"', '"')
  {
    var e, f := "\\\\" + rest, "\\" + rest;
    assert e[1..] == f && f[1..] == rest;
    if rest == [] {
      assert f == "\\" && ReplacePair(f, '\\', '"', '"') == f;
    }
    assert ReplacePair(f, '\\', '"', '"') == "\\" + ReplacePair(rest, '\\', '"', '"');
  }

  lemma PairAtPlain(x: char, rest: string, a: char, b: char, c: char)
    requires x != a
    ensures ReplacePair([x] + rest, a, b, c) == [x] + ReplacePair(rest, a, b, c)
  {
    assert ([x] + rest)[1..] == rest;
    if rest == [] { assert [x] + rest == [x]; }
  }

  lemma PairFound(rest: string, a: char, b: char, c: char)
    ensures ReplacePair([a, b] + rest, a, b, c) == [c] + ReplacePair(rest, a, b, c)
  {
    assert ([a, b] + rest)[2..] == rest;
  }

  /** First unescaping pass: it finds exactly the quotes the writer escaped. */
  lemma {:induction false} FirstPass(s: string)
    ensures ReplacePair(Escape(s), '\\', '"', '"') == Doubled(s)
  {
    hide Escape, ReplacePair;
    if s == [] {
      EscapeEmpty();
    } else {
      var rest := Escape(s[1..]);
      EscapeStep(s);
      FirstPass(s[1..]);
      EscapeHead(s[1..]);
      if s[0] == '\\' {
        PairAtBackslashes(rest);
      } else if s[0] == '"' {
        PairFound(rest, '\\', '"', '"');
      } else {
        PairAtPlain(s[0], rest, '\\', '"', '"');
      }
    }
  }

  lemma EscapeEmpty()
    ensures Escape("") == "" && ReplacePair("", '\\', '"', '"') == "" && Doubled("") == ""
  {
  }

  /** Second pass: it undoes the doubling. */
  lemma {:induction false} SecondPass(s: string)
    ensures ReplacePair(Doubled(s), '\\', '\\', '\\') == s
  {
    if s != [] {
      var rest := Doubled(s[1..]);
      SecondPass(s[1..]);
      if s[0] == '\\' {
        assert ("\\\\" + rest)[2..] == rest;
      } else {
        assert ([s[0]] + rest)[1..] == rest;
      }
    }
  }

  /** The two-pass unescape inverts the two-pass escape, for every text. */
  lemma UnescapeInvertsEscape(s: string)
    ensures Unescape(Escape(s)) == s
  {
    FirstPass(s);
    SecondPass(s);
  }

  /** `unquote`: strips matching quotes and unescapes; a lone quote character becomes empty. */
  function Unquote(s: string): string {
    if s != [] && ((s[0] == '"' && s[|s| - 1] == '"') || (s[0] == '\'' && s[|s| - 1] == '\'')) then
      if |s| == 1 then [] else Unescape(s[1..|s| - 1])
    else s
  }

  /** A JavaScript number other than NaN. */
  datatype Double = Finite(value: real) | Infinite(negative: bool)

  /** `Number(raw)` on a non-empty spelling; `None` is NaN. */
  type Reading = string -> Option<Double>

  predicate Coerced(read: Reading, s: string) {
    s == "true" || s == "false" || s == "null" || (s != "" && read(s).Some?)
  }

  predicate NeedsQuotes(read: Reading, s: string) {
    || Coerced(read, s)
    || (exists c :: c in s && (c in SPECIAL || c == '\n'))
    || (s != [] && (s[0] == ' ' || s[|s| - 1] == ' '))
  }

  function Quoted(s: string): string { "\"" + Escape(s) + "\"" }

  /** `yamlString` */
  function YamlString(read: Reading, s: string): string {
    if s == "" then "\"\"" else if NeedsQuotes(read, s) then Quoted(s) else s
  }

  /** What is written as it is: a string that reads as no other type, holds no character that means
      something and neither starts nor ends with a space. Anything else is written in quotes. */
  lemma BareIff(read: Reading, s: string)
    ensures YamlString(read, s) == s <==>
      && s != "" && s != "true" && s != "false" && s != "null" && read(s).None?
      && (forall c :: c in s ==>
            c !in {'"', '\'', '`', '@', '%', '!', '=', '>', '<', '|', '?', '#', '*', '&', ',', '}', '{', ']', '[', ':'} && c != '\n')
      && s[0] != ' ' && s[|s| - 1] != ' '
    ensures YamlString(read, s) != s ==> YamlString(read, s) == "\"" + Escape(s) + "\""
  {
    hide Escape;
    EscapeLonger(s);
    if s == "" { EscapeEmpty(); }
  }

  lemma {:induction false} EscapeLonger(s: string)
    ensures |Escape(s)| >= |s|
  {
    if s != [] {
      EscapeStep(s);
      EscapeLonger(s[1..]);
    }
  }

  /** The one-line strings the writer's spelling brings back (`ScalarReadsBackIff`): a bare one has
      no whitespace at its edges. */
  predicate Carried(read: Reading, s: string) {
    '\n' !in s && (s == "" || NeedsQuotes(read, s) || Tight(s))
  }

  lemma UnquoteQuoted(s: string)
    ensures Unquote(Quoted(s)) == s
  {
    var q := Quoted(s);
    assert q[1..|q| - 1] == Escape(s);
    UnescapeInvertsEscape(s);
  }

  lemma {:induction false} EscapeFree(s: string, bad: set<char>)
    requires NoneOf(s, bad) && '\\' !in bad && '"' !in bad
    ensures NoneOf(Escape(s), bad)
  {
    if s != [] {
      assert s[0] in s;
      assert forall c :: c in s[1..] ==> c in s;
      EscapeStep(s);
      EscapeFree(s[1..], bad);
    }
  }

  /** The spelling of a string holds no character from outside but quotes and backslashes. */
  lemma YamlStringFree(read: Reading, s: string, bad: set<char>)
    requires NoneOf(s, bad) && '\\' !in bad && '"' !in bad
    ensures NoneOf(YamlString(read, s), bad)
  {
    hide Escape, NeedsQuotes;
    EscapeFree(s, bad);
  }

  lemma QuotedShape(s: string)
    ensures Tight(Quoted(s)) && Quoted(s)[0] == '"'
  {
    hide Escape;
    var q := Quoted(s);
    assert q[0] == '"' && q[|q| - 1] == '"';
  }

  /** What the writer puts down for a string: a tight spelling that reads back as the string. */
  lemma YamlStringReads(read: Reading, s: string)
    requires Carried(read, s)
    ensures Tight(YamlString(read, s)) && '\n' !in YamlString(read, s)
    ensures Unquote(YamlString(read, s)) == s
    ensures s == "" || NeedsQuotes(read, s) ==> YamlString(read, s)[0] == '"'
  {
    hide Escape, Unquote, Tight;
    YamlStringFree(read, s, {'\n'});
    if s == "" || NeedsQuotes(read, s) {
      assert YamlString(read, s) == Quoted(s) by { if s == "" { EscapeEmpty(); } }
      UnquoteQuoted(s);
      QuotedShape(s);
    } else {
      PlainUnquoted(read, s);
    }
  }

  lemma PlainUnquoted(read: Reading, s: string)
    requires s != "" && !NeedsQuotes(read, s)
    ensures Unquote(s) == s
  {
    assert s[0] in s && s[0] !in SPECIAL;
  }

  // ---- Inline arrays ----------------------------------------------------------------------------

  /** The scanner of `splitInlineArray` on the rest of the text, in a quote or not. */
  function Scan(s: string, quote: Option<char>, current: string): seq<string> {
    if s == [] then [current]
    else if quote.Some? then
      if s[0] == '\\' && quote.value == '"' && |s| > 1 then Scan(s[2..], quote, current + s[..2])
      else if s[0] == quote.value then Scan(s[1..], None, current + [s[0]])
      else Scan(s[1..], quote, current + [s[0]])
    else if s[0] == '"' || s[0] == '\'' then Scan(s[1..], Some(s[0]), current + [s[0]])
    else if s[0] == ',' then [current] + Scan(s[1..], None, [])
    else Scan(s[1..], None, current + [s[0]])
  }

  function Elements(parts: seq<string>): (r: seq<string>)
    ensures |r| == |parts| && forall k :: 0 <= k < |parts| ==> r[k] == Unquote(Trim(parts[k]))
  {
    seq(|parts|, k requires 0 <= k < |parts| => Unquote(Trim(parts[k])))
  }

  /** The loop of `splitInlineArray`. */
  method SplitInlineArray(inner: string) returns (parts: seq<string>)
    ensures parts == Elements(Scan(inner, None, []))
  {
    var raw: seq<string> := [];
    var current: string := [];
    var quote: Option<char> := None;
    var i := 0;
    while i < |inner|
      invariant 0 <= i <= |inner|
      invariant raw + Scan(inner[i..], quote, current) == Scan(inner, None, [])
      decreases |inner| - i
    {
      var c := inner[i];
      ghost var rest := inner[i..];
      assert rest[0] == c && rest[1..] == inner[i + 1..];
      if quote.Some? {
        if c == '\\' && quote.value == '"' && i + 1 < |inner| {
          assert rest[..2] == [c, inner[i + 1]] && rest[2..] == inner[i + 2..];
          assert current + rest[..2] == current + [c] + [inner[i + 1]];
          current := current + [c] + [inner[i + 1]];
          i := i + 2;
        } else {
          current := current + [c];
          if c == quote.value { quote := None; }
          i := i + 1;
        }
      } else {
        if c == '"' || c == '\'' {
          quote := Some(c);
          current := current + [c];
        } else if c == ',' {
          assert raw + ([current] + Scan(inner[i + 1..], None, [])) == raw + [current] + Scan(inner[i + 1..], None, []);
          raw := raw + [current];
          current := [];
        } else {
          current := current + [c];
        }
        i := i + 1;
      }
    }
    assert inner[i..] == [];
    parts := Elements(raw + [current]);
  }

  predicate NoBreak(s: string) { forall c :: c in s ==> c != '"' && c != '\'' && c != ',' }

  lemma {:induction false} ScanPlain(e: string, tail: string, current: string)
    requires NoBreak(e)
    ensures Scan(e + tail, None, current) == Scan(tail, None, current + e)
  {
    if e == [] {
      assert e + tail == tail && current + e == current;
    } else {
      assert e[0] in e && forall c :: c in e[1..] ==> c in e;
      assert (e + tail)[1..] == e[1..] + tail;
      ScanPlain(e[1..], tail, current + [e[0]]);
      assert current + [e[0]] + e[1..] == current + e;
    }
  }

  /** Inside a double-quoted element, an escaped character is carried over whole. */
  lemma ScanEscapedChar(c: char, rest: string, current: string)
    requires rest != []
    ensures Scan(EscapeOne(c) + rest, Some('"'), current) == Scan(rest, Some('"'), current + EscapeOne(c))
  {
    var e := EscapeOne(c);
    if |e| == 2 {
      assert (e + rest)[0] == '\\' && (e + rest)[..2] == e && (e + rest)[2..] == rest;
    } else {
      assert e == [c] && (e + rest)[0] == c && (e + rest)[1..] == rest;
    }
  }

  lemma ScanClosingQuote(tail: string, current: string)
    ensures Scan("\"" + tail, Some('"'), current) == Scan(tail, None, current + "\"")
  {
    assert ("\"" + tail)[1..] == tail;
  }

  /** Inside a double-quoted element no comma splits and no escaped quote closes. */
  lemma {:induction false} ScanEscaped(s: string, tail: string, current: string)
    ensures Scan(Escape(s) + "\"" + tail, Some('"'), current) == Scan(tail, None, current + Escape(s) + "\"")
  {
    hide Scan, Escape, EscapeOne;
    if s == [] {
      EscapeEmpty();
      assert Escape(s) + "\"" + tail == "\"" + tail;
      assert current + Escape(s) + "\"" == current + "\"";
      ScanClosingQuote(tail, current);
    } else {
      EscapeStep(s);
      var e, rest := EscapeOne(s[0]), Escape(s[1..]) + "\"" + tail;
      assert Escape(s) + "\"" + tail == e + rest;
      ScanEscapedChar(s[0], rest, current);
      ScanEscaped(s[1..], tail, current + e);
      assert current + e + Escape(s[1..]) + "\"" == current + Escape(s) + "\"";
    }
  }

  lemma ScanElement(read: Reading, s: string, tail: string, current: string)
    requires Carried(read, s)
    ensures Scan(YamlString(read, s) + tail, None, current) == Scan(tail, None, current + YamlString(read, s))
  {
    var y := YamlString(read, s);
    if s != "" && !NeedsQuotes(read, s) {
      assert NoBreak(s);
      ScanPlain(s, tail, current);
    } else {
      assert y == Quoted(s) by { if s == "" { assert Escape("") == ""; } }
      assert y + tail == "\"" + (Escape(s) + "\"" + tail);
      assert (y + tail)[1..] == Escape(s) + "\"" + tail;
      ScanEscaped(s, tail, current + "\"");
      assert current + "\"" + Escape(s) + "\"" == current + y;
    }
  }

  /** `.map(yamlString).join(', ')` */
  function JoinedStrings(read: Reading, ts: seq<string>): string {
    if ts == [] then [] else if |ts| == 1 then YamlString(read, ts[0])
    else YamlString(read, ts[0]) + ", " + JoinedStrings(read, ts[1..])
  }

  lemma ScanSeparator(more: string, current: string)
    ensures Scan(", " + more, None, current) == [current] + Scan(more, None, " ")
  {
    var tail := ", " + more;
    assert tail[0] == ',' && tail[1..] == " " + more;
    assert (" " + more)[1..] == more && [] + [' '] == " ";
  }

  lemma ScanEnd(current: string)
    ensures Scan([], None, current) == [current]
  {
  }

  lemma ElementsStep(part: string, parts: seq<string>)
    ensures Elements([part] + parts) == [Unquote(Trim(part))] + Elements(parts)
  {
    hide Unquote, Trim;
  }

  /** The scanner undoes the join, element by element. */
  lemma {:induction false} ScanJoined(read: Reading, ts: seq<string>, lead: string)
    requires ts != [] && (forall k :: 0 <= k < |ts| ==> Carried(read, ts[k])) && (lead == "" || lead == " ")
    ensures Elements(Scan(JoinedStrings(read, ts), None, lead)) == ts
  {
    hide Scan, Trim, Unquote, YamlString, Elements, Carried, TrimStart;
    var y := YamlString(read, ts[0]);
    YamlStringReads(read, ts[0]);
    TrimPadded(|lead|, y);
    assert lead + y == Pad(|lead|) + y;
    if |ts| == 1 {
      assert y + [] == y;
      ScanElement(read, ts[0], [], lead);
      ScanEnd(lead + y);
      ElementsStep(lead + y, []);
      assert [lead + y] + [] == [lead + y];
      assert ts == [ts[0]] + [];
    } else {
      var more := JoinedStrings(read, ts[1..]);
      assert JoinedStrings(read, ts) == y + (", " + more);
      ScanElement(read, ts[0], ", " + more, lead);
      ScanSeparator(more, lead + y);
      ScanJoined(read, ts[1..], " ");
      ElementsStep(lead + y, Scan(more, None, " "));
      assert ts == [ts[0]] + ts[1..];
    }
  }

  lemma {:induction false} JoinedTight(read: Reading, ts: seq<string>)
    requires ts != [] && forall k :: 0 <= k < |ts| ==> Carried(read, ts[k])
    ensures Tight(JoinedStrings(read, ts))
  {
    YamlStringReads(read, ts[0]);
    if |ts| > 1 {
      JoinedTight(read, ts[1..]);
      TightConcat(YamlString(read, ts[0]), ", ", JoinedStrings(read, ts[1..]));
    }
  }

  lemma {:induction false} JoinedFree(read: Reading, ts: seq<string>, bad: set<char>)
    requires (forall k :: 0 <= k < |ts| ==> NoneOf(ts[k], bad)) && '\\' !in bad && '"' !in bad && ',' !in bad && ' ' !in bad
    ensures NoneOf(JoinedStrings(read, ts), bad)
  {
    hide YamlString;
    if ts != [] {
      YamlStringFree(read, ts[0], bad);
      JoinedFree(read, ts[1..], bad);
    }
  }
}
