/** The page header printer and parser: a YAML dialect of scalars, string arrays and arrays of
    mappings, written by hand and read back line by line. */
module Frontmatter {
  import opened Evidence
  import opened YamlText
  import opened YamlLines

  datatype Json =
    | JNull
    | JBool(truth: bool)
    | JNumber(number: Double)
    | JText(text: string)
    | JArray(items: seq<Json>)
    | JObject(fields: seq<Field>)

  /** One own property, in the order `Object.entries` yields it. */
  datatype Field = Field(key: string, value: Json)

  /** `Number(raw)` and `String(number)`. */
  datatype Numbers = Numbers(read: Reading, show: Double -> string)

  // ---- The vocabulary the writer admits -------------------------------------------------------------

  /** `assertPageVocabulary`: no mapping at a property position, every array carriable. */
  predicate Vocabulary(fs: seq<Field>)
    decreases fs, 0
  {
    forall k :: 0 <= k < |fs| ==> Admitted(fs[k].value)
  }

  predicate Admitted(v: Json)
    decreases v, 0
  {
    match v
    case JObject(_) => false
    case JArray(items) => ArrayCarriable(items)
    case _ => true
  }

  predicate AllObjects(items: seq<Json>) { forall k :: 0 <= k < |items| ==> items[k].JObject? }

  predicate AllTexts(items: seq<Json>) { forall k :: 0 <= k < |items| ==> items[k].JText? }

  /** `assertArrayCarriable`: all non-empty mappings of admitted values, or all strings. */
  predicate ArrayCarriable(items: seq<Json>)
    decreases items, 0
  {
    if AllObjects(items)
    then forall k :: 0 <= k < |items| ==> items[k].JObject? && items[k].fields != [] && Vocabulary(items[k].fields)
    else AllTexts(items)
  }

  function Texts(items: seq<Json>): (ts: seq<string>)
    requires AllTexts(items)
    ensures |ts| == |items| && forall k :: 0 <= k < |items| ==> ts[k] == items[k].text
  {
    seq(|items|, k requires 0 <= k < |items| => items[k].text)
  }

  // ---- The printer -----------------------------------------------------------------------------------

  function Slice(s: string, k: nat): string { if k <= |s| then s[k..] else [] }

  function WithoutEmpty(lines: seq<string>): seq<string> {
    if lines == [] then [] else (if lines[0] == [] then [] else [lines[0]]) + WithoutEmpty(lines[1..])
  }

  /** One string of a string array in block form. */
  function TextItem(read: Reading, t: string, indent: nat): seq<string> {
    if '\n' !in t then [Pad(indent) + "  - " + YamlString(read, t)]
    else [Pad(indent) + "  - |"] + Indented(Split(t), indent + 4)
  }

  function TextItems(read: Reading, ts: seq<string>, indent: nat): seq<string> {
    if ts == [] then [] else TextItem(read, ts[0], indent) + TextItems(read, ts[1..], indent)
  }

  predicate SomeMultiline(ts: seq<string>) { exists k :: 0 <= k < |ts| && '\n' in ts[k] }

  /** The strings `toYAML` pushes for one property. */
  function Pushed(n: Numbers, f: Field, indent: nat): seq<string>
    requires Admitted(f.value)
    decreases f, 0
  {
    var name := Pad(indent) + f.key;
    match f.value
    case JNull => [name + ": null"]
    case JBool(b) => [name + ": " + (if b then "true" else "false")]
    case JNumber(d) => [name + ": " + n.show(d)]
    case JText(s) =>
      [name + ": " + (if '\n' in s then "|\n" + Join(Indented(Split(s), indent + 2)) else YamlString(n.read, s))]
    case JArray(items) =>
      assert ArrayCarriable(items);
      if items == [] then [name + ": []"]
      else if items[0].JObject? then
        assert !items[0].JText?;
        [name + ":"] + PushedItems(n, items, indent)
      else if SomeMultiline(Texts(items)) then [name + ":"] + TextItems(n.read, Texts(items), indent)
      else [name + ": [" + JoinedStrings(n.read, Texts(items)) + "]"]
  }

  function PushedItems(n: Numbers, items: seq<Json>, indent: nat): seq<string>
    requires AllObjects(items) && ArrayCarriable(items)
    decreases items, 0
  {
    if items == [] then [] else
    PushedItem(n, items[0].fields, indent) + PushedItems(n, items[1..], indent)
  }

  /** A mapping as a block item: its first line after the dash, the others as they are. */
  function PushedItem(n: Numbers, fs: seq<Field>, indent: nat): seq<string>
    requires Vocabulary(fs)
    decreases fs, 2
  {
    var lines := WithoutEmpty(Split(ToYaml(n, fs, indent + 4)));
    var first := if lines == [] then "" else lines[0];
    [Pad(indent) + "  - " + Slice(first, indent + 4)] + if lines == [] then [] else lines[1..]
  }

  function PushedAll(n: Numbers, fs: seq<Field>, indent: nat): seq<string>
    requires Vocabulary(fs)
    decreases fs, 0
  {
    if fs == [] then [] else Pushed(n, fs[0], indent) + PushedAll(n, fs[1..], indent)
  }

  /** `toYAML` */
  function ToYaml(n: Numbers, fs: seq<Field>, indent: nat): string
    requires Vocabulary(fs)
    decreases fs, 1
  {
    Join(PushedAll(n, fs, indent)) + "\n"
  }

  /** `serialiseFrontmatter`; `None` is the refusal of a shape outside the vocabulary. */
  function Serialise(n: Numbers, fs: seq<Field>, body: string): Option<string> {
    if Vocabulary(fs) then Some("---\n" + ToYaml(n, fs, 0) + "---\n" + body) else None
  }

  // ---- The parser ------------------------------------------------------------------------------------

  /** `readBareScalar` */
  function ReadBare(read: Reading, raw: string): Json {
    if raw == "true" then JBool(true)
    else if raw == "false" then JBool(false)
    else if raw == "null" then JNull
    else if raw != "" && read(raw).Some? then JNumber(read(raw).value)
    else JText(Unquote(raw))
  }

  /** The value after `key:` on one line: an inline array or a scalar. */
  function ReadInline(read: Reading, rest: string): Json
    requires rest != ""
  {
    if rest[0] == '[' && rest[|rest| - 1] == ']' then
      var inner := Trim(if |rest| == 1 then "" else rest[1..|rest| - 1]);
      if inner == "" then JArray([]) else TextArray(Elements(Scan(inner, None, [])))
    else ReadBare(read, rest)
  }

  function TextArray(ts: seq<string>): (r: Json)
    ensures r.JArray? && |r.items| == |ts| && forall k :: 0 <= k < |ts| ==> r.items[k] == JText(ts[k])
  {
    JArray(seq(|ts|, k requires 0 <= k < |ts| => JText(ts[k])))
  }

  /** Index of the first colon, or the length. */
  function FirstColon(s: string): (k: nat)
    ensures k <= |s| && ':' !in s[..k] && (k < |s| ==> s[k] == ':')
  {
    if s == [] || s[0] == ':' then 0 else
    var k := 1 + FirstColon(s[1..]);
    assert s[..k] == [s[0]] + s[1..][..k - 1];
    k
  }

  /** `result[key] = value`: an existing property keeps its place. */
  function Assign(fs: seq<Field>, key: string, v: Json): seq<Field> {
    if fs == [] then [Field(key, v)]
    else if fs[0].key == key then [Field(key, v)] + fs[1..]
    else [fs[0]] + Assign(fs[1..], key, v)
  }

  predicate OpensArray(line: string) { var t := TrimStart(line); t != [] && t[0] == '-' }

  datatype Dash = Dash(indent: nat, content: string)

  /** `BLOCK_ITEM`, whose last group stops at any line terminator. */
  function DashItem(line: string): Option<Dash> {
    var t := TrimStart(line);
    if t != [] && t[0] == '-' && SingleLine(TrimStart(t[1..])) then Some(Dash(|line| - |t|, Trim(t[1..]))) else None
  }

  predicate QuotedScalar(s: string) { |s| >= 2 && (s[0] == '"' || s[0] == '\'') && s[|s| - 1] == s[0] }

  predicate MappingItem(s: string) {
    var k := FirstColon(s);
    !QuotedScalar(s) && 0 < k < |s| && s[0] !in SPACES && (k + 1 == |s| || s[k + 1] in SPACES)
  }

  /** `hasDeeperNonBlankLine` */
  predicate DeeperFollows(lines: seq<string>, indent: nat) {
    lines != [] && if Blank(lines[0]) then DeeperFollows(lines[1..], indent) else LeadingSpaces(lines[0]) > indent
  }

  /** How many of the next lines are indented deeper than an item's dash. */
  function DeeperLength(lines: seq<string>, indent: nat): (n: nat)
    ensures n <= |lines|
  {
    if lines != [] && LeadingSpaces(lines[0]) > indent then 1 + DeeperLength(lines[1..], indent) else 0
  }

  datatype ArrayRead = ArrayRead(items: seq<Json>, rest: seq<string>)

  function Prepend(v: Json, r: ArrayRead): ArrayRead { ArrayRead([v] + r.items, r.rest) }

  /** `parseYAML` on the remaining lines, `acc` being what it has assigned so far. */
  function Parse(read: Reading, lines: seq<string>, acc: seq<Field>): seq<Field>
    decreases |lines|, 0
  {
    if lines == [] then acc else
    var line, below := lines[0], lines[1..];
    var colon := FirstColon(line);
    if colon == |line| then Parse(read, below, acc) else
    var key, rest := Trim(line[..colon]), Trim(line[colon + 1..]);
    if rest == "|" then
      var n := BlockLength(below, LeadingSpaces(line));
      Parse(read, below[n..], Assign(acc, key, JText(BlockText(below[..n]))))
    else if rest == "" then
      if below != [] && OpensArray(below[0]) then
        var a := ParseArray(read, below);
        Parse(read, a.rest, Assign(acc, key, JArray(a.items)))
      else Parse(read, below, if DeeperFollows(below, LeadingSpaces(line)) then acc else Assign(acc, key, JNull))
    else Parse(read, below, Assign(acc, key, ReadInline(read, rest)))
  }

  /** An item's own lines: its content at the content column, then the deeper lines. */
  function ItemBlock(d: Dash, below: seq<string>): (r: seq<string>)
    ensures |r| == 1 + DeeperLength(below, d.indent)
  {
    [Pad(d.indent + 2) + d.content] + below[..DeeperLength(below, d.indent)]
  }

  /** `parseBlockArray` on the remaining lines. */
  function ParseArray(read: Reading, lines: seq<string>): (r: ArrayRead)
    ensures |r.rest| <= |lines|
    decreases |lines|, 1
  {
    if lines == [] || DashItem(lines[0]).None? then ArrayRead([], lines) else
    var d, below := DashItem(lines[0]).value, lines[1..];
    if d.content == "|" then
      var n := BlockLength(below, d.indent);
      Prepend(JText(BlockText(below[..n])), ParseArray(read, below[n..]))
    else if !MappingItem(d.content) then
      Prepend(JText(Unquote(d.content)), ParseArray(read, below))
    else
      var n := DeeperLength(below, d.indent);
      Prepend(JObject(Parse(read, ItemBlock(d, below), [])), ParseArray(read, below[n..]))
  }

  datatype Page = Page(fields: seq<Field>, body: string)

  /** `parseFrontmatter` */
  function ParsePage(read: Reading, raw: string): Option<Page> {
    if |raw| < 4 || raw[..4] != "---\n" then None
    else
      match FirstClosing(raw[4..])
      case None => None
      case Some(end) => Some(Page(Parse(read, Split(raw[4..][..end]), []), raw[4..][end + 5..]))
  }

  // ---- The parser's loops ------------------------------------------------------------------------------

  /** One step of the parser, by what stands after the line's first colon. */
  lemma ParseStep(read: Reading, line: string, below: seq<string>, acc: seq<Field>)
    ensures var lines, colon := [line] + below, FirstColon(line);
      if colon == |line| then Parse(read, lines, acc) == Parse(read, below, acc)
      else
        var key, rest, indent := Trim(line[..colon]), Trim(line[colon + 1..]), LeadingSpaces(line);
        && (rest == "|" ==>
            var n := BlockLength(below, indent);
            Parse(read, lines, acc) == Parse(read, below[n..], Assign(acc, key, JText(BlockText(below[..n])))))
        && (rest == "" && below != [] && OpensArray(below[0]) ==>
            var a := ParseArray(read, below);
            Parse(read, lines, acc) == Parse(read, a.rest, Assign(acc, key, JArray(a.items))))
        && (rest == "" && !(below != [] && OpensArray(below[0])) ==>
            Parse(read, lines, acc) == Parse(read, below, if DeeperFollows(below, indent) then acc else Assign(acc, key, JNull)))
        && (rest != "" && rest != "|" ==>
            Parse(read, lines, acc) == Parse(read, below, Assign(acc, key, ReadInline(read, rest))))
  {
    hide LeadingSpaces, Trim, BlockText, ReadInline, Assign, BlockLength, DeeperFollows, OpensArray, ParseArray, FirstColon;
    assert ([line] + below)[0] == line && ([line] + below)[1..] == below;
  }

  /** `parseYAML`: a line index and a growing mapping. */
  method ParseYAML(read: Reading, yaml: string) returns (result: seq<Field>)
    ensures result == Parse(read, Split(yaml), [])
    decreases |Split(yaml)|, 0, 1
  {
    hide Split, Parse;
    result := [];
    var lines := Split(yaml);
    var i := 0;
    assert lines[0..] == lines;
    while i < |lines|
      invariant 0 <= i <= |lines|
      invariant Parse(read, lines[i..], result) == Parse(read, lines, [])
      decreases |lines| - i
    {
      result, i := ParseLine(read, lines, i, result);
    }
    assert lines[i..] == [];
    ParseDone(read, result);
  }

  /** One turn of `parseYAML`'s loop. */
  method ParseLine(read: Reading, lines: seq<string>, i: nat, fs: seq<Field>) returns (result: seq<Field>, next: nat)
    requires i < |lines| && OneLineEach(lines)
    ensures i < next <= |lines|
    ensures Parse(read, lines[i..], fs) == Parse(read, lines[next..], result)
    decreases |lines| - i, 0, 0
  {
    hide LeadingSpaces, Trim, BlockText, Blank, ReadInline, Assign, BlockLength, DeeperFollows, OpensArray, ParseArray, Parse, FirstColon, OneLine;
    var line := lines[i];
    ghost var below := lines[i + 1..];
    assert lines[i..] == [line] + below;
    ParseStep(read, line, below, fs);
    result, next := fs, i + 1;
    var colon := FirstColon(line);
    if colon == |line| { return; }
    var key, rest := Trim(line[..colon]), Trim(line[colon + 1..]);
    if rest == "|" {
      var text;
      text, next := ReadBlockScalar(lines, i + 1, LeadingSpaces(line));
      assert lines[i + 1..next] == below[..next - i - 1] && lines[next..] == below[next - i - 1..];
      result := Assign(fs, key, JText(text));
    } else if rest != "" {
      result := Assign(fs, key, ReadInline(read, rest));
    } else if i + 1 < |lines| && OpensArray(lines[i + 1]) {
      var items;
      items, next := ParseBlockArray(read, lines, i + 1);
      result := Assign(fs, key, JArray(items));
    } else {
      var deeper := HasDeeperNonBlankLine(lines, i + 1, LeadingSpaces(line));
      if !deeper { result := Assign(fs, key, JNull); }
    }
  }

  lemma ParseDone(read: Reading, acc: seq<Field>)
    ensures Parse(read, [], acc) == acc
  {
  }

  method HasDeeperNonBlankLine(lines: seq<string>, start: nat, indent: nat) returns (deeper: bool)
    requires start <= |lines|
    ensures deeper == DeeperFollows(lines[start..], indent)
  {
    hide LeadingSpaces, Blank;
    var j := start;
    while j < |lines|
      invariant start <= j <= |lines|
      invariant DeeperFollows(lines[start..], indent) == DeeperFollows(lines[j..], indent)
    {
      assert lines[j..][0] == lines[j] && lines[j..][1..] == lines[j + 1..];
      if !Blank(lines[j]) { return LeadingSpaces(lines[j]) > indent; }
      j := j + 1;
    }
    return false;
  }

  lemma TrimKeepsOneLine(s: string)
    requires OneLine(s)
    ensures OneLine(TrimStart(s)) && OneLine(TrimEnd(s))
  {
    if s != [] {
      assert OneLine(s[1..]) && OneLine(s[..|s| - 1]);
      TrimKeepsOneLine(s[1..]);
      TrimKeepsOneLine(s[..|s| - 1]);
    }
  }

  lemma DashKeepsOneLine(line: string)
    requires OneLine(line) && DashItem(line).Some?
    ensures OneLine(DashItem(line).value.content)
  {
    var t := TrimStart(line);
    TrimKeepsOneLine(line);
    assert OneLine(t[1..]);
    TrimKeepsOneLine(t[1..]);
    TrimKeepsOneLine(TrimStart(t[1..]));
  }

  /** `parseBlockArray`: items are read while the next line is a dash line. */
  method ParseBlockArray(read: Reading, lines: seq<string>, start: nat) returns (items: seq<Json>, next: nat)
    requires start <= |lines| && OneLineEach(lines)
    ensures start <= next <= |lines|
    ensures ParseArray(read, lines[start..]) == ArrayRead(items, lines[next..])
    decreases |lines| - start, 3
  {
    hide DashItem, ParseArray;
    items := [];
    next := start;
    while next < |lines|
      invariant start <= next <= |lines|
      invariant items + ParseArray(read, lines[next..]).items == ParseArray(read, lines[start..]).items
      invariant ParseArray(read, lines[next..]).rest == ParseArray(read, lines[start..]).rest
      decreases |lines| - next
    {
      var dash := DashItem(lines[next]);
      if dash.None? { break; }
      var item, after := ReadItem(read, lines, next, dash.value);
      assert items + ([item] + ParseArray(read, lines[after..]).items) == (items + [item]) + ParseArray(read, lines[after..]).items;
      items := items + [item];
      next := after;
    }
    ArrayEnds(read, lines[next..]);
  }

  lemma ArrayEnds(read: Reading, lines: seq<string>)
    requires lines == [] || DashItem(lines[0]).None?
    ensures ParseArray(read, lines) == ArrayRead([], lines)
  {
  }

  /** One item of `parseBlockArray`: a block scalar, a string, or a mapping. */
  method ReadItem(read: Reading, lines: seq<string>, at: nat, d: Dash) returns (item: Json, next: nat)
    requires at < |lines| && OneLineEach(lines) && DashItem(lines[at]) == Some(d)
    ensures at < next <= |lines|
    ensures ParseArray(read, lines[at..]) == Prepend(item, ParseArray(read, lines[next..]))
    decreases |lines| - at, 2
  {
    hide LeadingSpaces, BlockText, Blank, Split, Join, Parse, MappingItem, DashItem, Unquote, BlockLength, DeeperLength;
    ghost var here, below := lines[at..], lines[at + 1..];
    assert here[0] == lines[at] && here[1..] == below;
    if d.content == "|" {
      var text, after := ReadBlockScalar(lines, at + 1, d.indent);
      assert lines[at + 1..after] == below[..after - at - 1] && lines[after..] == below[after - at - 1..];
      return JText(text), after;
    } else if !MappingItem(d.content) {
      return JText(Unquote(d.content)), at + 1;
    } else {
      var fields, end := ReadMapping(read, lines, at, d);
      assert lines[end..] == below[end - at - 1..];
      return JObject(fields), end;
    }
  }

  /** A mapping item: its lines joined and handed to `parseYAML` again. */
  method ReadMapping(read: Reading, lines: seq<string>, at: nat, d: Dash) returns (fields: seq<Field>, end: nat)
    requires at < |lines| && OneLineEach(lines) && DashItem(lines[at]) == Some(d)
    ensures end == at + 1 + DeeperLength(lines[at + 1..], d.indent)
    ensures fields == Parse(read, ItemBlock(d, lines[at + 1..]), [])
    decreases |lines| - at, 1
  {
    hide LeadingSpaces, Split, Join, Parse, DashItem, DeeperLength;
    DashKeepsOneLine(lines[at]);
    end := DeeperLines(lines, at + 1, d.indent);
    var block := [Pad(d.indent + 2) + d.content] + lines[at + 1..end];
    assert lines[at + 1..end] == lines[at + 1..][..end - at - 1];
    assert OneLineEach(block);
    SplitJoined(block);
    fields := ParseYAML(read, Join(block));
  }

  method DeeperLines(lines: seq<string>, start: nat, indent: nat) returns (end: nat)
    requires start <= |lines|
    ensures end == start + DeeperLength(lines[start..], indent)
  {
    hide LeadingSpaces;
    end := start;
    while end < |lines| && LeadingSpaces(lines[end]) > indent
      invariant start <= end <= |lines|
      invariant start + DeeperLength(lines[start..], indent) == end + DeeperLength(lines[end..], indent)
    {
      assert lines[end..][0] == lines[end] && lines[end..][1..] == lines[end + 1..];
      end := end + 1;
    }
  }

  method ParseFrontmatter(read: Reading, raw: string) returns (page: Option<Page>)
    ensures page == ParsePage(read, raw)
  {
    hide Parse, Split, FirstClosing;
    if |raw| < 4 || raw[..4] != "---\n" { return None; }
    var end := FirstClosing(raw[4..]);
    if end.None? { return None; }
    var fields := ParseYAML(read, raw[4..][..end.value]);
    return Some(Page(fields, raw[4..][end.value + 5..]));
  }

  // ---- The printer's loops -----------------------------------------------------------------------------

  /** `toYAML`: the list of lines grown property by property, nested mappings printed and split again. */
  method ToYAML(n: Numbers, fs: seq<Field>, indent: nat) returns (yaml: string)
    requires Vocabulary(fs)
    ensures yaml == ToYaml(n, fs, indent)
    decreases fs, 1
  {
    hide Join, Split, YamlString, JoinedStrings, TextItem, WithoutEmpty;
    var lines: seq<string> := [];
    var i := 0;
    while i < |fs|
      invariant 0 <= i <= |fs|
      invariant Vocabulary(fs[i..])
      invariant lines + PushedAll(n, fs[i..], indent) == PushedAll(n, fs, indent)
    {
      assert fs[i..][0] == fs[i] && fs[i..][1..] == fs[i + 1..];
      var entry := PushEntry(n, fs[i], indent);
      lines := lines + entry;
      i := i + 1;
    }
    assert fs[i..] == [] && lines == PushedAll(n, fs, indent);
    yaml := Join(lines) + "\n";
  }

  method PushEntry(n: Numbers, f: Field, indent: nat) returns (lines: seq<string>)
    requires Admitted(f.value)
    ensures lines == Pushed(n, f, indent)
    decreases f, 0
  {
    hide Join, Split, YamlString, JoinedStrings, TextItems, PushedItems, WithoutEmpty, Vocabulary, SomeMultiline;
    if !f.value.JArray? || f.value.items == [] { return Pushed(n, f, indent); }
    var items := f.value.items;
    assert ArrayCarriable(items);
    var under: seq<string>;
    if items[0].JObject? {
      assert !items[0].JText?;
      under := PushItems(n, items, indent);
    } else if SomeMultiline(Texts(items)) {
      under := PushTexts(n, Texts(items), indent);
    } else {
      return Pushed(n, f, indent);
    }
    lines := [Pad(indent) + f.key + ":"] + under;
  }

  method PushItems(n: Numbers, items: seq<Json>, indent: nat) returns (lines: seq<string>)
    requires AllObjects(items) && ArrayCarriable(items)
    ensures lines == PushedItems(n, items, indent)
    decreases items, 0
  {
    hide PushedItem, Vocabulary;
    lines := [];
    var i := 0;
    while i < |items|
      invariant 0 <= i <= |items|
      invariant AllObjects(items[i..]) && ArrayCarriable(items[i..])
      invariant lines + PushedItems(n, items[i..], indent) == PushedItems(n, items, indent)
    {
      assert items[i..][0] == items[i] && items[i..][1..] == items[i + 1..];
      var item := PushItem(n, items[i].fields, indent);
      lines := lines + item;
      i := i + 1;
    }
    assert items[i..] == [];
  }

  method PushItem(n: Numbers, fs: seq<Field>, indent: nat) returns (lines: seq<string>)
    requires Vocabulary(fs)
    ensures lines == PushedItem(n, fs, indent)
    decreases fs, 2
  {
    hide Join, Split, WithoutEmpty, Vocabulary, ToYaml;
    var yaml := ToYAML(n, fs, indent + 4);
    var itemLines := WithoutEmpty(Split(yaml));
    var first := if itemLines == [] then "" else itemLines[0];
    lines := [Pad(indent) + "  - " + Slice(first, indent + 4)];
    if itemLines != [] { lines := lines + itemLines[1..]; }
  }

  method PushTexts(n: Numbers, ts: seq<string>, indent: nat) returns (lines: seq<string>)
    ensures lines == TextItems(n.read, ts, indent)
  {
    hide TextItem;
    lines := [];
    var i := 0;
    while i < |ts|
      invariant 0 <= i <= |ts|
      invariant lines + TextItems(n.read, ts[i..], indent) == TextItems(n.read, ts, indent)
    {
      assert ts[i..][0] == ts[i] && ts[i..][1..] == ts[i + 1..];
      lines := lines + TextItem(n.read, ts[i], indent);
      i := i + 1;
    }
    assert ts[i..] == [];
  }

  method SerialiseFrontmatter(n: Numbers, fs: seq<Field>, body: string) returns (raw: Option<string>)
    ensures raw == Serialise(n, fs, body)
  {
    hide ToYaml, Vocabulary;
    if !Vocabulary(fs) { return None; }
    var yaml := ToYAML(n, fs, 0);
    return Some("---\n" + yaml + "---\n" + body);
  }
}
