/** Reading a written page header returns the same properties and body. */
module FrontmatterProofs {
  import opened Evidence
  import opened YamlText
  import opened YamlLines
  import opened Frontmatter

  // ---- The carried values --------------------------------------------------------------------------

  /** A property name the line format can hold in every position. */
  predicate PlainKey(k: string) {
    Tight(k) && OneLine(k) && ':' !in k && k[0] != '-' && k[0] != '"' && k[0] != '\''
  }

  predicate TextCarried(read: Reading, s: string) { if '\n' in s then BlockCarried(s) else Carried(read, s) }

  /** A number whose spelling is a plain scalar that reads back as the number. */
  predicate NumberCarried(n: Numbers, d: Double) {
    var t := n.show(d);
    && Tight(t) && SingleLine(t) && t[0] != '[' && t != "|"
    && t != "true" && t != "false" && t != "null" && n.read(t) == Some(d)
  }

  /** What follows a dash must hold no line terminator of any kind (`DashLine`): the first property of
      a mapping item, as far as it stands on the dash's line, and the one-line strings of a string
      array in block form. Everywhere else only the newline is barred. */
  predicate TextSafe(s: string) { '\n' in s || SingleLine(s) }

  predicate ValueSafe(v: Json) {
    match v
    case JText(s) => TextSafe(s)
    case JArray(items) => forall k :: 0 <= k < |items| && items[k].JText? ==> TextSafe(items[k].text)
    case _ => true
  }

  predicate FirstSafe(fs: seq<Field>) { fs != [] ==> SingleLine(fs[0].key) && ValueSafe(fs[0].value) }

  predicate ItemsSafe(items: seq<Json>) { forall k :: 0 <= k < |items| && items[k].JObject? ==> FirstSafe(items[k].fields) }

  predicate TextsSafe(items: seq<Json>) {
    (exists k :: 0 <= k < |items| && items[k].JText? && '\n' in items[k].text) ==>
      forall k :: 0 <= k < |items| && items[k].JText? ==> TextSafe(items[k].text)
  }

  /** `Number` accepts no spelling that starts with a quote. */
  ghost predicate QuotesUnread(read: Reading) { forall s {:trigger read(s)} :: s != [] && s[0] == '"' ==> read(s) == None }

  predicate DistinctKeys(fs: seq<Field>) { forall j, k :: 0 <= j < k < |fs| ==> fs[j].key != fs[k].key }

  predicate CarriedFields(n: Numbers, fs: seq<Field>)
    decreases fs, 0
  {
    DistinctKeys(fs) && forall k :: 0 <= k < |fs| ==> PlainKey(fs[k].key) && CarriedValue(n, fs[k].value)
  }

  predicate CarriedValue(n: Numbers, v: Json)
    decreases v, 0
  {
    match v
    case JNumber(d) => NumberCarried(n, d)
    case JText(s) => TextCarried(n.read, s)
    case JArray(items) => (forall k :: 0 <= k < |items| ==> CarriedValue(n, items[k])) && ItemsSafe(items) && TextsSafe(items)
    case JObject(fs) => CarriedFields(n, fs)
    case _ => true
  }

  // ---- The physical lines of a header ----------------------------------------------------------------

  /** What stands on the key's own line; empty for the two block arrays. */
  function Head(n: Numbers, v: Json): string
    requires Admitted(v)
  {
    match v
    case JNull => "null"
    case JBool(b) => if b then "true" else "false"
    case JNumber(d) => n.show(d)
    case JText(s) => if '\n' in s then "|" else YamlString(n.read, s)
    case JArray(items) =>
      assert ArrayCarriable(items);
      if items == [] then "[]"
      else if AllObjects(items) || SomeMultiline(Texts(items)) then ""
      else "[" + JoinedStrings(n.read, Texts(items)) + "]"
  }

  /** The lines below the key's own. */
  function Under(n: Numbers, v: Json, indent: nat): seq<string>
    requires Admitted(v)
    decreases v, 0
  {
    match v
    case JText(s) => if '\n' in s then Indented(Split(s), indent + 2) else []
    case JArray(items) =>
      assert ArrayCarriable(items);
      if AllObjects(items) then ItemsLines(n, items, indent)
      else if SomeMultiline(Texts(items)) then TextItems(n.read, Texts(items), indent)
      else []
    case _ => []
  }

  function KeyText(key: string, head: string): string { key + ":" + if head == "" then "" else " " + head }

  function FieldLines(n: Numbers, f: Field, indent: nat): seq<string>
    requires Admitted(f.value)
    decreases f, 0
  {
    [Pad(indent) + KeyText(f.key, Head(n, f.value))] + Under(n, f.value, indent)
  }

  function LinesOf(n: Numbers, fs: seq<Field>, indent: nat): seq<string>
    requires Vocabulary(fs)
    decreases fs, 0
  {
    if fs == [] then [] else FieldLines(n, fs[0], indent) + LinesOf(n, fs[1..], indent)
  }

  function ItemLines(n: Numbers, fs: seq<Field>, indent: nat): seq<string>
    requires fs != [] && Vocabulary(fs)
    decreases fs, 0
  {
    [Pad(indent + 2) + "- " + KeyText(fs[0].key, Head(n, fs[0].value))]
    + Under(n, fs[0].value, indent + 4) + LinesOf(n, fs[1..], indent + 4)
  }

  function ItemsLines(n: Numbers, items: seq<Json>, indent: nat): seq<string>
    requires AllObjects(items) && ArrayCarriable(items)
    decreases items, 0
  {
    if items == [] then [] else ItemLines(n, items[0].fields, indent) + ItemsLines(n, items[1..], indent)
  }

  // ---- Single lines ------------------------------------------------------------------------------------

  lemma {:induction false} ColonAfter(k: string, rest: string)
    requires ':' !in k
    ensures FirstColon(k + ":" + rest) == |k|
  {
    if k == [] {
      assert k + ":" + rest == ":" + rest;
    } else {
      assert (k + ":" + rest)[1..] == k[1..] + ":" + rest;
      assert k[0] in k && ':' !in k[1..];
      ColonAfter(k[1..], rest);
    }
  }

  lemma KeyColon(indent: nat, key: string, head: string)
    requires PlainKey(key)
    ensures var line := Pad(indent) + KeyText(key, head);
      && FirstColon(line) == indent + |key| < |line|
      && line[..indent + |key|] == Pad(indent) + key
      && line[indent + |key| + 1..] == (if head == "" then "" else Pad(1) + head)
  {
    hide FirstColon;
    var after := if head == "" then "" else Pad(1) + head;
    assert Pad(1) == " ";
    var line := Pad(indent) + KeyText(key, head);
    assert line == (Pad(indent) + key) + ":" + after;
    ColonAfter(Pad(indent) + key, after);
  }

  /** A key line gives its key, its rest and its indentation, and opens no array. */
  lemma KeyLine(indent: nat, key: string, head: string)
    requires PlainKey(key) && (head == "" || Tight(head))
    ensures var line := Pad(indent) + KeyText(key, head);
      var colon := FirstColon(line);
      && colon < |line| && Trim(line[..colon]) == key && Trim(line[colon + 1..]) == head
      && LeadingSpaces(line) == indent && !Blank(line) && !OpensArray(line)
  {
    hide Trim, TrimStart, FirstColon, KeyText, Pad;
    KeyColon(indent, key, head);
    TrimPadded(indent, key);
    if head == "" { TrimOfEmpty(); } else { TrimPadded(1, head); }
    var text := KeyText(key, head);
    KeyTextTight(key, head);
    TrimPadded(indent, text);
  }

  lemma KeyTextTight(key: string, head: string)
    requires PlainKey(key) && (head == "" || Tight(head))
    ensures Tight(KeyText(key, head)) && KeyText(key, head)[0] == key[0]
  {
    var text := KeyText(key, head);
    assert text[0] == key[0];
    assert text[|text| - 1] == if head == "" then ':' else head[|head| - 1];
  }

  lemma TrimOfEmpty()
    ensures Trim("") == ""
  {
  }

  lemma KeyTextFacts(key: string, head: string)
    requires PlainKey(key) && (head == "" || (Tight(head) && OneLine(head)))
    ensures var t := KeyText(key, head); Tight(t) && OneLine(t) && t != "|" && MappingItem(t) && t[0] == key[0]
    ensures SingleLine(key) && SingleLine(head) ==> SingleLine(KeyText(key, head))
  {
    var after := if head == "" then "" else " " + head;
    var t := KeyText(key, head);
    ColonAfter(key, after);
    assert t == key + ":" + after;
    assert t[0] == key[0];
    assert t[|t| - 1] == if head == "" then ':' else head[|head| - 1];
    assert t[|key|] == ':';
    assert head != "" ==> t[|key| + 1] == ' ';
  }

  /** A dash line gives its column and its content, if and only if the content holds no line
      terminator: a carriage return in the first property of an item ends the array there. */
  lemma DashLine(column: nat, content: string)
    requires Tight(content)
    ensures var line := Pad(column) + "- " + content;
      && DashItem(line) == (if SingleLine(content) then Some(Dash(column, content)) else None) && OpensArray(line)
      && !Blank(line) && LeadingSpaces(line) == column
  {
    hide Trim, TrimStart;
    var t := "- " + content;
    assert Pad(column) + "- " + content == Pad(column) + t;
    assert Tight(t) by { assert t[|t| - 1] == content[|content| - 1]; }
    TrimPadded(column, t);
    assert t[1..] == Pad(1) + content;
    TrimPadded(1, content);
  }

  /** The lines of a header: one line each, never empty, never the marker, at or past a column. */
  predicate LineOk(line: string, indent: nat) {
    OneLine(line) && line != [] && line != "---" && LeadingSpaces(line) >= indent
  }

  predicate LinesOk(lines: seq<string>, indent: nat) { forall k :: 0 <= k < |lines| ==> LineOk(lines[k], indent) }

  lemma LinesOkConcat(a: seq<string>, b: seq<string>, indent: nat)
    requires LinesOk(a, indent) && LinesOk(b, indent)
    ensures LinesOk(a + b, indent)
  {
    hide LineOk;
  }

  lemma IndentedOk(parts: seq<string>, column: nat, indent: nat)
    requires OneLineEach(parts) && column >= indent && column > 0
    ensures LinesOk(Indented(parts, column), indent)
  {
    hide LeadingSpaces;
    forall k | 0 <= k < |parts| ensures LineOk(Indented(parts, column)[k], indent) {
      PaddedLine(column, parts[k]);
      assert OneLine(parts[k]);
      assert Indented(parts, column)[k][0] == ' ';
    }
  }

  lemma KeyLineOk(indent: nat, key: string, head: string)
    requires PlainKey(key) && (head == "" || (Tight(head) && OneLine(head)))
    ensures LineOk(Pad(indent) + KeyText(key, head), indent)
  {
    hide LeadingSpaces, Trim, MappingItem, FirstColon, Blank, OpensArray;
    KeyLine(indent, key, head);
    KeyTextFacts(key, head);
    var line := Pad(indent) + KeyText(key, head);
    assert line[indent] == key[0] && key[0] != '-';
    if indent > 0 { assert line[0] == ' '; }
  }

  lemma DashLineOk(column: nat, content: string, indent: nat)
    requires Tight(content) && OneLine(content) && column >= indent && column > 0
    ensures LineOk(Pad(column) + "- " + content, indent)
  {
    hide LeadingSpaces, DashItem, Blank, OpensArray;
    DashLine(column, content);
    assert (Pad(column) + "- " + content)[0] == ' ';
  }

  // ---- Values on the key's line --------------------------------------------------------------------------

  lemma ShrinkingPair(s: string, a: char, b: char, c: char)
    ensures |ReplacePair(s, a, b, c)| <= |s|
  {
  }

  lemma TrimEndTight(s: string)
    ensures TrimEnd(s) != [] ==> TrimEnd(s)[|TrimEnd(s)| - 1] !in SPACES
    ensures TrimEnd(s) <= s
  {
  }

  /** Trimming leaves only tight texts alone. */
  lemma TrimShortens(s: string)
    requires s != "" && !Tight(s)
    ensures |Trim(s)| < |s|
  {
    var t := TrimStart(s);
    TrimStartSuffix(s);
    TrimEndTight(t);
    if |t| == |s| { assert t == s; assert TrimEnd(s) != s; }
  }

  lemma UnquoteShrinks(s: string)
    ensures |Unquote(s)| <= |s|
  {
    hide ReplacePair;
    if |s| > 1 {
      var inner := s[1..|s| - 1];
      ShrinkingPair(inner, '\\', '"', '"');
      ShrinkingPair(ReplacePair(inner, '\\', '"', '"'), '\\', '\\', '\\');
    }
  }

  /** Exactly which one-line strings come back as the string they were: those written in quotes and
      those without whitespace at the edges. */
  lemma ScalarReadsBackIff(read: Reading, s: string)
    requires QuotesUnread(read)
    ensures ReadBare(read, Trim(YamlString(read, s))) == JText(s) <==> s == "" || NeedsQuotes(read, s) || Tight(s)
  {
    hide Trim, Unquote, Escape, TrimStart;
    var y := YamlString(read, s);
    if s == "" || NeedsQuotes(read, s) {
      assert y == Quoted(s) by { if s == "" { EscapeEmpty(); } }
      assert Tight(y) && y[0] == '"' && |y| >= 2;
      UnquoteQuoted(s);
      TrimPadded(0, y);
      assert Pad(0) + y == y;
      assert y != "true" && y != "false" && y != "null" && read(y) == None;
    } else if Tight(s) {
      TrimPadded(0, s);
      assert Pad(0) + s == s;
      PlainUnquoted(read, s);
    } else {
      TrimShortens(s);
      UnquoteShrinks(Trim(s));
    }
  }

  /** A spelling is an array spelling only when it starts with a bracket. */
  lemma TextHead(read: Reading, s: string)
    requires QuotesUnread(read) && Carried(read, s)
    ensures var y := YamlString(read, s);
      Tight(y) && OneLine(y) && y != "|" && y[0] != '[' && ReadBare(read, y) == JText(s) && Unquote(y) == s
    ensures SingleLine(s) ==> SingleLine(YamlString(read, s))
  {
    hide Trim, Unquote, Escape, TrimStart, ReadBare, NoneOf;
    if SingleLine(s) { YamlStringFree(read, s, LINE_TERMINATORS); }
    var y := YamlString(read, s);
    YamlStringReads(read, s);
    ScalarReadsBackIff(read, s);
    TrimPadded(0, y);
    assert Pad(0) + y == y;
    if s != "" && !NeedsQuotes(read, s) {
      assert s[0] in s && s[0] !in SPECIAL;
    }
  }

  lemma ReadBracketed(read: Reading, j: string)
    requires Tight(j)
    ensures ReadInline(read, "[" + j + "]") == TextArray(Elements(Scan(j, None, [])))
  {
    hide Trim, Scan, Elements, TrimStart, TextArray, ReadBare;
    var h := "[" + j + "]";
    assert h[1..|h| - 1] == j && h[0] == '[' && h[|h| - 1] == ']' && |h| > 1;
    TrimPadded(0, j);
    assert Pad(0) + j == j;
  }

  lemma BracketedTight(j: string)
    requires OneLine(j)
    ensures var h := "[" + j + "]"; Tight(h) && OneLine(h) && h != "|"
    ensures SingleLine(j) ==> SingleLine("[" + j + "]")
  {
    var h := "[" + j + "]";
    assert h[0] == '[' && h[|h| - 1] == ']';
  }

  lemma InlineArrayFree(read: Reading, ts: seq<string>)
    requires forall k :: 0 <= k < |ts| ==> Carried(read, ts[k])
    ensures OneLine(JoinedStrings(read, ts))
    ensures (forall k :: 0 <= k < |ts| ==> SingleLine(ts[k])) ==> SingleLine(JoinedStrings(read, ts))
  {
    hide JoinedStrings, NeedsQuotes, Tight;
    forall k | 0 <= k < |ts| ensures NoneOf(ts[k], {'\n'}) { assert Carried(read, ts[k]); }
    JoinedFree(read, ts, {'\n'});
    if forall k :: 0 <= k < |ts| ==> SingleLine(ts[k]) { JoinedFree(read, ts, LINE_TERMINATORS); }
  }

  lemma InlineArrayHead(read: Reading, ts: seq<string>)
    requires ts != [] && forall k :: 0 <= k < |ts| ==> Carried(read, ts[k])
    ensures var h := "[" + JoinedStrings(read, ts) + "]";
      Tight(h) && OneLine(h) && h != "|" && ReadInline(read, h) == TextArray(ts)
    ensures (forall k :: 0 <= k < |ts| ==> SingleLine(ts[k])) ==> SingleLine("[" + JoinedStrings(read, ts) + "]")
  {
    hide Trim, Scan, Elements, Carried, JoinedStrings, ReadInline, TextArray, Tight, SingleLine;
    var j := JoinedStrings(read, ts);
    InlineArrayFree(read, ts);
    JoinedTight(read, ts);
    ScanJoined(read, ts, "");
    ReadBracketed(read, j);
    BracketedTight(j);
  }

  lemma TextsBack(items: seq<Json>)
    requires AllTexts(items)
    ensures TextArray(Texts(items)) == JArray(items)
  {
    assert TextArray(Texts(items)).items == items;
  }

  predicate BlockArray(v: Json) { v.JArray? && v.items != [] && (AllObjects(v.items) || (AllTexts(v.items) && SomeMultiline(Texts(v.items)))) }

  predicate BlockValue(v: Json) { v.JText? && '\n' in v.text }

  /** The key line of every carried value that is not a block reads back as the value. */
  lemma HeadReads(n: Numbers, v: Json)
    requires Admitted(v) && CarriedValue(n, v) && QuotesUnread(n.read)
    ensures BlockArray(v) ==> Head(n, v) == ""
    ensures BlockValue(v) ==> Head(n, v) == "|"
    ensures !BlockArray(v) ==> Tight(Head(n, v)) && OneLine(Head(n, v))
    ensures ValueSafe(v) ==> SingleLine(Head(n, v))
    ensures !BlockArray(v) && !BlockValue(v) ==> Head(n, v) != "|" && ReadInline(n.read, Head(n, v)) == v && forall i: nat :: Under(n, v, i) == []
  {
    hide TextArray, Scan, Elements, Unquote, Trim, Carried, YamlString, JoinedStrings, BlockCarried;
    match v
    case JText(s) =>
      if '\n' !in s { TextHead(n.read, s); }
    case JArray(items) =>
      if items == [] {
        EmptyArrayHead(n.read);
      } else if !BlockArray(v) {
        assert ArrayCarriable(items) && AllTexts(items);
        var ts := Texts(items);
        forall k | 0 <= k < |ts| ensures Carried(n.read, ts[k]) {
          assert CarriedValue(n, items[k]) && '\n' !in ts[k];
        }
        InlineArrayHead(n.read, ts);
        TextsBack(items);
      }
    case _ =>
  }

  lemma EmptyArrayHead(read: Reading)
    ensures Tight("[]") && OneLine("[]") && SingleLine("[]") && ReadInline(read, "[]") == JArray([])
  {
    assert "[]"[1..1] == "";
    TrimOfEmpty();
  }

  // ---- The printed text is the lines, joined ----------------------------------------------------------------

  lemma TextItemOk(read: Reading, t: string, indent: nat)
    requires TextCarried(read, t) && QuotesUnread(read)
    ensures LinesOk(TextItem(read, t, indent), indent + 2)
  {
    hide YamlString, Split, Carried, BlockCarried, LineOk, ReadBare, Unquote;
    assert Pad(indent) + "  - " == Pad(indent + 2) + "- ";
    if '\n' !in t {
      TextHead(read, t);
      DashLineOk(indent + 2, YamlString(read, t), indent + 2);
      assert Pad(indent) + "  - " + YamlString(read, t) == Pad(indent + 2) + "- " + YamlString(read, t);
    } else {
      DashLineOk(indent + 2, "|", indent + 2);
      assert Pad(indent) + "  - |" == Pad(indent + 2) + "- " + "|";
      IndentedOk(Split(t), indent + 4, indent + 2);
    }
  }

  lemma {:induction false} TextItemsOk(read: Reading, ts: seq<string>, indent: nat)
    requires (forall k :: 0 <= k < |ts| ==> TextCarried(read, ts[k])) && QuotesUnread(read)
    ensures LinesOk(TextItems(read, ts, indent), indent + 2)
  {
    hide TextItem, TextCarried, LineOk;
    if ts != [] {
      TextItemOk(read, ts[0], indent);
      TextItemsOk(read, ts[1..], indent);
    }
  }

  lemma UnderOk(n: Numbers, v: Json, indent: nat)
    requires Admitted(v) && CarriedValue(n, v) && QuotesUnread(n.read)
    ensures LinesOk(Under(n, v, indent), indent + 2)
    decreases v, 0
  {
    hide TextItems, Split, TextCarried, LineOk, Texts;
    match v
    case JText(s) => IndentedOk(Split(s), indent + 2, indent + 2);
    case JArray(items) =>
      assert ArrayCarriable(items);
      if AllObjects(items) {
        ItemsOk(n, items, indent);
      } else if SomeMultiline(Texts(items)) {
        forall k | 0 <= k < |items| ensures TextCarried(n.read, Texts(items)[k]) {
          assert CarriedValue(n, items[k]);
        }
        TextItemsOk(n.read, Texts(items), indent);
      }
    case _ =>
  }

  lemma CarriedTail(n: Numbers, fs: seq<Field>)
    requires fs != [] && CarriedFields(n, fs) && Vocabulary(fs)
    ensures PlainKey(fs[0].key) && CarriedValue(n, fs[0].value) && CarriedFields(n, fs[1..])
    ensures Admitted(fs[0].value) && Vocabulary(fs[1..])
  {
    hide PlainKey, CarriedValue, Admitted;
  }

  lemma {:induction false} LinesOfOk(n: Numbers, fs: seq<Field>, indent: nat)
    requires Vocabulary(fs) && CarriedFields(n, fs) && QuotesUnread(n.read)
    ensures LinesOk(LinesOf(n, fs, indent), indent)
    decreases fs, 0
  {
    hide Under, Head, LineOk, CarriedFields, Vocabulary, PlainKey;
    if fs != [] {
      CarriedTail(n, fs);
      var f := fs[0];
      HeadReads(n, f.value);
      KeyLineOk(indent, f.key, Head(n, f.value));
      UnderOk(n, f.value, indent);
      LinesOfOk(n, fs[1..], indent);
      Shallower(Under(n, f.value, indent), indent + 2, indent);
    }
  }

  lemma Shallower(lines: seq<string>, deep: nat, indent: nat)
    requires LinesOk(lines, deep) && indent <= deep
    ensures LinesOk(lines, indent)
  {
    hide LeadingSpaces;
    forall k | 0 <= k < |lines| ensures LineOk(lines[k], indent) { assert LineOk(lines[k], deep); }
  }

  lemma ItemOk(n: Numbers, fs: seq<Field>, indent: nat)
    requires fs != [] && Vocabulary(fs) && CarriedFields(n, fs) && QuotesUnread(n.read)
    ensures LinesOk(ItemLines(n, fs, indent), indent + 2)
    ensures LinesOk(Under(n, fs[0].value, indent + 4) + LinesOf(n, fs[1..], indent + 4), indent + 4)
    decreases fs, 0
  {
    hide Under, Head, LineOk, CarriedFields, Vocabulary, PlainKey, LinesOf;
    CarriedTail(n, fs);
    var f := fs[0];
    HeadReads(n, f.value);
    KeyTextFacts(f.key, Head(n, f.value));
    DashLineOk(indent + 2, KeyText(f.key, Head(n, f.value)), indent + 2);
    UnderOk(n, f.value, indent + 4);
    LinesOfOk(n, fs[1..], indent + 4);
    var rest := Under(n, f.value, indent + 4) + LinesOf(n, fs[1..], indent + 4);
    Shallower(Under(n, f.value, indent + 4), indent + 6, indent + 4);
    LinesOkConcat(Under(n, f.value, indent + 4), LinesOf(n, fs[1..], indent + 4), indent + 4);
    Shallower(rest, indent + 4, indent + 2);
    var first := [Pad(indent + 2) + "- " + KeyText(f.key, Head(n, f.value))];
    LinesOkConcat(first, rest, indent + 2);
    assert ItemLines(n, fs, indent) == first + rest;
  }

  lemma {:induction false} ItemsOk(n: Numbers, items: seq<Json>, indent: nat)
    requires AllObjects(items) && ArrayCarriable(items) && QuotesUnread(n.read)
    requires forall k :: 0 <= k < |items| ==> CarriedValue(n, items[k])
    ensures LinesOk(ItemsLines(n, items, indent), indent + 2)
    decreases items, 0
  {
    hide LineOk, ItemLines, CarriedFields, Vocabulary;
    if items != [] {
      assert CarriedValue(n, items[0]);
      ItemOk(n, items[0].fields, indent);
      ItemsOk(n, items[1..], indent);
      LinesOkConcat(ItemLines(n, items[0].fields, indent), ItemsLines(n, items[1..], indent), indent + 2);
    }
  }

  // ---- What is refused, what is overwritten, what opens a mapping ------------------------------------

  /** What a page may hold at a value position: scalars; arrays of strings; arrays of mappings that are
      not empty and hold such values again. */
  lemma AdmittedIs(v: Json)
    ensures Admitted(v) <==>
      && !v.JObject?
      && (v.JArray? ==>
            || (forall k :: 0 <= k < |v.items| ==> v.items[k].JText?)
            || (forall k :: 0 <= k < |v.items| ==>
                  v.items[k].JObject? && v.items[k].fields != []
                  && forall j :: 0 <= j < |v.items[k].fields| ==> Admitted(v.items[k].fields[j].value)))
  {
    if v.JArray? {
      assert Admitted(v) <==> ArrayCarriable(v.items);
      forall k | 0 <= k < |v.items| && v.items[k].JObject? ensures Vocabulary(v.items[k].fields) <==>
        forall j :: 0 <= j < |v.items[k].fields| ==> Admitted(v.items[k].fields[j].value)
      {
        VocabularyIs(v.items[k].fields);
      }
      if AllObjects(v.items) {
        assert forall k :: 0 <= k < |v.items| ==> v.items[k].JObject? && !v.items[k].JText?;
      }
    }
  }

  lemma VocabularyIs(fs: seq<Field>)
    ensures Vocabulary(fs) <==> forall j :: 0 <= j < |fs| ==> Admitted(fs[j].value)
  {
  }

  /** Assigning a property replaces the value of the one with this name in its place, or comes last. */
  lemma {:induction false} AssignIs(fs: seq<Field>, key: string, v: Json, k: nat)
    requires k <= |fs| && (forall j :: 0 <= j < k ==> fs[j].key != key) && (k < |fs| ==> fs[k].key == key)
    ensures Assign(fs, key, v) == fs[..k] + [Field(key, v)] + if k < |fs| then fs[k + 1..] else []
  {
    if k > 0 {
      AssignIs(fs[1..], key, v, k - 1);
      assert fs == [fs[0]] + fs[1..];
    }
  }

  ghost predicate KeysDiffer(fs: seq<Field>) { forall i, j :: 0 <= i < j < |fs| ==> fs[i].key != fs[j].key }

  lemma {:induction false} PlaceOf(fs: seq<Field>, key: string) returns (k: nat)
    ensures k <= |fs| && (forall j :: 0 <= j < k ==> fs[j].key != key) && (k < |fs| ==> fs[k].key == key)
  {
    k := 0;
    while k < |fs| && fs[k].key != key
      invariant k <= |fs| && forall j :: 0 <= j < k ==> fs[j].key != key
    {
      k := k + 1;
    }
  }

  lemma AssignKeeps(fs: seq<Field>, key: string, v: Json)
    requires KeysDiffer(fs)
    ensures KeysDiffer(Assign(fs, key, v)) && Field(key, v) in Assign(fs, key, v)
  {
    var k := PlaceOf(fs, key);
    AssignIs(fs, key, v, k);
    assert (Assign(fs, key, v))[k] == Field(key, v);
  }

  /** Whatever text is parsed, no property comes out twice. */
  lemma {:induction false} ParsedKeysDiffer(read: Reading, lines: seq<string>, acc: seq<Field>)
    requires KeysDiffer(acc)
    ensures KeysDiffer(Parse(read, lines, acc))
    decreases |lines|
  {
    hide KeysDiffer, Assign, ReadInline, BlockText, BlockLength, OpensArray, DeeperFollows, Trim, LeadingSpaces, ParseArray;
    if lines != [] {
      var line, below := lines[0], lines[1..];
      var colon := FirstColon(line);
      if colon == |line| {
        ParsedKeysDiffer(read, below, acc);
      } else {
        var key, rest := Trim(line[..colon]), Trim(line[colon + 1..]);
        if rest == "|" {
          var n := BlockLength(below, LeadingSpaces(line));
          AssignKeeps(acc, key, JText(BlockText(below[..n])));
          ParsedKeysDiffer(read, below[n..], Assign(acc, key, JText(BlockText(below[..n]))));
        } else if rest == "" && below != [] && OpensArray(below[0]) {
          var a := ParseArray(read, below);
          AssignKeeps(acc, key, JArray(a.items));
          ParsedKeysDiffer(read, a.rest, Assign(acc, key, JArray(a.items)));
        } else {
          var v := if rest == "" then JNull else ReadInline(read, rest);
          AssignKeeps(acc, key, v);
          ParsedKeysDiffer(read, below, acc);
          ParsedKeysDiffer(read, below, Assign(acc, key, v));
        }
      }
    }
  }

  /** An item opens a mapping when, not being one quoted scalar, it starts with neither a blank nor a
      colon and its first colon ends it or is followed by a blank. */
  lemma MappingItemIff(s: string)
    ensures MappingItem(s) <==>
      && !(|s| >= 2 && s[0] == s[|s| - 1] && (s[0] == '"' || s[0] == '\''))
      && exists k :: 0 < k < |s| && s[k] == ':' && ':' !in s[..k] && s[0] !in SPACES && (k + 1 < |s| ==> s[k + 1] in SPACES)
  {
    var c := FirstColon(s);
    if c < |s| { assert s[c] == ':' && ':' !in s[..c]; }
    forall k | 0 <= k < |s| && s[k] == ':' && ':' !in s[..k] ensures k == c { }
  }
}
