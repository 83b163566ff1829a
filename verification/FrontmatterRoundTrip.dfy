/** The round trip of a page header: the printed text is the joined lines, and the parser undoes
    them property by property. */
module FrontmatterRoundTrip {
  import opened Evidence
  import opened YamlText
  import opened YamlLines
  import opened Frontmatter
  import opened FrontmatterProofs

  // ---- Printing: the text is the lines, joined ---------------------------------------------------------

  lemma {:induction false} NothingEmpty(lines: seq<string>, indent: nat)
    requires LinesOk(lines, indent)
    ensures WithoutEmpty(lines + [""]) == lines
  {
    hide LeadingSpaces;
    if lines == [] {
      assert [""][1..] == [] && lines + [""] == [""];
    } else {
      assert LineOk(lines[0], indent);
      assert (lines + [""])[1..] == lines[1..] + [""];
      NothingEmpty(lines[1..], indent);
    }
  }

  /** Splitting a printed block and dropping empty lines gives its lines. */
  lemma SplitPrinted(lines: seq<string>, indent: nat)
    requires lines != [] && LinesOk(lines, indent)
    ensures WithoutEmpty(Split(Join(lines) + "\n")) == lines
  {
    hide Split, Join, WithoutEmpty, LeadingSpaces;
    JoinConcat(lines, [""]);
    JoinOne("");
    assert Join(lines) + "\n" + "" == Join(lines) + "\n";
    forall k | 0 <= k < |lines| + 1 ensures OneLine((lines + [""])[k]) {
      if k < |lines| { assert LineOk(lines[k], indent); }
    }
    SplitJoined(lines + [""]);
    NothingEmpty(lines, indent);
  }

  lemma JoinOne(s: string)
    ensures Join([s]) == s
  {
  }

  lemma JoinCongruent(a: seq<string>, b: seq<string>, a': seq<string>, b': seq<string>)
    requires a != [] && a' != [] && (b == [] <==> b' == []) && Join(a) == Join(a') && Join(b) == Join(b')
    ensures Join(a + b) == Join(a' + b')
  {
    hide Join;
    if b == [] {
      assert a + b == a && a' + b' == a';
    } else {
      JoinConcat(a, b);
      JoinConcat(a', b');
    }
  }

  lemma BlockPushed(name: string, s: string, indent: nat)
    ensures Join([name + ": " + ("|\n" + Join(Indented(Split(s), indent + 2)))]) == Join([name + (":" + " " + "|")] + Indented(Split(s), indent + 2))
  {
    hide Join, Split;
    var block := Indented(Split(s), indent + 2);
    JoinOne(name + ": " + ("|\n" + Join(block)));
    JoinOne(name + (":" + " " + "|"));
    JoinConcat([name + (":" + " " + "|")], block);
  }

  lemma KeyTextPushed(indent: nat, key: string, head: string)
    ensures Pad(indent) + key + ":" == Pad(indent) + KeyText(key, "")
    ensures head != "" ==> Pad(indent) + key + ": " + head == Pad(indent) + KeyText(key, head)
  {
  }

  lemma PushedIsLines(n: Numbers, f: Field, indent: nat)
    requires Admitted(f.value) && PlainKey(f.key) && CarriedValue(n, f.value) && QuotesUnread(n.read)
    ensures Join(Pushed(n, f, indent)) == Join(FieldLines(n, f, indent)) && Pushed(n, f, indent) != []
    decreases f, 0
  {
    hide Join, Split, TextItems, YamlString, JoinedStrings, PlainKey, CarriedFields, TextCarried, NumberCarried, Texts, PushedItems, ItemsLines;
    HeadReads(n, f.value);
    var name := Pad(indent) + f.key;
    KeyTextPushed(indent, f.key, Head(n, f.value));
    match f.value
    case JText(s) =>
      if '\n' in s {
        BlockPushed(name, s, indent);
        assert name + (":" + " " + "|") == Pad(indent) + KeyText(f.key, "|");
      } else {
        assert Pushed(n, f, indent) == FieldLines(n, f, indent);
      }
    case JArray(items) =>
      assert ArrayCarriable(items);
      assert name + ": []" == name + ": " + "[]";
      if AllObjects(items) && items != [] {
        ItemsPushed(n, items, indent);
      }
      if items != [] && !AllObjects(items) {
        assert !items[0].JObject?;
        var joined := JoinedStrings(n.read, Texts(items));
        assert name + ": [" + joined + "]" == name + ": " + ("[" + joined + "]");
      }
      assert Pushed(n, f, indent) == FieldLines(n, f, indent);
    case JNull =>
      assert name + ": null" == name + ": " + "null";
      assert Pushed(n, f, indent) == FieldLines(n, f, indent);
    case JBool(_) =>
      assert Pushed(n, f, indent) == FieldLines(n, f, indent);
    case JNumber(_) =>
      assert Pushed(n, f, indent) == FieldLines(n, f, indent);
  }

  lemma {:induction false} ItemsPushed(n: Numbers, items: seq<Json>, indent: nat)
    requires AllObjects(items) && ArrayCarriable(items) && QuotesUnread(n.read)
    requires forall k :: 0 <= k < |items| ==> CarriedValue(n, items[k])
    ensures PushedItems(n, items, indent) == ItemsLines(n, items, indent)
    decreases items, 0
  {
    hide PushedItem, ItemLines, CarriedFields, Vocabulary;
    if items != [] {
      assert CarriedValue(n, items[0]);
      ItemPushed(n, items[0].fields, indent);
      ItemsPushed(n, items[1..], indent);
    }
  }

  lemma ItemPushed(n: Numbers, fs: seq<Field>, indent: nat)
    requires fs != [] && Vocabulary(fs) && CarriedFields(n, fs) && QuotesUnread(n.read)
    ensures PushedItem(n, fs, indent) == ItemLines(n, fs, indent)
    decreases fs, 2
  {
    hide Join, Split, WithoutEmpty, CarriedFields, Vocabulary, Head, Under, LineOk, PushedAll, KeyText;
    CarriedTail(n, fs);
    var lines := LinesOf(n, fs, indent + 4);
    AllPushed(n, fs, indent + 4);
    LinesOfOk(n, fs, indent + 4);
    SplitPrinted(lines, indent + 4);
    var text := KeyText(fs[0].key, Head(n, fs[0].value));
    assert lines[0] == Pad(indent + 4) + text;
    assert Slice(lines[0], indent + 4) == text;
    assert Pad(indent) + "  - " + text == Pad(indent + 2) + "- " + text;
    assert lines[1..] == Under(n, fs[0].value, indent + 4) + LinesOf(n, fs[1..], indent + 4);
  }

  lemma {:induction false} AllPushed(n: Numbers, fs: seq<Field>, indent: nat)
    requires Vocabulary(fs) && CarriedFields(n, fs) && QuotesUnread(n.read)
    ensures Join(PushedAll(n, fs, indent)) == Join(LinesOf(n, fs, indent))
    ensures PushedAll(n, fs, indent) == [] <==> LinesOf(n, fs, indent) == []
    decreases fs, 1
  {
    hide Join, Pushed, Under, Head, CarriedFields, Vocabulary, PlainKey, KeyText;
    if fs != [] {
      CarriedTail(n, fs);
      PushedIsLines(n, fs[0], indent);
      AllPushed(n, fs[1..], indent);
      JoinCongruent(Pushed(n, fs[0], indent), PushedAll(n, fs[1..], indent), FieldLines(n, fs[0], indent), LinesOf(n, fs[1..], indent));
    }
  }

  // ---- Parsing the lines ---------------------------------------------------------------------------------

  /** What follows a property's lines: nothing, or a key line no deeper than its own. */
  predicate Settled(tail: seq<string>, indent: nat) {
    tail != [] ==> !Blank(tail[0]) && LeadingSpaces(tail[0]) <= indent && !OpensArray(tail[0])
  }

  predicate Unassigned(acc: seq<Field>, key: string) { forall k :: 0 <= k < |acc| ==> acc[k].key != key }

  lemma {:induction false} AssignNew(acc: seq<Field>, key: string, v: Json)
    requires Unassigned(acc, key)
    ensures Assign(acc, key, v) == acc + [Field(key, v)]
  {
    if acc != [] {
      assert acc[0].key != key;
      AssignNew(acc[1..], key, v);
      assert [acc[0]] + (acc[1..] + [Field(key, v)]) == acc + [Field(key, v)];
    }
  }

  /** One step of the parser at a key line, by what the line's rest is. */
  lemma ParseKeyLine(read: Reading, indent: nat, key: string, head: string, below: seq<string>, acc: seq<Field>)
    requires PlainKey(key) && (head == "" || Tight(head))
    ensures var line := Pad(indent) + KeyText(key, head);
      Parse(read, [line] + below, acc) ==
      if head == "|" then
        var k := BlockLength(below, indent);
        Parse(read, below[k..], Assign(acc, key, JText(BlockText(below[..k]))))
      else if head == "" then
        if below != [] && OpensArray(below[0]) then
          var a := ParseArray(read, below);
          Parse(read, a.rest, Assign(acc, key, JArray(a.items)))
        else Parse(read, below, if DeeperFollows(below, indent) then acc else Assign(acc, key, JNull))
      else Parse(read, below, Assign(acc, key, ReadInline(read, head)))
  {
    hide Trim, LeadingSpaces, FirstColon, KeyText, BlockText, BlockLength, ReadInline, Assign, OpensArray, Parse, ParseArray, DeeperFollows, Tight, PlainKey, Blank, Pad;
    KeyLine(indent, key, head);
    ParseStep(read, Pad(indent) + KeyText(key, head), below, acc);
  }

  /** One step of the array reader at a dash line, by what its content is. */
  lemma ArrayAt(read: Reading, line: string, d: Dash, below: seq<string>)
    requires DashItem(line) == Some(d)
    ensures d.content == "|" ==>
      var k := BlockLength(below, d.indent);
      ParseArray(read, [line] + below) == Prepend(JText(BlockText(below[..k])), ParseArray(read, below[k..]))
    ensures d.content != "|" && !MappingItem(d.content) ==>
      ParseArray(read, [line] + below) == Prepend(JText(Unquote(d.content)), ParseArray(read, below))
    ensures d.content != "|" && MappingItem(d.content) ==>
      ParseArray(read, [line] + below)
      == Prepend(JObject(Parse(read, ItemBlock(d, below), [])), ParseArray(read, below[DeeperLength(below, d.indent)..]))
  {
    hide DashItem, MappingItem, BlockLength, BlockText, Unquote, Parse, DeeperLength, ItemBlock;
    assert ([line] + below)[0] == line && ([line] + below)[1..] == below;
  }

  /** A one-line string of a block array. */
  lemma ParseLineItem(read: Reading, t: string, indent: nat, more: seq<string>)
    requires Carried(read, t) && QuotesUnread(read) && '\n' !in t && SingleLine(t)
    ensures ParseArray(read, TextItem(read, t, indent) + more) == Prepend(JText(t), ParseArray(read, more))
  {
    hide Trim, LeadingSpaces, YamlString, BlockText, BlockLength, Blank, OpensArray, DashItem, MappingItem, Parse, ReadBare, Unquote, Carried, Pad, DeeperLength, ParseArray;
    var y := YamlString(read, t);
    DashColumn(indent);
    TextHead(read, t);
    DashLine(indent + 2, y);
    NotMapping(read, t);
    var line := Pad(indent + 2) + "- " + y;
    ArrayAt(read, line, Dash(indent + 2, y), more);
    assert TextItem(read, t, indent) + more == [line] + more;
  }

  /** A multi-line string of a block array. */
  lemma ParseBlockItem(read: Reading, t: string, indent: nat, more: seq<string>)
    requires BlockCarried(t) && '\n' in t
    requires more != [] ==> !Blank(more[0]) && LeadingSpaces(more[0]) <= indent + 2
    ensures ParseArray(read, TextItem(read, t, indent) + more) == Prepend(JText(t), ParseArray(read, more))
  {
    hide Trim, LeadingSpaces, BlockText, BlockLength, Blank, OpensArray, DashItem, MappingItem, Split, Parse, Unquote, BlockCarried, Pad, DeeperLength, ParseArray;
    var block := Indented(Split(t), indent + 4);
    DashColumn(indent);
    DashLine(indent + 2, "|");
    BlockIsTaken(Split(t), indent + 4, indent + 2, more);
    BlockReadsBackIff(t, indent + 4);
    assert "  - |" == "  - " + "|";
    assert Pad(indent) + "  - |" == Pad(indent) + "  - " + "|";
    var line := Pad(indent + 2) + "- " + "|";
    ArrayAt(read, line, Dash(indent + 2, "|"), block + more);
    assert TextItem(read, t, indent) + more == [line] + (block + more);
    assert (block + more)[..|block|] == block && (block + more)[|block|..] == more;
  }

  lemma DashColumn(indent: nat)
    ensures Pad(indent) + "  - " == Pad(indent + 2) + "- "
  {
  }

  /** A written string is never taken for a mapping. */
  lemma NotMapping(read: Reading, t: string)
    requires Carried(read, t)
    ensures !MappingItem(YamlString(read, t))
  {
    hide Escape;
    var y := YamlString(read, t);
    if t != "" && !NeedsQuotes(read, t) {
      assert ':' in SPECIAL && ':' !in t;
    } else {
      assert y == Quoted(t) by { if t == "" { EscapeEmpty(); } }
      assert QuotedScalar(y);
    }
  }

  lemma TextItemFirst(read: Reading, t: string, indent: nat)
    requires TextCarried(read, t) && QuotesUnread(read)
    ensures var item := TextItem(read, t, indent);
      item != [] && !Blank(item[0]) && LeadingSpaces(item[0]) == indent + 2 && OpensArray(item[0])
  {
    hide Trim, LeadingSpaces, YamlString, Blank, OpensArray, DashItem, Split, ReadBare, Unquote, BlockCarried, Carried, Pad;
    DashColumn(indent);
    if '\n' !in t {
      TextHead(read, t);
      DashLine(indent + 2, YamlString(read, t));
    } else {
      DashLine(indent + 2, "|");
      assert "  - |" == "  - " + "|";
      assert Pad(indent) + "  - |" == Pad(indent) + "  - " + "|";
    }
  }

  lemma ArrayEndsAt(read: Reading, tail: seq<string>, indent: nat)
    requires Settled(tail, indent)
    ensures ParseArray(read, tail) == ArrayRead([], tail)
  {
    hide LeadingSpaces, Blank;
    ArrayEnds(read, tail);
  }

  lemma {:induction false} ParseTextItems(read: Reading, ts: seq<string>, indent: nat, tail: seq<string>)
    requires (forall k :: 0 <= k < |ts| ==> TextCarried(read, ts[k]) && TextSafe(ts[k])) && QuotesUnread(read) && Settled(tail, indent)
    ensures ParseArray(read, TextItems(read, ts, indent) + tail) == ArrayRead(TextArray(ts).items, tail)
  {
    hide ParseArray, LeadingSpaces, Blank, OpensArray, TextItem, BlockCarried, Carried, Settled, TextArray;
    if ts == [] {
      assert TextItems(read, ts, indent) + tail == tail;
      ArrayEndsAt(read, tail, indent);
      assert TextArray(ts).items == [];
    } else {
      var more := TextItems(read, ts[1..], indent) + tail;
      if |ts| > 1 {
        TextItemFirst(read, ts[1], indent);
        assert TextItems(read, ts[1..], indent) == TextItem(read, ts[1], indent) + TextItems(read, ts[1..][1..], indent);
      } else {
        assert more == tail;
        SettledLine(tail, indent);
      }
      if '\n' in ts[0] { ParseBlockItem(read, ts[0], indent, more); } else { ParseLineItem(read, ts[0], indent, more); }
      assert TextItems(read, ts, indent) + tail == TextItem(read, ts[0], indent) + more;
      ParseTextItems(read, ts[1..], indent, tail);
      assert [JText(ts[0])] + TextArray(ts[1..]).items == TextArray(ts).items;
    }
  }

  lemma SettledLine(tail: seq<string>, indent: nat)
    requires Settled(tail, indent)
    ensures tail != [] ==> !Blank(tail[0]) && LeadingSpaces(tail[0]) <= indent
  {
  }

  lemma {:induction false} DeeperTaken(lines: seq<string>, column: nat, indent: nat, more: seq<string>)
    requires LinesOk(lines, column) && column > indent && (more != [] ==> LeadingSpaces(more[0]) <= indent)
    ensures DeeperLength(lines + more, indent) == |lines|
  {
    hide LeadingSpaces;
    if lines == [] {
      assert lines + more == more;
    } else {
      assert LineOk(lines[0], column);
      assert (lines + more)[1..] == lines[1..] + more;
      DeeperTaken(lines[1..], column, indent, more);
    }
  }

  /** One mapping item: its block is exactly its lines at the content column. */
  lemma ParseItem(n: Numbers, fs: seq<Field>, indent: nat, more: seq<string>)
    requires fs != [] && Vocabulary(fs) && CarriedFields(n, fs) && QuotesUnread(n.read) && FirstSafe(fs)
    requires more != [] ==> LeadingSpaces(more[0]) <= indent + 2
    ensures ParseArray(n.read, ItemLines(n, fs, indent) + more) == Prepend(JObject(fs), ParseArray(n.read, more))
    decreases fs, 2
  {
    hide Trim, LeadingSpaces, Blank, OpensArray, DashItem, MappingItem, Parse, CarriedFields, Vocabulary, PlainKey,
      Head, Under, LineOk, KeyText, Pad, BlockLength, BlockText, Tight, SingleLine, DeeperLength, ParseArray, LinesOf;
    CarriedTail(n, fs);
    var f := fs[0];
    HeadReads(n, f.value);
    var text := KeyText(f.key, Head(n, f.value));
    KeyTextFacts(f.key, Head(n, f.value));
    DashLine(indent + 2, text);
    ItemOk(n, fs, indent);
    var rest := Under(n, f.value, indent + 4) + LinesOf(n, fs[1..], indent + 4);
    DeeperTaken(rest, indent + 4, indent + 2, more);
    var line := Pad(indent + 2) + "- " + text;
    ArrayAt(n.read, line, Dash(indent + 2, text), rest + more);
    assert ItemLines(n, fs, indent) + more == [line] + (rest + more);
    assert (rest + more)[..|rest|] == rest && (rest + more)[|rest|..] == more;
    assert ItemBlock(Dash(indent + 2, text), rest + more) == [Pad(indent + 4) + text] + rest;
    LinesOfStep(n, fs, indent + 4);
    SettledEnd(indent + 4);
    ApartFromNothing(fs);
    ParseFields(n, fs, indent + 4, [], []);
    assert LinesOf(n, fs, indent + 4) + [] == LinesOf(n, fs, indent + 4) && [] + fs == fs;
    ParseDone(n.read, fs);
  }

  lemma LinesOfStep(n: Numbers, fs: seq<Field>, indent: nat)
    requires fs != [] && Vocabulary(fs) && Vocabulary(fs[1..]) && Admitted(fs[0].value)
    ensures LinesOf(n, fs, indent)
      == [Pad(indent) + KeyText(fs[0].key, Head(n, fs[0].value))] + (Under(n, fs[0].value, indent) + LinesOf(n, fs[1..], indent))
  {
    hide Under, Head, KeyText, Vocabulary, Admitted;
    assert FieldLines(n, fs[0], indent) == [Pad(indent) + KeyText(fs[0].key, Head(n, fs[0].value))] + Under(n, fs[0].value, indent);
  }

  lemma SettledEnd(indent: nat)
    ensures Settled([], indent)
  {
  }

  lemma ItemFirst(n: Numbers, fs: seq<Field>, indent: nat)
    requires fs != [] && Vocabulary(fs) && CarriedFields(n, fs) && QuotesUnread(n.read)
    ensures var item := ItemLines(n, fs, indent); item != [] && LeadingSpaces(item[0]) == indent + 2 && OpensArray(item[0])
  {
    hide LeadingSpaces, Blank, OpensArray, DashItem, MappingItem, CarriedFields, Vocabulary, PlainKey, Head, Under, KeyText, LinesOf, Pad;
    CarriedTail(n, fs);
    HeadReads(n, fs[0].value);
    KeyTextFacts(fs[0].key, Head(n, fs[0].value));
    DashLine(indent + 2, KeyText(fs[0].key, Head(n, fs[0].value)));
  }

  lemma CarriedItems(n: Numbers, items: seq<Json>)
    requires items != [] && AllObjects(items) && ArrayCarriable(items) && forall k :: 0 <= k < |items| ==> CarriedValue(n, items[k])
    ensures items[0].fields != [] && Vocabulary(items[0].fields) && CarriedFields(n, items[0].fields)
    ensures ItemsSafe(items) ==> FirstSafe(items[0].fields) && ItemsSafe(items[1..])
    ensures AllObjects(items[1..]) && ArrayCarriable(items[1..]) && forall k :: 0 <= k < |items| - 1 ==> CarriedValue(n, items[1..][k])
    ensures JObject(items[0].fields) == items[0]
  {
    hide CarriedFields, Vocabulary;
    assert CarriedValue(n, items[0]);
  }

  lemma {:induction false} ParseItems(n: Numbers, items: seq<Json>, indent: nat, tail: seq<string>)
    requires AllObjects(items) && ArrayCarriable(items) && QuotesUnread(n.read) && Settled(tail, indent) && ItemsSafe(items)
    requires forall k :: 0 <= k < |items| ==> CarriedValue(n, items[k])
    ensures ParseArray(n.read, ItemsLines(n, items, indent) + tail) == ArrayRead(items, tail)
    decreases items, 0
  {
    hide ParseArray, LeadingSpaces, Blank, OpensArray, ItemLines, CarriedFields, Vocabulary, CarriedValue, Settled, ArrayCarriable;
    if items == [] {
      assert ItemsLines(n, items, indent) + tail == tail;
      ArrayEndsAt(n.read, tail, indent);
    } else {
      CarriedItems(n, items);
      var more := ItemsLines(n, items[1..], indent) + tail;
      if |items| > 1 {
        CarriedItems(n, items[1..]);
        ItemFirst(n, items[1].fields, indent);
        assert items[1..][0] == items[1];
        assert more[0] == ItemLines(n, items[1].fields, indent)[0];
      } else {
        assert more == tail;
        SettledLine(tail, indent);
      }
      ParseItem(n, items[0].fields, indent, more);
      assert ItemsLines(n, items, indent) + tail == ItemLines(n, items[0].fields, indent) + more;
      ParseItems(n, items[1..], indent, tail);
      assert [items[0]] + items[1..] == items;
    }
  }

  /** The lines under a key whose value is a block array. */
  lemma ParseUnder(n: Numbers, v: Json, indent: nat, tail: seq<string>)
    requires Admitted(v) && CarriedValue(n, v) && QuotesUnread(n.read) && Settled(tail, indent) && BlockArray(v)
    ensures var under := Under(n, v, indent);
      under != [] && OpensArray(under[0]) && ParseArray(n.read, under + tail) == ArrayRead(v.items, tail)
    decreases v, 0
  {
    hide ParseArray, LeadingSpaces, Blank, OpensArray, ItemLines, CarriedFields, Vocabulary, Settled, TextItem, TextCarried, Texts, TextArray, AllObjects;
    var items := v.items;
    assert ArrayCarriable(items);
    if AllObjects(items) {
      CarriedItems(n, items);
      ItemFirst(n, items[0].fields, indent);
      ParseItems(n, items, indent, tail);
    } else {
      var ts := Texts(items);
      var m :| 0 <= m < |ts| && '\n' in ts[m];
      assert items[m].JText? && '\n' in items[m].text;
      forall k | 0 <= k < |ts| ensures TextCarried(n.read, ts[k]) && TextSafe(ts[k]) { assert CarriedValue(n, items[k]); }
      TextItemFirst(n.read, ts[0], indent);
      ParseTextItems(n.read, ts, indent, tail);
      TextsBack(items);
    }
  }

  /** The parser reads one property's lines as that property and goes on after them. */
  lemma ParseField(n: Numbers, f: Field, indent: nat, acc: seq<Field>, tail: seq<string>)
    requires Admitted(f.value) && PlainKey(f.key) && CarriedValue(n, f.value) && QuotesUnread(n.read)
    requires Settled(tail, indent) && Unassigned(acc, f.key)
    ensures Parse(n.read, FieldLines(n, f, indent) + tail, acc) == Parse(n.read, tail, acc + [f])
    decreases f, 0
  {
    hide Parse, ParseArray, LeadingSpaces, Blank, OpensArray, Head, Under, KeyText, Settled, PlainKey, Unassigned, CarriedValue, Admitted,
      BlockText, BlockLength, ReadInline, Assign, DeeperFollows, BlockArray, Tight, SingleLine;
    var head, under := Head(n, f.value), Under(n, f.value, indent);
    HeadReads(n, f.value);
    ParseKeyLine(n.read, indent, f.key, head, under + tail, acc);
    assert FieldLines(n, f, indent) + tail == [Pad(indent) + KeyText(f.key, head)] + (under + tail);
    AssignNew(acc, f.key, f.value);
    if BlockArray(f.value) {
      ParseUnder(n, f.value, indent, tail);
      BlockArrayIs(f.value);
    } else if BlockValue(f.value) {
      ParseBlockValue(n, f.value, indent, tail);
    } else {
      assert under + tail == tail;
      HeadNotEmpty(head);
    }
  }

  lemma HeadNotEmpty(head: string)
    requires Tight(head)
    ensures head != ""
  {
  }

  lemma BlockArrayIs(v: Json)
    requires BlockArray(v)
    ensures v == JArray(v.items)
  {
  }

  lemma ParseBlockValue(n: Numbers, v: Json, indent: nat, tail: seq<string>)
    requires BlockValue(v) && CarriedValue(n, v) && Settled(tail, indent)
    ensures var below := Under(n, v, indent) + tail;
      var k := BlockLength(below, indent);
      JText(BlockText(below[..k])) == v && below[k..] == tail
  {
    hide LeadingSpaces, Blank, BlockText, BlockLength, Split, BlockCarried, Settled;
    var block := Indented(Split(v.text), indent + 2);
    SettledLine(tail, indent);
    BlockIsTaken(Split(v.text), indent + 2, indent, tail);
    BlockReadsBackIff(v.text, indent + 2);
    assert (block + tail)[..|block|] == block && (block + tail)[|block|..] == tail;
  }

  predicate Apart(acc: seq<Field>, fs: seq<Field>) { forall k :: 0 <= k < |fs| ==> Unassigned(acc, fs[k].key) }

  lemma ApartStep(n: Numbers, acc: seq<Field>, fs: seq<Field>)
    requires fs != [] && Apart(acc, fs) && CarriedFields(n, fs)
    ensures Unassigned(acc, fs[0].key) && Apart(acc + [fs[0]], fs[1..])
  {
    hide PlainKey, CarriedValue;
    assert Unassigned(acc, fs[0].key);
    forall k | 0 <= k < |fs[1..]| ensures Unassigned(acc + [fs[0]], fs[1..][k].key) {
      assert Unassigned(acc, fs[k + 1].key);
      assert fs[0].key != fs[k + 1].key;
    }
  }

  /** The parser reads the lines of a mapping as the mapping, in order. */
  lemma {:induction false} ParseFields(n: Numbers, fs: seq<Field>, indent: nat, acc: seq<Field>, tail: seq<string>)
    requires Vocabulary(fs) && CarriedFields(n, fs) && QuotesUnread(n.read)
    requires Settled(tail, indent) && Apart(acc, fs)
    ensures Parse(n.read, LinesOf(n, fs, indent) + tail, acc) == Parse(n.read, tail, acc + fs)
    decreases fs, 0
  {
    hide Parse, Vocabulary, CarriedFields, Settled, Apart, PlainKey, CarriedValue, Admitted, FieldLines, Unassigned;
    if fs == [] {
      assert LinesOf(n, fs, indent) + tail == tail && acc + fs == acc;
    } else {
      CarriedTail(n, fs);
      ApartStep(n, acc, fs);
      var more := LinesOf(n, fs[1..], indent) + tail;
      MoreSettled(n, fs[1..], indent, tail);
      ParseField(n, fs[0], indent, acc, more);
      assert LinesOf(n, fs, indent) + tail == FieldLines(n, fs[0], indent) + more;
      ParseFields(n, fs[1..], indent, acc + [fs[0]], tail);
      assert acc + [fs[0]] + fs[1..] == acc + fs;
    }
  }

  lemma MoreSettled(n: Numbers, fs: seq<Field>, indent: nat, tail: seq<string>)
    requires Vocabulary(fs) && CarriedFields(n, fs) && QuotesUnread(n.read) && Settled(tail, indent)
    ensures Settled(LinesOf(n, fs, indent) + tail, indent)
  {
    hide Vocabulary, CarriedFields, PlainKey, CarriedValue, Admitted, Under, Head, KeyText, LeadingSpaces, Blank, OpensArray;
    if fs == [] {
      assert LinesOf(n, fs, indent) + tail == tail;
    } else {
      CarriedTail(n, fs);
      HeadReads(n, fs[0].value);
      KeyLine(indent, fs[0].key, Head(n, fs[0].value));
      assert FieldLines(n, fs[0], indent) != [];
      assert (LinesOf(n, fs, indent) + tail)[0] == Pad(indent) + KeyText(fs[0].key, Head(n, fs[0].value));
    }
  }

  // ---- The page -----------------------------------------------------------------------------------------

  lemma ClosingIsFound(lines: seq<string>, body: string)
    requires LinesOk(lines, 0)
    ensures var raw := "---\n" + (Join(lines) + "\n") + "---\n" + body;
      && |raw| >= 4 && raw[..4] == "---\n" && FirstClosing(raw[4..]) == Some(|Join(lines)|)
      && raw[4..][..|Join(lines)|] == Join(lines) && raw[4..][|Join(lines)| + 5..] == body
  {
    hide Join, FirstClosing, LeadingSpaces;
    var raw := "---\n" + (Join(lines) + "\n") + "---\n" + body;
    forall k | 0 <= k < |lines| ensures OneLine(lines[k]) && lines[k] != "---" { assert LineOk(lines[k], 0); }
    ClosingAfterLines(lines, body);
    assert raw[4..] == Join(lines) + (CLOSING + body);
  }

  lemma OneLineOfOk(lines: seq<string>, indent: nat)
    requires LinesOk(lines, indent)
    ensures OneLineEach(lines)
  {
    hide LeadingSpaces;
    forall k | 0 <= k < |lines| ensures OneLine(lines[k]) { assert LineOk(lines[k], indent); }
  }

  lemma ParseJoined(n: Numbers, fs: seq<Field>)
    requires Vocabulary(fs) && CarriedFields(n, fs) && QuotesUnread(n.read)
    ensures Parse(n.read, Split(Join(LinesOf(n, fs, 0))), []) == fs
  {
    hide Parse, Vocabulary, CarriedFields, Split, Join, LinesOf, Settled, Apart;
    var lines := LinesOf(n, fs, 0);
    LinesOfOk(n, fs, 0);
    OneLineOfOk(lines, 0);
    if fs == [] {
      NoFields(n);
      assert fs == [];
    } else {
      HasLines(n, fs);
      SplitJoined(lines);
      SettledEnd(0);
      ApartFromNothing(fs);
      ParseFields(n, fs, 0, [], []);
      assert lines + [] == lines && [] + fs == fs;
      ParseDone(n.read, fs);
    }
  }

  lemma HasLines(n: Numbers, fs: seq<Field>)
    requires Vocabulary(fs) && fs != []
    ensures LinesOf(n, fs, 0) != []
  {
  }

  lemma ApartFromNothing(fs: seq<Field>)
    ensures Apart([], fs)
  {
  }

  lemma NoFields(n: Numbers)
    ensures Parse(n.read, Split(Join(LinesOf(n, [], 0))), []) == []
  {
    assert LinesOf(n, [], 0) == [] && Join([]) == "" && Split("") == [""];
    assert [""][1..] == [];
    assert FirstColon("") == 0;
  }

  /** Every admitted header of carried values, with any body at all, is written and read back as the
      same properties in the same order and the same body. */
  lemma RoundTrip(n: Numbers, fs: seq<Field>, body: string)
    requires Vocabulary(fs) && CarriedFields(n, fs) && QuotesUnread(n.read)
    ensures Serialise(n, fs, body).Some?
    ensures ParsePage(n.read, Serialise(n, fs, body).value) == Some(Page(fs, body))
  {
    hide Parse, Vocabulary, CarriedFields, Split, Join, LinesOf, PushedAll, FirstClosing, LineOk;
    AllPushed(n, fs, 0);
    LinesOfOk(n, fs, 0);
    ClosingIsFound(LinesOf(n, fs, 0), body);
    ParseJoined(n, fs);
  }
}
