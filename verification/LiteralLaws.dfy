/** The printed text determines the tree: reading undoes printing, at every indentation. */
module LiteralLaws {
  import opened Text
  import opened Tokens
  import opened Literal

  // ---- scalars -------------------------------------------------------------------------------

  lemma {:induction false} SpanOf(a: string, rest: string, p: char -> bool)
    requires forall c <- a :: p(c)
    requires rest == "" || !p(rest[0])
    ensures Span(a + rest, p) == |a|
    ensures (a + rest)[..|a|] == a && (a + rest)[|a|..] == rest
  {
    if a == "" {
      assert a + rest == rest;
    } else {
      assert (a + rest)[0] == a[0] && (a + rest)[1..] == a[1..] + rest;
      SpanOf(a[1..], rest, p);
    }
  }

  /** Nothing a number could run on into. */
  predicate Ends(rest: string) {
    rest == "" || !IdentPart(rest[0])
  }

  lemma ReadDecimal(n: nat, rest: string)
    requires Ends(rest)
    ensures ReadNat(Decimal(n) + rest) == Got(n, rest)
  {
    SpanOf(Decimal(n), rest, IsDigit);
    NatOfDecimal(n);
  }

  lemma ReadIntText(n: int, rest: string)
    requires Ends(rest)
    ensures ReadInt(IntText(n) + rest) == Got(n, rest)
  {
    hide Decimal, ReadNat, Ends;
    if n < 0 {
      var s := IntText(n) + rest;
      assert s[0] == '-' && s[1..] == Decimal(-n) + rest;
      ReadDecimal(-n, rest);
    } else {
      ReadDecimal(n, rest);
      assert Decimal(n)[0] in Decimal(n);
    }
  }

  lemma HexValueOf(n: int)
    requires 0 <= n < 16
    ensures HexValue(HEX_DIGITS[n]) == n
  {
  }

  /** What reading one possibly escaped character does. */
  lemma ReadEscaped(c: char, rest: string)
    ensures var s := Escape(c) + rest;
            && s != "" && s[0] != '\"'
            && (if s[0] == '\\' then ReadEscape(s) else Got(s[0], s[1..])) == Got(c, rest)
  {
    var s := Escape(c) + rest;
    if c == '\"' || c == '\\' || c == BACKSPACE || c == FORM_FEED || c == '\n' || c == '\r' || c == '\t' {
      assert s[2..] == rest;
    } else if c < ' ' {
      var n := c as int;
      HexValueOf(n / 16);
      HexValueOf(n % 16);
      assert s[6..] == rest;
      assert s[4] == HEX_DIGITS[n / 16] && s[5] == HEX_DIGITS[n % 16];
    } else {
      assert s[1..] == rest;
    }
  }

  lemma {:induction false} ReadQuoted(text: string, rest: string)
    ensures ReadText(EscapeAll(text) + "\"" + rest) == Got(text, rest)
  {
    hide Escape, ReadEscape;
    var s := EscapeAll(text) + "\"" + rest;
    if text == "" {
      assert s[1..] == rest;
    } else {
      var more := EscapeAll(text[1..]) + "\"" + rest;
      assert s == Escape(text[0]) + more;
      ReadEscaped(text[0], more);
      ReadQuoted(text[1..], rest);
      assert text == [text[0]] + text[1..];
    }
  }

  // ---- layout --------------------------------------------------------------------------------

  lemma {:induction false} SkipBlanks(blanks: string, rest: string)
    requires forall c <- blanks :: IsBlank(c)
    requires rest == "" || !IsBlank(rest[0])
    ensures Skip(blanks + rest) == rest
  {
    if blanks == "" {
      assert blanks + rest == rest;
    } else {
      assert (blanks + rest)[0] == blanks[0] && (blanks + rest)[1..] == blanks[1..] + rest;
      SkipBlanks(blanks[1..], rest);
    }
  }

  /** A printed value starts with a character of its own, never a blank or a closing bracket. */
  lemma PrintStart(value: Tree, indent: nat)
    ensures Print(value, indent) != ""
    ensures var c := Print(value, indent)[0]; !IsBlank(c) && c != ']' && c != '}'
  {
    if value.Int? && value.number >= 0 {
      assert Decimal(value.number)[0] in Decimal(value.number);
    }
  }

  /** The items with the newline that precedes each: what the printer joins, read forwards. */
  function ItemText(items: seq<Tree>, inner: nat): string {
    if items == [] then ""
    else "\n" + Tabs(inner) + Print(items[0], inner) + "," + ItemText(items[1..], inner)
  }

  function EntryText(entries: seq<Entry>, inner: nat): string {
    if entries == [] then ""
    else
      "\n" + Tabs(inner) + entries[0].key + ": " + Print(entries[0].value, inner) + ","
      + EntryText(entries[1..], inner)
  }

  lemma JoinStep(lines: seq<string>)
    requires lines != []
    ensures Join(lines, '\n') == lines[0] + (if |lines| == 1 then "" else "\n" + Join(lines[1..], '\n'))
  {
  }

  lemma Fold4(a: string, b: string, c: string, d: string, rest: string)
    ensures a + b + c + d + rest == a + ((b + c + d) + rest)
  {
    assert a + b + c + d == a + (b + c + d);
    assert a + (b + c + d) + rest == a + ((b + c + d) + rest);
  }

  lemma ItemStep(items: seq<Tree>, inner: nat)
    requires items != []
    ensures var line, lines := Tabs(inner) + Print(items[0], inner) + ",", ItemLines(items, inner);
            && lines[0] == line && lines[1..] == ItemLines(items[1..], inner)
            && ItemText(items, inner) == "\n" + (line + ItemText(items[1..], inner))
  {
    Fold4("\n", Tabs(inner), Print(items[0], inner), ",", ItemText(items[1..], inner));
    hide Print, Tabs;
  }

  lemma EntryStep(entries: seq<Entry>, inner: nat)
    requires entries != []
    ensures var line := Tabs(inner) + entries[0].key + ": " + Print(entries[0].value, inner) + ",";
            var lines := EntryLines(entries, inner);
            && lines[0] == line && lines[1..] == EntryLines(entries[1..], inner)
            && EntryText(entries, inner) == "\n" + (line + EntryText(entries[1..], inner))
  {
    EntryLine(Tabs(inner), entries[0].key, Print(entries[0].value, inner), EntryText(entries[1..], inner));
    hide Print, Tabs;
  }

  lemma EntryLine(pad: string, key: string, item: string, rest: string)
    ensures "\n" + pad + key + ": " + item + "," + rest == "\n" + ((pad + key + ": " + item + ",") + rest)
  {
    var line := pad + key + ": ";
    assert "\n" + pad + key + ": " == "\n" + line;
    Fold4("\n", line, item, ",", rest);
  }

  lemma {:induction false} ItemTextIsJoin(items: seq<Tree>, inner: nat)
    requires items != []
    ensures ItemText(items, inner) == "\n" + Join(ItemLines(items, inner), '\n')
  {
    hide Print, Tabs, ItemText, ItemLines, Join;
    ItemStep(items, inner);
    JoinStep(ItemLines(items, inner));
    if |items| == 1 {
      NoItems(items[1..], inner);
    } else {
      ItemTextIsJoin(items[1..], inner);
    }
  }

  lemma NoItems(items: seq<Tree>, inner: nat)
    requires items == []
    ensures ItemText(items, inner) == ""
  {
  }

  lemma {:induction false} EntryTextIsJoin(entries: seq<Entry>, inner: nat)
    requires entries != []
    ensures EntryText(entries, inner) == "\n" + Join(EntryLines(entries, inner), '\n')
  {
    hide Print, Tabs, EntryText, EntryLines, Join;
    EntryStep(entries, inner);
    JoinStep(EntryLines(entries, inner));
    if |entries| == 1 {
      NoEntryText(inner);
      assert entries[1..] == [];
    } else {
      EntryTextIsJoin(entries[1..], inner);
    }
  }

  // ---- reading undoes printing ---------------------------------------------------------------

  lemma IntTextStart(n: int)
    ensures IntText(n) != "" && !IdentStart(IntText(n)[0]) && !IsBlank(IntText(n)[0])
    ensures IntText(n)[0] != '[' && IntText(n)[0] != '{' && IntText(n)[0] != '\"'
  {
    if n >= 0 {
      assert Decimal(n)[0] in Decimal(n);
    }
  }

  lemma TabsAreBlank(n: nat)
    ensures forall c <- "\n" + Tabs(n) :: IsBlank(c)
  {
  }

  lemma ReadBracket(input: string, items: seq<Tree>, rest: string)
    requires input != "" && input[0] == '[' && ReadItems(input[1..]) == Got(items, rest)
    ensures ReadValue(input) == Got(Arr(items), rest)
  {
    hide ReadItems, ReadEntries, ReadText, ReadInt, Span;
  }

  lemma ReadBrace(input: string, entries: seq<Entry>, rest: string)
    requires input != "" && input[0] == '{' && ReadEntries(input[1..]) == Got(entries, rest)
    ensures ReadValue(input) == Got(Obj(entries), rest)
  {
    hide ReadItems, ReadEntries, ReadText, ReadInt, Span;
  }

  lemma ReadWord(word: string, rest: string)
    requires word in {"null", "true", "false"} && Ends(rest)
    ensures ReadValue(word + rest)
         == Got(if word == "null" then Null else Bool(word == "true"), rest)
  {
    hide ReadItems, ReadEntries, ReadText, ReadInt, Span;
    SpanOf(word, rest, IdentPart);
    assert (word + rest)[0] == word[0];
  }

  lemma ReadNumber(number: int, rest: string)
    requires Ends(rest)
    ensures ReadValue(IntText(number) + rest) == Got(Int(number), rest)
  {
    hide ReadItems, ReadEntries, ReadText, IntText, ReadInt, Span;
    ReadIntText(number, rest);
    IntTextStart(number);
    assert (IntText(number) + rest)[0] == IntText(number)[0];
  }

  lemma ReadString(text: string, rest: string)
    ensures ReadValue(Quote(text) + rest) == Got(Str(text), rest)
  {
    hide ReadItems, ReadEntries, EscapeAll, ReadText, ReadInt, Span;
    var s := Quote(text) + rest;
    assert s[0] == '\"' && s[1..] == EscapeAll(text) + "\"" + rest;
    ReadQuoted(text, rest);
  }

  lemma ReadScalar(value: Tree, indent: nat, rest: string)
    requires !value.Arr? && !value.Obj? && Ends(rest)
    ensures ReadValue(Print(value, indent) + rest) == Got(value, rest)
  {
    hide ReadValue, Quote, IntText;
    match value
    case Null => ReadWord("null", rest);
    case Bool(bit) => ReadWord(if bit then "true" else "false", rest);
    case Int(number) => ReadNumber(number, rest);
    case Str(text) => ReadString(text, rest);
  }

  lemma ArrText(items: seq<Tree>, indent: nat)
    ensures Print(Arr(items), indent)
         == "[" + ItemText(items, indent + 1) + (if items == [] then "" else "\n" + Tabs(indent)) + "]"
  {
    if items != [] {
      ItemTextIsJoin(items, indent + 1);
      hide ItemText, ItemLines, Tabs;
    }
  }

  lemma ObjText(entries: seq<Entry>, indent: nat)
    ensures Print(Obj(entries), indent)
         == "{" + EntryText(entries, indent + 1) + ((if entries == [] then "\n\n" else "\n") + Tabs(indent)) + "}"
  {
    hide EntryText, EntryLines, Tabs, Join;
    if entries == [] {
      NoEntryText(indent + 1);
    } else {
      EntryTextIsJoin(entries, indent + 1);
    }
  }

  lemma NoEntryText(inner: nat)
    ensures EntryText([], inner) == "" && Join(EntryLines([], inner), '\n') == ""
  {
  }

  lemma Bracketed(open: string, body: string, close: string, end: string, rest: string)
    requires |open| == 1
    ensures var s := (open + body + close + end) + rest; s[0] == open[0] && s[1..] == body + (close + (end + rest))
  {
    var s := (open + body + close + end) + rest;
    assert s == open + (body + (close + (end + rest)));
  }

  lemma {:induction false} ReadPrinted(value: Tree, indent: nat, rest: string)
    requires PlainKeys(value) && Ends(rest)
    ensures ReadValue(Print(value, indent) + rest) == Got(value, rest)
    decreases value, 1
  {
    hide Print, ReadValue, ReadItems, ReadEntries, ItemText, EntryText, Tabs, PlainKey;
    var s := Print(value, indent) + rest;
    TabsAreBlank(indent);
    match value
    case Arr(items) =>
      var close := if items == [] then "" else "\n" + Tabs(indent);
      ReadItemText(items, indent + 1, close, rest);
      ArrText(items, indent);
      Bracketed("[", ItemText(items, indent + 1), close, "]", rest);
      ReadBracket(s, items, rest);
    case Obj(entries) =>
      var close := (if entries == [] then "\n\n" else "\n") + Tabs(indent);
      ReadEntryText(entries, indent + 1, close, rest);
      ObjText(entries, indent);
      Bracketed("{", EntryText(entries, indent + 1), close, "}", rest);
      ReadBrace(s, entries, rest);
    case _ =>
      ReadScalar(value, indent, rest);
  }

  /** One turn of the reader's item loop. */
  lemma ReadOneItem(input: string, item: string, value: Tree, more: string, items: seq<Tree>, rest: string)
    requires item != "" && !IsBlank(item[0]) && item[0] != ']'
    requires Skip(input) == item + ("," + more)
    requires ReadValue(item + ("," + more)) == Got(value, "," + more)
    requires ReadItems(more) == Got(items, rest)
    ensures ReadItems(input) == Got([value] + items, rest)
  {
    hide ReadValue, ReadEntries;
    assert ("," + more)[1..] == more;
  }

  lemma ReadNoItems(close: string, rest: string)
    requires forall c <- close :: IsBlank(c)
    ensures ReadItems(close + ("]" + rest)) == Got([], rest)
  {
    hide ReadValue, ReadEntries;
    SkipBlanks(close, "]" + rest);
    assert ("]" + rest)[1..] == rest;
  }

  lemma ReadNoEntries(close: string, rest: string)
    requires forall c <- close :: IsBlank(c)
    ensures ReadEntries(close + ("}" + rest)) == Got([], rest)
  {
    hide ReadValue, ReadItems;
    SkipBlanks(close, "}" + rest);
    assert ("}" + rest)[1..] == rest;
  }

  lemma ItemTextSplits(items: seq<Tree>, inner: nat, end: string)
    requires items != []
    ensures ItemText(items, inner) + end
         == ("\n" + Tabs(inner)) + (Print(items[0], inner) + ("," + (ItemText(items[1..], inner) + end)))
  {
    hide Print, Tabs;
  }

  lemma {:induction false} ReadItemText(items: seq<Tree>, inner: nat, close: string, rest: string)
    requires forall item <- items :: PlainKeys(item)
    requires forall c <- close :: IsBlank(c)
    ensures ReadItems(ItemText(items, inner) + (close + ("]" + rest))) == Got(items, rest)
    decreases items, 0
  {
    hide Print, ReadValue, ReadItems, ReadEntries, Skip, PlainKeys, Tabs;
    var end := close + ("]" + rest);
    var input := ItemText(items, inner) + end;
    if items == [] {
      assert input == end;
      ReadNoItems(close, rest);
    } else {
      ItemTextSplits(items, inner, end);
      hide ItemText;
      var more, item := ItemText(items[1..], inner) + end, Print(items[0], inner);
      PrintStart(items[0], inner);
      TabsAreBlank(inner);
      SkipBlanks("\n" + Tabs(inner), item + ("," + more));
      ReadPrinted(items[0], inner, "," + more);
      ReadItemText(items[1..], inner, close, rest);
      ReadOneItem(input, item, items[0], more, items[1..], rest);
      assert items == [items[0]] + items[1..];
    }
  }

  /** One turn of the reader's entry loop. */
  lemma ReadOneEntry(
    input: string, key: string, item: string, value: Tree, more: string, entries: seq<Entry>, rest: string)
    requires PlainKey(key)
    requires Skip(input) == key + (": " + item)
    requires ReadValue(" " + item) == Got(value, "," + more)
    requires ReadEntries(more) == Got(entries, rest)
    ensures ReadEntries(input) == Got([Entry(key, value)] + entries, rest)
  {
    hide ReadValue, ReadItems, Span;
    var tail := ": " + item;
    SpanOf(key, tail, KeyPart);
    assert tail[1..] == " " + item;
    assert ("," + more)[1..] == more;
    assert (key + tail)[0] == if key == "" then ':' else key[0];
  }

  lemma {:induction false} ReadEntryText(entries: seq<Entry>, inner: nat, close: string, rest: string)
    requires forall entry <- entries :: PlainKey(entry.key) && PlainKeys(entry.value)
    requires forall c <- close :: IsBlank(c)
    ensures ReadEntries(EntryText(entries, inner) + (close + ("}" + rest))) == Got(entries, rest)
    decreases entries, 0
  {
    hide Print, ReadValue, ReadItems, ReadEntries, Skip, PlainKeys, Tabs;
    var end := close + ("}" + rest);
    var input := EntryText(entries, inner) + end;
    if entries == [] {
      assert input == end;
      ReadNoEntries(close, rest);
    } else {
      var key, value := entries[0].key, entries[0].value;
      assert PlainKey(key) && PlainKeys(value) && !IsBlank((key + ": ")[0]);
      hide PlainKey, EntryText;
      var more := EntryText(entries[1..], inner) + end;
      var item := Print(value, inner) + ("," + more);
      EntryTextSplits(entries, inner);
      Push("\n" + Tabs(inner), key, Print(value, inner), EntryText(entries[1..], inner), end);
      TabsAreBlank(inner);
      SkipBlanks("\n" + Tabs(inner), key + (": " + item));
      ReadAfterBlank(value, inner, "," + more);
      ReadEntryText(entries[1..], inner, close, rest);
      ReadOneEntry(input, key, item, value, more, entries[1..], rest);
      assert entries == [Entry(key, value)] + entries[1..];
    }
  }

  lemma Push(pad: string, key: string, item: string, more: string, end: string)
    ensures (pad + (key + (": " + (item + ("," + more))))) + end == pad + (key + (": " + (item + ("," + (more + end)))))
  {
    assert ("," + more) + end == "," + (more + end);
    assert (item + ("," + more)) + end == item + (("," + more) + end);
    assert (": " + (item + ("," + more))) + end == ": " + ((item + ("," + more)) + end);
    assert (key + (": " + (item + ("," + more)))) + end == key + ((": " + (item + ("," + more))) + end);
  }

  lemma EntryTextSplits(entries: seq<Entry>, inner: nat)
    requires entries != []
    ensures EntryText(entries, inner)
         == ("\n" + Tabs(inner)) + (entries[0].key + (": " + (Print(entries[0].value, inner)
                                                             + ("," + EntryText(entries[1..], inner)))))
  {
    hide Print, Tabs;
  }

  lemma {:induction false} ReadAfterBlank(value: Tree, indent: nat, rest: string)
    requires PlainKeys(value) && Ends(rest)
    ensures ReadValue(" " + (Print(value, indent) + rest)) == Got(value, rest)
    decreases value, 2
  {
    ReadPrinted(value, indent, rest);
    PrintStart(value, indent);
    SameAfterBlank(Print(value, indent) + rest);
  }

  lemma SameAfterBlank(s: string)
    requires s != "" && !IsBlank(s[0])
    ensures ReadValue(" " + s) == ReadValue(s)
  {
    hide ReadItems, ReadEntries, ReadText, ReadInt, Span;
    SkipBlanks(" ", s);
  }

  /** Identifiers, the keys that make the text TypeScript, are plain. */
  lemma IdentifierIsPlain(key: string)
    requires Identifier(key)
    ensures PlainKey(key)
  {
  }

  /** Reading undoes printing, at every indentation, exactly for the trees whose keys are plain. */
  lemma RoundTripIsExact(value: Tree, indent: nat)
    ensures Parse(Print(value, indent)) == Got(value, "") <==> PlainKeys(value)
  {
    if PlainKeys(value) {
      ReadPrinted(value, indent, "");
      assert Print(value, indent) + "" == Print(value, indent);
    }
  }

  /** Keys are printed as they are, so with line ends in them the text is ambiguous: a key that contains an
      entry and the start of the next prints like the two entries. */
  lemma OtherKeysCollide(a: string, x: Tree, b: string, y: Tree, indent: nat)
    ensures Print(Obj([Entry(a + ": " + Print(x, indent + 1) + ",\n" + Tabs(indent + 1) + b, y)]), indent)
         == Print(Obj([Entry(a, x), Entry(b, y)]), indent)
  {
    hide Print, Tabs, EntryText;
    var inner := indent + 1;
    var key := a + ": " + Print(x, inner) + ",\n" + Tabs(inner) + b;
    var one, two := [Entry(key, y)], [Entry(a, x), Entry(b, y)];
    ObjText(one, indent);
    ObjText(two, indent);
    EntryTextSplits(one, inner);
    EntryTextSplits(two, inner);
    EntryTextSplits([Entry(b, y)], inner);
    assert two[1..] == [Entry(b, y)] && one[1..] == [] && [Entry(b, y)][1..] == [];
    Regroup(Tabs(inner), a, Print(x, inner), b, Print(y, inner), EntryText([], inner));
  }

  lemma Regroup(t: string, a: string, x: string, b: string, y: string, rest: string)
    ensures ("\n" + t) + ((a + ": " + x + ",\n" + t + b) + (": " + (y + ("," + rest))))
         == ("\n" + t) + (a + (": " + (x + ("," + (("\n" + t) + (b + (": " + (y + ("," + rest)))))))))
  {
    var tail := ": " + (y + ("," + rest));
    assert (a + ": " + x + ",\n" + t + b) + tail == a + ": " + x + ",\n" + t + (b + tail);
    assert a + ": " + x + ",\n" + t + (b + tail) == a + ": " + x + ",\n" + (t + (b + tail));
    assert ",\n" + (t + (b + tail)) == "," + (("\n" + t) + (b + tail));
    assert a + ": " + x + ",\n" + (t + (b + tail)) == a + ": " + x + (",\n" + (t + (b + tail)));
    var z := "," + (("\n" + t) + (b + tail));
    assert a + ": " + x + z == a + (": " + (x + z));
  }

  /** The layout: one member a line, a tab deeper, with a comma after it; keys as they are; scalars as in JSON. */
  lemma LayoutOfMembers(key: string, value: Tree, indent: nat)
    ensures Print(Obj([Entry(key, value)]), indent)
         == "{" + ("\n" + Tabs(indent + 1) + key + ": " + Print(value, indent + 1) + ",")
            + ("\n" + Tabs(indent)) + "}"
    ensures Print(Arr([value]), indent)
         == "[" + ("\n" + Tabs(indent + 1) + Print(value, indent + 1) + ",") + ("\n" + Tabs(indent)) + "]"
  {
    var entries, items := [Entry(key, value)], [value];
    ObjText(entries, indent);
    ArrText(items, indent);
    hide Print, Tabs;
    assert entries[1..] == [] && items[1..] == [];
    assert EntryText(entries, indent + 1) == "\n" + Tabs(indent + 1) + key + ": " + Print(value, indent + 1) + ",";
    assert ItemText(items, indent + 1) == "\n" + Tabs(indent + 1) + Print(value, indent + 1) + ",";
  }

  lemma LayoutOfScalars(number: int)
    ensures Print(Null, 0) == "null" && Print(Bool(true), 0) == "true" && Print(Bool(false), 0) == "false"
    ensures Print(Arr([]), 0) == "[]" && Print(Obj([]), 0) == "{\n\n}"
    ensures number > 0 ==> Print(Int(0 - number), 0) == "-" + Print(Int(number), 0)
    ensures Print(Str("a\"b\\\n"), 0) == "\"a\\\"b\\\\\\n\""
    ensures Print(Str("\U{0008}"), 0) == "\"\\b\"" && Print(Str("\U{000C}"), 0) == "\"\\f\""
    ensures Print(Str("\r"), 0) == "\"\\r\"" && Print(Str("\t"), 0) == "\"\\t\""
    ensures Print(Str("\U{001F}"), 0) == "\"\\u001f\""
  {
    hide Quote, Decimal;
    QuoteOfThree();
    QuoteOfControls();
    NoEntryText(1);
  }

  lemma QuoteOfThree()
    ensures Quote("a\"b\\\n") == "\"a\\\"b\\\\\\n\""
  {
    var s := "a\"b\\\n";
    assert s[1..] == "\"b\\\n" && s[1..][1..] == "b\\\n" && s[1..][1..][1..] == "\\\n";
    assert EscapeAll("\n") == "\\n" by { assert "\n"[1..] == ""; }
    assert EscapeAll("\\\n") == "\\\\\\n" by { assert "\\\n"[1..] == "\n"; }
    assert EscapeAll("b\\\n") == "b\\\\\\n" by { assert "b\\\n"[1..] == "\\\n"; }
    assert EscapeAll("\"b\\\n") == "\\\"b\\\\\\n" by { assert "\"b\\\n"[1..] == "b\\\n"; }
  }

  lemma QuoteOfControls()
    ensures Quote("\U{0008}") == "\"\\b\"" && Quote("\U{000C}") == "\"\\f\""
    ensures Quote("\r") == "\"\\r\"" && Quote("\t") == "\"\\t\""
    ensures Quote("\U{001F}") == "\"\\u001f\""
  {
    QuoteOfOne('\U{0008}');
    QuoteOfOne('\U{000C}');
    QuoteOfOne('\r');
    QuoteOfOne('\t');
    QuoteOfOne('\U{001F}');
  }

  lemma QuoteOfOne(c: char)
    ensures Quote([c]) == "\"" + Escape(c) + "\""
  {
    assert EscapeAll([c]) == Escape(c) + EscapeAll([c][1..]) && [c][1..] == "";
  }
}
