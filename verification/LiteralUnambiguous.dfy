/** The printed text determines the tree as long as no key has a line end in it, whatever else keys contain. */
module LiteralUnambiguous {
  import opened Text
  import opened Literal
  import opened LiteralLaws

  predicate OneLine(s: string) {
    '\n' !in s
  }

  /** Every key, at every depth, is on one line. */
  predicate OneLineKeys(value: Tree) {
    match value
    case Arr(items) => forall item <- items :: OneLineKeys(item)
    case Obj(entries) => forall entry <- entries :: OneLine(entry.key) && OneLineKeys(entry.value)
    case _ => true
  }

  // ---- lines ---------------------------------------------------------------------------------

  function FirstLine(s: string): string {
    if s == "" || s[0] == '\n' then "" else [s[0]] + FirstLine(s[1..])
  }

  lemma {:induction false} FirstLineConcat(a: string, b: string)
    requires OneLine(a)
    ensures FirstLine(a + b) == a + FirstLine(b)
  {
    if a == "" {
      assert a + b == b;
    } else {
      assert (a + b)[0] == a[0] && (a + b)[1..] == a[1..] + b;
      assert a[0] in a && forall c <- a[1..] :: c in a;
      FirstLineConcat(a[1..], b);
      assert [a[0]] + (a[1..] + FirstLine(b)) == a + FirstLine(b);
    }
  }

  /** What a printed value and the comma after it put on the line they start on. */
  function Head(value: Tree, indent: nat): string {
    match value
    case Arr(items) => if items == [] then "[]," else "["
    case Obj(_) => "{"
    case _ => Print(value, indent) + ","
  }

  predicate AtLineEnd(rest: string) {
    rest == "" || rest[0] == '\n'
  }

  lemma ScalarIsOneLine(value: Tree, indent: nat)
    requires !value.Arr? && !value.Obj?
    ensures OneLine(Print(value, indent))
  {
    match value
    case Int(number) => assert forall c <- Decimal(if number < 0 then -number else number) :: IsDigit(c);
    case Str(text) => EscapedIsTame(text);
    case _ =>
  }

  lemma HeadIsFirstLine(value: Tree, indent: nat, rest: string)
    requires AtLineEnd(rest)
    ensures FirstLine(Print(value, indent) + ("," + rest)) == Head(value, indent)
  {
    hide ItemText, EntryText, Tabs, FirstLine, Print;
    assert FirstLine(rest) == "" by { NoFirstLine(rest); }
    match value
    case Arr(items) =>
      ArrText(items, indent);
      if items == [] {
        NoItemText(indent + 1);
        assert Print(value, indent) == "[]";
        OpensLine("[],", rest);
        assert "[]" + ("," + rest) == "[]," + rest;
      } else {
        ItemTextStart(items, indent + 1);
        var tail := Print(value, indent)[1..] + ("," + rest);
        assert Print(value, indent) + ("," + rest) == "[" + tail;
        OpensLine("[", tail);
      }
    case Obj(entries) =>
      ObjText(entries, indent);
      EntryTextStart(entries, indent + 1);
      var tail := Print(value, indent)[1..] + ("," + rest);
      assert Print(value, indent) + ("," + rest) == "{" + tail;
      OpensLine("{", tail);
    case _ =>
      ScalarIsOneLine(value, indent);
      OpensLine(Print(value, indent) + ",", rest);
      assert (Print(value, indent) + ",") + rest == Print(value, indent) + ("," + rest);
  }

  lemma NoFirstLine(rest: string)
    requires AtLineEnd(rest)
    ensures FirstLine(rest) == ""
  {
  }

  lemma OpensLine(line: string, rest: string)
    requires OneLine(line) && AtLineEnd(rest)
    ensures FirstLine(line + rest) == line
  {
    FirstLineConcat(line, rest);
    NoFirstLine(rest);
  }

  lemma NoItemText(inner: nat)
    ensures ItemText([], inner) == ""
  {
  }

  lemma ItemTextStart(items: seq<Tree>, inner: nat)
    requires items != []
    ensures ItemText(items, inner) != "" && ItemText(items, inner)[0] == '\n'
  {
  }

  lemma EntryTextStart(entries: seq<Entry>, inner: nat)
    ensures AtLineEnd(EntryText(entries, inner))
  {
  }

  // ---- quotes --------------------------------------------------------------------------------

  /** Inside a string literal there is no line end, and every quote follows a backslash. */
  lemma {:induction false} EscapedIsTame(text: string)
    ensures OneLine(EscapeAll(text))
    ensures forall i | 0 <= i < |EscapeAll(text)| && EscapeAll(text)[i] == '\"' ::
              i > 0 && EscapeAll(text)[i - 1] == '\\'
  {
    if text == "" {
    } else {
      EscapedIsTame(text[1..]);
      EscapeIsTame(text[0]);
      var head, tail := Escape(text[0]), EscapeAll(text[1..]);
      hide EscapeAll, Escape;
      forall i | 0 <= i < |head + tail| && (head + tail)[i] == '\"'
        ensures i > 0 && (head + tail)[i - 1] == '\\'
      {
        if i >= |head| {
          assert tail[i - |head|] == '\"';
        }
      }
    }
  }

  lemma EscapeIsTame(c: char)
    ensures OneLine(Escape(c))
    ensures forall i | 0 <= i < |Escape(c)| && Escape(c)[i] == '\"' :: i > 0 && Escape(c)[i - 1] == '\\'
  {
  }

  /** How a scalar ends: only a string with a quote, and nothing but a string has a colon in it. */
  lemma ScalarEnd(value: Tree, indent: nat)
    requires !value.Arr? && !value.Obj? && !value.Str?
    ensures var text := Print(value, indent);
            text != "" && text[|text| - 1] != '\"' && ':' !in text
  {
    if value.Int? {
      var digits := Decimal(if value.number < 0 then -value.number else value.number);
      assert digits[|digits| - 1] in digits && ':' !in digits;
      assert value.number < 0 ==> Print(value, indent) == "-" + digits;
    }
  }

  /** A quote inside a string literal is not preceded by a space. */
  lemma NoQuoteAfterSpace(text: string, e: nat)
    requires 1 < e < |Quote(text)| - 1 && Quote(text)[e - 1] == ' '
    ensures Quote(text)[e] != '\"'
  {
    hide EscapeAll;
    EscapedIsTame(text);
    var inner := EscapeAll(text);
    assert Quote(text)[e] == inner[e - 1] && Quote(text)[e - 1] == inner[e - 2];
  }

  lemma OnlyStringsHaveColons(value: Tree, indent: nat)
    requires !value.Str?
    ensures ':' !in Head(value, indent)
  {
    hide Print;
    if !value.Arr? && !value.Obj? {
      ScalarEnd(value, indent);
    }
  }

  /** So what one value puts on its line is never the end of what another does, after a colon and a space. */
  lemma HeadsDiffer(a: Tree, b: Tree, indent: nat, x: string)
    ensures Head(a, indent) != x + ": " + Head(b, indent)
  {
    hide Print, Quote, Head;
    if a.Str? {
      HeadInQuote(a.text, b, indent, x);
    } else {
      OnlyStringsHaveColons(a, indent);
      assert (x + ": " + Head(b, indent))[|x|] == ':';
    }
  }

  lemma StringHead(text: string, indent: nat)
    ensures Head(Str(text), indent) == Quote(text) + ","
    ensures |Quote(text)| >= 2 && Quote(text)[0] == '\"' && Quote(text)[|Quote(text)| - 1] == '\"'
  {
  }

  /** Only a string's line ends in a quote and a comma. */
  lemma OnlyStringsEndInQuotes(value: Tree, indent: nat)
    requires !value.Str?
    ensures var head := Head(value, indent);
            head != "" && (head[|head| - 1] == ',' ==> |head| > 1 && head[|head| - 2] != '\"')
  {
    hide Print;
    if !value.Arr? && !value.Obj? {
      ScalarEnd(value, indent);
    }
  }

  lemma HeadInQuote(text: string, b: Tree, indent: nat, x: string)
    ensures Head(Str(text), indent) != x + ": " + Head(b, indent)
  {
    hide Print, Quote, Head;
    StringHead(text, indent);
    var one, two, quoted := Head(Str(text), indent), Head(b, indent), Quote(text);
    var e, whole := |x| + 2, x + ": " + Head(b, indent);
    assert whole[e..] == two && whole[e - 1] == ' ';
    if b.Str? {
      StringHead(b.text, indent);
      assert whole[e] == two[0];
      if 1 < e < |quoted| - 1 && quoted[e - 1] == ' ' {
        NoQuoteAfterSpace(text, e);
      }
    } else {
      OnlyStringsEndInQuotes(b, indent);
      assert whole[|whole| - 1] == two[|two| - 1];
      assert |two| > 1 ==> whole[|whole| - 2] == two[|two| - 2];
    }
  }

  /** The key of an entry is determined by its text, wherever colons occur in it. */
  lemma KeyIsDetermined(k: string, v: Tree, r: string, k': string, v': Tree, r': string, inner: nat)
    requires OneLine(k) && OneLine(k') && AtLineEnd(r) && AtLineEnd(r') && |k| <= |k'|
    requires k + (": " + (Print(v, inner) + ("," + r))) == k' + (": " + (Print(v', inner) + ("," + r')))
    ensures k == k'
  {
    hide Print, Head, FirstLine;
    var t, t' := Print(v, inner) + ("," + r), Print(v', inner) + ("," + r');
    EntryFirstLine(k, v, r, inner);
    EntryFirstLine(k', v', r', inner);
    SamePrefix(k, ": " + t, k', ": " + t');
    var d := k'[|k|..];
    var one, two := Head(v, inner), Head(v', inner);
    assert k + (": " + one) == k' + (": " + two);
    assert k' == k + d;
    Peel(k, d, ": " + one, ": " + two);
    if |d| == 1 {
      OneOff(d, one, two);
    } else if |d| >= 2 {
      PeelTwo(d, one, two);
      HeadsDiffer(v, v', inner, d[2..]);
    }
  }

  lemma EntryFirstLine(k: string, v: Tree, r: string, inner: nat)
    requires OneLine(k) && AtLineEnd(r)
    ensures FirstLine(k + (": " + (Print(v, inner) + ("," + r)))) == k + (": " + Head(v, inner))
  {
    hide Print, Head, FirstLine;
    var t := Print(v, inner) + ("," + r);
    FirstLineConcat(k, ": " + t);
    FirstLineConcat(": ", t);
    HeadIsFirstLine(v, inner, r);
  }

  lemma SamePrefix(a: string, x: string, b: string, y: string)
    requires a + x == b + y && |a| <= |b|
    ensures b[..|a|] == a && b == a + b[|a|..]
  {
    assert (a + x)[..|a|] == a && (b + y)[..|a|] == b[..|a|];
  }

  lemma Peel(k: string, d: string, x: string, y: string)
    requires k + x == (k + d) + y
    ensures x == d + y
  {
    assert (k + x)[|k|..] == x && ((k + d) + y)[|k|..] == d + y;
  }

  lemma OneOff(d: string, one: string, two: string)
    requires |d| == 1
    ensures ": " + one != d + (": " + two)
  {
    assert (": " + one)[1] == ' ' && (d + (": " + two))[1] == ':';
  }

  lemma PeelTwo(d: string, one: string, two: string)
    requires ": " + one == d + (": " + two) && |d| >= 2
    ensures one == d[2..] + ": " + two
  {
    assert (": " + one)[2..] == one && (d + (": " + two))[2..] == d[2..] + (": " + two);
  }

  // ---- values --------------------------------------------------------------------------------

  lemma CompoundStart(value: Tree, indent: nat)
    ensures Print(value, indent) != ""
    ensures value.Arr? <==> Print(value, indent)[0] == '['
    ensures value.Obj? <==> Print(value, indent)[0] == '{'
  {
    hide ItemLines, EntryLines, Join;
    if value.Int? {
      IntTextStart(value.number);
    }
  }

  /** `rest` does not go on with another line at this depth or deeper. */
  predicate Shallower(rest: string, inner: nat) {
    !("\n" + Tabs(inner) <= rest)
  }

  lemma ClosesShallower(close: string, indent: nat, rest: string)
    requires close == "]" || close == "}"
    ensures Shallower(close + rest, indent + 1) && Shallower("\n" + Tabs(indent) + (close + rest), indent + 1)
    ensures Shallower("\n\n" + Tabs(indent) + (close + rest), indent + 1)
  {
    var pad := "\n" + Tabs(indent + 1);
    assert Tabs(indent + 1)[0] in Tabs(indent + 1) && Tabs(indent + 1)[indent] in Tabs(indent + 1);
    assert pad[0] == '\n' && pad[1] == '\t' && pad[indent + 1] == '\t';
    var one, two := "\n" + Tabs(indent) + (close + rest), "\n\n" + Tabs(indent) + (close + rest);
    assert (close + rest)[0] != '\n' && one[indent + 1] == close[0] && two[1] == '\n';
  }

  /** A printed value ends where it must: no text starts with two values. */
  lemma {:induction false} Delimited(a: Tree, x: string, b: Tree, y: string, indent: nat)
    requires OneLineKeys(a) && OneLineKeys(b) && Ends(x) && Ends(y)
    requires Print(a, indent) + x == Print(b, indent) + y
    ensures a == b && x == y
    decreases a, 1
  {
    hide Print, ItemText, EntryText, Tabs, ReadValue, Shallower;
    CompoundStart(a, indent);
    CompoundStart(b, indent);
    assert (Print(a, indent) + x)[0] == Print(a, indent)[0] && (Print(b, indent) + y)[0] == Print(b, indent)[0];
    match a
    case Arr(items) =>
      ArrTail(items, indent, x);
      ArrTail(b.items, indent, y);
      ItemsDelimited(items, ArrClose(items, indent) + ("]" + x),
                     b.items, ArrClose(b.items, indent) + ("]" + y), indent + 1);
      assert items == b.items;
      SameTail(ArrClose(items, indent), "]", x, y);
    case Obj(entries) =>
      ObjTail(entries, indent, x);
      ObjTail(b.entries, indent, y);
      EntriesDelimited(entries, ObjClose(entries, indent) + ("}" + x),
                       b.entries, ObjClose(b.entries, indent) + ("}" + y), indent + 1);
      assert entries == b.entries;
      SameTail(ObjClose(entries, indent), "}", x, y);
    case _ =>
      ReadScalar(a, indent, x);
      ReadScalar(b, indent, y);
  }

  function ArrClose(items: seq<Tree>, indent: nat): string {
    if items == [] then "" else "\n" + Tabs(indent)
  }

  function ObjClose(entries: seq<Entry>, indent: nat): string {
    (if entries == [] then "\n\n" else "\n") + Tabs(indent)
  }

  lemma ArrTail(items: seq<Tree>, indent: nat, x: string)
    ensures var close := ArrClose(items, indent) + ("]" + x);
            && (Print(Arr(items), indent) + x)[1..] == ItemText(items, indent + 1) + close
            && Shallower(close, indent + 1)
  {
    hide ItemText, Tabs, Shallower, Print;
    ArrText(items, indent);
    Bracketed("[", ItemText(items, indent + 1), ArrClose(items, indent), "]", x);
    ClosesShallower("]", indent, x);
    assert "" + ("]" + x) == "]" + x;
  }

  lemma ObjTail(entries: seq<Entry>, indent: nat, x: string)
    ensures var close := ObjClose(entries, indent) + ("}" + x);
            && (Print(Obj(entries), indent) + x)[1..] == EntryText(entries, indent + 1) + close
            && Shallower(close, indent + 1) && AtLineEnd(close)
  {
    hide EntryText, Tabs, Shallower, Print;
    ObjText(entries, indent);
    Bracketed("{", EntryText(entries, indent + 1), ObjClose(entries, indent), "}", x);
    ClosesShallower("}", indent, x);
  }

  lemma SameTail(close: string, end: string, x: string, y: string)
    requires close + (end + x) == close + (end + y)
    ensures x == y
  {
    var n := |close| + |end|;
    assert (close + (end + x))[n..] == x && (close + (end + y))[n..] == y;
  }

  lemma {:induction false} ItemsDelimited(a: seq<Tree>, x: string, b: seq<Tree>, y: string, inner: nat)
    requires forall item <- a :: OneLineKeys(item)
    requires forall item <- b :: OneLineKeys(item)
    requires Shallower(x, inner) && Shallower(y, inner)
    requires ItemText(a, inner) + x == ItemText(b, inner) + y
    ensures a == b && x == y
    decreases a, 0
  {
    hide Print, Tabs, OneLineKeys;
    var pad := "\n" + Tabs(inner);
    if a == [] || b == [] {
      NoItemText(inner);
      if a != [] {
        ItemTextSplits(a, inner, x);
      }
      if b != [] {
        ItemTextSplits(b, inner, y);
      }
      assert "" + x == x && "" + y == y;
    } else {
      hide ItemText, Shallower;
      ItemTextSplits(a, inner, x);
      ItemTextSplits(b, inner, y);
      var more, more' := ItemText(a[1..], inner) + x, ItemText(b[1..], inner) + y;
      Strip(pad, Print(a[0], inner) + ("," + more), Print(b[0], inner) + ("," + more'));
      Delimited(a[0], "," + more, b[0], "," + more', inner);
      Strip(",", more, more');
      ItemsDelimited(a[1..], x, b[1..], y, inner);
      assert a == [a[0]] + a[1..] && b == [b[0]] + b[1..];
    }
  }

  lemma Strip(pad: string, x: string, y: string)
    requires pad + x == pad + y
    ensures x == y
  {
    assert (pad + x)[|pad|..] == x && (pad + y)[|pad|..] == y;
  }

  lemma EntryTextPlus(entries: seq<Entry>, inner: nat, end: string)
    requires entries != []
    ensures EntryText(entries, inner) + end
         == ("\n" + Tabs(inner)) + (entries[0].key + (": " + (Print(entries[0].value, inner)
                                                              + ("," + (EntryText(entries[1..], inner) + end)))))
  {
    hide Print, Tabs, EntryText;
    EntryTextSplits(entries, inner);
    Push("\n" + Tabs(inner), entries[0].key, Print(entries[0].value, inner), EntryText(entries[1..], inner), end);
  }

  lemma EntryTextAtLineEnd(entries: seq<Entry>, inner: nat, end: string)
    requires AtLineEnd(end)
    ensures AtLineEnd(EntryText(entries, inner) + end)
  {
    hide EntryText;
    EntryTextStart(entries, inner);
    assert EntryText(entries, inner) == "" ==> EntryText(entries, inner) + end == end;
  }

  lemma NoEntries(entries: seq<Entry>, inner: nat, end: string)
    requires entries == []
    ensures EntryText(entries, inner) + end == end
  {
  }

  lemma {:induction false} EntriesDelimited(a: seq<Entry>, x: string, b: seq<Entry>, y: string, inner: nat)
    requires forall entry <- a :: OneLine(entry.key) && OneLineKeys(entry.value)
    requires forall entry <- b :: OneLine(entry.key) && OneLineKeys(entry.value)
    requires Shallower(x, inner) && Shallower(y, inner) && AtLineEnd(x) && AtLineEnd(y)
    requires EntryText(a, inner) + x == EntryText(b, inner) + y
    ensures a == b && x == y
    decreases a, 0
  {
    hide Print, Tabs, OneLineKeys, EntryText, OneLine, AtLineEnd;
    if a == [] || b == [] {
      if a == [] {
        NoEntries(a, inner, x);
      } else {
        EntryTextPlus(a, inner, x);
      }
      if b == [] {
        NoEntries(b, inner, y);
      } else {
        EntryTextPlus(b, inner, y);
      }
    } else {
      hide Shallower;
      EntryTextPlus(a, inner, x);
      EntryTextPlus(b, inner, y);
      var more, more' := EntryText(a[1..], inner) + x, EntryText(b[1..], inner) + y;
      EntryTextAtLineEnd(a[1..], inner, x);
      EntryTextAtLineEnd(b[1..], inner, y);
      var one, two := Print(a[0].value, inner) + ("," + more), Print(b[0].value, inner) + ("," + more');
      Strip("\n" + Tabs(inner), a[0].key + (": " + one), b[0].key + (": " + two));
      if |a[0].key| <= |b[0].key| {
        KeyIsDetermined(a[0].key, a[0].value, more, b[0].key, b[0].value, more', inner);
      } else {
        KeyIsDetermined(b[0].key, b[0].value, more', a[0].key, a[0].value, more, inner);
      }
      Strip(a[0].key, ": " + one, ": " + two);
      Strip(": ", one, two);
      Delimited(a[0].value, "," + more, b[0].value, "," + more', inner);
      Strip(",", more, more');
      EntriesDelimited(a[1..], x, b[1..], y, inner);
      assert a == [a[0]] + a[1..] && b == [b[0]] + b[1..];
    }
  }

  /** Different trees print differently, at every indentation, as long as no key has a line end in it. */
  lemma PrinterIsInjective(one: Tree, two: Tree, indent: nat)
    requires OneLineKeys(one) && OneLineKeys(two)
    requires Print(one, indent) == Print(two, indent)
    ensures one == two
  {
    hide Print;
    assert Print(one, indent) + "" == Print(two, indent) + "";
    Delimited(one, "", two, "", indent);
  }
}
