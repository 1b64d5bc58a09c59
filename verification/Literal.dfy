/** The printer that mirrors the permission registry into TypeScript source, and a reader of the
    notation it prints: JSON scalars, unquoted keys, a comma after every item. */
module Literal {
  import opened Text
  import opened Tokens

  /** The values the printer is used on: JSON-like trees whose numbers are integers. Entries are in
      property order. */
  datatype Tree =
    | Null
    | Bool(bit: bool)
    | Int(number: int)
    | Str(text: string)
    | Arr(items: seq<Tree>)
    | Obj(entries: seq<Entry>)

  datatype Entry = Entry(key: string, value: Tree)

  // ---- scalars -------------------------------------------------------------------------------

  const BACKSPACE: char := 8 as char
  const FORM_FEED: char := 12 as char

  /** `JSON.stringify` escapes the quote, the backslash and the C0 controls, and nothing else. */
  function Escape(c: char): string {
    if c == '\"' then "\\\""
    else if c == '\\' then "\\\\"
    else if c == BACKSPACE then "\\b"
    else if c == FORM_FEED then "\\f"
    else if c == '\n' then "\\n"
    else if c == '\r' then "\\r"
    else if c == '\t' then "\\t"
    else if c < ' ' then "\\u00" + [HEX_DIGITS[c as int / 16], HEX_DIGITS[c as int % 16]]
    else [c]
  }

  function EscapeAll(s: string): string {
    if s == "" then "" else Escape(s[0]) + EscapeAll(s[1..])
  }

  function Quote(s: string): string {
    "\"" + EscapeAll(s) + "\""
  }

  // ---- the printer ---------------------------------------------------------------------------

  function Tabs(n: nat): (r: string)
    ensures |r| == n && forall c <- r :: c == '\t'
  {
    if n == 0 then "" else "\t" + Tabs(n - 1)
  }

  function Print(value: Tree, indent: nat): string
    decreases value, 1
  {
    match value
    case Null => "null"
    case Bool(bit) => if bit then "true" else "false"
    case Int(number) => IntText(number)
    case Str(text) => Quote(text)
    case Arr(items) =>
      if items == [] then "[]"
      else "[\n" + Join(ItemLines(items, indent + 1), '\n') + "\n" + Tabs(indent) + "]"
    case Obj(entries) =>
      "{\n" + Join(EntryLines(entries, indent + 1), '\n') + "\n" + Tabs(indent) + "}"
  }

  function ItemLines(items: seq<Tree>, inner: nat): (lines: seq<string>)
    ensures |lines| == |items|
    decreases items, 0
  {
    if items == [] then []
    else [Tabs(inner) + Print(items[0], inner) + ","] + ItemLines(items[1..], inner)
  }

  function EntryLines(entries: seq<Entry>, inner: nat): (lines: seq<string>)
    ensures |lines| == |entries|
    decreases entries, 0
  {
    if entries == [] then []
    else
      [Tabs(inner) + entries[0].key + ": " + Print(entries[0].value, inner) + ","] + EntryLines(entries[1..], inner)
  }

  // ---- the reader ----------------------------------------------------------------------------

  predicate IsBlank(c: char) {
    c == ' ' || c == '\t' || c == '\n'
  }

  predicate IdentStart(c: char) {
    'a' <= c <= 'z' || 'A' <= c <= 'Z' || c == '_' || c == '$'
  }

  predicate IdentPart(c: char) {
    IdentStart(c) || IsDigit(c)
  }

  predicate Identifier(s: string) {
    s != "" && IdentStart(s[0]) && forall c <- s :: IdentPart(c)
  }

  predicate KeyPart(c: char) {
    c != ':' && c != '\n'
  }

  /** A key on one line, without a colon, that does not start like blank space or a closing brace. */
  predicate PlainKey(s: string) {
    (s != "" ==> !IsBlank(s[0]) && s[0] != '}') && forall c <- s :: KeyPart(c)
  }

  /** Every key, at every depth, is plain. */
  predicate PlainKeys(value: Tree) {
    match value
    case Arr(items) => forall item <- items :: PlainKeys(item)
    case Obj(entries) => forall entry <- entries :: PlainKey(entry.key) && PlainKeys(entry.value)
    case _ => true
  }

  datatype Read<+T> = Fail | Got(value: T, rest: string)

  function Skip(s: string): (r: string)
    ensures |r| <= |s|
    ensures r != "" ==> !IsBlank(r[0])
  {
    if s != "" && IsBlank(s[0]) then Skip(s[1..]) else s
  }

  /** The longest run of characters satisfying `p`. */
  function Span(s: string, p: char -> bool): (n: nat)
    ensures n <= |s|
    ensures forall c <- s[..n] :: p(c)
  {
    if s != "" && p(s[0]) then
      var n := 1 + Span(s[1..], p);
      assert s[..n] == [s[0]] + s[1..][..n - 1];
      n
    else 0
  }

  function ReadNat(s: string): (r: Read<int>)
    ensures r.Got? ==> |r.rest| < |s|
  {
    var n := Span(s, IsDigit);
    if n == 0 then Fail else Got(NatOf(s[..n]), s[n..])
  }

  function ReadInt(s: string): (r: Read<int>)
    ensures r.Got? ==> |r.rest| < |s|
  {
    if s != "" && s[0] == '-' then
      match ReadNat(s[1..])
      case Fail => Fail
      case Got(n, rest) => Got(-n, rest)
    else ReadNat(s)
  }

  function HexValue(c: char): int {
    if IsDigit(c) then c as int - '0' as int
    else if 'a' <= c <= 'f' then c as int - 'a' as int + 10
    else -1
  }

  /** The character an escape stands for, and how many characters the escape takes. */
  function ReadEscape(s: string): (r: Read<char>)
    requires s != "" && s[0] == '\\'
    ensures r.Got? ==> |r.rest| < |s|
  {
    if |s| < 2 then Fail
    else if s[1] == '\"' then Got('\"', s[2..])
    else if s[1] == '\\' then Got('\\', s[2..])
    else if s[1] == 'b' then Got(BACKSPACE, s[2..])
    else if s[1] == 'f' then Got(FORM_FEED, s[2..])
    else if s[1] == 'n' then Got('\n', s[2..])
    else if s[1] == 'r' then Got('\r', s[2..])
    else if s[1] == 't' then Got('\t', s[2..])
    else if s[1] == 'u' && |s| >= 6 && s[2] == '0' && s[3] == '0' && HexValue(s[4]) >= 0 && HexValue(s[5]) >= 0 then
      Got((HexValue(s[4]) * 16 + HexValue(s[5])) as char, s[6..])
    else Fail
  }

  /** The rest of a string literal, after its opening quote. */
  function ReadText(s: string): (r: Read<string>)
    ensures r.Got? ==> |r.rest| < |s|
  {
    if s == "" then Fail
    else if s[0] == '\"' then Got("", s[1..])
    else
      var head := if s[0] == '\\' then ReadEscape(s) else Got(s[0], s[1..]);
      if head.Fail? then Fail
      else match ReadText(head.rest)
        case Fail => Fail
        case Got(tail, rest) => Got([head.value] + tail, rest)
  }

  function ReadValue(input: string): (r: Read<Tree>)
    ensures r.Got? ==> |r.rest| < |input| && PlainKeys(r.value)
    decreases |input|, 0
  {
    var s := Skip(input);
    if s == "" then Fail
    else if s[0] == '[' then
      match ReadItems(s[1..])
      case Fail => Fail
      case Got(items, rest) => Got(Arr(items), rest)
    else if s[0] == '{' then
      match ReadEntries(s[1..])
      case Fail => Fail
      case Got(entries, rest) => Got(Obj(entries), rest)
    else if s[0] == '\"' then
      match ReadText(s[1..])
      case Fail => Fail
      case Got(text, rest) => Got(Str(text), rest)
    else if IdentStart(s[0]) then
      var n := Span(s, IdentPart);
      if s[..n] == "null" then Got(Null, s[n..])
      else if s[..n] == "true" then Got(Bool(true), s[n..])
      else if s[..n] == "false" then Got(Bool(false), s[n..])
      else Fail
    else
      match ReadInt(s)
      case Fail => Fail
      case Got(number, rest) => Got(Int(number), rest)
  }

  function ReadItems(input: string): (r: Read<seq<Tree>>)
    ensures r.Got? ==> |r.rest| < |input| && forall item <- r.value :: PlainKeys(item)
    decreases |input|, 1
  {
    var s := Skip(input);
    if s == "" then Fail
    else if s[0] == ']' then Got([], s[1..])
    else
      var head := ReadValue(s);
      if head.Fail? then Fail
      else
        var more := Skip(head.rest);
        if more == "" || more[0] != ',' then Fail
        else match ReadItems(more[1..])
          case Fail => Fail
          case Got(tail, rest) => Got([head.value] + tail, rest)
  }

  function ReadEntries(input: string): (r: Read<seq<Entry>>)
    ensures r.Got? ==>
              |r.rest| < |input| && forall entry <- r.value :: PlainKey(entry.key) && PlainKeys(entry.value)
    decreases |input|, 1
  {
    var s := Skip(input);
    if s == "" then Fail
    else if s[0] == '}' then Got([], s[1..])
    else
      var n := Span(s, KeyPart);
      var key, after := s[..n], s[n..];
      if after == "" || after[0] != ':' then Fail
      else
        var head := ReadValue(after[1..]);
        if head.Fail? then Fail
        else
          var more := Skip(head.rest);
          if more == "" || more[0] != ',' then Fail
          else match ReadEntries(more[1..])
            case Fail => Fail
            case Got(tail, rest) => Got([Entry(key, head.value)] + tail, rest)
  }

  /** Reads a whole text. */
  function Parse(s: string): Read<Tree> {
    match ReadValue(s)
    case Fail => Fail
    case Got(value, rest) => if Skip(rest) == "" then Got(value, "") else Fail
  }
}
