/** PostgreSQL's reading of a uuid, which decides what a tenant scope accepts and whose rows it shows. */
module Uuids {
  import opened Wrappers
  import opened Text
  import opened Tokens

  const UUID_BYTES: nat := 16

  predicate IsHex(c: char) {
    '0' <= c <= '9' || 'a' <= c <= 'f' || 'A' <= c <= 'F'
  }

  /** What follows byte `i`: a hyphen is allowed after every second byte but the last. */
  function After(s: string, i: nat): string
    requires |s| >= 2
  {
    if i % 2 == 1 && i < UUID_BYTES - 1 && |s| > 2 && s[2] == '-' then s[3..] else s[2..]
  }

  /** Bytes `i` and on: two digits of either case each. Yields the digits in lower case, and what follows
      them. */
  function ReadBytes(s: string, i: nat): Option<(string, string)>
    requires i <= UUID_BYTES
    decreases UUID_BYTES - i
  {
    if i == UUID_BYTES then Some(("", s))
    else if |s| < 2 || !IsHex(s[0]) || !IsHex(s[1]) then None
    else
      var rest := ReadBytes(After(s, i), i + 1);
      if rest.None? then None
      else Some(([LowerChar(s[0]), LowerChar(s[1])] + rest.value.0, rest.value.1))
  }

  /** The canonical text, from byte `i` on: lower case, in groups of 8, 4, 4, 4 and 12 digits. */
  function PrintBytes(digits: string, i: nat): string
    decreases digits
  {
    if |digits| < 2 then ""
    else digits[..2] + (if i in {3, 5, 7, 9} then "-" else "") + PrintBytes(digits[2..], i + 1)
  }

  /** `text::uuid`, printed back; None where the cast is an error. */
  function Cast(text: string): Option<string> {
    var braced := text != "" && text[0] == '{';
    var read := ReadBytes(if braced then text[1..] else text, 0);
    if read.Some? && read.value.1 == (if braced then "}" else "") then Some(PrintBytes(read.value.0, 0)) else None
  }

  predicate LowerHex(digits: string) {
    forall c <- digits :: IsHex(c) && LowerChar(c) == c
  }

  /** An id as the database stores and prints it. */
  ghost predicate IsUuid(id: string) {
    exists digits: string :: |digits| == 2 * UUID_BYTES && LowerHex(digits) && id == PrintBytes(digits, 0)
  }

  // ---- laws ----------------------------------------------------------------------------------

  lemma {:induction false} ReadIsHex(s: string, i: nat)
    requires i <= UUID_BYTES && ReadBytes(s, i).Some?
    ensures var (digits, rest) := ReadBytes(s, i).value;
            |digits| == 2 * (UUID_BYTES - i) && LowerHex(digits)
    ensures forall c <- s :: IsHex(c) || c == '-' || c in ReadBytes(s, i).value.1
    decreases UUID_BYTES - i
  {
    if i == UUID_BYTES {
    } else {
      ReadIsHex(After(s, i), i + 1);
      AfterKeeps(s, i);
    }
  }

  lemma AfterKeeps(s: string, i: nat)
    requires |s| >= 2
    ensures forall c <- s :: c == s[0] || c == s[1] || c == '-' || c in After(s, i)
  {
    forall c <- s ensures c == s[0] || c == s[1] || c == '-' || c in After(s, i) {
      assert s == s[..2] + s[2..];
      assert |s| > 2 ==> s[2..] == [s[2]] + s[3..];
    }
  }

  lemma AfterPrinted(digits: string, i: nat)
    requires |digits| >= 2 && LowerHex(digits)
    ensures var text := PrintBytes(digits, i);
            && |text| >= 2 && text[0] == digits[0] && text[1] == digits[1]
            && After(text, i) == PrintBytes(digits[2..], i + 1)
  {
    var text, tail := PrintBytes(digits, i), PrintBytes(digits[2..], i + 1);
    if i in {3, 5, 7, 9} {
      assert text == digits[..2] + "-" + tail;
    } else {
      assert text == digits[..2] + tail && text[2..] == tail;
      assert |tail| > 0 ==> tail[0] == digits[2] && digits[2] in digits;
    }
  }

  lemma ReadOneByte(s: string, i: nat, digits: string, rest: string)
    requires i < UUID_BYTES && |s| >= 2 && IsHex(s[0]) && IsHex(s[1])
    requires ReadBytes(After(s, i), i + 1) == Some((digits, rest))
    ensures ReadBytes(s, i) == Some(([LowerChar(s[0]), LowerChar(s[1])] + digits, rest))
  {
    hide After;
  }

  lemma NoBytesLeft(digits: string)
    requires digits == ""
    ensures PrintBytes(digits, UUID_BYTES) == "" && ReadBytes("", UUID_BYTES) == Some(("", ""))
  {
  }

  lemma {:induction false} ReadPrinted(digits: string, i: nat)
    requires i <= UUID_BYTES && |digits| == 2 * (UUID_BYTES - i) && LowerHex(digits)
    ensures ReadBytes(PrintBytes(digits, i), i) == Some((digits, ""))
    decreases UUID_BYTES - i
  {
    hide PrintBytes, After, ReadBytes, IsHex, LowerChar;
    if i == UUID_BYTES {
      NoBytesLeft(digits);
    } else {
      var text, tail := PrintBytes(digits, i), digits[2..];
      assert digits[0] in digits && digits[1] in digits && forall c <- tail :: c in digits;
      ReadPrinted(tail, i + 1);
      AfterPrinted(digits, i);
      ReadOneByte(text, i, tail, "");
      assert digits == [digits[0], digits[1]] + tail;
    }
  }

  /** The canonical text is read as itself. */
  lemma CastOfUuid(id: string)
    requires IsUuid(id)
    ensures Cast(id) == Some(id)
  {
    var digits :| |digits| == 2 * UUID_BYTES && LowerHex(digits) && id == PrintBytes(digits, 0);
    ReadPrinted(digits, 0);
    assert id[0] == digits[0] && digits[0] in digits;
  }

  lemma UuidStart(id: string)
    requires IsUuid(id)
    ensures id != "" && IsHex(id[0])
  {
    var digits :| |digits| == 2 * UUID_BYTES && LowerHex(digits) && id == PrintBytes(digits, 0);
    assert id[0] == digits[0] && digits[0] in digits;
  }

  /** A text is read, if at all, as some canonical id, and then it has nothing in it but hexadecimal digits,
      hyphens and a pair of braces: in particular no wildcard, dot or space. */
  lemma CastIsTame(text: string)
    requires Cast(text).Some?
    ensures IsUuid(Cast(text).value)
    ensures text != "" && forall c <- text :: IsHex(c) || c == '-' || c == '{' || c == '}'
  {
    hide ReadBytes, PrintBytes, IsHex, LowerHex;
    var braced := text != "" && text[0] == '{';
    var body := if braced then text[1..] else text;
    ReadIsHex(body, 0);
    assert braced ==> text == ['{'] + body;
    NothingIsNoUuid();
  }

  lemma NothingIsNoUuid()
    ensures Cast("").None?
  {
  }

  lemma AfterIgnoresCase(s: string, t: string, i: nat)
    requires Lower(s) == Lower(t) && |s| >= 2
    ensures |t| >= 2 && Lower(After(s, i)) == Lower(After(t, i))
  {
    SameLetters(s, t);
    LowerDrop(s, t, 2);
    if |s| > 2 {
      LowerDrop(s, t, 3);
    }
  }

  lemma {:induction false} ReadIgnoresCase(s: string, t: string, i: nat)
    requires i <= UUID_BYTES && Lower(s) == Lower(t)
    ensures ReadBytes(s, i).Some? <==> ReadBytes(t, i).Some?
    ensures ReadBytes(s, i).Some? ==>
              && ReadBytes(s, i).value.0 == ReadBytes(t, i).value.0
              && Lower(ReadBytes(s, i).value.1) == Lower(ReadBytes(t, i).value.1)
    decreases UUID_BYTES - i
  {
    hide Lower, After;
    SameLetters(s, t);
    if i == UUID_BYTES || |s| < 2 {
    } else {
      AfterIgnoresCase(s, t, i);
      ReadIgnoresCase(After(s, i), After(t, i), i + 1);
    }
  }

  lemma SameLetters(s: string, t: string)
    requires Lower(s) == Lower(t)
    ensures |s| == |t|
    ensures forall i | 0 <= i < |s| :: LowerChar(s[i]) == LowerChar(t[i])
  {
    assert |s| == |Lower(s)| && |t| == |Lower(t)|;
    forall i | 0 <= i < |s| ensures LowerChar(s[i]) == LowerChar(t[i]) {
      assert Lower(s)[i] == LowerChar(s[i]) && Lower(t)[i] == LowerChar(t[i]);
    }
  }

  lemma LowerDrop(s: string, t: string, n: nat)
    requires Lower(s) == Lower(t) && n <= |s|
    ensures n <= |t| && Lower(s[n..]) == Lower(t[n..])
  {
    SameLetters(s, t);
    var a, b := Lower(s[n..]), Lower(t[n..]);
    assert |a| == |b|;
    forall i | 0 <= i < |a| ensures a[i] == b[i] {
      assert a[i] == LowerChar(s[n + i]) && b[i] == LowerChar(t[n + i]);
    }
  }

  /** The cast does not see the case of letters, so an id has as many spellings as its letters allow. */
  lemma CastIgnoresCase(s: string, t: string)
    requires Lower(s) == Lower(t)
    ensures Cast(s) == Cast(t)
  {
    SameLetters(s, t);
    ReadIgnoresCase(s, t, 0);
    if s != "" && s[0] == '{' {
      LowerDrop(s, t, 1);
      ReadIgnoresCase(s[1..], t[1..], 0);
    }
    forall a: string, b: string | Lower(a) == Lower(b) ensures (a == "" <==> b == "") && (a == "}" <==> b == "}") {
      SameLetters(a, b);
    }
  }

  /** A canonical id is a token, and so is any spelling of it without braces. */
  lemma SpellingIsToken(text: string)
    requires Cast(text).Some? && text[0] != '{'
    ensures SubjectToken(text)
  {
    ReadIsHex(text, 0);
  }

  lemma PrintOne(digits: string, i: nat)
    requires |digits| >= 2
    ensures PrintBytes(digits, i)
         == digits[..2] + (if i in {3, 5, 7, 9} then "-" else "") + PrintBytes(digits[2..], i + 1)
  {
  }

  lemma PrintTwo(digits: string, i: nat)
    requires |digits| >= 4 && i % 2 == 0
    ensures PrintBytes(digits, i)
         == digits[..4] + (if i in {2, 4, 6, 8} then "-" else "") + PrintBytes(digits[4..], i + 2)
  {
    hide PrintBytes;
    PrintOne(digits, i);
    PrintOne(digits[2..], i + 1);
    assert digits[2..][2..] == digits[4..] && digits[..2] + digits[2..][..2] == digits[..4];
  }

  lemma FirstGroup(digits: string)
    requires |digits| == 2 * UUID_BYTES
    ensures PrintBytes(digits, 0) == digits[..8] + "-" + PrintBytes(digits[8..], 4)
  {
    hide PrintBytes;
    var a, tail := digits[..4], digits[4..];
    var b, rest := tail[..4], PrintBytes(digits[8..], 4);
    assert PrintBytes(tail, 2) == b + "-" + rest by {
      PrintTwo(tail, 2);
      assert tail[4..] == digits[8..];
    }
    assert PrintBytes(digits, 0) == a + "" + (b + "-" + rest) by {
      PrintTwo(digits, 0);
    }
    assert a + b == digits[..8];
    Closed(a, b, rest);
  }

  lemma Closed(a: string, b: string, rest: string)
    ensures a + "" + (b + "-" + rest) == (a + b) + "-" + rest
  {
    assert a + "" == a;
    assert a + (b + ("-" + rest)) == (a + b) + ("-" + rest);
    assert b + "-" + rest == b + ("-" + rest) && (a + b) + "-" + rest == (a + b) + ("-" + rest);
  }

  lemma LastGroup(digits: string)
    requires |digits| == 12
    ensures PrintBytes(digits, 10) == digits
  {
    hide PrintBytes;
    PrintTwo(digits, 10);
    PrintTwo(digits[4..], 12);
    PrintTwo(digits[8..], 14);
    assert digits[4..][4..] == digits[8..] && digits[8..][4..] == "";
    NoBytesLeft("");
    assert digits == digits[..4] + (digits[4..][..4] + digits[8..][..4]);
  }

  /** The canonical text: groups of 8, 4, 4, 4 and 12 digits. */
  lemma CanonicalGroups(digits: string)
    requires |digits| == 2 * UUID_BYTES
    ensures PrintBytes(digits, 0)
         == digits[..8] + "-" + (digits[8..12] + "-" + (digits[12..16] + "-" + (digits[16..20] + "-" + digits[20..])))
  {
    hide PrintBytes;
    FirstGroup(digits);
    PrintTwo(digits[8..], 4);
    PrintTwo(digits[12..], 6);
    PrintTwo(digits[16..], 8);
    LastGroup(digits[20..]);
    assert digits[8..][..4] == digits[8..12] && digits[8..][4..] == digits[12..];
    assert digits[12..][..4] == digits[12..16] && digits[12..][4..] == digits[16..];
    assert digits[16..][..4] == digits[16..20] && digits[16..][4..] == digits[20..];
  }
}
