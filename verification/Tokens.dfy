/** Subject tokens: what may stand between two dots, and the two normalisations that turn an
    Address of Record and a telephone number into one. */
module Tokens {
  import opened Wrappers
  import opened Text

  // ---- validation ----------------------------------------------------------------------------

  predicate IsTokenByte(c: char) {
    || c == '-'
    || c == '_'
    || '0' <= c <= '9'
    || 'A' <= c <= 'Z'
    || 'a' <= c <= 'z'
  }

  predicate SubjectToken(value: string) {
    value != "" && forall c <- value :: IsTokenByte(c)
  }

  method IsSubjectToken(value: string) returns (ok: bool)
    ensures ok == SubjectToken(value)
  {
    if value == "" {
      return false;
    }
    for i := 0 to |value|
      invariant forall c <- value[..i] :: IsTokenByte(c)
    {
      if !IsTokenByte(value[i]) {
        return false;
      }
    }
    assert value[..|value|] == value;
    return true;
  }

  predicate EventName(value: string) {
    forall part <- Split(value, '.') :: SubjectToken(part)
  }

  method IsEventName(value: string) returns (ok: bool)
    ensures ok == EventName(value)
  {
    if value == "" {
      assert "" in Split(value, '.');
      return false;
    }
    var parts := Split(value, '.');
    for i := 0 to |parts|
      invariant forall part <- parts[..i] :: SubjectToken(part)
    {
      var valid := IsSubjectToken(parts[i]);
      if !valid {
        return false;
      }
    }
    assert parts[..|parts|] == parts;
    return true;
  }

  /** A token is one part of a subject and never a wildcard. */
  lemma TokenIsAtom(value: string)
    requires SubjectToken(value)
    ensures Split(value, '.') == [value]
    ensures value != "*" && value != ">"
    ensures '*' !in value && '>' !in value
  {
    SplitAtom(value, '.');
    assert value[0] in value && IsTokenByte(value[0]);
  }

  /** The parts of an event name hold no wildcard characters, and so neither does the name. */
  lemma EventNameHasNoWildcard(value: string)
    requires EventName(value)
    ensures '*' !in value && '>' !in value
    ensures "*" !in Split(value, '.') && ">" !in Split(value, '.')
  {
    forall part <- Split(value, '.')
      ensures '*' !in part && '>' !in part && part != "*" && part != ">"
    {
      TokenIsAtom(part);
    }
    JoinAvoids(Split(value, '.'), '.', '*');
    JoinAvoids(Split(value, '.'), '.', '>');
    JoinSplit(value, '.');
  }

  lemma {:induction false} JoinAvoids(parts: seq<string>, sep: char, c: char)
    requires c != sep
    requires forall part <- parts :: c !in part
    ensures c !in Join(parts, sep)
  {
    if |parts| <= 1 {
    } else {
      JoinAvoids(parts[1..], sep, c);
    }
  }

  function Token(role: string, value: string): Result<string> {
    if SubjectToken(value) then Ok(value) else Err(TokenError(role, value))
  }

  function Event(value: string): Result<string> {
    if EventName(value) then Ok(value) else Err(TokenError("event", value))
  }

  // ---- telephone numbers ---------------------------------------------------------------------

  function Digits(s: string): (r: string)
    ensures forall c <- r :: IsDigit(c)
  {
    if s == "" then ""
    else if IsDigit(s[0]) then [s[0]] + Digits(s[1..])
    else Digits(s[1..])
  }

  lemma {:induction false} DigitsConcat(a: string, b: string)
    ensures Digits(a + b) == Digits(a) + Digits(b)
  {
    if a == "" {
      assert a + b == b;
    } else {
      assert (a + b)[0] == a[0] && (a + b)[1..] == a[1..] + b;
      assert Digits(a[1..] + b) == Digits(a[1..]) + Digits(b) by {
        DigitsConcat(a[1..], b);
      }
      assert [a[0]] + (Digits(a[1..]) + Digits(b)) == ([a[0]] + Digits(a[1..])) + Digits(b);
    }
  }

  function DidToken(did: string): Result<string> {
    if Digits(did) == "" then Err(TokenError("did", did)) else Ok(Digits(did))
  }

  method DIDIndexToken(did: string) returns (r: Result<string>)
    ensures r == DidToken(did)
  {
    var digits := "";
    for i := 0 to |did|
      invariant digits == Digits(did[..i])
    {
      assert did[..i + 1] == did[..i] + [did[i]];
      DigitsConcat(did[..i], [did[i]]);
      if IsDigit(did[i]) {
        digits := digits + [did[i]];
      }
    }
    assert did[..|did|] == did;
    if |digits| == 0 {
      return Err(TokenError("did", did));
    }
    return Ok(digits);
  }

  /** Punctuation carries no meaning: anything without digits may be inserted anywhere, so the stored
      "+44 1632-960111" and the dialled "441632960111" land on one key. */
  lemma DidTokenIgnoresPunctuation(a: string, noise: string, b: string)
    requires forall c <- noise :: !IsDigit(c)
    ensures Digits(a + noise + b) == Digits(a + b)
    ensures DidToken(a + noise + b).Ok? == DidToken(a + b).Ok?
  {
    DigitsConcat(a + noise, b);
    DigitsConcat(a, noise);
    DigitsConcat(a, b);
    NoDigits(noise);
  }

  lemma {:induction false} NoDigits(s: string)
    requires forall c <- s :: !IsDigit(c)
    ensures Digits(s) == ""
  {
    if s == "" {
    } else {
      NoDigits(s[1..]);
    }
  }

  /** Digits are left as they are, and as long as there are any they pass the key builder's token check. */
  lemma {:induction false} DigitsOfDigits(s: string)
    requires forall c <- s :: IsDigit(c)
    ensures Digits(s) == s
    ensures s != "" ==> SubjectToken(s)
  {
    if s == "" {
    } else {
      DigitsOfDigits(s[1..]);
    }
  }

  // ---- addresses of record -------------------------------------------------------------------

  newtype byte = x: int | 0 <= x < 256

  /** What SHA-256 returns. The hash function itself is a parameter of everything that uses it. */
  type Digest = d: seq<byte> | |d| == 32 witness seq(32, _ => 0)

  type Sha256 = string -> Digest

  const HEX_DIGITS: string := "0123456789abcdef"

  function Hex(bytes: seq<byte>): (r: string)
    ensures |r| == 2 * |bytes|
    ensures forall c <- r :: c in HEX_DIGITS
  {
    if bytes == [] then ""
    else
      var b := bytes[0] as int;
      [HEX_DIGITS[b / 16], HEX_DIGITS[b % 16]] + Hex(bytes[1..])
  }

  function AorToken(sha: Sha256, aor: string): Result<string> {
    var normalized := Lower(Trim(aor));
    if normalized == "" then Err(TokenError("aor", aor))
    else Ok(Hex(sha(normalized))[..32])
  }

  lemma HexDigitInjective(m: int, n: int)
    requires 0 <= m < 16 && 0 <= n < 16
    requires HEX_DIGITS[m] == HEX_DIGITS[n]
    ensures m == n
  {
  }

  lemma {:induction false} HexInjective(a: seq<byte>, b: seq<byte>)
    requires Hex(a) == Hex(b)
    ensures a == b
  {
    assert |a| == |b|;
    if a == [] {
    } else {
      var x, y := a[0] as int, b[0] as int;
      assert Hex(a)[0] == HEX_DIGITS[x / 16] && Hex(b)[0] == HEX_DIGITS[y / 16];
      assert Hex(a)[1] == HEX_DIGITS[x % 16] && Hex(b)[1] == HEX_DIGITS[y % 16];
      HexDigitInjective(x / 16, y / 16);
      HexDigitInjective(x % 16, y % 16);
      assert Hex(a)[2..] == Hex(a[1..]) && Hex(b)[2..] == Hex(b[1..]);
      HexInjective(a[1..], b[1..]);
    }
  }

  lemma {:induction false} HexTake(bytes: seq<byte>, n: nat)
    requires n <= |bytes|
    ensures Hex(bytes)[..2 * n] == Hex(bytes[..n])
  {
    if n == 0 {
    } else {
      HexTake(bytes[1..], n - 1);
      assert bytes[..n][1..] == bytes[1..][..n - 1];
      var head := Hex(bytes)[..2];
      assert Hex(bytes) == head + Hex(bytes[1..]);
      assert Hex(bytes)[..2 * n] == head + Hex(bytes[1..])[..2 * (n - 1)];
    }
  }

  /** The token of an Address of Record: a 32-character subject token that identifies the first 128
      bits of the digest of the trimmed, lower-cased address, and exists unless that is empty. */
  lemma AorTokenIdentifies(sha: Sha256, a: string, b: string)
    ensures AorToken(sha, a).Err? <==> Trim(a) == ""
    ensures AorToken(sha, a).Ok? ==> |AorToken(sha, a).value| == 32 && SubjectToken(AorToken(sha, a).value)
    ensures AorToken(sha, a).Ok? && AorToken(sha, b).Ok? ==>
              (AorToken(sha, a) == AorToken(sha, b)
               <==> sha(Lower(Trim(a)))[..16] == sha(Lower(Trim(b)))[..16])
  {
    var x, y := sha(Lower(Trim(a))), sha(Lower(Trim(b)));
    HexTake(x, 16);
    HexTake(y, 16);
    if Hex(x[..16]) == Hex(y[..16]) {
      HexInjective(x[..16], y[..16]);
    }
    if AorToken(sha, a).Ok? {
      var token := AorToken(sha, a).value;
      assert |token| == 32;
      forall c <- token ensures IsTokenByte(c) {
        assert c in Hex(x);
        assert c in HEX_DIGITS;
        var i :| 0 <= i < |HEX_DIGITS| && HEX_DIGITS[i] == c;
      }
    }
  }

  lemma InUpperCase(c: char)
    ensures c in UPPER_CASE <==> 'A' <= c <= 'Z'
  {
    if 'A' <= c <= 'Z' {
      assert UPPER_CASE[c as int - 'A' as int] == c;
    }
  }

  lemma InLowerCase(c: char)
    ensures c in LOWER_CASE <==> 'a' <= c <= 'z'
  {
    if 'a' <= c <= 'z' {
      assert LOWER_CASE[c as int - 'a' as int] == c;
    }
  }

  lemma InDigits(c: char)
    ensures c in DECIMAL_DIGITS <==> '0' <= c <= '9'
  {
    if '0' <= c <= '9' {
      assert DECIMAL_DIGITS[c as int - '0' as int] == c;
    }
  }

  /** The alphabet of tokens. */
  lemma TokenAlphabet(c: char)
    ensures IsTokenByte(c) <==>
            c in UPPER_CASE || c in LOWER_CASE || c in DECIMAL_DIGITS || c == '_' || c == '-'
  {
    InUpperCase(c);
    InLowerCase(c);
    InDigits(c);
  }

  /** One device, one token: surrounding space and the case of letters do not count. */
  lemma AorTokenIgnoresCaseAndSpace(sha: Sha256, left: string, a: string, b: string, right: string)
    requires forall c <- left :: IsSpace(c)
    requires forall c <- right :: IsSpace(c)
    requires a != "" && !IsSpace(a[0]) && !IsSpace(a[|a| - 1]) && |a| == |b|
    requires forall i | 0 <= i < |a| ::
               b[i] == a[i] || exists k | 0 <= k < 26 :: {a[i], b[i]} == {UPPER_CASE[k], LOWER_CASE[k]}
    ensures AorToken(sha, left + b + right) == AorToken(sha, a)
  {
    AsLetters(a, b);
    hide LowerChar, IsSpace;
    TrimDrops(left, b, right);
    TrimDrops("", a, "");
    assert "" + a + "" == a;
    hide Trim;
    SameLower(a, b);
  }

  lemma AsLetters(a: string, b: string)
    requires |a| == |b|
    requires forall i | 0 <= i < |a| ::
               b[i] == a[i] || exists k | 0 <= k < 26 :: {a[i], b[i]} == {UPPER_CASE[k], LOWER_CASE[k]}
    ensures forall i | 0 <= i < |a| :: LowerChar(b[i]) == LowerChar(a[i]) && (IsSpace(b[i]) <==> IsSpace(a[i]))
  {
    hide LowerChar, IsSpace;
    forall i | 0 <= i < |a| ensures LowerChar(b[i]) == LowerChar(a[i]) && (IsSpace(b[i]) <==> IsSpace(a[i])) {
      SameLetter(a[i], b[i]);
    }
  }

  lemma SameLower(a: string, b: string)
    requires |a| == |b| && forall i | 0 <= i < |a| :: LowerChar(b[i]) == LowerChar(a[i])
    ensures Lower(a) == Lower(b)
  {
    hide LowerChar;
    forall i | 0 <= i < |a| ensures Lower(a)[i] == Lower(b)[i] {
    }
  }

  lemma SameLetter(a: char, b: char)
    requires b == a || exists k | 0 <= k < 26 :: {a, b} == {UPPER_CASE[k], LOWER_CASE[k]}
    ensures LowerChar(a) == LowerChar(b) && (IsSpace(a) <==> IsSpace(b))
  {
    if a != b {
      var k :| 0 <= k < 26 && {a, b} == {UPPER_CASE[k], LOWER_CASE[k]};
      assert a in {a, b} && b in {a, b} && UPPER_CASE[k] in {a, b} && LOWER_CASE[k] in {a, b};
      LettersAreNoSpace(k);
    }
  }

  lemma LettersAreNoSpace(k: int)
    requires 0 <= k < 26
    ensures !IsSpace(UPPER_CASE[k]) && !IsSpace(LOWER_CASE[k])
    ensures LowerChar(UPPER_CASE[k]) == LOWER_CASE[k] && LowerChar(LOWER_CASE[k]) == LOWER_CASE[k]
  {
  }
}
