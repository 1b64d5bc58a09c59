/** The key a park claim lives under: one per orbit. */
module ParkKeys {
  import opened Wrappers
  import opened Text
  import opened Tokens
  import opened Subjects

  /** `park-claims`: `<orgId>.<parkLotId>.<slot>`. */
  function ParkClaimKey(orgId: string, parkLotId: string, slot: int): Result<string> {
    var org :- Token("orgId", orgId);
    var lot :- Token("parkLotId", parkLotId);
    var number :- Token("slot", IntText(slot));
    Ok(org + "." + lot + "." + number)
  }

  /** Two orbits never share a key, so what happens on one says nothing about another; and every orbit of a
      well-named lot has one. */
  lemma ParkClaimKeyIdentifies(o: string, l: string, n: int, o': string, l': string, n': int)
    ensures ParkClaimKey(o, l, n).Ok? <==> SubjectToken(o) && SubjectToken(l)
    ensures ParkClaimKey(o, l, n).Ok? && ParkClaimKey(o, l, n) == ParkClaimKey(o', l', n')
            ==> o == o' && l == l' && n == n'
  {
    IntTextIsToken(n);
    if ParkClaimKey(o, l, n).Ok? && ParkClaimKey(o, l, n) == ParkClaimKey(o', l', n') {
      IntTextIsToken(n');
      SplitThree(o, l, IntText(n));
      SplitThree(o', l', IntText(n'));
      var left, right := [o, l, IntText(n)], [o', l', IntText(n')];
      assert left[0] == right[0] && left[1] == right[1] && left[2] == right[2];
      IntTextInjective(n, n');
    }
  }

  lemma IntTextIsToken(n: int)
    ensures SubjectToken(IntText(n))
  {
    var digits := Decimal(if n < 0 then -n else n);
    assert forall c <- digits :: IsTokenByte(c);
  }
}
