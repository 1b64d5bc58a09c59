/** The JetStream streams of the backbone and the keys of its KV buckets. */
module Streams {
  import opened Wrappers
  import opened Text
  import opened Tokens
  import opened Matching
  import opened Subjects
  import opened SubjectLaws

  // ---- streams partition the taxonomy --------------------------------------------------------

  datatype StreamDefinition = StreamDefinition(name: string, subjects: seq<string>)

  /** The families in contract order, which is also the order the streams are applied in. */
  const FAMILIES: seq<Family> := [Call, Registration, Queue, Voicemail, Media, Cdr, Audit, Provision]

  const STREAM_NAMES: seq<string> :=
    ["CALLS", "REGISTRATIONS", "QUEUES", "VOICEMAIL", "MEDIA", "CDR", "AUDIT", "PROVISION"]

  function EventStream(i: nat): StreamDefinition
    requires i < 8
  {
    StreamDefinition(STREAM_NAMES[i], [AllFilter(FAMILIES[i])])
  }

  predicate Captures(stream: StreamDefinition, subject: string) {
    exists filter <- stream.subjects :: Matches(filter, subject)
  }

  lemma CapturesFamily(i: nat, subject: string)
    requires i < 8
    ensures Captures(EventStream(i), subject) <==> Matches(AllFilter(FAMILIES[i]), subject)
  {
    assert EventStream(i).subjects[0] == AllFilter(FAMILIES[i]);
  }

  lemma FamiliesDistinct(i: nat, j: nat)
    requires i < 8 && j < 8 && FAMILIES[i] == FAMILIES[j]
    ensures i == j
  {
  }

  /** No string at all, published or not, is stored by two streams. */
  lemma StreamsDisjoint(i: nat, j: nat, subject: string)
    requires i < 8 && j < 8
    requires Captures(EventStream(i), subject) && Captures(EventStream(j), subject)
    ensures i == j
  {
    CapturesFamily(i, subject);
    CapturesFamily(j, subject);
    FiltersDisjoint(FAMILIES[i], FAMILIES[j], subject);
    FamiliesDistinct(i, j);
  }

  lemma FiltersDisjoint(f: Family, g: Family, subject: string)
    requires Matches(AllFilter(f), subject) && Matches(AllFilter(g), subject)
    ensures f == g
  {
    AllFilterSelects(f, subject);
    AllFilterSelects(g, subject);
    assert Domain(f) == Split(subject, '.')[0] == Domain(g);
    DomainsDiffer(f, g);
  }

  /** A stored subject is attributed to its stream's family exactly when it has no wildcard and, in an
      entity family, at least an organization, an entity and an event. */
  lemma CapturedSubjectParses(i: nat, subject: string)
    requires i < 8
    requires Captures(EventStream(i), subject)
    ensures EventFamilyForSubject(subject) == Some(FAMILIES[i]) <==>
            !HasWildcard(subject) && (PerEntity(FAMILIES[i]) ==> |Split(subject, '.')| >= 6)
  {
    var f, tokens := FAMILIES[i], Split(subject, '.');
    CapturesFamily(i, subject);
    AllFilterSelects(f, subject);
    if EventFamilyForSubject(subject) == Some(f) {
      ParsedLayout(subject, ParseSubject(subject).value);
    }
    if !HasWildcard(subject) && (PerEntity(f) ==> |tokens| >= 6) {
      RootedSubjectParses(f, subject);
    }
  }

  lemma RootedSubjectParses(f: Family, subject: string)
    requires !HasWildcard(subject)
    requires RootTokens(f) <= Split(subject, '.')
    requires if PerEntity(f) then |Split(subject, '.')| >= 6 else |Split(subject, '.')| == 4
    ensures EventFamilyForSubject(subject) == Some(f)
  {
    hide HasWildcard, ParseSubject;
    var tokens := Split(subject, '.');
    PartsArePlain(subject);
    var rest := tokens[3..];
    assert forall part <- rest :: part in tokens;
    assert tokens == RootTokens(f) + rest;
    if PerEntity(f) {
      EventTail(rest);
      var p := EntityEvent(f, rest[0], rest[1], Join(rest[2..], '.'));
      assert Layout(p) == RootTokens(f) + ([rest[0], rest[1]] + Split(p.event, '.'));
      LayoutParsed(subject, p);
    } else {
      assert rest == [rest[0]];
      LayoutParsed(subject, OrgEvent(f, rest[0]));
    }
  }

  /** Every event subject is stored by the stream of its family and by no other; an rpc subject by none. */
  lemma ParsedSubjectIsCaptured(i: nat, subject: string)
    requires i < 8
    requires ParseSubject(subject).Some?
    ensures Captures(EventStream(i), subject) <==> EventFamilyForSubject(subject) == Some(FAMILIES[i])
  {
    var p := ParseSubject(subject).value;
    CapturesFamily(i, subject);
    AllFilterSelects(FAMILIES[i], subject);
    ParsedLayout(subject, p);
    RootLeads(FAMILIES[i], p);
  }

  /** Every family has its stream. */
  lemma EveryFamilyHasItsStream(f: Family)
    ensures exists i: nat :: i < 8 && FAMILIES[i] == f
  {
    assert FAMILIES[0] == Call && FAMILIES[1] == Registration && FAMILIES[2] == Queue && FAMILIES[3] == Voicemail;
    assert FAMILIES[4] == Media && FAMILIES[5] == Cdr && FAMILIES[6] == Audit && FAMILIES[7] == Provision;
  }

  // ---- KV keys -------------------------------------------------------------------------------

  /** `registrations`, `presence`, `agent-state` and `queue-membership`: `<orgId>.<value>`. */
  function OrgKey(orgId: string, role: string, value: string): Result<string> {
    var org :- Token("orgId", orgId);
    var token :- Token(role, value);
    Ok(org + "." + token)
  }

  /** `channels`: `<orgId>.<callId>.<legId>`. */
  function ChannelKey(orgId: string, callId: string, legId: string): Result<string> {
    var org :- Token("orgId", orgId);
    var call :- Token("callId", callId);
    var leg :- Token("legId", legId);
    Ok(org + "." + call + "." + leg)
  }

  /** `routing-cache`: `<orgId>.<artifact>[.<discriminator>]`. */
  function RoutingCacheKey(orgId: string, artifact: string, discriminator: seq<string>): Result<string> {
    if |discriminator| > 1 then Err(TokenError("discriminator", "at most one is allowed"))
    else
      var org :- Token("orgId", orgId);
      var name :- Token("artifact", artifact);
      if discriminator == [] then Ok(org + "." + name)
      else
        var suffix :- Token("discriminator", discriminator[0]);
        Ok(org + "." + name + "." + suffix)
  }

  /** `did-index`: the digits of the number, and nothing else. */
  function DidIndexKey(did: string): Result<string> {
    var normalized :- DidToken(did);
    Token("did", normalized)
  }

  lemma OrgKeyTokens(orgId: string, role: string, value: string)
    requires OrgKey(orgId, role, value).Ok?
    ensures Split(OrgKey(orgId, role, value).value, '.') == [orgId, value]
  {
    TokenIsAtom(orgId);
    TokenIsAtom(value);
    SplitSnoc(orgId, value);
  }

  lemma ChannelKeyTokens(orgId: string, callId: string, legId: string)
    requires ChannelKey(orgId, callId, legId).Ok?
    ensures Split(ChannelKey(orgId, callId, legId).value, '.') == [orgId, callId, legId]
  {
    SplitThree(orgId, callId, legId);
  }

  lemma RoutingCacheKeyTokens(orgId: string, artifact: string, discriminator: seq<string>)
    requires RoutingCacheKey(orgId, artifact, discriminator).Ok?
    ensures Split(RoutingCacheKey(orgId, artifact, discriminator).value, '.') == [orgId, artifact] + discriminator
  {
    if discriminator == [] {
      OrgKeyTokens(orgId, "artifact", artifact);
    } else {
      SplitThree(orgId, artifact, discriminator[0]);
      assert discriminator == [discriminator[0]];
    }
  }

  lemma OrgKeyInjective(orgId: string, role: string, value: string, orgId': string, role': string, value': string)
    requires OrgKey(orgId, role, value).Ok?
    requires OrgKey(orgId, role, value) == OrgKey(orgId', role', value')
    ensures orgId == orgId' && value == value'
  {
    OrgKeyTokens(orgId, role, value);
    OrgKeyTokens(orgId', role', value');
    assert [orgId, value][0] == [orgId', value'][0] && [orgId, value][1] == [orgId', value'][1];
  }

  lemma ChannelKeyInjective(o: string, c: string, l: string, o': string, c': string, l': string)
    requires ChannelKey(o, c, l).Ok? && ChannelKey(o, c, l) == ChannelKey(o', c', l')
    ensures o == o' && c == c' && l == l'
  {
    ChannelKeyTokens(o, c, l);
    ChannelKeyTokens(o', c', l');
    var left, right := [o, c, l], [o', c', l'];
    assert left[0] == right[0] && left[1] == right[1] && left[2] == right[2];
  }

  /** In particular a key with a discriminator is never a key without one. */
  lemma RoutingCacheKeyInjective(o: string, a: string, d: seq<string>, o': string, a': string, d': seq<string>)
    requires RoutingCacheKey(o, a, d).Ok? && RoutingCacheKey(o, a, d) == RoutingCacheKey(o', a', d')
    ensures o == o' && a == a' && d == d'
  {
    RoutingCacheKeyTokens(o, a, d);
    RoutingCacheKeyTokens(o', a', d');
    var left, right := [o, a] + d, [o', a'] + d';
    assert left[0] == right[0] && left[1] == right[1] && left[2..] == right[2..];
    assert left[2..] == d && right[2..] == d';
  }

  /** A number has a key exactly when it has a digit, and two numbers share one exactly when they have
      the same digits in the same order. A key is its own key. */
  lemma DidIndexKeyIsDigits(a: string, b: string)
    ensures DidIndexKey(a).Ok? <==> Digits(a) != ""
    ensures DidIndexKey(a).Ok? ==> DidIndexKey(a).value == Digits(a)
    ensures DidIndexKey(a).Ok? && DidIndexKey(b).Ok? ==> (DidIndexKey(a) == DidIndexKey(b) <==> Digits(a) == Digits(b))
    ensures DidIndexKey(a).Ok? ==> DidIndexKey(DidIndexKey(a).value) == DidIndexKey(a)
  {
    DigitsOfDigits(Digits(a));
    DigitsOfDigits(Digits(b));
  }

  /** The range read `<org>.*` selects exactly the two-token keys of that organization. */
  lemma OrgRangeSelects(org: string, key: string)
    requires SubjectToken(org)
    ensures Matches(org + ".*", key) <==> |Split(key, '.')| == 2 && Split(key, '.')[0] == org
  {
    TokenIsAtom(org);
    SplitSnoc(org, "*");
    assert org + ".*" == org + "." + "*";
    var tokens := Split(key, '.');
    MatchAfterLiterals([org], ["*"], tokens);
    MatchStar([], tokens[1..]);
    assert ["*"] + [] == ["*"];
  }

  lemma TwoTokenRange(parts: seq<string>, orgId: string, value: string)
    requires |parts| >= 1 && orgId != ">"
    ensures TokensMatch(parts + ["*"], [orgId, value]) <==> parts == ["*"] || parts == [orgId]
  {
    var filter, key := parts + ["*"], [orgId, value];
    MatchIsAgreement(filter, key);
    assert filter[..|filter| - 1] == parts;
    if ">" !in filter && |filter| == |key| {
      assert filter[0] == parts[0] && filter[1] == "*";
    }
  }

  /** The range read of an arbitrary string takes another tenant's `<orgId>.<value>` key in one case
      only: when the string is the wildcard itself. */
  lemma AnyRangeOnOrgKey(range: string, orgId: string, role: string, value: string)
    requires OrgKey(orgId, role, value).Ok?
    ensures Matches(range + ".*", OrgKey(orgId, role, value).value) <==> range == "*" || range == orgId
  {
    OrgKeyTokens(orgId, role, value);
    TokenIsAtom(orgId);
    SplitAtom("*", '.');
    SplitSnoc(range, "*");
    assert range + ".*" == range + "." + "*";
    TwoTokenRange(Split(range, '.'), orgId, value);
    if Split(range, '.') == ["*"] {
      SplitInjective(range, "*", '.');
    }
    if Split(range, '.') == [orgId] {
      SplitInjective(range, orgId, '.');
    }
  }

  /** The range read `<org>.<name>.*` selects exactly the three-token keys under those two: one call's
      legs, or one artifact's discriminated entries but not the undiscriminated one. */
  lemma PairRangeSelects(org: string, name: string, key: string)
    requires SubjectToken(org) && SubjectToken(name)
    ensures Matches(org + "." + name + ".*", key) <==>
            |Split(key, '.')| == 3 && Split(key, '.')[0] == org && Split(key, '.')[1] == name
  {
    TokenIsAtom(org);
    TokenIsAtom(name);
    SplitSnoc(org, name);
    SplitSnoc(org + "." + name, "*");
    assert org + "." + name + ".*" == org + "." + name + "." + "*";
    var tokens := Split(key, '.');
    assert [org] + [name] + ["*"] == [org, name] + ["*"];
    MatchAfterLiterals([org, name], ["*"], tokens);
    if |tokens| >= 2 {
      MatchStar([], tokens[2..]);
      assert ["*"] + [] == ["*"];
      assert [org, name] <= tokens <==> tokens[0] == org && tokens[1] == name;
    }
  }

  /** Keys are built from valid arguments only, and from all of them. */
  lemma KeysNeedTokens(a: string, role: string, b: string, c: string, more: seq<string>)
    ensures OrgKey(a, role, b).Ok? <==> SubjectToken(a) && SubjectToken(b)
    ensures ChannelKey(a, b, c).Ok? <==> SubjectToken(a) && SubjectToken(b) && SubjectToken(c)
    ensures RoutingCacheKey(a, b, more).Ok? <==>
            SubjectToken(a) && SubjectToken(b) && |more| <= 1 && forall part <- more :: SubjectToken(part)
  {
    assert |more| == 1 ==> more == [more[0]];
  }

  /** The streams and their subjects, as they are declared. */
  lemma StreamsAsDeclared()
    ensures EventStream(0) == StreamDefinition("CALLS", ["calls.evt.v1.>"])
    ensures EventStream(1) == StreamDefinition("REGISTRATIONS", ["sip.reg.v1.>"])
    ensures EventStream(2) == StreamDefinition("QUEUES", ["queue.evt.v1.>"])
    ensures EventStream(3) == StreamDefinition("VOICEMAIL", ["voicemail.evt.v1.>"])
    ensures EventStream(4) == StreamDefinition("MEDIA", ["media.evt.v1.>"])
    ensures EventStream(5) == StreamDefinition("CDR", ["cdr.leg.v1.*"])
    ensures EventStream(6) == StreamDefinition("AUDIT", ["audit.evt.v1.*"])
    ensures EventStream(7) == StreamDefinition("PROVISION", ["provision.evt.v1.*"])
  {
    FiltersOnTheWire();
    hide AllFilter;
  }

  lemma FiltersOnTheWire()
    ensures AllFilter(Call) == "calls.evt.v1.>" && AllFilter(Registration) == "sip.reg.v1.>"
    ensures AllFilter(Queue) == "queue.evt.v1.>" && AllFilter(Voicemail) == "voicemail.evt.v1.>"
    ensures AllFilter(Media) == "media.evt.v1.>" && AllFilter(Cdr) == "cdr.leg.v1.*"
    ensures AllFilter(Audit) == "audit.evt.v1.*" && AllFilter(Provision) == "provision.evt.v1.*"
  {
    RootsOnTheWire();
    hide Root;
    assert "calls.evt.v1" + ".>" == "calls.evt.v1.>" && "sip.reg.v1" + ".>" == "sip.reg.v1.>";
    assert "queue.evt.v1" + ".>" == "queue.evt.v1.>" && "voicemail.evt.v1" + ".>" == "voicemail.evt.v1.>";
    assert "media.evt.v1" + ".>" == "media.evt.v1.>" && "cdr.leg.v1" + ".*" == "cdr.leg.v1.*";
    assert "audit.evt.v1" + ".*" == "audit.evt.v1.*" && "provision.evt.v1" + ".*" == "provision.evt.v1.*";
  }
}
