/** The event envelope, the check a consumer makes of it, and the registration event constructors.

    Instants are nanoseconds since Go's zero time. A fresh event id and the current time, which the
    source takes from its environment, are parameters. */
module Envelopes {
  import opened Wrappers
  import opened Text
  import opened Tokens
  import opened Matching
  import opened Subjects
  import opened SubjectLaws
  import opened Streams

  const NANOS_PER_MILLI: int := 1_000_000

  /** Rounds an instant down to the millisecond, as `NewEventTime` does. */
  function ToMillis(nanos: int): (r: int)
    ensures r % NANOS_PER_MILLI == 0 && r <= nanos < r + NANOS_PER_MILLI
  {
    nanos - nanos % NANOS_PER_MILLI
  }

  datatype Envelope<+T> = Envelope(
    id: string, at: int, orgId: string, subject: string, eventType: string, source: string,
    traceId: string, correlationId: string, data: T)

  datatype EnvelopeInput<+T> = EnvelopeInput(
    orgId: string, subject: string, source: string, data: T, id: string, at: int,
    traceId: string, correlationId: string)

  /** Supplied ids and instants are kept, so a retry is idempotent; missing ones are filled in. */
  method NewEnvelope<T>(eventType: string, input: EnvelopeInput<T>, freshId: string, now: int)
    returns (envelope: Envelope<T>)
    ensures envelope.id == (if input.id == "" then freshId else input.id)
    ensures envelope.at == ToMillis(if input.at == 0 then now else input.at)
    ensures envelope.eventType == eventType
    ensures envelope.orgId == input.orgId && envelope.subject == input.subject && envelope.source == input.source
    ensures envelope.traceId == input.traceId && envelope.correlationId == input.correlationId
    ensures envelope.data == input.data
  {
    var id := input.id;
    if id == "" {
      id := freshId;
    }
    var at := input.at;
    if at == 0 {
      at := now;
    }
    envelope := Envelope(id, ToMillis(at), input.orgId, input.subject, eventType, input.source,
                         input.traceId, input.correlationId, input.data);
  }

  // ---- the tenancy check ---------------------------------------------------------------------

  datatype Verdict = Accepted | WrongSubject | WrongOrg

  function CheckSubject<T>(subject: string, envelope: Envelope<T>): Verdict {
    if envelope.subject != subject then WrongSubject
    else
      var parsed := ParseSubject(subject);
      if parsed.Some? && !parsed.value.Rpc? && parsed.value.orgId != envelope.orgId then WrongOrg
      else Accepted
  }

  /** A consumer of one organization's filter that checks what it is delivered never files another
      organization's event, whatever the family, as long as the subject parses. */
  lemma CheckedEventIsTheTenants<T>(f: Family, org: string, subject: string, envelope: Envelope<T>)
    requires SubjectToken(org)
    requires InOrgFilter(f, org).Ok? && Matches(InOrgFilter(f, org).value, subject)
    requires ParseSubject(subject).Some?
    ensures CheckSubject(subject, envelope) == Accepted ==> envelope.orgId == org && envelope.subject == subject
  {
    InOrgFilterSelects(f, org, subject, ParseSubject(subject).value);
  }

  /** On a subject a builder made, of whatever family, the check accepts exactly the envelopes of that subject and
      that organization. */
  lemma CheckOfBuiltSubject<T>(p: ParsedSubject, envelope: Envelope<T>)
    requires FitsFamily(p) && Build(p).Ok?
    ensures !p.Rpc?
    ensures CheckSubject(Build(p).value, envelope) == Accepted <==>
            envelope.subject == Build(p).value && envelope.orgId == p.orgId
    ensures CheckSubject(Build(p).value, envelope) == WrongSubject <==> envelope.subject != Build(p).value
  {
    BuiltSubjectParses(p);
  }

  /** The proviso is exact: on a subject the filter delivers, the check pins the organization exactly
      when the subject is wildcard-free and, in an entity family, at least six tokens long. On a shorter
      one, such as an organization and an entity with no event, it accepts every organization. */
  lemma TenancyCheckIsExact<T(!new)>(f: Family, org: string, subject: string, data: T)
    requires SubjectToken(org)
    requires InOrgFilter(f, org).Ok? && Matches(InOrgFilter(f, org).value, subject)
    ensures (forall e: Envelope<T> :: CheckSubject(subject, e) == Accepted ==> e.orgId == org)
            <==> !HasWildcard(subject) && (PerEntity(f) ==> |Split(subject, '.')| >= 6)
  {
    DeliveredSubjectParses(f, org, subject);
    if ParseSubject(subject).Some? {
      forall e: Envelope<T> | CheckSubject(subject, e) == Accepted ensures e.orgId == org {
        CheckedEventIsTheTenants(f, org, subject, e);
      }
    } else {
      var stranger := Envelope("", 0, org + "x", subject, "", "", "", "", data);
      assert CheckSubject(subject, stranger) == Accepted && |stranger.orgId| != |org|;
    }
  }

  lemma DeliveredSubjectParses(f: Family, org: string, subject: string)
    requires SubjectToken(org)
    requires InOrgFilter(f, org).Ok? && Matches(InOrgFilter(f, org).value, subject)
    ensures ParseSubject(subject).Some? <==> !HasWildcard(subject) && (PerEntity(f) ==> |Split(subject, '.')| >= 6)
  {
    var tokens := Split(subject, '.');
    var literals := RootTokens(f) + [org];
    var tail := if PerEntity(f) then [">"] else [];
    SplitInOrgFilter(f, org);
    SplitRoot(f);
    TokenIsAtom(org);
    MatchAfterLiterals(literals, tail, tokens);
    assert RootTokens(f) <= literals <= tokens;
    if ParseSubject(subject).Some? {
      var p := ParseSubject(subject).value;
      InOrgFilterSelects(f, org, subject, p);
      ParsedLayout(subject, p);
    } else if !HasWildcard(subject) && (PerEntity(f) ==> |tokens| >= 6) {
      RootedSubjectParses(f, subject);
    }
  }

  // ---- registration events -------------------------------------------------------------------

  datatype Binding = Binding(
    contact: string, transport: string, userAgent: Option<string>, sourceAddress: Option<string>,
    deviceId: Option<string>, extensionId: Option<string>)

  datatype RegistrationData =
    | Registered(aor: string, aorHash: string, binding: Binding, expiresInSeconds: int, refreshed: Option<bool>)
    | Unregistered(aor: string, aorHash: string, binding: Binding, reason: Option<string>)
    | Expired(aor: string, aorHash: string, binding: Binding, registeredForSeconds: Option<int>)

  function EventTypeOf(data: RegistrationData): string {
    match data
    case Registered(_, _, _, _, _) => "registered"
    case Unregistered(_, _, _, _) => "unregistered"
    case Expired(_, _, _, _) => "expired"
  }

  lemma EventTypesAreTokens(data: RegistrationData)
    ensures EventName(EventTypeOf(data))
  {
    assert SubjectToken(EventTypeOf(data));
    TokenIsAtom(EventTypeOf(data));
  }

  /** The last token of each registration subject. */
  lemma RegistrationSubjectsEnd(data: RegistrationData, org: string, hash: string)
    requires SubjectToken(org) && SubjectToken(hash)
    ensures var ending := if data.Registered? then "registered"
                          else if data.Unregistered? then "unregistered" else "expired";
            EntitySubject(Registration, org, hash, EventTypeOf(data))
            == Ok("sip.reg.v1." + org + "." + hash + "." + ending)
  {
    EventTypesAreTokens(data);
    RootsOnTheWire();
    assert "sip.reg.v1" + "." == "sip.reg.v1.";
  }

  method RegistrationEnvelope(
    sha: Sha256, eventType: string, aor: string, input: EnvelopeInput<RegistrationData>, freshId: string, now: int)
    returns (r: Result<(Envelope<RegistrationData>, string)>)
    ensures r.Err? <==> Trim(aor) == "" || !SubjectToken(input.orgId) || !EventName(eventType)
    ensures r.Ok? ==>
              var (envelope, hash) := r.value;
              && AorToken(sha, aor) == Ok(hash)
              && EntitySubject(Registration, input.orgId, hash, eventType) == Ok(envelope.subject)
              && envelope.orgId == input.orgId
              && envelope.eventType == eventType
              && envelope.data == input.data
  {
    AorTokenIdentifies(sha, aor, aor);
    var hash := AorToken(sha, aor);
    if hash.Err? {
      return Err(hash.error);
    }
    EntitySubjectParses(Registration, input.orgId, hash.value, eventType);
    var subject := EntitySubject(Registration, input.orgId, hash.value, eventType);
    if subject.Err? {
      return Err(subject.error);
    }
    var addressed := input.(subject := subject.value);
    var envelope := NewEnvelope(eventType, addressed, freshId, now);
    return Ok((envelope, hash.value));
  }

  /** The three constructors. They fail exactly when the trimmed address is empty or the organization is
      not a token. Otherwise the subject, the payload's hash and the payload's address agree, the rest
      of the payload is what the caller gave, a consumer's check accepts the event, and the one
      device filter that delivers it is its own. */
  method NewRegistrationEnvelope(
    sha: Sha256, input: EnvelopeInput<RegistrationData>, freshId: string, now: int)
    returns (r: Result<Envelope<RegistrationData>>)
    ensures r.Err? <==> Trim(input.data.aor) == "" || !SubjectToken(input.orgId)
    ensures r.Ok? ==>
              var e := r.value;
              && ParseSubject(e.subject)
                 == Some(EntityEvent(Registration, input.orgId, e.data.aorHash, EventTypeOf(input.data)))
              && AorToken(sha, e.data.aor) == Ok(e.data.aorHash)
              && e.data == input.data.(aorHash := e.data.aorHash)
              && e.orgId == input.orgId
              && e.eventType == EventTypeOf(e.data)
              && CheckSubject(e.subject, e) == Accepted
    ensures r.Ok? ==>
              forall org, hash | SubjectToken(org) && SubjectToken(hash) ::
                var filter := EntityFilter(Registration, org, hash);
                filter.Ok? && (Matches(filter.value, r.value.subject) <==>
                               org == r.value.orgId && hash == r.value.data.aorHash)
  {
    EventTypesAreTokens(input.data);
    var built := RegistrationEnvelope(sha, EventTypeOf(input.data), input.data.aor, input, freshId, now);
    if built.Err? {
      return Err(built.error);
    }
    var (envelope, hash) := built.value;
    EntitySubjectParses(Registration, input.orgId, hash, EventTypeOf(input.data));
    envelope := envelope.(data := envelope.data.(aorHash := hash));
    forall org, token | SubjectToken(org) && SubjectToken(token)
      ensures var filter := EntityFilter(Registration, org, token);
              filter.Ok? && (Matches(filter.value, envelope.subject) <==> org == envelope.orgId && token == hash)
    {
      EntityFilterSelects(Registration, org, token, envelope.subject, ParseSubject(envelope.subject).value);
    }
    return Ok(envelope);
  }
}
