/** What the taxonomy promises about its builders, parser and filters taken together. */
module SubjectLaws {
  import opened Wrappers
  import opened Text
  import opened Tokens
  import opened Matching
  import opened Subjects

  // ---- build, then parse ---------------------------------------------------------------------

  /** An entity builder succeeds exactly on valid tokens, and then parsing gives back the family, the
      organization, the entity and the whole dotted event name. */
  lemma EntitySubjectParses(f: Family, orgId: string, entityId: string, event: string)
    requires PerEntity(f)
    ensures EntitySubject(f, orgId, entityId, event).Ok? <==>
            SubjectToken(orgId) && SubjectToken(entityId) && EventName(event)
    ensures EntitySubject(f, orgId, entityId, event).Ok? ==>
              ParseSubject(EntitySubject(f, orgId, entityId, event).value)
              == Some(EntityEvent(f, orgId, entityId, event))
  {
    if EntitySubject(f, orgId, entityId, event).Ok? {
      var p := EntityEvent(f, orgId, entityId, event);
      TokenIsAtom(orgId);
      TokenIsAtom(entityId);
      EventNameHasNoWildcard(event);
      ParseInvertsPrint(Print(p), p);
    }
  }

  lemma OrgSubjectParses(f: Family, orgId: string)
    requires !PerEntity(f)
    ensures OrgSubject(f, orgId).Ok? <==> SubjectToken(orgId)
    ensures OrgSubject(f, orgId).Ok? ==> ParseSubject(OrgSubject(f, orgId).value) == Some(OrgEvent(f, orgId))
  {
    if SubjectToken(orgId) {
      var p := OrgEvent(f, orgId);
      TokenIsAtom(orgId);
      ParseInvertsPrint(Print(p), p);
    }
  }

  /** What a builder was given, as the parser would report it. */
  function Build(p: ParsedSubject): Result<string>
    requires !p.Rpc?
  {
    match p
    case EntityEvent(f, org, entity, event) => EntitySubject(f, org, entity, event)
    case OrgEvent(f, org) => OrgSubject(f, org)
  }

  predicate FitsFamily(p: ParsedSubject) {
    match p
    case EntityEvent(f, _, _, _) => PerEntity(f)
    case OrgEvent(f, _) => !PerEntity(f)
    case Rpc(_, _) => false
  }

  /** No two sets of arguments, of one family or of two, build the same subject. */
  lemma BuildersInjective(p: ParsedSubject, q: ParsedSubject)
    requires FitsFamily(p) && FitsFamily(q)
    requires Build(p).Ok? && Build(p) == Build(q)
    ensures p == q
  {
    BuiltSubjectParses(p);
    BuiltSubjectParses(q);
  }

  lemma BuiltSubjectParses(p: ParsedSubject)
    requires FitsFamily(p) && Build(p).Ok?
    ensures ParseSubject(Build(p).value) == Some(p)
  {
    match p
    case EntityEvent(f, org, entity, event) => EntitySubjectParses(f, org, entity, event);
    case OrgEvent(f, org) => OrgSubjectParses(f, org);
  }

  predicate TokensValid(p: ParsedSubject) {
    match p
    case EntityEvent(_, org, entity, event) => SubjectToken(org) && SubjectToken(entity) && EventName(event)
    case OrgEvent(_, org) => SubjectToken(org)
    case Rpc(_, _) => false
  }

  /** Parsing does not validate: an accepted event subject is one a builder would publish exactly when
      its tokens are valid, and then the builder rebuilds that very subject. */
  lemma ParsedSubjectRebuilds(subject: string, p: ParsedSubject)
    requires ParseSubject(subject) == Some(p) && !p.Rpc?
    ensures FitsFamily(p)
    ensures Build(p).Ok? <==> TokensValid(p)
    ensures Build(p).Ok? ==> Build(p).value == subject
  {
    ParseInvertsPrint(subject, p);
  }

  /** So a subject with an empty organization token is accepted, though no builder publishes it. */
  lemma ParserAcceptsUnbuildable(f: Family, entity: string, event: string)
    requires PerEntity(f) && Plain(entity) && !HasWildcard(event)
    ensures var p := EntityEvent(f, "", entity, event);
            ParseSubject(Print(p)) == Some(p) && Build(p).Err?
  {
    var p := EntityEvent(f, "", entity, event);
    ParseInvertsPrint(Print(p), p);
  }

  // ---- filters select exactly what they name -------------------------------------------------

  /** The tokens every filter starts with lead a parsed subject exactly when it is of that family. */
  lemma RootLeads(f: Family, p: ParsedSubject)
    ensures |Layout(p)| >= 4
    ensures RootTokens(f) <= Layout(p) <==> !p.Rpc? && p.family == f
  {
    DomainsDiffer(f, f);
    if !p.Rpc? {
      DomainsDiffer(f, p.family);
      assert Layout(p)[0] == Domain(p.family);
    } else {
      assert Layout(p)[0] == "rpc";
    }
  }

  lemma SplitAllFilter(f: Family)
    ensures Split(AllFilter(f), '.') == RootTokens(f) + [if PerEntity(f) then ">" else "*"]
  {
    SplitRoot(f);
    var last := if PerEntity(f) then ">" else "*";
    assert AllFilter(f) == Root(f) + "." + last;
    SplitSnoc(Root(f), last);
  }

  /** The stream filter of a family takes exactly the subjects under its root: any number of further
      tokens for an entity family, one for an organization family. It holds of every string. */
  lemma AllFilterSelects(f: Family, subject: string)
    ensures Matches(AllFilter(f), subject) <==>
            var tokens := Split(subject, '.');
            RootTokens(f) <= tokens && (if PerEntity(f) then |tokens| >= 4 else |tokens| == 4)
  {
    var tokens := Split(subject, '.');
    var last := if PerEntity(f) then ">" else "*";
    SplitAllFilter(f);
    SplitRoot(f);
    MatchAfterLiterals(RootTokens(f), [last], tokens);
    MatchIsAgreement([last], tokens[if |tokens| < 3 then |tokens| else 3..]);
  }

  lemma SplitInOrgFilter(f: Family, org: string)
    requires SubjectToken(org)
    ensures InOrgFilter(f, org).Ok?
    ensures Split(InOrgFilter(f, org).value, '.') == RootTokens(f) + [org] + (if PerEntity(f) then [">"] else [])
  {
    SplitRoot(f);
    TokenIsAtom(org);
    SplitSnoc(Root(f), org);
    if PerEntity(f) {
      assert Root(f) + "." + org + ".>" == Root(f) + "." + org + "." + ">";
      SplitSnoc(Root(f) + "." + org, ">");
    }
  }

  /** An organization's filter takes exactly the parsed subjects of that family and organization. */
  lemma InOrgFilterSelects(f: Family, org: string, subject: string, p: ParsedSubject)
    requires SubjectToken(org)
    requires ParseSubject(subject) == Some(p)
    ensures InOrgFilter(f, org).Ok?
    ensures Matches(InOrgFilter(f, org).value, subject) <==> !p.Rpc? && p.family == f && p.orgId == org
  {
    ParsedLayout(subject, p);
    SplitInOrgFilter(f, org);
    InOrgTokensSelect(f, org, p);
  }

  lemma InOrgTokensSelect(f: Family, org: string, p: ParsedSubject)
    requires SubjectToken(org)
    requires WellShaped(p)
    ensures TokensMatch(RootTokens(f) + [org] + (if PerEntity(f) then [">"] else []), Layout(p)) <==>
            !p.Rpc? && p.family == f && p.orgId == org
  {
    SplitRoot(f);
    TokenIsAtom(org);
    RootLeads(f, p);
    var literals := RootTokens(f) + [org];
    MatchAfterLiterals(literals, if PerEntity(f) then [">"] else [], Layout(p));
    assert literals <= Layout(p) <==> RootTokens(f) <= Layout(p) && Layout(p)[3] == org;
    assert !p.Rpc? ==> Layout(p)[3] == p.orgId;
    assert p.OrgEvent? ==> Layout(p)[4..] == [];
  }

  /** An entity's filter takes exactly the parsed subjects of that family, organization and entity. */
  lemma EntityFilterSelects(f: Family, org: string, entity: string, subject: string, p: ParsedSubject)
    requires PerEntity(f) && SubjectToken(org) && SubjectToken(entity)
    requires ParseSubject(subject) == Some(p)
    ensures EntityFilter(f, org, entity).Ok?
    ensures Matches(EntityFilter(f, org, entity).value, subject) <==>
            p.EntityEvent? && p.family == f && p.orgId == org && p.entityId == entity
  {
    ParsedLayout(subject, p);
    SplitRoot(f);
    TokenIsAtom(org);
    TokenIsAtom(entity);
    SplitEntityEvent(Root(f), org, entity, ">");
    SplitAtom(">", '.');
    assert Root(f) + "." + org + "." + entity + ".>" == Root(f) + "." + org + "." + entity + "." + ">";
    EntityTokensSelect(f, org, entity, p);
  }

  lemma EntityTokensSelect(f: Family, org: string, entity: string, p: ParsedSubject)
    requires PerEntity(f) && SubjectToken(org) && SubjectToken(entity)
    requires WellShaped(p)
    ensures TokensMatch(RootTokens(f) + [org, entity] + [">"], Layout(p)) <==>
            p.EntityEvent? && p.family == f && p.orgId == org && p.entityId == entity
  {
    SplitRoot(f);
    TokenIsAtom(org);
    TokenIsAtom(entity);
    RootLeads(f, p);
    var literals := RootTokens(f) + [org, entity];
    MatchAfterLiterals(literals, [">"], Layout(p));
    if p.EntityEvent? {
      assert Layout(p)[3] == p.orgId && Layout(p)[4] == p.entityId;
      assert literals <= Layout(p) <==> RootTokens(f) <= Layout(p) && Layout(p)[3] == org && Layout(p)[4] == entity;
    }
  }

  /** An event-name filter takes exactly the parsed subjects of that family and organization whose
      whole dotted event name is the one given, whatever the entity. */
  lemma EventInOrgFilterSelects(f: Family, org: string, event: string, subject: string, p: ParsedSubject)
    requires PerEntity(f) && SubjectToken(org) && EventName(event)
    requires ParseSubject(subject) == Some(p)
    ensures EventInOrgFilter(f, org, event).Ok?
    ensures Matches(EventInOrgFilter(f, org, event).value, subject) <==>
            p.EntityEvent? && p.family == f && p.orgId == org && p.event == event
  {
    ParsedLayout(subject, p);
    SplitRoot(f);
    TokenIsAtom(org);
    SplitEntityEvent(Root(f), org, "*", event);
    assert Root(f) + "." + org + ".*." + event == Root(f) + "." + org + "." + "*" + "." + event;
    EventTokensSelect(f, org, event, p);
  }

  lemma EventTokensSelect(f: Family, org: string, event: string, p: ParsedSubject)
    requires PerEntity(f) && SubjectToken(org) && EventName(event)
    requires WellShaped(p)
    ensures TokensMatch(RootTokens(f) + [org, "*"] + Split(event, '.'), Layout(p)) <==>
            p.EntityEvent? && p.family == f && p.orgId == org && p.event == event
  {
    hide WellShaped, SubjectToken, EventName;
    SplitRoot(f);
    TokenIsAtom(org);
    RootLeads(f, p);
    var literals, name := RootTokens(f) + [org], Split(event, '.');
    assert literals + (["*"] + name) == RootTokens(f) + [org, "*"] + name;
    MatchAfterLiterals(literals, ["*"] + name, Layout(p));
    assert literals <= Layout(p) <==> RootTokens(f) <= Layout(p) && Layout(p)[3] == org;
    StarThenEvent(event, Layout(p)[4..]);
    EventAfterEntity(event, p);
  }

  /** What follows the organization in a parsed subject is one token and then the event. */
  lemma EventAfterEntity(event: string, p: ParsedSubject)
    ensures |Layout(p)| >= 4
    ensures Layout(p)[4..] != [] && Layout(p)[4..][1..] == Split(event, '.') <==> p.EntityEvent? && p.event == event
  {
    if p.EntityEvent? {
      assert Layout(p)[4..] == [p.entityId] + Split(p.event, '.');
      assert Layout(p)[4..][1..] == Split(p.event, '.');
      if Split(p.event, '.') == Split(event, '.') {
        SplitInjective(p.event, event, '.');
      }
    } else {
      assert Layout(p)[4..] == [];
    }
  }

  lemma StarThenEvent(event: string, tokens: seq<string>)
    requires EventName(event)
    ensures TokensMatch(["*"] + Split(event, '.'), tokens) <==> tokens != [] && tokens[1..] == Split(event, '.')
  {
    var name := Split(event, '.');
    EventNameHasNoWildcard(event);
    MatchStar(name, tokens);
    if tokens != [] {
      MatchLiterals(name, tokens[1..]);
    }
  }

  /** The cross-organization call filter differs only in leaving the organization open. */
  lemma CallEventFilterSelects(event: string, subject: string, p: ParsedSubject)
    requires EventName(event)
    requires ParseSubject(subject) == Some(p)
    ensures CallEventFilter(event).Ok?
    ensures Matches(CallEventFilter(event).value, subject) <==>
            p.EntityEvent? && p.family == Call && p.event == event
  {
    ParsedLayout(subject, p);
    SplitAnyOrgFilter(Call, event);
    AnyOrgTokensSelect(Call, event, p);
  }

  lemma SplitAnyOrgFilter(f: Family, event: string)
    ensures Split(Root(f) + ".*.*." + event, '.') == RootTokens(f) + ["*", "*"] + Split(event, '.')
  {
    SplitRoot(f);
    SplitEntityEvent(Root(f), "*", "*", event);
    assert Root(f) + ".*.*." + event == Root(f) + "." + "*" + "." + "*" + "." + event;
  }

  lemma AnyOrgTokensSelect(f: Family, event: string, p: ParsedSubject)
    requires PerEntity(f) && EventName(event) && WellShaped(p)
    ensures TokensMatch(RootTokens(f) + ["*", "*"] + Split(event, '.'), Layout(p)) <==>
            p.EntityEvent? && p.family == f && p.event == event
  {
    hide WellShaped, EventName;
    SplitRoot(f);
    RootLeads(f, p);
    var tail := ["*"] + Split(event, '.');
    assert RootTokens(f) + (["*"] + tail) == RootTokens(f) + ["*", "*"] + Split(event, '.');
    var whole, root := Layout(p), RootTokens(f);
    MatchAfterLiterals(root, ["*"] + tail, whole);
    MatchStar(tail, Layout(p)[3..]);
    assert Layout(p)[3..][1..] == Layout(p)[4..];
    StarThenEvent(event, Layout(p)[4..]);
    EventAfterEntity(event, p);
  }

  // ---- arguments -----------------------------------------------------------------------------

  /** Filters are built from valid arguments only, so never for a wildcard organization or entity. */
  lemma FiltersNeedTokens(f: Family, org: string, entity: string, event: string)
    ensures InOrgFilter(f, org).Ok? <==> SubjectToken(org)
    ensures EntityFilter(f, org, entity).Ok? <==> SubjectToken(org) && SubjectToken(entity)
    ensures EventInOrgFilter(f, org, event).Ok? <==> SubjectToken(org) && EventName(event)
    ensures CallEventFilter(event).Ok? <==> EventName(event)
    ensures !SubjectToken("*") && !SubjectToken(">") && !SubjectToken("")
  {
    assert '*' in "*" && '>' in ">";
  }

  /** The roots, as they are on the wire. */
  lemma RootsOnTheWire()
    ensures Root(Call) == "calls.evt.v1" && Root(Registration) == "sip.reg.v1" && Root(Queue) == "queue.evt.v1"
    ensures Root(Voicemail) == "voicemail.evt.v1" && Root(Media) == "media.evt.v1" && Root(Cdr) == "cdr.leg.v1"
    ensures Root(Audit) == "audit.evt.v1" && Root(Provision) == "provision.evt.v1"
  {
  }

  /** The first invalid argument is the one an entity builder reports, under its own name. */
  lemma EntityBuilderReports(f: Family, org: string, entity: string, event: string)
    requires PerEntity(f) && EntitySubject(f, org, entity, event).Err?
    ensures var role := match f
                        case Call => "callId" case Registration => "aorHash" case Queue => "queueId"
                        case Voicemail => "mailboxId" case _ => "sessionId";
            EntitySubject(f, org, entity, event).error
            == if !SubjectToken(org) then TokenError("orgId", org)
               else if !SubjectToken(entity) then TokenError(role, entity)
               else TokenError("event", event)
  {
  }

  /** Subjects, as they are on the wire. */
  lemma SubjectsOnTheWire(org: string, entity: string, event: string, service: string, procedure: string)
    requires SubjectToken(org) && SubjectToken(entity) && EventName(event) && Plain(service) && Plain(procedure)
    ensures EntitySubject(Call, org, entity, event) == Ok("calls.evt.v1." + org + "." + entity + "." + event)
    ensures OrgSubject(Cdr, org) == Ok("cdr.leg.v1." + org)
    ensures ParseSubject("rpc." + service + ".v1." + procedure) == Some(Rpc(service, procedure))
  {
    RootsOnTheWire();
    assert "calls.evt.v1" + "." == "calls.evt.v1." && "cdr.leg.v1" + "." == "cdr.leg.v1.";
    assert Print(Rpc(service, procedure)) == "rpc." + service + ".v1." + procedure by {
      assert "rpc" + "." == "rpc." && "." + VERSION + "." == ".v1.";
    }
    ParseInvertsPrint("rpc." + service + ".v1." + procedure, Rpc(service, procedure));
  }
}
