/** The versioned subject taxonomy: builders for publishers, filters for subscribers, and the parser
    consumers reverse a delivered subject with.

    The source spells out one builder per family. Families of one shape differ only in their root and
    in the role named by a validation error, so here the family is a parameter. */
module Subjects {
  import opened Wrappers
  import opened Text
  import opened Tokens

  const VERSION: string := "v1"

  datatype Family = Call | Registration | Queue | Voicemail | Media | Cdr | Audit | Provision

  /** Five families have one subject per entity and event; the other three one subject per organization. */
  predicate PerEntity(f: Family) {
    f.Call? || f.Registration? || f.Queue? || f.Voicemail? || f.Media?
  }

  function Domain(f: Family): string {
    match f
    case Call => "calls"
    case Registration => "sip"
    case Queue => "queue"
    case Voicemail => "voicemail"
    case Media => "media"
    case Cdr => "cdr"
    case Audit => "audit"
    case Provision => "provision"
  }

  function Feed(f: Family): string {
    match f
    case Registration => "reg"
    case Cdr => "leg"
    case _ => "evt"
  }

  function Prefix(f: Family): string {
    Domain(f) + "." + Feed(f)
  }

  function Root(f: Family): string {
    Prefix(f) + "." + VERSION
  }

  function EntityRole(f: Family): string {
    match f
    case Call => "callId"
    case Registration => "aorHash"
    case Queue => "queueId"
    case Voicemail => "mailboxId"
    case Media => "sessionId"
    case _ => ""
  }

  // ---- publish subjects ----------------------------------------------------------------------

  function EntitySubject(f: Family, orgId: string, entityId: string, event: string): Result<string> {
    var org :- Token("orgId", orgId);
    var entity :- Token(EntityRole(f), entityId);
    var name :- Event(event);
    Ok(Root(f) + "." + org + "." + entity + "." + name)
  }

  function OrgSubject(f: Family, orgId: string): Result<string> {
    var org :- Token("orgId", orgId);
    Ok(Root(f) + "." + org)
  }

  // ---- subscription filters ------------------------------------------------------------------

  function AllFilter(f: Family): string {
    Root(f) + (if PerEntity(f) then ".>" else ".*")
  }

  function InOrgFilter(f: Family, orgId: string): Result<string> {
    var org :- Token("orgId", orgId);
    if PerEntity(f) then Ok(Root(f) + "." + org + ".>") else OrgSubject(f, orgId)
  }

  function EntityFilter(f: Family, orgId: string, entityId: string): Result<string> {
    var org :- Token("orgId", orgId);
    var entity :- Token(EntityRole(f), entityId);
    Ok(Root(f) + "." + org + "." + entity + ".>")
  }

  function EventInOrgFilter(f: Family, orgId: string, event: string): Result<string> {
    var org :- Token("orgId", orgId);
    var name :- Event(event);
    Ok(Root(f) + "." + org + ".*." + name)
  }

  function CallEventFilter(event: string): Result<string> {
    var name :- Event(event);
    Ok(Root(Call) + ".*.*." + name)
  }

  // ---- parsing -------------------------------------------------------------------------------

  datatype ParsedSubject =
    | EntityEvent(family: Family, orgId: string, entityId: string, event: string)
    | OrgEvent(family: Family, orgId: string)
    | Rpc(service: string, procedure: string)

  predicate HasWildcard(subject: string) {
    '*' in subject || '>' in subject
  }

  /** The family cases of the parser's switch, which compares literal prefixes. */
  function FamilyOfPrefix(prefix: string): Option<Family> {
    if prefix == "calls.evt" then Some(Call)
    else if prefix == "sip.reg" then Some(Registration)
    else if prefix == "queue.evt" then Some(Queue)
    else if prefix == "voicemail.evt" then Some(Voicemail)
    else if prefix == "media.evt" then Some(Media)
    else if prefix == "cdr.leg" then Some(Cdr)
    else if prefix == "audit.evt" then Some(Audit)
    else if prefix == "provision.evt" then Some(Provision)
    else None
  }

  function ParseSubject(subject: string): Option<ParsedSubject> {
    if HasWildcard(subject) then None
    else
      var tokens := Split(subject, '.');
      if |tokens| < 4 then None
      else
        var first, second, version, rest := tokens[0], tokens[1], tokens[2], tokens[3..];
        if version != VERSION then None
        else
          var prefix := first + "." + second;
          var family := FamilyOfPrefix(prefix);
          if family.Some? && PerEntity(family.value) && |rest| >= 3 then
            Some(EntityEvent(family.value, rest[0], rest[1], Join(rest[2..], '.')))
          else if family.Some? && !PerEntity(family.value) && |rest| == 1 then
            Some(OrgEvent(family.value, rest[0]))
          else if first == "rpc" && |rest| == 1 then
            Some(Rpc(second, rest[0]))
          else
            None
  }

  function EventFamilyForSubject(subject: string): Option<Family> {
    match ParseSubject(subject)
    case None => None
    case Some(Rpc(_, _)) => None
    case Some(parsed) => Some(parsed.family)
  }

  // ---- the parser is exactly the inverse of the layout ---------------------------------------

  /** A parsed subject written back in its kind's layout, with no validation at all. */
  function Print(p: ParsedSubject): string {
    match p
    case EntityEvent(f, org, entity, event) => Root(f) + "." + org + "." + entity + "." + event
    case OrgEvent(f, org) => Root(f) + "." + org
    case Rpc(service, procedure) => "rpc" + "." + service + "." + VERSION + "." + procedure
  }

  predicate Plain(token: string) {
    '.' !in token && !HasWildcard(token)
  }

  /** What survives of a subject's shape in the parsed value: single tokens hold no dot, nothing holds a
      wildcard, and the kind fits the family. Tokens may be empty. */
  predicate WellShaped(p: ParsedSubject) {
    match p
    case EntityEvent(f, org, entity, event) => PerEntity(f) && Plain(org) && Plain(entity) && !HasWildcard(event)
    case OrgEvent(f, org) => !PerEntity(f) && Plain(org)
    case Rpc(service, procedure) => Plain(service) && Plain(procedure)
  }

  function RootTokens(f: Family): seq<string> {
    [Domain(f), Feed(f), VERSION]
  }

  function Layout(p: ParsedSubject): seq<string> {
    match p
    case EntityEvent(f, org, entity, event) => RootTokens(f) + [org, entity] + Split(event, '.')
    case OrgEvent(f, org) => RootTokens(f) + [org]
    case Rpc(service, procedure) => ["rpc", service, VERSION, procedure]
  }

  lemma RootTokensAreTokens(f: Family)
    ensures SubjectToken(Domain(f)) && SubjectToken(Feed(f)) && SubjectToken(VERSION)
  {
  }

  lemma SplitRoot(f: Family)
    ensures Split(Root(f), '.') == RootTokens(f)
    ensures "*" !in RootTokens(f) && ">" !in RootTokens(f)
    ensures !HasWildcard(Root(f))
  {
    RootTokensAreTokens(f);
    SplitThree(Domain(f), Feed(f), VERSION);
  }

  /** Families are told apart by the first token of their root, which is never the one of an rpc subject. */
  lemma DomainsDiffer(f: Family, g: Family)
    ensures Domain(f) == Domain(g) <==> f == g
    ensures Domain(f) != "rpc"
  {
    if Domain(f) == Domain(g) {
      assert Domain(f)[0] == Domain(g)[0] && Domain(f)[1] == Domain(g)[1];
    }
    assert Domain(f)[0] != "rpc"[0];
  }

  lemma SplitSnoc(a: string, token: string)
    requires '.' !in token
    ensures Split(a + "." + token, '.') == Split(a, '.') + [token]
  {
    SplitAtom(token, '.');
    SplitConcat(a, token, '.');
  }

  lemma SplitThree(a: string, b: string, c: string)
    requires SubjectToken(a) && SubjectToken(b) && SubjectToken(c)
    ensures Split(a + "." + b + "." + c, '.') == [a, b, c]
    ensures "*" !in [a, b, c] && ">" !in [a, b, c]
    ensures !HasWildcard(a + "." + b + "." + c)
  {
    TokenIsAtom(a);
    TokenIsAtom(b);
    TokenIsAtom(c);
    SplitSnoc(a, b);
    SplitSnoc(a + "." + b, c);
  }

  lemma SplitFour(a: string, b: string, c: string, d: string)
    requires '.' !in a && '.' !in b && '.' !in c && '.' !in d
    ensures Split(a + "." + b + "." + c + "." + d, '.') == [a, b, c, d]
  {
    SplitAtom(a, '.');
    SplitSnoc(a, b);
    SplitSnoc(a + "." + b, c);
    SplitSnoc(a + "." + b + "." + c, d);
  }

  lemma SplitEntityEvent(root: string, org: string, entity: string, event: string)
    requires '.' !in org && '.' !in entity
    ensures Split(root + "." + org + "." + entity + "." + event, '.')
         == Split(root, '.') + [org, entity] + Split(event, '.')
  {
    SplitSnoc(root, org);
    SplitSnoc(root + "." + org, entity);
    SplitConcat(root + "." + org + "." + entity, event, '.');
  }

  lemma SplitPrint(p: ParsedSubject)
    requires WellShaped(p)
    ensures Split(Print(p), '.') == Layout(p)
    ensures !HasWildcard(Print(p))
  {
    match p
    case EntityEvent(f, org, entity, event) =>
      SplitRoot(f);
      SplitEntityEvent(Root(f), org, entity, event);
    case OrgEvent(f, org) =>
      SplitRoot(f);
      SplitSnoc(Root(f), org);
    case Rpc(service, procedure) =>
      SplitFour("rpc", service, VERSION, procedure);
  }

  lemma FamilyOfPrefixInverts(f: Family)
    ensures FamilyOfPrefix(Prefix(f)) == Some(f)
  {
    match f
    case Call => assert "calls" + "." + "evt" == "calls.evt";
    case Registration => assert "sip" + "." + "reg" == "sip.reg";
    case Queue => assert "queue" + "." + "evt" == "queue.evt";
    case Voicemail => assert "voicemail" + "." + "evt" == "voicemail.evt";
    case Media => assert "media" + "." + "evt" == "media.evt";
    case Cdr => assert "cdr" + "." + "leg" == "cdr.leg";
    case Audit => assert "audit" + "." + "evt" == "audit.evt";
    case Provision => assert "provision" + "." + "evt" == "provision.evt";
  }

  lemma FamilyOfPrefixIsPrefix(prefix: string)
    requires FamilyOfPrefix(prefix).Some?
    ensures prefix == Prefix(FamilyOfPrefix(prefix).value)
  {
  }

  lemma PairInjective(a: string, b: string, c: string, d: string)
    requires '.' !in a && '.' !in b && '.' !in c && '.' !in d
    requires a + "." + b == c + "." + d
    ensures a == c && b == d
  {
    SplitAtom(a, '.');
    SplitAtom(c, '.');
    SplitSnoc(a, b);
    SplitSnoc(c, d);
    var left, right := [a] + [b], [c] + [d];
    assert left[0] == a && left[1] == b && right[0] == c && right[1] == d;
  }

  /** The parser's prefix test is a test of the first two tokens. */
  lemma PrefixIsTwoTokens(first: string, second: string, f: Family)
    requires '.' !in first && '.' !in second
    ensures FamilyOfPrefix(first + "." + second) == Some(f) <==> first == Domain(f) && second == Feed(f)
  {
    FamilyOfPrefixInverts(f);
    if FamilyOfPrefix(first + "." + second) == Some(f) {
      FamilyOfPrefixIsPrefix(first + "." + second);
      RootTokensAreTokens(f);
      PairInjective(first, second, Domain(f), Feed(f));
    }
  }

  lemma {:induction false} PartsAvoid(s: string, sep: char, c: char)
    requires c !in s
    ensures forall part <- Split(s, sep) :: c !in part
  {
    if s == "" {
    } else {
      PartsAvoid(s[1..], sep, c);
    }
  }

  lemma EventTail(rest: seq<string>)
    requires |rest| >= 3
    requires forall part <- rest :: Plain(part)
    ensures rest == [rest[0], rest[1]] + Split(Join(rest[2..], '.'), '.')
    ensures !HasWildcard(Join(rest[2..], '.'))
    ensures Plain(rest[0]) && Plain(rest[1])
  {
    assert forall part <- rest[2..] :: part in rest && Plain(part);
    SplitJoin(rest[2..], '.');
    JoinAvoids(rest[2..], '.', '*');
    JoinAvoids(rest[2..], '.', '>');
  }

  lemma PartsArePlain(subject: string)
    requires !HasWildcard(subject)
    ensures forall part <- Split(subject, '.') :: Plain(part)
  {
    PartsAvoid(subject, '.', '*');
    PartsAvoid(subject, '.', '>');
  }

  lemma ParsedLayout(subject: string, p: ParsedSubject)
    requires ParseSubject(subject) == Some(p)
    ensures WellShaped(p)
    ensures Split(subject, '.') == Layout(p)
  {
    var tokens := Split(subject, '.');
    PartsArePlain(subject);
    var rest := tokens[3..];
    assert forall part <- rest :: part in tokens;
    assert tokens == [tokens[0], tokens[1], VERSION] + rest;
    match p
    case Rpc(service, procedure) =>
      assert rest == [procedure];
    case OrgEvent(f, org) =>
      PrefixIsTwoTokens(tokens[0], tokens[1], f);
      assert rest == [org];
    case EntityEvent(f, org, entity, event) =>
      PrefixIsTwoTokens(tokens[0], tokens[1], f);
      EventTail(rest);
      assert RootTokens(f) + rest == Layout(p);
  }

  lemma RpcPrefixNamesNoFamily(service: string)
    requires '.' !in service
    ensures FamilyOfPrefix("rpc" + "." + service) == None
  {
    forall g: Family ensures FamilyOfPrefix("rpc" + "." + service) != Some(g) {
      PrefixIsTwoTokens("rpc", service, g);
      DomainsDiffer(g, g);
    }
  }

  lemma LayoutParsed(subject: string, p: ParsedSubject)
    requires WellShaped(p) && !HasWildcard(subject)
    requires Split(subject, '.') == Layout(p)
    ensures ParseSubject(subject) == Some(p)
  {
    hide FamilyOfPrefix;
    var tokens := Split(subject, '.');
    var rest := tokens[3..];
    match p
    case Rpc(service, procedure) =>
      RpcPrefixNamesNoFamily(service);
    case OrgEvent(f, org) =>
      PrefixIsTwoTokens(tokens[0], tokens[1], f);
      assert rest == [org];
    case EntityEvent(f, org, entity, event) =>
      PrefixIsTwoTokens(tokens[0], tokens[1], f);
      assert rest == [org, entity] + Split(event, '.');
      assert rest[2..] == Split(event, '.');
      JoinSplit(event, '.');
  }

  /** Parsing is exactly the inverse of the layout, on every string: what is accepted is what some
      well-shaped value prints as, and it parses to that value and no other. */
  lemma ParseInvertsPrint(subject: string, p: ParsedSubject)
    ensures ParseSubject(subject) == Some(p) <==> WellShaped(p) && subject == Print(p)
  {
    if ParseSubject(subject) == Some(p) {
      ParsedLayout(subject, p);
      SplitPrint(p);
      SplitInjective(subject, Print(p), '.');
    }
    if WellShaped(p) && subject == Print(p) {
      SplitPrint(p);
      LayoutParsed(subject, p);
    }
  }
}
