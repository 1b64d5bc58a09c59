/** What every run of the park-claim protocol keeps. */
module ParkSafety {
  import opened Wrappers
  import opened ParkClaims

  // ---- what is known about revisions ---------------------------------------------------------

  /** A revision `who` will quote: if it is the stored one, the stored claim is `who`'s own. */
  predicate Fits(s: State, revision: nat, who: string) {
    revision <= s.sequence && (IsCurrent(s.stored, revision) ==> s.stored.value.claim.owner == who)
  }

  /** If the revision is the stored one, the stored claim is good until `limit` at the latest. */
  predicate EndsBy(s: State, revision: nat, limit: int) {
    IsCurrent(s.stored, revision) ==> s.stored.value.claim.expiresAt <= limit
  }

  predicate RequestOk(s: State, q: Request) {
    && q.start <= s.now
    && match q.op
       case Renew(_, serial, stamp, revision) =>
         && serial < Local(s, q.who).serial && stamp <= s.now
         && Fits(s, revision, q.who) && EndsBy(s, revision, stamp + CLAIM_LEASE_MS)
       case ReadForRenew(_, serial) => serial < Local(s, q.who).serial
       case Release(_, revision) => Fits(s, revision, q.who)
       case Discard(revision) => Fits(s, revision, q.who) && !q.awaited
       case Reap(_, revision) => revision <= s.sequence && EndsBy(s, revision, q.start)
       case TakeOver(_, stamp, revision) =>
         q.start <= stamp <= s.now && revision <= s.sequence && EndsBy(s, revision, stamp)
       case _ => true
  }

  predicate Writes(op: Op) {
    op.Create? || op.Reap? || op.Renew? || op.TakeOver?
  }

  predicate ReplyOk(s: State, who: string, r: Reply) {
    && r.request.who == who && r.request.awaited && RequestOk(s, r.request)
    && match r.outcome
       case Written(revision) =>
         && Writes(r.request.op) && revision <= s.sequence
         && (IsCurrent(s.stored, revision) ==> s.stored.value.claim == Proposal(r.request))
       case Current(current) =>
         current.Some? ==> && current.value.revision <= s.sequence
                           && (IsCurrent(s.stored, current.value.revision) ==> s.stored == current)
                           && current.value.claim.expiresAt <= s.now + CLAIM_LEASE_MS
       case Deleted => r.request.op.Release?
       case Conflict => true
  }

  predicate HeldOk(s: State, who: string, serial: nat, h: Held) {
    && Fits(s, h.revision, who) && EndsBy(s, h.revision, h.learnt + CLAIM_LEASE_MS)
    && h.serial < serial && h.learnt <= s.now
  }

  predicate LocalOk(s: State, who: string, l: Instance) {
    && (forall c <- l.claims :: HeldOk(s, who, l.serial, l.claims[c]))
    && (l.takeover.Some? ==> Fits(s, l.takeover.value, who))
    && (forall r <- l.inbox :: ReplyOk(s, who, r))
  }

  predicate StoredOk(s: State) {
    s.stored.Some? ==> && s.stored.value.revision <= s.sequence
                       && s.stored.value.claim.expiresAt <= s.now + CLAIM_LEASE_MS
  }

  ghost predicate Base(s: State) {
    && 2 * s.patience <= CLAIM_LEASE_MS && StoredOk(s)
    && (forall q <- s.requests :: RequestOk(s, q))
    && (forall who :: LocalOk(s, who, Local(s, who)))
  }

  // ---- what holds of an instance that is not misled --------------------------------------------

  predicate Outlasts(l: Instance, t: int) {
    forall c <- l.claims :: l.claims[c].lease > t
  }

  predicate IsGrant(r: Reply, channel: string) {
    r.outcome.Deleted? && r.request.op.Release? && r.request.op.channel == channel
  }

  /** The bucket has granted the release of `channel` and the instance has yet to hear. */
  predicate GivenUp(inbox: seq<Reply>, channel: string) {
    exists r <- inbox :: IsGrant(r, channel)
  }

  /** Until `limit`, the orbit is `who`'s. */
  predicate Guard(s: State, who: string, limit: int) {
    s.now < limit ==>
      s.stored.Some? && s.stored.value.claim.owner == who && s.stored.value.claim.expiresAt >= limit
  }

  /** The lease an answer will teach the hold of `channel` with this serial, if any. */
  function Promise(r: Reply, channel: string, serial: nat): Option<int> {
    match (r.request.op, r.outcome)
    case (Renew(c, n, stamp, _), Written(_)) =>
      if c == channel && n == serial then Some(stamp + CLAIM_LEASE_MS) else None
    case (ReadForRenew(c, n), Current(Some(st))) =>
      if c == channel && n == serial && st.claim.owner == r.request.who then Some(st.claim.expiresAt) else None
    case _ => None
  }

  predicate GuardedHold(s: State, who: string, inbox: seq<Reply>, channel: string, h: Held) {
    && Guard(s, who, h.lease)
    && forall r <- inbox | Promise(r, channel, h.serial).Some? :: Guard(s, who, Promise(r, channel, h.serial).value)
  }

  predicate Guarded(s: State, who: string, l: Instance) {
    forall c <- l.claims | !GivenUp(l.inbox, c) :: GuardedHold(s, who, l.inbox, c, l.claims[c])
  }

  /** The operation deletes the stored claim if it is served now. */
  predicate Strikes(s: State, op: Op) {
    match op
    case Release(_, revision) => IsCurrent(s.stored, revision)
    case Discard(revision) => IsCurrent(s.stored, revision)
    case _ => false
  }

  /** The operation quotes the revision as one the instance owns. */
  predicate Quotes(op: Op, revision: nat) {
    match op
    case Renew(_, _, _, r) => r == revision
    case Release(_, r) => r == revision
    case Discard(r) => r == revision
    case _ => false
  }

  predicate Mentions(r: Reply, revision: nat) {
    match r.outcome
    case Written(n) => n == revision
    case Current(Some(st)) => st.revision == revision
    case _ => false
  }

  predicate KnownTo(l: Instance, revision: nat) {
    (exists c <- l.claims :: l.claims[c].revision == revision) || l.takeover == Some(revision)
  }

  /** While an answer that wins the orbit is on its way, the orbit is already the instance's, nothing the
      instance does can lose it, and every earlier hold will be gone when the answer arrives. */
  predicate WinOk(s: State, who: string, l: Instance, p: nat)
    requires p < |l.inbox| && l.inbox[p].outcome.Written?
  {
    var revision := l.inbox[p].outcome.revision;
    && IsCurrent(s.stored, revision)
    && (forall c <- l.claims :: GivenUp(l.inbox[..p], c))
    && (forall r <- l.inbox[..p] :: !Mentions(r, revision))
    && (forall r <- l.inbox[p + 1..] :: !r.outcome.Deleted?)
    && !KnownTo(l, revision)
    && (forall q <- s.requests | q.who == who :: !Quotes(q.op, revision))
  }

  predicate Shape(l: Instance) {
    if l.slot.None? then l.claims == map[] else l.claims.Keys == {l.slot.value}
  }

  predicate Timely(s: State, who: string, l: Instance) {
    && (forall q <- s.requests | q.who == who && q.awaited && Taking(q.op) :: Outlasts(l, q.start + s.patience))
    && (forall r <- l.inbox | Taking(r.request.op) :: Outlasts(l, r.request.start + s.patience))
  }

  predicate Fenced(s: State, who: string, l: Instance) {
    forall c <- l.claims ::
      && (l.takeover.Some? ==> !IsCurrent(s.stored, l.takeover.value))
      && (forall q <- s.requests | q.who == who && Strikes(s, q.op) :: q.op.Release? && q.op.channel == c)
  }

  predicate GrantsOk(l: Instance) {
    forall r <- l.inbox | r.outcome.Deleted? :: r.request.op.Release? && l.claims.Keys <= {r.request.op.channel}
  }

  predicate Wins(s: State, who: string, l: Instance) {
    forall p | 0 <= p < |l.inbox| && Winning(s, l.inbox[p]) :: WinOk(s, who, l, p)
  }

  predicate Sound(s: State, who: string, l: Instance) {
    Shape(l) && Timely(s, who, l) && Guarded(s, who, l) && Fenced(s, who, l) && GrantsOk(l) && Wins(s, who, l)
  }

  ghost predicate Inv(s: State) {
    Base(s) && forall who | who !in s.misled :: Sound(s, who, Local(s, who))
  }

  // ---- the revision facts last ---------------------------------------------------------------

  /** Time and sequence advance, and whatever is stored is what was or is newer than anything known. */
  predicate Later(s: State, t: State) {
    && s.now <= t.now && s.sequence <= t.sequence && s.patience == t.patience
    && (t.stored == s.stored || t.stored.None? || t.stored.value.revision > s.sequence)
  }

  lemma RequestLasts(s: State, t: State, q: Request)
    requires Later(s, t) && RequestOk(s, q) && Local(s, q.who).serial <= Local(t, q.who).serial
    ensures RequestOk(t, q)
  {
  }

  lemma LocalLasts(s: State, t: State, who: string, l: Instance)
    requires Later(s, t) && LocalOk(s, who, l) && StoredOk(s)
    requires Local(s, who).serial <= Local(t, who).serial
    ensures LocalOk(t, who, l)
  {
    forall r <- l.inbox ensures ReplyOk(t, who, r) {
      assert ReplyOk(s, who, r);
      RequestLasts(s, t, r.request);
    }
    forall c <- l.claims ensures HeldOk(t, who, l.serial, l.claims[c]) {
      assert HeldOk(s, who, l.serial, l.claims[c]);
    }
  }

  /** A step that changes one instance and adds requests of its own. */
  lemma BaseStep(s: State, t: State, who: string)
    requires Base(s) && Later(s, t) && StoredOk(t)
    requires forall other | other != who :: Local(t, other) == Local(s, other)
    requires Local(s, who).serial <= Local(t, who).serial
    requires forall q <- t.requests :: q in s.requests || RequestOk(t, q)
    requires LocalOk(t, who, Local(t, who))
    ensures Base(t)
  {
    forall q <- t.requests ensures RequestOk(t, q) {
      if q in s.requests {
        RequestLasts(s, t, q);
      }
    }
    forall other ensures LocalOk(t, other, Local(t, other)) {
      if other != who {
        LocalLasts(s, t, other, Local(s, other));
      }
    }
  }

  // ---- soundness, when the instance's holds and answers stay as they are ----------------------

  /** Nothing the change of the stored claim took away was this instance's and still good. */
  predicate Custody(s: State, t: State, who: string) {
    t.stored == s.stored || s.stored.None?
    || s.stored.value.claim.owner != who || s.stored.value.claim.expiresAt <= s.now
  }

  /** A request an instance may add: a chain only when it holds nothing, a quotation only of what it knows,
      a release only of its hold. */
  ghost predicate Addable(s: State, l: Instance, q: Request) {
    && (q.awaited && Taking(q.op) ==> Outlasts(l, q.start + s.patience))
    && (forall revision | Quotes(q.op, revision) :: KnownTo(l, revision))
    && (Strikes(s, q.op) ==> l.claims == map[] || (q.op.Release? && l.claims.Keys <= {q.op.channel}))
  }

  predicate SameHolds(l: Instance, m: Instance) {
    m.slot == l.slot && m.claims == l.claims && m.inbox == l.inbox
    && (m.takeover == l.takeover || m.takeover == None)
  }

  /** A request under way, whether or not its sender still waits for the answer. */
  predicate UnderWay(s: State, q: Request) {
    q in s.requests || (!q.awaited && q.(awaited := true) in s.requests)
  }

  ghost predicate OnlyAdds(s: State, t: State, who: string, l: Instance) {
    forall q <- t.requests | q.who == who :: UnderWay(s, q) || Addable(t, l, q)
  }

  lemma FencedLasts(s: State, t: State, who: string, l: Instance, m: Instance)
    requires Base(s) && LocalOk(s, who, l) && Fenced(s, who, l) && Later(s, t)
    requires SameHolds(l, m) && OnlyAdds(s, t, who, l)
    ensures Fenced(t, who, m)
  {
    forall c <- m.claims, q <- t.requests | q.who == who && Strikes(t, q.op)
      ensures q.op.Release? && q.op.channel == c
    {
      if q in s.requests {
        assert RequestOk(s, q);
      } else if UnderWay(s, q) {
        assert RequestOk(s, q.(awaited := true));
      } else {
        assert c in m.claims.Keys;
      }
    }
  }

  lemma GuardedLasts(s: State, t: State, who: string, l: Instance, m: Instance)
    requires Guarded(s, who, l) && Later(s, t) && Custody(s, t, who)
    requires SameHolds(l, m)
    ensures Guarded(t, who, m)
  {
    forall c <- m.claims | !GivenUp(m.inbox, c) ensures GuardedHold(t, who, m.inbox, c, m.claims[c]) {
      assert GuardedHold(s, who, l.inbox, c, l.claims[c]);
    }
  }

  /** The stored claim an arriving win stands for is the instance's own and still good. */
  lemma WinIsGood(s: State, who: string, l: Instance, p: nat)
    requires Base(s) && LocalOk(s, who, l)
    requires p < |l.inbox| && Winning(s, l.inbox[p]) && WinOk(s, who, l, p)
    ensures Writes(l.inbox[p].request.op)
    ensures s.stored.Some? && s.stored.value.claim == Proposal(l.inbox[p].request)
    ensures s.stored.value.claim.owner == who && s.stored.value.claim.expiresAt > s.now
  {
    assert ReplyOk(s, who, l.inbox[p]);
  }

  lemma WinsLast(s: State, t: State, who: string, l: Instance, m: Instance)
    requires Base(s) && LocalOk(s, who, l) && Wins(s, who, l) && Later(s, t) && Custody(s, t, who)
    requires SameHolds(l, m) && OnlyAdds(s, t, who, l)
    ensures Wins(t, who, m)
  {
    forall p | 0 <= p < |m.inbox| && Winning(t, m.inbox[p]) ensures WinOk(t, who, m, p) {
      assert WinOk(s, who, l, p);
      WinIsGood(s, who, l, p);
    }
  }

  lemma Carried(s: State, t: State, who: string, l: Instance, m: Instance)
    requires Base(s) && LocalOk(s, who, l) && Sound(s, who, l) && Later(s, t) && Custody(s, t, who)
    requires SameHolds(l, m) && OnlyAdds(s, t, who, l)
    ensures Sound(t, who, m)
  {
    FencedLasts(s, t, who, l, m);
    GuardedLasts(s, t, who, l, m);
    WinsLast(s, t, who, l, m);
  }

  // ---- the broker serves a request -----------------------------------------------------------

  /** The state once the broker has done its part and before anybody hears of it. */
  function Served(s: State, q: Request): State {
    s.(stored := Broker(s.stored, s.sequence, q).0, sequence := s.sequence + 1, requests := s.requests - multiset{q})
  }

  /** The operation quotes a revision as the instance's own. */
  predicate Quoting(op: Op) {
    op.Renew? || op.Release? || op.Discard?
  }

  /** No request takes a claim that is still good from anybody but the instance that made it, and then only
      by quoting the claim's revision. */
  lemma ServeKeepsCustody(s: State, q: Request, who: string)
    requires Base(s) && q in s.requests
    requires who != q.who || !Quoting(q.op) || !IsCurrent(s.stored, q.op.revision)
    ensures Custody(s, Served(s, q), who)
  {
    assert RequestOk(s, q);
  }

  lemma ServedIsLater(s: State, q: Request)
    requires Base(s) && q in s.requests
    ensures Later(s, Served(s, q)) && StoredOk(Served(s, q))
    ensures forall r <- Served(s, q).requests :: r in s.requests
  {
    assert RequestOk(s, q);
  }

  lemma OthersServed(s: State, q: Request, who: string, l: Instance)
    requires Base(s) && q in s.requests && LocalOk(s, who, l) && Sound(s, who, l)
    requires who != q.who || !Quoting(q.op) || !IsCurrent(s.stored, q.op.revision)
    ensures Sound(Served(s, q), who, l)
  {
    hide Sound, Base, LocalOk, Custody;
    ServedIsLater(s, q);
    ServeKeepsCustody(s, q, who);
    Carried(s, Served(s, q), who, l, l);
  }

  /** While an instance can quote the stored revision, no win is on its way to it. */
  lemma NothingToWin(s: State, q: Request, l: Instance)
    requires q in s.requests && Wins(s, q.who, l)
    requires Quoting(q.op) && IsCurrent(s.stored, q.op.revision)
    ensures forall r <- l.inbox :: !Winning(s, r)
  {
    forall p | 0 <= p < |l.inbox| ensures !Winning(s, l.inbox[p]) {
      assert Quotes(q.op, q.op.revision);
      assert Winning(s, l.inbox[p]) ==> WinOk(s, q.who, l, p);
    }
  }

  /** An instance's own renewal only ever pushes the stored expiry forward. */
  lemma RenewalServed(s: State, q: Request, l: Instance)
    requires Base(s) && q in s.requests && LocalOk(s, q.who, l) && Sound(s, q.who, l)
    requires q.op.Renew? && IsCurrent(s.stored, q.op.revision)
    ensures Sound(Served(s, q), q.who, l)
    ensures Guard(Served(s, q), q.who, q.op.stamp + CLAIM_LEASE_MS)
  {
    var t := Served(s, q);
    ServedIsLater(s, q);
    assert RequestOk(s, q);
    FencedLasts(s, t, q.who, l, l);
    forall c <- l.claims | !GivenUp(l.inbox, c) ensures GuardedHold(t, q.who, l.inbox, c, l.claims[c]) {
      assert GuardedHold(s, q.who, l.inbox, c, l.claims[c]);
    }
    NothingToWin(s, q, l);
  }

  /** A delete that nobody hears of does no harm to an instance that holds nothing. */
  lemma DeleteServed(s: State, q: Request, l: Instance)
    requires Base(s) && q in s.requests && LocalOk(s, q.who, l) && Sound(s, q.who, l)
    requires (q.op.Discard? || q.op.Release?) && IsCurrent(s.stored, q.op.revision) && l.claims == map[]
    ensures Sound(Served(s, q), q.who, l)
  {
    var t := Served(s, q);
    ServedIsLater(s, q);
    FencedLasts(s, t, q.who, l, l);
    NothingToWin(s, q, l);
  }

  /** A collected orphan's claim is dropped only while the instance holds nothing. */
  lemma DiscardServed(s: State, q: Request, l: Instance)
    requires q in s.requests && Sound(s, q.who, l)
    requires q.op.Discard? && IsCurrent(s.stored, q.op.revision)
    ensures l.claims == map[]
  {
    assert Strikes(s, q.op);
    assert forall c <- l.claims :: false;
  }

  /** Deleting the stored claim by a release can only concern the hold of that channel. */
  lemma ReleaseHitsItsHold(s: State, q: Request, l: Instance)
    requires q in s.requests && Fenced(s, q.who, l)
    requires q.op.Release? && IsCurrent(s.stored, q.op.revision)
    ensures l.claims.Keys <= {q.op.channel}
  {
    assert Strikes(s, q.op);
  }

  lemma GrantGivesUp(l: Instance, q: Request)
    requires q.op.Release? && l.claims.Keys <= {q.op.channel}
    ensures forall c <- l.claims :: GivenUp(l.inbox + [Reply(q, Deleted)], c)
  {
    var inbox := l.inbox + [Reply(q, Deleted)];
    forall c <- l.claims ensures GivenUp(inbox, c) {
      assert c in l.claims.Keys;
      assert inbox[|l.inbox|] in inbox && IsGrant(inbox[|l.inbox|], c);
    }
  }

  /** No win is on its way, before or after an answer that writes nothing. */
  lemma NoWins(s: State, t: State, who: string, l: Instance, r: Reply)
    requires (forall x <- l.inbox :: !Winning(s, x)) && !r.outcome.Written?
    requires t.now == s.now && t.patience == s.patience
    ensures Wins(t, who, l.(inbox := l.inbox + [r]))
  {
    var inbox := l.inbox + [r];
    forall p | 0 <= p < |inbox| ensures !Winning(t, inbox[p]) {
      assert p < |l.inbox| ==> inbox[p] in l.inbox;
    }
  }

  /** A granted release leaves the hold waiting for the news and nothing else at stake. */
  lemma ReleaseServed(s: State, q: Request, l: Instance)
    requires Base(s) && q in s.requests && LocalOk(s, q.who, l) && Sound(s, q.who, l)
    requires q.op.Release? && IsCurrent(s.stored, q.op.revision)
    ensures Sound(Served(s, q), q.who, l.(inbox := l.inbox + [Reply(q, Deleted)]))
  {
    hide Base, LocalOk, Wins, GivenUp;
    ServedIsLater(s, q);
    FencedLasts(s, Served(s, q), q.who, l, l);
    ReleaseHitsItsHold(s, q, l);
    GrantGivesUp(l, q);
    NothingToWin(s, q, l);
    NoWins(s, Served(s, q), q.who, l, Reply(q, Deleted));
    assert Fenced(Served(s, q), q.who, l.(inbox := l.inbox + [Reply(q, Deleted)]));
    hide Fenced, Broker;
    GrantTimely(s, q, l);
    hide Timely;
  }

  lemma GrantTimely(s: State, q: Request, l: Instance)
    requires Timely(s, q.who, l) && q.op.Release?
    ensures Timely(Served(s, q), q.who, l.(inbox := l.inbox + [Reply(q, Deleted)]))
  {
    hide Broker;
  }

  lemma AppendedGuards(s: State, who: string, l: Instance, r: Reply)
    requires Guarded(s, who, l) && !r.outcome.Deleted?
    requires forall c <- l.claims | Promise(r, c, l.claims[c].serial).Some? ::
               Guard(s, who, Promise(r, c, l.claims[c].serial).value)
    ensures Guarded(s, who, l.(inbox := l.inbox + [r]))
  {
    hide Guard, Promise;
    var m := l.(inbox := l.inbox + [r]);
    forall c <- m.claims | !GivenUp(m.inbox, c) ensures GuardedHold(s, who, m.inbox, c, m.claims[c]) {
      assert GivenUp(l.inbox, c) ==> GivenUp(m.inbox, c);
      assert GuardedHold(s, who, l.inbox, c, l.claims[c]);
    }
  }

  lemma AppendedWins(s: State, who: string, l: Instance, r: Reply)
    requires Wins(s, who, l) && !r.outcome.Deleted?
    requires var m := l.(inbox := l.inbox + [r]); Winning(s, r) ==> WinOk(s, who, m, |l.inbox|)
    ensures Wins(s, who, l.(inbox := l.inbox + [r]))
  {
    hide Mentions, Quotes, GivenUp, IsCurrent;
    var m := l.(inbox := l.inbox + [r]);
    forall p | 0 <= p < |m.inbox| && Winning(s, m.inbox[p]) ensures WinOk(s, who, m, p) {
      if p < |l.inbox| {
        assert WinOk(s, who, l, p);
        assert m.inbox[..p] == l.inbox[..p] && m.inbox[p + 1..] == l.inbox[p + 1..] + [r];
      }
    }
  }

  /** Adding an answer that grants nothing. */
  lemma Appended(s: State, who: string, l: Instance, r: Reply)
    requires Sound(s, who, l) && !r.outcome.Deleted?
    requires Taking(r.request.op) ==> Outlasts(l, r.request.start + s.patience)
    requires forall c <- l.claims | Promise(r, c, l.claims[c].serial).Some? ::
               Guard(s, who, Promise(r, c, l.claims[c].serial).value)
    requires var m := l.(inbox := l.inbox + [r]); Winning(s, r) ==> WinOk(s, who, m, |l.inbox|)
    ensures Sound(s, who, l.(inbox := l.inbox + [r]))
  {
    hide Guarded, Wins;
    AppendedGuards(s, who, l, r);
    AppendedWins(s, who, l, r);
  }

  /** The broker's answer to a request. */
  function Verdict(s: State, q: Request): Reply {
    Reply(q, Broker(s.stored, s.sequence, q).1)
  }

  /** A take succeeds only once every earlier hold of the instance has been given up at the bucket: a hold that
      has not been is good for longer than the chain may take. */
  lemma WinnersGaveUp(s: State, q: Request, l: Instance)
    requires Base(s) && q in s.requests && q.awaited && Sound(s, q.who, l)
    requires Winning(Served(s, q), Verdict(s, q))
    ensures forall c <- l.claims :: GivenUp(l.inbox, c)
  {
    hide Wins, Fenced, LocalOk, Promise;
    assert RequestOk(s, q);
    forall c <- l.claims ensures GivenUp(l.inbox, c) {
      assert Outlasts(l, q.start + s.patience);
      assert !GivenUp(l.inbox, c) ==> GuardedHold(s, q.who, l.inbox, c, l.claims[c]);
    }
  }

  /** Nobody has heard of the next revision. */
  lemma NextIsNew(s: State, who: string, l: Instance)
    requires Base(s) && LocalOk(s, who, l)
    ensures forall r <- l.inbox :: !Mentions(r, s.sequence + 1)
    ensures forall q <- s.requests :: !Quotes(q.op, s.sequence + 1)
    ensures !KnownTo(l, s.sequence + 1)
  {
    forall r <- l.inbox ensures !Mentions(r, s.sequence + 1) {
      assert ReplyOk(s, who, r);
    }
    forall q <- s.requests ensures !Quotes(q.op, s.sequence + 1) {
      assert RequestOk(s, q);
    }
    assert forall c <- l.claims :: HeldOk(s, who, l.serial, l.claims[c]);
  }

  lemma WinServed(s: State, q: Request, l: Instance)
    requires Base(s) && q in s.requests && q.awaited && LocalOk(s, q.who, l) && Sound(s, q.who, l)
    requires Winning(Served(s, q), Verdict(s, q))
    ensures WinOk(Served(s, q), q.who, l.(inbox := l.inbox + [Verdict(s, q)]), |l.inbox|)
  {
    hide Sound, Base, LocalOk, Mentions, Quotes, GivenUp;
    var m := l.(inbox := l.inbox + [Verdict(s, q)]);
    WinnersGaveUp(s, q, l);
    NextIsNew(s, q.who, l);
    ServedIsLater(s, q);
    assert m.inbox[..|l.inbox|] == l.inbox && m.inbox[|l.inbox| + 1..] == [];
  }

  /** What the broker answers keeps the instance that asked sound. */
  lemma OwnServed(s: State, q: Request, l: Instance)
    requires Base(s) && q in s.requests && q.awaited && LocalOk(s, q.who, l) && Sound(s, q.who, l)
    ensures Sound(Served(s, q), q.who, l.(inbox := l.inbox + [Verdict(s, q)]))
  {
    hide Base, Sound, WinOk, LocalOk;
    var t := Served(s, q);
    if q.op.Release? && IsCurrent(s.stored, q.op.revision) {
      ReleaseServed(s, q, l);
    } else {
      assert !q.op.Discard? by { AwaitedIsNoDiscard(s, q); }
      if q.op.Renew? && IsCurrent(s.stored, q.op.revision) {
        RenewalServed(s, q, l);
      } else {
        OthersServed(s, q, q.who, l);
      }
      if Winning(t, Verdict(s, q)) {
        WinServed(s, q, l);
      }
      TakingOutlasts(s, q, l);
      Appended(t, q.who, l, Verdict(s, q));
    }
  }

  lemma AwaitedIsNoDiscard(s: State, q: Request)
    requires Base(s) && q in s.requests && q.awaited
    ensures !q.op.Discard?
  {
    assert RequestOk(s, q);
  }

  lemma TakingOutlasts(s: State, q: Request, l: Instance)
    requires Sound(s, q.who, l) && q in s.requests && q.awaited
    ensures Taking(q.op) ==> Outlasts(l, q.start + s.patience)
  {
  }

  /** Soundness depends on the clock, the stored claim and the requests only. */
  lemma SameView(s: State, t: State, who: string, l: Instance, m: Instance)
    requires Sound(s, who, l) && SameHolds(l, m)
    requires t.now == s.now && t.stored == s.stored && t.requests == s.requests && t.patience == s.patience
    ensures Sound(t, who, m)
  {
    hide Guarded, Wins;
    SameGuards(s, t, who, l, m);
    SameWins(s, t, who, l, m);
  }

  lemma SameGuards(s: State, t: State, who: string, l: Instance, m: Instance)
    requires Guarded(s, who, l) && SameHolds(l, m) && t.now == s.now && t.stored == s.stored
    ensures Guarded(t, who, m)
  {
    hide Promise;
    forall c <- l.claims | !GivenUp(l.inbox, c) ensures GuardedHold(t, who, l.inbox, c, l.claims[c]) {
      assert GuardedHold(s, who, l.inbox, c, l.claims[c]);
    }
  }

  lemma SameWins(s: State, t: State, who: string, l: Instance, m: Instance)
    requires Wins(s, who, l) && SameHolds(l, m)
    requires t.now == s.now && t.stored == s.stored && t.requests == s.requests && t.patience == s.patience
    ensures Wins(t, who, m)
  {
    hide Mentions, Quotes, GivenUp, IsCurrent;
    forall p | 0 <= p < |l.inbox| && Winning(t, l.inbox[p]) ensures WinOk(t, who, m, p) {
      assert WinOk(s, who, l, p);
    }
  }

  lemma VerdictOk(s: State, q: Request, t: State)
    requires Base(s) && q in s.requests && q.awaited
    requires t.now == s.now && t.sequence == s.sequence + 1 && t.stored == Broker(s.stored, s.sequence, q).0
    requires Later(s, t) && Local(s, q.who).serial <= Local(t, q.who).serial
    ensures ReplyOk(t, q.who, Verdict(s, q))
  {
    assert RequestOk(s, q);
    RequestLasts(s, t, q);
  }

  lemma AnswerKeepsBase(s: State, q: Request, answered: bool)
    requires Base(s) && q in s.requests
    ensures Base(Serve(s, q, answered))
  {
    hide Broker, RequestOk, ReplyOk, HeldOk;
    var t, l := Serve(s, q, answered), Local(s, q.who);
    ServedIsLater(s, q);
    LocalLasts(s, t, q.who, l);
    if q.awaited && answered {
      VerdictOk(s, q, t);
    }
    BaseStep(s, t, q.who);
  }

  lemma AnswerKeepsSound(s: State, q: Request, answered: bool, who: string)
    requires Inv(s) && q in s.requests && who !in Serve(s, q, answered).misled
    ensures Sound(Serve(s, q, answered), who, Local(Serve(s, q, answered), who))
  {
    hide Sound, Broker, RequestOk, ReplyOk, HeldOk, LocalOk;
    var u, t, l := Served(s, q), Serve(s, q, answered), Local(s, who);
    assert RequestOk(s, q) && LocalOk(s, who, l) && Sound(s, who, l);
    if who != q.who {
      OthersServed(s, q, who, l);
      SameView(u, t, who, l, l);
    } else if q.awaited && answered {
      OwnServed(s, q, l);
      var m := l.(inbox := l.inbox + [Verdict(s, q)]);
      SameView(u, t, who, m, m);
    } else {
      if q.op.Release? && IsCurrent(s.stored, q.op.revision) && l.claims != map[] {
        UnheardGrantMisleads(s, q, answered);
      }
      SilentlyServed(s, q, l);
      SameView(u, t, who, l, Local(t, who));
    }
  }

  lemma UnheardGrantMisleads(s: State, q: Request, answered: bool)
    requires !q.awaited || !answered
    requires q.op.Release? && IsCurrent(s.stored, q.op.revision) && Local(s, q.who).claims != map[]
    ensures q.who in Serve(s, q, answered).misled
  {
  }

  /** A request nobody hears the end of keeps the instance that made it sound, unless it is a release that
      takes the claim from under a hold. */
  lemma SilentlyServed(s: State, q: Request, l: Instance)
    requires Base(s) && q in s.requests && LocalOk(s, q.who, l) && Sound(s, q.who, l)
    requires q.op.Release? && IsCurrent(s.stored, q.op.revision) ==> l.claims == map[]
    ensures Sound(Served(s, q), q.who, l)
  {
    hide Sound, Base, LocalOk;
    if q.op.Renew? && IsCurrent(s.stored, q.op.revision) {
      RenewalServed(s, q, l);
    } else if Quoting(q.op) && IsCurrent(s.stored, q.op.revision) {
      if q.op.Discard? {
        DiscardServed(s, q, l);
      }
      DeleteServed(s, q, l);
    } else {
      OthersServed(s, q, q.who, l);
    }
  }

  // ---- an answer arrives ---------------------------------------------------------------------

  function Popped(l: Instance): Instance
    requires l.inbox != []
  {
    l.(inbox := l.inbox[1..])
  }

  /** Holding nothing: whatever else is known stays true. */
  lemma Emptied(s: State, who: string, l: Instance, m: Instance)
    requires Sound(s, who, l) && l.inbox != []
    requires m.slot == None && m.claims == map[] && m.takeover == l.takeover && m.inbox == l.inbox[1..]
    ensures Sound(s, who, m)
  {
    forall p | 0 <= p < |m.inbox| && Winning(s, m.inbox[p]) ensures WinOk(s, who, m, p) {
      assert m.inbox[p] == l.inbox[p + 1];
      assert WinOk(s, who, l, p + 1);
      assert m.inbox[..p] == l.inbox[1..p + 1] && m.inbox[p + 1..] == l.inbox[p + 2..];
      assert forall r <- m.inbox[..p] :: r in l.inbox[..p + 1];
    }
  }

  /** An answer that is not a grant may be set aside. */
  lemma PoppedIsSound(s: State, who: string, l: Instance)
    requires Sound(s, who, l) && l.inbox != [] && !l.inbox[0].outcome.Deleted?
    ensures Sound(s, who, Popped(l))
  {
    hide Wins;
    var m, head := Popped(l), l.inbox[0];
    assert l.inbox == [head] + m.inbox;
    forall c <- l.claims | !GivenUp(m.inbox, c) ensures GuardedHold(s, who, m.inbox, c, l.claims[c]) {
      assert !GivenUp(l.inbox, c);
      assert GuardedHold(s, who, l.inbox, c, l.claims[c]);
    }
    PoppedWins(s, who, l);
  }

  lemma PoppedWins(s: State, who: string, l: Instance)
    requires Wins(s, who, l) && l.inbox != [] && !l.inbox[0].outcome.Deleted?
    ensures Wins(s, who, Popped(l))
  {
    hide Mentions, Quotes, IsCurrent;
    var m, head := Popped(l), l.inbox[0];
    forall p | 0 <= p < |m.inbox| && Winning(s, m.inbox[p]) ensures WinOk(s, who, m, p) {
      assert m.inbox[p] == l.inbox[p + 1];
      assert WinOk(s, who, l, p + 1);
      assert l.inbox[..p + 1] == [head] + m.inbox[..p] && m.inbox[p + 1..] == l.inbox[p + 2..];
      forall c <- m.claims ensures GivenUp(m.inbox[..p], c) {
        assert GivenUp(l.inbox[..p + 1], c);
      }
    }
  }

  /** When a win arrives the instance holds nothing, and no other win or grant is behind it. */
  lemma WinIsAlone(s: State, who: string, l: Instance)
    requires Sound(s, who, l) && l.inbox != [] && Winning(s, l.inbox[0])
    ensures WinOk(s, who, l, 0) && l.claims == map[]
    ensures forall r <- l.inbox[1..] :: !Winning(s, r) && !r.outcome.Deleted?
  {
    assert WinOk(s, who, l, 0);
    assert forall c <- l.claims :: GivenUp([], c);
    forall p | 1 <= p < |l.inbox| ensures !Winning(s, l.inbox[p]) {
      assert l.inbox[0] in l.inbox[..p];
    }
  }

  /** The call is parked: the hold outlasts every chain still under way and nothing threatens it. */
  lemma Recorded(s: State, who: string, l: Instance)
    requires Base(s) && LocalOk(s, who, l) && Sound(s, who, l) && Local(s, who).serial <= l.serial
    requires l.inbox != [] && Winning(s, l.inbox[0]) && !l.inbox[0].request.op.TakeOver?
    ensures var r := l.inbox[0];
            && Writes(r.request.op)
            && Sound(s, who, Record(Popped(l), r.request.op.channel, r.outcome.revision, s.now,
                                    r.request.start + CLAIM_LEASE_MS))
  {
    var r := l.inbox[0];
    var m := Record(Popped(l), r.request.op.channel, r.outcome.revision, s.now, r.request.start + CLAIM_LEASE_MS);
    WinIsAlone(s, who, l);
    assert ReplyOk(s, who, r);
    forall q <- s.requests | q.who == who
      ensures Outlasts(m, q.start + s.patience) && !Strikes(s, q.op)
    {
      assert RequestOk(s, q) && !Quotes(q.op, r.outcome.revision);
    }
    forall x <- m.inbox
      ensures Outlasts(m, x.request.start + s.patience) && Promise(x, r.request.op.channel, l.serial).None?
    {
      assert x in l.inbox && ReplyOk(s, who, x) && RequestOk(s, x.request);
    }
  }

  /** The right to collect an orphan is won only while the instance holds nothing. */
  lemma TakenOver(s: State, who: string, l: Instance)
    requires Sound(s, who, l) && l.inbox != [] && Winning(s, l.inbox[0])
    ensures Sound(s, who, Popped(l).(takeover := Some(l.inbox[0].outcome.revision)))
  {
    WinIsAlone(s, who, l);
    var m := Popped(l).(takeover := Some(l.inbox[0].outcome.revision));
    assert forall r <- m.inbox :: r in l.inbox;
  }

  lemma LearnedGuards(s: State, who: string, l: Instance, channel: string, serial: nat, revision: nat, lease: int)
    requires Guarded(s, who, l) && l.inbox != [] && !l.inbox[0].outcome.Deleted?
    requires Promise(l.inbox[0], channel, serial) == Some(lease)
    ensures Guarded(s, who, Learn(Popped(l), channel, serial, revision, s.now, lease))
  {
    var k, head := Popped(l), l.inbox[0];
    var m := Learn(k, channel, serial, revision, s.now, lease);
    assert l.inbox == [head] + k.inbox;
    forall c <- m.claims | !GivenUp(m.inbox, c) ensures GuardedHold(s, who, m.inbox, c, m.claims[c]) {
      assert !GivenUp(l.inbox, c);
      assert GuardedHold(s, who, l.inbox, c, l.claims[c]);
    }
  }

  lemma LearnedWins(s: State, who: string, l: Instance, channel: string, serial: nat, revision: nat, lease: int)
    requires l.inbox != [] && Wins(s, who, l) && Wins(s, who, Popped(l)) && Mentions(l.inbox[0], revision)
    ensures Wins(s, who, Learn(Popped(l), channel, serial, revision, s.now, lease))
  {
    hide Mentions, WinOk;
    var k, head := Popped(l), l.inbox[0];
    var m := Learn(k, channel, serial, revision, s.now, lease);
    forall p | 0 <= p < |m.inbox| && Winning(s, m.inbox[p]) ensures WinOk(s, who, m, p) {
      assert m.inbox[p] == l.inbox[p + 1] && head in l.inbox[..p + 1];
      assert WinOk(s, who, k, p) && WinOk(s, who, l, p + 1);
      WinOkMeans(s, who, k, p);
      WinOkMeans(s, who, l, p + 1);
      WinSurvives(s, who, k, m, p);
    }
  }

  lemma WinOkMeans(s: State, who: string, l: Instance, p: nat)
    requires p < |l.inbox| && l.inbox[p].outcome.Written? && WinOk(s, who, l, p)
    ensures forall r <- l.inbox[..p] :: !Mentions(r, l.inbox[p].outcome.revision)
    ensures forall c <- l.claims :: l.claims[c].revision != l.inbox[p].outcome.revision
  {
  }

  /** A win stays a win while the holds stay the same channels and none learns its revision. */
  lemma WinSurvives(s: State, who: string, l: Instance, m: Instance, p: nat)
    requires p < |l.inbox| && l.inbox[p].outcome.Written? && WinOk(s, who, l, p)
    requires m.inbox == l.inbox && m.takeover == l.takeover
    requires forall c <- m.claims :: c in l.claims && m.claims[c].revision != l.inbox[p].outcome.revision
    ensures WinOk(s, who, m, p)
  {
    hide Mentions, Quotes, IsGrant;
  }

  /** A renewal's answer teaches the hold what the bucket already keeps. */
  lemma Learned(s: State, who: string, l: Instance, channel: string, serial: nat, revision: nat, lease: int)
    requires Sound(s, who, l) && l.inbox != [] && !l.inbox[0].outcome.Deleted?
    requires Promise(l.inbox[0], channel, serial) == Some(lease) && Mentions(l.inbox[0], revision)
    ensures Sound(s, who, Learn(Popped(l), channel, serial, revision, s.now, lease))
  {
    hide Guarded, Wins;
    PoppedIsSound(s, who, l);
    LearnedGuards(s, who, l, channel, serial, revision, lease);
    LearnedWins(s, who, l, channel, serial, revision, lease);
    assert Learn(Popped(l), channel, serial, revision, s.now, lease).claims.Keys == l.claims.Keys;
  }

  /** The instance's view after an answer that came in time, and the request it leads to. */
  lemma Handled(s: State, who: string, l: Instance)
    requires Base(s) && LocalOk(s, who, l) && Sound(s, who, l) && l.serial == Local(s, who).serial
    requires l.inbox != [] && s.now < l.inbox[0].request.start + s.patience
    ensures Sound(s, who, Handle(Popped(l), l.inbox[0], s.now).0)
  {
    hide Sound, LocalOk, Base, Winning;
    var k, r := Popped(l), l.inbox[0];
    ShapeOf(s, who, l);
    AnswerShape(s, who, l);
    match (r.request.op, r.outcome)
    case (Create(_), Written(_)) => Recorded(s, who, l);
    case (Reap(_, _), Written(_)) => Recorded(s, who, l);
    case (TakeOver(_, _, _), Written(_)) => TakenOver(s, who, l);
    case (Renew(channel, serial, stamp, _), Written(revision)) =>
      Learned(s, who, l, channel, serial, revision, stamp + CLAIM_LEASE_MS);
    case (ReadForRenew(channel, serial), Current(current)) =>
      if channel !in k.retrieving && current.Some? && current.value.claim.owner == r.request.who {
        Learned(s, who, l, channel, serial, current.value.revision, current.value.claim.expiresAt);
      } else if channel in k.retrieving {
        PoppedIsSound(s, who, l);
      } else {
        Emptied(s, who, l, Drop(k, channel));
      }
    case (Release(_, _), Deleted) => Emptied(s, who, l, Handle(k, r, s.now).0);
    case _ =>
      PoppedIsSound(s, who, l);
      SameView(s, s, who, k, Handle(k, r, s.now).0);
  }

  lemma ShapeOf(s: State, who: string, l: Instance)
    requires Sound(s, who, l)
    ensures Shape(l)
  {
  }

  /** Which answers can arrive: a win is a win, and only a release is ever granted. */
  lemma AnswerShape(s: State, who: string, l: Instance)
    requires LocalOk(s, who, l) && l.inbox != []
    requires s.now < l.inbox[0].request.start + s.patience
    ensures var r := l.inbox[0];
            && (r.outcome.Written? ==> Writes(r.request.op)) && (r.outcome.Deleted? ==> r.request.op.Release?)
            && (Winning(s, r) <==> r.outcome.Written? && !r.request.op.Renew?)
  {
    assert ReplyOk(s, who, l.inbox[0]);
  }

  // ---- an answer arrives: the whole step -------------------------------------------------------

  lemma RecordOk(s: State, who: string, l: Instance, channel: string, revision: nat, lease: int)
    requires LocalOk(s, who, l) && Fits(s, revision, who) && StoredOk(s)
    ensures LocalOk(s, who, Record(l, channel, revision, s.now, lease))
  {
    hide ReplyOk;
  }

  lemma LearnOk(s: State, who: string, l: Instance, channel: string, serial: nat, revision: nat, lease: int)
    requires LocalOk(s, who, l) && Fits(s, revision, who) && StoredOk(s)
    ensures LocalOk(s, who, Learn(l, channel, serial, revision, s.now, lease))
  {
    hide ReplyOk;
  }

  lemma HandledLocal(s: State, t: State, who: string, l: Instance)
    requires Base(s) && LocalOk(s, who, l) && l.serial == Local(s, who).serial && l.inbox != []
    requires Later(s, t) && t.stored == s.stored && t.now == s.now && t.sequence == s.sequence
    requires l.serial <= Local(t, who).serial
    ensures LocalOk(t, who, Handle(Popped(l), l.inbox[0], s.now).0)
  {
    hide RequestOk, HeldOk, LocalOk;
    var k, r := Popped(l), l.inbox[0];
    LocalLasts(s, t, who, l);
    PoppedOk(t, who, l);
    match (r.request.op, r.outcome)
    case (Create(channel), Written(revision)) =>
      RecordOk(t, who, k, channel, revision, r.request.start + CLAIM_LEASE_MS);
    case (Reap(channel, _), Written(revision)) =>
      RecordOk(t, who, k, channel, revision, r.request.start + CLAIM_LEASE_MS);
    case (Renew(channel, serial, stamp, _), Written(revision)) =>
      LearnOk(t, who, k, channel, serial, revision, stamp + CLAIM_LEASE_MS);
    case (ReadForRenew(channel, serial), Current(current)) =>
      if current.Some? && current.value.claim.owner == who {
        LearnOk(t, who, k, channel, serial, current.value.revision, current.value.claim.expiresAt);
      }
      FewerOk(t, who, k, Drop(k, channel));
    case (TakeOver(_, _, _), Written(revision)) =>
      TakeoverOk(t, who, k, revision);
    case _ =>
      FewerOk(t, who, k, Handle(k, r, s.now).0);
  }

  /** Setting an answer aside; the answer itself is well founded. */
  lemma PoppedOk(s: State, who: string, l: Instance)
    requires LocalOk(s, who, l) && l.inbox != []
    ensures LocalOk(s, who, Popped(l)) && ReplyOk(s, who, l.inbox[0])
    ensures l.inbox[0].outcome.Written? ==> Fits(s, l.inbox[0].outcome.revision, who)
  {
    hide HeldOk;
    assert forall x <- Popped(l).inbox :: x in l.inbox;
    assert ReplyOk(s, who, l.inbox[0]);
  }

  lemma TakeoverOk(s: State, who: string, l: Instance, revision: nat)
    requires LocalOk(s, who, l) && Fits(s, revision, who)
    ensures LocalOk(s, who, l.(takeover := Some(revision)))
  {
    hide HeldOk, ReplyOk;
  }

  lemma FewerOk(s: State, who: string, l: Instance, m: Instance)
    requires LocalOk(s, who, l) && m.takeover == l.takeover && m.inbox == l.inbox && m.serial == l.serial
    requires forall c <- m.claims :: c in l.claims && m.claims[c] == l.claims[c]
    ensures LocalOk(s, who, m)
  {
    hide HeldOk, ReplyOk;
  }

  /** The next request of a chain is as well founded as the answer it follows from. */
  lemma NextRequestOk(s: State, t: State, who: string, l: Instance)
    requires Base(s) && LocalOk(s, who, l) && l.inbox != []
    requires Later(s, t) && t.stored == s.stored && t.now == s.now && t.sequence == s.sequence
    requires Local(s, who).serial <= Local(t, who).serial
    requires Handle(Popped(l), l.inbox[0], s.now).1.Some?
    ensures var q := Request(who, l.inbox[0].request.start, true, Handle(Popped(l), l.inbox[0], s.now).1.value);
            && RequestOk(t, q)
            && !Quoting(q.op) && (Taking(q.op) ==> Taking(l.inbox[0].request.op))
  {
    assert ReplyOk(s, who, l.inbox[0]);
  }

  lemma DeliverKeepsBase(s: State, who: string)
    requires Base(s) && Local(s, who).inbox != []
    ensures Base(Deliver(s, who))
  {
    hide RequestOk, ReplyOk, HeldOk, Handle;
    var t, l := Deliver(s, who), Local(s, who);
    assert LocalOk(s, who, l);
    SerialGrows(Popped(l), l.inbox[0], s.now);
    if s.now < l.inbox[0].request.start + s.patience {
      HandledLocal(s, t, who, l);
      if Handle(Popped(l), l.inbox[0], s.now).1.Some? {
        NextRequestOk(s, t, who, l);
      }
    } else {
      LocalLasts(s, t, who, l);
      assert forall r <- Popped(l).inbox :: r in l.inbox;
      assert ReplyOk(s, who, l.inbox[0]);
      assert l.inbox[0].request.who == who by { OwnReply(s, who, l.inbox[0]); }
    }
    BaseStep(s, t, who);
  }

  lemma OwnReply(s: State, who: string, r: Reply)
    requires ReplyOk(s, who, r)
    ensures r.request.who == who && r.request.awaited
  {
  }

  lemma SerialGrows(l: Instance, r: Reply, now: int)
    ensures l.serial <= Handle(l, r, now).0.serial
  {
  }

  lemma DeliverKeepsSound(s: State, who: string, other: string)
    requires Inv(s) && Local(s, who).inbox != [] && other !in Deliver(s, who).misled
    ensures Sound(Deliver(s, who), other, Local(Deliver(s, who), other))
  {
    hide Sound, RequestOk, ReplyOk, HeldOk, LocalOk, Handle;
    var t, l, r := Deliver(s, who), Local(s, who), Local(s, who).inbox[0];
    assert LocalOk(s, other, Local(s, other)) && Sound(s, other, Local(s, other));
    HeadIsOwn(s, who, l);
    if s.now >= r.request.start + s.patience {
      if other != who {
        SameView(s, t, other, Local(s, other), Local(t, other));
      } else {
        if r.outcome.Deleted? {
          ShapeOf(s, who, l);
          Emptied(s, who, l, Popped(l));
        } else {
          PoppedIsSound(s, who, l);
        }
        SameView(s, t, who, Popped(l), Local(t, who));
      }
    } else if other != who {
      Carried(s, t, other, Local(s, other), Local(s, other));
    } else {
      Handled(s, who, l);
      HandledLocal(s, s, who, l);
      NextIsAddable(s, t, who, l);
      Carried(s, t, who, Local(t, who), Local(t, who));
    }
  }

  /** A chain goes on only from where it began, and quotes nothing. */
  lemma NextIsAddable(s: State, t: State, who: string, l: Instance)
    requires Base(s) && l == Local(s, who) && LocalOk(s, who, l) && Sound(s, who, l) && l.inbox != []
    requires s.now < l.inbox[0].request.start + s.patience && t == Deliver(s, who)
    ensures Local(t, who) == Handle(Popped(l), l.inbox[0], s.now).0 && OnlyAdds(s, t, who, Local(t, who))
  {
    hide Guarded, Wins, Fenced, LocalOk, Base, RequestOk, ReplyOk;
    var (m, op) := Handle(Popped(l), l.inbox[0], s.now);
    if op.Some? {
      SerialGrows(Popped(l), l.inbox[0], s.now);
      NextRequestOk(s, t, who, l);
      assert m == Popped(l);
    }
  }

  lemma HeadIsOwn(s: State, who: string, l: Instance)
    requires LocalOk(s, who, l) && l.inbox != []
    ensures var r := l.inbox[0];
            r.request.who == who && r.request.awaited && (r.outcome.Deleted? ==> r.request.op.Release?)
  {
    assert ReplyOk(s, who, l.inbox[0]);
  }
}
