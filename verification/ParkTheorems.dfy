/** Every step keeps the invariant, so every run does; and what the invariant is for. */
module ParkTheorems {
  import opened Wrappers
  import opened ParkClaims
  import opened ParkSafety

  // ---- the steps of one instance -------------------------------------------------------------

  /** The instance `who` looks like `m`, one request is added, and nothing else changes. */
  ghost predicate Sends(s: State, t: State, who: string, m: Instance, q: Request) {
    && t.requests == s.requests + multiset{q} && Local(t, who) == m
    && (forall other | other != who :: Local(t, other) == Local(s, other))
    && t.now == s.now && t.sequence == s.sequence && t.stored == s.stored
    && t.patience == s.patience && t.misled == s.misled
  }

  /** A step that sends one request and changes no hold. */
  lemma SendKeepsInv(s: State, t: State, who: string, m: Instance, q: Request)
    requires Inv(s) && SameHolds(Local(s, who), m) && m.serial == Local(s, who).serial
    requires Sends(s, t, who, m, q) && q.who == who && RequestOk(t, q)
    requires who !in s.misled ==> Addable(t, Local(s, who), q)
    ensures Inv(t)
  {
    hide Sound, RequestOk, ReplyOk, HeldOk;
    LocalLasts(s, t, who, Local(s, who));
    BaseStep(s, t, who);
    forall other | other !in t.misled ensures Sound(t, other, Local(t, other)) {
      Carried(s, t, other, Local(s, other), Local(t, other));
    }
  }

  /** A step by which an instance stops holding the orbit, without a word to the bucket. */
  lemma LetGoKeepsInv(s: State, who: string, m: Instance)
    requires Inv(s) && m.inbox == Local(s, who).inbox && m.serial == Local(s, who).serial
    requires m.takeover == Local(s, who).takeover || m.takeover == None
    requires forall c <- m.claims :: c in Local(s, who).claims && m.claims[c] == Local(s, who).claims[c]
    requires who !in s.misled ==> m.slot == None && m.claims == map[]
    ensures Inv(With(s, who, m))
  {
    hide Sound, RequestOk, ReplyOk, HeldOk;
    var t, l := With(s, who, m), Local(s, who);
    LocalLasts(s, t, who, l);
    BaseStep(s, t, who);
    forall other | other !in t.misled ensures Sound(t, other, Local(t, other)) {
      if other == who {
        Vacated(s, t, who, l, m);
      } else {
        SameView(s, t, other, Local(s, other), Local(t, other));
      }
    }
  }

  lemma Vacated(s: State, t: State, who: string, l: Instance, m: Instance)
    requires Sound(s, who, l)
    requires m.slot == None && m.claims == map[] && m.inbox == l.inbox
    requires m.takeover == l.takeover || m.takeover == None
    requires t.now == s.now && t.stored == s.stored && t.requests == s.requests && t.patience == s.patience
    ensures Sound(t, who, m)
  {
    forall p | 0 <= p < |m.inbox| && Winning(t, m.inbox[p]) ensures WinOk(t, who, m, p) {
      assert WinOk(s, who, l, p);
    }
  }

  lemma TickKeepsInv(s: State, ms: nat)
    requires Inv(s)
    ensures Inv(s.(now := s.now + ms))
  {
    hide Sound, RequestOk, ReplyOk, HeldOk, LocalOk;
    var t := s.(now := s.now + ms);
    LocalLasts(s, t, "", Local(s, ""));
    BaseStep(s, t, "");
    forall other | other !in t.misled ensures Sound(t, other, Local(t, other)) {
      Carried(s, t, other, Local(s, other), Local(t, other));
    }
  }

  /** The bucket's own expiry comes long after any lease. */
  lemma EvictKeepsInv(s: State)
    requires Inv(s) && Enabled(s, Evict)
    ensures Inv(Move(s, Evict))
  {
    hide Sound, RequestOk, ReplyOk, HeldOk, LocalOk;
    var t := Move(s, Evict);
    LocalLasts(s, t, "", Local(s, ""));
    BaseStep(s, t, "");
    forall other | other !in t.misled ensures Sound(t, other, Local(t, other)) {
      Carried(s, t, other, Local(s, other), Local(t, other));
    }
  }

  lemma AbandonKeepsInv(s: State, q: Request)
    requires Inv(s) && Enabled(s, Abandon(q))
    ensures Inv(Move(s, Abandon(q)))
  {
    hide Sound, Base, RequestOk;
    var t := Move(s, Abandon(q));
    AbandonKeepsBase(s, q);
    forall other | other !in t.misled ensures Sound(t, other, Local(t, other)) {
      hide LocalOk;
      LocalOf(s, other);
      Carried(s, t, other, Local(s, other), Local(t, other));
    }
  }

  lemma LocalOf(s: State, who: string)
    requires Base(s)
    ensures LocalOk(s, who, Local(s, who))
  {
  }

  lemma AbandonKeepsBase(s: State, q: Request)
    requires Base(s) && Enabled(s, Abandon(q))
    ensures Base(Move(s, Abandon(q)))
  {
    hide ReplyOk, HeldOk, RequestOk;
    var t, l := Move(s, Abandon(q)), Local(s, q.who);
    assert RequestOk(s, q);
    LocalLasts(s, t, q.who, l);
    RequestLasts(s, t, q);
    AbandonedIsOk(t, q);
    BaseStep(s, t, q.who);
  }

  lemma AbandonedIsOk(s: State, q: Request)
    requires RequestOk(s, q)
    ensures RequestOk(s, q.(awaited := false))
  {
  }

  /** Parking, and going after an orphan, start only while the instance holds nothing. */
  lemma BeginKeepsInv(s: State, who: string, op: Op)
    requires Inv(s) && Local(s, who).slot.None? && (op.Create? || op.ReadForTakeover?)
    ensures Inv(Send(s, Request(who, s.now, true, op)))
  {
    var q, l := Request(who, s.now, true, op), Local(s, who);
    assert who !in s.misled ==> Sound(s, who, l);
    hide Sound, Base, Inv;
    SendKeepsInv(s, Send(s, q), who, l, q);
  }

  lemma HeartbeatKeepsInv(s: State, who: string, channel: string, stamp: int)
    requires Inv(s) && Enabled(s, Heartbeat(who, channel, stamp))
    ensures Inv(Move(s, Heartbeat(who, channel, stamp)))
  {
    var l := Local(s, who);
    var q := Request(who, s.now, true, Renew(channel, l.claims[channel].serial, stamp, l.claims[channel].revision));
    assert LocalOk(s, who, l) && HeldOk(s, who, l.serial, l.claims[channel]);
    hide Sound, Base, Inv;
    SendKeepsInv(s, Move(s, Heartbeat(who, channel, stamp)), who, l, q);
  }

  lemma RetrieveKeepsInv(s: State, who: string)
    requires Inv(s) && Enabled(s, Retrieve(who))
    ensures Inv(Move(s, Retrieve(who)))
  {
    var l := Local(s, who);
    var channel := l.slot.value;
    assert LocalOk(s, who, l) && (who !in s.misled ==> Shape(l));
    if channel in l.claims {
      var q := Request(who, s.now, true, Release(channel, l.claims[channel].revision));
      assert HeldOk(s, who, l.serial, l.claims[channel]);
      hide Sound, Base, Inv;
      SendKeepsInv(s, Move(s, Retrieve(who)), who, l.(retrieving := l.retrieving + {channel}), q);
    } else {
      hide Sound, Base, Inv;
      LetGoKeepsInv(s, who, RemoveLocal(l));
    }
  }

  lemma FreeKeepsInv(s: State, who: string)
    requires Inv(s) && Enabled(s, Free(who))
    ensures Inv(Move(s, Free(who)))
  {
    var l := Local(s, who);
    var q := Request(who, s.now, false, Discard(l.takeover.value));
    assert LocalOk(s, who, l);
    assert who !in s.misled ==> Fenced(s, who, l);
    hide Sound, Base, Inv;
    assert who !in s.misled && Strikes(s, q.op) ==> l.claims == map[];
    SendKeepsInv(s, Move(s, Free(who)), who, l.(takeover := None), q);
  }

  /** Every step, by any instance, by the bucket or by time, keeps the invariant. */
  lemma StepKeepsInv(s: State, step: Step)
    requires Inv(s) && Enabled(s, step)
    ensures Inv(Apply(s, step))
  {
    hide Inv, Move;
    MoveKeepsInv(s, step);
    SettleKeepsInv(Move(s, step));
  }

  /** An instance that has let go of everything is as good as new. */
  lemma SettleKeepsInv(s: State)
    requires Inv(s)
    ensures Inv(Settle(s))
  {
    hide Sound, RequestOk, ReplyOk, HeldOk, Settled;
    var t := Settle(s);
    LocalLasts(s, t, "", Local(s, ""));
    BaseStep(s, t, "");
    forall who | who !in t.misled ensures Sound(t, who, Local(t, who)) {
      if who in s.misled {
        SettledIsSound(s, t, who, Local(s, who));
      } else {
        SameView(s, t, who, Local(s, who), Local(s, who));
      }
    }
  }

  lemma SettledIsSound(s: State, t: State, who: string, l: Instance)
    requires Settled(s, l) && LocalOk(s, who, l) && t.now == s.now && t.patience == s.patience
    ensures Sound(t, who, l)
  {
    forall r <- l.inbox | r.outcome.Deleted? ensures r.request.op.Release? {
      assert ReplyOk(s, who, r);
    }
    forall p | 0 <= p < |l.inbox| ensures !Winning(t, l.inbox[p]) {
      assert l.inbox[p] in l.inbox;
    }
  }

  lemma MoveKeepsInv(s: State, step: Step)
    requires Inv(s) && Enabled(s, step)
    ensures Inv(Move(s, step))
  {
    hide Inv, Serve, Deliver;
    match step
    case Tick(ms) => TickKeepsInv(s, ms);
    case Park(who, channel) => BeginKeepsInv(s, who, Create(channel));
    case Heartbeat(who, channel, stamp) => HeartbeatKeepsInv(s, who, channel, stamp);
    case Retrieve(who) => RetrieveKeepsInv(s, who);
    case Collect(who, channel) => BeginKeepsInv(s, who, ReadForTakeover(channel));
    case Free(who) => FreeKeepsInv(s, who);
    case Forget(who) => ForgetKeepsInv(s, who);
    case Clear(who) => ForgetKeepsInv(s, who);
    case Evict => EvictKeepsInv(s);
    case Abandon(q) => AbandonKeepsInv(s, q);
    case Answer(q, answered) => AnswerKeepsInv(s, q, answered);
    case Receive(who) => ReceiveKeepsInv(s, who);
  }

  lemma AnswerKeepsInv(s: State, q: Request, answered: bool)
    requires Inv(s) && q in s.requests
    ensures Inv(Serve(s, q, answered))
  {
    hide Sound, Base, Serve;
    AnswerKeepsBase(s, q, answered);
    forall who | who !in Serve(s, q, answered).misled
      ensures Sound(Serve(s, q, answered), who, Local(Serve(s, q, answered), who))
    {
      AnswerKeepsSound(s, q, answered, who);
    }
  }

  lemma ReceiveKeepsInv(s: State, who: string)
    requires Inv(s) && Local(s, who).inbox != []
    ensures Inv(Deliver(s, who))
  {
    hide Sound, Base, Deliver;
    DeliverKeepsBase(s, who);
    forall other | other !in Deliver(s, who).misled
      ensures Sound(Deliver(s, who), other, Local(Deliver(s, who), other))
    {
      DeliverKeepsSound(s, who, other);
    }
  }

  lemma ForgetKeepsInv(s: State, who: string)
    requires Inv(s)
    ensures Inv(Move(s, Forget(who))) && Inv(Move(s, Clear(who)))
  {
    var l := Local(s, who);
    assert who !in s.misled ==> Shape(l);
    hide Sound, Base, Inv;
    LetGoKeepsInv(s, who, RemoveLocal(l));
    LetGoKeepsInv(s, who, l.(slot := None, claims := map[], retrieving := {}, takeover := None));
  }

  /** Every state of every run satisfies the invariant. */
  lemma {:induction false} RunKeepsInv(s: State, steps: seq<Step>)
    requires Inv(s) && Possible(s, steps)
    ensures Inv(Run(s, steps))
    decreases |steps|
  {
    if steps == [] {
    } else {
      StepKeepsInv(s, steps[0]);
      RunKeepsInv(Apply(s, steps[0]), steps[1..]);
    }
  }

  lemma StartsInInv(patience: int)
    requires 2 * patience <= CLAIM_LEASE_MS
    ensures Inv(Start(patience))
  {
  }

  // ---- what it is for ------------------------------------------------------------------------

  /** A state some run reaches. */
  ghost predicate Reachable(s: State) {
    exists patience: int, steps: seq<Step> ::
      2 * patience <= CLAIM_LEASE_MS && Possible(Start(patience), steps) && Run(Start(patience), steps) == s
  }

  lemma ReachableInv(s: State)
    requires Reachable(s)
    ensures Inv(s)
  {
    var patience: int, steps: seq<Step> :|
      2 * patience <= CLAIM_LEASE_MS && Possible(Start(patience), steps) && Run(Start(patience), steps) == s;
    StartsInInv(patience);
    RunKeepsInv(Start(patience), steps);
  }

  /** The instance holds the call: it is on record, the lease it knows of has not run out, and the bucket has
      not already let it go. */
  predicate LiveHold(s: State, who: string, channel: string) {
    var l := Local(s, who);
    channel in l.claims && s.now < l.claims[channel].lease && !GivenUp(l.inbox, channel)
  }

  /** A live hold is backed by the bucket: the stored claim is the instance's and good for as long. */
  lemma LiveHoldIsStored(s: State, who: string, channel: string)
    requires Reachable(s) && who !in s.misled && LiveHold(s, who, channel)
    ensures s.stored.Some? && s.stored.value.claim.owner == who
    ensures s.stored.value.claim.expiresAt >= Local(s, who).claims[channel].lease
  {
    ReachableInv(s);
    assert Sound(s, who, Local(s, who));
  }

  /** THE exclusivity property: two instances never both hold a call on one orbit, nor does one hold two. */
  lemma OneLiveOwner(s: State, a: string, x: string, b: string, y: string)
    requires Reachable(s) && a !in s.misled && b !in s.misled
    requires LiveHold(s, a, x) && LiveHold(s, b, y)
    ensures a == b && x == y
  {
    LiveHoldIsStored(s, a, x);
    LiveHoldIsStored(s, b, y);
    ReachableInv(s);
    assert Sound(s, a, Local(s, a));
    var l := Local(s, a);
    assert x in l.claims.Keys && (a == b ==> y in l.claims.Keys);
  }

  /** No step takes a claim that is still good from its owner, whoever that is and whatever replies were
      lost: it stays the owner's and its expiry does not come closer, unless the owner's own request to
      delete it at its revision is served. */
  lemma GoodClaimIsKept(s: State, step: Step)
    requires Reachable(s) && Enabled(s, step)
    requires s.stored.Some? && s.now < s.stored.value.claim.expiresAt
    ensures var t, claim := Apply(s, step), s.stored.value.claim;
            || (&& t.stored.Some? && t.stored.value.claim.owner == claim.owner
                && t.stored.value.claim.expiresAt >= claim.expiresAt)
            || (&& t.stored.None? && step.Answer? && step.request.who == claim.owner
                && (step.request.op.Release? || step.request.op.Discard?)
                && step.request.op.revision == s.stored.value.revision)
  {
    hide Inv, Serve, Deliver;
    ReachableInv(s);
    match step
    case Answer(q, answered) => GoodClaimServed(s, q, answered);
    case Receive(who) => DeliverKeepsStored(s, who);
    case _ =>
  }

  lemma DeliverKeepsStored(s: State, who: string)
    requires Local(s, who).inbox != []
    ensures Deliver(s, who).stored == s.stored
  {
    hide Handle;
  }

  lemma GoodClaimServed(s: State, q: Request, answered: bool)
    requires Inv(s) && q in s.requests
    requires s.stored.Some? && s.now < s.stored.value.claim.expiresAt
    ensures var t, claim := Serve(s, q, answered), s.stored.value.claim;
            || (&& t.stored.Some? && t.stored.value.claim.owner == claim.owner
                && t.stored.value.claim.expiresAt >= claim.expiresAt)
            || (&& t.stored.None? && q.who == claim.owner && (q.op.Release? || q.op.Discard?)
                && q.op.revision == s.stored.value.revision)
  {
    hide Sound;
    assert RequestOk(s, q);
  }

  /** The instance has won the right to collect an orphaned call and has not yet freed the orbit. */
  predicate Collecting(s: State, who: string) {
    Local(s, who).takeover.Some? && IsCurrent(s.stored, Local(s, who).takeover.value)
  }

  /** However many dial the orbit of a dead engine, one of them goes on to bridge the caller. */
  lemma OneCollector(s: State, a: string, b: string)
    requires Reachable(s) && Collecting(s, a) && Collecting(s, b)
    ensures a == b
  {
    hide Sound;
    ReachableInv(s);
    assert LocalOk(s, a, Local(s, a)) && LocalOk(s, b, Local(s, b));
  }

  /** And while it does, nobody holds a call on the orbit. */
  lemma NoHoldWhileCollecting(s: State, a: string, b: string, channel: string)
    requires Reachable(s) && Collecting(s, a) && b !in s.misled
    ensures !LiveHold(s, b, channel)
  {
    hide Reachable, Guarded, Wins, Timely;
    ReachableInv(s);
    assert LocalOk(s, a, Local(s, a)) && Fenced(s, b, Local(s, b));
    if LiveHold(s, b, channel) {
      LiveHoldIsStored(s, b, channel);
    }
  }

  /** A retrieval whose release was granted hands out the call it was about, or nothing if that call ended
      meanwhile: never whatever else has come to stand on the orbit. */
  lemma RetrievalReturnsItsCall(s: State, who: string, channel: string)
    requires Reachable(s) && who !in s.misled
    requires Local(s, who).inbox != [] && IsGrant(Local(s, who).inbox[0], channel)
    ensures Local(s, who).slot.Some? ==> Local(s, who).slot.value == channel
  {
    ReachableInv(s);
    var l := Local(s, who);
    assert Sound(s, who, l) && l.inbox[0] in l.inbox;
    assert l.slot.Some? ==> l.slot.value in l.claims.Keys;
  }

  // ---- where it stops ------------------------------------------------------------------------

  lemma {:induction false} RunExtends(s: State, steps: seq<Step>, step: Step)
    requires Possible(s, steps) && Enabled(Run(s, steps), step)
    ensures Possible(s, steps + [step]) && Run(s, steps + [step]) == Apply(Run(s, steps), step)
    decreases |steps|
  {
    var longer := steps + [step];
    if steps == [] {
      assert longer[1..] == [];
    } else {
      RunExtends(Apply(s, steps[0]), steps[1..], step);
      assert longer[1..] == steps[1..] + [step];
    }
  }

  lemma ReachableStep(s: State, step: Step)
    requires Reachable(s) && Enabled(s, step)
    ensures Reachable(Apply(s, step))
  {
    var patience: int, steps: seq<Step> :|
      2 * patience <= CLAIM_LEASE_MS && Possible(Start(patience), steps) && Run(Start(patience), steps) == s;
    RunExtends(Start(patience), steps, step);
  }

  /** An idle instance may park a call on a free orbit: its claim is created, answered and recorded at once. */
  lemma ParksAtOnce(s: State, who: string, channel: string) returns (t: State)
    requires Reachable(s) && s.stored.None? && s.patience > 0
    requires Local(s, who).slot.None? && Local(s, who).inbox == []
    ensures Reachable(t) && LiveHold(t, who, channel) && t.now == s.now && t.patience == s.patience
    ensures Local(t, who).slot == Some(channel) && Local(t, who).retrieving == Local(s, who).retrieving
    ensures IsCurrent(t.stored, Local(t, who).claims[channel].revision) && Local(t, who).inbox == []
    ensures forall other | other != who :: Local(t, other) == Local(s, other)
  {
    hide Reachable, LiveHold;
    ReachableStep(s, Park(who, channel));
    var asked := Apply(s, Park(who, channel));
    t := Exchange(asked, Request(who, s.now, true, Create(channel)), Written(asked.sequence + 1));
    RecordedIsLive(t, who, channel);
  }

  /** A crash is survivable: once a claim has expired, whoever wrote it, any idle instance can have the orbit.
      Its create is refused, it reads the claim, reaps it at the revision read and records the call. */
  lemma ReapsWhenExpired(s: State, who: string, channel: string) returns (t: State)
    requires Reachable(s) && s.patience > 0
    requires s.stored.Some? && s.stored.value.claim.expiresAt <= s.now
    requires Local(s, who).slot.None? && Local(s, who).inbox == []
    ensures Reachable(t) && LiveHold(t, who, channel) && t.now == s.now
    ensures IsCurrent(t.stored, Local(t, who).claims[channel].revision) && t.stored.value.claim.owner == who
    ensures forall other | other != who :: Local(t, other) == Local(s, other)
  {
    hide Reachable, LiveHold;
    var seen := s.stored.value;
    ReachableStep(s, Park(who, channel));
    var asked := Apply(s, Park(who, channel));
    var refused := Exchange(asked, Request(who, s.now, true, Create(channel)), Conflict);
    var read := Exchange(refused, Request(who, s.now, true, ReadForTake(channel)), Current(Some(seen)));
    t := Exchange(read, Request(who, s.now, true, Reap(channel, seen.revision)), Written(read.sequence + 1));
    RecordedIsLive(t, who, channel);
  }

  /** Or the right to collect the call that was left there. */
  lemma CollectsWhenExpired(s: State, who: string, channel: string) returns (t: State)
    requires Reachable(s) && s.patience > 0
    requires s.stored.Some? && s.stored.value.claim.expiresAt <= s.now
    requires Local(s, who).slot.None? && Local(s, who).inbox == []
    ensures Reachable(t) && Collecting(t, who) && t.now == s.now
  {
    hide Reachable;
    var seen := s.stored.value;
    ReachableStep(s, Collect(who, channel));
    var asked := Apply(s, Collect(who, channel));
    var read := Exchange(asked, Request(who, s.now, true, ReadForTakeover(channel)), Current(Some(seen)));
    t := Exchange(read, Request(who, s.now, true, TakeOver(channel, s.now, seen.revision)),
                  Written(read.sequence + 1));
  }

  lemma RecordedIsLive(s: State, who: string, channel: string)
    requires channel in Local(s, who).claims && s.now < Local(s, who).claims[channel].lease
    requires Local(s, who).inbox == []
    ensures LiveHold(s, who, channel)
  {
  }

  /** A request of an instance with nothing in its inbox is served and the answer acted on, at once. */
  lemma Exchange(s: State, q: Request, outcome: Outcome) returns (t: State)
    requires Reachable(s) && q in s.requests && q.awaited && q.start == s.now && s.patience > 0
    requires Local(s, q.who).inbox == [] && Broker(s.stored, s.sequence, q).1 == outcome
    ensures Reachable(t) && t.now == s.now && t.patience == s.patience
    ensures t.stored == Broker(s.stored, s.sequence, q).0 && t.sequence == s.sequence + 1
    ensures var (l, op) := Handle(Local(s, q.who), Reply(q, outcome), s.now);
            && Local(t, q.who) == l
            && (op.Some? ==> Request(q.who, q.start, true, op.value) in t.requests)
    ensures forall other | other != q.who :: Local(t, other) == Local(s, other)
  {
    hide Reachable, Settled, Broker, Handle;
    ReachableStep(s, Answer(q, true));
    var served := Apply(s, Answer(q, true));
    assert Local(served, q.who).inbox == [Reply(q, outcome)];
    assert Popped(Local(served, q.who)) == Local(s, q.who);
    ReachableStep(served, Receive(q.who));
    t := Apply(served, Receive(q.who));
  }

  // ---- what the steps achieve ----------------------------------------------------------------

  /** A heartbeat renews: from a live hold at the stored revision, a pass, its answer and its receipt leave the claim
      the instance's, good for a whole lease from the pass, and the hold with that lease at the new revision. */
  lemma HeartbeatRenews(s: State, who: string, channel: string, stamp: int) returns (t: State)
    requires Reachable(s) && s.patience > 0 && who !in s.misled && LiveHold(s, who, channel)
    requires Enabled(s, Heartbeat(who, channel, stamp)) && Local(s, who).inbox == []
    requires IsCurrent(s.stored, Local(s, who).claims[channel].revision)
    ensures Reachable(t) && t.now == s.now && t.stored.Some? && channel in Local(t, who).claims
    ensures t.stored.value.claim == Claim(who, channel, stamp + CLAIM_LEASE_MS)
    ensures Local(t, who).claims[channel].revision == t.stored.value.revision
    ensures Local(t, who).claims[channel].lease == stamp + CLAIM_LEASE_MS
  {
    LiveHoldIsStored(s, who, channel);
    HoldIsLearnt(s, who, channel);
    hide Reachable, LiveHold;
    var held := Local(s, who).claims[channel];
    ReachableStep(s, Heartbeat(who, channel, stamp));
    var asked := Apply(s, Heartbeat(who, channel, stamp));
    var q := Request(who, s.now, true, Renew(channel, held.serial, stamp, held.revision));
    t := Exchange(asked, q, Written(asked.sequence + 1));
  }

  lemma HoldIsLearnt(s: State, who: string, channel: string)
    requires Reachable(s) && channel in Local(s, who).claims
    requires IsCurrent(s.stored, Local(s, who).claims[channel].revision)
    ensures s.stored.value.claim.expiresAt <= Local(s, who).claims[channel].learnt + CLAIM_LEASE_MS
  {
    ReachableInv(s);
    assert LocalOk(s, who, Local(s, who)) && HeldOk(s, who, Local(s, who).serial, Local(s, who).claims[channel]);
  }

  /** A heartbeat that finds a newer write of its own instance adopts it. */
  lemma HeartbeatAdopts(s: State, who: string, channel: string, stamp: int) returns (t: State)
    requires Reachable(s) && s.patience > 0 && Local(s, who).inbox == []
    requires Enabled(s, Heartbeat(who, channel, stamp))
    requires !IsCurrent(s.stored, Local(s, who).claims[channel].revision)
    requires s.stored.Some? && s.stored.value.claim.owner == who
    ensures Reachable(t) && t.stored == s.stored && channel in Local(t, who).claims
    ensures Local(t, who).claims[channel].revision == s.stored.value.revision
    ensures Local(t, who).claims[channel].lease >= s.stored.value.claim.expiresAt
  {
    hide Reachable;
    var held := Local(s, who).claims[channel];
    ReachableStep(s, Heartbeat(who, channel, stamp));
    var asked := Apply(s, Heartbeat(who, channel, stamp));
    var q := Request(who, s.now, true, Renew(channel, held.serial, stamp, held.revision));
    var refused := Exchange(asked, q, Conflict);
    t := Exchange(refused, Request(who, s.now, true, ReadForRenew(channel, held.serial)), Current(s.stored));
  }

  /** One that finds the orbit in other hands, or free, drops the hold and leaves the bucket alone. */
  lemma HeartbeatDrops(s: State, who: string, channel: string, stamp: int) returns (t: State)
    requires Reachable(s) && s.patience > 0 && Local(s, who).inbox == []
    requires Enabled(s, Heartbeat(who, channel, stamp))
    requires !IsCurrent(s.stored, Local(s, who).claims[channel].revision)
    requires !(s.stored.Some? && s.stored.value.claim.owner == who)
    ensures Reachable(t) && t.stored == s.stored
    ensures channel !in Local(t, who).claims && Local(t, who).slot == None
  {
    hide Reachable;
    var held := Local(s, who).claims[channel];
    ReachableStep(s, Heartbeat(who, channel, stamp));
    var asked := Apply(s, Heartbeat(who, channel, stamp));
    var q := Request(who, s.now, true, Renew(channel, held.serial, stamp, held.revision));
    var refused := Exchange(asked, q, Conflict);
    t := Exchange(refused, Request(who, s.now, true, ReadForRenew(channel, held.serial)), Current(s.stored));
  }

  /** A retrieval of a call held at the stored revision takes it out of its slot and frees the orbit. */
  lemma RetrievalFreesOrbit(s: State, who: string, channel: string) returns (t: State)
    requires Reachable(s) && s.patience > 0 && Local(s, who).inbox == [] && Enabled(s, Retrieve(who))
    requires Local(s, who).slot == Some(channel) && channel in Local(s, who).claims
    requires IsCurrent(s.stored, Local(s, who).claims[channel].revision)
    ensures Reachable(t) && t.stored == None && Local(t, who).slot == None
    ensures channel !in Local(t, who).claims && channel !in Local(t, who).retrieving
  {
    hide Reachable;
    ReachableStep(s, Retrieve(who));
    var asked := Apply(s, Retrieve(who));
    var q := Request(who, s.now, true, Release(channel, Local(s, who).claims[channel].revision));
    t := Exchange(asked, q, Deleted);
  }

  /** A retrieval whose claim is no longer at the recorded revision is refused, and the call stays parked. */
  lemma RefusedRetrievalKeepsCall(s: State, who: string, channel: string) returns (t: State)
    requires Reachable(s) && s.patience > 0 && Local(s, who).inbox == [] && Enabled(s, Retrieve(who))
    requires Local(s, who).slot == Some(channel) && channel in Local(s, who).claims
    requires !IsCurrent(s.stored, Local(s, who).claims[channel].revision)
    ensures Reachable(t) && t.stored == s.stored && Local(t, who) == Local(s, who)
  {
    hide Reachable;
    ReachableStep(s, Retrieve(who));
    var asked := Apply(s, Retrieve(who));
    var q := Request(who, s.now, true, Release(channel, Local(s, who).claims[channel].revision));
    t := Exchange(asked, q, Conflict);
    assert Local(s, who).retrieving + {channel} - {channel} == Local(s, who).retrieving;
  }

  /** The collector of an orphan frees the orbit when it is done. */
  lemma CollectorFreesOrbit(s: State, who: string) returns (t: State)
    requires Reachable(s) && Collecting(s, who)
    ensures Reachable(t) && t.stored == None && Local(t, who).takeover == None
  {
    hide Reachable, Settled;
    ReachableStep(s, Free(who));
    var asked := Apply(s, Free(who));
    var q := Request(who, s.now, false, Discard(Local(s, who).takeover.value));
    assert q in asked.requests;
    ReachableStep(asked, Answer(q, true));
    t := Apply(asked, Answer(q, true));
  }

  /** The end of a channel and a drain are local: the hold goes, the claim stays. A claim that nobody renews for the
      bucket's time to live goes too. Giving up on a release leaves it under way and the call parked. */
  lemma QuietEffects(s: State, who: string, q: Request)
    ensures var t := Apply(s, Forget(who)); t.stored == s.stored && Local(t, who).slot == None
    ensures Local(s, who).slot.Some? ==> Local(s, who).slot.value !in Local(Apply(s, Forget(who)), who).claims
    ensures var t := Apply(s, Clear(who));
            t.stored == s.stored && Local(t, who) == IDLE.(inbox := Local(s, who).inbox, serial := Local(s, who).serial)
    ensures s.stored.Some? && s.stored.value.claim.expiresAt + 810_000 <= s.now ==>
              Enabled(s, Evict) && Apply(s, Evict).stored == None
    ensures q in s.requests && q.awaited && q.op.Release? ==>
              && Enabled(s, Abandon(q)) && q.(awaited := false) in Apply(s, Abandon(q)).requests
              && var t := Apply(s, Abandon(q));
                 && t.stored == s.stored && Local(t, q.who).claims == Local(s, q.who).claims
                 && Local(t, q.who).retrieving == Local(s, q.who).retrieving - {q.op.channel}
  {
    hide Settled;
  }

  // ---- a lost grant --------------------------------------------------------------------------

  /** A granted release whose answer is lost leaves the owner holding the call over a free orbit, and any
      idle instance may then hold another call on it: from every state in which such a release is under
      way, the orbit can be double booked. */
  lemma LostGrantDoubleBooks(s: State, q: Request, other: string, y: string) returns (t: State)
    requires Reachable(s) && s.patience > 0
    requires q in s.requests && q.awaited && q.op.Release? && IsCurrent(s.stored, q.op.revision)
    requires LiveHold(s, q.who, q.op.channel)
    requires other != q.who && Local(s, other).slot.None? && Local(s, other).inbox == []
    ensures Reachable(t) && LiveHold(t, q.who, q.op.channel) && LiveHold(t, other, y)
  {
    hide Reachable;
    ReachableStep(s, Answer(q, false));
    var freed := Apply(s, Answer(q, false));
    LostGrant(s, q);
    t := ParksAtOnce(freed, other, y);
  }

  /** The orbit is free and nobody's view has changed, but that the sender no longer waits. */
  lemma LostGrant(s: State, q: Request)
    requires q in s.requests && q.awaited && q.op.Release? && IsCurrent(s.stored, q.op.revision)
    ensures var t, l := Apply(s, Answer(q, false)), Local(s, q.who);
            && t.stored.None? && t.now == s.now && t.patience == s.patience
            && Local(t, q.who) == l.(retrieving := l.retrieving - {q.op.channel})
            && forall other | other != q.who :: Local(t, other) == Local(s, other)
  {
    hide Settled;
  }

  /** Such a state is reached by parking one call and dialling its orbit. */
  lemma DoubleBookingIsReachable(a: string, x: string, b: string, y: string) returns (t: State)
    requires a != b
    ensures Reachable(t) && LiveHold(t, a, x) && LiveHold(t, b, y)
  {
    var s := Start(1);
    assert Reachable(s) by {
      assert Possible(Start(1), []) && Run(Start(1), []) == s;
    }
    var parked := ParksAtOnce(s, a, x);
    ReachableStep(parked, Retrieve(a));
    var asked := Apply(parked, Retrieve(a));
    var q := Request(a, parked.now, true, Release(x, Local(parked, a).claims[x].revision));
    assert q in asked.requests;
    assert Local(parked, b) == IDLE && Local(asked, b) == Local(parked, b);
    t := LostGrantDoubleBooks(asked, q, b, y);
  }

  // ---- who is misled -------------------------------------------------------------------------

  /** An instance is misled only for as long as it holds something, or is about to. */
  predicate Alert(s: State) {
    forall who <- s.misled :: !Settled(s, Local(s, who))
  }

  lemma {:induction false} RunIsAlert(s: State, steps: seq<Step>)
    requires Alert(s) && Possible(s, steps)
    ensures Alert(Run(s, steps))
    decreases |steps|
  {
    if steps == [] {
    } else {
      SettleAlerts(Move(s, steps[0]));
      RunIsAlert(Apply(s, steps[0]), steps[1..]);
    }
  }

  lemma SettleAlerts(s: State)
    ensures Alert(Settle(s))
  {
    forall who <- Settle(s).misled ensures !Settled(Settle(s), Local(Settle(s), who)) {
      assert Local(Settle(s), who) == Local(s, who);
    }
  }

  /** So the exception in the exclusivity property ends with the hold it is about. */
  lemma MisledStillHolds(s: State, who: string)
    requires Reachable(s) && who in s.misled
    ensures var l := Local(s, who);
            l.slot.Some? || l.claims != map[] || exists r <- l.inbox :: Winning(s, r)
  {
    var patience: int, steps: seq<Step> :|
      2 * patience <= CLAIM_LEASE_MS && Possible(Start(patience), steps) && Run(Start(patience), steps) == s;
    RunIsAlert(Start(patience), steps);
  }

  lemma ServeMisleads(s: State, q: Request, answered: bool, who: string)
    requires who !in s.misled && who in Serve(s, q, answered).misled
    ensures Local(s, who).claims != map[]
    ensures q.who == who && q.op.Release? && IsCurrent(s.stored, q.op.revision) && !(q.awaited && answered)
  {
  }

  lemma DeliverMisleads(s: State, at: string, who: string)
    requires Local(s, at).inbox != [] && who !in s.misled && who in Deliver(s, at).misled
    ensures var r := Local(s, at).inbox[0];
            && r.request.who == who && r.request.op.Release? && r.outcome.Deleted?
            && s.now >= r.request.start + s.patience
    ensures Local(s, who).claims != map[]
  {
    hide Handle;
  }

  /** And it begins only with a grant that goes unheard: a step that misleads an instance serves its release at
      the stored revision and loses the answer, or brings the news of a grant too late. */
  lemma OnlyLostGrantsMislead(s: State, step: Step, who: string)
    requires Enabled(s, step) && who !in s.misled && who in Apply(s, step).misled
    ensures Local(s, who).claims != map[]
    ensures || (&& step.Answer? && step.request.who == who && step.request.op.Release?
                && IsCurrent(s.stored, step.request.op.revision) && !(step.request.awaited && step.answered))
            || (&& step.Receive?
                && var r := Local(s, step.who).inbox[0];
                   && r.request.who == who && r.request.op.Release? && r.outcome.Deleted?
                   && s.now >= r.request.start + s.patience)
  {
    hide Serve, Deliver, Settled;
    match step
    case Answer(q, answered) => ServeMisleads(s, q, answered, who);
    case Receive(at) => DeliverMisleads(s, at, who);
    case _ =>
  }
}
