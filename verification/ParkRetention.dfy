/** A call that is safely parked stays parked until somebody who may says otherwise. */
module ParkRetention {
  import opened Wrappers
  import opened ParkClaims
  import opened ParkSafety
  import opened ParkTheorems

  /** The answer that makes a heartbeat drop its hold: the orbit is not, or no longer, the instance's. */
  predicate Refusal(r: Reply) {
    r.request.op.ReadForRenew? && r.outcome.Current?
    && !(r.outcome.stored.Some? && r.outcome.stored.value.claim.owner == r.request.who)
  }

  /** The hold and whatever the answers before it may still teach it have run out. */
  predicate Spent(now: int, inbox: seq<Reply>, channel: string, h: Held) {
    && h.lease <= now
    && forall r <- inbox | Promise(r, channel, h.serial).Some? :: Promise(r, channel, h.serial).value <= now
  }

  /** By the time a refusal arrives, whatever it drops has run out, and no win comes before it. */
  predicate RefusalOk(s: State, l: Instance, p: nat)
    requires p < |l.inbox|
  {
    && (forall c <- l.claims | !GivenUp(l.inbox[..p], c) :: Spent(s.now, l.inbox[..p], c, l.claims[c]))
    && (forall r <- l.inbox[..p] :: !Winning(s, r))
  }

  predicate Refusals(s: State, l: Instance) {
    forall p | 0 <= p < |l.inbox| && Refusal(l.inbox[p]) :: RefusalOk(s, l, p)
  }

  ghost predicate Inv2(s: State) {
    Inv(s) && forall who | who !in s.misled :: Refusals(s, Local(s, who))
  }

  /** Time passes, or the instance lets go. */
  lemma RefusalsLast(s: State, t: State, l: Instance, m: Instance)
    requires Refusals(s, l) && s.now <= t.now && s.patience == t.patience
    requires m.inbox == l.inbox && (m.claims == l.claims || m.claims == map[])
    ensures Refusals(t, m)
  {
    forall p | 0 <= p < |m.inbox| && Refusal(m.inbox[p]) ensures RefusalOk(t, m, p) {
      assert RefusalOk(s, l, p);
    }
  }

  /** A read that finds the orbit in other hands finds no live hold, no promise of one and no win. */
  lemma RefusalServed(s: State, who: string, l: Instance)
    requires Base(s) && LocalOk(s, who, l) && Sound(s, who, l)
    requires !(s.stored.Some? && s.stored.value.claim.owner == who)
    ensures forall c <- l.claims | !GivenUp(l.inbox, c) :: Spent(s.now, l.inbox, c, l.claims[c])
    ensures forall r <- l.inbox :: !Winning(s, r)
  {
    forall c <- l.claims | !GivenUp(l.inbox, c) ensures Spent(s.now, l.inbox, c, l.claims[c]) {
      assert GuardedHold(s, who, l.inbox, c, l.claims[c]);
    }
    forall p | 0 <= p < |l.inbox| ensures !Winning(s, l.inbox[p]) {
      if Winning(s, l.inbox[p]) {
        WinIsGood(s, who, l, p);
      }
    }
  }

  lemma RefusalsAppend(s: State, q: Request, l: Instance)
    requires Base(s) && LocalOk(s, q.who, l) && Sound(s, q.who, l) && Refusals(s, l)
    ensures Refusals(s, l.(inbox := l.inbox + [Verdict(s, q)]))
  {
    hide Sound, Base, LocalOk, Winning;
    var r := Verdict(s, q);
    var m := l.(inbox := l.inbox + [r]);
    if Refusal(r) {
      RefusalServed(s, q.who, l);
    }
    forall p | 0 <= p < |m.inbox| && Refusal(m.inbox[p]) ensures RefusalOk(s, m, p) {
      if p < |l.inbox| {
        assert RefusalOk(s, l, p);
        assert m.inbox[..p] == l.inbox[..p];
      } else {
        assert m.inbox[..p] == l.inbox;
      }
    }
  }

  /** The head of the inbox is taken; each hold, if any is left, is as it was or learns the head's promise. */
  lemma RefusalsPop(s: State, l: Instance, m: Instance)
    requires Refusals(s, l) && l.inbox != [] && !l.inbox[0].outcome.Deleted? && m.inbox == l.inbox[1..]
    requires forall c <- m.claims ::
               && c in l.claims && m.claims[c].serial == l.claims[c].serial
               && (m.claims[c].lease <= l.claims[c].lease
                   || Promise(l.inbox[0], c, l.claims[c].serial) == Some(m.claims[c].lease))
    ensures Refusals(s, m)
  {
    hide Winning, Promise;
    var head := l.inbox[0];
    forall p | 0 <= p < |m.inbox| && Refusal(m.inbox[p]) ensures RefusalOk(s, m, p) {
      assert m.inbox[p] == l.inbox[p + 1];
      assert RefusalOk(s, l, p + 1);
      assert l.inbox[..p + 1] == [head] + m.inbox[..p];
      forall c <- m.claims | !GivenUp(m.inbox[..p], c) ensures Spent(s.now, m.inbox[..p], c, m.claims[c]) {
        assert !GivenUp(l.inbox[..p + 1], c);
        assert Spent(s.now, l.inbox[..p + 1], c, l.claims[c]);
      }
    }
  }

  lemma RefusalsPopEmpty(s: State, l: Instance, m: Instance)
    requires Refusals(s, l) && l.inbox != [] && m.inbox == l.inbox[1..] && m.claims == map[]
    ensures Refusals(s, m)
  {
    hide Winning;
    forall p | 0 <= p < |m.inbox| && Refusal(m.inbox[p]) ensures RefusalOk(s, m, p) {
      assert m.inbox[p] == l.inbox[p + 1];
      assert RefusalOk(s, l, p + 1);
      assert l.inbox[..p + 1] == [l.inbox[0]] + m.inbox[..p];
    }
  }

  /** No refusal is behind a win. */
  lemma RefusalsAfterWin(s: State, l: Instance, m: Instance)
    requires Refusals(s, l) && l.inbox != [] && Winning(s, l.inbox[0]) && m.inbox == l.inbox[1..]
    ensures Refusals(s, m)
  {
    hide Winning;
    forall p | 0 <= p < |m.inbox| ensures !Refusal(m.inbox[p]) {
      assert m.inbox[p] == l.inbox[p + 1] && l.inbox[0] in l.inbox[..p + 1];
      assert Refusal(l.inbox[p + 1]) ==> RefusalOk(s, l, p + 1);
    }
  }

  lemma RefusalsHandled(s: State, who: string, l: Instance)
    requires Base(s) && LocalOk(s, who, l) && Sound(s, who, l) && Refusals(s, l)
    requires l.inbox != [] && s.now < l.inbox[0].request.start + s.patience
    ensures Refusals(s, Handle(Popped(l), l.inbox[0], s.now).0)
  {
    hide Sound, LocalOk, Base, Winning, Refusals;
    var k, r := Popped(l), l.inbox[0];
    var m := Handle(k, r, s.now).0;
    ShapeOf(s, who, l);
    AnswerShape(s, who, l);
    if Winning(s, r) {
      RefusalsAfterWin(s, l, m);
    } else if r.outcome.Deleted? || (Refusal(r) && r.request.op.channel !in k.retrieving) {
      RefusalsPopEmpty(s, l, m);
    } else {
      RefusalsPop(s, l, m);
    }
  }

  lemma ReceiveKeepsRefusals(s: State, who: string, other: string)
    requires Inv2(s) && Local(s, who).inbox != [] && other !in Deliver(s, who).misled
    ensures Refusals(Deliver(s, who), Local(Deliver(s, who), other))
  {
    hide Sound, LocalOk, Base, Refusals, Handle;
    var t, l := Deliver(s, who), Local(s, who);
    assert Base(s) && LocalOk(s, who, l) by { LocalIsOk(s, who); }
    HeadIsOwn(s, who, l);
    if other != who {
      RefusalsLast(s, t, Local(s, other), Local(t, other));
    } else {
      assert Sound(s, who, l) && Refusals(s, l);
      if s.now < l.inbox[0].request.start + s.patience {
        RefusalsHandled(s, who, l);
        RefusalsLast(s, t, Local(t, who), Local(t, who));
      } else {
        if l.inbox[0].outcome.Deleted? {
          RefusalsPopEmpty(s, l, Popped(l));
        } else {
          RefusalsPop(s, l, Popped(l));
        }
        RefusalsLast(s, t, Popped(l), Local(t, who));
      }
    }
  }

  lemma LocalIsOk(s: State, who: string)
    requires Inv(s)
    ensures Base(s) && LocalOk(s, who, Local(s, who))
  {
  }

  lemma AnswerKeepsRefusals(s: State, q: Request, answered: bool, other: string)
    requires Inv2(s) && q in s.requests && other !in Serve(s, q, answered).misled
    ensures Refusals(Serve(s, q, answered), Local(Serve(s, q, answered), other))
  {
    hide Sound, LocalOk, Base, Refusals, Broker;
    var t, l := Serve(s, q, answered), Local(s, other);
    LocalIsOk(s, other);
    assert Sound(s, other, l) && Refusals(s, l);
    if other == q.who && q.awaited && answered {
      RefusalsAppend(s, q, l);
      RefusalsLast(s, t, Local(t, other), Local(t, other));
    } else {
      RefusalsLast(s, t, l, Local(t, other));
    }
  }

  lemma StepKeepsInv2(s: State, step: Step)
    requires Inv2(s) && Enabled(s, step)
    ensures Inv2(Apply(s, step))
  {
    hide Refusals, Inv, Move, Settled;
    StepKeepsInv(s, step);
    var u, t := Move(s, step), Apply(s, step);
    forall other | other !in t.misled ensures Refusals(t, Local(t, other)) {
      if other in u.misled {
        SettledRefusesNothing(u, t, Local(t, other));
      } else {
        MoveKeepsRefusals(s, step, other);
        RefusalsLast(u, t, Local(u, other), Local(t, other));
      }
    }
  }

  lemma SettledRefusesNothing(s: State, t: State, l: Instance)
    requires Settled(s, l) && t.now == s.now && t.patience == s.patience
    ensures Refusals(t, l)
  {
    forall p, r | 0 <= p < |l.inbox| && r in l.inbox[..p] ensures !Winning(t, r) {
      assert r in l.inbox;
    }
  }

  lemma MoveKeepsRefusals(s: State, step: Step, other: string)
    requires Inv2(s) && Enabled(s, step) && other !in Move(s, step).misled
    ensures Refusals(Move(s, step), Local(Move(s, step), other))
  {
    hide Refusals, Inv2, Serve, Deliver;
    if step.Receive? {
      ReceiveKeepsRefusals(s, step.who, other);
    } else if step.Answer? {
      AnswerKeepsRefusals(s, step.request, step.answered, other);
    } else {
      QuietStep(s, step, other);
    }
  }

  lemma QuietStep(s: State, step: Step, other: string)
    requires Inv2(s) && Enabled(s, step) && !step.Receive? && !step.Answer? && other !in Move(s, step).misled
    ensures Refusals(Move(s, step), Local(Move(s, step), other))
  {
    hide Refusals, Base, Sound, Move;
    var l := Local(s, other);
    QuietMoves(s, step);
    ShapeOf(s, other, l);
    QuietLocal(s, step, other);
    RefusalsLast(s, Move(s, step), l, Local(Move(s, step), other));
  }

  lemma QuietMoves(s: State, step: Step)
    requires Enabled(s, step) && !step.Receive? && !step.Answer?
    ensures var t := Move(s, step); s.now <= t.now && s.patience == t.patience && s.misled <= t.misled
  {
  }

  /** Unless it is answering or being answered, an instance's inbox stays, and its holds go only when it is
      told to let go. */
  lemma QuietLocal(s: State, step: Step, who: string)
    requires Enabled(s, step) && !step.Receive? && !step.Answer? && Shape(Local(s, who))
    ensures var l, m := Local(s, who), Local(Move(s, step), who);
            && m.inbox == l.inbox
            && if step == Forget(who) || step == Clear(who) then m.claims == map[] else m.claims == l.claims
  {
    hide Shape, RemoveLocal;
    var l := Local(s, who);
    RemovedIsEmpty(l);
    match step
    case Forget(other) => LocalAfterWith(s, other, RemoveLocal(Local(s, other)), who);
    case Clear(other) =>
    case Retrieve(other) =>
    case Free(other) =>
    case Abandon(q) => AbandonLocal(s, q, who);
    case Tick(_) =>
    case Park(_, _) =>
    case Heartbeat(_, _, _) =>
    case Collect(_, _) =>
    case Evict =>
  }

  lemma LocalAfterWith(s: State, who: string, l: Instance, other: string)
    ensures Local(With(s, who, l), other) == if other == who then l else Local(s, other)
  {
  }

  lemma AbandonLocal(s: State, q: Request, who: string)
    requires Enabled(s, Abandon(q))
    ensures var l, m := Local(s, who), Local(Move(s, Abandon(q)), who); m.inbox == l.inbox && m.claims == l.claims
  {
  }

  lemma RemovedIsEmpty(l: Instance)
    requires Shape(l)
    ensures RemoveLocal(l).claims == map[] && RemoveLocal(l).inbox == l.inbox
    ensures l.slot.Some? ==> l.slot.value in l.claims
  {
    assert l.slot.Some? ==> l.slot.value in l.claims.Keys;
  }

  lemma {:induction false} RunKeepsInv2(s: State, steps: seq<Step>)
    requires Inv2(s) && Possible(s, steps)
    ensures Inv2(Run(s, steps))
    decreases |steps|
  {
    if steps == [] {
    } else {
      StepKeepsInv2(s, steps[0]);
      RunKeepsInv2(Apply(s, steps[0]), steps[1..]);
    }
  }

  lemma ReachableInv2(s: State)
    requires Reachable(s)
    ensures Inv2(s)
  {
    var patience: int, steps: seq<Step> :|
      2 * patience <= CLAIM_LEASE_MS && Possible(Start(patience), steps) && Run(Start(patience), steps) == s;
    StartsInInv(patience);
    RunKeepsInv2(Start(patience), steps);
  }

  /** The call is still on record, for at least as long. */
  predicate Keeps(l: Instance, m: Instance, channel: string) {
    channel in l.claims && channel in m.claims && m.claims[channel].lease >= l.claims[channel].lease
  }

  lemma HandlingKeepsHold(s: State, who: string, channel: string)
    requires Inv2(s) && who !in s.misled && LiveHold(s, who, channel) && Local(s, who).inbox != []
    requires s.now < Local(s, who).inbox[0].request.start + s.patience
    ensures Keeps(Local(s, who), Handle(Popped(Local(s, who)), Local(s, who).inbox[0], s.now).0, channel)
  {
    hide Base, Guarded, Wins, Fenced, Timely, LocalOk, Winning;
    var l := Local(s, who);
    var r := l.inbox[0];
    LocalIsOk(s, who);
    assert Sound(s, who, l) && Refusals(s, l) && channel in l.claims.Keys && r in l.inbox;
    AnswerShape(s, who, l);
    if Winning(s, r) {
      WinIsAlone(s, who, l);
    }
    RefusalIsNotFirst(s, l, channel);
  }

  lemma RefusalIsNotFirst(s: State, l: Instance, channel: string)
    requires Refusals(s, l) && l.inbox != [] && channel in l.claims && s.now < l.claims[channel].lease
    ensures !Refusal(l.inbox[0])
  {
    assert !GivenUp(l.inbox[..0], channel);
  }

  lemma ReceiveKeepsHold(s: State, at: string, who: string, channel: string)
    requires Inv2(s) && Local(s, at).inbox != [] && who !in s.misled && LiveHold(s, who, channel)
    ensures Keeps(Local(s, who), Local(Deliver(s, at), who), channel)
  {
    hide Base, Sound, LocalOk, Handle, Refusals;
    LocalIsOk(s, at);
    HeadIsOwn(s, at, Local(s, at));
    if at == who && s.now < Local(s, who).inbox[0].request.start + s.patience {
      HandlingKeepsHold(s, who, channel);
    }
  }

  lemma AnswerKeepsHold(s: State, q: Request, answered: bool, who: string, channel: string)
    requires LiveHold(s, who, channel)
    ensures Keeps(Local(s, who), Local(Serve(s, q, answered), who), channel)
  {
    hide Broker;
  }

  lemma MoveOfReceive(s: State, who: string)
    requires Enabled(s, Receive(who))
    ensures Move(s, Receive(who)) == Deliver(s, who)
  {
  }

  lemma MoveOfAnswer(s: State, q: Request, answered: bool)
    requires Enabled(s, Answer(q, answered))
    ensures Move(s, Answer(q, answered)) == Serve(s, q, answered)
  {
  }

  lemma ShapeIfNotMisled(s: State, who: string)
    requires Inv2(s) && who !in s.misled
    ensures Shape(Local(s, who))
  {
    ShapeOf(s, who, Local(s, who));
  }

  /** Whatever happens, short of the channel's end being reported or a drain, an instance that holds a call
      goes on holding it: no heartbeat, late answer or other park removes it while the claim is good. */
  lemma LiveHoldIsKept(s: State, step: Step, who: string, channel: string)
    requires Reachable(s) && Enabled(s, step) && who !in s.misled && LiveHold(s, who, channel)
    requires step != Forget(who) && step != Clear(who)
    ensures Keeps(Local(s, who), Local(Apply(s, step), who), channel)
  {
    hide Inv2, Move, Serve, Deliver;
    ReachableInv2(s);
    if step.Receive? {
      ReceiveKeepsHold(s, step.who, who, channel);
      MoveOfReceive(s, step.who);
    } else if step.Answer? {
      AnswerKeepsHold(s, step.request, step.answered, who, channel);
      MoveOfAnswer(s, step.request, step.answered);
    } else {
      ShapeIfNotMisled(s, who);
      QuietLocal(s, step, who);
    }
  }
}
