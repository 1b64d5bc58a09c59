/**
 * Who owns a park orbit when several engines share one claim bucket.
 *
 * One orbit, any number of engine instances. Every exchange with the bucket is a request, served at some
 * later moment if at all, and an answer, acted on at some later moment if at all; everything may
 * interleave. A client gives up on a chain of requests `patience` milliseconds after it began, but the
 * broker may still serve what it was sent. Answers reach an instance in the order they were produced.
 */
module ParkClaims {
  import opened Wrappers

  const CLAIM_LEASE_MS: int := 90_000
  const BUCKET_TTL_MS: int := 900_000

  /** The record under the orbit's key: `heartbeatAt` is `expiresAt - CLAIM_LEASE_MS`. */
  datatype Claim = Claim(owner: string, channel: string, expiresAt: int)

  datatype Stored = Stored(claim: Claim, revision: nat)

  /** What can be asked of the bucket, and by which part of the registry. */
  datatype Op =
    | Create(channel: string)
    | ReadForTake(channel: string)
    | Reap(channel: string, revision: nat)
    | Renew(channel: string, serial: nat, stamp: int, revision: nat)
    | ReadForRenew(channel: string, serial: nat)
    | Release(channel: string, revision: nat)
    | ReadForTakeover(channel: string)
    | TakeOver(channel: string, stamp: int, revision: nat)
    | Discard(revision: nat)

  /** `start` is when the chain of requests this one belongs to began. */
  datatype Request = Request(who: string, start: int, awaited: bool, op: Op)

  datatype Outcome = Written(revision: nat) | Conflict | Current(stored: Option<Stored>) | Deleted

  datatype Reply = Reply(request: Request, outcome: Outcome)

  /** A claim an instance holds: the revision it will quote, when it learnt it, and the latest expiry of a
      record it knows was written for it. `serial` tells two holds of one channel apart. */
  datatype Held = Held(revision: nat, learnt: int, lease: int, serial: nat)

  /** One registry's view of the orbit. */
  datatype Instance = Instance(
    slot: Option<string>, claims: map<string, Held>, retrieving: set<string>, takeover: Option<nat>,
    inbox: seq<Reply>, serial: nat)

  const IDLE := Instance(None, map[], {}, None, [], 0)

  /** `misled` keeps track of the instances that hold a call whose release was granted without their hearing
      of it. */
  datatype State = State(
    patience: int, now: int, sequence: nat, stored: Option<Stored>, instances: map<string, Instance>,
    requests: multiset<Request>, misled: set<string>)

  function Start(patience: int): State {
    State(patience, 0, 0, None, map[], multiset{}, {})
  }

  function Local(s: State, who: string): Instance {
    if who in s.instances then s.instances[who] else IDLE
  }

  function With(s: State, who: string, l: Instance): State {
    s.(instances := s.instances[who := l])
  }

  function Send(s: State, q: Request): State {
    s.(requests := s.requests + multiset{q})
  }

  // ---- the registry --------------------------------------------------------------------------

  function RemoveLocal(l: Instance): Instance {
    if l.slot.None? then l else l.(slot := None, claims := l.claims - {l.slot.value})
  }

  function Record(l: Instance, channel: string, revision: nat, now: int, lease: int): Instance {
    l.(slot := Some(channel), claims := l.claims[channel := Held(revision, now, lease, l.serial)],
       serial := l.serial + 1)
  }

  /** A hold learns a newer revision, unless it has been replaced since the request was made. */
  function Learn(l: Instance, channel: string, serial: nat, revision: nat, now: int, lease: int): Instance {
    if channel in l.claims && l.claims[channel].serial == serial then
      var held := l.claims[channel];
      var best := if lease > held.lease then lease else held.lease;
      l.(claims := l.claims[channel := Held(revision, now, best, serial)])
    else
      l
  }

  /** The renewal was refused and somebody else, or nobody, owns the orbit. */
  function Drop(l: Instance, channel: string): Instance {
    RemoveLocal(l.(claims := l.claims - {channel}))
  }

  /** What an instance does with an answer that came in time: its new view, and its next request. */
  function Handle(l: Instance, reply: Reply, now: int): (Instance, Option<Op>) {
    var q := reply.request;
    match (q.op, reply.outcome)
    case (Create(channel), Written(revision)) => (Record(l, channel, revision, now, q.start + CLAIM_LEASE_MS), None)
    case (Create(channel), Conflict) => (l, Some(ReadForTake(channel)))
    case (ReadForTake(channel), Current(Some(st))) =>
      (l, if st.claim.expiresAt <= q.start then Some(Reap(channel, st.revision)) else None)
    case (Reap(channel, _), Written(revision)) => (Record(l, channel, revision, now, q.start + CLAIM_LEASE_MS), None)
    case (Renew(channel, serial, stamp, _), Written(revision)) =>
      (Learn(l, channel, serial, revision, now, stamp + CLAIM_LEASE_MS), None)
    case (Renew(channel, serial, _, _), Conflict) => (l, Some(ReadForRenew(channel, serial)))
    case (ReadForRenew(channel, serial), Current(current)) =>
      if channel in l.retrieving then (l, None)
      else if current.Some? && current.value.claim.owner == q.who then
        (Learn(l, channel, serial, current.value.revision, now, current.value.claim.expiresAt), None)
      else
        (Drop(l, channel), None)
    case (Release(channel, _), Deleted) => (RemoveLocal(l).(retrieving := l.retrieving - {channel}), None)
    case (Release(channel, _), _) => (l.(retrieving := l.retrieving - {channel}), None)
    case (ReadForTakeover(channel), Current(Some(st))) =>
      (l, if st.claim.expiresAt <= now then Some(TakeOver(channel, now, st.revision)) else None)
    case (TakeOver(_, _, _), Written(revision)) => (l.(takeover := Some(revision)), None)
    case _ => (l, None)
  }

  /** No answer in time: only a retrieval cares, and it leaves the call parked. */
  function GiveUp(s: State, q: Request): State {
    if q.awaited && q.op.Release? then
      var l := Local(s, q.who);
      With(s, q.who, l.(retrieving := l.retrieving - {q.op.channel}))
    else
      s
  }

  // ---- what instances cannot know ------------------------------------------------------------

  /** The outcome of `q` goes unheard. */
  function Unheard(s: State, q: Request, outcome: Outcome): State {
    if q.op.Release? && outcome.Deleted? && Local(s, q.who).claims != map[]
    then s.(misled := s.misled + {q.who})
    else s
  }

  /** Requests and answers of a chain that may end in the instance owning the orbit. */
  predicate Taking(op: Op) {
    op.Create? || op.ReadForTake? || op.Reap? || op.ReadForTakeover? || op.TakeOver?
  }

  /** An answer, still good to act on, that will make the instance the orbit's owner. */
  predicate Winning(s: State, r: Reply) {
    r.outcome.Written? && Taking(r.request.op) && s.now < r.request.start + s.patience
  }

  predicate Settled(s: State, l: Instance) {
    l.slot.None? && l.claims == map[] && forall r <- l.inbox :: !Winning(s, r)
  }

  /** An instance that holds nothing, and is about to hold nothing, is misled about nothing. */
  function Settle(s: State): State {
    s.(misled := set who | who in s.misled && !Settled(s, Local(s, who)))
  }

  // ---- the bucket ----------------------------------------------------------------------------

  function Proposal(q: Request): Claim
    requires q.op.Create? || q.op.Reap? || q.op.Renew? || q.op.TakeOver?
  {
    Claim(q.who, q.op.channel,
          CLAIM_LEASE_MS + if q.op.Renew? || q.op.TakeOver? then q.op.stamp else q.start)
  }

  predicate IsCurrent(stored: Option<Stored>, revision: nat) {
    stored.Some? && stored.value.revision == revision
  }

  /** `create` needs a free key, `update` and `delete` the key at the quoted revision. */
  function Broker(stored: Option<Stored>, sequence: nat, q: Request): (Option<Stored>, Outcome) {
    match q.op
    case Create(_) =>
      if stored.None? then (Some(Stored(Proposal(q), sequence + 1)), Written(sequence + 1)) else (stored, Conflict)
    case Reap(_, revision) =>
      if IsCurrent(stored, revision) then (Some(Stored(Proposal(q), sequence + 1)), Written(sequence + 1))
      else (stored, Conflict)
    case Renew(_, _, _, revision) =>
      if IsCurrent(stored, revision) then (Some(Stored(Proposal(q), sequence + 1)), Written(sequence + 1))
      else (stored, Conflict)
    case TakeOver(_, _, revision) =>
      if IsCurrent(stored, revision) then (Some(Stored(Proposal(q), sequence + 1)), Written(sequence + 1))
      else (stored, Conflict)
    case Release(_, revision) => if IsCurrent(stored, revision) then (None, Deleted) else (stored, Conflict)
    case Discard(revision) => if IsCurrent(stored, revision) then (None, Deleted) else (stored, Conflict)
    case _ => (stored, Current(stored))
  }

  function Serve(s: State, q: Request, answered: bool): State {
    var (stored, outcome) := Broker(s.stored, s.sequence, q);
    var next := s.(stored := stored, sequence := s.sequence + 1, requests := s.requests - multiset{q});
    if !q.awaited || !answered then Unheard(GiveUp(next, q), q, outcome)
    else var l := Local(next, q.who); With(next, q.who, l.(inbox := l.inbox + [Reply(q, outcome)]))
  }

  function Deliver(s: State, who: string): State
    requires Local(s, who).inbox != []
  {
    var l, reply := Local(s, who), Local(s, who).inbox[0];
    var popped := l.(inbox := l.inbox[1..]);
    if s.now >= reply.request.start + s.patience
    then Unheard(GiveUp(With(s, who, popped), reply.request), reply.request, reply.outcome)
    else
      var (l', op) := Handle(popped, reply, s.now);
      var next := With(s, who, l');
      if op.None? then next else Send(next, Request(who, reply.request.start, true, op.value))
  }

  // ---- steps and runs ------------------------------------------------------------------------

  datatype Step =
    | Tick(ms: nat)
    | Park(who: string, channel: string)
    | Heartbeat(who: string, channel: string, stamp: int)
    | Retrieve(who: string)
    | Collect(who: string, channel: string)
    | Free(who: string)
    | Forget(who: string)
    | Clear(who: string)
    | Evict
    | Abandon(request: Request)
    | Answer(request: Request, answered: bool)
    | Receive(who: string)

  predicate Enabled(s: State, step: Step) {
    match step
    case Tick(_) => true
    case Park(who, _) => Local(s, who).slot.None?
    case Heartbeat(who, channel, stamp) =>
      var l := Local(s, who);
      channel in l.claims && channel !in l.retrieving && l.claims[channel].learnt <= stamp <= s.now
    case Retrieve(who) => var l := Local(s, who); l.slot.Some? && l.slot.value !in l.retrieving
    case Collect(who, _) => Local(s, who).slot.None?
    case Free(who) => Local(s, who).takeover.Some?
    case Forget(who) => true
    case Clear(who) => true
    case Evict => s.stored.Some? && s.stored.value.claim.expiresAt - CLAIM_LEASE_MS + BUCKET_TTL_MS <= s.now
    case Abandon(q) => q in s.requests && q.awaited
    case Answer(q, _) => q in s.requests
    case Receive(who) => Local(s, who).inbox != []
  }

  function Move(s: State, step: Step): State
    requires Enabled(s, step)
  {
    match step
    case Tick(ms) => s.(now := s.now + ms)
    case Park(who, channel) => Send(s, Request(who, s.now, true, Create(channel)))
    case Heartbeat(who, channel, stamp) =>
      var held := Local(s, who).claims[channel];
      Send(s, Request(who, s.now, true, Renew(channel, held.serial, stamp, held.revision)))
    case Retrieve(who) =>
      var l := Local(s, who);
      if l.slot.value in l.claims then
        Send(With(s, who, l.(retrieving := l.retrieving + {l.slot.value})),
             Request(who, s.now, true, Release(l.slot.value, l.claims[l.slot.value].revision)))
      else
        With(s, who, RemoveLocal(l))
    case Collect(who, channel) => Send(s, Request(who, s.now, true, ReadForTakeover(channel)))
    case Free(who) =>
      var l := Local(s, who);
      Send(With(s, who, l.(takeover := None)), Request(who, s.now, false, Discard(l.takeover.value)))
    case Forget(who) => With(s, who, RemoveLocal(Local(s, who)))
    case Clear(who) => With(s, who, Local(s, who).(slot := None, claims := map[], retrieving := {}, takeover := None))
    case Evict => s.(stored := None, sequence := s.sequence + 1)
    case Abandon(q) => Send(GiveUp(s.(requests := s.requests - multiset{q}), q), q.(awaited := false))
    case Answer(q, answered) => Serve(s, q, answered)
    case Receive(who) => Deliver(s, who)
  }

  function Apply(s: State, step: Step): State
    requires Enabled(s, step)
  {
    Settle(Move(s, step))
  }

  /** Every step of the run is enabled where it is taken. */
  predicate Possible(s: State, steps: seq<Step>)
    decreases |steps|
  {
    steps == [] || (Enabled(s, steps[0]) && Possible(Apply(s, steps[0]), steps[1..]))
  }

  function Run(s: State, steps: seq<Step>): State
    requires Possible(s, steps)
    decreases |steps|
  {
    if steps == [] then s else Run(Apply(s, steps[0]), steps[1..])
  }
}
