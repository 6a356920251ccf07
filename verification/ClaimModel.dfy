/**
 The name-claim state machine of internal/lanmdns/actor.go: what each arm of the
 actor's select does to the claims, and what a run of such arms is. The class in
 Responder.dfy carries the arms out step by step; the theorems are in ClaimRuns.dfy
 and ClaimWaiters.dfy.
 */
module ClaimModel {
  import opened Common
  import opened Probing

  const PROBE_INTERVAL := 250 * MILLISECOND

  datatype Phase = ProbeWait | Probing | Observing | AwaitingReadiness | Announcing | Active

  /** A waiting register command: the handle's ID and its reply channel. */
  datatype Pending = Pending(id: string, reply: nat)

  datatype Claim = Claim(
    requested: string, candidate: string, current: string,
    phase: Phase, probeCount: nat, deadline: Option<Time>, startedAt: Time,
    conflicts: seq<Time>, generation: nat,
    refs: set<string>, pending: seq<Pending>)
  {
    predicate Published() {
      phase == Announcing || phase == Active
    }
  }

  datatype Failure =
    | BadHostname(error: NameError) | NoIdentity | TimedOut | NoSuffix(reason: NameError)
    | WriteQueueFull | CoordinatorQueueFull | Refused(code: nat)

  datatype Outcome = Registered(id: string) | Failed(failure: Failure)

  datatype Answer = Answer(reply: nat, outcome: Outcome)

  datatype Request = Request(requested: string, generation: nat, previous: string, proposed: string)

  datatype Readiness = Readiness(requested: string, generation: nat, refusal: Option<nat>)

  /** What the actor took in and put out, in order. */
  datatype Entry =
    | Opened(requested: string, at: Time)
    | Heard(msg: Message, at: Time)
    | Probed(requested: string, name: string, at: Time)
    | Announced(requested: string, name: string, at: Time)
    | Goodbye(requested: string, name: string)

  /** The actor's variables, the channels to the coordinator pump, the request the
      pump is carrying, and the history the theorems speak about: every answer
      sent, every register command accepted or cancelled, and the log. */
  datatype State = State(
    claims: map<string, Claim>,
    registrations: map<string, string>,
    names: map<string, string>,
    requests: seq<Request>, preparing: Option<Request>, results: seq<Readiness>,
    answers: seq<Answer>, accepted: set<nat>, cancelled: set<nat>,
    log: seq<Entry>, timer: Option<Time>, clock: Time)

  const INITIAL := State(map[], map[], map[], [], None, [], [], {}, {}, [], None, 0)

  // ------------------------------------------------------------ one claim's turn

  /** What one claim's turn in an arm leaves of it (None: deleted) and emits. */
  datatype Effect = Effect(
    next: Option<Claim>, log: seq<Entry>, requests: seq<Request>, answers: seq<Answer>,
    forgotten: set<string>, cancelled: set<nat>)

  function Keep(c: Claim): Effect {
    Effect(Some(c), [], [], [], {}, {})
  }

  function Complete(pending: seq<Pending>, failure: Option<Failure>): seq<Answer> {
    seq(|pending|, i requires 0 <= i < |pending| =>
      Answer(pending[i].reply,
             if failure.None? then Registered(pending[i].id) else Failed(failure.value)))
  }

  function Drop(c: Claim, failure: Failure): Effect {
    Effect(None, [], [], Complete(c.pending, Some(failure)), {}, {})
  }

  function Max(a: Time, b: Time): Time {
    if a < b then b else a
  }

  /** clash: the packet contradicts a published name; lost: it takes the name
      being probed, and next is the name to try then. */
  ghost function Verdict(c: Claim, clash: bool, lost: bool, next: Result<string, NameError>, now: Time, delay: Time)
    : Effect
  {
    if c.Published() then
      if clash then
        Keep(c.(candidate := c.current, phase := ProbeWait, probeCount := 0, startedAt := now,
                conflicts := [], generation := c.generation + 1, deadline := Some(now + delay)))
      else Keep(c)
    else if c.phase == ProbeWait || c.probeCount == 0 || !lost then Keep(c)
    else if now - c.startedAt >= PROBING_LIMIT then Drop(c, TimedOut)
    else
      match next
      case Err(e) => Drop(c, NoSuffix(e))
      case Ok(name) =>
        var conflicts := c.conflicts + [now];
        Keep(c.(candidate := name, phase := ProbeWait, probeCount := 0, conflicts := conflicts,
                generation := c.generation + 1,
                deadline := Some(now + Max(delay, Backoff(now, conflicts)))))
  }

  ghost function PacketEffect(ours: Address, c: Claim, msg: Message, now: Time, delay: Time): Effect {
    Verdict(c, ConflictsWith(msg, c.current, ours), Loses(ours, msg, c.candidate),
            NextConflictHostname(c.candidate), now, delay)
  }

  function TickEffect(c: Claim, now: Time, room: bool): Effect {
    if c.deadline.None? || c.deadline.value > now then Keep(c)
    else
      match c.phase
      case ProbeWait | Probing =>
        if !room then Drop(c, WriteQueueFull)
        else
          Keep(c.(probeCount := c.probeCount + 1, deadline := Some(now + PROBE_INTERVAL),
                  phase := if c.probeCount + 1 == 3 then Observing else Probing))
          .(log := [Probed(c.requested, c.candidate, now)])
      case Observing =>
        if !room then Drop(c, CoordinatorQueueFull)
        else
          Keep(c.(phase := AwaitingReadiness, deadline := None))
          .(requests := [Request(c.requested, c.generation, c.current, c.candidate)])
      case Announcing =>
        if !room then Drop(c, WriteQueueFull)
        else
          Keep(c.(phase := Active, deadline := None, pending := []))
          .(log := [Announced(c.requested, c.candidate, now)], answers := Complete(c.pending, None))
      case AwaitingReadiness | Active => Keep(c)
  }

  /** The position of the waiter with that reply channel. */
  function FindPending(pending: seq<Pending>, reply: nat): (r: Option<nat>)
    ensures r.Some? ==> r.value < |pending| && pending[r.value].reply == reply
    ensures r.None? ==> forall i :: 0 <= i < |pending| ==> pending[i].reply != reply
  {
    if pending == [] then None
    else if pending[0].reply == reply then Some(0)
    else
      var r := FindPending(pending[1..], reply);
      if r.None? then None else Some(r.value + 1)
  }

  function CancelEffect(c: Claim, reply: nat): Effect {
    var found := FindPending(c.pending, reply);
    if found.None? then Keep(c)
    else
      var id := c.pending[found.value].id;
      var left := c.(refs := c.refs - {id}, pending := Without(c.pending, found.value));
      Effect(if left.refs == {} then None else Some(left), [], [], [], {id}, {reply})
  }

  // ------------------------------------------------------------ sweeps over all claims

  /** delays: the random probe delay of each claim; room: the claims whose single
      send in this arm finds its queue not full. */
  datatype Sweep =
    | OnPacket(msg: Message, now: Time, delays: map<string, Time>)
    | OnTick(now: Time, room: set<string>)
    | OnCancel(reply: nat)

  function DelayOf(delays: map<string, Time>, h: string): Time {
    if h in delays then delays[h] else 0
  }

  ghost function EffectOf(ours: Address, c: Claim, sweep: Sweep): Effect {
    match sweep
    case OnPacket(msg, now, delays) => PacketEffect(ours, c, msg, now, DelayOf(delays, c.requested))
    case OnTick(now, room) => TickEffect(c, now, c.requested in room)
    case OnCancel(reply) => CancelEffect(c, reply)
  }

  function Apply(s: State, h: string, e: Effect): State {
    s.(claims := if e.next.Some? then s.claims[h := e.next.value] else s.claims - {h},
       log := s.log + e.log, requests := s.requests + e.requests, answers := s.answers + e.answers,
       registrations := s.registrations - e.forgotten, cancelled := s.cancelled + e.cancelled)
  }

  ghost function Turn(ours: Address, s: State, sweep: Sweep, h: string): State {
    if h in s.claims then Apply(s, h, EffectOf(ours, s.claims[h], sweep)) else s
  }

  /** The claims take their turns in the given order. */
  ghost function Fold(ours: Address, s: State, sweep: Sweep, order: seq<string>): State {
    if order == [] then s
    else Turn(ours, Fold(ours, s, sweep, order[..|order| - 1]), sweep, order[|order| - 1])
  }

  // ------------------------------------------------------------ the timer

  ghost predicate IsNearest(claims: map<string, Claim>, t: Time) {
    && (exists h :: h in claims && claims[h].deadline == Some(t))
    && forall h :: h in claims && claims[h].deadline.Some? ==> t <= claims[h].deadline.value
  }

  ghost predicate NoDeadline(claims: map<string, Claim>) {
    forall h :: h in claims ==> claims[h].deadline.None?
  }

  /** The timer that reschedule sets: off without deadlines, else due at the nearest. */
  ghost predicate Rearmed(claims: map<string, Claim>, now: Time, timer: Option<Time>) {
    if NoDeadline(claims) then timer.None?
    else timer.Some? && exists t :: IsNearest(claims, t) && timer.value == Max(t, now)
  }

  lemma {:induction false} SomeNearest(claims: map<string, Claim>)
    requires !NoDeadline(claims)
    ensures exists t :: IsNearest(claims, t)
    decreases |claims|
  {
    var h :| h in claims && claims[h].deadline.Some?;
    var d := claims[h].deadline.value;
    var rest := claims - {h};
    assert forall k :: k in claims ==> k == h || (k in rest && rest[k] == claims[k]);
    if NoDeadline(rest) {
      assert IsNearest(claims, d);
    } else {
      SomeNearest(rest);
      var t :| IsNearest(rest, t);
      assert IsNearest(claims, if d < t then d else t);
    }
  }

  ghost function TimerFor(claims: map<string, Claim>, now: Time): (timer: Option<Time>)
    ensures Rearmed(claims, now, timer)
  {
    if NoDeadline(claims) then None
    else
      SomeNearest(claims);
      var t :| IsNearest(claims, t);
      Some(Max(t, now))
  }

  lemma RearmedIsUnique(claims: map<string, Claim>, now: Time, a: Option<Time>)
    requires Rearmed(claims, now, a)
    ensures a == TimerFor(claims, now)
  {
    if !NoDeadline(claims) {
      var t :| IsNearest(claims, t) && a.value == Max(t, now);
      var u :| IsNearest(claims, u) && TimerFor(claims, now).value == Max(u, now);
    }
  }

  ghost function Rearm(s: State, now: Time): State {
    s.(timer := TimerFor(s.claims, now))
  }

  // ------------------------------------------------------------ the arms of the select

  ghost function OnInbound(ours: Address, s: State, msg: Message, now: Time, delays: map<string, Time>,
                           order: seq<string>): State
  {
    var heard := s.(log := s.log + [Heard(msg, now)], clock := now);
    Rearm(Fold(ours, heard, OnPacket(msg, now, delays), order), now)
  }

  ghost function OnTimer(ours: Address, s: State, now: Time, room: set<string>, order: seq<string>): State {
    Rearm(Fold(ours, s.(clock := now), OnTick(now, room), order), now)
  }

  predicate Awaited(s: State, r: Readiness) {
    && r.requested in s.claims
    && s.claims[r.requested].generation == r.generation
    && s.claims[r.requested].phase == AwaitingReadiness
  }

  ghost function OnReadiness(s: State, now: Time, room: bool): State
    requires s.results != []
  {
    var r := s.results[0];
    var s := s.(results := s.results[1..], clock := now);
    if !Awaited(s, r) then s
    else
      var c := s.claims[r.requested];
      if r.refusal.Some? then Apply(s, r.requested, Drop(c, Refused(r.refusal.value)))
      else if !room then Apply(s, r.requested, Drop(c, WriteQueueFull))
      else
        var ready := c.(current := c.candidate, phase := Announcing, deadline := Some(now + SECOND));
        var effect := Keep(ready).(log := [Announced(c.requested, c.candidate, now)]);
        Rearm(Apply(s, r.requested, effect).(names := s.names + map id | id in c.refs :: c.candidate), now)
  }

  function NewClaim(hostname: string, now: Time, delay: Time): Claim {
    Claim(hostname, hostname, "", ProbeWait, 0, Some(now + delay), now, [], 1, {}, [])
  }

  ghost function OnRegister(s: State, raw: string, id: Option<string>, reply: nat, now: Time, delay: Time): State {
    Enrol(s, CanonicalHostname(raw), id, reply, now, delay)
  }

  /** The handle joins the claim, to be answered at once if the claim is active. */
  function Join(s: State, claim: Claim, hostname: string, id: string, reply: nat): State {
    var c := claim.(refs := claim.refs + {id});
    var s := s.(registrations := s.registrations[id := hostname]);
    if c.phase == Active then
      s.(claims := s.claims[hostname := c], names := s.names[id := c.current],
         answers := s.answers + [Answer(reply, Registered(id))])
    else
      s.(claims := s.claims[hostname := c.(pending := c.pending + [Pending(id, reply)])], names := s.names[id := ""])
  }

  ghost function Enrol(s: State, name: Result<string, NameError>, id: Option<string>, reply: nat, now: Time,
                       delay: Time): State
  {
    var s := s.(accepted := s.accepted + {reply}, clock := now);
    if name.Err? then s.(answers := s.answers + [Answer(reply, Failed(BadHostname(name.error)))])
    else if id.None? then s.(answers := s.answers + [Answer(reply, Failed(NoIdentity))])
    else
      var known := name.value in s.claims;
      var c := if known then s.claims[name.value] else NewClaim(name.value, now, delay);
      var s := s.(log := if known then s.log else s.log + [Opened(name.value, now)]);
      Rearm(Join(s, c, name.value, id.value, reply), now)
  }

  ghost function OnCancelRegister(ours: Address, s: State, reply: nat, now: Time, order: seq<string>): State {
    Rearm(Fold(ours, s.(clock := now), OnCancel(reply), order), now)
  }

  ghost function OnRelease(s: State, id: string, now: Time): State {
    var s := s.(clock := now);
    if id !in s.registrations then Rearm(s, now)
    else
      var h := s.registrations[id];
      var s := s.(registrations := s.registrations - {id});
      if h !in s.claims then Rearm(s, now)
      else
        var c := s.claims[h];
        var left := c.(refs := c.refs - {id});
        if left.refs != {} then Rearm(s.(claims := s.claims[h := left]), now)
        else
          var s := s.(claims := s.claims - {h});
          Rearm(if c.Published() then s.(log := s.log + [Goodbye(h, c.current)]) else s, now)
  }

  /** The coordinator pump takes the next request. */
  function OnTake(s: State): State
    requires s.preparing.None? && s.requests != []
  {
    s.(preparing := Some(s.requests[0]), requests := s.requests[1..])
  }

  /** The coordinator has answered and the pump delivers its result. */
  function OnDeliver(s: State, refusal: Option<nat>): State
    requires s.preparing.Some?
  {
    var r := s.preparing.value;
    s.(preparing := None, results := s.results + [Readiness(r.requested, r.generation, refusal)])
  }

  // ------------------------------------------------------------ runs

  datatype Event =
    | Inbound(msg: Message, now: Time, delays: map<string, Time>, order: seq<string>)
    | Tick(now: Time, room: set<string>, order: seq<string>)
    | Ready(now: Time, fits: bool)
    | Register(raw: string, id: Option<string>, reply: nat, now: Time, delay: Time)
    | Cancel(reply: nat, now: Time, order: seq<string>)
    | Release(handle: string, now: Time)
    | Take
    | Deliver(refusal: Option<nat>)

  ghost predicate Covers(order: seq<string>, claims: map<string, Claim>) {
    NoDup(order) && ToSet(order) == claims.Keys
  }

  predicate IsDelay(delay: Time) {
    0 <= delay <= PROBE_INTERVAL
  }

  ghost predicate Delivered(s: State, id: string) {
    exists k :: 0 <= k < |s.answers| && s.answers[k].outcome == Registered(id)
  }

  /** What the surroundings guarantee: the clock does not go back, delays are
      within bounds, IDs and reply channels are fresh, and only a handle that a
      register command returned is ever released. */
  ghost predicate Enabled(s: State, e: Event) {
    match e
    case Inbound(msg, now, delays, order) =>
      s.clock <= now && Covers(order, s.claims) && forall h :: h in delays ==> IsDelay(delays[h])
    case Tick(now, room, order) => s.clock <= now && Covers(order, s.claims)
    case Ready(now, fits) => s.clock <= now && s.results != []
    case Register(raw, id, reply, now, delay) =>
      s.clock <= now && IsDelay(delay) && reply !in s.accepted && (id.Some? ==> id.value !in s.names)
    case Cancel(reply, now, order) => s.clock <= now && Covers(order, s.claims)
    case Release(id, now) => s.clock <= now && Delivered(s, id)
    case Take => s.preparing.None? && s.requests != []
    case Deliver(refusal) => s.preparing.Some?
  }

  ghost function Next(ours: Address, s: State, e: Event): State
    requires Enabled(s, e)
  {
    match e
    case Inbound(msg, now, delays, order) => OnInbound(ours, s, msg, now, delays, order)
    case Tick(now, room, order) => OnTimer(ours, s, now, room, order)
    case Ready(now, fits) => OnReadiness(s, now, fits)
    case Register(raw, id, reply, now, delay) => OnRegister(s, raw, id, reply, now, delay)
    case Cancel(reply, now, order) => OnCancelRegister(ours, s, reply, now, order)
    case Release(id, now) => OnRelease(s, id, now)
    case Take => OnTake(s)
    case Deliver(refusal) => OnDeliver(s, refusal)
  }

  ghost predicate IsRun(ours: Address, states: seq<State>, events: seq<Event>) {
    && |states| == |events| + 1
    && states[0] == INITIAL
    && forall i {:trigger IsStep(ours, states, events, i)} :: 0 <= i < |events| ==> IsStep(ours, states, events, i)
  }

  ghost predicate IsStep(ours: Address, states: seq<State>, events: seq<Event>, i: int)
    requires 0 <= i < |events| && i + 1 < |states|
  {
    Enabled(states[i], events[i]) && states[i + 1] == Next(ours, states[i], events[i])
  }

  // ------------------------------------------------------------ what a sweep does

  lemma LastInOrder(order: seq<string>)
    requires NoDup(order) && order != []
    ensures var front, last := order[..|order| - 1], order[|order| - 1];
            order == front + [last] && NoDup(front) && last !in front && ToSet(order) == ToSet(front) + {last}
  {
    var front, last := order[..|order| - 1], order[|order| - 1];
    assert order == front + [last];
    assert last !in front by {
      assert forall i :: 0 <= i < |front| ==> order[i] != order[|order| - 1];
    }
  }

  /** In a sweep every claim gets exactly the effect of its own turn. */
  lemma {:induction false} FoldAt(ours: Address, s: State, sweep: Sweep, order: seq<string>, h: string)
    requires NoDup(order) && IsFiled(s.claims)
    requires ToSet(order) <= s.claims.Keys
    ensures var t := Fold(ours, s, sweep, order);
            if h in order then
              var e := EffectOf(ours, s.claims[h], sweep);
              (h in t.claims <==> e.next.Some?) && (e.next.Some? ==> t.claims[h] == e.next.value)
            else (h in t.claims <==> h in s.claims) && (h in s.claims ==> t.claims[h] == s.claims[h])
    decreases |order|
  {
    if order != [] {
      var front, last := order[..|order| - 1], order[|order| - 1];
      LastInOrder(order);
      FoldAt(ours, s, sweep, front, h);
      FoldAt(ours, s, sweep, front, last);
    }
  }

  lemma VerdictKeepsRequested(c: Claim, clash: bool, lost: bool, next: Result<string, NameError>, now: Time,
                              delay: Time)
    ensures var e := Verdict(c, clash, lost, next, now, delay);
            e.next.Some? ==> e.next.value.requested == c.requested
  {
  }

  lemma TurnKeepsRequested(ours: Address, c: Claim, sweep: Sweep)
    ensures var e := EffectOf(ours, c, sweep);
            e.next.Some? ==> e.next.value.requested == c.requested
  {
    if sweep.OnPacket? {
      VerdictKeepsRequested(c, ConflictsWith(sweep.msg, c.current, ours), Loses(ours, sweep.msg, c.candidate),
                            NextConflictHostname(c.candidate), sweep.now, DelayOf(sweep.delays, c.requested));
    }
  }

  /** Claims are filed under the name they were requested for. */
  ghost predicate IsFiled(claims: map<string, Claim>) {
    forall h :: h in claims ==> claims[h].requested == h
  }

  lemma {:induction false} FoldKeepsFiled(ours: Address, s: State, sweep: Sweep, order: seq<string>)
    requires IsFiled(s.claims)
    ensures IsFiled(Fold(ours, s, sweep, order).claims)
    decreases |order|
  {
    if order != [] {
      var t := Fold(ours, s, sweep, order[..|order| - 1]);
      var last := order[|order| - 1];
      FoldKeepsFiled(ours, s, sweep, order[..|order| - 1]);
      if last in t.claims {
        TurnKeepsRequested(ours, t.claims[last], sweep);
      }
    }
  }

  /** A sweep only adds to the logs and queues; it touches nothing else. */
  lemma {:induction false} FoldGrows(ours: Address, s: State, sweep: Sweep, order: seq<string>)
    ensures var t := Fold(ours, s, sweep, order);
            && s.log <= t.log && s.requests <= t.requests && s.answers <= t.answers
            && t == s.(claims := t.claims, registrations := t.registrations, log := t.log,
                       requests := t.requests, answers := t.answers, cancelled := t.cancelled)
            && (sweep.OnPacket? ==> t.log == s.log && t.requests == s.requests)
            && (sweep.OnTick? ==> t.registrations == s.registrations)
    decreases |order|
  {
    if order != [] {
      FoldGrows(ours, s, sweep, order[..|order| - 1]);
    }
  }

  /** What a claim asks the coordinator in its turn is in the queue afterwards. */
  lemma {:induction false} FoldRequests(ours: Address, s: State, sweep: Sweep, order: seq<string>, h: string)
    requires NoDup(order) && IsFiled(s.claims)
    requires ToSet(order) <= s.claims.Keys && h in order
    ensures var e := EffectOf(ours, s.claims[h], sweep);
            forall r :: r in e.requests ==> r in Fold(ours, s, sweep, order).requests
    decreases |order|
  {
    var front, last := order[..|order| - 1], order[|order| - 1];
    assert order == front + [last];
    assert ToSet(front) <= ToSet(order);
    if h in front {
      FoldRequests(ours, s, sweep, front, h);
    } else {
      assert h in ToSet(order);
      FoldAt(ours, s, sweep, front, h);
    }
  }
}
