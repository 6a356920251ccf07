/** What each event of a run does to a claim and what it puts out, arm by arm, with the
    times that RFC 6762 and actor.go set for it. */
module ClaimEffects {
  import opened Common
  import opened Probing
  import opened ClaimModel
  import opened ClaimRuns
  import opened ClaimTheorems
  import opened ClaimWaiters

  /** The claim is gone and everybody who waited for it has been answered so. */
  ghost predicate GaveUp(c: Claim, h: string, t: State, failure: Failure) {
    && h !in t.claims
    && forall k :: 0 <= k < |c.pending| ==> Answer(c.pending[k].reply, Failed(failure)) in t.answers
  }

  lemma {:induction false} FoldAnswers(ours: Address, s: State, sweep: Sweep, order: seq<string>, h: string)
    requires NoDup(order) && IsFiled(s.claims) && ToSet(order) <= s.claims.Keys && h in order
    ensures var e, t := EffectOf(ours, s.claims[h], sweep), Fold(ours, s, sweep, order);
            && (forall a :: a in e.answers ==> a in t.answers)
            && (forall a :: a in e.log ==> a in t.log)
    decreases |order|
  {
    var front, last := order[..|order| - 1], order[|order| - 1];
    LastInOrder(order);
    if h in front {
      FoldAnswers(ours, s, sweep, front, h);
    } else {
      FoldAt(ours, s, sweep, front, h);
    }
  }

  /** What is left of a claim and put out for it by an event that all claims see. */
  ghost predicate IsEffect(c: Claim, h: string, t: State, e: Effect) {
    && (h in t.claims <==> e.next.Some?) && (e.next.Some? ==> t.claims[h] == e.next.value)
    && (forall a :: a in e.answers ==> a in t.answers)
    && (forall a :: a in e.log ==> a in t.log)
    && (forall r :: r in e.requests ==> r in t.requests)
  }

  lemma SweepEffect(ours: Address, s: State, sweep: Sweep, order: seq<string>, h: string)
    requires Covers(order, s.claims) && IsFiled(s.claims) && h in s.claims
    ensures IsEffect(s.claims[h], h, Fold(ours, s, sweep, order), EffectOf(ours, s.claims[h], sweep))
  {
    assert h in ToSet(order);
    FoldAt(ours, s, sweep, order, h);
    FoldAnswers(ours, s, sweep, order, h);
    FoldRequests(ours, s, sweep, order, h);
  }

  lemma PacketAt(ours: Address, states: seq<State>, events: seq<Event>, i: nat, h: string)
    requires IsRun(ours, states, events) && i < |events| && events[i].Inbound? && h in states[i].claims
    ensures var c, e := states[i].claims[h], events[i];
            c.requested == h && states[i].clock <= e.now && 0 <= DelayOf(e.delays, h) <= 250 * MILLISECOND
            && IsEffect(c, h, states[i + 1], PacketEffect(ours, c, e.msg, e.now, DelayOf(e.delays, h)))
  {
    var s, e := states[i], events[i];
    RunKeepsInv(ours, states, events, i);
    assert IsStep(ours, states, events, i);
    SweepEffect(ours, s.(log := s.log + [Heard(e.msg, e.now)], clock := e.now), OnPacket(e.msg, e.now, e.delays),
                e.order, h);
  }

  // ------------------------------------------------------------ packets

  /** Section 9 of RFC 6762: an answer for the name of a published claim with an address
      other than ours sends the claim back to probing for it, within 250 ms, with a
      generation of its own and no conflicts counted yet. */
  lemma PublishedClaimReprobes(ours: Address, states: seq<State>, events: seq<Event>, i: nat, h: string)
    requires IsRun(ours, states, events) && i < |events| && events[i].Inbound? && h in states[i].claims
    requires states[i].claims[h].phase == Announcing || states[i].claims[h].phase == Active
    requires ConflictsWith(events[i].msg, states[i].claims[h].current, ours)
    ensures h in states[i + 1].claims
    ensures var c, d, now := states[i].claims[h], states[i + 1].claims[h], events[i].now;
            && d.phase == ProbeWait && d.probeCount == 0 && d.candidate == c.current == d.current
            && d.conflicts == [] && d.startedAt == now && d.generation == c.generation + 1
            && d.deadline.Some? && now <= d.deadline.value <= now + 250 * MILLISECOND
            && d.refs == c.refs && d.pending == c.pending
  {
    PacketAt(ours, states, events, i, h);
  }

  /** Any other packet leaves a published claim as it is; so is a claim that is not
      probing yet, and one that the packet does not take its name from. */
  lemma OtherPacketsPass(ours: Address, states: seq<State>, events: seq<Event>, i: nat, h: string)
    requires IsRun(ours, states, events) && i < |events| && events[i].Inbound? && h in states[i].claims
    requires var c, msg := states[i].claims[h], events[i].msg;
             if c.phase == Announcing || c.phase == Active then !ConflictsWith(msg, c.current, ours)
             else c.phase == ProbeWait || !Loses(ours, msg, c.candidate)
    ensures h in states[i + 1].claims && states[i + 1].claims[h] == states[i].claims[h]
  {
    PacketAt(ours, states, events, i, h);
  }

  /** A claim that loses the name it is probing tries the next one after the wait that its
      conflicts impose; once it has been probing for a minute it gives up. */
  lemma LosingClaimMovesOn(ours: Address, states: seq<State>, events: seq<Event>, i: nat, h: string)
    requires IsRun(ours, states, events) && i < |events| && events[i].Inbound? && h in states[i].claims
    requires states[i].claims[h].phase in {Phase.Probing, Observing, AwaitingReadiness}
    requires Loses(ours, events[i].msg, states[i].claims[h].candidate)
    ensures var c, now := states[i].claims[h], events[i].now;
            if now - c.startedAt >= MINUTE then GaveUp(c, h, states[i + 1], TimedOut)
            else
              && h in states[i + 1].claims
              && var d := states[i + 1].claims[h];
              && NextConflictHostname(c.candidate) == Ok(d.candidate) && d.current == c.current
              && d.phase == ProbeWait && d.probeCount == 0 && d.startedAt == c.startedAt
              && d.conflicts == c.conflicts + [now] && d.generation == c.generation + 1
              && d.deadline.Some? && now + Backoff(now, d.conflicts) <= d.deadline.value
              && d.deadline.value <= now + Max(250 * MILLISECOND, Backoff(now, d.conflicts))
              && d.refs == c.refs && d.pending == c.pending
  {
    PacketAt(ours, states, events, i, h);
    PhasesStayPaired(ours, states, events, i, h);
    var c, e := states[i].claims[h], events[i];
    NextExists(c.candidate);
    var clash, next, delay := ConflictsWith(e.msg, c.current, ours), NextConflictHostname(c.candidate),
        DelayOf(e.delays, h);
    VerdictMovesOn(c, clash, next, e.now, delay, h, states[i + 1]);
  }

  lemma NextExists(host: string)
    requires IsHostname(host)
    ensures NextConflictHostname(host).Ok?
  {
    NextConflictHostnameAdvances(host);
  }

  lemma VerdictMovesOn(c: Claim, clash: bool, next: Result<string, NameError>, now: Time, delay: Time, h: string,
                       t: State)
    requires !c.Published() && c.phase != ProbeWait && c.probeCount > 0 && next.Ok?
    requires 0 <= delay <= 250 * MILLISECOND && IsEffect(c, h, t, Verdict(c, clash, true, next, now, delay))
    ensures if now - c.startedAt >= MINUTE then GaveUp(c, h, t, TimedOut)
            else
              && h in t.claims
              && var d := t.claims[h];
              && d.candidate == next.value && d.current == c.current
              && d.phase == ProbeWait && d.probeCount == 0 && d.startedAt == c.startedAt
              && d.conflicts == c.conflicts + [now] && d.generation == c.generation + 1
              && d.deadline == Some(now + Max(delay, Backoff(now, d.conflicts)))
              && d.refs == c.refs && d.pending == c.pending
  {
    if now - c.startedAt >= MINUTE {
      DroppedAreAnswered(c, h, t, TimedOut);
    }
  }

  lemma DroppedAreAnswered(c: Claim, h: string, t: State, failure: Failure)
    requires IsEffect(c, h, t, Drop(c, failure))
    ensures GaveUp(c, h, t, failure)
  {
    forall k | 0 <= k < |c.pending| ensures Answer(c.pending[k].reply, Failed(failure)) in t.answers {
      assert Complete(c.pending, Some(failure))[k] == Answer(c.pending[k].reply, Failed(failure));
    }
  }

  // ------------------------------------------------------------ the timer

  lemma TickAt(ours: Address, states: seq<State>, events: seq<Event>, i: nat, h: string)
    requires IsRun(ours, states, events) && i < |events| && events[i].Tick? && h in states[i].claims
    ensures var c, e := states[i].claims[h], events[i];
            c.requested == h && IsEffect(c, h, states[i + 1], TickEffect(c, e.now, h in e.room))
  {
    var s, e := states[i], events[i];
    RunKeepsInv(ours, states, events, i);
    assert IsStep(ours, states, events, i);
    SweepEffect(ours, s.(clock := e.now), OnTick(e.now, e.room), e.order, h);
  }

  predicate Due(c: Claim, now: Time) {
    c.deadline.Some? && c.deadline.value <= now
  }

  /** A tick leaves a claim that is not due as it is. One that is due and finds its queue
      full gives up. */
  lemma TickSparesOrDrops(ours: Address, states: seq<State>, events: seq<Event>, i: nat, h: string)
    requires IsRun(ours, states, events) && i < |events| && events[i].Tick? && h in states[i].claims
    ensures var c, now := states[i].claims[h], events[i].now;
            && (!Due(c, now) ==> h in states[i + 1].claims && states[i + 1].claims[h] == c)
            && (Due(c, now) && h !in events[i].room ==>
                  GaveUp(c, h, states[i + 1], if c.phase == Observing then CoordinatorQueueFull else WriteQueueFull))
  {
    var c := states[i].claims[h];
    TickAt(ours, states, events, i, h);
    PhasesStayPaired(ours, states, events, i, h);
    if Due(c, events[i].now) && h !in events[i].room {
      DroppedAreAnswered(c, h, states[i + 1], if c.phase == Observing then CoordinatorQueueFull else WriteQueueFull);
    }
  }

  /** Section 8.1 of RFC 6762: a due claim sends its next probe and waits 250 ms; after
      the third it only listens. */
  lemma DueClaimProbes(ours: Address, states: seq<State>, events: seq<Event>, i: nat, h: string)
    requires IsRun(ours, states, events) && i < |events| && events[i].Tick? && h in states[i].claims
    requires Due(states[i].claims[h], events[i].now) && h in events[i].room
    requires states[i].claims[h].phase == ProbeWait || states[i].claims[h].phase == Phase.Probing
    ensures h in states[i + 1].claims
    ensures var c, d, now := states[i].claims[h], states[i + 1].claims[h], events[i].now;
            && d == c.(probeCount := c.probeCount + 1, deadline := Some(now + 250 * MILLISECOND), phase := d.phase)
            && d.phase == (if d.probeCount == 3 then Observing else Phase.Probing)
            && Probed(h, c.candidate, now) in states[i + 1].log
  {
    TickAt(ours, states, events, i, h);
    var c := states[i].claims[h];
    assert Probed(h, c.candidate, events[i].now) in TickEffect(c, events[i].now, true).log;
  }

  /** Once it has listened for long enough the coordinator is asked to get ready. */
  lemma DueClaimAsks(ours: Address, states: seq<State>, events: seq<Event>, i: nat, h: string)
    requires IsRun(ours, states, events) && i < |events| && events[i].Tick? && h in states[i].claims
    requires Due(states[i].claims[h], events[i].now) && h in events[i].room && states[i].claims[h].phase == Observing
    ensures h in states[i + 1].claims
    ensures var c, d := states[i].claims[h], states[i + 1].claims[h];
            && d == c.(phase := AwaitingReadiness, deadline := None)
            && Request(h, c.generation, c.current, c.candidate) in states[i + 1].requests
  {
    TickAt(ours, states, events, i, h);
    var c := states[i].claims[h];
    assert Request(h, c.generation, c.current, c.candidate) in TickEffect(c, events[i].now, true).requests;
  }

  /** Section 8.3 of RFC 6762: a second announcement follows a second after the first, and
      then everybody who has waited gets a handle. */
  lemma DueClaimActivates(ours: Address, states: seq<State>, events: seq<Event>, i: nat, h: string)
    requires IsRun(ours, states, events) && i < |events| && events[i].Tick? && h in states[i].claims
    requires Due(states[i].claims[h], events[i].now) && h in events[i].room && states[i].claims[h].phase == Announcing
    ensures h in states[i + 1].claims
    ensures var c, d := states[i].claims[h], states[i + 1].claims[h];
            && d == c.(phase := Active, deadline := None, pending := [])
            && Announced(h, c.candidate, events[i].now) in states[i + 1].log
            && forall k :: 0 <= k < |c.pending| ==>
                 Answer(c.pending[k].reply, Registered(c.pending[k].id)) in states[i + 1].answers
  {
    TickAt(ours, states, events, i, h);
    var c := states[i].claims[h];
    assert Announced(h, c.candidate, events[i].now) in TickEffect(c, events[i].now, true).log;
    forall k | 0 <= k < |c.pending|
      ensures Answer(c.pending[k].reply, Registered(c.pending[k].id)) in states[i + 1].answers
    {
      assert Complete(c.pending, None)[k] == Answer(c.pending[k].reply, Registered(c.pending[k].id));
    }
  }

  // ------------------------------------------------------------ the coordinator's answer

  /** The coordinator's answer for the claim as it waits for it: it is announced at once
      and again a second later, and its handles are told the name; or, if it is refused or
      the announcement does not fit, it gives up. */
  lemma AwaitedAnswerPublishes(ours: Address, states: seq<State>, events: seq<Event>, i: nat, h: string)
    requires IsRun(ours, states, events) && i < |events| && events[i].Ready? && h in states[i].claims
    requires states[i].claims[h].phase == AwaitingReadiness
    requires states[i].results != [] && ResultFor(states[i].results[0], h, states[i].claims[h].generation)
    ensures var c, r, t := states[i].claims[h], states[i].results[0], states[i + 1];
            if r.refusal.Some? then GaveUp(c, h, t, Refused(r.refusal.value))
            else if !events[i].fits then GaveUp(c, h, t, WriteQueueFull)
            else
              && h in t.claims
              && t.claims[h] == c.(current := c.candidate, phase := Announcing,
                                   deadline := Some(events[i].now + SECOND))
              && t.log == states[i].log + [Announced(h, c.candidate, events[i].now)]
              && (forall id :: id in c.refs ==> id in t.names && t.names[id] == c.candidate)
              && (forall id :: id in states[i].names && id !in c.refs ==>
                  id in t.names && t.names[id] == states[i].names[id])
  {
    var s, e := states[i], events[i];
    RunKeepsInv(ours, states, events, i);
    assert IsStep(ours, states, events, i);
    var c, r, t := s.claims[h], s.results[0], states[i + 1];
    assert r.requested == h && c.requested == h;
    if r.refusal.Some? || !e.fits {
      RefusedGivesUp(s, e.now, e.fits, h);
    } else {
      WelcomePublishes(s, e.now, h);
    }
  }

  lemma RefusedGivesUp(s: State, now: Time, fits: bool, h: string)
    requires s.results != [] && s.results[0].requested == h && Awaited(s, s.results[0])
    requires s.results[0].refusal.Some? || !fits
    ensures var r := s.results[0];
            GaveUp(s.claims[h], h, OnReadiness(s, now, fits),
                   if r.refusal.Some? then Refused(r.refusal.value) else WriteQueueFull)
  {
    var r := s.results[0];
    AppendedAnswers(s, s.claims[h], OnReadiness(s, now, fits),
                    if r.refusal.Some? then Refused(r.refusal.value) else WriteQueueFull);
  }

  lemma WelcomePublishes(s: State, now: Time, h: string)
    requires s.results != [] && s.results[0].requested == h && Awaited(s, s.results[0]) && s.results[0].refusal.None?
    requires s.claims[h].requested == h
    ensures var c, t := s.claims[h], OnReadiness(s, now, true);
            && h in t.claims
            && t.claims[h] == c.(current := c.candidate, phase := Announcing, deadline := Some(now + SECOND))
            && t.log == s.log + [Announced(h, c.candidate, now)]
            && (forall id :: id in c.refs ==> id in t.names && t.names[id] == c.candidate)
            && (forall id :: id in s.names && id !in c.refs ==> id in t.names && t.names[id] == s.names[id])
  {
  }

  lemma AppendedAnswers(s: State, c: Claim, t: State, failure: Failure)
    requires t.answers == s.answers + Complete(c.pending, Some(failure))
    ensures forall k :: 0 <= k < |c.pending| ==> Answer(c.pending[k].reply, Failed(failure)) in t.answers
  {
    forall k | 0 <= k < |c.pending| ensures Answer(c.pending[k].reply, Failed(failure)) in t.answers {
      assert t.answers[|s.answers| + k] == Answer(c.pending[k].reply, Failed(failure));
    }
  }

  // ------------------------------------------------------------ releasing

  /** A goodbye for the current name is sent just when the last handle of a published
      claim is released (section 10.1 of RFC 6762), and the claim is gone just when its
      last handle is. */
  lemma LastHandleSaysGoodbye(ours: Address, states: seq<State>, events: seq<Event>, i: nat)
    requires IsRun(ours, states, events) && i < |events| && events[i].Release?
    ensures var s, t, id := states[i], states[i + 1], events[i].handle;
            var h := if id in s.registrations then s.registrations[id] else "";
            var ends := id in s.registrations && h in s.claims && s.claims[h].refs <= {id};
            && id !in t.registrations
            && t.claims.Keys == (if ends then s.claims.Keys - {h} else s.claims.Keys)
            && t.log == if ends && (s.claims[h].phase == Announcing || s.claims[h].phase == Active)
                        then s.log + [Goodbye(h, s.claims[h].current)] else s.log
  {
    var s, e := states[i], events[i];
    assert IsStep(ours, states, events, i);
    if e.handle in s.registrations && s.registrations[e.handle] in s.claims {
      var c := s.claims[s.registrations[e.handle]];
      assert c.refs - {e.handle} == {} <==> c.refs <= {e.handle};
    }
  }

  // ------------------------------------------------------------ registering

  /** A register command opens the claim of its name, to probe within 250 ms, or joins it;
      it is answered at once, and told the name, only if the claim is active. */
  lemma RegisterOpensOrJoins(ours: Address, states: seq<State>, events: seq<Event>, i: nat, h: string)
    requires IsRun(ours, states, events) && i < |events| && events[i].Register?
    requires events[i].id.Some? && CanonicalHostname(events[i].raw) == Ok(h)
    ensures h in states[i + 1].claims
    ensures var s, t, e := states[i], states[i + 1], events[i];
            var id, d := e.id.value, t.claims[h];
            && t.claims == s.claims[h := d] && t.registrations == s.registrations[id := h]
            && (if h !in s.claims then
                  && d.requested == d.candidate == h && d.current == "" && d.phase == ProbeWait && d.probeCount == 0
                  && d.conflicts == [] && d.generation == 1 && d.startedAt == e.now
                  && d.deadline.Some? && e.now <= d.deadline.value <= e.now + 250 * MILLISECOND
                  && d.refs == {id} && d.pending == [Pending(id, e.reply)]
                else if s.claims[h].phase == Active then d == s.claims[h].(refs := s.claims[h].refs + {id})
                else
                  d == s.claims[h].(refs := s.claims[h].refs + {id},
                                    pending := s.claims[h].pending + [Pending(id, e.reply)]))
            && t.names == s.names[id := if d.phase == Active then d.current else ""]
            && t.answers == if d.phase == Active then s.answers + [Answer(e.reply, Registered(id))] else s.answers
  {
    assert IsStep(ours, states, events, i);
  }

  /** One that names no host, or finds no ID, is answered so and changes no claim. */
  lemma BadRegisterIsAnswered(ours: Address, states: seq<State>, events: seq<Event>, i: nat)
    requires IsRun(ours, states, events) && i < |events| && events[i].Register?
    requires CanonicalHostname(events[i].raw).Err? || events[i].id.None?
    ensures states[i + 1].claims == states[i].claims && states[i + 1].registrations == states[i].registrations
    ensures var name := CanonicalHostname(events[i].raw);
            states[i + 1].answers == states[i].answers
              + [Answer(events[i].reply, Failed(if name.Err? then BadHostname(name.error) else NoIdentity))]
  {
    assert IsStep(ours, states, events, i);
  }

  /** Cancelling a register command that waits takes its handle back, and its claim with it
      if that has no other. */
  lemma CancelTakesWaiterBack(ours: Address, states: seq<State>, events: seq<Event>, i: nat, h: string, k: nat)
    requires IsRun(ours, states, events) && i < |events| && events[i].Cancel? && h in states[i].claims
    requires k < |states[i].claims[h].pending| && states[i].claims[h].pending[k].reply == events[i].reply
    ensures var c, t := states[i].claims[h], states[i + 1];
            var id := c.pending[k].id;
            if c.refs == {id} then h !in t.claims
            else
              && h in t.claims
              && t.claims[h] == c.(refs := c.refs - {id}, pending := c.pending[..k] + c.pending[k + 1..])
  {
    var s, e := states[i], events[i];
    RunKeepsInv(ours, states, events, i);
    RunKeepsWaiters(ours, states, events, i);
    assert IsStep(ours, states, events, i);
    SweepEffect(ours, s.(clock := e.now), OnCancel(e.reply), e.order, h);
    var found := FindPending(s.claims[h].pending, e.reply);
    assert found.Some? && PendingAt(s, h, k) && PendingAt(s, h, found.value);
    assert Unsettled(s, h, WaiterAt(s, h, k));
  }

  /** Other claims are left as they are. */
  lemma CancelSparesOthers(ours: Address, states: seq<State>, events: seq<Event>, i: nat, h: string)
    requires IsRun(ours, states, events) && i < |events| && events[i].Cancel? && h in states[i].claims
    requires forall k :: 0 <= k < |states[i].claims[h].pending| ==>
             states[i].claims[h].pending[k].reply != events[i].reply
    ensures h in states[i + 1].claims && states[i + 1].claims[h] == states[i].claims[h]
  {
    RunKeepsInv(ours, states, events, i);
    assert IsStep(ours, states, events, i);
    SweepEffect(ours, states[i].(clock := events[i].now), OnCancel(events[i].reply), events[i].order, h);
  }

  // ------------------------------------------------------------ the names that handles hold

  lemma SweepKeepsCurrent(ours: Address, s: State, sweep: Sweep, order: seq<string>, h: string)
    requires Covers(order, s.claims) && IsFiled(s.claims) && h in s.claims && s.claims[h].Published()
    requires h in Fold(ours, s, sweep, order).claims && Fold(ours, s, sweep, order).claims[h].Published()
    ensures var t := Fold(ours, s, sweep, order);
            t.claims[h].current == s.claims[h].current && t.claims[h].refs <= s.claims[h].refs && t.names == s.names
  {
    SweepEffect(ours, s, sweep, order, h);
    FoldGrows(ours, s, sweep, order);
  }

  lemma StepKeepsNames(ours: Address, s: State, e: Event)
    requires Enabled(s, e)
    ensures s.names.Keys <= Next(ours, s, e).names.Keys
  {
    if e.Inbound? {
      FoldGrows(ours, s.(log := s.log + [Heard(e.msg, e.now)], clock := e.now), OnPacket(e.msg, e.now, e.delays),
                e.order);
    } else if e.Tick? {
      FoldGrows(ours, s.(clock := e.now), OnTick(e.now, e.room), e.order);
    } else if e.Cancel? {
      FoldGrows(ours, s.(clock := e.now), OnCancel(e.reply), e.order);
    }
  }

  predicate IsSweep(e: Event) {
    e.Inbound? || e.Tick? || e.Cancel?
  }

  lemma SweepKeepsTold(ours: Address, s: State, e: Event, h: string)
    requires ClaimsOk(s) && Enabled(s, e) && IsSweep(e) && h in s.claims && s.claims[h].Published()
    requires var t := Next(ours, s, e); h in t.claims && t.claims[h].Published()
    ensures var t := Next(ours, s, e);
            t.claims[h].refs <= s.claims[h].refs && t.claims[h].current == s.claims[h].current && t.names == s.names
  {
    if e.Inbound? {
      SweepKeepsCurrent(ours, s.(log := s.log + [Heard(e.msg, e.now)], clock := e.now),
                        OnPacket(e.msg, e.now, e.delays), e.order, h);
    } else if e.Tick? {
      SweepKeepsCurrent(ours, s.(clock := e.now), OnTick(e.now, e.room), e.order, h);
    } else {
      SweepKeepsCurrent(ours, s.(clock := e.now), OnCancel(e.reply), e.order, h);
    }
  }

  /** What a step leaves of a claim's name and of a name told. */
  predicate Tells(s: State, t: State, h: string, id: string) {
    && h in s.claims && h in t.claims
    && id in s.claims[h].refs && t.claims[h].current == s.claims[h].current
    && id in s.names && id in t.names && t.names[id] == s.names[id]
  }

  lemma JoinKeepsTold(s: State, c: Claim, k: string, joining: string, reply: nat, h: string, id: string)
    requires h in s.claims && id in s.names && joining != id && (k in s.claims ==> c == s.claims[k])
    requires id in Join(s, c, k, joining, reply).claims[h].refs
    ensures Tells(s, Join(s, c, k, joining, reply), h, id)
  {
  }

  lemma RegisterKeepsTold(s: State, name: Result<string, NameError>, joining: Option<string>, reply: nat, now: Time,
                          delay: Time, h: string, id: string)
    requires h in s.claims && id in s.names && (joining.Some? ==> joining.value != id)
    requires h in Enrol(s, name, joining, reply, now, delay).claims
    requires id in Enrol(s, name, joining, reply, now, delay).claims[h].refs
    ensures Tells(s, Enrol(s, name, joining, reply, now, delay), h, id)
  {
    if name.Ok? && joining.Some? {
      var c := if name.value in s.claims then s.claims[name.value] else NewClaim(name.value, now, delay);
      JoinKeepsTold(s, c, name.value, joining.value, reply, h, id);
    }
  }

  lemma ReleaseKeepsTold(s: State, handle: string, now: Time, h: string, id: string)
    requires h in s.claims && id in s.names && h in OnRelease(s, handle, now).claims
    requires id in OnRelease(s, handle, now).claims[h].refs
    ensures Tells(s, OnRelease(s, handle, now), h, id)
  {
  }

  lemma CommandKeepsTold(ours: Address, s: State, e: Event, h: string, id: string)
    requires Enabled(s, e) && !IsSweep(e) && !e.Ready? && h in s.claims && id in s.names
    requires h in Next(ours, s, e).claims && id in Next(ours, s, e).claims[h].refs
    ensures Tells(s, Next(ours, s, e), h, id)
  {
    if e.Register? {
      RegisterKeepsTold(s, CanonicalHostname(e.raw), e.id, e.reply, e.now, e.delay, h, id);
    } else if e.Release? {
      ReleaseKeepsTold(s, e.handle, e.now, h, id);
    }
  }

  /** As long as its claim stays published, a handle keeps the name it holds, and the claim
      its name. */
  lemma StepKeepsTold(ours: Address, s: State, e: Event, h: string, id: string)
    requires ClaimsOk(s) && HandlesOk(s) && Enabled(s, e) && h in s.claims && s.claims[h].Published()
    requires id in s.names && h in Next(ours, s, e).claims
    requires Next(ours, s, e).claims[h].Published() && id in Next(ours, s, e).claims[h].refs
    ensures Tells(s, Next(ours, s, e), h, id)
  {
    if IsSweep(e) {
      SweepKeepsTold(ours, s, e, h);
    } else if e.Ready? {
      ReadyKeepsTold(s, e.now, e.fits, h, id);
    } else {
      CommandKeepsTold(ours, s, e, h, id);
    }
  }

  lemma ReadyKeepsTold(s: State, now: Time, fits: bool, h: string, id: string)
    requires HandlesOk(s) && s.results != [] && h in s.claims && s.claims[h].Published() && id in s.names
    requires var t := OnReadiness(s, now, fits); h in t.claims && id in t.claims[h].refs
    ensures var t := OnReadiness(s, now, fits);
            && id in s.claims[h].refs && t.claims[h] == s.claims[h] && id in t.names && t.names[id] == s.names[id]
  {
    var k := s.results[0].requested;
    if k in s.claims && id in s.claims[k].refs {
      assert s.registrations[id] == k && s.registrations[id] == h;
    }
  }

  /** Every handle that a claim has when it is announced is told the name announced, and
      holds the claim's current name for as long as the claim stays published and the
      handle is not released. */
  lemma {:induction false} HandlesHoldTheName(ours: Address, states: seq<State>, events: seq<Event>, i: nat, b: nat,
                                              h: string, id: string)
    requires IsRun(ours, states, events) && i < b < |states| && h in states[i].claims
    requires !states[i].claims[h].Published() && id in states[i].claims[h].refs
    requires forall k :: i < k <= b ==> h in states[k].claims && states[k].claims[h].Published()
    requires id in states[b].claims[h].refs
    ensures id in states[b].names && states[b].names[id] == states[b].claims[h].current
    decreases b
  {
    if b == i + 1 {
      FirstPublished(ours, states, events, i, h);
      AwaitedAnswerPublishes(ours, states, events, i, h);
    } else {
      NamesAreKept(ours, states, events, i, b - 1, h, id);
      RunStepKeepsTold(ours, states, events, b - 1, h, id);
      HandlesHoldTheName(ours, states, events, i, b - 1, h, id);
    }
  }

  lemma RunStepKeepsTold(ours: Address, states: seq<State>, events: seq<Event>, k: nat, h: string, id: string)
    requires IsRun(ours, states, events) && k < |events| && h in states[k].claims && states[k].claims[h].Published()
    requires h in states[k + 1].claims && states[k + 1].claims[h].Published()
    requires id in states[k + 1].claims[h].refs && id in states[k].names
    ensures Tells(states[k], states[k + 1], h, id)
  {
    RunKeepsInv(ours, states, events, k);
    RunKeepsWaiters(ours, states, events, k);
    assert IsStep(ours, states, events, k);
    StepKeepsTold(ours, states[k], events[k], h, id);
  }

  lemma SweepPublishesNothing(ours: Address, s: State, sweep: Sweep, order: seq<string>, h: string)
    requires Covers(order, s.claims) && IsFiled(s.claims) && h in s.claims && !s.claims[h].Published()
    requires h in Fold(ours, s, sweep, order).claims
    ensures !Fold(ours, s, sweep, order).claims[h].Published()
  {
    SweepEffect(ours, s, sweep, order, h);
    if sweep.OnPacket? {
      var c := s.claims[h];
      VerdictPublishesNothing(c, ConflictsWith(sweep.msg, c.current, ours), Loses(ours, sweep.msg, c.candidate),
                              NextConflictHostname(c.candidate), sweep.now, DelayOf(sweep.delays, c.requested));
    }
  }

  lemma VerdictPublishesNothing(c: Claim, clash: bool, lost: bool, next: Result<string, NameError>, now: Time,
                                delay: Time)
    requires !c.Published()
    ensures var e := Verdict(c, clash, lost, next, now, delay); e.next.Some? ==> !e.next.value.Published()
  {
  }

  lemma SweepStepPublishesNothing(ours: Address, s: State, e: Event, h: string)
    requires ClaimsOk(s) && Enabled(s, e) && IsSweep(e) && h in s.claims && !s.claims[h].Published()
    requires h in Next(ours, s, e).claims
    ensures !Next(ours, s, e).claims[h].Published()
  {
    if e.Inbound? {
      SweepPublishesNothing(ours, s.(log := s.log + [Heard(e.msg, e.now)], clock := e.now),
                            OnPacket(e.msg, e.now, e.delays), e.order, h);
    } else if e.Tick? {
      SweepPublishesNothing(ours, s.(clock := e.now), OnTick(e.now, e.room), e.order, h);
    } else {
      SweepPublishesNothing(ours, s.(clock := e.now), OnCancel(e.reply), e.order, h);
    }
  }

  lemma OnlyReadinessPublishes(ours: Address, s: State, e: Event, h: string)
    requires ClaimsOk(s) && Enabled(s, e) && !e.Ready? && h in s.claims && !s.claims[h].Published()
    requires h in Next(ours, s, e).claims
    ensures !Next(ours, s, e).claims[h].Published()
  {
    if IsSweep(e) {
      SweepStepPublishesNothing(ours, s, e, h);
    } else if e.Register? {
      EnrolPublishesNothing(s, CanonicalHostname(e.raw), e.id, e.reply, e.now, e.delay, h);
    } else if e.Release? {
      ReleasePublishesNothing(s, e.handle, e.now, h);
    }
  }

  lemma EnrolPublishesNothing(s: State, name: Result<string, NameError>, id: Option<string>, reply: nat, now: Time,
                              delay: Time, h: string)
    requires h in s.claims && h in Enrol(s, name, id, reply, now, delay).claims
    ensures Enrol(s, name, id, reply, now, delay).claims[h].phase == s.claims[h].phase
  {
  }

  lemma ReleasePublishesNothing(s: State, handle: string, now: Time, h: string)
    requires h in s.claims && h in OnRelease(s, handle, now).claims
    ensures OnRelease(s, handle, now).claims[h].phase == s.claims[h].phase
  {
  }

  lemma FirstPublished(ours: Address, states: seq<State>, events: seq<Event>, i: nat, h: string)
    requires IsRun(ours, states, events) && i < |events| && h in states[i].claims && !states[i].claims[h].Published()
    requires h in states[i + 1].claims && states[i + 1].claims[h].Published()
    ensures events[i].Ready? && states[i].claims[h].phase == AwaitingReadiness
    ensures states[i].results != [] && ResultFor(states[i].results[0], h, states[i].claims[h].generation)
    ensures states[i].results[0].refusal.None? && events[i].fits
  {
    RunKeepsInv(ours, states, events, i);
    assert IsStep(ours, states, events, i);
    if !events[i].Ready? {
      OnlyReadinessPublishes(ours, states[i], events[i], h);
      assert false;
    }
  }

  lemma {:induction false} NamesAreKept(ours: Address, states: seq<State>, events: seq<Event>, i: nat, b: nat,
                                        h: string, id: string)
    requires IsRun(ours, states, events) && i <= b < |states| && h in states[i].claims && id in states[i].claims[h].refs
    ensures id in states[b].names
    decreases b
  {
    if b > i {
      NamesAreKept(ours, states, events, i, b - 1, h, id);
      assert IsStep(ours, states, events, b - 1);
      StepKeepsNames(ours, states[b - 1], events[b - 1]);
    } else {
      RunKeepsWaiters(ours, states, events, b);
      assert id in states[i].registrations;
    }
  }
}
