/**
 The responder's actor and its coordinator pump (internal/lanmdns/actor.go, pumps.go),
 arm by arm. Every arm is proved to do exactly what ClaimModel says it does.
 */
module ResponderActor {
  import opened Common
  import opened Probing
  import opened ClaimModel

  class Responder {
    const ours: Address

    // the actor's variables; names holds each handle's published hostname
    var claims: map<string, Claim>
    var registrations: map<string, string>
    var names: map<string, string>
    var timer: Option<Time>

    // the channels to and from the coordinator pump, and the request it carries
    var coordinatorRequests: seq<Request>
    var preparing: Option<Request>
    var coordinatorResults: seq<Readiness>

    // answers sent on reply channels; packets heard and sent
    var answers: seq<Answer>
    var log: seq<Entry>

    ghost var accepted: set<nat>
    ghost var cancelled: set<nat>
    ghost var clock: Time

    ghost function Now(): State
      reads this
    {
      State(claims, registrations, names, coordinatorRequests, preparing, coordinatorResults,
            answers, accepted, cancelled, log, timer, clock)
    }

    /** Claims are filed under the name they were requested for. */
    ghost predicate Filed()
      reads this
    {
      IsFiled(claims)
    }

    constructor (ours: Address)
      ensures this.ours == ours && Now() == INITIAL && Filed()
    {
      this.ours := ours;
      claims, registrations, names, timer := map[], map[], map[], None;
      coordinatorRequests, preparing, coordinatorResults := [], None, [];
      answers, log := [], [];
      accepted, cancelled, clock := {}, {}, 0;
    }

    /** Set the timer to the nearest deadline, or turn it off. */
    method Reschedule(now: Time)
      modifies this`timer
      ensures Now() == Rearm(old(Now()), now)
    {
      var nearest: Option<Time> := None;
      var left := claims.Keys;
      while left != {}
        invariant left <= claims.Keys
        invariant nearest.None? ==> forall h :: h in claims.Keys - left ==> claims[h].deadline.None?
        invariant nearest.Some? ==>
          && (exists h :: h in claims && claims[h].deadline == nearest)
          && forall h :: h in claims.Keys - left && claims[h].deadline.Some? ==>
             nearest.value <= claims[h].deadline.value
        decreases |left|
      {
        var h :| h in left;
        left := left - {h};
        var entry := claims[h];
        if entry.deadline.Some? && (nearest.None? || entry.deadline.value < nearest.value) {
          nearest := entry.deadline;
        }
      }
      if nearest.None? {
        timer := None;
      } else {
        timer := Some(Max(nearest.value, now));
        assert IsNearest(claims, nearest.value);
      }
      RearmedIsUnique(claims, now, timer);
    }

    /** Answer everybody who waits for the claim. */
    method CompleteClaim(entry: Claim, failure: Option<Failure>)
      modifies this`answers
      ensures answers == old(answers) + Complete(entry.pending, failure)
    {
      var all := Complete(entry.pending, failure);
      for i := 0 to |entry.pending|
        invariant answers == old(answers) + all[..i]
      {
        var waiter := entry.pending[i];
        var outcome := if failure.None? then Registered(waiter.id) else Failed(failure.value);
        answers := answers + [Answer(waiter.reply, outcome)];
        assert all[..i + 1] == all[..i] + [all[i]];
      }
      assert all[..|entry.pending|] == all;
    }

    /** One claim's part of the packet arm. */
    method PacketTurn(requested: string, msg: Message, now: Time, delays: map<string, Time>)
      requires requested in claims && Filed()
      modifies this`claims, this`answers
      ensures Now() == Turn(ours, old(Now()), OnPacket(msg, now, delays), requested)
    {
      var entry := claims[requested];
      var delay := DelayOf(delays, requested);
      ghost var sweep := OnPacket(msg, now, delays);
      ghost var clash, lost := ConflictsWith(msg, entry.current, ours), Loses(ours, msg, entry.candidate);
      var next := NextConflictHostname(entry.candidate);
      ghost var effect := Verdict(entry, clash, lost, next, now, delay);
      assert effect == EffectOf(ours, entry, sweep);
      var taken := false;
      if entry.phase == Announcing || entry.phase == Active {
        if msg.response {
          taken := ConflictingAResponse(msg, entry.current, ours);
        }
      } else if entry.phase != ProbeWait && entry.probeCount != 0 {
        taken := ResponseClaimsName(msg, entry.candidate);
        var opponent := ProbeOpponentIPv4(msg, entry.candidate);
        if opponent.Some? {
          taken := CompareProbeIPv4(ours, opponent.value) < 0;
          CompareIsNumeric(ours, opponent.value);
        }
      }
      Settle(requested, taken, next, now, delay, clash, lost);
      assert Now() == Apply(old(Now()), requested, effect);
    }

    /** What follows from the verdict on the packet: reprobe, rename or give up. */
    method Settle(requested: string, taken: bool, next: Result<string, NameError>, now: Time, delay: Time,
                  ghost clash: bool, ghost lost: bool)
      requires requested in claims && Filed()
      requires var c := claims[requested];
               taken == if c.Published() then clash else c.phase != ProbeWait && c.probeCount != 0 && lost
      modifies this`claims, this`answers
      ensures Now() == Apply(old(Now()), requested, Verdict(old(claims)[requested], clash, lost, next, now, delay))
    {
      var entry := claims[requested];
      if !taken {
        assert claims == claims[requested := entry];
      } else if entry.phase == Announcing || entry.phase == Active {
        entry := entry.(candidate := entry.current, phase := ProbeWait, probeCount := 0);
        entry := entry.(startedAt := now, conflicts := [], generation := entry.generation + 1);
        entry := entry.(deadline := Some(now + delay));
        claims := claims[requested := entry];
      } else {
        Yield(entry, requested, next, now, delay);
      }
      assert answers + [] == answers && log + [] == log && coordinatorRequests + [] == coordinatorRequests;
      assert registrations - {} == registrations && cancelled + {} == cancelled;
    }

    /** The claim has lost the name it is probing and tries the next, if there is one and
        its minute is not over. */
    method Yield(claim: Claim, requested: string, next: Result<string, NameError>, now: Time, delay: Time)
      requires requested in claims && claims[requested] == claim && claim.requested == requested
      requires !claim.Published() && claim.phase != ProbeWait && claim.probeCount != 0
      modifies this`claims, this`answers
      ensures Now() == Apply(old(Now()), requested, Verdict(claim, false, true, next, now, delay))
    {
      var entry := claim.(conflicts := claim.conflicts + [now]);
      if now - entry.startedAt >= PROBING_LIMIT {
        CompleteClaim(entry, Some(TimedOut));
        claims := claims - {requested};
      } else if next.Err? {
        CompleteClaim(entry, Some(NoSuffix(next.error)));
        claims := claims - {requested};
      } else {
        entry := entry.(candidate := next.value, phase := ProbeWait, probeCount := 0);
        entry := entry.(generation := entry.generation + 1);
        var wait := delay;
        var backoff := ConflictBackoff(now, entry.conflicts);
        if backoff > wait {
          wait := backoff;
        }
        entry := entry.(deadline := Some(now + wait));
        claims := claims[requested := entry];
      }
      assert answers + [] == answers && log + [] == log && coordinatorRequests + [] == coordinatorRequests;
      assert registrations - {} == registrations && cancelled + {} == cancelled;
    }

    /** One claim's part of the timer arm. */
    method TimerTurn(requested: string, now: Time, room: set<string>)
      requires requested in claims && Filed()
      modifies this`claims, this`answers, this`log, this`coordinatorRequests
      ensures Now() == Turn(ours, old(Now()), OnTick(now, room), requested)
    {
      var entry := claims[requested];
      assert claims == claims[requested := entry];
      assert answers + [] == answers && log + [] == log && coordinatorRequests + [] == coordinatorRequests;
      assert registrations - {} == registrations && cancelled + {} == cancelled;
      if entry.deadline.None? || entry.deadline.value > now {
        return;
      }
      match entry.phase {
        case ProbeWait | Probing =>
          if requested !in room {
            CompleteClaim(entry, Some(WriteQueueFull));
            claims := claims - {requested};
            return;
          }
          log := log + [Probed(entry.requested, entry.candidate, now)];
          entry := entry.(probeCount := entry.probeCount + 1, deadline := Some(now + PROBE_INTERVAL));
          entry := entry.(phase := if entry.probeCount == 3 then Observing else Probing);
          claims := claims[requested := entry];
        case Observing =>
          entry := entry.(phase := AwaitingReadiness, deadline := None);
          if requested in room {
            claims := claims[requested := entry];
            coordinatorRequests := coordinatorRequests
              + [Request(entry.requested, entry.generation, entry.current, entry.candidate)];
          } else {
            CompleteClaim(entry, Some(CoordinatorQueueFull));
            claims := claims - {requested};
          }
        case Announcing =>
          if requested !in room {
            CompleteClaim(entry, Some(WriteQueueFull));
            claims := claims - {requested};
            return;
          }
          log := log + [Announced(entry.requested, entry.candidate, now)];
          CompleteClaim(entry, None);
          claims := claims[requested := entry.(phase := Active, deadline := None, pending := [])];
        case AwaitingReadiness | Active =>
      }
    }

    /** One claim's part of cancelling a register command. */
    method CancelTurn(requested: string, reply: nat)
      requires requested in claims && Filed()
      modifies this`claims, this`registrations, this`cancelled
      ensures Now() == Turn(ours, old(Now()), OnCancel(reply), requested)
    {
      var entry := claims[requested];
      assert claims == claims[requested := entry];
      assert answers + [] == answers && log + [] == log && coordinatorRequests + [] == coordinatorRequests;
      assert registrations - {} == registrations && cancelled + {} == cancelled;
      var found := FindPending(entry.pending, reply);
      if found.Some? {
        var id := entry.pending[found.value].id;
        entry := entry.(refs := entry.refs - {id}, pending := Without(entry.pending, found.value));
        registrations := registrations - {id};
        claims := if entry.refs == {} then claims - {requested} else claims[requested := entry];
        cancelled := cancelled + {reply};
      }
    }

    method TurnOf(requested: string, sweep: Sweep)
      requires requested in claims && Filed()
      modifies this`claims, this`answers, this`log, this`coordinatorRequests, this`registrations, this`cancelled
      ensures Now() == Turn(ours, old(Now()), sweep, requested)
    {
      match sweep {
        case OnPacket(msg, now, delays) => PacketTurn(requested, msg, now, delays);
        case OnTick(now, room) => TimerTurn(requested, now, room);
        case OnCancel(reply) => CancelTurn(requested, reply);
      }
    }

    /** Give every claim its turn, in any order. */
    method Sweep(sweep: Sweep) returns (ghost order: seq<string>)
      requires Filed()
      modifies this`claims, this`answers, this`log, this`coordinatorRequests, this`registrations, this`cancelled
      ensures Covers(order, old(claims)) && Now() == Fold(ours, old(Now()), sweep, order)
    {
      ghost var start := Now();
      var left := claims.Keys;
      order := [];
      NothingDone(start, left);
      while left != {}
        invariant Partway(start, order, left)
        invariant Now() == Fold(ours, start, sweep, order)
        decreases left
      {
        var requested :| requested in left;
        NextTurn(start, sweep, order, left, requested);
        TurnOf(requested, sweep);
        left := left - {requested};
        order := order + [requested];
      }
      AllDone(start, order);
    }

    /** The claims in order have had their turn, those left have not. */
    ghost predicate Partway(start: State, order: seq<string>, left: set<string>) {
      IsFiled(start.claims) && NoDup(order) && ToSet(order) !! left && ToSet(order) + left == start.claims.Keys
    }

    lemma NothingDone(start: State, left: set<string>)
      requires IsFiled(start.claims) && left == start.claims.Keys
      ensures Partway(start, [], left)
    {
      assert ToSet<string>([]) == {};
    }

    lemma AllDone(start: State, order: seq<string>)
      requires Partway(start, order, {})
      ensures Covers(order, start.claims)
    {
    }

    lemma NextTurn(start: State, sweep: Sweep, order: seq<string>, left: set<string>, next: string)
      requires Partway(start, order, left) && next in left
      ensures Partway(start, order + [next], left - {next})
      ensures next in Fold(ours, start, sweep, order).claims && IsFiled(Fold(ours, start, sweep, order).claims)
      ensures Fold(ours, start, sweep, order + [next]) == Turn(ours, Fold(ours, start, sweep, order), sweep, next)
    {
      FoldAt(ours, start, sweep, order, next);
      FoldKeepsFiled(ours, start, sweep, order);
      assert (order + [next])[..|order|] == order;
      assert ToSet(order + [next]) == ToSet(order) + {next};
    }

    /** case inbound := <-r.inbound, for a packet that decodes. */
    method Inbound(msg: Message, now: Time, delays: map<string, Time>) returns (ghost order: seq<string>)
      requires Filed()
      modifies this
      ensures Covers(order, old(claims)) && Now() == OnInbound(ours, old(Now()), msg, now, delays, order)
    {
      clock := now;
      log := log + [Heard(msg, now)];
      order := Sweep(OnPacket(msg, now, delays));
      Reschedule(now);
    }

    /** case now := <-timerC. */
    method Timer(now: Time, room: set<string>) returns (ghost order: seq<string>)
      requires Filed()
      modifies this
      ensures Covers(order, old(claims)) && Now() == OnTimer(ours, old(Now()), now, room, order)
    {
      clock := now;
      order := Sweep(OnTick(now, room));
      Reschedule(now);
    }

    /** case cancelRegisterCommand. */
    method CancelRegister(reply: nat, now: Time) returns (ghost order: seq<string>)
      requires Filed()
      modifies this
      ensures Covers(order, old(claims)) && Now() == OnCancelRegister(ours, old(Now()), reply, now, order)
    {
      clock := now;
      order := Sweep(OnCancel(reply));
      Reschedule(now);
    }

    /** case result := <-r.coordinatorResults; room: the write queue has a free slot. */
    method CoordinatorResult(now: Time, room: bool)
      requires Filed() && coordinatorResults != []
      modifies this
      ensures Now() == OnReadiness(old(Now()), now, room)
    {
      clock := now;
      var result := coordinatorResults[0];
      coordinatorResults := coordinatorResults[1..];
      assert log + [] == log && coordinatorRequests + [] == coordinatorRequests;
      assert registrations - {} == registrations && cancelled + {} == cancelled;
      if result.requested !in claims {
        return;
      }
      var entry := claims[result.requested];
      if entry.generation != result.generation || entry.phase != AwaitingReadiness {
        return;
      }
      if result.refusal.Some? || !room {
        CompleteClaim(entry, Some(if result.refusal.Some? then Refused(result.refusal.value) else WriteQueueFull));
        claims := claims - {entry.requested};
        return;
      }
      Announce(entry, now);
      assert answers + [] == answers;
    }

    method Announce(entry: Claim, now: Time)
      modifies this
      ensures var s := old(Now());
              var ready := entry.(current := entry.candidate, phase := Announcing, deadline := Some(now + SECOND));
              Now() == Rearm(s.(claims := s.claims[entry.requested := ready],
                                log := s.log + [Announced(entry.requested, entry.candidate, now)],
                                names := s.names + map id | id in entry.refs :: entry.candidate), now)
    {
      log := log + [Announced(entry.requested, entry.candidate, now)];
      Publish(entry.refs, entry.candidate);
      var ready := entry.(current := entry.candidate);
      ready := ready.(phase := Announcing, deadline := Some(now + SECOND));
      claims := claims[entry.requested := ready];
      Reschedule(now);
    }

    /** Tell every handle of a claim its published name. */
    method Publish(refs: set<string>, name: string)
      modifies this`names
      ensures names == old(names) + map id | id in refs :: name
    {
      var left := refs;
      while left != {}
        invariant left <= refs
        invariant names == old(names) + map id | id in refs - left :: name
        decreases |left|
      {
        var id :| id in left;
        left := left - {id};
        names := names[id := name];
        assert refs - left == (refs - left - {id}) + {id};
      }
      assert refs - left == refs;
    }

    /** case registerCommand; id is the fresh registration ID, unless none can be had. */
    method RegisterCommand(raw: string, id: Option<string>, reply: nat, now: Time, delay: Time)
      modifies this
      ensures Now() == OnRegister(old(Now()), raw, id, reply, now, delay)
    {
      clock := now;
      accepted := accepted + {reply};
      var name := CanonicalHostname(raw);
      if name.Err? {
        answers := answers + [Answer(reply, Failed(BadHostname(name.error)))];
        return;
      }
      if id.None? {
        answers := answers + [Answer(reply, Failed(NoIdentity))];
        return;
      }
      Admit(name.value, id.value, reply, now, delay);
    }

    method Admit(hostname: string, id: string, reply: nat, now: Time, delay: Time)
      requires clock == now && reply in accepted
      modifies this
      ensures Now() == Enrol(old(Now()), Ok(hostname), Some(id), reply, now, delay)
    {
      assert accepted + {reply} == accepted;
      var entry := OpenClaim(hostname, now, delay);
      JoinClaim(entry, hostname, id, reply);
      Reschedule(now);
    }

    /** The claim of that name, which is opened if there is none. */
    method OpenClaim(hostname: string, now: Time, delay: Time) returns (entry: Claim)
      modifies this`log
      ensures entry == if hostname in claims then claims[hostname] else NewClaim(hostname, now, delay)
      ensures log == if hostname in claims then old(log) else old(log) + [Opened(hostname, now)]
    {
      if hostname in claims {
        entry := claims[hostname];
      } else {
        entry := NewClaim(hostname, now, delay);
        log := log + [Opened(hostname, now)];
      }
    }

    /** The handle joins the claim; it is answered at once only if the claim is active. */
    method JoinClaim(claim: Claim, hostname: string, id: string, reply: nat)
      modifies this`claims, this`registrations, this`names, this`answers
      ensures Now() == Join(old(Now()), claim, hostname, id, reply)
    {
      var entry := claim.(refs := claim.refs + {id});
      registrations := registrations[id := hostname];
      if entry.phase == Active {
        names := names[id := entry.current];
        answers := answers + [Answer(reply, Registered(id))];
      } else {
        names := names[id := ""];
        entry := entry.(pending := entry.pending + [Pending(id, reply)]);
      }
      claims := claims[hostname := entry];
    }

    /** case releaseCommand. */
    method ReleaseCommand(id: string, now: Time)
      modifies this
      ensures Now() == OnRelease(old(Now()), id, now)
    {
      clock := now;
      if id in registrations {
        var requested := registrations[id];
        registrations := registrations - {id};
        if requested in claims {
          var entry := claims[requested];
          entry := entry.(refs := entry.refs - {id});
          if entry.refs == {} {
            if entry.phase == Active || entry.phase == Announcing {
              log := log + [Goodbye(requested, entry.current)];
            }
            claims := claims - {requested};
          } else {
            claims := claims[requested := entry];
          }
        }
      }
      Reschedule(now);
    }

    /** The pump takes a request and hands it to the coordinator. */
    method PumpTake()
      requires preparing.None? && coordinatorRequests != []
      modifies this
      ensures Now() == OnTake(old(Now()))
    {
      preparing := Some(coordinatorRequests[0]);
      coordinatorRequests := coordinatorRequests[1..];
    }

    /** The coordinator has answered; the pump passes the result on. */
    method PumpDeliver(refusal: Option<nat>)
      requires preparing.Some?
      modifies this
      ensures Now() == OnDeliver(old(Now()), refusal)
    {
      var request := preparing.value;
      preparing := None;
      coordinatorResults := coordinatorResults + [Readiness(request.requested, request.generation, refusal)];
    }
  }
}
