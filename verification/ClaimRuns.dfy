/** What every run of the name-claim machine keeps: probing, pacing, progress. */
module ClaimRuns {
  import opened Common
  import opened Probing
  import opened ClaimModel

  // ------------------------------------------------------------ one claim

  ghost predicate PhaseOk(c: Claim) {
    && (match c.phase
        case ProbeWait => c.probeCount == 0
        case Probing => 1 <= c.probeCount <= 2
        case _ => c.probeCount == 3)
    && (c.deadline.None? <==> c.phase == AwaitingReadiness || c.phase == Active)
    && (c.Published() ==> c.candidate == c.current)
  }

  function Last<T>(s: seq<T>): T
    requires s != []
  {
    s[|s| - 1]
  }

  /** The conflicts of the current probing episode, and the wait they impose. */
  ghost predicate PaceOk(c: Claim, clock: Time) {
    && c.startedAt <= clock
    && Paced(c.conflicts)
    && (forall i :: 0 <= i < |c.conflicts| ==> c.startedAt <= c.conflicts[i] < c.startedAt + PROBING_LIMIT)
    && (c.conflicts != [] ==>
          Last(c.conflicts) <= clock &&
          var resume := Last(c.conflicts) + Backoff(Last(c.conflicts), c.conflicts);
          if c.phase == ProbeWait then c.deadline.Some? && resume <= c.deadline.value else resume <= clock)
  }

  ghost predicate ClaimOk(h: string, c: Claim, clock: Time) {
    c.requested == h && PhaseOk(c) && PaceOk(c, clock)
  }

  lemma PacedAppend(times: seq<Time>, now: Time)
    requires Paced(times)
    requires times != [] ==> Last(times) + Backoff(Last(times), times) <= now
    ensures Paced(times + [now])
  {
    var longer := times + [now];
    forall i | 0 < i < |longer| ensures longer[i] >= longer[i - 1] + Backoff(longer[i - 1], longer[..i]) {
      assert longer[..i] == times[..i];
      assert times[..|times|] == times;
    }
  }

  /** A conflict is added to a paced list, and the next probe waits long enough. */
  lemma ConflictKeepsPace(c: Claim, d: Claim, now: Time, delay: Time, before: Time)
    requires PaceOk(c, before) && before <= now && c.phase != ProbeWait && now - c.startedAt < PROBING_LIMIT
    requires d.conflicts == c.conflicts + [now] && d.startedAt == c.startedAt && d.phase == ProbeWait
    requires d.deadline == Some(now + Max(delay, Backoff(now, d.conflicts)))
    ensures PaceOk(d, now)
  {
    PacedAppend(c.conflicts, now);
    assert Last(d.conflicts) == now;
  }

  lemma LaterPace(c: Claim, before: Time, now: Time)
    requires PaceOk(c, before) && before <= now
    ensures PaceOk(c, now)
  {
  }

  lemma VerdictKeepsClaimOk(h: string, c: Claim, clash: bool, lost: bool, next: Result<string, NameError>,
                            now: Time, delay: Time, before: Time)
    requires ClaimOk(h, c, before) && before <= now && IsDelay(delay)
    ensures var e := Verdict(c, clash, lost, next, now, delay);
            e.next.Some? ==> ClaimOk(h, e.next.value, now)
  {
    LaterPace(c, before, now);
    var e := Verdict(c, clash, lost, next, now, delay);
    if !c.Published() && e.next.Some? && e.next.value != c {
      ConflictKeepsPace(c, e.next.value, now, delay, before);
    }
  }

  lemma TickKeepsClaimOk(h: string, c: Claim, now: Time, room: bool, before: Time)
    requires ClaimOk(h, c, before) && before <= now
    ensures var e := TickEffect(c, now, room);
            e.next.Some? ==> ClaimOk(h, e.next.value, now)
  {
  }

  lemma TurnKeepsClaimOk(ours: Address, h: string, c: Claim, sweep: Sweep, before: Time, clock: Time)
    requires ClaimOk(h, c, before) && before <= clock
    requires sweep.OnPacket? ==> sweep.now == clock && IsDelay(DelayOf(sweep.delays, h))
    requires sweep.OnTick? ==> sweep.now == clock
    ensures var e := EffectOf(ours, c, sweep);
            e.next.Some? ==> ClaimOk(h, e.next.value, clock)
  {
    match sweep
    case OnPacket(msg, now, delays) =>
      VerdictKeepsClaimOk(h, c, ConflictsWith(msg, c.current, ours), Loses(ours, msg, c.candidate),
                          NextConflictHostname(c.candidate), now, DelayOf(delays, h), before);
    case OnTick(now, room) => TickKeepsClaimOk(h, c, now, c.requested in room, before);
    case OnCancel(reply) =>
  }

  lemma TurnCandidate(ours: Address, c: Claim, sweep: Sweep, clash: bool, lost: bool, next: Result<string, NameError>)
    requires PhaseOk(c)
    requires sweep.OnPacket? ==>
      EffectOf(ours, c, sweep) == Verdict(c, clash, lost, next, sweep.now, DelayOf(sweep.delays, c.requested))
    ensures var e := EffectOf(ours, c, sweep);
            e.next.Some? ==> e.next.value.candidate == c.candidate
                             || (sweep.OnPacket? && next.Ok? && e.next.value.candidate == next.value)
  {
  }

  /** Names stay canonical through every turn. */
  lemma TurnKeepsNames(ours: Address, c: Claim, sweep: Sweep)
    requires IsHostname(c.candidate) && PhaseOk(c)
    ensures var e := EffectOf(ours, c, sweep);
            e.next.Some? ==> IsHostname(e.next.value.candidate)
  {
    var next := NextConflictHostname(c.candidate);
    NextConflictHostnameAdvances(c.candidate);
    if sweep.OnPacket? {
      TurnCandidate(ours, c, sweep, ConflictsWith(sweep.msg, c.current, ours), Loses(ours, sweep.msg, c.candidate),
                    next);
    } else {
      TurnCandidate(ours, c, sweep, false, false, next);
    }
  }

  // ------------------------------------------------------------ probes in the log

  /** The times of the probes sent for claim h under a name, newest last: those
      since the claim was opened, since it last probed under another name, and
      since the last packet that makes it lose the name. */
  ghost function Streak(ours: Address, log: seq<Entry>, h: string, name: string): seq<Time> {
    if log == [] then [] else Extended(ours, Streak(ours, log[..|log| - 1], h, name), Last(log), h, name)
  }

  ghost function Extended(ours: Address, earlier: seq<Time>, entry: Entry, h: string, name: string): seq<Time> {
    if entry.Opened? && entry.requested == h then []
    else if entry.Heard? && Loses(ours, entry.msg, name) then []
    else if entry.Probed? && entry.requested == h then
      if entry.name == name then earlier + [entry.at] else []
    else earlier
  }

  ghost predicate Spaced(times: seq<Time>) {
    forall i :: 0 < i < |times| ==> times[i] >= times[i - 1] + PROBE_INTERVAL
  }

  ghost predicate ProbesOk(c: Claim, probes: seq<Time>, clock: Time) {
    match c.phase
    case ProbeWait => probes == []
    case Probing | Observing =>
      |probes| == c.probeCount > 0 && Spaced(probes) && c.deadline == Some(Last(probes) + PROBE_INTERVAL)
    case AwaitingReadiness =>
      |probes| == 3 && Spaced(probes) && Last(probes) + PROBE_INTERVAL <= clock
    case _ => true
  }

  /** The log accounts for the probes the claim has counted. */
  ghost predicate StreakOk(ours: Address, log: seq<Entry>, h: string, c: Claim, clock: Time) {
    ProbesOk(c, Streak(ours, log, h, c.candidate), clock)
  }

  /** Waiters, handles and the published name do not matter to the probes. */
  lemma SameStreak(ours: Address, log: seq<Entry>, h: string, c: Claim, d: Claim, before: Time, clock: Time)
    requires StreakOk(ours, log, h, c, before) && before <= clock
    requires d == c.(refs := d.refs, pending := d.pending)
    ensures StreakOk(ours, log, h, d, clock)
  {
  }

  /** Entries that are not about the claim's probes do not matter either. */
  lemma OtherEntry(ours: Address, log: seq<Entry>, entry: Entry, h: string, c: Claim, clock: Time)
    requires StreakOk(ours, log, h, c, clock)
    requires !entry.Heard? && ((entry.Opened? || entry.Probed?) ==> entry.requested != h)
    ensures StreakOk(ours, log + [entry], h, c, clock)
  {
    StreakStep(ours, log, entry, h, c.candidate);
  }

  lemma StreakStep(ours: Address, log: seq<Entry>, entry: Entry, h: string, name: string)
    ensures Streak(ours, log + [entry], h, name) == Extended(ours, Streak(ours, log, h, name), entry, h, name)
  {
    assert (log + [entry])[..|log|] == log;
  }

  /** Only one name at a time has probes that count. */
  lemma {:induction false} OneStreak(ours: Address, log: seq<Entry>, h: string, a: string, b: string)
    requires a != b && Streak(ours, log, h, a) != []
    ensures Streak(ours, log, h, b) == []
  {
    var last := Last(log);
    if last.Probed? && last.requested == h {
    } else if !(last.Heard? && Loses(ours, last.msg, b)) {
      OneStreak(ours, log[..|log| - 1], h, a, b);
    }
  }

  /** A name lost or in conflict has no probes that count any more. */
  lemma LostStreak(ours: Address, log: seq<Entry>, h: string, name: string, msg: Message, now: Time)
    requires ConflictsWith(msg, name, ours) || Loses(ours, msg, name)
    ensures Streak(ours, log + [Heard(msg, now)], h, name) == []
  {
    if ConflictsWith(msg, name, ours) {
      ConflictClaims(msg, name, ours);
    }
    StreakStep(ours, log, Heard(msg, now), h, name);
  }

  /** Hearing a packet never adds a probe, and takes none unless the name is lost. */
  lemma HeardStreak(ours: Address, log: seq<Entry>, h: string, name: string, msg: Message, now: Time, lost: bool)
    requires lost || !Loses(ours, msg, name)
    ensures Streak(ours, log + [Heard(msg, now)], h, name) == Streak(ours, log, h, name)
            || (lost && Streak(ours, log + [Heard(msg, now)], h, name) == [])
  {
    StreakStep(ours, log, Heard(msg, now), h, name);
  }

  lemma NextIsNew(name: string)
    requires IsHostname(name)
    ensures NextConflictHostname(name).Ok? && NextConflictHostname(name).value != name
  {
    NextConflictHostnameAdvances(name);
  }

  lemma PacketKeepsStreak(ours: Address, log: seq<Entry>, h: string, c: Claim, msg: Message, now: Time,
                          delay: Time, before: Time, clash: bool, lost: bool, next: Result<string, NameError>)
    requires PhaseOk(c) && StreakOk(ours, log, h, c, before) && before <= now
    requires next.Ok? && next.value != c.candidate
    requires clash ==> Streak(ours, log + [Heard(msg, now)], h, c.current) == []
    requires var s := Streak(ours, log + [Heard(msg, now)], h, c.candidate);
             s == Streak(ours, log, h, c.candidate) || (lost && s == [])
    requires var s := Streak(ours, log + [Heard(msg, now)], h, next.value);
             s == Streak(ours, log, h, next.value) || s == []
    ensures var e := Verdict(c, clash, lost, next, now, delay);
            e.next.Some? ==> StreakOk(ours, log + [Heard(msg, now)], h, e.next.value, now)
  {
    if !c.Published() && c.phase != ProbeWait {
      OneStreak(ours, log, h, c.candidate, next.value);
    }
  }

  lemma PacketTurnKeepsStreak(ours: Address, log: seq<Entry>, h: string, c: Claim, msg: Message, now: Time,
                              delay: Time, before: Time)
    requires PhaseOk(c) && IsHostname(c.candidate) && StreakOk(ours, log, h, c, before) && before <= now
    ensures var e := PacketEffect(ours, c, msg, now, delay);
            e.next.Some? ==> StreakOk(ours, log + [Heard(msg, now)], h, e.next.value, now)
  {
    var clash, lost := ConflictsWith(msg, c.current, ours), Loses(ours, msg, c.candidate);
    var next := NextConflictHostname(c.candidate);
    NextIsNew(c.candidate);
    if clash {
      LostStreak(ours, log, h, c.current, msg, now);
    }
    HeardStreak(ours, log, h, c.candidate, msg, now, lost);
    HeardStreak(ours, log, h, next.value, msg, now, true);
    PacketKeepsStreak(ours, log, h, c, msg, now, delay, before, clash, lost, next);
  }

  lemma TickKeepsProbes(h: string, c: Claim, probes: seq<Time>, now: Time, room: bool, before: Time)
    requires c.requested == h && PhaseOk(c) && ProbesOk(c, probes, before) && before <= now
    ensures var e := TickEffect(c, now, room);
            e.next.Some? ==>
              && e.next.value.candidate == c.candidate
              && ProbesOk(e.next.value, if e.log != [] && e.log[0].Probed? then probes + [now] else probes, now)
  {
  }

  lemma TickStreak(ours: Address, log: seq<Entry>, h: string, c: Claim, now: Time, room: bool)
    requires c.requested == h
    ensures var e := TickEffect(c, now, room);
            Streak(ours, log + e.log, h, c.candidate) ==
              Streak(ours, log, h, c.candidate) + if e.log != [] && e.log[0].Probed? then [now] else []
  {
    var e := TickEffect(c, now, room);
    if e.log == [] {
      assert log + e.log == log;
    } else {
      StreakStep(ours, log, e.log[0], h, c.candidate);
    }
  }

  lemma TickKeepsStreak(ours: Address, log: seq<Entry>, h: string, c: Claim, now: Time, room: bool, before: Time)
    requires c.requested == h && PhaseOk(c) && StreakOk(ours, log, h, c, before) && before <= now
    ensures var e := TickEffect(c, now, room);
            e.next.Some? ==> StreakOk(ours, log + e.log, h, e.next.value, now)
  {
    var probes := Streak(ours, log, h, c.candidate);
    TickKeepsProbes(h, c, probes, now, room, before);
    TickStreak(ours, log, h, c, now, room);
    assert probes + [] == probes;
  }

  lemma OtherTurnKeepsStreak(ours: Address, log: seq<Entry>, h: string, c: Claim, other: Claim, now: Time, room: bool,
                             clock: Time)
    requires StreakOk(ours, log, h, c, clock) && other.requested != h
    ensures StreakOk(ours, log + TickEffect(other, now, room).log, h, c, clock)
  {
    var added := TickEffect(other, now, room).log;
    if added == [] {
      assert log + added == log;
    } else {
      StreakStep(ours, log, added[0], h, c.candidate);
    }
  }

  // ------------------------------------------------------------ all claims

  ghost predicate ClaimsOk(s: State) {
    forall h :: h in s.claims ==> ClaimOk(h, s.claims[h], s.clock)
  }

  ghost predicate NamesOk(s: State) {
    forall h :: h in s.claims ==> IsHostname(s.claims[h].candidate)
  }

  ghost predicate StreaksOk(ours: Address, s: State) {
    forall h :: h in s.claims ==> StreakOk(ours, s.log, h, s.claims[h], s.clock)
  }

  ghost predicate Outstanding(s: State, h: string, generation: nat) {
    || (exists i :: 0 <= i < |s.requests| && RequestFor(s.requests[i], h, generation))
    || (s.preparing.Some? && RequestFor(s.preparing.value, h, generation))
    || (exists i :: 0 <= i < |s.results| && ResultFor(s.results[i], h, generation))
  }

  predicate RequestFor(r: Request, h: string, generation: nat) {
    r.requested == h && r.generation == generation
  }

  predicate ResultFor(r: Readiness, h: string, generation: nat) {
    r.requested == h && r.generation == generation
  }

  /** Every claim that waits for the coordinator has a request under way. */
  ghost predicate AwaitedOk(s: State) {
    forall h :: h in s.claims && s.claims[h].phase == AwaitingReadiness ==>
      Outstanding(s, h, s.claims[h].generation)
  }

  /** Every claim with a deadline has the timer set no later than that. */
  ghost predicate TimerOk(s: State) {
    forall h :: h in s.claims && s.claims[h].deadline.Some? ==>
      s.timer.Some? && s.timer.value <= Max(s.claims[h].deadline.value, s.clock)
  }

  ghost predicate Inv(ours: Address, s: State) {
    ClaimsOk(s) && NamesOk(s) && StreaksOk(ours, s) && AwaitedOk(s) && TimerOk(s)
  }

  // ------------------------------------------------------------ sweeps

  lemma SweepKeepsClaims(ours: Address, s: State, sweep: Sweep, order: seq<string>, before: Time)
    requires (forall h :: h in s.claims ==> ClaimOk(h, s.claims[h], before)) && before <= s.clock && NamesOk(s)
    requires Covers(order, s.claims)
    requires sweep.OnPacket? ==> sweep.now == s.clock && forall h :: h in sweep.delays ==> IsDelay(sweep.delays[h])
    requires sweep.OnTick? ==> sweep.now == s.clock
    ensures ClaimsOk(Fold(ours, s, sweep, order)) && NamesOk(Fold(ours, s, sweep, order))
  {
    FoldGrows(ours, s, sweep, order);
    var t := Fold(ours, s, sweep, order);
    forall h | h in t.claims ensures ClaimOk(h, t.claims[h], t.clock) && IsHostname(t.claims[h].candidate) {
      FoldAt(ours, s, sweep, order, h);
      assert h in s.claims;
      assert h in ToSet(order);
      TurnKeepsNames(ours, s.claims[h], sweep);
      TurnKeepsClaimOk(ours, h, s.claims[h], sweep, before, s.clock);
    }
  }

  /** Requests under way stay under way when the queue grows. */
  lemma OutstandingGrows(s: State, t: State, h: string, generation: nat)
    requires Outstanding(s, h, generation)
    requires s.requests <= t.requests && t.preparing == s.preparing && t.results == s.results
    ensures Outstanding(t, h, generation)
  {
    assert forall i :: 0 <= i < |s.requests| ==> t.requests[i] == s.requests[i];
  }

  lemma AsksWhenItStartsWaiting(ours: Address, c: Claim, sweep: Sweep, clash: bool, lost: bool,
                                next: Result<string, NameError>)
    requires sweep.OnPacket? ==>
      EffectOf(ours, c, sweep) == Verdict(c, clash, lost, next, sweep.now, DelayOf(sweep.delays, c.requested))
    ensures var e := EffectOf(ours, c, sweep);
            e.next.Some? && e.next.value.phase == AwaitingReadiness ==>
              && e.next.value.generation == c.generation
              && (c.phase == AwaitingReadiness
                  || (|e.requests| == 1 && RequestFor(e.requests[0], c.requested, c.generation)))
  {
  }

  lemma SweepKeepsAwaited(ours: Address, s: State, sweep: Sweep, order: seq<string>)
    requires AwaitedOk(s) && Covers(order, s.claims) && IsFiled(s.claims)
    ensures AwaitedOk(Fold(ours, s, sweep, order))
  {
    FoldGrows(ours, s, sweep, order);
    var t := Fold(ours, s, sweep, order);
    forall h | h in t.claims && t.claims[h].phase == AwaitingReadiness
      ensures Outstanding(t, h, t.claims[h].generation)
    {
      SweepKeepsAwaitedAt(ours, s, sweep, order, h, t.claims[h].generation);
    }
  }

  lemma SweepKeepsAwaitedAt(ours: Address, s: State, sweep: Sweep, order: seq<string>, h: string, generation: nat)
    requires AwaitedOk(s) && Covers(order, s.claims) && IsFiled(s.claims)
    requires var t := Fold(ours, s, sweep, order);
             && h in t.claims && t.claims[h].phase == AwaitingReadiness && t.claims[h].generation == generation
             && s.requests <= t.requests && t.preparing == s.preparing && t.results == s.results
    ensures Outstanding(Fold(ours, s, sweep, order), h, generation)
  {
    var t := Fold(ours, s, sweep, order);
    FoldAt(ours, s, sweep, order, h);
    assert h in s.claims && h in ToSet(order);
    var c := s.claims[h];
    if sweep.OnPacket? {
      AsksWhenItStartsWaiting(ours, c, sweep, ConflictsWith(sweep.msg, c.current, ours),
                              Loses(ours, sweep.msg, c.candidate), NextConflictHostname(c.candidate));
    } else {
      AsksWhenItStartsWaiting(ours, c, sweep, false, false, Err(NotLocal));
    }
    if c.phase == AwaitingReadiness {
      OutstandingGrows(s, t, h, generation);
    } else {
      FoldRequests(ours, s, sweep, order, h);
      var r := EffectOf(ours, c, sweep).requests[0];
      assert r in t.requests && RequestFor(r, h, generation);
    }
  }

  lemma {:induction false} TickFoldKeepsStreaks(ours: Address, s: State, now: Time, room: set<string>,
                                                order: seq<string>, before: Time, h: string)
    requires forall k :: k in s.claims ==>
             ClaimOk(k, s.claims[k], before) && StreakOk(ours, s.log, k, s.claims[k], before)
    requires before <= now && NoDup(order) && ToSet(order) <= s.claims.Keys && s.clock == now
    ensures var t := Fold(ours, s, OnTick(now, room), order);
            h in t.claims ==> StreakOk(ours, t.log, h, t.claims[h], now)
    decreases |order|
  {
    var sweep := OnTick(now, room);
    if order != [] {
      var front, last := order[..|order| - 1], order[|order| - 1];
      assert order == front + [last];
      assert ToSet(front) <= ToSet(order) && last in ToSet(order);
      assert last !in front by { assert forall i :: 0 <= i < |front| ==> order[i] != order[|order| - 1]; }
      TickFoldKeepsStreaks(ours, s, now, room, front, before, h);
      FoldAt(ours, s, sweep, front, last);
      var u := Fold(ours, s, sweep, front);
      if h == last {
        TickStillFresh(ours, s, now, room, front, h, before);
        TickKeepsStreak(ours, u.log, h, s.claims[h], now, h in room, before);
      } else if h in u.claims {
        OtherTurnKeepsStreak(ours, u.log, h, u.claims[h], s.claims[last], now, last in room, now);
      }
    }
  }

  /** Before its turn a claim's streak is what it was before the sweep. */
  lemma {:induction false} TickStillFresh(ours: Address, s: State, now: Time, room: set<string>,
                                          order: seq<string>, h: string, clock: Time)
    requires IsFiled(s.claims)
    requires NoDup(order) && ToSet(order) <= s.claims.Keys && h !in order
    requires h in s.claims && StreakOk(ours, s.log, h, s.claims[h], clock)
    ensures StreakOk(ours, Fold(ours, s, OnTick(now, room), order).log, h, s.claims[h], clock)
    decreases |order|
  {
    var sweep := OnTick(now, room);
    if order != [] {
      var front, last := order[..|order| - 1], order[|order| - 1];
      assert order == front + [last];
      assert ToSet(front) <= ToSet(order) && last in ToSet(order);
      assert last !in front by { assert forall i :: 0 <= i < |front| ==> order[i] != order[|order| - 1]; }
      TickStillFresh(ours, s, now, room, front, h, clock);
      FoldAt(ours, s, sweep, front, last);
      OtherTurnKeepsStreak(ours, Fold(ours, s, sweep, front).log, h, s.claims[h], s.claims[last], now, last in room,
                           clock);
    }
  }

  lemma PacketSweepKeepsStreaks(ours: Address, s: State, heard: State, msg: Message, now: Time,
                                delays: map<string, Time>, order: seq<string>)
    requires ClaimsOk(s) && NamesOk(s) && StreaksOk(ours, s) && s.clock <= now && Covers(order, s.claims)
    requires heard == s.(log := s.log + [Heard(msg, now)], clock := now)
    ensures StreaksOk(ours, Fold(ours, heard, OnPacket(msg, now, delays), order))
  {
    var sweep := OnPacket(msg, now, delays);
    FoldGrows(ours, heard, sweep, order);
    var t := Fold(ours, heard, sweep, order);
    forall h | h in t.claims ensures StreakOk(ours, t.log, h, t.claims[h], t.clock) {
      FoldAt(ours, heard, sweep, order, h);
      assert h in s.claims && h in ToSet(order);
      PacketTurnKeepsStreak(ours, s.log, h, s.claims[h], msg, now, DelayOf(delays, h), s.clock);
    }
  }

  lemma CancelSweepKeepsStreaks(ours: Address, s: State, reply: nat, order: seq<string>, before: Time)
    requires (forall h :: h in s.claims ==> s.claims[h].requested == h && StreakOk(ours, s.log, h, s.claims[h], before))
    requires before <= s.clock && Covers(order, s.claims)
    ensures StreaksOk(ours, Fold(ours, s, OnCancel(reply), order))
  {
    var sweep := OnCancel(reply);
    CancelFoldLog(ours, s, reply, order);
    FoldGrows(ours, s, sweep, order);
    var t := Fold(ours, s, sweep, order);
    forall h | h in t.claims ensures StreakOk(ours, t.log, h, t.claims[h], t.clock) {
      FoldAt(ours, s, sweep, order, h);
      assert h in s.claims && h in ToSet(order);
      SameStreak(ours, s.log, h, s.claims[h], t.claims[h], before, s.clock);
    }
  }

  lemma {:induction false} CancelFoldLog(ours: Address, s: State, reply: nat, order: seq<string>)
    ensures Fold(ours, s, OnCancel(reply), order).log == s.log
    decreases |order|
  {
    if order != [] {
      CancelFoldLog(ours, s, reply, order[..|order| - 1]);
    }
  }

  // ------------------------------------------------------------ preservation

  lemma RearmedTimerOk(s: State, now: Time)
    requires s.clock == now
    ensures TimerOk(Rearm(s, now))
  {
    var t := Rearm(s, now);
    assert Rearmed(s.claims, now, t.timer);
  }

  lemma InboundKeepsInv(ours: Address, s: State, e: Event)
    requires Inv(ours, s) && e.Inbound? && Enabled(s, e)
    ensures Inv(ours, Next(ours, s, e))
  {
    var heard := s.(log := s.log + [Heard(e.msg, e.now)], clock := e.now);
    var sweep := OnPacket(e.msg, e.now, e.delays);
    SweepKeepsClaims(ours, heard, sweep, e.order, s.clock);
    forall h | h in heard.claims && heard.claims[h].phase == AwaitingReadiness
      ensures Outstanding(heard, h, heard.claims[h].generation)
    {
      assert Outstanding(s, h, s.claims[h].generation);
    }
    SweepKeepsAwaited(ours, heard, sweep, e.order);
    PacketSweepKeepsStreaks(ours, s, heard, e.msg, e.now, e.delays, e.order);
    FoldGrows(ours, heard, sweep, e.order);
    RearmKeeps(ours, Fold(ours, heard, sweep, e.order), e.now);
  }

  /** Setting the timer changes nothing but the timer. */
  lemma RearmKeeps(ours: Address, s: State, now: Time)
    requires ClaimsOk(s) && NamesOk(s) && StreaksOk(ours, s) && AwaitedOk(s) && s.clock == now
    ensures Inv(ours, Rearm(s, now))
  {
    var t := Rearm(s, now);
    RearmedTimerOk(s, now);
    forall h | h in t.claims && t.claims[h].phase == AwaitingReadiness
      ensures Outstanding(t, h, t.claims[h].generation)
    {
      assert Outstanding(s, h, s.claims[h].generation);
    }
  }

  lemma AwaitedAtLaterTime(s: State, now: Time)
    requires AwaitedOk(s)
    ensures AwaitedOk(s.(clock := now))
  {
    var t := s.(clock := now);
    forall h | h in t.claims && t.claims[h].phase == AwaitingReadiness
      ensures Outstanding(t, h, t.claims[h].generation)
    {
      assert Outstanding(s, h, s.claims[h].generation);
    }
  }

  lemma TickKeepsInv(ours: Address, s: State, e: Event)
    requires Inv(ours, s) && e.Tick? && Enabled(s, e)
    ensures Inv(ours, Next(ours, s, e))
  {
    var t := s.(clock := e.now);
    var sweep := OnTick(e.now, e.room);
    SweepKeepsClaims(ours, t, sweep, e.order, s.clock);
    AwaitedAtLaterTime(s, e.now);
    SweepKeepsAwaited(ours, t, sweep, e.order);
    FoldGrows(ours, t, sweep, e.order);
    forall h ensures var u := Fold(ours, t, sweep, e.order); h in u.claims ==>
        StreakOk(ours, u.log, h, u.claims[h], e.now) {
      TickFoldKeepsStreaks(ours, t, e.now, e.room, e.order, s.clock, h);
    }
    RearmKeeps(ours, Fold(ours, t, sweep, e.order), e.now);
  }

  lemma CancelKeepsInv(ours: Address, s: State, e: Event)
    requires Inv(ours, s) && e.Cancel? && Enabled(s, e)
    ensures Inv(ours, Next(ours, s, e))
  {
    var t := s.(clock := e.now);
    var sweep := OnCancel(e.reply);
    SweepKeepsClaims(ours, t, sweep, e.order, s.clock);
    AwaitedAtLaterTime(s, e.now);
    SweepKeepsAwaited(ours, t, sweep, e.order);
    CancelSweepKeepsStreaks(ours, t, e.reply, e.order, s.clock);
    FoldGrows(ours, t, sweep, e.order);
    RearmKeeps(ours, Fold(ours, t, sweep, e.order), e.now);
  }

  /** Requests stay under way when only claims go away or stop waiting. */
  lemma AwaitedCarriesOver(s: State, t: State)
    requires AwaitedOk(s)
    requires t.requests == s.requests && t.preparing == s.preparing && t.results == s.results
    requires forall h :: h in t.claims && t.claims[h].phase == AwaitingReadiness ==>
      h in s.claims && s.claims[h].phase == AwaitingReadiness && s.claims[h].generation == t.claims[h].generation
    ensures AwaitedOk(t)
  {
    forall h | h in t.claims && t.claims[h].phase == AwaitingReadiness
      ensures Outstanding(t, h, t.claims[h].generation)
    {
      assert Outstanding(s, h, s.claims[h].generation);
    }
  }

  /** Consuming a result takes nothing away from the claims it is not for. */
  lemma ResultConsumed(s: State, t: State)
    requires AwaitedOk(s) && s.results != []
    requires t.requests == s.requests && t.preparing == s.preparing && t.results == s.results[1..]
    requires forall h :: h in t.claims && t.claims[h].phase == AwaitingReadiness ==>
      && h in s.claims && s.claims[h].phase == AwaitingReadiness && s.claims[h].generation == t.claims[h].generation
      && !ResultFor(s.results[0], h, s.claims[h].generation)
    ensures AwaitedOk(t)
  {
    forall h | h in t.claims && t.claims[h].phase == AwaitingReadiness
      ensures Outstanding(t, h, t.claims[h].generation)
    {
      assert Outstanding(s, h, s.claims[h].generation);
      if i :| 0 <= i < |s.results| && ResultFor(s.results[i], h, s.claims[h].generation) {
        assert i > 0;
        assert ResultFor(t.results[i - 1], h, s.claims[h].generation);
      }
    }
  }

  /** Time passing, and handles and waiters coming and going, leave a claim in order. */
  lemma SameClaimOk(h: string, c: Claim, d: Claim, before: Time, clock: Time)
    requires ClaimOk(h, c, before) && before <= clock
    requires d == c.(refs := d.refs, pending := d.pending)
    ensures ClaimOk(h, d, clock)
  {
  }

  lemma ClaimsCarryOver(s: State, t: State)
    requires ClaimsOk(s) && NamesOk(s) && s.clock <= t.clock
    requires forall h :: h in t.claims ==>
      h in s.claims && t.claims[h] == s.claims[h].(refs := t.claims[h].refs, pending := t.claims[h].pending)
    ensures ClaimsOk(t) && NamesOk(t)
  {
    forall h | h in t.claims ensures ClaimOk(h, t.claims[h], t.clock) {
      SameClaimOk(h, s.claims[h], t.claims[h], s.clock, t.clock);
    }
  }

  lemma TimerCarriesOver(s: State, t: State)
    requires TimerOk(s) && s.clock <= t.clock && t.timer == s.timer
    requires forall h :: h in t.claims ==> h in s.claims && t.claims[h].deadline == s.claims[h].deadline
    ensures TimerOk(t)
  {
  }

  /** t differs from s at most in claim h, in its handles and waiters, and in the clock. */
  ghost predicate Carried(s: State, t: State) {
    && s.clock <= t.clock
    && t.requests == s.requests && t.preparing == s.preparing && t.results == s.results
    && forall h :: h in t.claims ==>
         h in s.claims && t.claims[h] == s.claims[h].(refs := t.claims[h].refs, pending := t.claims[h].pending)
  }

  lemma CarriedKeeps(s: State, t: State)
    requires ClaimsOk(s) && NamesOk(s) && AwaitedOk(s) && Carried(s, t)
    ensures ClaimsOk(t) && NamesOk(t) && AwaitedOk(t)
  {
    ClaimsCarryOver(s, t);
    AwaitedCarriesOver(s, t);
  }

  lemma TimerFresh(t: State)
    requires Rearmed(t.claims, t.clock, t.timer)
    ensures TimerOk(t)
  {
  }

  /** An awaited, welcome result publishes the claim; it changes no other claim. */
  lemma ReadyPublishes(s: State, t: State, h: string)
    requires ClaimsOk(s) && NamesOk(s) && s.clock <= t.clock
    requires h in s.claims && s.claims[h].phase == AwaitingReadiness
    requires t.claims == s.claims[h := s.claims[h].(current := s.claims[h].candidate, phase := Announcing,
                                                    deadline := Some(t.clock + SECOND))]
    ensures ClaimsOk(t) && NamesOk(t)
  {
    forall k | k in t.claims ensures ClaimOk(k, t.claims[k], t.clock) && IsHostname(t.claims[k].candidate) {
      SameClaimOk(k, s.claims[k], s.claims[k], s.clock, t.clock);
    }
  }

  ghost predicate Welcome(s: State, fits: bool) {
    s.results != [] && Awaited(s, s.results[0]) && s.results[0].refusal.None? && fits
  }

  /** What consuming the first result does. */
  ghost predicate ReadyStep(s: State, t: State, fits: bool)
    requires s.results != []
  {
    var h := s.results[0].requested;
    && s.clock <= t.clock
    && t.requests == s.requests && t.preparing == s.preparing && t.results == s.results[1..]
    && (if Welcome(s, fits) then
          && t.claims == s.claims[h := s.claims[h].(current := s.claims[h].candidate, phase := Announcing,
                                                    deadline := Some(t.clock + SECOND))]
          && t.log == s.log + [Announced(h, s.claims[h].candidate, t.clock)]
          && Rearmed(t.claims, t.clock, t.timer)
        else
          && t.log == s.log && t.timer == s.timer
          && t.claims == if Awaited(s, s.results[0]) then s.claims - {h} else s.claims)
  }

  lemma ReadyShape(s: State, now: Time, fits: bool)
    requires s.results != [] && s.clock <= now && forall h :: h in s.claims ==> s.claims[h].requested == h
    ensures ReadyStep(s, OnReadiness(s, now, fits), fits)
    ensures OnReadiness(s, now, fits).clock == now
  {
    assert s.log + [] == s.log && s.requests + [] == s.requests;
  }

  /** An unwelcome result, or one nobody awaits, leaves all other claims as they are. */
  lemma UnwelcomeKeeps(s: State, t: State)
    requires ClaimsOk(s) && NamesOk(s) && TimerOk(s)
    requires s.clock <= t.clock && t.timer == s.timer
    requires forall h :: h in t.claims ==> h in s.claims && t.claims[h] == s.claims[h]
    ensures ClaimsOk(t) && NamesOk(t) && TimerOk(t)
  {
    ClaimsCarryOver(s, t);
    TimerCarriesOver(s, t);
  }

  lemma ReadyKeepsStreaks(ours: Address, s: State, t: State, fits: bool)
    requires StreaksOk(ours, s) && s.results != [] && ReadyStep(s, t, fits)
    ensures StreaksOk(ours, t)
  {
    var r := s.results[0].requested;
    forall h | h in t.claims ensures StreakOk(ours, t.log, h, t.claims[h], t.clock) {
      if !Welcome(s, fits) || h != r {
        SameStreak(ours, s.log, h, s.claims[h], s.claims[h], s.clock, t.clock);
        if Welcome(s, fits) {
          OtherEntry(ours, s.log, Announced(r, s.claims[r].candidate, t.clock), h, s.claims[h], t.clock);
        }
      }
    }
  }

  lemma ReadyKeepsAwaited(s: State, t: State, fits: bool)
    requires AwaitedOk(s) && s.results != []
    requires t.requests == s.requests && t.preparing == s.preparing && t.results == s.results[1..]
    requires forall h :: h in t.claims && t.claims[h].phase == AwaitingReadiness ==>
      && h in s.claims && t.claims[h] == s.claims[h]
      && (Awaited(s, s.results[0]) ==> h != s.results[0].requested)
    ensures AwaitedOk(t)
  {
    ResultConsumed(s, t);
  }

  lemma ReadyKeepsEach(ours: Address, s: State, t: State, fits: bool)
    requires ClaimsOk(s) && NamesOk(s) && StreaksOk(ours, s) && AwaitedOk(s) && TimerOk(s)
    requires s.results != [] && ReadyStep(s, t, fits)
    ensures Inv(ours, t)
  {
    ReadyKeepsStreaks(ours, s, t, fits);
    ReadyKeepsAwaited(s, t, fits);
    if Welcome(s, fits) {
      ReadyPublishes(s, t, s.results[0].requested);
      TimerFresh(t);
    } else {
      UnwelcomeKeeps(s, t);
    }
  }

  lemma ReadyKeepsInv(ours: Address, s: State, e: Event)
    requires Inv(ours, s) && e.Ready? && Enabled(s, e)
    ensures Inv(ours, Next(ours, s, e))
  {
    ReadyShape(s, e.now, e.fits);
    ReadyKeepsEach(ours, s, OnReadiness(s, e.now, e.fits), e.fits);
  }

  lemma RegisterShape(s: State, name: Result<string, NameError>, id: Option<string>, reply: nat, now: Time, delay: Time)
    requires s.clock <= now
    ensures var t := Enrol(s, name, id, reply, now, delay);
            && t.clock == now && t.requests == s.requests && t.preparing == s.preparing && t.results == s.results
            && (if name.Err? || id.None? then t.claims == s.claims && t.log == s.log && t.timer == s.timer
                else
                  && Rearmed(t.claims, now, t.timer)
                  && Joined(s, t, name.value, now, delay)
                  && t.log == if name.value in s.claims then s.log else s.log + [Opened(name.value, now)])
  {
  }

  /** Claim h has taken in a handle, being opened first if need be. */
  ghost predicate Joined(s: State, t: State, h: string, now: Time, delay: Time) {
    && h in t.claims
    && t.claims == s.claims[h := t.claims[h]]
    && var c := if h in s.claims then s.claims[h] else NewClaim(h, now, delay);
       t.claims[h] == c.(refs := t.claims[h].refs, pending := t.claims[h].pending)
  }

  lemma RegisterKeepsRest(s: State, t: State, h: string, delay: Time)
    requires ClaimsOk(s) && NamesOk(s) && AwaitedOk(s) && s.clock <= t.clock && IsDelay(delay) && IsHostname(h)
    requires t.requests == s.requests && t.preparing == s.preparing && t.results == s.results
    requires Joined(s, t, h, t.clock, delay)
    ensures ClaimsOk(t) && NamesOk(t) && AwaitedOk(t)
  {
    AwaitedCarriesOver(s, t);
    forall k | k in t.claims ensures ClaimOk(k, t.claims[k], t.clock) && IsHostname(t.claims[k].candidate) {
      if k in s.claims {
        SameClaimOk(k, s.claims[k], t.claims[k], s.clock, t.clock);
      }
    }
  }

  lemma RegisterKeepsInv(ours: Address, s: State, e: Event)
    requires Inv(ours, s) && e.Register? && Enabled(s, e)
    ensures Inv(ours, Next(ours, s, e))
  {
    var t := Next(ours, s, e);
    var name := CanonicalHostname(e.raw);
    RegisterShape(s, name, e.id, e.reply, e.now, e.delay);
    if name.Err? || e.id.None? {
      CarriedKeeps(s, t);
      TimerCarriesOver(s, t);
      CarriedStreaks(ours, s, t);
    } else {
      CanonicalIsHostname(e.raw);
      RegisterKeepsRest(s, t, name.value, e.delay);
      TimerFresh(t);
      RegisterKeepsStreaks(ours, s, t, name.value, e.delay);
    }
  }

  lemma CarriedStreaks(ours: Address, s: State, t: State)
    requires StreaksOk(ours, s) && Carried(s, t)
    requires t.log == s.log || exists h, name :: t.log == s.log + [Goodbye(h, name)]
    ensures StreaksOk(ours, t)
  {
    forall h | h in t.claims ensures StreakOk(ours, t.log, h, t.claims[h], t.clock) {
      SameStreak(ours, s.log, h, s.claims[h], t.claims[h], s.clock, t.clock);
      if t.log != s.log {
        var k, name :| t.log == s.log + [Goodbye(k, name)];
        OtherEntry(ours, s.log, Goodbye(k, name), h, t.claims[h], t.clock);
      }
    }
  }

  lemma RegisterKeepsStreaks(ours: Address, s: State, t: State, h: string, delay: Time)
    requires StreaksOk(ours, s) && s.clock <= t.clock && Joined(s, t, h, t.clock, delay)
    requires t.log == if h in s.claims then s.log else s.log + [Opened(h, t.clock)]
    ensures StreaksOk(ours, t)
  {
    forall k | k in t.claims ensures StreakOk(ours, t.log, k, t.claims[k], t.clock) {
      if k in s.claims {
        SameStreak(ours, s.log, k, s.claims[k], t.claims[k], s.clock, t.clock);
        if h !in s.claims {
          OtherEntry(ours, s.log, Opened(h, t.clock), k, t.claims[k], t.clock);
        }
      } else {
        StreakStep(ours, s.log, Opened(h, t.clock), k, h);
      }
    }
  }

  lemma ReleaseShape(s: State, id: string, now: Time)
    requires s.clock <= now
    ensures var t := OnRelease(s, id, now);
            && Carried(s, t) && t.clock == now && Rearmed(t.claims, now, t.timer)
            && (t.log == s.log || exists h, name :: t.log == s.log + [Goodbye(h, name)])
  {
  }

  lemma ReleaseKeepsInv(ours: Address, s: State, e: Event)
    requires Inv(ours, s) && e.Release? && Enabled(s, e)
    ensures Inv(ours, Next(ours, s, e))
  {
    var t := Next(ours, s, e);
    ReleaseShape(s, e.handle, e.now);
    CarriedKeeps(s, t);
    TimerFresh(t);
    CarriedStreaks(ours, s, t);
  }

  lemma PumpKeepsInv(ours: Address, s: State, e: Event)
    requires Inv(ours, s) && (e.Take? || e.Deliver?) && Enabled(s, e)
    ensures Inv(ours, Next(ours, s, e))
  {
    var t := Next(ours, s, e);
    forall h | h in t.claims && t.claims[h].phase == AwaitingReadiness
      ensures Outstanding(t, h, t.claims[h].generation)
    {
      var g := s.claims[h].generation;
      assert Outstanding(s, h, g);
      if e.Take? {
        if i :| 0 <= i < |s.requests| && RequestFor(s.requests[i], h, g) {
          if i > 0 {
            assert RequestFor(t.requests[i - 1], h, g);
          }
        }
      } else if RequestFor(s.preparing.value, h, g) {
        assert ResultFor(t.results[|s.results|], h, g);
      } else if i :| 0 <= i < |s.results| && ResultFor(s.results[i], h, g) {
        assert t.results[i] == s.results[i];
      }
    }
  }

  lemma StepKeepsInv(ours: Address, s: State, e: Event)
    requires Inv(ours, s) && Enabled(s, e)
    ensures Inv(ours, Next(ours, s, e))
  {
    match e
    case Inbound(_, _, _, _) => InboundKeepsInv(ours, s, e);
    case Tick(_, _, _) => TickKeepsInv(ours, s, e);
    case Ready(_, _) => ReadyKeepsInv(ours, s, e);
    case Register(_, _, _, _, _) => RegisterKeepsInv(ours, s, e);
    case Cancel(_, _, _) => CancelKeepsInv(ours, s, e);
    case Release(_, _) => ReleaseKeepsInv(ours, s, e);
    case Take => PumpKeepsInv(ours, s, e);
    case Deliver(_) => PumpKeepsInv(ours, s, e);
  }

  lemma {:induction false} RunKeepsInv(ours: Address, states: seq<State>, events: seq<Event>, i: nat)
    requires IsRun(ours, states, events) && i < |states|
    ensures Inv(ours, states[i])
  {
    if i > 0 {
      RunKeepsInv(ours, states, events, i - 1);
      assert IsStep(ours, states, events, i - 1);
      StepKeepsInv(ours, states[i - 1], events[i - 1]);
    }
  }
}
