/** The theorems about every run of the name-claim machine. */
module ClaimTheorems {
  import opened Common
  import opened Probing
  import opened ClaimModel
  import opened ClaimRuns

  // ------------------------------------------------------------ probing before announcing

  /** Entries of claim h's own probing: a probe under any name, or its opening. */
  predicate OwnProbing(entry: Entry, h: string) {
    (entry.Probed? || entry.Opened?) && entry.requested == h
  }

  /** Positions ks of the log hold the probes of h under the name, at the times given;
      from the first of them on the log shows no other probing by h and no packet
      that takes the name away. */
  ghost predicate ProbedAt(ours: Address, log: seq<Entry>, h: string, name: string, ks: seq<nat>, times: seq<Time>) {
    && |ks| == |times|
    && (forall j :: 0 <= j < |ks| ==> ks[j] < |log| && log[ks[j]] == Probed(h, name, times[j]))
    && (forall j :: 0 < j < |ks| ==> ks[j - 1] < ks[j])
    && forall k :: 0 <= k < |log| && ks != [] && ks[0] <= k ==>
         && (OwnProbing(log[k], h) ==> k in ks)
         && (log[k].Heard? ==> !Loses(ours, log[k].msg, name))
  }

  lemma ProbedAtPasses(ours: Address, log: seq<Entry>, entry: Entry, h: string, name: string,
                       ks: seq<nat>, times: seq<Time>)
    requires ProbedAt(ours, log, h, name, ks, times)
    requires !OwnProbing(entry, h) && (entry.Heard? ==> !Loses(ours, entry.msg, name))
    ensures ProbedAt(ours, log + [entry], h, name, ks, times)
  {
    var longer := log + [entry];
    assert forall k :: 0 <= k < |log| ==> longer[k] == log[k];
    assert longer[|log|] == entry;
  }

  lemma ProbedAtGrows(ours: Address, log: seq<Entry>, at: Time, h: string, name: string, ks: seq<nat>, times: seq<Time>)
    requires ProbedAt(ours, log, h, name, ks, times)
    ensures ProbedAt(ours, log + [Probed(h, name, at)], h, name, ks + [|log|], times + [at])
  {
    var longer, more := log + [Probed(h, name, at)], ks + [|log|];
    assert forall k :: 0 <= k < |log| ==> longer[k] == log[k];
    assert forall k :: k in ks ==> k in more;
    assert more[|ks|] == |log|;
  }

  lemma {:induction false} StreakIsInLog(ours: Address, log: seq<Entry>, h: string, name: string) returns (ks: seq<nat>)
    ensures ProbedAt(ours, log, h, name, ks, Streak(ours, log, h, name))
  {
    if Streak(ours, log, h, name) == [] {
      return [];
    }
    var front, last := log[..|log| - 1], Last(log);
    ks := StreakIsInLog(ours, front, h, name);
    var earlier := Streak(ours, front, h, name);
    assert log == front + [last];
    if last.Probed? && last.requested == h {
      ProbedAtGrows(ours, front, last.at, h, name, ks, earlier);
      ks := ks + [|front|];
    } else {
      ProbedAtPasses(ours, front, last, h, name, ks, earlier);
    }
  }

  /** Only a coordinator result publishes a claim. */
  lemma OnlyReadinessAnnounces(ours: Address, s: State, e: Event, h: string)
    requires ClaimsOk(s) && Enabled(s, e) && !e.Ready?
    requires h in Next(ours, s, e).claims && Next(ours, s, e).claims[h].phase == Announcing
    ensures h in s.claims && s.claims[h].phase == Announcing
  {
    match e
    case Inbound(msg, now, delays, order) =>
      SweepAnnouncesNothing(ours, s.(log := s.log + [Heard(msg, now)], clock := now), OnPacket(msg, now, delays),
                            order, h);
    case Tick(now, room, order) =>
      SweepAnnouncesNothing(ours, s.(clock := now), OnTick(now, room), order, h);
    case Cancel(reply, now, order) =>
      SweepAnnouncesNothing(ours, s.(clock := now), OnCancel(reply), order, h);
    case Register(raw, id, reply, now, delay) =>
      RegisterShape(s, CanonicalHostname(raw), id, reply, now, delay);
    case _ =>
  }

  lemma SweepAnnouncesNothing(ours: Address, s: State, sweep: Sweep, order: seq<string>, h: string)
    requires IsFiled(s.claims) && Covers(order, s.claims)
    requires h in Fold(ours, s, sweep, order).claims && Fold(ours, s, sweep, order).claims[h].phase == Announcing
    ensures h in s.claims && s.claims[h].phase == Announcing
  {
    FoldAt(ours, s, sweep, order, h);
    assert h in s.claims && h in ToSet(order);
    if sweep.OnPacket? {
      var c := s.claims[h];
      NeverAnnounces(ours, c, sweep, ConflictsWith(sweep.msg, c.current, ours), Loses(ours, sweep.msg, c.candidate),
                     NextConflictHostname(c.candidate));
    }
  }

  lemma NeverAnnounces(ours: Address, c: Claim, sweep: Sweep, clash: bool, lost: bool, next: Result<string, NameError>)
    requires sweep.OnPacket?
    requires EffectOf(ours, c, sweep) == Verdict(c, clash, lost, next, sweep.now, DelayOf(sweep.delays, c.requested))
    ensures var e := EffectOf(ours, c, sweep);
            e.next.Some? && e.next.value.phase == Announcing ==> c.phase == Announcing
  {
  }

  /**
   Sections 8.1 and 8.3 of RFC 6762: when step i of a run publishes a claim under a
   name, the log up to then holds exactly three probes for that name, 250 ms or more
   apart, the last at least 250 ms before the announcement, with no other probing by
   that claim and no packet that takes the name away since the first of them. The
   step is a coordinator result for the claim's current generation.
   */
  lemma AnnouncedOnlyAfterProbing(ours: Address, states: seq<State>, events: seq<Event>, i: nat, h: string)
    returns (ks: seq<nat>, times: seq<Time>)
    requires IsRun(ours, states, events) && i < |events|
    requires h in states[i + 1].claims && states[i + 1].claims[h].phase == Announcing
    requires h in states[i].claims ==> states[i].claims[h].phase != Announcing
    ensures |times| == 3 && times[0] + 250 * MILLISECOND <= times[1] && times[1] + 250 * MILLISECOND <= times[2]
    ensures ProbedAt(ours, states[i].log, h, states[i + 1].claims[h].current, ks, times)
    ensures events[i].Ready? && times[2] + 250 * MILLISECOND <= events[i].now
    ensures states[i + 1].log == states[i].log + [Announced(h, states[i + 1].claims[h].current, events[i].now)]
    ensures h in states[i].claims
    ensures states[i].results != [] && ResultFor(states[i].results[0], h, states[i].claims[h].generation)
  {
    RunKeepsInv(ours, states, events, i);
    var s, e := states[i], events[i];
    assert IsStep(ours, states, events, i);
    if !e.Ready? {
      OnlyReadinessAnnounces(ours, s, e, h);
      assert false;
    }
    ReadyShape(s, e.now, e.fits);
    PublishedIsAwaited(s, states[i + 1], e.fits, h);
    ks, times := AwaitedWasProbed(ours, s, h);
  }

  lemma AwaitedWasProbed(ours: Address, s: State, h: string) returns (ks: seq<nat>, times: seq<Time>)
    requires StreaksOk(ours, s) && h in s.claims && s.claims[h].phase == AwaitingReadiness
    ensures |times| == 3 && times[0] + 250 * MILLISECOND <= times[1] && times[1] + 250 * MILLISECOND <= times[2]
    ensures times[2] + 250 * MILLISECOND <= s.clock
    ensures ProbedAt(ours, s.log, h, s.claims[h].candidate, ks, times)
  {
    var c := s.claims[h];
    assert StreakOk(ours, s.log, h, c, s.clock);
    times := Streak(ours, s.log, h, c.candidate);
    ks := StreakIsInLog(ours, s.log, h, c.candidate);
  }

  lemma PublishedIsAwaited(s: State, t: State, fits: bool, h: string)
    requires s.results != [] && ReadyStep(s, t, fits)
    requires h in t.claims && t.claims[h].phase == Announcing
    requires h in s.claims ==> s.claims[h].phase != Announcing
    ensures Welcome(s, fits) && h == s.results[0].requested
  {
  }

  // ------------------------------------------------------------ invariants of every state

  /** Phase and probe count stay paired, the name published is the name probed, and
      the deadline is unset exactly while the coordinator decides or the claim rests. */
  lemma PhasesStayPaired(ours: Address, states: seq<State>, events: seq<Event>, i: nat, h: string)
    requires IsRun(ours, states, events) && i < |states| && h in states[i].claims
    ensures var c := states[i].claims[h];
            && c.requested == h && IsHostname(c.candidate)
            && (c.phase == ProbeWait <==> c.probeCount == 0)
            && (c.phase == Probing <==> 1 <= c.probeCount <= 2)
            && c.probeCount <= 3
            && (c.Published() ==> c.current == c.candidate)
            && (c.deadline.None? <==> c.phase == AwaitingReadiness || c.phase == Active)
  {
    RunKeepsInv(ours, states, events, i);
  }

  /** No claim is ever stuck: it has a deadline and the timer is set to go off by
      then, or the coordinator owes it an answer for its generation, or it is active. */
  lemma NoClaimIsStuck(ours: Address, states: seq<State>, events: seq<Event>, i: nat, h: string)
    requires IsRun(ours, states, events) && i < |states| && h in states[i].claims
    ensures var s := states[i]; var c := s.claims[h];
            || c.phase == Active
            || (c.phase == AwaitingReadiness && Outstanding(s, h, c.generation))
            || (c.deadline.Some? && s.timer.Some? && s.timer.value <= Max(c.deadline.value, s.clock))
  {
    RunKeepsInv(ours, states, events, i);
  }

  /** A result of another generation, or one that nobody awaits, changes no claim. */
  lemma StaleResultIsIgnored(s: State, now: Time, fits: bool)
    requires s.results != [] && s.clock <= now
    requires s.results[0].requested in s.claims ==>
      var c := s.claims[s.results[0].requested];
      c.generation != s.results[0].generation || c.phase != AwaitingReadiness
    ensures OnReadiness(s, now, fits) == s.(results := s.results[1..], clock := now)
  {
  }

  /** Conflicts cost a claim its generation, so a result on its way is outdated. */
  lemma LosingOutdatesRequests(ours: Address, c: Claim, msg: Message, now: Time, delay: Time)
    ensures var e := PacketEffect(ours, c, msg, now, delay);
            e.next.Some? ==>
              && c.generation <= e.next.value.generation <= c.generation + 1
              && (e.next.value.generation == c.generation <==> e.next.value == c)
  {
  }

  lemma TurnKeepsGeneration(ours: Address, c: Claim, sweep: Sweep)
    ensures var e := EffectOf(ours, c, sweep);
            e.next.Some? ==> c.generation <= e.next.value.generation
    ensures sweep.OnPacket? ==>
              var e := EffectOf(ours, c, sweep);
              e.next.Some? && e.next.value != c ==> c.generation < e.next.value.generation
  {
    if sweep.OnPacket? {
      LosingOutdatesRequests(ours, c, sweep.msg, sweep.now, DelayOf(sweep.delays, c.requested));
    }
  }

  lemma SweepKeepsGeneration(ours: Address, s: State, sweep: Sweep, order: seq<string>, h: string)
    requires Covers(order, s.claims) && IsFiled(s.claims) && h in s.claims && h in Fold(ours, s, sweep, order).claims
    ensures var c, d := s.claims[h], Fold(ours, s, sweep, order).claims[h];
            c.generation <= d.generation && (sweep.OnPacket? && c != d ==> c.generation < d.generation)
  {
    assert h in ToSet(order);
    FoldAt(ours, s, sweep, order, h);
    TurnKeepsGeneration(ours, s.claims[h], sweep);
  }

  /** A step never lowers the generation of a claim that it leaves, and a packet that
      changes the claim raises it. */
  lemma StepKeepsGeneration(ours: Address, s: State, e: Event, h: string)
    requires Enabled(s, e) && IsFiled(s.claims) && h in s.claims && h in Next(ours, s, e).claims
    ensures var c, d := s.claims[h], Next(ours, s, e).claims[h];
            c.generation <= d.generation && (e.Inbound? && c != d ==> c.generation < d.generation)
  {
    if e.Inbound? {
      var heard := s.(log := s.log + [Heard(e.msg, e.now)], clock := e.now);
      SweepKeepsGeneration(ours, heard, OnPacket(e.msg, e.now, e.delays), e.order, h);
    } else if e.Tick? {
      SweepKeepsGeneration(ours, s.(clock := e.now), OnTick(e.now, e.room), e.order, h);
    } else if e.Cancel? {
      SweepKeepsGeneration(ours, s.(clock := e.now), OnCancel(e.reply), e.order, h);
    } else {
      OtherStepKeepsGeneration(ours, s, e, h);
    }
  }

  lemma OtherStepKeepsGeneration(ours: Address, s: State, e: Event, h: string)
    requires Enabled(s, e) && !(e.Inbound? || e.Tick? || e.Cancel?) && h in s.claims && h in Next(ours, s, e).claims
    ensures s.claims[h].generation == Next(ours, s, e).claims[h].generation
  {
  }

  /** The claim is there all the while: the same one, as a step cannot both close and open
      one. */
  ghost predicate LivesThrough(states: seq<State>, h: string, a: nat, b: nat)
    requires a <= b < |states|
  {
    forall k :: a <= k <= b ==> h in states[k].claims
  }

  lemma RunStepKeepsGeneration(ours: Address, states: seq<State>, events: seq<Event>, h: string, k: nat)
    requires IsRun(ours, states, events) && k < |events| && h in states[k].claims && h in states[k + 1].claims
    ensures var c, d := states[k].claims[h], states[k + 1].claims[h];
            c.generation <= d.generation && (events[k].Inbound? && c != d ==> c.generation < d.generation)
  {
    RunKeepsInv(ours, states, events, k);
    assert IsStep(ours, states, events, k);
    StepKeepsGeneration(ours, states[k], events[k], h);
  }

  /** Within a claim's lifetime its generation never decreases. */
  lemma {:induction false} GenerationsGrow(ours: Address, states: seq<State>, events: seq<Event>, h: string, a: nat,
                                           b: nat)
    requires IsRun(ours, states, events) && a <= b < |states| && LivesThrough(states, h, a, b)
    ensures states[a].claims[h].generation <= states[b].claims[h].generation
    decreases b
  {
    if a < b {
      GenerationsGrow(ours, states, events, h, a, b - 1);
      RunStepKeepsGeneration(ours, states, events, h, b - 1);
    }
  }

  /** In every run a result that was asked for before a conflict changed the claim changes
      no claim when it comes in. */
  lemma OutdatedResultChangesNothing(ours: Address, states: seq<State>, events: seq<Event>, h: string, a: nat, c: nat,
                                     b: nat)
    requires IsRun(ours, states, events) && a <= c < b < |events| && LivesThrough(states, h, a, b)
    requires events[c].Inbound? && states[c].claims[h] != states[c + 1].claims[h]
    requires events[b].Ready? && states[b].results != [] && states[b].results[0].requested == h
    requires states[b].results[0].generation <= states[a].claims[h].generation
    ensures states[b + 1] == states[b].(results := states[b].results[1..], clock := events[b].now)
  {
    GenerationsGrow(ours, states, events, h, a, c);
    RunStepKeepsGeneration(ours, states, events, h, c);
    GenerationsGrow(ours, states, events, h, c + 1, b);
    assert IsStep(ours, states, events, b);
    StaleResultIsIgnored(states[b], events[b].now, events[b].fits);
  }

  // ------------------------------------------------------------ flooding

  /** Section 8.1 of RFC 6762: within a probing episode no ten seconds hold more
      than seventeen conflicts, counting one that comes next: also one that ends the
      episode. */
  lemma FloodingIsBounded(ours: Address, states: seq<State>, events: seq<Event>, i: nat, h: string, t: Time, next: Time)
    requires IsRun(ours, states, events) && i < |states| && h in states[i].claims
    ensures var c := states[i].claims[h];
            && CountWithin(c.conflicts, t, t + 10 * SECOND) <= 17
            && (!c.Published() && c.phase != ProbeWait && states[i].clock <= next ==>
                  CountWithin(c.conflicts + [next], t, t + 10 * SECOND) <= 17)
  {
    RunKeepsInv(ours, states, events, i);
    var c := states[i].claims[h];
    FloodBound(c.conflicts, t);
    if !c.Published() && c.phase != ProbeWait && states[i].clock <= next {
      PacedAppend(c.conflicts, next);
      FloodBound(c.conflicts + [next], t);
    }
  }

  lemma {:induction false} CountSplits(times: seq<Time>, lo: Time, mid: Time, hi: Time)
    requires lo <= mid <= hi
    ensures CountWithin(times, lo, hi) <= CountWithin(times, lo, mid) + CountWithin(times, mid, hi)
  {
    if times != [] {
      CountSplits(times[..|times| - 1], lo, mid, hi);
    }
  }

  lemma {:induction false} WindowsAdd(times: seq<Time>, t: Time, n: nat)
    requires Paced(times)
    ensures CountWithin(times, t, t + n * CONFLICT_WINDOW) <= if n == 0 then |times| else 17 * n
  {
    if n == 0 {
      CountAtMost(times, t, t);
    } else if n == 1 {
      FloodBound(times, t);
    } else {
      WindowsAdd(times, t, n - 1);
      FloodBound(times, t + (n - 1) * CONFLICT_WINDOW);
      CountSplits(times, t, t + (n - 1) * CONFLICT_WINDOW, t + n * CONFLICT_WINDOW);
    }
  }

  /** An episode has at most 102 conflicts, one minute of six windows, before one that
      ends it. */
  lemma EpisodeIsBounded(ours: Address, states: seq<State>, events: seq<Event>, i: nat, h: string)
    requires IsRun(ours, states, events) && i < |states| && h in states[i].claims
    ensures |states[i].claims[h].conflicts| <= 102
  {
    RunKeepsInv(ours, states, events, i);
    var c := states[i].claims[h];
    WindowsAdd(c.conflicts, c.startedAt, 6);
    CountLastOnes(c.conflicts, c.startedAt, c.startedAt + 6 * CONFLICT_WINDOW, |c.conflicts|);
  }
}
