/** Stopping the installed router (internal/app/router_stop.go) against any
    environment: the process, its PID record, systemd and the router itself may answer
    each question in any way. */
module ConfirmedStop {
  import opened Common

  datatype ProcState = Absent | Matched | Mismatched | Unknown
  datatype Record = NoRecord | BadRecord | Names(pid: nat)

  /** What is asked of the environment, with its answer. */
  datatype Event =
    | Cancelled(yes: bool)
    | ReadRecord(record: Record)
    | Inspected(state: ProcState)
    | BootChecked(predates: bool)
    | ShutdownAsked(ok: bool)
    | ManagerAsked(ok: bool)
    | HealthAsked(ok: bool)
    | Slept(ok: bool)
    | Signalled(ok: bool)
    | RemovalTried(pid: nat, found: Record, ok: bool)

  /** The n-th question is answered by the functions at n. */
  datatype Env = Env(
    cancelled: nat -> bool, record: nat -> Record, inspect: nat -> ProcState, predates: nat -> bool,
    shutdown: nat -> bool, hasService: bool, manager: nat -> bool, health: nat -> bool, sleep: nat -> bool,
    signal: nat -> bool, lock: nat -> bool, remove: nat -> bool)

  const GRACEFUL_WAIT: Time := 4 * SECOND
  const SIGNAL_WAIT: Time := 5 * SECOND
  const POLL: Time := 100 * MILLISECOND

  /** What the call reports. */
  datatype Outcome = Stopped | NotRunning | Failed

  predicate Gone(s: ProcState) {
    s == Absent || s == Mismatched
  }

  // ------------------------------------------------------------ what a trace must satisfy

  function Count(trace: seq<Event>, what: Event -> bool): nat {
    if trace == [] then 0 else Count(trace[..|trace| - 1], what) + if what(trace[|trace| - 1]) then 1 else 0
  }

  function Signals(trace: seq<Event>): nat {
    Count(trace, (e: Event) => e.Signalled?)
  }

  function Polls(trace: seq<Event>): nat {
    Count(trace, (e: Event) => e.Slept?)
  }

  /** Every signal comes right after an inspection that found the router's process. */
  ghost predicate SignalsAreJustified(trace: seq<Event>) {
    forall i :: 0 <= i < |trace| && trace[i].Signalled? ==> i > 0 && trace[i - 1] == Inspected(Matched)
  }

  /** The event is what the environment answers to the n-th question. A record is removed
      only under the lock and if it still names the process. */
  predicate Answers(env: Env, n: nat, e: Event) {
    && (e.Cancelled? ==> e.yes == env.cancelled(n))
    && (e.ReadRecord? ==> e.record == env.record(n))
    && (e.Inspected? ==> e.state == env.inspect(n))
    && (e.BootChecked? ==> e.predates == env.predates(n))
    && (e.ShutdownAsked? ==> e.ok == env.shutdown(n))
    && (e.ManagerAsked? ==> env.hasService && e.ok == env.manager(n))
    && (e.HealthAsked? ==> e.ok == env.health(n))
    && (e.Slept? ==> e.ok == env.sleep(n))
    && (e.Signalled? ==> e.ok == env.signal(n))
    && (e.RemovalTried? ==> e.found == (if env.lock(n) then env.record(n) else BadRecord)
                            && (e.ok <==> e.found == NoRecord || (e.found == Names(e.pid) && env.remove(n))))
  }

  ghost predicate AnsweredBy(env: Env, trace: seq<Event>) {
    forall i :: 0 <= i < |trace| ==> Answers(env, i, trace[i])
  }

  /** From the n-th event on the router's process was found gone. */
  ghost predicate SeenGone(trace: seq<Event>, n: nat) {
    exists i :: n <= i < |trace| && trace[i].Inspected? && Gone(trace[i].state)
  }

  /** The record was found not to name the process any more, or was removed. */
  ghost predicate RecordGone(trace: seq<Event>, pid: nat) {
    exists i :: 0 <= i < |trace| && trace[i].RemovalTried? && trace[i].pid == pid && trace[i].ok
                && (trace[i].found == NoRecord || trace[i].found == Names(pid))
  }

  lemma CountGrows(trace: seq<Event>, e: Event, what: Event -> bool)
    ensures Count(trace + [e], what) == Count(trace, what) + if what(e) then 1 else 0
  {
    assert (trace + [e])[..|trace|] == trace;
  }

  /** One more event. */
  function Then(trace: seq<Event>, e: Event): (t: seq<Event>)
    ensures |t| == |trace| + 1 && trace <= t && t[|trace|] == e
    ensures Signals(t) == Signals(trace) + (if e.Signalled? then 1 else 0)
    ensures Polls(t) == Polls(trace) + (if e.Slept? then 1 else 0)
  {
    CountGrows(trace, e, (e: Event) => e.Signalled?);
    CountGrows(trace, e, (e: Event) => e.Slept?);
    trace + [e]
  }

  predicate AsksToStop(e: Event) {
    e.ShutdownAsked? || e.ManagerAsked?
  }

  /** The PID record is deleted. */
  predicate Removes(e: Event) {
    e.RemovalTried? && e.ok && e.found.Names?
  }

  /** The trace goes on from an earlier one, with the answers of the environment, at most
      so many signals, each justified, and at most so many polls, and unless removing is
      set without going at the record. */
  ghost predicate Follows(env: Env, before: seq<Event>, trace: seq<Event>, signals: nat, polls: nat, removing: bool) {
    && before <= trace && (SignalsAreJustified(before) ==> SignalsAreJustified(trace))
    && (AnsweredBy(env, before) ==> AnsweredBy(env, trace))
    && Signals(trace) <= Signals(before) + signals && Polls(trace) <= Polls(before) + polls
    && (!removing ==> forall i :: |before| <= i < |trace| ==> !trace[i].RemovalTried?)
  }

  /** And without asking the router or systemd to stop. */
  ghost predicate Continues(env: Env, before: seq<Event>, trace: seq<Event>, signals: nat, polls: nat, removing: bool) {
    Follows(env, before, trace, signals, polls, removing) && forall i :: |before| <= i < |trace| ==>
        !AsksToStop(trace[i])
  }

  lemma FollowsOn(env: Env, a: seq<Event>, b: seq<Event>, c: seq<Event>, signals: nat, polls: nat, removing: bool,
                  moreSignals: nat, morePolls: nat, moreRemoving: bool)
    requires Follows(env, a, b, signals, polls, removing) && Follows(env, b, c, moreSignals, morePolls, moreRemoving)
    ensures Follows(env, a, c, signals + moreSignals, polls + morePolls, removing || moreRemoving)
  {
  }

  lemma ContinuesOn(env: Env, a: seq<Event>, b: seq<Event>, c: seq<Event>, signals: nat, polls: nat, removing: bool,
                    moreSignals: nat, morePolls: nat, moreRemoving: bool)
    requires Continues(env, a, b, signals, polls, removing)
             && Continues(env, b, c, moreSignals, morePolls, moreRemoving)
    ensures Continues(env, a, c, signals + moreSignals, polls + morePolls, removing || moreRemoving)
  {
    FollowsOn(env, a, b, c, signals, polls, removing, moreSignals, morePolls, moreRemoving);
  }

  lemma AskedOnce(env: Env, before: seq<Event>, e: Event)
    requires Answers(env, |before|, e)
    requires e.Signalled? ==> before != [] && before[|before| - 1] == Inspected(Matched)
    ensures Follows(env, before, Then(before, e), if e.Signalled? then 1 else 0, if e.Slept? then 1 else 0,
                    e.RemovalTried?)
    ensures !AsksToStop(e) ==>
              Continues(env, before, Then(before, e), if e.Signalled? then 1 else 0, if e.Slept? then 1 else 0,
                        e.RemovalTried?)
  {
  }

  /** An answer that stands in the way of stopping the router. */
  predicate Hinders(e: Event) {
    || e == Cancelled(true) || e == ReadRecord(BadRecord) || e == Inspected(Unknown) || e == Inspected(Matched)
    || e == Slept(false) || (e.RemovalTried? && !e.ok)
  }

  ghost predicate Hindered(trace: seq<Event>, n: nat) {
    exists i :: n <= i < |trace| && Hinders(trace[i])
  }

  /** So did one, other than that the process was the router when first inspected. */
  ghost predicate HeldUp(trace: seq<Event>) {
    exists i :: 0 <= i < |trace| && Hinders(trace[i]) && (trace[i] == Inspected(Matched) ==> i > FIRST_INSPECTION)
  }

  /** The first inspection follows one look at the context and one at the record. */
  const FIRST_INSPECTION: nat := 2

  lemma HinderedIsHeldUp(trace: seq<Event>, n: nat)
    requires Hindered(trace, n) && n > FIRST_INSPECTION
    ensures HeldUp(trace)
  {
  }

  lemma StaysHeldUp(before: seq<Event>, trace: seq<Event>)
    requires HeldUp(before) && before <= trace
    ensures HeldUp(trace)
  {
    var i :| 0 <= i < |before| && Hinders(before[i]) && (before[i] == Inspected(Matched) ==> i > FIRST_INSPECTION);
    assert trace[i] == before[i];
  }

  /** Only the record of that process is gone at; in vain unless done is set. */
  ghost predicate RemovesFor(before: seq<Event>, trace: seq<Event>, pid: nat, done: bool) {
    forall i :: |before| <= i < |trace| && trace[i].RemovalTried? ==> trace[i].pid == pid && (!done ==> !trace[i].ok)
  }

  // ------------------------------------------------------------ the protocol

  method Ask(env: Env, before: seq<Event>, e: Event) returns (trace: seq<Event>)
    requires !AsksToStop(e) && !e.Signalled? && !e.Slept? && !e.RemovalTried? && Answers(env, |before|, e)
    ensures trace == Then(before, e) && Continues(env, before, trace, 0, 0, false)
  {
    AskedOnce(env, before, e);
    trace := Then(before, e);
  }

  method Inspect(env: Env, before: seq<Event>) returns (state: ProcState, trace: seq<Event>)
    ensures trace == Then(before, Inspected(state)) && Continues(env, before, trace, 0, 0, false)
    ensures if Gone(state) then SeenGone(trace, |before|) else Hindered(trace, |before|) && !SeenGone(trace, |before|)
  {
    state := env.inspect(|before|);
    trace := Ask(env, before, Inspected(state));
    assert trace[|before|] == Inspected(state);
  }

  lemma SeenGoneSince(mid: seq<Event>, trace: seq<Event>, n: nat)
    requires mid <= trace && n <= |mid|
    ensures SeenGone(trace, n) <==> SeenGone(mid, n) || SeenGone(trace, |mid|)
  {
    assert forall i :: 0 <= i < |mid| ==> trace[i] == mid[i];
  }

  /** One poll: sleep, and look at the process; None: the wait has failed. */
  method PollOnce(env: Env, before: seq<Event>) returns (state: Option<ProcState>, trace: seq<Event>)
    ensures Continues(env, before, trace, 0, 1, false)
    ensures state.Some? && Gone(state.value) <==> SeenGone(trace, |before|)
    ensures state.None? || !Gone(state.value) ==> Hindered(trace, |before|)
    ensures state != Some(Unknown)
  {
    var slept := env.sleep(|before|);
    AskedOnce(env, before, Slept(slept));
    trace := Then(before, Slept(slept));
    assert trace[|before|] == Slept(slept);
    if !slept {
      return None, trace;
    }
    ghost var polled := trace;
    var seen;
    seen, trace := Inspect(env, trace);
    ContinuesOn(env, before, polled, trace, 0, 1, false, 0, 0, false);
    SeenGoneSince(polled, trace, |before|);
    state := if seen == Unknown then None else Some(seen);
  }

  method WaitForRouterExit(env: Env, before: seq<Event>, wait: Time)
    returns (gone: bool, failed: bool, trace: seq<Event>)
    requires wait >= 0
    ensures Continues(env, before, trace, 0, wait / POLL, false)
    ensures (gone <==> SeenGone(trace, |before|)) && (gone ==> !failed)
    ensures !gone && wait >= POLL ==> Hindered(trace, |before|)
  {
    trace := before;
    for n := 0 to wait / POLL
      invariant Continues(env, before, trace, 0, n, false)
      invariant n > 0 ==> Hindered(trace, |before|)
      invariant !SeenGone(trace, |before|)
    {
      ghost var waited := trace;
      var state;
      state, trace := PollOnce(env, trace);
      ContinuesOn(env, before, waited, trace, 0, n, false, 0, 1, false);
      SeenGoneSince(waited, trace, |before|);
      if state.None? {
        return false, true, trace;
      }
      if Gone(state.value) {
        return true, false, trace;
      }
    }
    return false, false, trace;
  }

  method SendSignal(env: Env, before: seq<Event>) returns (ok: bool, trace: seq<Event>)
    requires before != [] && before[|before| - 1] == Inspected(Matched)
    ensures trace == Then(before, Signalled(ok)) && Continues(env, before, trace, 1, 0, false)
  {
    ok := env.signal(|before|);
    AskedOnce(env, before, Signalled(ok));
    trace := Then(before, Signalled(ok));
  }

  /** The process is looked at again, and if it is still the router it is signalled. */
  method TerminateRouterProcess(env: Env, before: seq<Event>) returns (gone: bool, trace: seq<Event>)
    ensures Continues(env, before, trace, 1, 50, false)
    ensures if gone then SeenGone(trace, |before|) else Hindered(trace, |before|) && !SeenGone(trace, |before|)
    ensures |trace| > |before| && trace[|before|].Cancelled?
    ensures !trace[|before|].yes ==> |trace| > |before| + 1 && trace[|before| + 1].Inspected?
    ensures !trace[|before|].yes && trace[|before| + 1] == Inspected(Matched) ==>
              |trace| > |before| + 2 && trace[|before| + 2].Signalled?
  {
    var cancelled := env.cancelled(|before|);
    trace := Ask(env, before, Cancelled(cancelled));
    if cancelled {
      assert Hinders(trace[|before|]);
      return false, trace;
    }
    ghost var asked := trace;
    var state;
    state, trace := Inspect(env, trace);
    ContinuesOn(env, before, asked, trace, 0, 0, false, 0, 0, false);
    if Gone(state) {
      return true, trace;
    }
    if state == Unknown {
      return false, trace;
    }
    ghost var inspected := trace;
    gone, trace := SignalAndWait(env, trace);
    ContinuesOn(env, before, inspected, trace, 0, 0, false, 1, 50, false);
  }

  method SignalAndWait(env: Env, before: seq<Event>) returns (gone: bool, trace: seq<Event>)
    requires before != [] && before[|before| - 1] == Inspected(Matched)
    ensures Continues(env, before, trace, 1, 50, false)
    ensures if gone then SeenGone(trace, |before|) else Hindered(trace, |before|) && !SeenGone(trace, |before|)
    ensures |trace| > |before| && trace[|before|].Signalled?
  {
    var signalled;
    signalled, trace := SendSignal(env, before);
    ghost var sent := trace;
    if !signalled {
      var state;
      state, trace := Inspect(env, trace);
      ContinuesOn(env, before, sent, trace, 1, 0, false, 0, 0, false);
      return Gone(state), trace;
    }
    var failed;
    gone, failed, trace := WaitForRouterExit(env, trace, SIGNAL_WAIT);
    ContinuesOn(env, before, sent, trace, 1, 0, false, 0, 50, false);
  }

  /** RemovePIDRecordIf: removes the record only if it still names the process. */
  method RemovePidRecordIf(env: Env, before: seq<Event>, pid: nat) returns (ok: bool, trace: seq<Event>)
    ensures Continues(env, before, trace, 0, 0, true) && RemovesFor(before, trace, pid, ok)
    ensures |trace| == |before| + 1 && trace[|before|].RemovalTried? && trace[|before|].ok == ok
    ensures if ok then RecordGone(trace, pid) else Hindered(trace, |before|)
  {
    var found := BadRecord;
    ok := false;
    if env.lock(|before|) {
      found := env.record(|before|);
      match found {
        case NoRecord => ok := true;
        case BadRecord => ok := false;
        case Names(other) => ok := other == pid && env.remove(|before|);
      }
    }
    var tried := RemovalTried(pid, found, ok);
    assert Answers(env, |before|, tried);
    AskedOnce(env, before, tried);
    trace := Then(before, tried);
    assert trace[|before|] == tried;
  }

  // ------------------------------------------------------------ what is reported in the end

  /** What systemd made of its unit, if there is one. */
  datatype Manager = NoUnit | UnitStopped | UnitFailed

  function Answered(ok: bool): Manager {
    if ok then UnitStopped else UnitFailed
  }

  /** What is known once the PID record is out of the way. matched: the recorded process
      was the router when first inspected, and has been found gone since. */
  datatype Facts = Facts(matched: bool, manager: Manager, shutdown: bool, health: bool, cancelled: bool)

  function Verdict(f: Facts): Outcome {
    if f.manager == UnitFailed then Failed
    else if f.matched || f.manager == UnitStopped then Stopped
    else if f.shutdown || f.health || f.cancelled then Failed
    else NotRunning
  }

  // ------------------------------------------------------------ the whole call

  /** What the router and systemd answered when asked to stop. */
  ghost predicate Told(trace: seq<Event>, shutdown: bool, manager: Manager) {
    && (exists i :: 0 <= i < |trace| && trace[i].ShutdownAsked?)
    && (forall i :: 0 <= i < |trace| && trace[i].ShutdownAsked? ==> trace[i].ok == shutdown)
    && (manager != NoUnit <==> exists i :: 0 <= i < |trace| && trace[i].ManagerAsked?)
    && (forall i :: 0 <= i < |trace| && trace[i].ManagerAsked? ==> Answered(trace[i].ok) == manager)
  }

  lemma StillTold(before: seq<Event>, trace: seq<Event>, shutdown: bool, manager: Manager)
    requires Told(before, shutdown, manager) && before <= trace
    requires forall i :: |before| <= i < |trace| ==> !AsksToStop(trace[i])
    ensures Told(trace, shutdown, manager)
  {
    assert forall i :: 0 <= i < |before| ==> trace[i] == before[i];
  }

  /** Nobody has been asked to stop yet. */
  ghost predicate NobodyAsked(trace: seq<Event>) {
    forall i :: 0 <= i < |trace| ==> !AsksToStop(trace[i])
  }

  /** The router was found to be the recorded process, and later to be gone. */
  ghost predicate SeenLeaving(trace: seq<Event>) {
    exists k :: 0 <= k < |trace| && trace[k] == Inspected(Matched) && SeenGone(trace, k + 1)
  }

  predicate FoundRunning(trace: seq<Event>) {
    |trace| > FIRST_INSPECTION && trace[FIRST_INSPECTION] == Inspected(Matched)
  }

  /** The process could not be inspected, but its record is older than the last boot. */
  predicate FoundStale(trace: seq<Event>) {
    |trace| > 3 && trace[3] == BootChecked(true)
  }

  /** The router answers, or the caller has given up. */
  predicate Objects(e: Event) {
    e == HealthAsked(true) || e == Cancelled(true)
  }

  ghost predicate Objected(trace: seq<Event>, n: nat) {
    exists i :: n <= i < |trace| && Objects(trace[i])
  }

  ghost predicate RecordRemoved(trace: seq<Event>) {
    exists i :: 0 <= i < |trace| && Removes(trace[i])
  }

  /** The record is only ever removed for the process it named when first read. */
  ghost predicate RemovesOnly(trace: seq<Event>, record: Record) {
    forall i :: 0 <= i < |trace| && trace[i].RemovalTried? ==>
      i > 1 && trace[1] == ReadRecord(record) && record == Names(trace[i].pid)
  }

  /** The caller gave up, or the record could not be dealt with. */
  predicate Obstructs(e: Event) {
    e == Cancelled(true) || (e.RemovalTried? && !e.ok)
  }

  ghost predicate Obstructed(trace: seq<Event>, n: nat) {
    exists i :: n <= i < |trace| && Obstructs(trace[i])
  }

  /** Answers with which a call fails even after it has removed the record: systemd could
      not stop its unit, or there is none, no process was seen to leave, and the router
      took the request to stop or still answers, or the caller gave up. */
  ghost predicate FailsLate(trace: seq<Event>) {
    || ManagerAsked(false) in trace
    || (ManagerAsked(true) !in trace && !FoundRunning(trace) && (ShutdownAsked(true) in trace || Objected(trace, 0)))
  }

  /** Inspect the recorded process; one that cannot be inspected is stale if its record
      is older than the last boot. */
  method InspectRecorded(env: Env, before: seq<Event>) returns (state: ProcState, stale: bool, trace: seq<Event>)
    ensures Continues(env, before, trace, 0, 0, false) && |trace| > |before| && !Objected(trace, |before|)
    ensures state == Matched <==> trace[|before|] == Inspected(Matched)
    ensures state == Matched ==> trace[|trace| - 1] == Inspected(Matched)
    ensures state == Unknown || stale ==> trace[|before|] == Inspected(Unknown)
    ensures state == Matched ==> |trace| == |before| + 1
    ensures stale ==> |trace| == |before| + 2 && trace[|before| + 1] == BootChecked(true)
    ensures !stale && state != Unknown ==> |trace| == |before| + 1
  {
    stale := false;
    state, trace := Inspect(env, before);
    if state == Unknown {
      ghost var inspected := trace;
      var predates := env.predates(|trace|);
      trace := Ask(env, trace, BootChecked(predates));
      ContinuesOn(env, before, inspected, trace, 0, 0, false, 0, 0, false);
      if predates {
        state, stale := Mismatched, true;
      }
    }
  }

  /** Read the PID record and inspect the process before anything is asked to stop. */
  method LookFirst(env: Env) returns (go: bool, record: Record, state: ProcState, stale: bool, trace: seq<Event>)
    ensures Continues(env, [], trace, 0, 0, false) && NobodyAsked(trace)
    ensures !go || stale ==> HeldUp(trace)
    ensures go ==>
              && |trace| >= FIRST_INSPECTION && trace[1] == ReadRecord(record) && record != BadRecord
              && state != Unknown && !Objected(trace, 0)
    ensures go ==> if record.Names? then state == Matched <==> FoundRunning(trace)
            else state == Absent && |trace| == FIRST_INSPECTION
    ensures go && state == Matched ==> record.Names? && trace[|trace| - 1] == Inspected(Matched)
    ensures go && state == Matched ==> |trace| == FIRST_INSPECTION + 1
    ensures !go ==> !FoundRunning(trace)
    ensures go ==> if stale then |trace| == 4 && trace[3] == BootChecked(true) else |trace| <= 3
  {
    record, state, stale := NoRecord, Absent, false;
    var cancelled := env.cancelled(0);
    trace := Ask(env, [], Cancelled(cancelled));
    assert trace[0] == Cancelled(cancelled);
    if cancelled {
      return false, record, state, stale, trace;
    }
    ghost var asked := trace;
    record := env.record(|trace|);
    trace := Ask(env, trace, ReadRecord(record));
    ContinuesOn(env, [], asked, trace, 0, 0, false, 0, 0, false);
    assert trace[1] == ReadRecord(record);
    if record.Names? {
      ghost var read := trace;
      state, stale, trace := InspectRecorded(env, trace);
      ContinuesOn(env, [], read, trace, 0, 0, false, 0, 0, false);
    }
    return record != BadRecord && state != Unknown, record, state, stale, trace;
  }

  /** One question, and whether the caller has given up since. */
  method AskUnlessCancelled(env: Env, before: seq<Event>, e: Event) returns (go: bool, trace: seq<Event>)
    requires AsksToStop(e) && Answers(env, |before|, e)
    ensures Follows(env, before, trace, 0, 0, false) && |trace| == |before| + 2
    ensures trace[|before|] == e && trace[|before| + 1] == Cancelled(!go)
  {
    var cancelled := env.cancelled(|before| + 1);
    AskedOnce(env, before, e);
    trace := Then(before, e);
    ghost var asked := trace;
    AskedOnce(env, trace, Cancelled(cancelled));
    trace := Then(trace, Cancelled(cancelled));
    FollowsOn(env, before, asked, trace, 0, 0, false, 0, 0, false);
    go := !cancelled;
  }

  /** Ask the router and systemd to stop it. */
  method AskToStop(env: Env, before: seq<Event>) returns (go: bool, shutdown: bool, manager: Manager, trace: seq<Event>)
    requires NobodyAsked(before)
    ensures Follows(env, before, trace, 0, 0, false)
    ensures |trace| > |before| && trace[|before|] == ShutdownAsked(shutdown)
    ensures if go then Told(trace, shutdown, manager) && !Objected(trace, |before|) else HeldUp(trace)
    ensures go ==> (manager != NoUnit <==> env.hasService)
    ensures forall i :: |before| <= i < |trace| ==> !trace[i].Inspected?
    ensures !go ==> Obstructed(trace, |before|)
    ensures |trace| > |before| + 1 && trace[|before| + 1].Cancelled?
  {
    shutdown, manager := env.shutdown(|before|), NoUnit;
    go, trace := AskUnlessCancelled(env, before, ShutdownAsked(shutdown));
    if !go {
      assert Hinders(trace[|trace| - 1]) && Obstructs(trace[|trace| - 1]);
      return;
    }
    ToldByRouter(before, trace, shutdown);
    if env.hasService {
      ghost var asked := trace;
      var stopped := env.manager(|trace|);
      manager := Answered(stopped);
      go, trace := AskUnlessCancelled(env, trace, ManagerAsked(stopped));
      FollowsOn(env, before, asked, trace, 0, 0, false, 0, 0, false);
      if !go {
        assert Hinders(trace[|trace| - 1]) && Obstructs(trace[|trace| - 1]);
        return;
      }
      ToldByManager(asked, trace, |before|, shutdown, stopped);
    }
  }

  lemma ToldByRouter(before: seq<Event>, trace: seq<Event>, shutdown: bool)
    requires NobodyAsked(before) && before <= trace && |trace| == |before| + 2
    requires trace[|before|] == ShutdownAsked(shutdown) && trace[|before| + 1] == Cancelled(false)
    ensures Told(trace, shutdown, NoUnit) && !Objected(trace, |before|)
  {
    assert forall i :: 0 <= i < |before| ==> trace[i] == before[i];
  }

  lemma ToldByManager(before: seq<Event>, trace: seq<Event>, n: nat, shutdown: bool, stopped: bool)
    requires Told(before, shutdown, NoUnit) && before <= trace && n <= |before| && |trace| == |before| + 2
    requires trace[|before|] == ManagerAsked(stopped) && trace[|before| + 1] == Cancelled(false) && !Objected(before, n)
    ensures Told(trace, shutdown, Answered(stopped)) && !Objected(trace, n)
  {
    assert forall i :: 0 <= i < |before| ==> trace[i] == before[i];
  }

  /** That a record is older than the last boot counts only if no router answers. */
  method TrustStale(env: Env, before: seq<Event>, stale: bool, shutdown: bool) returns (ok: bool, trace: seq<Event>)
    ensures Continues(env, before, trace, 0, 0, false)
    ensures ok ==> (stale ==> !shutdown && HealthAsked(false) in trace) && !Objected(trace, |before|)
    ensures !ok ==> stale && (shutdown || HealthAsked(true) in trace)
  {
    ok, trace := true, before;
    if stale {
      if shutdown {
        return false, trace;
      }
      var health := env.health(|trace|);
      trace := Ask(env, trace, HealthAsked(health));
      assert trace[|before|] == HealthAsked(health);
      ok := !health;
    }
  }

  /** Remove the record, if there is one. */
  method RemoveIfNamed(env: Env, before: seq<Event>, record: Record) returns (ok: bool, trace: seq<Event>)
    requires record != BadRecord
    ensures Continues(env, before, trace, 0, 0, true) && !Objected(trace, |before|)
    ensures if record.Names? then RemovesFor(before, trace, record.pid, ok) else trace == before && ok
    ensures if ok then record.Names? ==> RecordGone(trace, record.pid) else Hindered(trace, |before|)
  {
    ok, trace := true, before;
    if record.Names? {
      ok, trace := RemovePidRecordIf(env, before, record.pid);
    }
  }

  /** The recorded process was not the router: only answers are left to go by. */
  method WithoutProcess(env: Env, before: seq<Event>, record: Record, stale: bool, shutdown: bool, manager: Manager)
    returns (outcome: Outcome, trace: seq<Event>, facts: Option<Facts>)
    requires record != BadRecord && (stale ==> HeldUp(before)) && |before| > FIRST_INSPECTION
    ensures Continues(env, before, trace, 0, 0, true)
    ensures if record.Names? then RemovesFor(before, trace, record.pid, facts.Some?)
            else forall i :: |before| <= i < |trace| ==> !trace[i].RemovalTried?
    ensures facts.None? ==> outcome == Failed && HeldUp(trace)
    ensures facts.Some? ==> outcome == Verdict(facts.value) && !facts.value.matched
                            && facts.value.shutdown == shutdown && facts.value.manager == manager
                            && (record.Names? ==> RecordGone(trace, record.pid))
                            && (Objected(trace, |before|) <==> facts.value.health || facts.value.cancelled)
    ensures outcome == NotRunning ==> HealthAsked(false) in trace
    ensures facts.Some? && stale ==> !shutdown && HealthAsked(false) in trace
  {
    var ok;
    ok, trace := TrustStale(env, before, stale, shutdown);
    if !ok {
      StaysHeldUp(before, trace);
      return Failed, trace, None;
    }
    ghost var checked := trace;
    ok, trace := RemoveIfNamed(env, trace, record);
    ContinuesOn(env, before, checked, trace, 0, 0, false, 0, 0, true);
    ghost var removed := trace;
    if !ok {
      HinderedIsHeldUp(trace, |checked|);
      return Failed, trace, None;
    }
    ObjectedLater(checked, trace, |before|);
    outcome, trace, facts := Conclude(env, trace, shutdown, manager);
    ContinuesOn(env, before, removed, trace, 0, 0, true, 0, 0, false);
    ObjectedLater(removed, trace, |before|);
    StillGone(removed, trace, record);
  }

  /** withoutRouterProcess. */
  method Conclude(env: Env, before: seq<Event>, shutdown: bool, manager: Manager)
    returns (outcome: Outcome, trace: seq<Event>, facts: Option<Facts>)
    ensures Continues(env, before, trace, 0, 0, false)
    ensures facts.Some? && outcome == Verdict(facts.value) && !facts.value.matched
            && facts.value.shutdown == shutdown && facts.value.manager == manager
    ensures Objected(trace, |before|) <==> facts.value.health || facts.value.cancelled
    ensures outcome == NotRunning ==> HealthAsked(false) in trace
  {
    trace := before;
    if manager != NoUnit || shutdown {
      var known := Facts(false, manager, shutdown, false, false);
      return Verdict(known), trace, Some(known);
    }
    var health := env.health(|trace|);
    trace := Ask(env, trace, HealthAsked(health));
    assert trace[|before|] == HealthAsked(health);
    var cancelled := false;
    if !health {
      ghost var asked := trace;
      cancelled := env.cancelled(|trace|);
      trace := Ask(env, trace, Cancelled(cancelled));
      assert trace[|asked|] == Cancelled(cancelled);
      ContinuesOn(env, before, asked, trace, 0, 0, false, 0, 0, false);
    }
    var all := Facts(false, manager, shutdown, health, cancelled);
    return Verdict(all), trace, Some(all);
  }

  lemma StillGone(before: seq<Event>, trace: seq<Event>, record: Record)
    requires before <= trace && (record.Names? ==> RecordGone(before, record.pid))
    ensures record.Names? ==> RecordGone(trace, record.pid)
  {
    if record.Names? {
      var i :| 0 <= i < |before| && before[i].RemovalTried? && before[i].pid == record.pid && before[i].ok
               && (before[i].found == NoRecord || before[i].found == Names(record.pid));
      assert trace[i] == before[i];
    }
  }

  lemma StillSeenGone(before: seq<Event>, trace: seq<Event>, n: nat)
    requires SeenGone(before, n) && before <= trace
    ensures SeenGone(trace, n)
  {
    var i :| n <= i < |before| && before[i].Inspected? && Gone(before[i].state);
    assert trace[i] == before[i];
  }

  /** See the router's process leave: by itself if it or systemd was told to stop it, else
      or after too long a wait on a signal. */
  method AwaitExit(env: Env, before: seq<Event>, shutdown: bool, manager: Manager)
    returns (gone: bool, trace: seq<Event>)
    ensures Continues(env, before, trace, 1, 90, false)
    ensures if gone then SeenGone(trace, |before|) else Hindered(trace, |before|) && !SeenGone(trace, |before|)
  {
    trace := before;
    gone := false;
    if shutdown || manager == UnitStopped {
      var failed;
      gone, failed, trace := WaitForRouterExit(env, trace, GRACEFUL_WAIT);
      if failed {
        return false, trace;
      }
    }
    if !gone {
      ghost var waited := trace;
      gone, trace := TerminateRouterProcess(env, trace);
      ContinuesOn(env, before, waited, trace, 0, 40, false, 1, 50, false);
    }
  }

  /** The recorded process was the router: it must be seen to leave. */
  method WithProcess(env: Env, before: seq<Event>, pid: nat, shutdown: bool, manager: Manager)
    returns (outcome: Outcome, trace: seq<Event>, facts: Option<Facts>)
    requires |before| > FIRST_INSPECTION
    ensures Continues(env, before, trace, 1, 90, true) && RemovesFor(before, trace, pid, facts.Some?)
    ensures facts.None? ==> outcome == Failed && HeldUp(trace)
    ensures facts.Some? ==> outcome == Verdict(facts.value) && facts.value.matched && facts.value.manager == manager
                            && facts.value.shutdown == shutdown && RecordGone(trace, pid) && SeenGone(trace, |before|)
    ensures facts.None? ==> !SeenGone(trace, |before|) || Obstructed(trace, |before|)
  {
    var gone, ok;
    gone, trace := AwaitExit(env, before, shutdown, manager);
    if !gone {
      HinderedIsHeldUp(trace, |before|);
      return Failed, trace, None;
    }
    ghost var left := trace;
    var cancelled := env.cancelled(|trace|);
    trace := Ask(env, trace, Cancelled(cancelled));
    ContinuesOn(env, before, left, trace, 1, 90, false, 0, 0, false);
    if cancelled {
      assert Hinders(trace[|left|]) && Obstructs(trace[|left|]);
      HinderedIsHeldUp(trace, |left|);
      return Failed, trace, None;
    }
    ghost var asked := trace;
    ok, trace := RemovePidRecordIf(env, trace, pid);
    ContinuesOn(env, before, asked, trace, 1, 90, false, 0, 0, true);
    StillSeenGone(left, trace, |before|);
    if !ok {
      assert Obstructs(trace[|asked|]);
      HinderedIsHeldUp(trace, |asked|);
      return Failed, trace, None;
    }
    var known := Facts(true, manager, shutdown, false, false);
    return Verdict(known), trace, Some(known);
  }

  /** Whatever the environment answers: at most one signal is sent, right after an
      inspection that found the router; at most 90 polls are made; and the router is
      reported stopped only if systemd stopped it, or its process was found to be the
      router and then to be gone. facts: what was known once the PID record was out of
      the way; without it the call has failed, because of an answer that stood in the
      way, and has left the record in place. A call that has removed the record still
      fails on the answers of FailsLate, and on no others. A router that was found running
      and is then seen to leave is reported stopped, unless systemd failed, the caller gave
      up or the record could not be dealt with. A record is taken for stale only if no
      router takes the request to stop or answers. */
  method StopInstalledRouter(env: Env)
    returns (outcome: Outcome, trace: seq<Event>, facts: Option<Facts>, record: Record)
    ensures AnsweredBy(env, trace) && Signals(trace) <= 1 && SignalsAreJustified(trace) && Polls(trace) <= 90
    ensures RemovesOnly(trace, record)
    ensures facts.None? ==> outcome == Failed && HeldUp(trace) && !RecordRemoved(trace)
    ensures facts.Some? ==> outcome == Verdict(facts.value) && ReadRecord(record) in trace
                            && (record.Names? ==> RecordGone(trace, record.pid))
                            && Told(trace, facts.value.shutdown, facts.value.manager)
                            && (facts.value.manager != NoUnit <==> env.hasService)
                            && (facts.value.matched ==> record.Names? && SeenLeaving(trace))
    ensures facts.Some? || RecordRemoved(trace) ==> (outcome == Failed <==> FailsLate(trace))
    ensures outcome == Stopped ==> ManagerAsked(false) !in trace && (ManagerAsked(true) in trace || SeenLeaving(trace))
    ensures outcome == NotRunning ==> ShutdownAsked(false) in trace && HealthAsked(false) in trace
                                      && ManagerAsked(true) !in trace && !FoundRunning(trace)
    ensures (FoundRunning(trace) && SeenGone(trace, FIRST_INSPECTION + 1) && !Obstructed(trace, 0)
             && ManagerAsked(false) !in trace) ==> outcome == Stopped
    ensures FoundStale(trace) && (facts.Some? || RecordRemoved(trace)) ==>
              ShutdownAsked(true) !in trace && HealthAsked(false) in trace
  {
    var go, state, stale, shutdown, manager;
    go, record, state, stale, trace := LookFirst(env);
    facts := None;
    if !go {
      return Failed, trace, facts, record;
    }
    ghost var looked := trace;
    go, shutdown, manager, trace := AskToStop(env, trace);
    ghost var asked := trace;
    if !go {
      return Failed, trace, facts, record;
    }
    if stale {
      StaysHeldUp(looked, asked);
    }
    if state != Matched {
      outcome, trace, facts := WithoutProcess(env, trace, record, stale, shutdown, manager);
    } else {
      outcome, trace, facts := WithProcess(env, trace, record.pid, shutdown, manager);
    }
    StillTold(asked, trace, shutdown, manager);
    Ending(looked, asked, trace, state == Matched, record);
    FoundRunningAtOnce(looked, asked, trace, state == Matched);
    RemovalsComeLast(asked, trace, record, facts.Some?);
    FoundStaleAtOnce(looked, asked, trace, stale);
    if state == Matched {
      SeenGoneLater(looked, asked, trace);
    }
    if facts.Some? {
      ObjectedLater(asked, trace, 0);
      FailsLateExactly(trace, facts.value);
    }
  }

  lemma Ending(looked: seq<Event>, asked: seq<Event>, trace: seq<Event>, matched: bool, record: Record)
    requires looked <= asked <= trace && |looked| >= FIRST_INSPECTION && looked[1] == ReadRecord(record)
    requires matched ==> looked[|looked| - 1] == Inspected(Matched)
    ensures ReadRecord(record) in trace
    ensures matched && SeenGone(trace, |asked|) ==> SeenLeaving(trace)
  {
    assert trace[1] == looked[1];
    if matched && SeenGone(trace, |asked|) {
      var k := |looked| - 1;
      assert trace[k] == looked[k];
      var g :| |asked| <= g < |trace| && trace[g].Inspected? && Gone(trace[g].state);
      assert SeenGone(trace, k + 1);
    }
  }

  /** The first inspection decides which way the call goes. */
  lemma FoundRunningAtOnce(looked: seq<Event>, asked: seq<Event>, trace: seq<Event>, matched: bool)
    requires looked <= asked <= trace && |asked| > |looked| >= FIRST_INSPECTION && asked[|looked|].ShutdownAsked?
    requires if |looked| == FIRST_INSPECTION then !matched else matched <==> FoundRunning(looked)
    ensures FoundRunning(trace) <==> matched
  {
    assert trace[FIRST_INSPECTION] == asked[FIRST_INSPECTION];
    if |looked| > FIRST_INSPECTION {
      assert asked[FIRST_INSPECTION] == looked[FIRST_INSPECTION];
    }
  }

  lemma FoundStaleAtOnce(looked: seq<Event>, asked: seq<Event>, trace: seq<Event>, stale: bool)
    requires looked <= asked <= trace && |asked| > |looked| + 1 && |looked| >= FIRST_INSPECTION
    requires asked[|looked|].ShutdownAsked? && asked[|looked| + 1].Cancelled?
    requires if stale then |looked| == 4 && looked[3] == BootChecked(true) else |looked| <= 3
    ensures FoundStale(trace) <==> stale
  {
    assert trace[3] == asked[3];
    if stale {
      assert asked[3] == looked[3];
    }
  }

  lemma SeenGoneLater(looked: seq<Event>, asked: seq<Event>, trace: seq<Event>)
    requires looked <= asked <= trace && forall i :: |looked| <= i < |asked| ==> !asked[i].Inspected?
    ensures SeenGone(trace, |looked|) ==> SeenGone(trace, |asked|)
  {
    assert forall i :: 0 <= i < |asked| ==> trace[i] == asked[i];
  }

  lemma ObjectedLater(asked: seq<Event>, trace: seq<Event>, n: nat)
    requires asked <= trace && !Objected(asked, n) && n <= |asked|
    ensures Objected(trace, n) <==> Objected(trace, |asked|)
  {
    assert forall i :: 0 <= i < |asked| ==> trace[i] == asked[i];
  }

  lemma RemovalsComeLast(asked: seq<Event>, trace: seq<Event>, record: Record, done: bool)
    requires asked <= trace && |asked| > 1 && asked[1] == ReadRecord(record)
    requires forall i :: 0 <= i < |asked| ==> !asked[i].RemovalTried?
    requires if record.Names? then RemovesFor(asked, trace, record.pid, done)
             else forall i :: |asked| <= i < |trace| ==> !trace[i].RemovalTried?
    ensures RemovesOnly(trace, record) && (!done ==> !RecordRemoved(trace))
  {
    forall i | 0 <= i < |trace| && trace[i].RemovalTried?
      ensures i > 1 && trace[1] == ReadRecord(record) && record == Names(trace[i].pid) && (!done ==> !trace[i].ok)
    {
      if i < |asked| {
        assert false;
      }
    }
  }

  /** What the facts say of a call that knows them is what its trace says. */
  lemma FailsLateExactly(trace: seq<Event>, facts: Facts)
    requires Told(trace, facts.shutdown, facts.manager) && (facts.matched <==> FoundRunning(trace))
    requires !facts.matched ==> (Objected(trace, 0) <==> facts.health || facts.cancelled)
    ensures Verdict(facts) == Failed <==> FailsLate(trace)
    ensures Verdict(facts) == Stopped ==>
            ManagerAsked(false) !in trace && (ManagerAsked(true) in trace || facts.matched)
    ensures Verdict(facts) == NotRunning ==>
            ShutdownAsked(false) in trace && ManagerAsked(true) !in trace && !facts.matched
  {
    var s :| 0 <= s < |trace| && trace[s].ShutdownAsked?;
    assert trace[s] == ShutdownAsked(facts.shutdown);
    assert facts.shutdown <==> ShutdownAsked(true) in trace;
    assert facts.manager == UnitFailed <==> ManagerAsked(false) in trace;
    assert facts.manager == UnitStopped <==> ManagerAsked(true) in trace;
  }

  // ------------------------------------------------------------ two calls that fail and lose the record

  /** The router runs, takes the request and leaves; systemd answers as given. */
  function LeavingRouter(hasService: bool, stopped: bool, runs: bool): Env {
    Env(cancelled := _ => false, record := _ => Names(7),
        inspect := (n: nat) => if runs && n == FIRST_INSPECTION then Matched else Absent, predates := _ => false,
        shutdown := _ => true, hasService := hasService, manager := _ => stopped, health := _ => false,
        sleep := _ => true, signal := _ => true, lock := _ => true, remove := _ => true)
  }

  /** Nothing holds up a call on it, and the record names the process till it is removed. */
  lemma LeavesAtOnce(env: Env, trace: seq<Event>, record: Record, hasService: bool, stopped: bool, runs: bool)
    requires env == LeavingRouter(hasService, stopped, runs)
    requires AnsweredBy(env, trace) && RemovesOnly(trace, record)
    ensures !HeldUp(trace)
    ensures ReadRecord(record) in trace && (record.Names? ==> RecordGone(trace, record.pid)) ==> RecordRemoved(trace)
  {
    forall i | 0 <= i < |trace| && trace[i].RemovalTried? ensures trace[i].ok && Removes(trace[i]) {
      assert Answers(env, i, trace[i]) && Answers(env, 1, trace[1]);
    }
    if ReadRecord(record) in trace {
      var k :| 0 <= k < |trace| && trace[k] == ReadRecord(record);
      assert Answers(env, k, trace[k]);
    }
  }

  /** The comment on stopInstalledRouter promises that an error leaves the PID record in
      place. Here systemd cannot stop its unit although the router has left. */
  method RecordIsLostWithUnit() returns (outcome: Outcome, trace: seq<Event>)
    ensures outcome == Failed && RecordRemoved(trace) && AnsweredBy(LeavingRouter(true, false, true), trace)
  {
    var env := LeavingRouter(true, false, true);
    var facts, record;
    outcome, trace, facts, record := StopInstalledRouter(env);
    LeavesAtOnce(env, trace, record, env.hasService, false, true);
  }

  /** And here the router has left before the call, but the request to stop is taken
      all the same. */
  method RecordIsLostWithoutProcess() returns (outcome: Outcome, trace: seq<Event>)
    ensures outcome == Failed && RecordRemoved(trace) && AnsweredBy(LeavingRouter(false, false, false), trace)
  {
    var env := LeavingRouter(false, false, false);
    var facts, record;
    outcome, trace, facts, record := StopInstalledRouter(env);
    LeavesAtOnce(env, trace, record, env.hasService, false, false);
  }
}
