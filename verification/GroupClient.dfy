/** runPlannedGroup of internal/app/group.go and runPlannedSingle of
    internal/app/planned.go themselves: which calls they make on every path, and that
    whatever the store and its other clients do, those calls leave nothing behind. */
module GroupClient {
  import opened Common
  import opened Routes
  import opened RouteRuns
  import opened GroupRun
  import opened GroupProtocol
  import opened GroupOthers

  type Answer = Result<seq<Reserved>, StoreError>

  /** A call of the run to the router, with what became of it. asked: for how many routes. */
  datatype Call =
    | ToReserve(asked: nat, delivery: Delivery, answer: Answer)
    | ToActivate(delivery: Delivery, accepted: bool)
    | ToRenew(ref: RouteRef)
    | ToRelease(delivery: Delivery)
    | ToDelete(ref: RouteRef, delivery: Delivery)

  /** Where the run stands after a call; None: the protocol has no such call now. A run
      that is held or running may go over to cleaning up at any time. */
  function Follow(c: Client, call: Call): Option<Client> {
    match call
    case ToReserve(asked, delivery, answer) =>
      if !c.Starting? then None
      else if delivery == Unreached || answer.Err? then Some(Ended(false, false))
      else if delivery == ReplyLost then Some(Ended(true, false))
      else Some(Held(PendingRefs(answer.value)))
    case ToActivate(delivery, accepted) =>
      if !c.Held? then None
      else if delivery == Answered && accepted then Some(Running(c.refs))
      else Some(Failing(c.refs))
    case ToRenew(ref) => if c.Running? && ref in c.refs then Some(c) else None
    case ToRelease(delivery) =>
      if !(c.Held? || c.Failing?) || c.refs == [] then None else Some(Ended(false, delivery == Unreached))
    case ToDelete(ref, delivery) =>
      if !(c.Running? || c.Deleting?) || c.refs == [] || c.refs[0] != ref then None
      else Some(Deleting(c.refs[1..], (c.Deleting? && c.missed) || delivery == Unreached))
  }

  function FollowAll(calls: seq<Call>): Option<Client> {
    if calls == [] then Some(Starting)
    else
      var before := FollowAll(calls[..|calls| - 1]);
      if before.None? then None else Follow(before.value, calls[|calls| - 1])
  }

  function Called(calls: seq<Call>, call: Call): (more: seq<Call>)
    ensures more == calls + [call]
    ensures FollowAll(more) == if FollowAll(calls).None? then None else Follow(FollowAll(calls).value, call)
  {
    assert (calls + [call])[..|calls|] == calls;
    calls + [call]
  }

  /** There is nothing to clean up, or no longer. */
  predicate CleanEnd(c: Client) {
    c.Starting? || c.Ended? || c.refs == []
  }

  // ------------------------------------------------------------ the calls of a run of the protocol

  /** The call that an event of the protocol is. */
  ghost function CallOf(p: Platform, s: State, e: Event, runId: Text): Option<Call>
    requires Enabled(s, e, runId)
  {
    match e
    case Reserve(op, now, delivery) =>
      var r := Routes.Reserve(p, s.routes, op.request, now, op.ids, op.shares);
      Some(ToReserve(|op.request.routes|, delivery, if r.Ok? then Ok(r.value.1) else Err(r.error)))
    case Activate(ttl, now, delivery) =>
      Some(ToActivate(delivery, Routes.Activate(s.routes, runId, s.client.refs, now, ttl).Ok?))
    case Renew(ref, ttl, now, delivery) => Some(ToRenew(ref))
    case Release(now, delivery) => if s.client.refs == [] then None else Some(ToRelease(delivery))
    case Delete(now, delivery) => if s.client.refs == [] then None else Some(ToDelete(s.client.refs[0], delivery))
    case _ => None
  }

  /** The calls among the first n events. */
  ghost function CallsOf(p: Platform, states: seq<State>, events: seq<Event>, runId: Text, n: nat): seq<Call>
    requires IsGroupRun(p, states, events, runId) && n <= |events|
  {
    if n == 0 then []
    else
      var before := CallsOf(p, states, events, runId, n - 1);
      assert IsStep(p, states, events, runId, n - 1);
      var call := CallOf(p, states[n - 1], events[n - 1], runId);
      if call.None? then before else Called(before, call.value)
  }

  /** The run of the protocol is as far as its calls, or has gone over to cleaning up, or
      has found nothing to clean up. */
  predicate Stands(c: Client, d: Client) {
    || d == c
    || (c.Held? && d == Failing(c.refs))
    || (c.Running? && d == Deleting(c.refs, false))
    || ((c.Held? || c.Failing?) && c.refs == [] && d == Ended(false, false))
    || ((c.Running? || c.Deleting?) && c.refs == [] && d == Ended(false, c.Deleting? && c.missed))
  }

  lemma CallsAreSteps(p: Platform, s: State, e: Event, runId: Text, c: Client)
    requires Enabled(s, e, runId) && Stands(c, s.client)
    ensures var call := CallOf(p, s, e, runId);
            if call.None? then Stands(c, Apply(p, s, e, runId).client)
            else Follow(c, call.value).Some? && Stands(Follow(c, call.value).value, Apply(p, s, e, runId).client)
  {
  }

  /** Following the calls of a run of the protocol leads to where it stands. */
  lemma {:induction false} CallsAreFollowed(p: Platform, states: seq<State>, events: seq<Event>, runId: Text, n: nat)
    requires IsGroupRun(p, states, events, runId) && n <= |events|
    ensures FollowAll(CallsOf(p, states, events, runId, n)).Some?
    ensures Stands(FollowAll(CallsOf(p, states, events, runId, n)).value, states[n].client)
  {
    if n > 0 {
      CallsAreFollowed(p, states, events, runId, n - 1);
      var k := n - 1;
      assert IsStep(p, states, events, runId, k);
      CallsAreSteps(p, states[k], events[k], runId, FollowAll(CallsOf(p, states, events, runId, k)).value);
    }
  }

  /** The router answers a reservation with as many routes as it was asked for. */
  predicate Complete(call: Call) {
    call.ToReserve? && call.answer.Ok? ==> |call.answer.value| == call.asked
  }

  lemma ReservedAsAsked(p: Platform, s: State, e: Event, runId: Text)
    requires Enabled(s, e, runId) && CallOf(p, s, e, runId).Some?
    ensures Complete(CallOf(p, s, e, runId).value)
  {
    if e.Reserve? {
      var op := e.op;
      var r := Routes.Reserve(p, s.routes, op.request, e.now, op.ids, op.shares);
      if r.Ok? {
        ReservesAsMany(p, s.routes, op, e.now, r.value.0, r.value.1);
      }
    }
  }

  lemma ReservesAsMany(p: Platform, routes: seq<Route>, op: Op, now: Time, after: seq<Route>, reserved: seq<Reserved>)
    requires op.ReserveOp? && WellFormed(op)
    requires Routes.Reserve(p, routes, op.request, now, op.ids, op.shares) == Ok((after, reserved))
    ensures |reserved| == |op.request.routes|
  {
    var expiry := now + op.request.ttl;
    var cs, made := ReserveBuilds(p, routes, op.request, now, op.ids, op.shares, after, reserved, expiry);
    var kept, created := ReserveIsExact(p, RemoveExpired(SortRoutes(routes), now), cs, op.request.runId, expiry,
                                        op.ids, op.shares, made);
  }

  lemma {:induction false} CallsAreComplete(p: Platform, states: seq<State>, events: seq<Event>, runId: Text, n: nat)
    requires IsGroupRun(p, states, events, runId) && n <= |events|
    ensures forall call :: call in CallsOf(p, states, events, runId, n) ==> Complete(call)
  {
    if n > 0 {
      CallsAreComplete(p, states, events, runId, n - 1);
      var k := n - 1;
      assert IsStep(p, states, events, runId, k);
      if CallOf(p, states[k], events[k], runId).Some? {
        ReservedAsAsked(p, states[k], events[k], runId);
      }
    }
  }

  // ------------------------------------------------------------ calls that leave nothing behind

  /** Not a reservation with a lost answer, nor a clean-up call that was not carried out. */
  predicate Reached(call: Call) {
    && (call.ToReserve? ==> call.delivery != ReplyLost || call.answer.Err?)
    && (call.ToRelease? || call.ToDelete? ==> call.delivery != Unreached)
  }

  predicate NoneMissed(calls: seq<Call>) {
    forall i :: 0 <= i < |calls| ==> Reached(calls[i])
  }

  lemma {:induction false} NotMissed(calls: seq<Call>)
    requires FollowAll(calls).Some? && NoneMissed(calls)
    ensures var c := FollowAll(calls).value;
            (c.Ended? ==> c == Ended(false, false)) && (c.Deleting? ==> !c.missed)
  {
    if calls != [] {
      assert Reached(calls[|calls| - 1]);
      NotMissed(calls[..|calls| - 1]);
    }
  }

  lemma EndedIsEmpty(s: State, c: Client, runId: Text)
    requires Inv(s, runId) && Stands(c, s.client) && CleanEnd(c)
    requires (c.Ended? ==> c == Ended(false, false)) && (c.Deleting? ==> !c.missed)
    ensures NoneOf(s.routes, runId)
  {
  }

  lemma CleanRunLeavesNothing(p: Platform, states: seq<State>, events: seq<Event>, runId: Text, calls: seq<Call>)
    requires IsGroupRun(p, states, events, runId) && CallsOf(p, states, events, runId, |events|) == calls
    requires NoneMissed(calls) && (FollowAll(calls).Some? ==> CleanEnd(FollowAll(calls).value))
    ensures NoneOf(states[|events|].routes, runId)
  {
    CallsAreFollowed(p, states, events, runId, |events|);
    NotMissed(calls);
    RunKeepsInv(p, states, events, runId, |events|);
    EndedIsEmpty(states[|events|], FollowAll(calls).value, runId);
  }

  /** Calls of the protocol that end clean leave nothing behind: however they are
      interleaved with what other clients do, once they have been made none of the run's
      routes is in the store, if none of them was lost or missed. */
  lemma CleanLeavesNothing(calls: seq<Call>)
    requires FollowAll(calls).Some? && CleanEnd(FollowAll(calls).value)
    ensures forall p: Platform, states: seq<State>, events: seq<Event>, runId: Text ::
              IsGroupRun(p, states, events, runId) && CallsOf(p, states, events, runId, |events|) == calls
                  && NoneMissed(calls) ==>
                NoneOf(states[|events|].routes, runId)
  {
    forall p: Platform, states: seq<State>, events: seq<Event>, runId: Text
      | IsGroupRun(p, states, events, runId) && CallsOf(p, states, events, runId, |events|) == calls
          && NoneMissed(calls)
      ensures NoneOf(states[|events|].routes, runId)
    {
      CleanRunLeavesNothing(p, states, events, runId, calls);
    }
  }

  /** No run of the protocol makes a reservation answered with another number of routes. */
  lemma IncompleteNeverHappens(calls: seq<Call>, call: Call)
    requires call in calls && !Complete(call)
    ensures forall p: Platform, states: seq<State>, events: seq<Event>, runId: Text ::
              IsGroupRun(p, states, events, runId) ==> CallsOf(p, states, events, runId, |events|) != calls
  {
    forall p: Platform, states: seq<State>, events: seq<Event>, runId: Text | IsGroupRun(p, states, events, runId)
      ensures CallsOf(p, states, events, runId, |events|) != calls
    {
      CallsAreComplete(p, states, events, runId, |events|);
    }
  }

  /** Whatever calls a run makes, it leaves the routes of others and those it reuses as
      they are, if no service is to be shared on the LAN. */
  lemma CallsLeaveOthers(calls: seq<Call>)
    ensures forall p: Platform, states: seq<State>, events: seq<Event>, runId: Text ::
              IsGroupRun(p, states, events, runId) && CallsOf(p, states, events, runId, |events|) == calls
              && AllDrawNew(states, events) && AllUnshared(events) ==>
                LeavesOthers(p, states, events, runId) && ReusedStay(p, states, events, runId)
  {
    forall p: Platform, states: seq<State>, events: seq<Event>, runId: Text
      | IsGroupRun(p, states, events, runId) && AllDrawNew(states, events) && AllUnshared(events)
      ensures LeavesOthers(p, states, events, runId) && ReusedStay(p, states, events, runId)
    {
      RunLeavesOthers(p, states, events, runId);
      RunLeavesReused(p, states, events, runId);
    }
  }

  // ------------------------------------------------------------ what both kinds of run do

  /** On every tick a renewal of each route. */
  ghost function Renewals(refs: seq<RouteRef>, ticks: nat): seq<Call> {
    if ticks == 0 then []
    else Renewals(refs, ticks - 1) + seq(|refs|, i requires 0 <= i < |refs| => ToRenew(refs[i]))
  }

  ghost function Deletions(refs: seq<RouteRef>, delete: nat -> Delivery): seq<Call> {
    seq(|refs|, i requires 0 <= i < |refs| => ToDelete(refs[i], delete(i)))
  }

  /** One tick renews each route. */
  method RenewEach(before: seq<Call>, refs: seq<RouteRef>) returns (calls: seq<Call>)
    requires FollowAll(before) == Some(Running(refs))
    ensures FollowAll(calls) == Some(Running(refs))
    ensures calls == before + seq(|refs|, i requires 0 <= i < |refs| => ToRenew(refs[i]))
  {
    ghost var all := seq(|refs|, i requires 0 <= i < |refs| => ToRenew(refs[i]));
    calls := before;
    for k := 0 to |refs|
      invariant FollowAll(calls) == Some(Running(refs)) && calls == before + all[..k]
    {
      calls := Called(calls, ToRenew(refs[k]));
    }
    assert all[..|refs|] == all;
  }

  /** startReservationLease: the routes are renewed on each tick. */
  method RenewLease(ticks: nat, before: seq<Call>, refs: seq<RouteRef>) returns (calls: seq<Call>)
    requires FollowAll(before) == Some(Running(refs))
    ensures FollowAll(calls) == Some(Running(refs)) && calls == before + Renewals(refs, ticks)
  {
    calls := before;
    for tick := 0 to ticks
      invariant FollowAll(calls) == Some(Running(refs)) && calls == before + Renewals(refs, tick)
    {
      calls := RenewEach(calls, refs);
    }
  }

  /** One of the first n deletions was not carried out. */
  function Missed(delete: nat -> Delivery, n: nat): bool {
    n > 0 && (Missed(delete, n - 1) || delete(n - 1) == Unreached)
  }

  /** Where the run stands after n of its routes were deleted. */
  function AfterDeletes(delete: nat -> Delivery, refs: seq<RouteRef>, n: nat): Client
    requires n <= |refs|
  {
    if n == 0 then Running(refs) else Deleting(refs[n..], Missed(delete, n))
  }

  lemma NextDelete(delete: nat -> Delivery, refs: seq<RouteRef>, n: nat)
    requires n < |refs|
    ensures Follow(AfterDeletes(delete, refs, n), ToDelete(refs[n], delete(n)))
            == Some(AfterDeletes(delete, refs, n + 1))
  {
    if n == 0 {
      assert !Missed(delete, 0) && Missed(delete, 1) == (delete(0) == Unreached);
      assert Follow(Running(refs), ToDelete(refs[0], delete(0))) == Some(Deleting(refs[1..], delete(0) == Unreached));
    } else {
      assert refs[n..][0] == refs[n] && refs[n..][1..] == refs[n + 1..];
    }
  }

  /** deleteRouteRefs: one call per route, whatever becomes of the others. */
  method DeleteRouteRefs(delete: nat -> Delivery, before: seq<Call>, refs: seq<RouteRef>) returns (calls: seq<Call>)
    requires FollowAll(before) == Some(Running(refs)) && refs != []
    ensures FollowAll(calls) == Some(Deleting([], Missed(delete, |refs|)))
    ensures calls == before + Deletions(refs, delete)
  {
    calls := before;
    for k := 0 to |refs|
      invariant FollowAll(calls) == Some(AfterDeletes(delete, refs, k))
      invariant calls == before + Deletions(refs, delete)[..k]
    {
      NextDelete(delete, refs, k);
      calls := Called(calls, ToDelete(refs[k], delete(k)));
    }
    assert refs[|refs|..] == [];
  }

  /** What becomes of the clean-up calls. */
  datatype CleanUps = CleanUps(release: Delivery, delete: nat -> Delivery)

  /** The deferred release: nothing if there is nothing to release or it has been done;
      one call for each route once they are active, one for all of them before. */
  method CleanUp(env: CleanUps, before: seq<Call>, refs: seq<RouteRef>, activated: bool, released: bool)
    returns (calls: seq<Call>)
    requires !released && FollowAll(before).Some?
    requires var c := FollowAll(before).value;
             if activated then c == Running(refs) else c == Held(refs) || c == Failing(refs)
    ensures FollowAll(calls).Some? && CleanEnd(FollowAll(calls).value)
    ensures calls == before + if refs == [] then [] else if activated then Deletions(refs, env.delete)
            else [ToRelease(env.release)]
  {
    calls := before;
    if released || refs == [] {
      return;
    }
    if activated {
      calls := DeleteRouteRefs(env.delete, calls, refs);
    } else {
      calls := Called(calls, ToRelease(env.release));
    }
  }

  // ------------------------------------------------------------ a group

  /** What everything else does: the answers of the router, and which of the steps on the
      way succeed. planned: those before the reservation. */
  datatype Env = Env(
    planned: bool, reserve: (Delivery, Answer), resolved: nat -> bool, launched: nat -> bool,
    ready: nat -> bool, probed: nat -> bool, activate: (Delivery, bool), ticks: nat, announced: nat -> bool,
    cleanUps: CleanUps)

  /** Every service is resolved and can be reached, and every one that is not reused has
      been launched and has become ready. */
  ghost predicate AllServe(env: Env, reserved: seq<Reserved>) {
    forall i :: 0 <= i < |reserved| ==>
      env.resolved(i) && env.probed(i) && (!reserved[i].reused ==> env.launched(i) && env.ready(i))
  }

  method StartServices(env: Env, reserved: seq<Reserved>) returns (ok: bool)
    ensures ok <==> AllServe(env, reserved)
  {
    var count := |reserved|;
    for i := 0 to count
      invariant forall k :: 0 <= k < i ==> env.resolved(k)
    {
      if !env.resolved(i) {
        return false;
      }
    }
    for i := 0 to count
      invariant forall k :: 0 <= k < i ==> reserved[k].reused || env.launched(k)
    {
      if !reserved[i].reused && !env.launched(i) {
        return false;
      }
    }
    var failed := false;
    for i := 0 to count
      invariant !failed <==> forall k :: 0 <= k < i ==> reserved[k].reused || env.ready(k)
    {
      if !reserved[i].reused && !env.ready(i) {
        failed := true;
      }
    }
    if failed {
      return false;
    }
    for i := 0 to count
      invariant !failed <==> forall k :: 0 <= k < i ==> env.probed(k)
    {
      if !env.probed(i) {
        failed := true;
      }
    }
    return !failed;
  }

  /** On every path the calls are those of the protocol, they end it, and so they leave
      nothing behind; the routes of others, reused ones included, they leave alone. */
  method RunPlannedGroup(env: Env, count: nat) returns (calls: seq<Call>)
    ensures FollowAll(calls).Some? && CleanEnd(FollowAll(calls).value)
    ensures forall p: Platform, states: seq<State>, events: seq<Event>, runId: Text ::
              IsGroupRun(p, states, events, runId) && CallsOf(p, states, events, runId, |events|) == calls
                  && NoneMissed(calls) ==>
                NoneOf(states[|events|].routes, runId)
    ensures forall p: Platform, states: seq<State>, events: seq<Event>, runId: Text ::
              IsGroupRun(p, states, events, runId) && CallsOf(p, states, events, runId, |events|) == calls
              && AllDrawNew(states, events) && AllUnshared(events) ==>
                LeavesOthers(p, states, events, runId) && ReusedStay(p, states, events, runId)
    ensures !env.planned ==> calls == []
    ensures env.planned && (env.reserve.0 != Answered || env.reserve.1.Err?) ==>
              calls == [ToReserve(count, env.reserve.0, env.reserve.1)]
    ensures env.planned && env.reserve.0 == Answered && env.reserve.1.Ok? ==>
              var reserved := env.reserve.1.value;
              var refs := PendingRefs(reserved);
              calls == [ToReserve(count, Answered, env.reserve.1)]
                + if |reserved| != count || !AllServe(env, reserved) || refs == [] then
                    if refs == [] then [] else [ToRelease(env.cleanUps.release)]
                  else
                    [ToActivate(env.activate.0, env.activate.1)]
                    + if env.activate != (Answered, true) then [ToRelease(env.cleanUps.release)]
                      else Renewals(refs, env.ticks) + Deletions(refs, env.cleanUps.delete)
  {
    calls := [];
    if env.planned {
      calls := ReserveAndRun(env, count);
    }
    CleanLeavesNothing(calls);
    CallsLeaveOthers(calls);
  }

  method ReserveAndRun(env: Env, count: nat) returns (calls: seq<Call>)
    ensures FollowAll(calls).Some? && CleanEnd(FollowAll(calls).value)
    ensures env.reserve.0 != Answered || env.reserve.1.Err? ==>
            calls == [ToReserve(count, env.reserve.0, env.reserve.1)]
    ensures env.reserve.0 == Answered && env.reserve.1.Ok? ==>
              var reserved := env.reserve.1.value;
              var refs := PendingRefs(reserved);
              calls == [ToReserve(count, Answered, env.reserve.1)]
                + if |reserved| != count || !AllServe(env, reserved) || refs == [] then
                    if refs == [] then [] else [ToRelease(env.cleanUps.release)]
                  else
                    [ToActivate(env.activate.0, env.activate.1)]
                    + if env.activate != (Answered, true) then [ToRelease(env.cleanUps.release)]
                      else Renewals(refs, env.ticks) + Deletions(refs, env.cleanUps.delete)
  {
    var (delivery, answer) := env.reserve;
    calls := Called([], ToReserve(count, delivery, answer));
    if delivery != Answered || answer.Err? {
      return;
    }
    var pendingRefs := PendingRefs(answer.value);
    var activated, released := false, false;
    var ok := |answer.value| == count;
    if ok {
      ok := StartServices(env, answer.value);
    }
    if ok && |pendingRefs| > 0 {
      calls := Called(calls, ToActivate(env.activate.0, env.activate.1));
      ok := env.activate.0 == Answered && env.activate.1;
      activated := ok;
    }
    if ok {
      if activated {
        calls := RenewLease(env.ticks, calls, pendingRefs);
      }
      for i := 0 to count {
        if !env.announced(i) {
          break;
        }
      }
    }
    calls := CleanUp(env.cleanUps, calls, pendingRefs, activated, released);
  }

  // ------------------------------------------------------------ a single service

  /** rollback: what becomes of the release of a reservation that cannot be resolved,
      which is called under the context of the run. started: the static server or the
      command runs, on the port reserved. */
  datatype SingleEnv = SingleEnv(
    planned: bool, reserve: (Delivery, Answer), resolved: bool, rollback: Delivery, started: bool, probed: bool,
    activate: (Delivery, bool), ticks: nat, cleanUps: CleanUps)

  /** On every path the calls leave nothing behind. They end the protocol unless the
      router answers with another number of routes than one, when the run returns
      without cleaning up; but it never answers so. */
  method RunPlannedSingle(env: SingleEnv) returns (calls: seq<Call>)
    ensures FollowAll(calls).Some?
    ensures CleanEnd(FollowAll(calls).value)
            || (calls == [ToReserve(1, env.reserve.0, env.reserve.1)] && !Complete(calls[0]))
    ensures forall p: Platform, states: seq<State>, events: seq<Event>, runId: Text ::
              IsGroupRun(p, states, events, runId) && CallsOf(p, states, events, runId, |events|) == calls
                  && NoneMissed(calls) ==>
                NoneOf(states[|events|].routes, runId)
    ensures !env.planned ==> calls == []
    ensures env.planned && (env.reserve.0 != Answered || env.reserve.1.Err? || |env.reserve.1.value| != 1) ==>
              calls == [ToReserve(1, env.reserve.0, env.reserve.1)]
    ensures env.planned && env.reserve.0 == Answered && env.reserve.1.Ok? && |env.reserve.1.value| == 1 ==>
              var refs := PendingRefs(env.reserve.1.value);
              var released := if refs == [] then []
                  else [ToRelease(if env.resolved then env.cleanUps.release else env.rollback)];
              calls == [ToReserve(1, Answered, env.reserve.1)]
                + if !env.resolved || env.reserve.1.value[0].reused || !env.started || !env.probed then released
                  else
                    [ToActivate(env.activate.0, env.activate.1)]
                    + if env.activate != (Answered, true) then released
                      else Renewals(refs, env.ticks) + Deletions(refs, env.cleanUps.delete)
  {
    calls := [];
    if !env.planned {
      CleanLeavesNothing(calls);
      return;
    }
    var (delivery, answer) := env.reserve;
    calls := Called(calls, ToReserve(1, delivery, answer));
    if delivery == Answered && answer.Ok? {
      if |answer.value| != 1 {
        IncompleteNeverHappens(calls, calls[0]);
        return;
      }
      var pendingRefs := PendingRefs(answer.value);
      if env.resolved {
        calls := ServeOne(env, calls, answer.value[0].reused, pendingRefs);
      } else if |pendingRefs| > 0 {
        calls := Called(calls, ToRelease(env.rollback));
      }
    }
    CleanLeavesNothing(calls);
  }

  /** A reused route is only announced; another is served, activated and announced.
      Whether it can be shared and announced makes no difference to the calls. */
  method ServeOne(env: SingleEnv, before: seq<Call>, reused: bool, pendingRefs: seq<RouteRef>)
    returns (calls: seq<Call>)
    requires FollowAll(before) == Some(Held(pendingRefs))
    ensures FollowAll(calls).Some? && CleanEnd(FollowAll(calls).value)
    ensures var released := if pendingRefs == [] then [] else [ToRelease(env.cleanUps.release)];
            calls == before
              + if reused || !env.started || !env.probed then released
                else
                  [ToActivate(env.activate.0, env.activate.1)]
                  + if env.activate != (Answered, true) then released
                    else Renewals(pendingRefs, env.ticks) + Deletions(pendingRefs, env.cleanUps.delete)
  {
    calls := before;
    var activated, released := false, false;
    if !reused && env.started && env.probed {
      calls := Called(calls, ToActivate(env.activate.0, env.activate.1));
      activated := env.activate.0 == Answered && env.activate.1;
      if activated {
        calls := RenewLease(env.ticks, calls, pendingRefs);
      }
    }
    calls := CleanUp(env.cleanUps, calls, pendingRefs, activated, released);
  }
}
