/** Which routes of a run are in the store at any moment: those its reservation created,
    but for the ones that a clean-up call or a sweep has taken away. */
module GroupLeftovers {
  import opened Common
  import opened Routes
  import opened RouteFacts
  import opened RouteRuns
  import opened RouteBatches
  import opened GroupRun
  import opened GroupProtocol
  import Hostnames

  // ------------------------------------------------------------ one step

  ghost predicate OwnExpired(routes: seq<Route>, ref: RouteRef, runId: Text, now: Time) {
    exists i :: 0 <= i < |routes| && routes[i].Ref() == ref && routes[i].runId == runId && Expired(routes[i], now)
  }

  /** Somebody else's reservation sweeps the route as expired. */
  ghost predicate Sweeps(p: Platform, s: State, e: Event, runId: Text, ref: RouteRef) {
    && e.Other? && WellFormed(e.op) && e.op.ReserveOp? && Outcome(p, s.routes, e.op, e.now).Ok?
    && OwnExpired(s.routes, ref, runId, e.now)
  }

  /** A clean-up call of the run for the route is carried out. */
  ghost predicate CleansUp(s: State, e: Event, ref: RouteRef) {
    || (e.Release? && s.client.Failing? && s.client.refs != [] && e.delivery != Unreached)
    || (e.Delete? && s.client.Deleting? && s.client.refs != [] && s.client.refs[0] == ref && e.delivery != Unreached)
  }

  ghost predicate TakesAway(p: Platform, s: State, e: Event, runId: Text, ref: RouteRef) {
    Sweeps(p, s, e, runId, ref) || CleansUp(s, e, ref)
  }

  lemma PassedOwn(before: seq<Route>, after: seq<Route>, runId: Text, ref: RouteRef, sweep: bool, now: Time)
    requires Passes(before, after, runId, sweep, now) && Consistent(None, before)
    ensures HasOwn(after, ref, runId) <==> HasOwn(before, ref, runId) && !(sweep && OwnExpired(before, ref, runId, now))
  {
    if HasOwn(after, ref, runId) {
      var i :| 0 <= i < |after| && after[i].Ref() == ref && after[i].runId == runId;
      assert Was(before, after[i], sweep, now);
      var j :| 0 <= j < |before| && ShareAside(before[j], after[i]) && !Swept(before[j], sweep, now);
      assert before[j].Ref() == ref && before[j].runId == runId;
      if sweep && OwnExpired(before, ref, runId, now) {
        var l :| 0 <= l < |before| && before[l].Ref() == ref && before[l].runId == runId && Expired(before[l], now);
        SameRefSame(before, j, l);
      }
    }
    if HasOwn(before, ref, runId) && !(sweep && OwnExpired(before, ref, runId, now)) {
      var j :| 0 <= j < |before| && before[j].Ref() == ref && before[j].runId == runId;
      assert Still(after, before[j]);
      var i :| 0 <= i < |after| && ShareAside(before[j], after[i]);
    }
  }

  lemma ChangedOwn(before: seq<Route>, after: seq<Route>, f: Route -> Route, runId: Text, ref: RouteRef)
    requires multiset(after) == multiset(Changed(before, f))
    requires forall i :: 0 <= i < |before| ==>
             f(before[i]).Ref() == before[i].Ref() && f(before[i]).runId == before[i].runId
    ensures HasOwn(after, ref, runId) <==> HasOwn(before, ref, runId)
  {
    var changed := Changed(before, f);
    if HasOwn(after, ref, runId) {
      var i :| 0 <= i < |after| && after[i].Ref() == ref && after[i].runId == runId;
      assert after[i] in multiset(changed);
      var j :| 0 <= j < |changed| && changed[j] == after[i];
      assert before[j].Ref() == ref;
    }
    if HasOwn(before, ref, runId) {
      var j :| 0 <= j < |before| && before[j].Ref() == ref && before[j].runId == runId;
      assert changed[j] in multiset(after);
      var i :| 0 <= i < |after| && after[i] == changed[j];
    }
  }

  lemma ActivatedOwn(routes: seq<Route>, runId: Text, refs: seq<RouteRef>, now: Time, ttl: Time, ref: RouteRef)
    ensures HasOwn(OrElse(Routes.Activate(routes, runId, refs, now, ttl), routes), ref, runId) <==>
            HasOwn(routes, ref, runId)
  {
    if Routes.Activate(routes, runId, refs, now, ttl).Ok? {
      ActivateIsExact(routes, runId, refs, now, ttl);
      ChangedOwn(routes, Routes.Activate(routes, runId, refs, now, ttl).value,
                 (r: Route) => ActivateOne(r, runId, now + ttl), runId, ref);
    }
  }

  lemma RenewedOwn(routes: seq<Route>, runId: Text, refs: seq<RouteRef>, now: Time, ttl: Time, ref: RouteRef)
    requires Consistent(None, routes)
    ensures HasOwn(OrElse(Routes.Renew(routes, runId, refs, now, ttl), routes), ref, runId) <==>
            HasOwn(routes, ref, runId)
  {
    if Routes.Renew(routes, runId, refs, now, ttl).Ok? {
      RenewIsExact(routes, runId, refs, now, ttl);
      ChangedOwn(routes, Routes.Renew(routes, runId, refs, now, ttl).value, (r: Route) => RenewOne(r, refs, now + ttl),
                 runId, ref);
    }
  }

  lemma DeletedOwn(routes: seq<Route>, runId: Text, gone: RouteRef, ref: RouteRef)
    requires Consistent(None, routes)
    ensures HasOwn(OrElse(Routes.Delete(routes, gone), routes), ref, runId) <==>
            HasOwn(routes, ref, runId) && ref != gone
  {
    DeleteAcceptsExactly(routes, gone);
    var after := OrElse(Routes.Delete(routes, gone), routes);
    if Routes.Delete(routes, gone).Ok? {
      if HasOwn(after, ref, runId) {
        var i :| 0 <= i < |after| && after[i].Ref() == ref && after[i].runId == runId;
        DeleteIsExact(routes, gone, after[i]);
        assert after[i] in multiset(after) && after[i] in multiset(routes);
        var j :| 0 <= j < |routes| && routes[j] == after[i];
      }
      if HasOwn(routes, ref, runId) && ref != gone {
        var j :| 0 <= j < |routes| && routes[j].Ref() == ref && routes[j].runId == runId;
        DeleteIsExact(routes, gone, routes[j]);
        assert routes[j] in multiset(routes) && routes[j] in multiset(after);
        var i :| 0 <= i < |after| && after[i] == routes[j];
      }
    }
  }

  lemma ForeignLeaves(p: Platform, s: State, e: Event, runId: Text, ref: RouteRef)
    requires Inv(s, runId) && Enabled(s, e, runId) && (e.Other? || e.Share?)
    ensures HasOwn(Apply(p, s, e, runId).routes, ref, runId) <==>
            HasOwn(s.routes, ref, runId) && !Sweeps(p, s, e, runId, ref)
  {
    if e.Other? {
      var sweep := ForeignPasses(p, s.routes, e.op, e.now, runId);
      PassedOwn(s.routes, After(p, s.routes, e.op, e.now), runId, ref, sweep, e.now);
    } else {
      SharingPasses(s.routes, e.ref, e.share, runId, 0);
      PassedOwn(s.routes, Sharing(s.routes, e.ref, e.share), runId, ref, false, 0);
    }
  }

  /** Until it cleans up the run keeps its routes. */
  lemma WorkLeaves(p: Platform, s: State, e: Event, runId: Text, ref: RouteRef)
    requires Inv(s, runId) && Enabled(s, e, runId) && (e.Fail? || e.Activate? || e.Renew? || e.Finish?)
    ensures HasOwn(Apply(p, s, e, runId).routes, ref, runId) <==> HasOwn(s.routes, ref, runId)
  {
    if e.Activate? {
      ActivatedOwn(s.routes, runId, s.client.refs, e.now, e.ttl, ref);
    } else if e.Renew? {
      RenewedOwn(s.routes, runId, [e.ref], e.now, e.ttl, ref);
    }
  }

  lemma DeleteLeaves(p: Platform, s: State, e: Event, runId: Text, ref: RouteRef)
    requires Inv(s, runId) && Enabled(s, e, runId) && e.Delete?
    ensures HasOwn(Apply(p, s, e, runId).routes, ref, runId) <==> HasOwn(s.routes, ref, runId) && !CleansUp(s, e, ref)
  {
    if s.client.refs != [] {
      DeletedOwn(s.routes, runId, s.client.refs[0], ref);
    }
  }

  lemma ReleaseLeaves(p: Platform, s: State, e: Event, runId: Text, ref: RouteRef)
    requires Inv(s, runId) && Enabled(s, e, runId) && e.Release? && runId != EMPTY
    ensures HasOwn(Apply(p, s, e, runId).routes, ref, runId) <==> HasOwn(s.routes, ref, runId) && !CleansUp(s, e, ref)
  {
    if CleansUp(s, e, ref) {
      OwnRelease(s.routes, runId, s.client.refs, s.pending, s.expiry);
    }
  }

  /** A step takes a route of the run out of the store just when it is one of these. */
  lemma StepLeaves(p: Platform, s: State, e: Event, runId: Text, ref: RouteRef)
    requires Inv(s, runId) && Enabled(s, e, runId) && !e.Reserve? && runId != EMPTY
    ensures HasOwn(Apply(p, s, e, runId).routes, ref, runId) <==>
            HasOwn(s.routes, ref, runId) && !TakesAway(p, s, e, runId, ref)
  {
    if e.Other? || e.Share? {
      ForeignLeaves(p, s, e, runId, ref);
    } else if e.Release? {
      ReleaseLeaves(p, s, e, runId, ref);
    } else if e.Delete? {
      DeleteLeaves(p, s, e, runId, ref);
    } else {
      WorkLeaves(p, s, e, runId, ref);
    }
  }

  // ------------------------------------------------------------ the routes created

  /** What a reservation creates: nothing if it is not carried out or not accepted. */
  ghost function Created(p: Platform, s: State, e: Event): seq<RouteRef> {
    if e.Reserve? && e.op.ReserveOp? && WellFormed(e.op) && e.delivery != Unreached then
      var r := Routes.Reserve(p, s.routes, e.op.request, e.now, e.op.ids, e.op.shares);
      if r.Ok? then PendingRefs(r.value.1) else []
    else []
  }

  lemma CreatesExactly(p: Platform, s: State, e: Event, runId: Text, ref: RouteRef)
    requires Inv(s, runId) && Enabled(s, e, runId) && e.Reserve?
    ensures HasOwn(Apply(p, s, e, runId).routes, ref, runId) <==> ref in Created(p, s, e)
    ensures NoDup(Created(p, s, e))
  {
    var r := Routes.Reserve(p, s.routes, e.op.request, e.now, e.op.ids, e.op.shares);
    if e.delivery != Unreached && r.Ok? {
      var refs := PendingRefs(r.value.1);
      ReservedOwn(p, s.routes, e.op, e.now, runId, r.value.0, r.value.1, refs, ref);
    }
  }

  lemma ReservedOwn(p: Platform, routes: seq<Route>, op: Op, now: Time, runId: Text, after: seq<Route>,
                    reserved: seq<Reserved>, refs: seq<RouteRef>, ref: RouteRef)
    requires op.ReserveOp? && WellFormed(op) && op.request.runId == runId && NoneOf(routes, runId)
    requires Consistent(None, routes) && FreshIds(routes, op.ids)
    requires Routes.Reserve(p, routes, op.request, now, op.ids, op.shares) == Ok((after, reserved))
             && refs == PendingRefs(reserved)
    ensures (HasOwn(after, ref, runId) <==> ref in refs) && NoDup(refs)
  {
    var expiry := now + op.request.ttl;
    OwnReserve(p, routes, op, now, runId, after, reserved, refs, expiry);
    WholeIsOwn(after, runId, refs, true, expiry, ref);
  }

  lemma WholeIsOwn(routes: seq<Route>, runId: Text, refs: seq<RouteRef>, pending: bool, expiry: Time, ref: RouteRef)
    requires Whole(routes, runId, refs, pending, expiry) && (refs != [] ==> !NoneOf(routes, runId))
    ensures HasOwn(routes, ref, runId) <==> ref in refs
    ensures NoDup(refs)
  {
    if ref in refs {
      var k :| 0 <= k < |refs| && refs[k] == ref;
      assert HasRef(routes, refs[k]);
      var i :| 0 <= i < |routes| && routes[i].Ref() == ref;
      assert HasOwn(routes, ref, runId);
    }
  }

  lemma {:induction false} NonePending(reserved: seq<Reserved>)
    requires forall k :: 0 <= k < |reserved| && !reserved[k].reused ==> reserved[k].route.IsPending()
    ensures PendingRefs(reserved) == [] <==> forall k :: 0 <= k < |reserved| ==> reserved[k].reused
    ensures |PendingRefs(reserved)| <= |reserved|
  {
    if reserved != [] {
      NonePending(reserved[..|reserved| - 1]);
    }
  }

  lemma {:induction false} AllocatedReused(p: Platform, staged: seq<Route>, cs: seq<Candidate>,
                                           reused: seq<Option<Route>>, runId: Text, expiry: Time, ids: seq<Text>,
                                           shares: seq<LANShare?>, n: nat)
    requires n <= |cs| == |reused| == |shares|
    requires Allocate(p, staged, cs, reused, runId, expiry, ids, shares, n).Ok?
    ensures forall k :: 0 <= k < n ==>
              var r := Allocate(p, staged, cs, reused, runId, expiry, ids, shares, n).value.reserved[k];
              (r.reused <==> reused[k].Some?) && (!r.reused ==> r.route.IsPending())
  {
    if n > 0 {
      AllocatedReused(p, staged, cs, reused, runId, expiry, ids, shares, n - 1);
    }
  }

  lemma BuildCreates(p: Platform, unexpired: seq<Route>, cs: seq<Candidate>, runId: Text, expiry: Time,
                     ids: seq<Text>, shares: seq<LANShare?>, made: Allocation)
    requires |cs| == |shares| && Build(p, unexpired, cs, runId, expiry, ids, shares) == Ok(made)
    ensures PendingRefs(made.reserved) == [] <==> forall k :: 0 <= k < |cs| ==> cs[k].reuse.Some?
  {
    var staged := Prepare(p, unexpired, cs, shares).value;
    StageKeeps(unexpired, cs, shares, |cs|);
    AllocatedReused(p, staged.routes, cs, staged.reused, runId, expiry, ids, shares, |cs|);
    forall k | 0 <= k < |cs| ensures made.reserved[k].reused <==> cs[k].reuse.Some? {
      assert ReusesNamed(cs[k], staged.reused[k]);
    }
    NonePending(made.reserved);
  }

  /** An accepted reservation creates nothing just when each of its candidates names a
      route to reuse. */
  lemma CreatesNothingExactly(p: Platform, routes: seq<Route>, op: Op, now: Time, after: seq<Route>,
                              reserved: seq<Reserved>)
    requires op.ReserveOp? && WellFormed(op)
    requires Routes.Reserve(p, routes, op.request, now, op.ids, op.shares) == Ok((after, reserved))
    ensures PendingRefs(reserved) == [] <==> forall k :: 0 <= k < |op.request.routes| ==>
            op.request.routes[k].reuse.Some?
  {
    var expiry := now + op.request.ttl;
    var cs, made := ReserveBuilds(p, routes, op.request, now, op.ids, op.shares, after, reserved, expiry);
    ValidKeepsModes(p, op.request.routes, cs);
    BuildCreates(p, RemoveExpired(SortRoutes(routes), now), cs, op.request.runId, expiry, op.ids, op.shares, made);
  }

  // ------------------------------------------------------------ runs

  ghost predicate Sometime(happens: nat -> bool, a: nat, b: nat) {
    exists k: nat :: a <= k < b && happens(k)
  }

  /** What holds until it is stopped. */
  lemma {:induction false} HoldsUntil(holds: nat -> bool, stops: nat -> bool, a: nat, b: nat)
    requires a <= b && forall k: nat :: a <= k < b ==> (holds(k + 1) <==> holds(k) && !stops(k))
    ensures holds(b) <==> holds(a) && !Sometime(stops, a, b)
    decreases b
  {
    if a < b {
      HoldsUntil(holds, stops, a, b - 1);
      assert Sometime(stops, a, b) <==> Sometime(stops, a, b - 1) || stops(b - 1);
    }
  }

  lemma SometimeAlike(happens: nat -> bool, other: nat -> bool, a: nat, b: nat)
    requires forall k: nat :: a <= k < b ==> happens(k) == other(k)
    ensures Sometime(happens, a, b) == Sometime(other, a, b)
  {
  }

  /** The steps of a run that take the route away. */
  ghost function Takings(p: Platform, states: seq<State>, events: seq<Event>, runId: Text, ref: RouteRef): nat -> bool {
    (k: nat) => k < |states| && k < |events| && TakesAway(p, states[k], events[k], runId, ref)
  }

  ghost function Sweepings(p: Platform, states: seq<State>, events: seq<Event>, runId: Text, ref: RouteRef)
    : nat -> bool
  {
    (k: nat) => k < |states| && k < |events| && Sweeps(p, states[k], events[k], runId, ref)
  }

  /** One of the steps from a to b took the route away. */
  ghost predicate WasTaken(p: Platform, states: seq<State>, events: seq<Event>, runId: Text, ref: RouteRef, a: nat,
                           b: nat) {
    Sometime(Takings(p, states, events, runId, ref), a, b)
  }

  ghost predicate WasSwept(p: Platform, states: seq<State>, events: seq<Event>, runId: Text, ref: RouteRef, a: nat,
                           b: nat) {
    Sometime(Sweepings(p, states, events, runId, ref), a, b)
  }

  function Rank(c: Client): nat {
    match c
    case Starting => 0
    case Held(_) => 1
    case Failing(_) => 2
    case Running(_) => 2
    case Deleting(_, _) => 3
    case Ended(_, _) => 4
  }

  lemma StepRank(p: Platform, states: seq<State>, events: seq<Event>, runId: Text, k: nat)
    requires IsGroupRun(p, states, events, runId) && k < |events|
    ensures Rank(states[k].client) <= Rank(states[k + 1].client)
  {
    assert IsStep(p, states, events, runId, k);
  }

  lemma {:induction false} RankGrows(p: Platform, states: seq<State>, events: seq<Event>, runId: Text, a: nat, b: nat)
    requires IsGroupRun(p, states, events, runId) && a <= b < |states|
    ensures Rank(states[a].client) <= Rank(states[b].client)
    decreases b
  {
    if a < b {
      RankGrows(p, states, events, runId, a, b - 1);
      StepRank(p, states, events, runId, b - 1);
    }
  }

  lemma RunStepLeaves(p: Platform, states: seq<State>, events: seq<Event>, runId: Text, ref: RouteRef, k: nat)
    requires IsGroupRun(p, states, events, runId) && k < |events| && !states[k].client.Starting?
    ensures HasOwn(states[k + 1].routes, ref, runId) <==>
              HasOwn(states[k].routes, ref, runId) && !Takings(p, states, events, runId, ref)(k)
  {
    RunKeepsInv(p, states, events, runId, k);
    assert IsStep(p, states, events, runId, k);
    StepLeaves(p, states[k], events[k], runId, ref);
  }

  ghost function Holdings(states: seq<State>, runId: Text, ref: RouteRef): nat -> bool {
    (k: nat) => k < |states| && HasOwn(states[k].routes, ref, runId)
  }

  /** Once the run has reserved, a route of its own stays until a step takes it away. */
  lemma StaysExactly(p: Platform, states: seq<State>, events: seq<Event>, runId: Text, ref: RouteRef, a: nat, b: nat)
    requires IsGroupRun(p, states, events, runId) && a <= b < |states| && !states[a].client.Starting?
    ensures HasOwn(states[b].routes, ref, runId) <==>
              HasOwn(states[a].routes, ref, runId) && !WasTaken(p, states, events, runId, ref, a, b)
  {
    var holds, stops := Holdings(states, runId, ref), Takings(p, states, events, runId, ref);
    forall k: nat | a <= k < b ensures holds(k + 1) <==> holds(k) && !stops(k) {
      RankGrows(p, states, events, runId, a, k);
      RunStepLeaves(p, states, events, runId, ref, k);
    }
    HoldsUntil(holds, stops, a, b);
  }

  /** At every moment after its reservation, whatever it has answered, exactly those of the
      run's routes are in the store that the reservation created and no step has taken
      away since. */
  lemma LeftExactly(p: Platform, states: seq<State>, events: seq<Event>, runId: Text, ref: RouteRef, h: nat, i: nat)
    requires IsGroupRun(p, states, events, runId) && h < i < |states| && events[h].Reserve?
    ensures HasOwn(states[i].routes, ref, runId) <==>
              ref in Created(p, states[h], events[h]) && !WasTaken(p, states, events, runId, ref, h + 1, i)
  {
    RunKeepsInv(p, states, events, runId, h);
    assert IsStep(p, states, events, runId, h);
    CreatesExactly(p, states[h], events[h], runId, ref);
    StaysExactly(p, states, events, runId, ref, h + 1, i);
  }

  /** So none is left just when each of them has been taken away. */
  lemma NothingIsLeftExactly(p: Platform, states: seq<State>, events: seq<Event>, runId: Text, h: nat, i: nat)
    requires IsGroupRun(p, states, events, runId) && h < i < |states| && events[h].Reserve?
    ensures NoneOf(states[i].routes, runId) <==>
              forall ref :: ref in Created(p, states[h], events[h]) ==>
                  WasTaken(p, states, events, runId, ref, h + 1, i)
  {
    forall ref | ref in Created(p, states[h], events[h])
      ensures HasOwn(states[i].routes, ref, runId) <==> !WasTaken(p, states, events, runId, ref, h + 1, i)
    {
      LeftExactly(p, states, events, runId, ref, h, i);
    }
    forall k | 0 <= k < |states[i].routes| && states[i].routes[k].runId == runId
      ensures states[i].routes[k].Ref() in Created(p, states[h], events[h])
              && !WasTaken(p, states, events, runId, states[i].routes[k].Ref(), h + 1, i)
    {
      assert HasOwn(states[i].routes, states[i].routes[k].Ref(), runId);
      LeftExactly(p, states, events, runId, states[i].routes[k].Ref(), h, i);
    }
  }

  // ------------------------------------------------------------ the exceptions, exactly

  /** With no clean-up call carried out for the route, only a sweep can take it. */
  lemma OnlySwept(p: Platform, states: seq<State>, events: seq<Event>, runId: Text, ref: RouteRef, h: nat, i: nat)
    requires IsGroupRun(p, states, events, runId) && h < i < |states| && events[h].Reserve?
    requires forall k :: h < k < i ==> !CleansUp(states[k], events[k], ref)
    ensures HasOwn(states[i].routes, ref, runId) <==>
              ref in Created(p, states[h], events[h]) && !WasSwept(p, states, events, runId, ref, h + 1, i)
  {
    LeftExactly(p, states, events, runId, ref, h, i);
    SometimeAlike(Takings(p, states, events, runId, ref), Sweepings(p, states, events, runId, ref), h + 1, i);
  }

  /** If the answer to the reservation is lost there is no clean-up: what it created stays
      until it is swept. */
  lemma LostReplyLeaves(p: Platform, states: seq<State>, events: seq<Event>, runId: Text, ref: RouteRef, h: nat, i: nat)
    requires IsGroupRun(p, states, events, runId) && h < i < |states| && events[h].Reserve?
             && events[h].delivery == ReplyLost
    ensures HasOwn(states[i].routes, ref, runId) <==>
              ref in Created(p, states[h], events[h]) && !WasSwept(p, states, events, runId, ref, h + 1, i)
  {
    assert IsStep(p, states, events, runId, h);
    forall k | h < k < i ensures !CleansUp(states[k], events[k], ref) {
      RankGrows(p, states, events, runId, h + 1, k);
    }
    OnlySwept(p, states, events, runId, ref, h, i);
  }

  /** Right after it there is none just when each candidate of the request names a route
      to reuse. */
  lemma LostReplyLeavesNothingExactly(p: Platform, s: State, op: Op, now: Time, runId: Text)
    requires Inv(s, runId) && Enabled(s, Reserve(op, now, ReplyLost), runId)
    requires Routes.Reserve(p, s.routes, op.request, now, op.ids, op.shares).Ok?
    ensures NoneOf(Apply(p, s, Reserve(op, now, ReplyLost), runId).routes, runId) <==>
              forall k :: 0 <= k < |op.request.routes| ==> op.request.routes[k].reuse.Some?
  {
    var r := Routes.Reserve(p, s.routes, op.request, now, op.ids, op.shares).value;
    var expiry := now + op.request.ttl;
    OwnReserve(p, s.routes, op, now, runId, r.0, r.1, PendingRefs(r.1), expiry);
    CreatesNothingExactly(p, s.routes, op, now, r.0, r.1);
  }

  /** If the release does not reach the router, all of them stay until they are swept. */
  lemma MissedReleaseLeaves(p: Platform, states: seq<State>, events: seq<Event>, runId: Text, ref: RouteRef, h: nat,
                            m: nat, i: nat)
    requires IsGroupRun(p, states, events, runId) && h < m < i < |states| && events[h].Reserve?
    requires events[m].Release? && events[m].delivery == Unreached
    ensures HasOwn(states[i].routes, ref, runId) <==>
              ref in Created(p, states[h], events[h]) && !WasSwept(p, states, events, runId, ref, h + 1, i)
  {
    assert IsStep(p, states, events, runId, m);
    forall k | h < k < i ensures !CleansUp(states[k], events[k], ref) {
      if k < m {
        assert IsStep(p, states, events, runId, k);
        RankGrows(p, states, events, runId, k, m);
        RankGrows(p, states, events, runId, k + 1, m);
      } else if k > m {
        RankGrows(p, states, events, runId, m + 1, k);
      }
    }
    OnlySwept(p, states, events, runId, ref, h, i);
  }

  function RefsOf(c: Client): seq<RouteRef> {
    if c.Held? || c.Failing? || c.Running? || c.Deleting? then c.refs else []
  }

  lemma {:induction false} RefsStayDistinct(p: Platform, states: seq<State>, events: seq<Event>, runId: Text, i: nat)
    requires IsGroupRun(p, states, events, runId) && i < |states|
    ensures NoDup(RefsOf(states[i].client))
  {
    if i > 0 {
      var k := i - 1;
      RefsStayDistinct(p, states, events, runId, k);
      RunKeepsInv(p, states, events, runId, k);
      assert IsStep(p, states, events, runId, k);
      if events[k].Reserve? {
        CreatesExactly(p, states[k], events[k], runId, RouteRef(EMPTY, 0));
      }
    }
  }

  /** Once a deletion has been tried it is not tried again. */
  lemma {:induction false} TriedOnce(p: Platform, states: seq<State>, events: seq<Event>, runId: Text, m: nat, i: nat)
    requires IsGroupRun(p, states, events, runId) && m < i < |states| && events[m].Delete? && states[m].client.Deleting?
    requires states[m].client.refs != []
    ensures states[m].client.refs[0] !in RefsOf(states[i].client)
    ensures states[i].client.Deleting? || states[i].client.Ended?
    decreases i
  {
    var k := i - 1;
    assert IsStep(p, states, events, runId, k);
    if k > m {
      TriedOnce(p, states, events, runId, m, k);
    } else {
      RefsStayDistinct(p, states, events, runId, m);
    }
  }

  lemma OnlyThatTry(p: Platform, states: seq<State>, events: seq<Event>, runId: Text, m: nat, k: nat)
    requires IsGroupRun(p, states, events, runId) && m < |events| && k < |events|
    requires events[m].Delete? && events[m].delivery == Unreached && states[m].client.Deleting?
             && states[m].client.refs != []
    ensures !CleansUp(states[k], events[k], states[m].client.refs[0])
  {
    assert IsStep(p, states, events, runId, k);
    if k < m {
      RankGrows(p, states, events, runId, k + 1, m);
      if events[k].Delete? && states[k].client.refs != [] {
        TriedOnce(p, states, events, runId, k, m);
      }
    } else if k > m {
      TriedOnce(p, states, events, runId, m, k);
    }
  }

  /** If the deletion of a route does not reach the router, that one stays until it is
      swept. */
  lemma MissedDeleteLeaves(p: Platform, states: seq<State>, events: seq<Event>, runId: Text, h: nat, m: nat, i: nat)
    requires IsGroupRun(p, states, events, runId) && h < m < i < |states| && events[h].Reserve?
    requires events[m].Delete? && events[m].delivery == Unreached && states[m].client.Deleting?
             && states[m].client.refs != []
    ensures var ref := states[m].client.refs[0];
            HasOwn(states[i].routes, ref, runId) <==>
              ref in Created(p, states[h], events[h]) && !WasSwept(p, states, events, runId, ref, h + 1, i)
  {
    var ref := states[m].client.refs[0];
    forall k | h < k < i ensures !CleansUp(states[k], events[k], ref) {
      OnlyThatTry(p, states, events, runId, m, k);
    }
    OnlySwept(p, states, events, runId, ref, h, i);
  }

  // ------------------------------------------------------------ three runs that leave a route

  const RUN := Text("run")

  function Surroundings(): Platform {
    Platform(h => Some(h), t => Some(t), Hostnames.Paths((a, b) => a == b, s => s, s => "00000000"))
  }

  function OneService(): Candidate {
    Candidate("app.localhost", Http, Text("http://127.0.0.1:3000"),
              Owner(Text("/app"), EMPTY, EMPTY, EMPTY, OtherEnv, EMPTY), NotShared, None)
  }

  function ReserveOne(): Op {
    ReserveOp(Request(RUN, 10, [OneService()]), [Text("id")], [null])
  }

  lemma OneIsValid(p: Platform, c: Candidate)
    requires Validate(p, c) == Ok(c)
    ensures ValidateAll(p, [c]) == Ok([c])
  {
    var none: seq<Candidate> := [];
    assert ValidateFirst(p, [c], 0) == Ok(none);
    assert none + [c] == [c] && ValidateFirst(p, [c], 1) == Ok(none + [c]);
  }

  lemma OneIsPrepared(p: Platform, c: Candidate)
    requires Validate(p, c) == Ok(c) && !c.owner.IsWsl() && c.reuse.None?
    ensures Prepare(p, [], [c], [null]) == Ok(Staged([], [None]))
  {
    var none: seq<Option<Route>>, route: Option<Route> := [], None;
    assert SoleOwner([c][..0]) == Ok(EMPTY) && OwnerConflict([], [c]) == None;
    assert Stage([], [c], [null], 0) == Ok(Staged([], none));
    assert FirstClash([] + Logicals([c][..0]), c) == None;
    assert none + [route] == [None] && Stage([], [c], [null], 1) == Ok(Staged([], none + [route]));
    assert TargetKeys(p, []) == {};
    assert ClaimTargets(p, {}, [c], [None], 0) == Ok({});
    assert ClaimTargets(p, {}, [c], [None], 1).Ok?;
  }

  /** A reservation for one service in an empty store is accepted and creates a route. */
  lemma OneIsAccepted(now: Time) returns (after: seq<Route>, reserved: seq<Reserved>)
    ensures Routes.Reserve(Surroundings(), [], ReserveOne().request, now, ReserveOne().ids, ReserveOne().shares)
            == Ok((after, reserved))
    ensures |PendingRefs(reserved)| == 1 && Consistent(None, after)
    ensures Whole(after, RUN, PendingRefs(reserved), true, now + 10) && !NoneOf(after, RUN)
  {
    var p, op, c := Surroundings(), ReserveOne(), OneService();
    assert c.owner.cwd.chars[0] == '/' && Validate(p, c) == Ok(c);
    OneIsValid(p, c);
    OneIsPrepared(p, c);
    assert RUN.chars[0] == 'r' && !Blank(RUN);
    assert SortRoutes([]) == [] && RemoveExpired([], now) == [];
    assert Allocate(p, [], [c], [None], RUN, now + 10, op.ids, [null], 0) == Ok(Allocation([], [], 0));
    assert Allocate(p, [], [c], [None], RUN, now + 10, op.ids, [null], 1).Ok?;
    var made := Build(p, [], [c], RUN, now + 10, op.ids, [null]).value;
    assert ReserveCallback(p, [], op.request, now, op.ids, op.shares) == Ok(made);
    var r := Routes.Reserve(p, [], op.request, now, op.ids, op.shares).value;
    after, reserved := r.0, r.1;
    CreatesNothingExactly(p, [], op, now, after, reserved);
    assert op.request.routes[0].reuse.None?;
    OwnReserve(p, [], op, now, RUN, after, reserved, PendingRefs(reserved), now + 10);
    AllocatedReused(p, [], [c], [None], RUN, now + 10, op.ids, [null], 1);
    NonePending(reserved);
  }

  function AtFirst(): State {
    State([], Starting, false, 0)
  }

  /** A run goes on by one step. */
  lemma GoesOn(states: seq<State>, events: seq<Event>, e: Event) returns (more: seq<State>, happened: seq<Event>)
    requires IsGroupRun(Surroundings(), states, events, RUN) && |states| > 0 && Enabled(states[|states| - 1], e, RUN)
    ensures IsGroupRun(Surroundings(), more, happened, RUN) && |more| > 0
    ensures more[|more| - 1] == Apply(Surroundings(), states[|states| - 1], e, RUN)
  {
    more, happened := states + [Apply(Surroundings(), states[|states| - 1], e, RUN)], events + [e];
    forall i | 0 <= i < |happened| ensures IsStep(Surroundings(), more, happened, RUN, i) {
      if i < |events| {
        assert IsStep(Surroundings(), states, events, RUN, i);
        assert more[i] == states[i] && happened[i] == events[i] && more[i + 1] == states[i + 1];
      }
    }
  }

  lemma ReservedIs(p: Platform, s: State, op: Op, now: Time, delivery: Delivery, after: seq<Route>,
                   reserved: seq<Reserved>)
    requires op.ReserveOp? && WellFormed(op) && delivery != Unreached
    requires Routes.Reserve(p, s.routes, op.request, now, op.ids, op.shares) == Ok((after, reserved))
    ensures GroupProtocol.Reserved(p, s, op, now, delivery)
            == Holding(s, after, PendingRefs(reserved), now + op.request.ttl, delivery)
  {
  }

  lemma FirstStep(s: State, delivery: Delivery) returns (refs: seq<RouteRef>)
    requires delivery != Unreached && Enabled(AtFirst(), Reserve(ReserveOne(), 0, delivery), RUN)
    requires s == Apply(Surroundings(), AtFirst(), Reserve(ReserveOne(), 0, delivery), RUN)
    ensures s.client == (if delivery == ReplyLost then Ended(true, false) else Held(refs)) && |refs| == 1
    ensures Whole(s.routes, RUN, refs, true, 10) && !NoneOf(s.routes, RUN) && Consistent(None, s.routes)
  {
    var after, reserved := OneIsAccepted(0);
    refs := PendingRefs(reserved);
    ReservedIs(Surroundings(), AtFirst(), ReserveOne(), 0, delivery, after, reserved);
  }

  /** A run that has reserved. */
  lemma RunThatReserved(delivery: Delivery) returns (states: seq<State>, events: seq<Event>, refs: seq<RouteRef>)
    requires delivery != Unreached
    ensures IsGroupRun(Surroundings(), states, events, RUN) && |states| > 0
    ensures var s := states[|states| - 1];
            s.client == (if delivery == ReplyLost then Ended(true, false) else Held(refs)) && |refs| == 1
            && Whole(s.routes, RUN, refs, true, 10) && !NoneOf(s.routes, RUN) && Consistent(None, s.routes)
  {
    var p, s0, e := Surroundings(), AtFirst(), Reserve(ReserveOne(), 0, delivery);
    assert Enabled(s0, e, RUN) && IsGroupRun(p, [s0], [], RUN);
    states, events := GoesOn([s0], [], e);
    refs := FirstStep(states[|states| - 1], delivery);
  }

  /** A run whose reservation is carried out but whose answer is lost. */
  lemma RunWithLostReply() returns (states: seq<State>, events: seq<Event>)
    ensures IsGroupRun(Surroundings(), states, events, RUN) && |states| > 0
    ensures states[|states| - 1].client == Ended(true, false) && !NoneOf(states[|states| - 1].routes, RUN)
  {
    var refs;
    states, events, refs := RunThatReserved(ReplyLost);
  }

  /** A run that fails before its activation and whose release does not reach the router,
      as when the call is made under a context that has been cancelled. */
  lemma RunWithMissedRelease() returns (states: seq<State>, events: seq<Event>)
    ensures IsGroupRun(Surroundings(), states, events, RUN) && |states| > 0
    ensures states[|states| - 1].client == Ended(false, true) && !NoneOf(states[|states| - 1].routes, RUN)
  {
    var refs;
    states, events, refs := RunThatReserved(Answered);
    states, events := GoesOn(states, events, Fail);
    states, events := GoesOn(states, events, Release(1, Unreached));
  }

  lemma WholeIsActivated(routes: seq<Route>, refs: seq<RouteRef>)
    requires Whole(routes, RUN, refs, true, 10) && !NoneOf(routes, RUN) && Consistent(None, routes)
    ensures Routes.Activate(routes, RUN, refs, 1, 10).Ok?
            && !NoneOf(Routes.Activate(routes, RUN, refs, 1, 10).value, RUN)
  {
    forall i | 0 <= i < |routes| && routes[i].runId == RUN ensures ExpiresAt(routes[i], true, 10) {
    }
    assert ListsExactly(routes, refs, RUN, true) && NoneExpired(routes, RUN, 1);
    ActivateAcceptsExactly(routes, RUN, refs, 1, 10);
    var i :| 0 <= i < |routes| && routes[i].runId == RUN;
    assert HasOwn(routes, routes[i].Ref(), RUN);
    ActivatedOwn(routes, RUN, refs, 1, 10, routes[i].Ref());
  }

  /** A run that is activated and ends, but whose deletion does not reach the router. */
  lemma RunWithMissedDelete() returns (states: seq<State>, events: seq<Event>)
    ensures IsGroupRun(Surroundings(), states, events, RUN) && |states| > 0
    ensures states[|states| - 1].client == Ended(false, true) && !NoneOf(states[|states| - 1].routes, RUN)
  {
    var refs;
    states, events, refs := RunThatReserved(Answered);
    WholeIsActivated(states[|states| - 1].routes, refs);
    states, events := GoesOn(states, events, Activate(10, 1, Answered));
    states, events := GoesOn(states, events, Finish);
    states, events := GoesOn(states, events, Delete(2, Unreached));
    assert refs[1..] == [];
    states, events := GoesOn(states, events, Delete(3, Answered));
  }
}
