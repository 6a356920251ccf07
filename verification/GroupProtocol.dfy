/** The steps of a run, and that whichever step fails it leaves nothing behind. */
module GroupProtocol {
  import opened Common
  import opened Routes
  import opened RouteFacts
  import opened RouteRuns
  import opened RouteBatches
  import opened GroupRun

  /** What becomes of a call to the router: it is not carried out, it is carried out and
      answered, or it is carried out but the client sees an error. */
  datatype Delivery = Unreached | Answered | ReplyLost

  /** Where the run stands. refs are the routes that its reservation created. lost: the
      reservation was carried out but the answer did not arrive. missed: a clean-up call
      was not carried out. */
  datatype Client =
    | Starting
    | Held(refs: seq<RouteRef>)
    | Failing(refs: seq<RouteRef>)
    | Running(refs: seq<RouteRef>)
    | Deleting(refs: seq<RouteRef>, missed: bool)
    | Ended(lost: bool, missed: bool)

  /** expiry, pending: the common expiry and state of the run's routes while held. */
  datatype State = State(routes: seq<Route>, client: Client, pending: bool, expiry: Time)

  datatype Event =
    | Other(op: Op, now: Time)
    | Share(ref: RouteRef, share: LANShare?)
    | Reserve(op: Op, now: Time, delivery: Delivery)
    | Fail
    | Activate(ttl: Time, now: Time, delivery: Delivery)
    | Renew(ref: RouteRef, ttl: Time, now: Time, delivery: Delivery)
    | Finish
    | Release(now: Time, delivery: Delivery)
    | Delete(now: Time, delivery: Delivery)

  /** What may happen next in the run with that ID. */
  ghost predicate Enabled(s: State, e: Event, runId: Text) {
    match e
    case Other(op, now) => WellFormed(op) && Foreign(s.routes, op, runId) && DrawsFresh(s.routes, op)
    case Share(ref, share) => true
    case Reserve(op, now, delivery) =>
      s.client.Starting? && op.ReserveOp? && WellFormed(op) && op.request.runId == runId && DrawsFresh(s.routes, op)
    case Fail => s.client.Held?
    case Activate(ttl, now, delivery) => s.client.Held?
    case Renew(ref, ttl, now, delivery) => s.client.Running? && ref in s.client.refs
    case Finish => s.client.Running?
    case Release(now, delivery) => s.client.Failing?
    case Delete(now, delivery) => s.client.Deleting?
  }

  /** The store after a call. */
  ghost function Called(p: Platform, routes: seq<Route>, op: Op, now: Time, delivery: Delivery): seq<Route>
    requires WellFormed(op)
  {
    if delivery == Unreached then routes else After(p, routes, op, now)
  }

  function Holding(s: State, after: seq<Route>, refs: seq<RouteRef>, expiry: Time, delivery: Delivery): State {
    s.(routes := after, pending := true, expiry := expiry,
       client := if delivery == ReplyLost then Ended(true, false) else Held(refs))
  }

  ghost function Reserved(p: Platform, s: State, op: Op, now: Time, delivery: Delivery): State
    requires op.ReserveOp? && WellFormed(op)
  {
    var r := Routes.Reserve(p, s.routes, op.request, now, op.ids, op.shares);
    if delivery == Unreached || r.Err? then s.(client := Ended(false, false))
    else Holding(s, r.value.0, PendingRefs(r.value.1), now + op.request.ttl, delivery)
  }

  ghost function Activated(p: Platform, s: State, runId: Text, ttl: Time, now: Time, delivery: Delivery): State
    requires s.client.Held?
  {
    var refs := s.client.refs;
    var r := Routes.Activate(s.routes, runId, refs, now, ttl);
    if delivery == Unreached || r.Err? then s.(client := Failing(refs))
    else
      s.(routes := r.value, pending := false, expiry := now + ttl,
         client := if delivery == Answered then Running(refs) else Failing(refs))
  }

  ghost function Apply(p: Platform, s: State, e: Event, runId: Text): State
    requires Enabled(s, e, runId)
  {
    match e
    case Other(op, now) => s.(routes := After(p, s.routes, op, now))
    case Share(ref, share) => s.(routes := Sharing(s.routes, ref, share))
    case Reserve(op, now, delivery) => Reserved(p, s, op, now, delivery)
    case Fail => s.(client := Failing(s.client.refs))
    case Activate(ttl, now, delivery) => Activated(p, s, runId, ttl, now, delivery)
    case Renew(ref, ttl, now, delivery) => s.(routes := Called(p, s.routes, RenewOp(runId, [ref], ttl), now, delivery))
    case Finish => s.(client := Deleting(s.client.refs, false))
    case Release(now, delivery) =>
      if s.client.refs == [] then s.(client := Ended(false, false))
      else
        s.(routes := Called(p, s.routes, ReleaseOp(runId, s.client.refs), now, delivery),
           client := Ended(false, delivery == Unreached))
    case Delete(now, delivery) =>
      if s.client.refs == [] then s.(client := Ended(false, s.client.missed))
      else
        s.(routes := Called(p, s.routes, DeleteOp(s.client.refs[0]), now, delivery),
           client := Deleting(s.client.refs[1..], s.client.missed || delivery == Unreached))
  }

  ghost predicate ClientOk(s: State, runId: Text) {
    match s.client
    case Starting => NoneOf(s.routes, runId)
    case Held(refs) => Whole(s.routes, runId, refs, s.pending, s.expiry) && s.pending
    case Failing(refs) => Whole(s.routes, runId, refs, s.pending, s.expiry)
    case Running(refs) => Within(s.routes, runId, refs)
    case Deleting(refs, missed) => !missed ==> Within(s.routes, runId, refs)
    case Ended(lost, missed) => !lost && !missed ==> NoneOf(s.routes, runId)
  }

  ghost predicate Inv(s: State, runId: Text) {
    && Consistent(None, s.routes) && AllExpire(s.routes, runId) && ClientOk(s, runId)
  }

  lemma WholeIsWithin(routes: seq<Route>, runId: Text, refs: seq<RouteRef>, pending: bool, expiry: Time)
    requires Whole(routes, runId, refs, pending, expiry)
    ensures Within(routes, runId, refs) && AllExpire(routes, runId)
  {
    if !NoneOf(routes, runId) {
      forall i | 0 <= i < |routes| && routes[i].runId == runId ensures HasExpiry(routes[i]) {
        assert ExpiresAt(routes[i], pending, expiry);
      }
    }
  }

  lemma OtherKeeps(p: Platform, s: State, op: Op, now: Time, runId: Text)
    requires Inv(s, runId) && Enabled(s, Other(op, now), runId)
    ensures Inv(s.(routes := After(p, s.routes, op, now)), runId)
  {
    var after := After(p, s.routes, op, now);
    StepKeeps(None, p, s.routes, op, now);
    var sweep := ForeignPasses(p, s.routes, op, now, runId);
    PassedIsOk(s, after, runId, sweep, now);
  }

  lemma PassedIsOk(s: State, after: seq<Route>, runId: Text, sweep: bool, now: Time)
    requires Inv(s, runId) && Consistent(None, after) && Passes(s.routes, after, runId, sweep, now)
    ensures Inv(s.(routes := after), runId)
  {
    PassKeepsExpiry(s.routes, after, runId, sweep, now);
    match s.client
    case Starting => PassKeepsNone(s.routes, after, runId, sweep, now);
    case Held(refs) => PassKeepsWhole(s.routes, after, runId, refs, s.pending, s.expiry, sweep, now);
    case Failing(refs) => PassKeepsWhole(s.routes, after, runId, refs, s.pending, s.expiry, sweep, now);
    case Running(refs) => PassKeepsWithin(s.routes, after, runId, refs, sweep, now);
    case Deleting(refs, missed) =>
      if !missed {
        PassKeepsWithin(s.routes, after, runId, refs, sweep, now);
      }
    case Ended(lost, missed) =>
      if !lost && !missed {
        PassKeepsNone(s.routes, after, runId, sweep, now);
      }
  }

  // ------------------------------------------------------------ the run's own steps

  lemma HoldingIsOk(s: State, after: seq<Route>, refs: seq<RouteRef>, expiry: Time, delivery: Delivery, runId: Text)
    requires Consistent(None, after) && Whole(after, runId, refs, true, expiry)
    ensures Inv(Holding(s, after, refs, expiry, delivery), runId)
  {
    WholeIsWithin(after, runId, refs, true, expiry);
  }

  lemma ReserveKeepsInv(p: Platform, s: State, op: Op, now: Time, delivery: Delivery, runId: Text)
    requires Inv(s, runId) && Enabled(s, Reserve(op, now, delivery), runId)
    ensures Inv(Reserved(p, s, op, now, delivery), runId)
  {
    var r := Routes.Reserve(p, s.routes, op.request, now, op.ids, op.shares);
    if delivery != Unreached && r.Ok? {
      var after, refs, expiry := r.value.0, PendingRefs(r.value.1), now + op.request.ttl;
      OwnReserve(p, s.routes, op, now, runId, after, r.value.1, refs, expiry);
      HoldingIsOk(s, after, refs, expiry, delivery, runId);
      assert Reserved(p, s, op, now, delivery) == Holding(s, after, refs, expiry, delivery);
    }
  }

  lemma ActivateKeepsInv(p: Platform, s: State, ttl: Time, now: Time, delivery: Delivery, runId: Text)
    requires Inv(s, runId) && Enabled(s, Activate(ttl, now, delivery), runId)
    ensures Inv(Activated(p, s, runId, ttl, now, delivery), runId)
  {
    var refs := s.client.refs;
    if delivery != Unreached && Routes.Activate(s.routes, runId, refs, now, ttl).Ok? {
      var after := Routes.Activate(s.routes, runId, refs, now, ttl).value;
      ActivateKeeps(None, s.routes, runId, refs, now, ttl);
      OwnActivate(s.routes, runId, refs, now, ttl, s.expiry);
      WholeIsWithin(after, runId, refs, false, now + ttl);
    }
  }

  lemma RenewKeepsInv(p: Platform, s: State, e: Event, runId: Text)
    requires Inv(s, runId) && e.Renew? && Enabled(s, e, runId)
    ensures Inv(Apply(p, s, e, runId), runId)
  {
    var op := RenewOp(runId, [e.ref], e.ttl);
    if e.delivery != Unreached && Outcome(p, s.routes, op, e.now).Ok? {
      RenewKeeps(None, s.routes, runId, [e.ref], e.now, e.ttl);
      OwnRenew(s.routes, runId, e.ref, e.now, e.ttl, s.client.refs);
    }
  }

  lemma ReleaseKeepsInv(p: Platform, s: State, e: Event, runId: Text)
    requires Inv(s, runId) && e.Release? && Enabled(s, e, runId) && runId != EMPTY
    ensures Inv(Apply(p, s, e, runId), runId)
  {
    var refs := s.client.refs;
    if refs != [] && e.delivery != Unreached {
      var op := ReleaseOp(runId, refs);
      StepKeeps(None, p, s.routes, op, e.now);
      OwnRelease(s.routes, runId, refs, s.pending, s.expiry);
      var after := After(p, s.routes, op, e.now);
      assert after == OrElse(Routes.Release(s.routes, runId, refs), s.routes);
      NoneExpire(after, runId);
    }
  }

  lemma NoneExpire(routes: seq<Route>, runId: Text)
    requires NoneOf(routes, runId)
    ensures AllExpire(routes, runId)
  {
  }

  lemma WithinNoRefs(routes: seq<Route>, runId: Text)
    requires Within(routes, runId, [])
    ensures NoneOf(routes, runId)
  {
  }

  lemma DeleteKeepsInv(p: Platform, s: State, e: Event, runId: Text)
    requires Inv(s, runId) && e.Delete? && Enabled(s, e, runId)
    ensures Inv(Apply(p, s, e, runId), runId)
  {
    var refs := s.client.refs;
    if refs == [] {
      if !s.client.missed {
        WithinNoRefs(s.routes, runId);
      }
    } else if e.delivery != Unreached {
      var op := DeleteOp(refs[0]);
      StepKeeps(None, p, s.routes, op, e.now);
      assert After(p, s.routes, op, e.now) == OrElse(Routes.Delete(s.routes, refs[0]), s.routes);
      DeleteExpires(s.routes, runId, refs[0]);
      if !s.client.missed {
        OwnDelete(s.routes, runId, refs);
      }
    }
  }

  lemma DeleteExpires(routes: seq<Route>, runId: Text, ref: RouteRef)
    requires AllExpire(routes, runId) && Consistent(None, routes)
    ensures AllExpire(OrElse(Routes.Delete(routes, ref), routes), runId)
  {
    if Routes.Delete(routes, ref).Ok? {
      var after := Routes.Delete(routes, ref).value;
      forall i | 0 <= i < |after| && after[i].runId == runId ensures HasExpiry(after[i]) {
        DeleteIsExact(routes, ref, after[i]);
        assert after[i] in multiset(after) && after[i] in multiset(routes);
        var j :| 0 <= j < |routes| && routes[j] == after[i];
      }
    }
  }

  lemma StepKeepsInv(p: Platform, s: State, e: Event, runId: Text)
    requires Inv(s, runId) && Enabled(s, e, runId) && runId != EMPTY
    ensures Inv(Apply(p, s, e, runId), runId)
  {
    match e
    case Other(op, now) => OtherKeeps(p, s, op, now, runId);
    case Share(ref, share) =>
      SharingKeeps(s.routes, ref, share);
      SharingPasses(s.routes, ref, share, runId, 0);
      PassedIsOk(s, Sharing(s.routes, ref, share), runId, false, 0);
    case Reserve(op, now, delivery) => ReserveKeepsInv(p, s, op, now, delivery, runId);
    case Fail =>
    case Activate(ttl, now, delivery) => ActivateKeepsInv(p, s, ttl, now, delivery, runId);
    case Renew(ref, ttl, now, delivery) => RenewKeepsInv(p, s, e, runId);
    case Finish =>
    case Release(now, delivery) => ReleaseKeepsInv(p, s, e, runId);
    case Delete(now, delivery) => DeleteKeepsInv(p, s, e, runId);
  }

  // ------------------------------------------------------------ whole runs

  /** A run with a new ID on a store in any consistent state. */
  ghost predicate IsGroupRun(p: Platform, states: seq<State>, events: seq<Event>, runId: Text) {
    && |states| == |events| + 1 && runId != EMPTY
    && states[0].client.Starting? && NoneOf(states[0].routes, runId) && Consistent(None, states[0].routes)
    && forall i {:trigger IsStep(p, states, events, runId, i)} :: 0 <= i < |events| ==>
       IsStep(p, states, events, runId, i)
  }

  ghost predicate IsStep(p: Platform, states: seq<State>, events: seq<Event>, runId: Text, i: int)
    requires 0 <= i < |events| && i + 1 < |states|
  {
    Enabled(states[i], events[i], runId) && states[i + 1] == Apply(p, states[i], events[i], runId)
  }

  lemma {:induction false} RunKeepsInv(p: Platform, states: seq<State>, events: seq<Event>, runId: Text, i: nat)
    requires IsGroupRun(p, states, events, runId) && i < |states|
    ensures Inv(states[i], runId)
  {
    if i > 0 {
      RunKeepsInv(p, states, events, runId, i - 1);
      var k := i - 1;
      assert IsStep(p, states, events, runId, k);
      StepKeepsInv(p, states[k], events[k], runId);
    } else {
      NoneExpire(states[0].routes, runId);
    }
  }

  /** Whichever step fails, and whatever other clients do meanwhile, the run ends with
      none of its routes in the store: also if its activation was carried out but reported
      as failed. Only a lost answer to its reservation, or a clean-up call that does not
      reach the router, can leave some. */
  lemma NothingIsLeft(p: Platform, states: seq<State>, events: seq<Event>, runId: Text, i: nat)
    requires IsGroupRun(p, states, events, runId) && i < |states|
    requires states[i].client == Ended(false, false)
    ensures NoneOf(states[i].routes, runId)
  {
    RunKeepsInv(p, states, events, runId, i);
  }

  /** Until then, and in those two cases, each of its routes expires. */
  lemma LeftoversExpire(p: Platform, states: seq<State>, events: seq<Event>, runId: Text, i: nat)
    requires IsGroupRun(p, states, events, runId) && i < |states|
    ensures AllExpire(states[i].routes, runId)
  {
    RunKeepsInv(p, states, events, runId, i);
  }

  /** What has expired goes with the next reservation of anybody else. */
  lemma ExpiredAreSwept(p: Platform, routes: seq<Route>, op: Op, now: Time, runId: Text)
    requires op.ReserveOp? && WellFormed(op) && op.request.runId != runId && Consistent(None, routes)
    requires Routes.Reserve(p, routes, op.request, now, op.ids, op.shares).Ok?
    requires forall i :: 0 <= i < |routes| && routes[i].runId == runId ==> Expired(routes[i], now)
    ensures NoneOf(After(p, routes, op, now), runId)
  {
    var r := Routes.Reserve(p, routes, op.request, now, op.ids, op.shares).value;
    ForeignReservePasses(p, routes, op, now, runId, r.0, r.1);
    forall i | 0 <= i < |r.0| ensures r.0[i].runId != runId {
      assert r.0[i].runId == runId ==> Was(routes, r.0[i], true, now);
    }
  }

  // ------------------------------------------------------------ everybody else's routes

  /** Activating, renewing and releasing leave other runs' routes as they are. */
  lemma BatchLeavesOthers(routes: seq<Route>, runId: Text, refs: seq<RouteRef>, now: Time, ttl: Time, r: Route)
    requires Consistent(None, routes) && r.runId != runId
    ensures r in OrElse(Routes.Activate(routes, runId, refs, now, ttl), routes) <==> r in routes
    ensures r in OrElse(Routes.Release(routes, runId, refs), routes) <==> r in routes
    ensures r in OrElse(Routes.Renew(routes, runId, refs, now, ttl), routes) <==> r in routes
  {
    ActivateLeavesOthers(routes, runId, refs, now, ttl, r);
    RenewLeavesOthers(routes, runId, refs, now, ttl, r);
    if Routes.Release(routes, runId, refs).Ok? {
      ReleaseIsExact(routes, runId, refs, r);
      assert r in multiset(Routes.Release(routes, runId, refs).value) <==> r in multiset(routes);
    }
  }

  lemma ChangedLeaves(routes: seq<Route>, after: seq<Route>, f: Route -> Route, runId: Text, r: Route)
    requires multiset(after) == multiset(Changed(routes, f)) && r.runId != runId
    requires forall i :: 0 <= i < |routes| ==> if routes[i].runId == runId then f(routes[i]).runId == runId
             else f(routes[i]) == routes[i]
    ensures r in after <==> r in routes
  {
    var changed := Changed(routes, f);
    assert r in multiset(after) <==> r in multiset(changed);
    if r in changed {
      var i :| 0 <= i < |changed| && changed[i] == r;
      assert routes[i] == r;
    }
    if r in routes {
      var i :| 0 <= i < |routes| && routes[i] == r;
      assert changed[i] == r;
    }
  }

  lemma ActivateLeavesOthers(routes: seq<Route>, runId: Text, refs: seq<RouteRef>, now: Time, ttl: Time, r: Route)
    requires r.runId != runId
    ensures r in OrElse(Routes.Activate(routes, runId, refs, now, ttl), routes) <==> r in routes
  {
    if Routes.Activate(routes, runId, refs, now, ttl).Ok? {
      ActivateIsExact(routes, runId, refs, now, ttl);
      ChangedLeaves(routes, Routes.Activate(routes, runId, refs, now, ttl).value,
                    (x: Route) => ActivateOne(x, runId, now + ttl), runId, r);
    }
  }

  lemma RenewLeavesOthers(routes: seq<Route>, runId: Text, refs: seq<RouteRef>, now: Time, ttl: Time, r: Route)
    requires Consistent(None, routes) && r.runId != runId
    ensures r in OrElse(Routes.Renew(routes, runId, refs, now, ttl), routes) <==> r in routes
  {
    if Routes.Renew(routes, runId, refs, now, ttl).Ok? {
      RenewIsExact(routes, runId, refs, now, ttl);
      ChangedLeaves(routes, Routes.Renew(routes, runId, refs, now, ttl).value,
                    (x: Route) => RenewOne(x, refs, now + ttl), runId, r);
    }
  }

  /** Deleting its own routes leaves other runs' routes as they are. */
  lemma DeleteLeavesOthers(routes: seq<Route>, ref: RouteRef, runId: Text, r: Route)
    requires Consistent(None, routes) && r.runId != runId
    requires forall i :: 0 <= i < |routes| && routes[i].Ref() == ref ==> routes[i].runId == runId
    ensures r in OrElse(Routes.Delete(routes, ref), routes) <==> r in routes
  {
    if Routes.Delete(routes, ref).Ok? {
      var after := Routes.Delete(routes, ref).value;
      DeleteIsExact(routes, ref, r);
      assert forall i :: 0 <= i < |routes| && routes[i] == r ==> r.Ref() != ref;
      assert r in multiset(after) <==> r in multiset(routes) && r.Ref() != ref;
    }
  }

  /** Reserving for a group, whose services are never shared on the LAN, leaves every
      route that has not expired as it is: those reused as well. */
  lemma GroupReserveLeavesOthers(p: Platform, routes: seq<Route>, op: Op, now: Time, r: Route)
    requires op.ReserveOp? && WellFormed(op) && r.runId != op.request.runId
    requires forall k :: 0 <= k < |op.request.routes| ==> op.request.routes[k].shareMode == NotShared
    ensures r in After(p, routes, op, now) <==> r in routes && (Outcome(p, routes, op, now).Ok? ==> !Expired(r, now))
  {
    if Outcome(p, routes, op, now).Ok? {
      var expiry := now + op.request.ttl;
      var (after, reserved) := Routes.Reserve(p, routes, op.request, now, op.ids, op.shares).value;
      var cs, made := ReserveBuilds(p, routes, op.request, now, op.ids, op.shares, after, reserved, expiry);
      ValidKeepsModes(p, op.request.routes, cs);
      UnsharedBuild(p, routes, now, cs, op.request.runId, expiry, op.ids, op.shares, made, after, r);
    }
  }

  lemma ValidKeepsModes(p: Platform, raw: seq<Candidate>, cs: seq<Candidate>)
    requires ValidateAll(p, raw) == Ok(cs)
    ensures |cs| == |raw| && forall k :: 0 <= k < |cs| ==>
            cs[k].shareMode == raw[k].shareMode && cs[k].reuse == raw[k].reuse
  {
    FirstKeepModes(p, raw, cs, |raw|);
  }

  lemma {:induction false} FirstKeepModes(p: Platform, raw: seq<Candidate>, cs: seq<Candidate>, n: nat)
    requires n <= |raw| && ValidateFirst(p, raw, n) == Ok(cs)
    ensures forall k :: 0 <= k < n ==> cs[k].shareMode == raw[k].shareMode && cs[k].reuse == raw[k].reuse
  {
    if n > 0 {
      FirstKeepModes(p, raw, cs[..n - 1], n - 1);
    }
  }

  lemma {:induction false} UnsharedStage(unexpired: seq<Route>, cs: seq<Candidate>, shares: seq<LANShare?>, n: nat)
    requires n <= |cs| && n <= |shares| && Stage(unexpired, cs, shares, n).Ok?
    requires forall k :: 0 <= k < n ==> cs[k].shareMode == NotShared
    ensures Stage(unexpired, cs, shares, n).value.routes == unexpired
  {
    if n > 0 {
      UnsharedStage(unexpired, cs, shares, n - 1);
      UnsharedReuse(unexpired, cs[n - 1], shares[n - 1]);
    }
  }

  lemma UnsharedReuse(routes: seq<Route>, c: Candidate, share: LANShare?)
    requires ReuseOne(routes, c, share).Ok? && c.shareMode == NotShared
    ensures ReuseOne(routes, c, share).value.0 == routes
  {
  }

  lemma UnsharedBuild(p: Platform, routes: seq<Route>, now: Time, cs: seq<Candidate>, runId: Text, expiry: Time,
                      ids: seq<Text>, shares: seq<LANShare?>, made: Allocation, after: seq<Route>, r: Route)
    requires |cs| == |shares| && Build(p, RemoveExpired(SortRoutes(routes), now), cs, runId, expiry, ids, shares)
             == Ok(made)
    requires after == SortRoutes(made.routes) && r.runId != runId
    requires forall k :: 0 <= k < |cs| ==> cs[k].shareMode == NotShared
    ensures r in after <==> r in routes && !Expired(r, now)
  {
    var unexpired := RemoveExpired(SortRoutes(routes), now);
    var staged := Prepare(p, unexpired, cs, shares).value;
    UnsharedStage(unexpired, cs, shares, |cs|);
    AllocatePlaces(p, unexpired, cs, staged.reused, runId, expiry, ids, shares, |cs|);
    UnexpiredMember(routes, now, r);
    SortedMembers(made.routes, r);
    forall i | |unexpired| <= i < |made.routes| ensures made.routes[i].runId == runId {
      assert IsNew(made.routes[i], cs, runId, expiry);
    }
    if r in made.routes {
      var i :| 0 <= i < |made.routes| && made.routes[i] == r;
      assert made.routes[i] == unexpired[i];
    }
    if r in unexpired {
      var i :| 0 <= i < |unexpired| && unexpired[i] == r;
      assert made.routes[i] == r;
    }
  }
}
