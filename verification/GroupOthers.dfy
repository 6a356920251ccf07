/** What a run leaves of everybody else's routes: on any exit path all of them, those it
    reuses included. */
module GroupOthers {
  import opened Common
  import opened Routes
  import opened RouteFacts
  import opened RouteRuns
  import opened RouteBatches
  import opened GroupRun
  import opened GroupProtocol
  import opened GroupLeftovers

  // ------------------------------------------------------------ whose the identities are

  /** Nobody else draws an ID that the run still holds. */
  ghost predicate DrawsNew(s: State, e: Event) {
    e.Other? && e.op.ReserveOp? ==> forall ref :: ref in RefsOf(s.client) ==> ref.id !in e.op.ids
  }

  ghost predicate AllDrawNew(states: seq<State>, events: seq<Event>) {
    forall i :: 0 <= i < |events| && i < |states| ==> DrawsNew(states[i], events[i])
  }

  /** Every route with an identity that the run holds is the run's. */
  ghost predicate OwnsItsRefs(routes: seq<Route>, refs: seq<RouteRef>, runId: Text) {
    forall i :: 0 <= i < |routes| && routes[i].Ref() in refs ==> routes[i].runId == runId
  }

  ghost predicate HadSame(before: seq<Route>, r: Route) {
    exists j :: 0 <= j < |before| && before[j].Ref() == r.Ref() && before[j].runId == r.runId
  }

  /** Each route was there before, or has one of the new IDs. */
  ghost predicate Descends(before: seq<Route>, after: seq<Route>, ids: seq<Text>) {
    forall i {:trigger HadSame(before, after[i])} :: 0 <= i < |after| ==>
        HadSame(before, after[i]) || after[i].id in ids
  }

  lemma DescendantsAreOwned(before: seq<Route>, after: seq<Route>, ids: seq<Text>, refs: seq<RouteRef>, runId: Text)
    requires OwnsItsRefs(before, refs, runId) && Descends(before, after, ids)
    requires forall ref :: ref in refs ==> ref.id !in ids
    ensures OwnsItsRefs(after, refs, runId)
  {
    forall i | 0 <= i < |after| && after[i].Ref() in refs ensures after[i].runId == runId {
      assert HadSame(before, after[i]);
    }
  }

  lemma SubsetDescends(before: seq<Route>, after: seq<Route>)
    requires forall i :: 0 <= i < |after| ==> after[i] in before
    ensures Descends(before, after, [])
  {
    forall i | 0 <= i < |after| ensures HadSame(before, after[i]) {
      var j :| 0 <= j < |before| && before[j] == after[i];
    }
  }

  lemma ChangedDescends(before: seq<Route>, after: seq<Route>, f: Route -> Route)
    requires multiset(after) == multiset(Changed(before, f))
    requires forall i :: 0 <= i < |before| ==>
             f(before[i]).Ref() == before[i].Ref() && f(before[i]).runId == before[i].runId
    ensures Descends(before, after, [])
  {
    var changed := Changed(before, f);
    forall i | 0 <= i < |after| ensures HadSame(before, after[i]) {
      assert after[i] in multiset(changed);
      var j :| 0 <= j < |changed| && changed[j] == after[i];
      assert before[j].Ref() == after[i].Ref();
    }
  }

  lemma ReserveDescends(p: Platform, routes: seq<Route>, op: Op, now: Time, after: seq<Route>, reserved: seq<Reserved>)
    requires op.ReserveOp? && WellFormed(op)
    requires Routes.Reserve(p, routes, op.request, now, op.ids, op.shares) == Ok((after, reserved))
    ensures Descends(routes, after, op.ids)
  {
    var expiry, unexpired := now + op.request.ttl, RemoveExpired(SortRoutes(routes), now);
    var cs, made := ReserveBuilds(p, routes, op.request, now, op.ids, op.shares, after, reserved, expiry);
    var kept, created := ReserveIsExact(p, unexpired, cs, op.request.runId, expiry, op.ids, op.shares, made);
    BuiltDescends(routes, unexpired, kept, created, after, op.ids, now);
  }

  lemma BuiltDescends(routes: seq<Route>, unexpired: seq<Route>, kept: seq<Route>, created: seq<Route>,
                      after: seq<Route>, ids: seq<Text>, now: Time)
    requires unexpired == RemoveExpired(SortRoutes(routes), now) && KeptButShares(unexpired, kept)
    requires after == SortRoutes(kept + created) && forall i :: 0 <= i < |created| ==> created[i].id in ids
    ensures Descends(routes, after, ids)
  {
    forall i | 0 <= i < |after| ensures HadSame(routes, after[i]) || after[i].id in ids {
      SortedMembers(kept + created, after[i]);
      var k :| 0 <= k < |kept + created| && (kept + created)[k] == after[i];
      if k < |kept| {
        assert ButShare(unexpired[k], kept[k]);
        UnexpiredMember(routes, now, unexpired[k]);
        var j :| 0 <= j < |routes| && routes[j] == unexpired[k];
      }
    }
  }

  lemma BatchDescends(routes: seq<Route>, runId: Text, refs: seq<RouteRef>, now: Time, ttl: Time)
    requires Consistent(None, routes)
    ensures Descends(routes, OrElse(Routes.Activate(routes, runId, refs, now, ttl), routes), [])
    ensures Descends(routes, OrElse(Routes.Renew(routes, runId, refs, now, ttl), routes), [])
  {
    SubsetDescends(routes, routes);
    if Routes.Activate(routes, runId, refs, now, ttl).Ok? {
      ActivateIsExact(routes, runId, refs, now, ttl);
      ChangedDescends(routes, Routes.Activate(routes, runId, refs, now, ttl).value,
                      (r: Route) => ActivateOne(r, runId, now + ttl));
    }
    if Routes.Renew(routes, runId, refs, now, ttl).Ok? {
      RenewIsExact(routes, runId, refs, now, ttl);
      ChangedDescends(routes, Routes.Renew(routes, runId, refs, now, ttl).value,
                      (r: Route) => RenewOne(r, refs, now + ttl));
    }
  }

  lemma RemovalDescends(routes: seq<Route>, runId: Text, refs: seq<RouteRef>, ref: RouteRef)
    requires Consistent(None, routes)
    ensures Descends(routes, OrElse(Routes.Release(routes, runId, refs), routes), [])
    ensures Descends(routes, OrElse(Routes.Delete(routes, ref), routes), [])
  {
    var released := OrElse(Routes.Release(routes, runId, refs), routes);
    forall i | 0 <= i < |released| ensures released[i] in routes {
      if Routes.Release(routes, runId, refs).Ok? {
        ReleaseIsExact(routes, runId, refs, released[i]);
        assert released[i] in multiset(released) && released[i] in multiset(routes);
      }
    }
    SubsetDescends(routes, released);
    var deleted := OrElse(Routes.Delete(routes, ref), routes);
    forall i | 0 <= i < |deleted| ensures deleted[i] in routes {
      if Routes.Delete(routes, ref).Ok? {
        DeleteIsExact(routes, ref, deleted[i]);
        assert deleted[i] in multiset(deleted) && deleted[i] in multiset(routes);
      }
    }
    SubsetDescends(routes, deleted);
  }

  function Drawn(op: Op): seq<Text> {
    if op.ReserveOp? then op.ids else []
  }

  lemma AfterDescends(p: Platform, routes: seq<Route>, op: Op, now: Time)
    requires WellFormed(op) && Consistent(None, routes)
    ensures Descends(routes, After(p, routes, op, now), Drawn(op))
  {
    if Outcome(p, routes, op, now).Err? {
      SubsetDescends(routes, routes);
    } else if op.ReserveOp? {
      var r := Routes.Reserve(p, routes, op.request, now, op.ids, op.shares).value;
      ReserveDescends(p, routes, op, now, r.0, r.1);
    } else if op.ActivateOp? || op.RenewOp? {
      BatchDescends(routes, op.runId, op.refs, now, op.ttl);
    } else if op.ReleaseOp? {
      RemovalDescends(routes, op.runId, op.refs, RouteRef(EMPTY, 0));
    } else {
      RemovalDescends(routes, EMPTY, [], op.ref);
    }
  }

  lemma SharingDescends(routes: seq<Route>, ref: RouteRef, share: LANShare?)
    ensures Descends(routes, Sharing(routes, ref, share), [])
  {
    var sorted, changed, after := SortRoutes(routes), WithShare(routes, ref, share), Sharing(routes, ref, share);
    SharesAside(routes, ref, share);
    forall i | 0 <= i < |after| ensures HadSame(routes, after[i]) {
      SortedMembers(changed, after[i]);
      var k :| 0 <= k < |changed| && changed[k] == after[i];
      assert ShareAside(sorted[k], changed[k]);
      SortedMembers(routes, sorted[k]);
      var j :| 0 <= j < |routes| && routes[j] == sorted[k];
    }
  }

  lemma ReservedAreOwned(p: Platform, routes: seq<Route>, op: Op, now: Time, runId: Text, after: seq<Route>,
                         reserved: seq<Reserved>)
    requires op.ReserveOp? && WellFormed(op) && op.request.runId == runId && NoneOf(routes, runId)
    requires Consistent(None, routes) && FreshIds(routes, op.ids)
    requires Routes.Reserve(p, routes, op.request, now, op.ids, op.shares) == Ok((after, reserved))
    ensures OwnsItsRefs(after, PendingRefs(reserved), runId)
  {
    var refs, expiry := PendingRefs(reserved), now + op.request.ttl;
    OwnReserve(p, routes, op, now, runId, after, reserved, refs, expiry);
  }

  lemma OwnReserveIsOwned(p: Platform, s: State, e: Event, runId: Text)
    requires Inv(s, runId) && Enabled(s, e, runId) && e.Reserve?
    ensures OwnsItsRefs(Apply(p, s, e, runId).routes, RefsOf(Apply(p, s, e, runId).client), runId)
  {
    var r := Routes.Reserve(p, s.routes, e.op.request, e.now, e.op.ids, e.op.shares);
    if e.delivery == Answered && r.Ok? {
      ReservedAreOwned(p, s.routes, e.op, e.now, runId, r.value.0, r.value.1);
    }
  }

  lemma RefsShrink(p: Platform, s: State, e: Event, runId: Text)
    requires Enabled(s, e, runId) && !e.Other? && !e.Reserve?
    ensures forall ref :: ref in RefsOf(Apply(p, s, e, runId).client) ==> ref in RefsOf(s.client)
  {
  }

  lemma BatchStepDescends(p: Platform, s: State, e: Event, runId: Text)
    requires Inv(s, runId) && Enabled(s, e, runId) && (e.Activate? || e.Renew?)
    ensures Descends(s.routes, Apply(p, s, e, runId).routes, [])
  {
    SubsetDescends(s.routes, s.routes);
    if e.Activate? {
      BatchDescends(s.routes, runId, s.client.refs, e.now, e.ttl);
    } else {
      BatchDescends(s.routes, runId, [e.ref], e.now, e.ttl);
    }
  }

  lemma RemovalStepDescends(p: Platform, s: State, e: Event, runId: Text)
    requires Inv(s, runId) && Enabled(s, e, runId) && (e.Release? || e.Delete?)
    ensures Descends(s.routes, Apply(p, s, e, runId).routes, [])
  {
    SubsetDescends(s.routes, s.routes);
    if s.client.refs != [] {
      RemovalDescends(s.routes, runId, s.client.refs, s.client.refs[0]);
    }
  }

  lemma OwnStepDescends(p: Platform, s: State, e: Event, runId: Text)
    requires Inv(s, runId) && Enabled(s, e, runId) && !e.Other? && !e.Reserve?
    ensures Descends(s.routes, Apply(p, s, e, runId).routes, [])
  {
    if e.Activate? || e.Renew? {
      BatchStepDescends(p, s, e, runId);
    } else if e.Release? || e.Delete? {
      RemovalStepDescends(p, s, e, runId);
    } else if e.Share? {
      SharingDescends(s.routes, e.ref, e.share);
    } else {
      SubsetDescends(s.routes, s.routes);
    }
  }

  lemma StepKeepsOwned(p: Platform, s: State, e: Event, runId: Text)
    requires Inv(s, runId) && Enabled(s, e, runId) && DrawsNew(s, e)
    requires OwnsItsRefs(s.routes, RefsOf(s.client), runId)
    ensures OwnsItsRefs(Apply(p, s, e, runId).routes, RefsOf(Apply(p, s, e, runId).client), runId)
  {
    var t := Apply(p, s, e, runId);
    if e.Reserve? {
      OwnReserveIsOwned(p, s, e, runId);
    } else if e.Other? {
      AfterDescends(p, s.routes, e.op, e.now);
      DescendantsAreOwned(s.routes, t.routes, Drawn(e.op), RefsOf(s.client), runId);
    } else {
      OwnStepDescends(p, s, e, runId);
      RefsShrink(p, s, e, runId);
      DescendantsAreOwned(s.routes, t.routes, [], RefsOf(s.client), runId);
    }
  }

  /** In every run in which nobody else draws an ID it still holds, each stored route with
      an identity that the client would clean up is the run's own. */
  lemma {:induction false} RunOwnsItsRefs(p: Platform, states: seq<State>, events: seq<Event>, runId: Text, i: nat)
    requires IsGroupRun(p, states, events, runId) && AllDrawNew(states, events) && i < |states|
    ensures OwnsItsRefs(states[i].routes, RefsOf(states[i].client), runId)
  {
    if i > 0 {
      var k := i - 1;
      RunOwnsItsRefs(p, states, events, runId, k);
      RunKeepsInv(p, states, events, runId, k);
      assert IsStep(p, states, events, runId, k);
      assert DrawsNew(states[k], events[k]);
      StepKeepsOwned(p, states[k], events[k], runId);
    }
  }

  // ------------------------------------------------------------ one step of the run

  predicate IsForeign(e: Event) {
    e.Other? || e.Share?
  }

  /** The run's reservation is carried out, which sweeps what has expired. */
  ghost predicate Accepted(p: Platform, s: State, e: Event) {
    && e.Reserve? && e.op.ReserveOp? && WellFormed(e.op) && e.delivery != Unreached
    && Outcome(p, s.routes, e.op, e.now).Ok?
  }

  ghost predicate SweptBy(p: Platform, s: State, e: Event, r: Route) {
    Accepted(p, s, e) && Expired(r, e.now)
  }

  /** Every route of others stays as it is, unless the step sweeps it, and none comes. */
  ghost predicate OthersKept(p: Platform, s: State, e: Event, after: seq<Route>, runId: Text) {
    && (forall j :: 0 <= j < |s.routes| && s.routes[j].runId != runId ==>
          (s.routes[j] in after <==> !SweptBy(p, s, e, s.routes[j])))
    && (forall j :: 0 <= j < |after| && after[j].runId != runId ==> after[j] in s.routes)
  }

  /** No service of the group is to be shared on the LAN. */
  predicate Unshared(e: Event) {
    e.Reserve? && e.op.ReserveOp? ==>
      forall k :: 0 <= k < |e.op.request.routes| ==> e.op.request.routes[k].shareMode == NotShared
  }

  predicate AllUnshared(events: seq<Event>) {
    forall i :: 0 <= i < |events| ==> Unshared(events[i])
  }

  lemma ReserveLeaves(p: Platform, s: State, e: Event, runId: Text, r: Route)
    requires Enabled(s, e, runId) && e.Reserve? && Unshared(e) && r.runId != runId
    ensures r in Apply(p, s, e, runId).routes <==> r in s.routes && !SweptBy(p, s, e, r)
  {
    GroupReserveLeavesOthers(p, s.routes, e.op, e.now, r);
  }

  lemma DeleteLeavesOther(p: Platform, s: State, e: Event, runId: Text, r: Route)
    requires Inv(s, runId) && Enabled(s, e, runId) && e.Delete? && r.runId != runId
    requires OwnsItsRefs(s.routes, RefsOf(s.client), runId)
    ensures r in Apply(p, s, e, runId).routes <==> r in s.routes
  {
    if s.client.refs != [] {
      DeleteLeavesOthers(s.routes, s.client.refs[0], runId, r);
    }
  }

  lemma BatchLeavesOther(p: Platform, s: State, e: Event, runId: Text, r: Route)
    requires Inv(s, runId) && Enabled(s, e, runId) && (e.Activate? || e.Renew? || e.Release?) && r.runId != runId
    ensures r in Apply(p, s, e, runId).routes <==> r in s.routes
  {
    if e.Activate? {
      BatchLeavesOthers(s.routes, runId, s.client.refs, e.now, e.ttl, r);
    } else if e.Renew? {
      BatchLeavesOthers(s.routes, runId, [e.ref], e.now, e.ttl, r);
    } else {
      BatchLeavesOthers(s.routes, runId, s.client.refs, e.now, 0, r);
    }
  }

  lemma OwnStepLeaves(p: Platform, s: State, e: Event, runId: Text, r: Route)
    requires Inv(s, runId) && Enabled(s, e, runId) && !IsForeign(e) && Unshared(e) && r.runId != runId
    requires OwnsItsRefs(s.routes, RefsOf(s.client), runId)
    ensures r in Apply(p, s, e, runId).routes <==> r in s.routes && !SweptBy(p, s, e, r)
  {
    if e.Reserve? {
      ReserveLeaves(p, s, e, runId, r);
    } else if e.Delete? {
      DeleteLeavesOther(p, s, e, runId, r);
    } else if e.Activate? || e.Renew? || e.Release? {
      BatchLeavesOther(p, s, e, runId, r);
    }
  }

  lemma OwnStepKeepsOthers(p: Platform, s: State, e: Event, runId: Text)
    requires Inv(s, runId) && Enabled(s, e, runId) && !IsForeign(e) && Unshared(e)
    requires OwnsItsRefs(s.routes, RefsOf(s.client), runId)
    ensures OthersKept(p, s, e, Apply(p, s, e, runId).routes, runId)
  {
    var after := Apply(p, s, e, runId).routes;
    forall j | 0 <= j < |s.routes| && s.routes[j].runId != runId
      ensures s.routes[j] in after <==> !SweptBy(p, s, e, s.routes[j])
    {
      OwnStepLeaves(p, s, e, runId, s.routes[j]);
    }
    forall j | 0 <= j < |after| && after[j].runId != runId ensures after[j] in s.routes {
      OwnStepLeaves(p, s, e, runId, after[j]);
    }
  }

  // ------------------------------------------------------------ whole runs

  /** Every step of the run itself leaves the routes of others as they are. */
  ghost predicate LeavesOthers(p: Platform, states: seq<State>, events: seq<Event>, runId: Text) {
    forall i :: 0 <= i < |events| && i + 1 < |states| && !IsForeign(events[i]) ==>
      OthersKept(p, states[i], events[i], states[i + 1].routes, runId)
  }

  lemma RunLeavesOthers(p: Platform, states: seq<State>, events: seq<Event>, runId: Text)
    requires IsGroupRun(p, states, events, runId) && AllDrawNew(states, events) && AllUnshared(events)
    ensures LeavesOthers(p, states, events, runId)
  {
    forall i | 0 <= i < |events| && !IsForeign(events[i])
      ensures OthersKept(p, states[i], events[i], states[i + 1].routes, runId)
    {
      assert IsStep(p, states, events, runId, i);
      RunKeepsInv(p, states, events, runId, i);
      RunOwnsItsRefs(p, states, events, runId, i);
      assert Unshared(events[i]);
      OwnStepKeepsOthers(p, states[i], events[i], runId);
    }
  }

  /** The steps of somebody else that change or remove the route. */
  ghost function TakingsByOthers(states: seq<State>, events: seq<Event>, r: Route): nat -> bool {
    (k: nat) => k < |events| && k + 1 < |states| && IsForeign(events[k])
                && r in states[k].routes && r !in states[k + 1].routes
  }

  ghost predicate TakenByOthers(states: seq<State>, events: seq<Event>, r: Route, a: nat, b: nat) {
    Sometime(TakingsByOthers(states, events, r), a, b)
  }

  lemma StaysInStep(p: Platform, states: seq<State>, events: seq<Event>, runId: Text, r: Route, k: nat)
    requires IsGroupRun(p, states, events, runId) && LeavesOthers(p, states, events, runId)
    requires k < |events| && r.runId != runId && r in states[k].routes && !states[k].client.Starting?
    ensures r in states[k + 1].routes || TakingsByOthers(states, events, r)(k)
  {
    if !IsForeign(events[k]) {
      assert IsStep(p, states, events, runId, k);
      var j :| 0 <= j < |states[k].routes| && states[k].routes[j] == r;
      assert OthersKept(p, states[k], events[k], states[k + 1].routes, runId);
    }
  }

  lemma {:induction false} StaysUnlessTaken(p: Platform, states: seq<State>, events: seq<Event>, runId: Text, r: Route,
                                            a: nat, b: nat)
    requires IsGroupRun(p, states, events, runId) && LeavesOthers(p, states, events, runId)
    requires a <= b < |states| && r.runId != runId && r in states[a].routes && !states[a].client.Starting?
    ensures r in states[b].routes || TakenByOthers(states, events, r, a, b)
    decreases b
  {
    if a < b {
      StaysUnlessTaken(p, states, events, runId, r, a, b - 1);
      RankGrows(p, states, events, runId, a, b - 1);
      if r in states[b - 1].routes {
        StaysInStep(p, states, events, runId, r, b - 1);
      }
    }
  }

  // ------------------------------------------------------------ reused routes

  /** At h the run reserves, to reuse the route r; it does not change r, and up to the end
      only somebody else does. */
  ghost predicate ReusedStays(states: seq<State>, events: seq<Event>, runId: Text, r: Route, h: nat) {
    && r.runId != runId && !r.IsPending() && h + 1 < |states| && r in states[h + 1].routes
    && forall b :: h < b < |states| ==> r in states[b].routes || TakenByOthers(states, events, r, h + 1, b)
  }

  ghost predicate NamedStays(states: seq<State>, events: seq<Event>, runId: Text, ref: RouteRef, h: nat)
    requires h < |states|
  {
    exists j ::
      && 0 <= j < |states[h].routes| && states[h].routes[j].Ref() == ref
      && ReusedStays(states, events, runId, states[h].routes[j], h)
  }

  /** So it is for every route that an accepted reservation of the run names for reuse. */
  ghost predicate ReusedStay(p: Platform, states: seq<State>, events: seq<Event>, runId: Text) {
    forall h :: 0 <= h < |events| && h < |states| && Accepted(p, states[h], events[h]) ==>
      forall k :: 0 <= k < |events[h].op.request.routes| && events[h].op.request.routes[k].reuse.Some? ==>
        NamedStays(states, events, runId, events[h].op.request.routes[k].reuse.value, h)
  }

  /** What a staged candidate names for reuse is among the unexpired routes. */
  lemma {:induction false} StagedReuses(unexpired: seq<Route>, cs: seq<Candidate>, shares: seq<LANShare?>, n: nat,
                                        k: nat)
    requires k < n <= |cs| && n <= |shares| && Stage(unexpired, cs, shares, n).Ok? && cs[k].reuse.Some?
    requires forall i :: 0 <= i < n ==> cs[i].shareMode == NotShared
    ensures FindRef(unexpired, cs[k].reuse.value).Some?
    ensures !unexpired[FindRef(unexpired, cs[k].reuse.value).value].IsPending()
    decreases n
  {
    if k < n - 1 {
      StagedReuses(unexpired, cs, shares, n - 1, k);
    } else {
      UnsharedStage(unexpired, cs, shares, k);
    }
  }

  lemma AcceptedReuses(p: Platform, routes: seq<Route>, op: Op, now: Time, after: seq<Route>, reserved: seq<Reserved>,
                       k: nat)
    returns (j: nat)
    requires op.ReserveOp? && WellFormed(op) && k < |op.request.routes| && op.request.routes[k].reuse.Some?
    requires forall i :: 0 <= i < |op.request.routes| ==> op.request.routes[i].shareMode == NotShared
    requires Routes.Reserve(p, routes, op.request, now, op.ids, op.shares) == Ok((after, reserved))
    ensures j < |routes| && routes[j].Ref() == op.request.routes[k].reuse.value
    ensures !routes[j].IsPending() && !Expired(routes[j], now)
  {
    var expiry, unexpired := now + op.request.ttl, RemoveExpired(SortRoutes(routes), now);
    var cs, made := ReserveBuilds(p, routes, op.request, now, op.ids, op.shares, after, reserved, expiry);
    ValidKeepsModes(p, op.request.routes, cs);
    StagedReuses(unexpired, cs, op.shares, |cs|, k);
    var i := FindRef(unexpired, cs[k].reuse.value).value;
    UnexpiredMember(routes, now, unexpired[i]);
    j :| 0 <= j < |routes| && routes[j] == unexpired[i];
  }

  lemma ReusedRouteStays(p: Platform, states: seq<State>, events: seq<Event>, runId: Text, h: nat, k: nat)
    returns (j: nat)
    requires IsGroupRun(p, states, events, runId) && AllDrawNew(states, events) && AllUnshared(events)
    requires h < |events| && Accepted(p, states[h], events[h])
    requires k < |events[h].op.request.routes| && events[h].op.request.routes[k].reuse.Some?
    ensures j < |states[h].routes| && states[h].routes[j].Ref() == events[h].op.request.routes[k].reuse.value
    ensures ReusedStays(states, events, runId, states[h].routes[j], h)
  {
    var s, e := states[h], events[h];
    assert IsStep(p, states, events, runId, h) && Unshared(e);
    RunKeepsInv(p, states, events, runId, h);
    RunLeavesOthers(p, states, events, runId);
    var r := Routes.Reserve(p, s.routes, e.op.request, e.now, e.op.ids, e.op.shares).value;
    j := AcceptedReuses(p, s.routes, e.op, e.now, r.0, r.1, k);
    var route := s.routes[j];
    ReserveLeaves(p, s, e, runId, route);
    forall b | h < b < |states| ensures route in states[b].routes || TakenByOthers(states, events, route, h + 1, b) {
      StaysUnlessTaken(p, states, events, runId, route, h + 1, b);
    }
  }

  /** On every exit path the routes that a group run reuses are left as they are: whatever
      step fails, and whenever it ends, only others change or remove them. */
  lemma RunLeavesReused(p: Platform, states: seq<State>, events: seq<Event>, runId: Text)
    requires IsGroupRun(p, states, events, runId) && AllDrawNew(states, events) && AllUnshared(events)
    ensures ReusedStay(p, states, events, runId)
  {
    forall h, k | 0 <= h < |events| && Accepted(p, states[h], events[h])
                  && 0 <= k < |events[h].op.request.routes| && events[h].op.request.routes[k].reuse.Some?
      ensures NamedStays(states, events, runId, events[h].op.request.routes[k].reuse.value, h)
    {
      var j := ReusedRouteStays(p, states, events, runId, h, k);
    }
  }
}
