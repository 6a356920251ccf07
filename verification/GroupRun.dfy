/** A run of one service or a group of services against the route store
    (runPlannedGroup of internal/app/group.go, runPlannedSingle of
    internal/app/planned.go): reserve, activate, renew, and clean up on every way out,
    while other clients use the store and any call may fail. */
module GroupRun {
  import opened Common
  import opened Routes
  import opened RouteFacts
  import opened RouteRuns
  import opened RouteBatches

  // ------------------------------------------------------------ the run's routes

  ghost predicate NoneOf(routes: seq<Route>, runId: Text) {
    forall i :: 0 <= i < |routes| ==> routes[i].runId != runId
  }

  /** The run's routes have their identities among these. */
  ghost predicate Within(routes: seq<Route>, runId: Text, refs: seq<RouteRef>) {
    forall i :: 0 <= i < |routes| && routes[i].runId == runId ==> routes[i].Ref() in refs
  }

  predicate ExpiresAt(r: Route, pending: bool, expiry: Time) {
    if pending then r.IsPending() && r.reservationExpiresAt == Some(expiry)
    else r.state == Active && r.leaseExpiresAt == Some(expiry)
  }

  ghost predicate Uniform(routes: seq<Route>, runId: Text, pending: bool, expiry: Time) {
    forall i :: 0 <= i < |routes| && routes[i].runId == runId ==> ExpiresAt(routes[i], pending, expiry)
  }

  /** The run has exactly the routes it made, alike in state and expiry, or none. */
  ghost predicate Whole(routes: seq<Route>, runId: Text, refs: seq<RouteRef>, pending: bool, expiry: Time) {
    NoneOf(routes, runId)
    || (refs != [] && ListsExactly(routes, refs, runId, false) && Uniform(routes, runId, pending, expiry))
  }

  predicate HasExpiry(r: Route) {
    if r.IsPending() then r.reservationExpiresAt.Some? else r.leaseExpiresAt.Some?
  }

  /** No route of the run stays for good. */
  ghost predicate AllExpire(routes: seq<Route>, runId: Text) {
    forall i :: 0 <= i < |routes| && routes[i].runId == runId ==> HasExpiry(routes[i])
  }

  // ------------------------------------------------------------ other clients

  /** An operation of another client: it does not use this run's ID, and does not delete
      its routes. */
  ghost predicate Foreign(routes: seq<Route>, op: Op, runId: Text) {
    match op
    case ReserveOp(request, _, _) => request.runId != runId
    case ActivateOp(other, _, _) => other != runId
    case ReleaseOp(other, _) => other != runId
    case RenewOp(other, _, _) => other != runId
    case DeleteOp(ref) => forall i :: 0 <= i < |routes| && routes[i].runId == runId ==> routes[i].Ref() != ref
  }

  predicate Swept(r: Route, sweep: bool, now: Time) {
    sweep && Expired(r, now)
  }

  /** The same route, whatever its share. */
  predicate ShareAside(before: Route, after: Route) {
    after == before.(share := after.share)
  }

  /** The route was there before, but for its share, and was not swept. */
  ghost predicate Was(before: seq<Route>, r: Route, sweep: bool, now: Time) {
    exists j :: 0 <= j < |before| && ShareAside(before[j], r) && !Swept(before[j], sweep, now)
  }

  /** The route is still there, but for its share. */
  ghost predicate Still(after: seq<Route>, r: Route) {
    exists i :: 0 <= i < |after| && ShareAside(r, after[i])
  }

  /** Each of the run's routes was there before and was not swept. */
  ghost predicate CameFrom(before: seq<Route>, after: seq<Route>, runId: Text, sweep: bool, now: Time) {
    forall i {:trigger Was(before, after[i], sweep, now)} :: 0 <= i < |after| && after[i].runId == runId ==>
      Was(before, after[i], sweep, now)
  }

  /** Each of the run's routes that was not swept is still there. */
  ghost predicate LivesOn(before: seq<Route>, after: seq<Route>, runId: Text, sweep: bool, now: Time) {
    forall j {:trigger Still(after, before[j])} ::
      0 <= j < |before| && before[j].runId == runId && !Swept(before[j], sweep, now) ==> Still(after, before[j])
  }

  /** Of the run's routes exactly those not swept as expired have passed through. */
  ghost predicate Passes(before: seq<Route>, after: seq<Route>, runId: Text, sweep: bool, now: Time) {
    CameFrom(before, after, runId, sweep, now) && LivesOn(before, after, runId, sweep, now)
  }

  lemma SameMembersPass(before: seq<Route>, after: seq<Route>, runId: Text, now: Time)
    requires forall r: Route :: r in before || r in after ==> r.runId == runId ==> (r in after <==> r in before)
    ensures Passes(before, after, runId, false, now)
  {
    forall i | 0 <= i < |after| && after[i].runId == runId
      ensures Was(before, after[i], false, now)
    {
      assert after[i] in before;
      var j :| 0 <= j < |before| && before[j] == after[i];
    }
    forall j | 0 <= j < |before| && before[j].runId == runId ensures Still(after, before[j]) {
      assert before[j] in after;
      var i :| 0 <= i < |after| && after[i] == before[j];
    }
  }

  /** Changing other routes only. */
  lemma ChangedPasses(before: seq<Route>, after: seq<Route>, f: Route -> Route, runId: Text, now: Time)
    requires multiset(after) == multiset(Changed(before, f))
    requires forall i :: 0 <= i < |before| ==>
      if before[i].runId == runId then f(before[i]) == before[i] else f(before[i]).runId != runId
    ensures Passes(before, after, runId, false, now)
  {
    var changed := Changed(before, f);
    forall i | 0 <= i < |after| && after[i].runId == runId
      ensures Was(before, after[i], false, now)
    {
      assert after[i] in multiset(changed);
      var j :| 0 <= j < |changed| && changed[j] == after[i];
      assert before[j] == after[i];
    }
    forall j | 0 <= j < |before| && before[j].runId == runId ensures Still(after, before[j]) {
      assert changed[j] == before[j] && changed[j] in multiset(after);
      var i :| 0 <= i < |after| && after[i] == before[j];
    }
  }

  lemma ForeignActivatePasses(routes: seq<Route>, op: Op, now: Time, runId: Text)
    requires op.ActivateOp? && op.runId != runId && Activate(routes, op.runId, op.refs, now, op.ttl).Ok?
    ensures Passes(routes, Activate(routes, op.runId, op.refs, now, op.ttl).value, runId, false, now)
  {
    ActivateIsExact(routes, op.runId, op.refs, now, op.ttl);
    ChangedPasses(routes, Activate(routes, op.runId, op.refs, now, op.ttl).value,
                  (r: Route) => ActivateOne(r, op.runId, now + op.ttl), runId, now);
  }

  lemma ForeignRenewPasses(routes: seq<Route>, op: Op, now: Time, runId: Text)
    requires op.RenewOp? && op.runId != runId && Renew(routes, op.runId, op.refs, now, op.ttl).Ok?
             && Consistent(None, routes)
    ensures Passes(routes, Renew(routes, op.runId, op.refs, now, op.ttl).value, runId, false, now)
  {
    RenewPasses(routes, op.runId, op.refs, now, op.ttl, runId);
  }

  lemma RenewPasses(routes: seq<Route>, other: Text, refs: seq<RouteRef>, now: Time, ttl: Time, runId: Text)
    requires other != runId && Consistent(None, routes) && Renew(routes, other, refs, now, ttl).Ok?
    ensures Passes(routes, Renew(routes, other, refs, now, ttl).value, runId, false, now)
  {
    RenewIsExact(routes, other, refs, now, ttl);
    ChangedPasses(routes, Renew(routes, other, refs, now, ttl).value, (r: Route) => RenewOne(r, refs, now + ttl),
                  runId, now);
  }

  lemma ForeignReleasePasses(routes: seq<Route>, op: Op, now: Time, runId: Text)
    requires op.ReleaseOp? && op.runId != runId && Release(routes, op.runId, op.refs).Ok?
    ensures Passes(routes, Release(routes, op.runId, op.refs).value, runId, false, now)
  {
    var after := Release(routes, op.runId, op.refs).value;
    forall r: Route | (r in routes || r in after) && r.runId == runId ensures r in after <==> r in routes {
      ReleaseIsExact(routes, op.runId, op.refs, r);
      assert r in multiset(after) <==> r in multiset(routes);
    }
    SameMembersPass(routes, after, runId, now);
  }

  lemma ForeignDeletePasses(routes: seq<Route>, ref: RouteRef, now: Time, runId: Text)
    requires Foreign(routes, DeleteOp(ref), runId) && Delete(routes, ref).Ok? && Consistent(None, routes)
    ensures Passes(routes, Delete(routes, ref).value, runId, false, now)
  {
    var after := Delete(routes, ref).value;
    forall r: Route | (r in routes || r in after) && r.runId == runId ensures r in after <==> r in routes {
      DeleteIsExact(routes, ref, r);
      assert r in multiset(after) ==> r in multiset(routes);
      assert r in multiset(routes) && r.Ref() != ref ==> r in multiset(after);
    }
    SameMembersPass(routes, after, runId, now);
  }

  lemma UnexpiredMember(routes: seq<Route>, now: Time, r: Route)
    ensures r in RemoveExpired(SortRoutes(routes), now) <==> r in routes && !Expired(r, now)
  {
    UnexpiredMembers(SortRoutes(routes), now, r);
    SortedMembers(routes, r);
  }

  lemma ForeignReservePasses(p: Platform, routes: seq<Route>, op: Op, now: Time, runId: Text,
                             after: seq<Route>, reserved: seq<Reserved>)
    requires op.ReserveOp? && WellFormed(op) && op.request.runId != runId
    requires Reserve(p, routes, op.request, now, op.ids, op.shares) == Ok((after, reserved))
    ensures Passes(routes, after, runId, true, now)
  {
    var expiry := now + op.request.ttl;
    var cs, made := ReserveBuilds(p, routes, op.request, now, op.ids, op.shares, after, reserved, expiry);
    BuildPasses(p, routes, now, cs, op.request.runId, expiry, op.ids, op.shares, made, after, runId);
  }

  lemma BuildPasses(p: Platform, routes: seq<Route>, now: Time, cs: seq<Candidate>, other: Text, expiry: Time,
                    ids: seq<Text>, shares: seq<LANShare?>, made: Allocation, after: seq<Route>, runId: Text)
    requires |cs| == |shares| && Build(p, RemoveExpired(SortRoutes(routes), now), cs, other, expiry, ids, shares)
             == Ok(made)
    requires after == SortRoutes(made.routes) && other != runId
    ensures Passes(routes, after, runId, true, now)
  {
    var unexpired := RemoveExpired(SortRoutes(routes), now);
    var kept, created := ReserveIsExact(p, unexpired, cs, other, expiry, ids, shares, made);
    BuiltPasses(routes, unexpired, kept, created, after, other, expiry, cs, runId, now);
  }

  lemma BuiltPasses(routes: seq<Route>, unexpired: seq<Route>, kept: seq<Route>, created: seq<Route>, after: seq<Route>,
                    other: Text, expiry: Time, cs: seq<Candidate>, runId: Text, now: Time)
    requires unexpired == RemoveExpired(SortRoutes(routes), now) && KeptButShares(unexpired, kept)
    requires after == SortRoutes(kept + created) && other != runId
    requires forall i :: 0 <= i < |created| ==> IsNew(created[i], cs, other, expiry)
    ensures Passes(routes, after, runId, true, now)
  {
    forall k | 0 <= k < |created| ensures created[k].runId == other {
      assert IsNew(created[k], cs, other, expiry);
    }
    forall i | 0 <= i < |after| && after[i].runId == runId
      ensures Was(routes, after[i], true, now)
    {
      SortedMembers(kept + created, after[i]);
      var k :| 0 <= k < |kept + created| && (kept + created)[k] == after[i];
      assert ButShare(unexpired[k], kept[k]);
      UnexpiredMember(routes, now, unexpired[k]);
      var j :| 0 <= j < |routes| && routes[j] == unexpired[k];
    }
    forall j | 0 <= j < |routes| && routes[j].runId == runId && !Swept(routes[j], true, now)
      ensures Still(after, routes[j])
    {
      UnexpiredMember(routes, now, routes[j]);
      var k :| 0 <= k < |unexpired| && unexpired[k] == routes[j];
      assert ButShare(unexpired[k], kept[k]) && (kept + created)[k] == kept[k];
      SortedMembers(kept + created, kept[k]);
      var i :| 0 <= i < |after| && after[i] == kept[k];
    }
  }

  /** Whatever another client does, the run's routes pass through. */
  lemma ForeignPasses(p: Platform, routes: seq<Route>, op: Op, now: Time, runId: Text) returns (sweep: bool)
    requires WellFormed(op) && Foreign(routes, op, runId) && Consistent(None, routes)
    ensures Passes(routes, After(p, routes, op, now), runId, sweep, now)
    ensures sweep <==> op.ReserveOp? && Outcome(p, routes, op, now).Ok?
  {
    sweep := op.ReserveOp? && Outcome(p, routes, op, now).Ok?;
    if Outcome(p, routes, op, now).Err? {
      SameMembersPass(routes, routes, runId, now);
    } else if op.ReserveOp? {
      var r := Reserve(p, routes, op.request, now, op.ids, op.shares).value;
      ForeignReservePasses(p, routes, op, now, runId, r.0, r.1);
    } else if op.ActivateOp? {
      ForeignActivatePasses(routes, op, now, runId);
    } else if op.ReleaseOp? {
      ForeignReleasePasses(routes, op, now, runId);
    } else if op.RenewOp? {
      ForeignRenewPasses(routes, op, now, runId);
    } else {
      ForeignDeletePasses(routes, op.ref, now, runId);
    }
  }

  /** What a LAN share update leaves in the store: one route has got or lost a share. */
  function Sharing(routes: seq<Route>, ref: RouteRef, share: LANShare?): seq<Route> {
    SortRoutes(WithShare(routes, ref, share))
  }

  lemma SharesAside(routes: seq<Route>, ref: RouteRef, share: LANShare?)
    ensures var sorted, changed := SortRoutes(routes), WithShare(routes, ref, share);
            |changed| == |sorted| && forall k :: 0 <= k < |sorted| ==> ShareAside(sorted[k], changed[k])
  {
  }

  lemma SharingPasses(routes: seq<Route>, ref: RouteRef, share: LANShare?, runId: Text, now: Time)
    ensures Passes(routes, Sharing(routes, ref, share), runId, false, now)
  {
    var sorted, changed, after := SortRoutes(routes), WithShare(routes, ref, share), Sharing(routes, ref, share);
    SharesAside(routes, ref, share);
    forall i | 0 <= i < |after| && after[i].runId == runId ensures Was(routes, after[i], false, now) {
      SortedMembers(changed, after[i]);
      var k :| 0 <= k < |changed| && changed[k] == after[i];
      SortedMembers(routes, sorted[k]);
      var j :| 0 <= j < |routes| && routes[j] == sorted[k];
      assert ShareAside(routes[j], after[i]);
    }
    forall j | 0 <= j < |routes| && routes[j].runId == runId ensures Still(after, routes[j]) {
      SortedMembers(routes, routes[j]);
      var k :| 0 <= k < |sorted| && sorted[k] == routes[j];
      SortedMembers(changed, changed[k]);
      var i :| 0 <= i < |after| && after[i] == changed[k];
    }
  }

  lemma SharingKeeps(routes: seq<Route>, ref: RouteRef, share: LANShare?)
    requires Consistent(None, routes)
    ensures Consistent(None, Sharing(routes, ref, share))
  {
    var changed := WithShare(routes, ref, share);
    SortConsistent(None, routes);
    SharesAside(routes, ref, share);
    forall k | 0 <= k < |changed| ensures SameIdentity(None, SortRoutes(routes)[k], changed[k]) {
      assert ShareAside(SortRoutes(routes)[k], changed[k]);
    }
    SameIdentities(None, SortRoutes(routes), changed);
    SortConsistent(None, changed);
  }

  // ------------------------------------------------------------ what passing keeps

  lemma PassKeepsNone(before: seq<Route>, after: seq<Route>, runId: Text, sweep: bool, now: Time)
    requires NoneOf(before, runId) && CameFrom(before, after, runId, sweep, now)
    ensures NoneOf(after, runId)
  {
    forall i | 0 <= i < |after| ensures after[i].runId != runId {
      assert after[i].runId == runId ==> Was(before, after[i], sweep, now);
    }
  }

  lemma PassKeepsWithin(before: seq<Route>, after: seq<Route>, runId: Text, refs: seq<RouteRef>, sweep: bool, now: Time)
    requires Within(before, runId, refs) && CameFrom(before, after, runId, sweep, now)
    ensures Within(after, runId, refs)
  {
    forall i | 0 <= i < |after| && after[i].runId == runId ensures after[i].Ref() in refs {
      assert Was(before, after[i], sweep, now);
    }
  }

  lemma PassKeepsExpiry(before: seq<Route>, after: seq<Route>, runId: Text, sweep: bool, now: Time)
    requires AllExpire(before, runId) && CameFrom(before, after, runId, sweep, now)
    ensures AllExpire(after, runId)
  {
    forall i | 0 <= i < |after| && after[i].runId == runId ensures HasExpiry(after[i]) {
      assert Was(before, after[i], sweep, now);
    }
  }

  lemma AllSwept(before: seq<Route>, after: seq<Route>, runId: Text, pending: bool, expiry: Time, now: Time)
    requires Uniform(before, runId, pending, expiry) && CameFrom(before, after, runId, true, now) && expiry <= now
    ensures NoneOf(after, runId)
  {
    forall j | 0 <= j < |before| && before[j].runId == runId ensures Swept(before[j], true, now) {
      assert ExpiresAt(before[j], pending, expiry);
    }
    forall i | 0 <= i < |after| ensures after[i].runId != runId {
      assert after[i].runId == runId ==> Was(before, after[i], true, now);
    }
  }

  /** The run's routes, all alike, are swept together or not at all. */
  lemma PassKeepsWhole(before: seq<Route>, after: seq<Route>, runId: Text, refs: seq<RouteRef>, pending: bool,
                       expiry: Time, sweep: bool, now: Time)
    requires Whole(before, runId, refs, pending, expiry) && Consistent(None, after)
    requires CameFrom(before, after, runId, sweep, now) && LivesOn(before, after, runId, sweep, now)
    ensures Whole(after, runId, refs, pending, expiry)
  {
    if NoneOf(before, runId) {
      PassKeepsNone(before, after, runId, sweep, now);
    } else if sweep && expiry <= now {
      AllSwept(before, after, runId, pending, expiry, now);
    } else {
      OnlyThose(before, after, runId, refs, pending, expiry, sweep, now);
      forall k | 0 <= k < |refs| ensures HasOwn(after, refs[k], runId) {
        var i := RefLivesOn(before, after, runId, refs, pending, expiry, sweep, now, k);
      }
      ListedAgain(after, runId, refs);
    }
  }

  lemma OnlyThose(before: seq<Route>, after: seq<Route>, runId: Text, refs: seq<RouteRef>, pending: bool, expiry: Time,
                  sweep: bool, now: Time)
    requires ListsExactly(before, refs, runId, false) && Uniform(before, runId, pending, expiry)
    requires CameFrom(before, after, runId, sweep, now)
    ensures Within(after, runId, refs) && Uniform(after, runId, pending, expiry)
  {
    forall i | 0 <= i < |after| && after[i].runId == runId
      ensures after[i].Ref() in refs && ExpiresAt(after[i], pending, expiry)
    {
      assert Was(before, after[i], sweep, now);
      var j :| 0 <= j < |before| && ShareAside(before[j], after[i]) && !Swept(before[j], sweep, now);
      assert before[j].Ref() in refs && ExpiresAt(before[j], pending, expiry);
    }
  }

  lemma RefLivesOn(before: seq<Route>, after: seq<Route>, runId: Text, refs: seq<RouteRef>, pending: bool, expiry: Time,
                   sweep: bool, now: Time, k: nat) returns (i: nat)
    requires ListsExactly(before, refs, runId, false) && Uniform(before, runId, pending, expiry)
    requires LivesOn(before, after, runId, sweep, now) && !(sweep && expiry <= now) && k < |refs|
    ensures i < |after| && after[i].Ref() == refs[k] && after[i].runId == runId
  {
    assert HasRef(before, refs[k]);
    var j :| 0 <= j < |before| && before[j].Ref() == refs[k];
    assert before[j].Ref() in refs && ExpiresAt(before[j], pending, expiry);
    assert !Swept(before[j], sweep, now);
    assert Still(after, before[j]);
    i :| 0 <= i < |after| && ShareAside(before[j], after[i]);
  }

  ghost predicate HasOwn(routes: seq<Route>, ref: RouteRef, runId: Text) {
    exists i :: 0 <= i < |routes| && routes[i].Ref() == ref && routes[i].runId == runId
  }

  lemma ListedAgain(after: seq<Route>, runId: Text, refs: seq<RouteRef>)
    requires NoDup(refs) && Within(after, runId, refs) && Consistent(None, after)
    requires forall k :: 0 <= k < |refs| ==> HasOwn(after, refs[k], runId)
    ensures ListsExactly(after, refs, runId, false)
  {
    forall k | 0 <= k < |refs| ensures HasRef(after, refs[k]) {
      assert HasOwn(after, refs[k], runId);
    }
    forall i | 0 <= i < |after| ensures after[i].Ref() in refs <==> after[i].runId == runId {
      if after[i].Ref() in refs {
        var k :| 0 <= k < |refs| && refs[k] == after[i].Ref();
        assert HasOwn(after, refs[k], runId);
        var l :| 0 <= l < |after| && after[l].Ref() == refs[k] && after[l].runId == runId;
        SameRefSame(after, i, l);
      }
    }
  }

  lemma SameRefSame(routes: seq<Route>, i: nat, j: nat)
    requires Consistent(None, routes) && i < |routes| && j < |routes| && routes[i].Ref() == routes[j].Ref()
    ensures i == j
  {
  }

  lemma DifferentRefs(routes: seq<Route>, i: nat, j: nat)
    requires Consistent(None, routes) && i < j < |routes|
    ensures routes[i].Ref() != routes[j].Ref()
  {
    assert Compatible(None, routes[i], routes[j]);
  }

  // ------------------------------------------------------------ the run's own calls

  /** Its reservation: the routes it made are listed in the answer, all pending alike. */
  lemma OwnReserve(p: Platform, routes: seq<Route>, op: Op, now: Time, runId: Text, after: seq<Route>,
                   reserved: seq<Reserved>, refs: seq<RouteRef>, expiry: Time)
    requires op.ReserveOp? && WellFormed(op) && op.request.runId == runId && NoneOf(routes, runId)
    requires expiry == now + op.request.ttl
    requires Consistent(None, routes) && FreshIds(routes, op.ids)
    requires Reserve(p, routes, op.request, now, op.ids, op.shares) == Ok((after, reserved))
             && refs == PendingRefs(reserved)
    ensures Consistent(None, after) && Whole(after, runId, refs, true, expiry)
    ensures refs != [] ==> !NoneOf(after, runId)
  {
    var cs, made := ReserveBuilds(p, routes, op.request, now, op.ids, op.shares, after, reserved, expiry);
    OwnBuild(p, routes, now, cs, runId, expiry, op.ids, op.shares, made, after, refs);
  }

  lemma OwnBuild(p: Platform, routes: seq<Route>, now: Time, cs: seq<Candidate>, runId: Text, expiry: Time,
                 ids: seq<Text>, shares: seq<LANShare?>, made: Allocation, after: seq<Route>, refs: seq<RouteRef>)
    requires |cs| == |shares| && Build(p, RemoveExpired(SortRoutes(routes), now), cs, runId, expiry, ids, shares)
             == Ok(made)
    requires after == SortRoutes(made.routes) && refs == PendingRefs(made.reserved)
    requires NoneOf(routes, runId) && Consistent(None, routes) && FreshIds(routes, ids)
    ensures Consistent(None, after) && Whole(after, runId, refs, true, expiry)
    ensures refs != [] ==> !NoneOf(after, runId)
  {
    var unexpired := RemoveExpired(SortRoutes(routes), now);
    var kept, created := ReserveIsExact(p, unexpired, cs, runId, expiry, ids, shares, made);
    BuiltIsStored(None, p, routes, now, cs, runId, expiry, ids, shares, made, after);
    NoneKept(routes, unexpired, kept, runId, now);
    BuiltIsWhole(kept, created, after, cs, runId, expiry);
  }

  lemma NoneKept(routes: seq<Route>, unexpired: seq<Route>, kept: seq<Route>, runId: Text, now: Time)
    requires NoneOf(routes, runId) && unexpired == RemoveExpired(SortRoutes(routes), now)
             && KeptButShares(unexpired, kept)
    ensures NoneOf(kept, runId)
  {
    forall i | 0 <= i < |kept| ensures kept[i].runId != runId {
      assert ButShare(unexpired[i], kept[i]);
      UnexpiredMember(routes, now, unexpired[i]);
      var j :| 0 <= j < |routes| && routes[j] == unexpired[i];
    }
  }

  lemma BuiltIsWhole(kept: seq<Route>, created: seq<Route>, after: seq<Route>, cs: seq<Candidate>, runId: Text,
                     expiry: Time)
    requires NoneOf(kept, runId) && after == SortRoutes(kept + created) && Consistent(None, after)
    requires forall i :: 0 <= i < |created| ==> IsNew(created[i], cs, runId, expiry)
    ensures Whole(after, runId, Refs(created), true, expiry)
    ensures created != [] ==> !NoneOf(after, runId)
  {
    var all, refs := kept + created, Refs(created);
    SortIsPermutation(all);
    PermutedConsistent(None, after, all);
    forall k | 0 <= k < |created| ensures all[|kept| + k] == created[k] && IsNew(created[k], cs, runId, expiry) {
    }
    forall i | 0 <= i < |all| ensures all[i].runId == runId <==> all[i].Ref() in refs {
      if i < |kept| {
        assert all[i] == kept[i];
        forall k | 0 <= k < |refs| ensures refs[k] != all[i].Ref() {
          DifferentRefs(all, i, |kept| + k);
        }
      } else {
        assert all[i] == created[i - |kept|] && refs[i - |kept|] == all[i].Ref();
      }
    }
    forall i, j | 0 <= i < j < |refs| ensures refs[i] != refs[j] {
      DifferentRefs(all, |kept| + i, |kept| + j);
    }
    ListedAfterSort(all, after, refs, runId, expiry, created, |kept|);
  }

  lemma ListedAfterSort(all: seq<Route>, after: seq<Route>, refs: seq<RouteRef>, runId: Text, expiry: Time,
                        created: seq<Route>, at: nat)
    requires multiset(after) == multiset(all) && NoDup(refs) && refs == Refs(created) && at + |created| == |all|
    requires forall k :: 0 <= k < |created| ==> all[at + k] == created[k] && ExpiresAt(created[k], true, expiry)
    requires forall i :: 0 <= i < |all| ==> (all[i].runId == runId <==> all[i].Ref() in refs)
    requires forall i :: 0 <= i < at ==> all[i].runId != runId
    ensures Whole(after, runId, refs, true, expiry)
    ensures created != [] ==> !NoneOf(after, runId)
  {
    forall k | 0 <= k < |refs| ensures HasRef(all, refs[k]) {
      assert all[at + k].Ref() == refs[k];
    }
    assert ListsExactly(all, refs, runId, false);
    ListsPermuted(all, after, refs, runId, false);
    forall i | 0 <= i < |after| && after[i].runId == runId ensures ExpiresAt(after[i], true, expiry) {
      assert after[i] in multiset(all);
      var j :| 0 <= j < |all| && all[j] == after[i];
      assert all[j] == created[j - at];
    }
    if created == [] {
      forall i | 0 <= i < |after| ensures after[i].runId != runId {
        assert after[i] in multiset(all);
      }
    } else {
      assert all[at].Ref() == refs[0];
      assert HasRef(after, refs[0]);
      var i :| 0 <= i < |after| && after[i].Ref() == refs[0];
    }
  }

  /** Its activation turns all its routes active alike. */
  lemma OwnActivate(routes: seq<Route>, runId: Text, refs: seq<RouteRef>, now: Time, ttl: Time, expiry: Time)
    requires Whole(routes, runId, refs, true, expiry) && Activate(routes, runId, refs, now, ttl).Ok?
    ensures Whole(Activate(routes, runId, refs, now, ttl).value, runId, refs, false, now + ttl)
  {
    ActivateIsExact(routes, runId, refs, now, ttl);
    var g := (r: Route) => ActivateOne(r, runId, now + ttl);
    var changed := Changed(routes, g);
    var after := Activate(routes, runId, refs, now, ttl).value;
    if NoneOf(routes, runId) {
      forall i | 0 <= i < |after| ensures after[i].runId != runId {
        assert after[i] in multiset(changed);
        var j :| 0 <= j < |changed| && changed[j] == after[i];
      }
    } else {
      forall i | 0 <= i < |changed|
        ensures changed[i].Ref() == routes[i].Ref() && changed[i].runId == routes[i].runId
        ensures changed[i].runId == runId ==> ExpiresAt(changed[i], false, now + ttl)
      {
        assert routes[i].runId == runId ==> ExpiresAt(routes[i], true, expiry);
      }
      forall k | 0 <= k < |refs| ensures HasRef(changed, refs[k]) {
        assert HasRef(routes, refs[k]);
        var i :| 0 <= i < |routes| && routes[i].Ref() == refs[k];
        assert changed[i].Ref() == refs[k];
      }
      assert ListsExactly(changed, refs, runId, false);
      ListsPermuted(changed, after, refs, runId, false);
      forall i | 0 <= i < |after| && after[i].runId == runId ensures ExpiresAt(after[i], false, now + ttl) {
        assert after[i] in multiset(changed);
        var j :| 0 <= j < |changed| && changed[j] == after[i];
      }
    }
  }

  /** Its release leaves none of its routes: if it is refused, there were none. */
  lemma OwnRelease(routes: seq<Route>, runId: Text, refs: seq<RouteRef>, pending: bool, expiry: Time)
    requires Whole(routes, runId, refs, pending, expiry) && Consistent(None, routes) && runId != EMPTY
    ensures NoneOf(OrElse(Release(routes, runId, refs), routes), runId)
  {
    ReleaseAcceptsExactly(routes, runId, refs);
    if Release(routes, runId, refs).Ok? {
      var after := Release(routes, runId, refs).value;
      forall i | 0 <= i < |after| ensures after[i].runId != runId {
        ReleaseIsExact(routes, runId, refs, after[i]);
        assert after[i] in multiset(after);
      }
    }
  }

  /** A renewal of its routes moves their expiry and no more. */
  lemma OwnRenew(routes: seq<Route>, runId: Text, ref: RouteRef, now: Time, ttl: Time, refs: seq<RouteRef>)
    requires Within(routes, runId, refs) && AllExpire(routes, runId) && Consistent(None, routes)
    requires Renew(routes, runId, [ref], now, ttl).Ok?
    ensures Within(Renew(routes, runId, [ref], now, ttl).value, runId, refs)
    ensures AllExpire(Renew(routes, runId, [ref], now, ttl).value, runId)
  {
    RenewIsExact(routes, runId, [ref], now, ttl);
    var changed := Changed(routes, (r: Route) => RenewOne(r, [ref], now + ttl));
    var after := Renew(routes, runId, [ref], now, ttl).value;
    forall i | 0 <= i < |after| && after[i].runId == runId ensures after[i].Ref() in refs && HasExpiry(after[i]) {
      assert after[i] in multiset(changed);
      var j :| 0 <= j < |changed| && changed[j] == after[i];
      assert routes[j].runId == runId && routes[j].Ref() == after[i].Ref() && HasExpiry(routes[j]);
    }
  }

  /** After its deletion, or its refusal, no route has that identity. */
  lemma OwnDelete(routes: seq<Route>, runId: Text, refs: seq<RouteRef>)
    requires refs != [] && Within(routes, runId, refs) && Consistent(None, routes) && AllExpire(routes, runId)
    ensures Within(OrElse(Delete(routes, refs[0]), routes), runId, refs[1..])
    ensures AllExpire(OrElse(Delete(routes, refs[0]), routes), runId)
  {
    DeleteAcceptsExactly(routes, refs[0]);
    var after := OrElse(Delete(routes, refs[0]), routes);
    forall i | 0 <= i < |after| && after[i].runId == runId ensures after[i].Ref() in refs[1..] && HasExpiry(after[i]) {
      if Delete(routes, refs[0]).Ok? {
        DeleteIsExact(routes, refs[0], after[i]);
        assert after[i] in multiset(after);
        assert after[i] in multiset(routes) && after[i].Ref() != refs[0];
      }
      var j :| 0 <= j < |routes| && routes[j] == after[i];
      assert routes[j].Ref() in refs;
    }
  }
}
