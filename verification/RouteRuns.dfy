/** Safety of the reservation store over every run of its operations. */
module RouteRuns {
  import opened Common
  import opened Routes
  import opened RouteFacts
  import Hostnames

  /** With 99 routes or fewer after a reservation, allocation had a free host each time. */
  const MAX_ROUTES: nat := 99

  // ------------------------------------------------------------ one WSL owner

  ghost predicate SoleOwnerIs(cs: seq<Candidate>, owner: Text) {
    forall i :: 0 <= i < |cs| && cs[i].owner.IsWsl() ==> cs[i].owner.instance == owner
  }

  ghost predicate OwnedOnlyBy(routes: seq<Route>, owner: Text) {
    forall i :: 0 <= i < |routes| && routes[i].owner.IsWsl() ==> routes[i].owner.instance == owner
  }

  lemma {:induction false} SoleOwnerSpec(cs: seq<Candidate>)
    ensures SoleOwner(cs).Ok? <==> exists owner :: SoleOwnerIs(cs, owner)
    ensures SoleOwner(cs).Ok? ==> SoleOwnerIs(cs, SoleOwner(cs).value)
    ensures SoleOwner(cs) == Ok(EMPTY) <==> forall i :: 0 <= i < |cs| ==> !cs[i].owner.IsWsl()
  {
    if cs == [] {
      assert SoleOwnerIs(cs, EMPTY);
    } else {
      var front, c := cs[..|cs| - 1], cs[|cs| - 1];
      SoleOwnerSpec(front);
      forall owner | SoleOwnerIs(cs, owner) ensures SoleOwnerIs(front, owner) {
      }
      if SoleOwner(front).Ok? && SoleOwner(front).value != EMPTY {
        var i :| 0 <= i < |front| && front[i].owner.IsWsl();
        assert cs[i] == front[i] && front[i].owner.instance == SoleOwner(front).value;
      }
      if SoleOwner(cs).Ok? {
        assert SoleOwnerIs(cs, SoleOwner(cs).value);
      }
    }
  }

  lemma {:induction false} ForeignOwnerSpec(routes: seq<Route>, owner: Text)
    ensures ForeignOwner(routes, owner).None? <==> OwnedOnlyBy(routes, owner)
  {
    if routes != [] {
      ForeignOwnerSpec(routes[..|routes| - 1], owner);
    }
  }

  /** A batch is refused for its owners just when it brings in a WSL instance and would
      leave the store owned by two of them. */
  lemma OwnerConflictIsExact(routes: seq<Route>, cs: seq<Candidate>)
    ensures OwnerConflict(routes, cs).None? <==>
              || (forall i :: 0 <= i < |cs| ==> !cs[i].owner.IsWsl())
              || (exists owner :: SoleOwnerIs(cs, owner) && OwnedOnlyBy(routes, owner))
  {
    SoleOwnerSpec(cs);
    if SoleOwner(cs).Ok? {
      ForeignOwnerSpec(routes, SoleOwner(cs).value);
    }
  }

  // ------------------------------------------------------------ reserve: reused routes

  /** The same route, except that a share may have been attached to it. */
  predicate ButShare(before: Route, after: Route) {
    after == before.(share := after.share) && (before.share != null ==> after == before)
  }

  /** Every route is kept, but for shares. */
  ghost predicate KeptButShares(before: seq<Route>, after: seq<Route>) {
    |after| == |before| && forall i :: 0 <= i < |before| ==> ButShare(before[i], after[i])
  }

  /** What a candidate reuses is the active route that it names. */
  predicate ReusesNamed(c: Candidate, reused: Option<Route>) {
    && (reused.Some? <==> c.reuse.Some?)
    && (reused.Some? ==>
          && reused.value.Ref() == c.reuse.value && !reused.value.IsPending()
          && OwnerMatches(reused.value.owner, c.owner))
  }

  lemma ReuseOneKeeps(routes: seq<Route>, c: Candidate, share: LANShare?)
    requires ReuseOne(routes, c, share).Ok?
    ensures KeptButShares(routes, ReuseOne(routes, c, share).value.0)
    ensures ReusesNamed(c, ReuseOne(routes, c, share).value.1)
  {
  }

  lemma {:induction false} StageKeeps(unexpired: seq<Route>, cs: seq<Candidate>, shares: seq<LANShare?>, n: nat)
    requires n <= |cs| == |shares| && Stage(unexpired, cs, shares, n).Ok?
    ensures KeptButShares(unexpired, Stage(unexpired, cs, shares, n).value.routes)
    ensures forall k :: 0 <= k < n ==> ReusesNamed(cs[k], Stage(unexpired, cs, shares, n).value.reused[k])
  {
    if n > 0 {
      StageKeeps(unexpired, cs, shares, n - 1);
      var before := Stage(unexpired, cs, shares, n - 1).value;
      ReuseOneKeeps(before.routes, cs[n - 1], shares[n - 1]);
      KeptTransitive(unexpired, before.routes, Stage(unexpired, cs, shares, n).value.routes);
    }
  }

  lemma KeptTransitive(a: seq<Route>, b: seq<Route>, c: seq<Route>)
    requires KeptButShares(a, b) && KeptButShares(b, c)
    ensures KeptButShares(a, c)
  {
    forall i | 0 <= i < |a| ensures ButShare(a[i], c[i]) {
      assert ButShare(a[i], b[i]) && ButShare(b[i], c[i]);
    }
  }

  // ------------------------------------------------------------ reserve: new routes

  ghost predicate FreshIds(routes: seq<Route>, ids: seq<Text>) {
    && NoDup(ids)
    && (forall k :: 0 <= k < |ids| ==> ids[k] != EMPTY)
    && (forall i, k :: 0 <= i < |routes| && 0 <= k < |ids| ==> routes[i].id != ids[k])
  }

  lemma {:induction false} HostNamesSize(routes: seq<Route>)
    ensures |HostNames(routes)| <= |routes|
  {
    if routes == [] {
      assert HostNames(routes) == {};
    } else {
      var front, last := routes[..|routes| - 1], routes[|routes| - 1];
      HostNamesSize(front);
      assert routes == front + [last];
      assert HostNames(routes) == HostNames(front) + {Lower(last.host)};
    }
  }

  /** A new route fits in: its identity, host and target are not taken yet. */
  lemma AppendNew(q: Option<Platform>, routes: seq<Route>, r: Route)
    requires Consistent(q, routes) && r.id != EMPTY && r.generation != 0
    requires forall i :: 0 <= i < |routes| ==> routes[i].id != r.id
    requires q.Some? ==> Key(q.value, r).Some? && Key(q.value, r).value !in TargetKeys(q.value, routes)
    requires q.Some? ==> Lower(r.host) !in HostNames(routes)
    requires q.Some? ==> forall i :: 0 <= i < |routes| ==> SameWslOwner(routes[i], r)
    ensures Consistent(q, routes + [r])
  {
    forall x | x in routes ensures Compatible(q, x, r) {
      var i :| 0 <= i < |routes| && routes[i] == x;
      assert Sound(q, routes[i]);
    }
    ConsistentAppend(q, routes, r);
  }

  /** What is known once n candidates have been placed. */
  ghost predicate Placed(staged: seq<Route>, cs: seq<Candidate>, ids: seq<Text>, a: Allocation, runId: Text,
                         expiry: Time) {
    && staged <= a.routes
    && a.used <= |ids|
    && (forall i :: |staged| <= i < |a.routes| ==> a.routes[i].id in ids[..a.used])
    && (forall i :: |staged| <= i < |a.routes| ==> IsNew(a.routes[i], cs, runId, expiry))
  }

  /** A pending route made from one of the candidates. */
  ghost predicate IsNew(r: Route, cs: seq<Candidate>, runId: Text, expiry: Time) {
    && r.generation == 1 && r.runId == runId && r.IsPending() && r.reservationExpiresAt == Some(expiry)
    && exists k :: 0 <= k < |cs| && MadeFrom(r, cs[k])
  }

  predicate MadeFrom(r: Route, c: Candidate) {
    && r.pendingTarget == c.target && r.scheme == c.scheme
    && r.owner == c.owner.(ownerCwd := c.owner.Dir())
    && (r.share != null ==> c.shareMode == Lan && Shareable(r.host))
  }

  lemma PlaceOne(staged: seq<Route>, cs: seq<Candidate>, ids: seq<Text>, before: Allocation, after: Allocation,
                 runId: Text, expiry: Time, c: Candidate)
    requires Placed(staged, cs, ids, before, runId, expiry) && before.used < |ids| && after.used == before.used + 1
    requires |after.routes| == |before.routes| + 1 && before.routes <= after.routes && c in cs
    requires var r := after.routes[|before.routes|];
             && r.id == ids[before.used] && r.generation == 1 && r.runId == runId && r.IsPending()
             && r.reservationExpiresAt == Some(expiry) && MadeFrom(r, c)
    ensures Placed(staged, cs, ids, after, runId, expiry)
  {
    assert ids[..after.used] == ids[..before.used] + [ids[before.used]];
    forall i | |staged| <= i < |after.routes|
      ensures after.routes[i].id in ids[..after.used] && IsNew(after.routes[i], cs, runId, expiry)
    {
      if i < |before.routes| {
        assert after.routes[i] == before.routes[i];
      }
    }
  }

  lemma {:induction false} AllocatePlaces(p: Platform, staged: seq<Route>, cs: seq<Candidate>,
                                          reused: seq<Option<Route>>, runId: Text, expiry: Time, ids: seq<Text>,
                                          shares: seq<LANShare?>, n: nat)
    requires n <= |cs| == |reused| == |shares|
    requires Allocate(p, staged, cs, reused, runId, expiry, ids, shares, n).Ok?
    ensures Placed(staged, cs, ids, Allocate(p, staged, cs, reused, runId, expiry, ids, shares, n).value, runId, expiry)
  {
    if n > 0 {
      AllocatePlaces(p, staged, cs, reused, runId, expiry, ids, shares, n - 1);
      var before := Allocate(p, staged, cs, reused, runId, expiry, ids, shares, n - 1).value;
      var after := Allocate(p, staged, cs, reused, runId, expiry, ids, shares, n).value;
      if reused[n - 1].None? {
        PlaceOne(staged, cs, ids, before, after, runId, expiry, cs[n - 1]);
      }
    }
  }

  /** The targets of the new routes are claimed as they are placed. */
  lemma {:induction false} AllocateKeys(p: Platform, staged: seq<Route>, cs: seq<Candidate>, reused: seq<Option<Route>>,
                                        runId: Text, expiry: Time, ids: seq<Text>, shares: seq<LANShare?>, n: nat)
    requires n <= |cs| == |reused| == |shares|
    requires Allocate(p, staged, cs, reused, runId, expiry, ids, shares, n).Ok?
    requires ClaimTargets(p, TargetKeys(p, staged), cs, reused, n).Ok?
    ensures TargetKeys(p, Allocate(p, staged, cs, reused, runId, expiry, ids, shares, n).value.routes)
            == ClaimTargets(p, TargetKeys(p, staged), cs, reused, n).value
  {
    if n > 0 {
      AllocateKeys(p, staged, cs, reused, runId, expiry, ids, shares, n - 1);
      var before := Allocate(p, staged, cs, reused, runId, expiry, ids, shares, n - 1).value;
      var after := Allocate(p, staged, cs, reused, runId, expiry, ids, shares, n).value;
      if reused[n - 1].None? {
        var r := after.routes[|before.routes|];
        assert after.routes == before.routes + [r];
        assert Key(p, r) == p.targetKey(cs[n - 1].target);
        KeysAppend(p, before.routes, r);
      }
    }
  }

  lemma KeysAppend(p: Platform, routes: seq<Route>, r: Route)
    requires Key(p, r).Some?
    ensures TargetKeys(p, routes + [r]) == TargetKeys(p, routes) + {Key(p, r).value}
  {
  }

  ghost predicate OwnersAgree(routes: seq<Route>, cs: seq<Candidate>) {
    || (forall i :: 0 <= i < |cs| ==> !cs[i].owner.IsWsl())
    || (exists owner :: SoleOwnerIs(cs, owner) && OwnedOnlyBy(routes, owner))
  }

  lemma OwnersStayAgreed(staged: seq<Route>, cs: seq<Candidate>, ids: seq<Text>, a: Allocation, runId: Text,
                         expiry: Time, r: Route, i: nat)
    requires OwnersAgree(staged, cs) && Placed(staged, cs, ids, a, runId, expiry) && i < |a.routes|
    requires exists k :: 0 <= k < |cs| && MadeFrom(r, cs[k])
    ensures SameWslOwner(a.routes[i], r)
  {
    if i >= |staged| {
      assert IsNew(a.routes[i], cs, runId, expiry);
    } else {
      assert a.routes[i] == staged[i];
    }
  }

  /** One more route is placed. */
  lemma PlaceConsistent(q: Option<Platform>, staged: seq<Route>, cs: seq<Candidate>, ids: seq<Text>, before: Allocation,
                        runId: Text, expiry: Time, c: Candidate, r: Route)
    requires Consistent(q, before.routes) && FreshIds(staged, ids) && Placed(staged, cs, ids, before, runId, expiry)
    requires before.used < |ids| && r.id == ids[before.used] && r.generation == 1 && c in cs && MadeFrom(r, c)
    requires q.Some? ==> OwnersAgree(staged, cs) && Key(q.value, r).Some?
    requires q.Some? ==> Key(q.value, r).value !in TargetKeys(q.value, before.routes)
    requires q.Some? ==> Lower(r.host) !in HostNames(before.routes)
    ensures Consistent(q, before.routes + [r])
  {
    forall i | 0 <= i < |before.routes| ensures before.routes[i].id != r.id {
      if i >= |staged| {
        assert before.routes[i].id in ids[..before.used];
      } else {
        assert before.routes[i] == staged[i];
      }
    }
    if q.Some? {
      forall i | 0 <= i < |before.routes| ensures SameWslOwner(before.routes[i], r) {
        OwnersStayAgreed(staged, cs, ids, before, runId, expiry, r, i);
      }
    }
    AppendNew(q, before.routes, r);
  }

  lemma FreeHost(p: Platform, routes: seq<Route>, c: Candidate)
    requires |routes| < MAX_ROUTES
    ensures Lower(Hostnames.Resolve(p.paths, HostNames(routes), c.desiredHost, c.owner.cwd.chars)) !in HostNames(routes)
  {
    HostNamesSize(routes);
    Hostnames.FewerThan99IsFree(p.paths, HostNames(routes), c.desiredHost, c.owner.cwd.chars);
  }

  /** What placing the n-th candidate, which reuses nothing, amounts to. */
  lemma AllocateStep(p: Platform, staged: seq<Route>, cs: seq<Candidate>, reused: seq<Option<Route>>,
                     runId: Text, expiry: Time, ids: seq<Text>, shares: seq<LANShare?>, n: nat)
    returns (before: Allocation, r: Route)
    requires 0 < n <= |cs| == |reused| == |shares| && reused[n - 1].None?
    requires Allocate(p, staged, cs, reused, runId, expiry, ids, shares, n).Ok?
    ensures Allocate(p, staged, cs, reused, runId, expiry, ids, shares, n - 1) == Ok(before) && before.used < |ids|
    ensures Allocate(p, staged, cs, reused, runId, expiry, ids, shares, n).value.routes == before.routes + [r]
    ensures r.host == Hostnames.Resolve(p.paths, HostNames(before.routes), cs[n - 1].desiredHost,
                                        cs[n - 1].owner.cwd.chars)
    ensures r.id == ids[before.used] && r.generation == 1
    ensures Key(p, r) == p.targetKey(cs[n - 1].target) && MadeFrom(r, cs[n - 1])
  {
    before := Allocate(p, staged, cs, reused, runId, expiry, ids, shares, n - 1).value;
    r := Allocate(p, staged, cs, reused, runId, expiry, ids, shares, n).value.routes[|before.routes|];
  }

  lemma {:induction false} AllocateConsistent(q: Option<Platform>, p: Platform, staged: seq<Route>, cs: seq<Candidate>,
                                              reused: seq<Option<Route>>, runId: Text, expiry: Time,
                                              ids: seq<Text>, shares: seq<LANShare?>, n: nat)
    requires n <= |cs| == |reused| == |shares|
    requires Allocate(p, staged, cs, reused, runId, expiry, ids, shares, n).Ok?
    requires Consistent(q, staged) && FreshIds(staged, ids)
    requires q.Some? ==> q.value == p && OwnersAgree(staged, cs)
    requires q.Some? ==> ClaimTargets(p, TargetKeys(p, staged), cs, reused, n).Ok?
    requires q.Some? ==> |Allocate(p, staged, cs, reused, runId, expiry, ids, shares, n).value.routes| <= MAX_ROUTES
    ensures Consistent(q, Allocate(p, staged, cs, reused, runId, expiry, ids, shares, n).value.routes)
  {
    if n == 0 {
    } else if reused[n - 1].Some? {
      AllocateConsistent(q, p, staged, cs, reused, runId, expiry, ids, shares, n - 1);
    } else {
      var before, r := AllocateStep(p, staged, cs, reused, runId, expiry, ids, shares, n);
      AllocateConsistent(q, p, staged, cs, reused, runId, expiry, ids, shares, n - 1);
      AllocatePlaces(p, staged, cs, reused, runId, expiry, ids, shares, n - 1);
      if q.Some? {
        AllocateKeys(p, staged, cs, reused, runId, expiry, ids, shares, n - 1);
        FreeHost(p, before.routes, cs[n - 1]);
      }
      PlaceConsistent(q, staged, cs, ids, before, runId, expiry, cs[n - 1], r);
    }
  }

  // ------------------------------------------------------------ reserve as a whole

  /** ReservationResult.PendingRefs: the identities of the routes a batch has created;
      apart from the recursion, as SortRoutes is. */
  function PendingRefs(reserved: seq<Reserved>): seq<RouteRef> {
    RefsOfPending(reserved)
  }

  function RefsOfPending(reserved: seq<Reserved>): seq<RouteRef> {
    if reserved == [] then []
    else
      var last := reserved[|reserved| - 1];
      RefsOfPending(reserved[..|reserved| - 1])
      + if !last.reused && last.route.IsPending() then [last.route.Ref()] else []
  }

  function Refs(routes: seq<Route>): (r: seq<RouteRef>)
    ensures |r| == |routes| && forall i :: 0 <= i < |routes| ==> r[i] == routes[i].Ref()
  {
    seq(|routes|, i requires 0 <= i < |routes| => routes[i].Ref())
  }

  lemma RefsOfOneMore(staged: seq<Route>, before: Allocation, r: Route)
    requires staged <= before.routes && PendingRefs(before.reserved) == Refs(before.routes[|staged|..]) && r.IsPending()
    ensures PendingRefs(before.reserved + [Reserved(r, false)]) == Refs((before.routes + [r])[|staged|..])
  {
    assert (before.reserved + [Reserved(r, false)])[..|before.reserved|] == before.reserved;
    assert (before.routes + [r])[|staged|..] == before.routes[|staged|..] + [r];
  }

  lemma {:induction false} AllocateRefs(p: Platform, staged: seq<Route>, cs: seq<Candidate>, reused: seq<Option<Route>>,
                                        runId: Text, expiry: Time, ids: seq<Text>, shares: seq<LANShare?>, n: nat)
    requires n <= |cs| == |reused| == |shares|
    requires Allocate(p, staged, cs, reused, runId, expiry, ids, shares, n).Ok?
    ensures var a := Allocate(p, staged, cs, reused, runId, expiry, ids, shares, n).value;
            staged <= a.routes && PendingRefs(a.reserved) == Refs(a.routes[|staged|..])
  {
    if n > 0 {
      AllocateRefs(p, staged, cs, reused, runId, expiry, ids, shares, n - 1);
      var before := Allocate(p, staged, cs, reused, runId, expiry, ids, shares, n - 1).value;
      var after := Allocate(p, staged, cs, reused, runId, expiry, ids, shares, n).value;
      if reused[n - 1].None? {
        RefsOfOneMore(staged, before, after.routes[|before.routes|]);
      } else {
        assert after.reserved[..|after.reserved| - 1] == before.reserved;
      }
    }
  }

  /** The routes made are the ones kept and the new ones, which the results list. */
  ghost predicate Exactly(unexpired: seq<Route>, cs: seq<Candidate>, kept: seq<Route>, created: seq<Route>,
                          made: Allocation, runId: Text, expiry: Time, ids: seq<Text>)
  {
    && made.routes == kept + created && KeptButShares(unexpired, kept)
    && |made.reserved| == |cs| && PendingRefs(made.reserved) == Refs(created)
    && forall i :: 0 <= i < |created| ==> IsNew(created[i], cs, runId, expiry) && created[i].id in ids
  }

  /** What a successful reservation leaves: every unexpired route (with shares attached
      at most), and one new pending route for each candidate that reuses none. */
  lemma ReserveIsExact(p: Platform, unexpired: seq<Route>, cs: seq<Candidate>, runId: Text, expiry: Time,
                       ids: seq<Text>, shares: seq<LANShare?>, made: Allocation)
    returns (kept: seq<Route>, created: seq<Route>)
    requires |cs| == |shares| && Build(p, unexpired, cs, runId, expiry, ids, shares) == Ok(made)
    ensures Exactly(unexpired, cs, kept, created, made, runId, expiry, ids)
  {
    var staged := Prepare(p, unexpired, cs, shares).value;
    StageKeeps(unexpired, cs, shares, |cs|);
    AllocatePlaces(p, staged.routes, cs, staged.reused, runId, expiry, ids, shares, |cs|);
    AllocateRefs(p, staged.routes, cs, staged.reused, runId, expiry, ids, shares, |cs|);
    kept, created := staged.routes, made.routes[|staged.routes|..];
    forall i | 0 <= i < |created| ensures IsNew(created[i], cs, runId, expiry) && created[i].id in ids {
      assert created[i] == made.routes[|staged.routes| + i];
      assert created[i].id in ids[..made.used];
    }
  }

  lemma FreshForStaged(stored: seq<Route>, now: Time, staged: seq<Route>, ids: seq<Text>)
    requires FreshIds(stored, ids) && KeptButShares(RemoveExpired(SortRoutes(stored), now), staged)
    ensures FreshIds(staged, ids)
  {
    var unexpired := RemoveExpired(SortRoutes(stored), now);
    forall i, k | 0 <= i < |staged| && 0 <= k < |ids| ensures staged[i].id != ids[k] {
      assert ButShare(unexpired[i], staged[i]);
      UnexpiredMembers(SortRoutes(stored), now, unexpired[i]);
      SortedMembers(stored, unexpired[i]);
      var j :| 0 <= j < |stored| && stored[j] == unexpired[i];
    }
  }

  lemma OwnersAgreeOnceStaged(unexpired: seq<Route>, staged: seq<Route>, cs: seq<Candidate>)
    requires OwnerConflict(unexpired, cs).None? && KeptButShares(unexpired, staged)
    ensures OwnersAgree(staged, cs)
  {
    OwnerConflictIsExact(unexpired, cs);
    forall owner | OwnedOnlyBy(unexpired, owner) ensures OwnedOnlyBy(staged, owner) {
      assert forall i :: 0 <= i < |staged| ==> ButShare(unexpired[i], staged[i]);
    }
  }

  lemma KeptConsistent(q: Option<Platform>, before: seq<Route>, after: seq<Route>)
    requires Consistent(q, before) && KeptButShares(before, after)
    ensures Consistent(q, after)
  {
    assert forall i :: 0 <= i < |before| ==> ButShare(before[i], after[i]);
    SameIdentities(q, before, after);
  }

  lemma UnexpiredSortedConsistent(q: Option<Platform>, stored: seq<Route>, now: Time)
    requires Consistent(q, stored)
    ensures Consistent(q, RemoveExpired(SortRoutes(stored), now))
  {
    SortConsistent(q, stored);
    UnexpiredConsistent(q, SortRoutes(stored), now);
  }

  lemma BuildKeeps(q: Option<Platform>, p: Platform, stored: seq<Route>, now: Time, cs: seq<Candidate>,
                   runId: Text, expiry: Time, ids: seq<Text>, shares: seq<LANShare?>)
    requires |cs| == |shares| && Build(p, RemoveExpired(SortRoutes(stored), now), cs, runId, expiry, ids, shares).Ok?
    requires Consistent(q, stored) && FreshIds(stored, ids)
    requires q.Some? ==> q.value == p
    requires q.Some? ==> |Build(p, RemoveExpired(SortRoutes(stored), now), cs, runId, expiry, ids,
                                shares).value.routes| <= MAX_ROUTES
    ensures Consistent(q, Build(p, RemoveExpired(SortRoutes(stored), now), cs, runId, expiry, ids, shares).value.routes)
  {
    var unexpired := RemoveExpired(SortRoutes(stored), now);
    var staged := Prepare(p, unexpired, cs, shares).value;
    UnexpiredSortedConsistent(q, stored, now);
    StageKeeps(unexpired, cs, shares, |cs|);
    KeptConsistent(q, unexpired, staged.routes);
    FreshForStaged(stored, now, staged.routes, ids);
    OwnersAgreeOnceStaged(unexpired, staged.routes, cs);
    AllocateConsistent(q, p, staged.routes, cs, staged.reused, runId, expiry, ids, shares, |cs|);
  }

  /** The store ends up with the routes built, sorted. */
  lemma ReserveBuilds(p: Platform, stored: seq<Route>, request: Request, now: Time, ids: seq<Text>,
                      shares: seq<LANShare?>, after: seq<Route>, reserved: seq<Reserved>, expiry: Time)
    returns (cs: seq<Candidate>, made: Allocation)
    requires |shares| == |request.routes| && Reserve(p, stored, request, now, ids, shares) == Ok((after, reserved))
    requires expiry == now + request.ttl
    ensures ValidateAll(p, request.routes) == Ok(cs) && |cs| == |shares|
    ensures Build(p, RemoveExpired(SortRoutes(stored), now), cs, request.runId, expiry, ids, shares) == Ok(made)
    ensures after == SortRoutes(made.routes) && reserved == made.reserved
  {
    made := ReserveCalls(p, stored, request, now, ids, shares, after, reserved);
    cs := CallbackBuilds(p, SortRoutes(stored), request, now, ids, shares, made);
  }

  lemma ReserveCalls(p: Platform, stored: seq<Route>, request: Request, now: Time, ids: seq<Text>,
                     shares: seq<LANShare?>, after: seq<Route>, reserved: seq<Reserved>)
    returns (made: Allocation)
    requires |shares| == |request.routes| && Reserve(p, stored, request, now, ids, shares) == Ok((after, reserved))
    ensures ReserveCallback(p, SortRoutes(stored), request, now, ids, shares) == Ok(made)
    ensures after == SortRoutes(made.routes) && reserved == made.reserved
  {
    made := ReserveCallback(p, SortRoutes(stored), request, now, ids, shares).value;
  }

  lemma CallbackBuilds(p: Platform, sorted: seq<Route>, request: Request, now: Time, ids: seq<Text>,
                       shares: seq<LANShare?>, made: Allocation)
    returns (cs: seq<Candidate>)
    requires |shares| == |request.routes| && ReserveCallback(p, sorted, request, now, ids, shares) == Ok(made)
    ensures ValidateAll(p, request.routes) == Ok(cs) && |cs| == |shares|
    ensures Build(p, RemoveExpired(sorted, now), cs, request.runId, now + request.ttl, ids, shares) == Ok(made)
  {
    cs := ValidateAll(p, request.routes).value;
  }

  lemma BuiltIsStored(q: Option<Platform>, p: Platform, stored: seq<Route>, now: Time, cs: seq<Candidate>, runId: Text,
                      expiry: Time, ids: seq<Text>, shares: seq<LANShare?>, made: Allocation, after: seq<Route>)
    requires |cs| == |shares| && Build(p, RemoveExpired(SortRoutes(stored), now), cs, runId, expiry, ids, shares)
             == Ok(made)
    requires after == SortRoutes(made.routes)
    requires Consistent(q, stored) && FreshIds(stored, ids)
    requires q.Some? ==> q.value == p && |after| <= MAX_ROUTES
    ensures Consistent(q, after)
  {
    SortIsPermutation(made.routes);
    BuildKeeps(q, p, stored, now, cs, runId, expiry, ids, shares);
    SortConsistent(q, made.routes);
  }

  /** A successful reservation keeps the store consistent. */
  lemma ReserveKeeps(q: Option<Platform>, p: Platform, stored: seq<Route>, request: Request, now: Time,
                     ids: seq<Text>, shares: seq<LANShare?>, after: seq<Route>, reserved: seq<Reserved>)
    requires |shares| == |request.routes| && Reserve(p, stored, request, now, ids, shares) == Ok((after, reserved))
    requires Consistent(q, stored) && FreshIds(stored, ids)
    requires q.Some? ==> q.value == p && |after| <= MAX_ROUTES
    ensures Consistent(q, after)
  {
    var expiry := now + request.ttl;
    var cs, made := ReserveBuilds(p, stored, request, now, ids, shares, after, reserved, expiry);
    BuiltIsStored(q, p, stored, now, cs, request.runId, expiry, ids, shares, made, after);
  }

  // ------------------------------------------------------------ the other operations keep consistency

  lemma ActivateKeeps(q: Option<Platform>, stored: seq<Route>, runId: Text, refs: seq<RouteRef>, now: Time, ttl: Time)
    requires Consistent(q, stored) && Activate(stored, runId, refs, now, ttl).Ok?
    ensures Consistent(q, Activate(stored, runId, refs, now, ttl).value)
  {
    var routes := SortRoutes(stored);
    SortConsistent(q, stored);
    var f := (r: Route) => ActivatedRoute(r, now + ttl);
    forall i | 0 <= i < |routes| ensures SameIdentity(q, routes[i], MapPointed(routes, refs, f)[i]) {
      BatchIsExact(routes, runId, refs, true, Some(now), i);
    }
    SameIdentities(q, routes, MapPointed(routes, refs, f));
    SortConsistent(q, MapPointed(routes, refs, f));
  }

  lemma RenewKeeps(q: Option<Platform>, stored: seq<Route>, runId: Text, refs: seq<RouteRef>, now: Time, ttl: Time)
    requires Consistent(q, stored) && Renew(stored, runId, refs, now, ttl).Ok?
    ensures Consistent(q, Renew(stored, runId, refs, now, ttl).value)
  {
    var routes := SortRoutes(stored);
    SortConsistent(q, stored);
    var f := (r: Route) => RenewedRoute(r, now + ttl);
    SameIdentities(q, routes, MapPointed(routes, refs, f));
    SortConsistent(q, MapPointed(routes, refs, f));
  }

  lemma ReleaseKeeps(q: Option<Platform>, stored: seq<Route>, runId: Text, refs: seq<RouteRef>)
    requires Consistent(q, stored) && Release(stored, runId, refs).Ok?
    ensures Consistent(q, Release(stored, runId, refs).value)
  {
    var routes := SortRoutes(stored);
    SortConsistent(q, stored);
    DropConsistent(q, routes, Pointed(routes, refs), |routes|);
    SortConsistent(q, Drop(routes, Pointed(routes, refs), |routes|));
  }

  lemma DeleteKeeps(q: Option<Platform>, stored: seq<Route>, ref: RouteRef)
    requires Consistent(q, stored) && Delete(stored, ref).Ok?
    ensures Consistent(q, Delete(stored, ref).value)
  {
    var routes := SortRoutes(stored);
    SortConsistent(q, stored);
    var k := FindRef(routes, ref).value;
    var rest := routes[..k] + routes[k + 1..];
    forall i | 0 <= i < |rest| ensures Sound(q, rest[i]) {
      assert rest[i] == routes[if i < k then i else i + 1];
    }
    forall i, j | 0 <= i < j < |rest| ensures Compatible(q, rest[i], rest[j]) {
      assert rest[i] == routes[if i < k then i else i + 1] && rest[j] == routes[if j < k then j else j + 1];
    }
    SortConsistent(q, rest);
  }

  // ------------------------------------------------------------ runs

  datatype Op =
    | ReserveOp(request: Request, ids: seq<Text>, shares: seq<LANShare?>)
    | ActivateOp(runId: Text, refs: seq<RouteRef>, ttl: Time)
    | ReleaseOp(runId: Text, refs: seq<RouteRef>)
    | RenewOp(runId: Text, refs: seq<RouteRef>, ttl: Time)
    | DeleteOp(ref: RouteRef)

  predicate WellFormed(op: Op) {
    op.ReserveOp? ==> |op.shares| == |op.request.routes|
  }

  function OrElse(r: Result<seq<Route>, StoreError>, routes: seq<Route>): seq<Route> {
    if r.Ok? then r.value else routes
  }

  function Routing(r: Result<(seq<Route>, seq<Reserved>), StoreError>): Result<seq<Route>, StoreError> {
    if r.Ok? then Ok(r.value.0) else Err(r.error)
  }

  ghost function Outcome(p: Platform, routes: seq<Route>, op: Op, now: Time): Result<seq<Route>, StoreError>
    requires WellFormed(op)
  {
    if op.ReserveOp? then Routing(Reserve(p, routes, op.request, now, op.ids, op.shares))
    else if op.ActivateOp? then Activate(routes, op.runId, op.refs, now, op.ttl)
    else if op.ReleaseOp? then Release(routes, op.runId, op.refs)
    else if op.RenewOp? then Renew(routes, op.runId, op.refs, now, op.ttl)
    else Delete(routes, op.ref)
  }

  /** The store after an operation; one that fails changes nothing. */
  ghost function After(p: Platform, routes: seq<Route>, op: Op, now: Time): seq<Route>
    requires WellFormed(op)
  {
    OrElse(Outcome(p, routes, op, now), routes)
  }

  /** IDs that a reservation draws are new to the store. */
  ghost predicate DrawsFresh(routes: seq<Route>, op: Op) {
    op.ReserveOp? ==> FreshIds(routes, op.ids)
  }

  lemma StepKeeps(q: Option<Platform>, p: Platform, routes: seq<Route>, op: Op, now: Time)
    requires WellFormed(op) && Consistent(q, routes) && DrawsFresh(routes, op)
    requires q.Some? ==> q.value == p && |After(p, routes, op, now)| <= MAX_ROUTES
    ensures Consistent(q, After(p, routes, op, now))
  {
    if Outcome(p, routes, op, now).Ok? {
      match op
      case ReserveOp(request, ids, shares) =>
        var r := Reserve(p, routes, request, now, ids, shares).value;
        ReserveKeeps(q, p, routes, request, now, ids, shares, r.0, r.1);
      case ActivateOp(runId, refs, ttl) => ActivateKeeps(q, routes, runId, refs, now, ttl);
      case ReleaseOp(runId, refs) => ReleaseKeeps(q, routes, runId, refs);
      case RenewOp(runId, refs, ttl) => RenewKeeps(q, routes, runId, refs, now, ttl);
      case DeleteOp(ref) => DeleteKeeps(q, routes, ref);
    }
  }

  datatype Step = Step(op: Op, now: Time)

  /** stores[i] is the store before the i-th step. Nothing is asked of the clock. */
  ghost predicate IsRun(p: Platform, stores: seq<seq<Route>>, steps: seq<Step>) {
    && |stores| == |steps| + 1 && stores[0] == []
    && forall i :: 0 <= i < |steps| ==>
         WellFormed(steps[i].op) && DrawsFresh(stores[i], steps[i].op)
         && stores[i + 1] == After(p, stores[i], steps[i].op, steps[i].now)
  }

  /** In every run from the empty store, identities stay pairwise distinct, whatever
      the number of routes. */
  lemma {:induction false} IdentitiesStayDistinct(p: Platform, stores: seq<seq<Route>>, steps: seq<Step>, i: nat)
    requires IsRun(p, stores, steps) && i < |stores|
    ensures Consistent(None, stores[i])
  {
    if i > 0 {
      IdentitiesStayDistinct(p, stores, steps, i - 1);
      StepKeeps(None, p, stores[i - 1], steps[i - 1].op, steps[i - 1].now);
    }
  }

  /** In every run from the empty store in which it never holds more than 99 routes,
      identities, hosts and effective target sockets stay pairwise distinct and at most
      one WSL instance owns routes. */
  lemma {:induction false} RunKeepsConsistent(p: Platform, stores: seq<seq<Route>>, steps: seq<Step>, i: nat)
    requires IsRun(p, stores, steps) && i < |stores|
    requires forall k :: 0 <= k <= i ==> |stores[k]| <= MAX_ROUTES
    ensures Consistent(Some(p), stores[i])
  {
    if i > 0 {
      RunKeepsConsistent(p, stores, steps, i - 1);
      var k := i - 1;
      assert stores[k + 1] == After(p, stores[k], steps[k].op, steps[k].now) && |stores[i]| <= MAX_ROUTES;
      StepKeeps(Some(p), p, stores[i - 1], steps[i - 1].op, steps[i - 1].now);
    }
  }

}
