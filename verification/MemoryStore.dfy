/** The in-memory route store (MemoryStore of internal/router/router.go) and the
    reservation operations carried out on it (internal/router/reservations.go). Every
    operation works on a sorted copy of the routes and commits it only on success. */
module MemoryStores {
  import opened Common
  import opened Routes
  import opened RouteFacts
  import Hostnames

  // ------------------------------------------------------------ steps of a reservation

  method FilterExpired(routes: seq<Route>, now: Time) returns (result: seq<Route>)
    ensures result == RemoveExpired(routes, now)
  {
    result := [];
    for i := 0 to |routes|
      invariant result == Unexpired(routes[..i], now)
    {
      assert routes[..i + 1][..i] == routes[..i];
      if ReservationExpired(routes[i], now) || LeaseExpired(routes[i], now) {
        continue;
      }
      result := result + [routes[i]];
    }
    assert routes[..|routes|] == routes;
  }

  method ValidateCandidates(p: Platform, raw: seq<Candidate>) returns (r: Result<seq<Candidate>, StoreError>)
    ensures r == ValidateAll(p, raw)
  {
    var candidates := [];
    for i := 0 to |raw|
      invariant ValidateFirst(p, raw, i) == Ok(candidates)
    {
      var candidate := Validate(p, raw[i]);
      if candidate.Err? {
        InvalidStays(p, raw, i + 1, |raw|, candidate.error);
        return Err(candidate.error);
      }
      candidates := candidates + [candidate.value];
    }
    return Ok(candidates);
  }

  lemma {:induction false} InvalidStays(p: Platform, raw: seq<Candidate>, i: nat, n: nat, error: StoreError)
    requires i <= n <= |raw| && ValidateFirst(p, raw, i) == Err(error)
    ensures ValidateFirst(p, raw, n) == Err(error)
    decreases n
  {
    if i < n {
      InvalidStays(p, raw, i, n - 1, error);
    }
  }

  method EnforceSingleWslOwner(routes: seq<Route>, candidates: seq<Candidate>) returns (conflict: Option<StoreError>)
    ensures conflict == OwnerConflict(routes, candidates)
  {
    var owner := EMPTY;
    for i := 0 to |candidates|
      invariant SoleOwner(candidates[..i]) == Ok(owner)
    {
      assert candidates[..i + 1][..i] == candidates[..i];
      var c := candidates[i].owner;
      if c.env != Wsl || c.instance == EMPTY {
        continue;
      }
      if owner != EMPTY && owner != c.instance {
        TwoOwnersStay(candidates, i + 1, WslOwner(owner));
        return Some(WslOwner(owner));
      }
      owner := c.instance;
    }
    assert candidates[..|candidates|] == candidates;
    if owner == EMPTY {
      return None;
    }
    for i := 0 to |routes|
      invariant ForeignOwner(routes[..i], owner).None?
    {
      assert routes[..i + 1][..i] == routes[..i];
      var r := routes[i].owner;
      if r.env == Wsl && r.instance != EMPTY && r.instance != owner {
        ForeignStays(routes, i + 1, owner, r.instance);
        return Some(WslOwner(r.instance));
      }
    }
    assert routes[..|routes|] == routes;
    return None;
  }

  lemma {:induction false} TwoOwnersStay(cs: seq<Candidate>, i: nat, error: StoreError)
    requires i <= |cs| && SoleOwner(cs[..i]) == Err(error)
    ensures SoleOwner(cs) == Err(error)
  {
    if i == |cs| {
      assert cs[..i] == cs;
    } else {
      var front := cs[..|cs| - 1];
      assert front[..i] == cs[..i];
      TwoOwnersStay(front, i, error);
    }
  }

  lemma {:induction false} ForeignStays(routes: seq<Route>, i: nat, owner: Text, instance: Text)
    requires i <= |routes| && ForeignOwner(routes[..i], owner) == Some(instance)
    ensures ForeignOwner(routes, owner) == Some(instance)
  {
    if i == |routes| {
      assert routes[..i] == routes;
    } else {
      var front := routes[..|routes| - 1];
      assert front[..i] == routes[..i];
      ForeignStays(front, i, owner, instance);
    }
  }

  method SchemeConflictAmong(routes: seq<Route>, c: Candidate) returns (clash: Option<StoreError>)
    ensures clash == FirstClash(routes, c)
  {
    for i := 0 to |routes|
      invariant FirstClash(routes[..i], c).None?
    {
      assert routes[..i + 1][..i] == routes[..i];
      var r := routes[i];
      if r.host != c.desiredHost || !OwnerMatches(r.owner, c.owner) {
        continue;
      }
      if r.scheme != c.scheme {
        ClashStays(routes, i + 1, c, SchemeConflict(r.host, r.scheme, c.scheme));
        return Some(SchemeConflict(r.host, r.scheme, c.scheme));
      }
    }
    assert routes[..|routes|] == routes;
    return None;
  }

  lemma {:induction false} ClashStays(routes: seq<Route>, i: nat, c: Candidate, error: StoreError)
    requires i <= |routes| && FirstClash(routes[..i], c) == Some(error)
    ensures FirstClash(routes, c) == Some(error)
  {
    if i == |routes| {
      assert routes[..i] == routes;
    } else {
      var front := routes[..|routes| - 1];
      assert front[..i] == routes[..i];
      ClashStays(front, i, c, error);
    }
  }

  method RouteRefIndex(routes: seq<Route>, ref: RouteRef) returns (index: Option<nat>)
    ensures index == FindRef(routes, ref)
  {
    if ref.id == EMPTY || ref.generation == 0 {
      return None;
    }
    for i := 0 to |routes|
      invariant forall k :: 0 <= k < i ==> routes[k].Ref() != ref
    {
      if routes[i].id == ref.id && routes[i].generation == ref.generation {
        return Some(i);
      }
    }
    return None;
  }

  lemma {:induction false} StageAgrees(unexpired: seq<Route>, cs: seq<Candidate>, s: seq<LANShare?>, t: seq<LANShare?>,
                                       n: nat)
    requires n <= |cs| && n <= |s| && n <= |t|
    requires forall k :: 0 <= k < n && cs[k].reuse.Some? ==> s[k] == t[k]
    ensures Stage(unexpired, cs, s, n) == Stage(unexpired, cs, t, n)
  {
    if n > 0 {
      StageAgrees(unexpired, cs, s, t, n - 1);
    }
  }

  lemma {:induction false} StageFails(unexpired: seq<Route>, cs: seq<Candidate>, shares: seq<LANShare?>, i: nat, n: nat)
    requires i <= n <= |cs| && n <= |shares| && Stage(unexpired, cs, shares, i).Err?
    ensures Stage(unexpired, cs, shares, n) == Stage(unexpired, cs, shares, i)
    decreases n
  {
    if i < n {
      StageFails(unexpired, cs, shares, i, n - 1);
    }
  }

  /** If there is a share it has just been requested. */
  predicate JustRequested(share: LANShare?, now: Time)
    reads share
  {
    share != null ==> share.state == Requested && share.createdAt == now
  }

  function Nulls(n: nat): (s: seq<LANShare?>)
    ensures |s| == n && forall i :: 0 <= i < n ==> s[i] == null
  {
    seq(n, i => null)
  }

  /** One candidate's reuse. */
  method ReuseRoute(routes: seq<Route>, c: Candidate, now: Time)
    returns (r: Result<(seq<Route>, Option<Route>), StoreError>, share: LANShare?)
    ensures r == ReuseOne(routes, c, share)
    ensures (share == null || fresh(share)) && JustRequested(share, now)
  {
    share := null;
    if c.reuse.None? {
      return Ok((routes, None)), null;
    }
    var index := RouteRefIndex(routes, c.reuse.value);
    if index.None? || routes[index.value].IsPending() || !OwnerMatches(routes[index.value].owner, c.owner) {
      return Err(RefMismatch), null;
    }
    var existing := routes[index.value];
    if existing.scheme != c.scheme {
      return Err(SchemeConflict(existing.host, existing.scheme, c.scheme)), null;
    }
    if c.shareMode == Lan && existing.share == null {
      share := RequestedLanShare(c.shareMode, existing.host, now);
      existing := existing.(share := share);
    }
    return Ok((routes[index.value := existing], Some(existing))), share;
  }

  /** One step of Stage. */
  lemma StageStep(unexpired: seq<Route>, cs: seq<Candidate>, shares: seq<LANShare?>, n: nat, staged: Staged,
                  one: Result<(seq<Route>, Option<Route>), StoreError>, clash: Option<StoreError>)
    requires n < |cs| && n < |shares| && Stage(unexpired, cs, shares, n) == Ok(staged)
    requires one == ReuseOne(staged.routes, cs[n], shares[n])
    requires clash == FirstClash(unexpired + Logicals(cs[..n]), cs[n])
    ensures Stage(unexpired, cs, shares, n + 1)
            == if one.Err? then Err(one.error)
               else if clash.Some? then Err(clash.value)
               else Ok(Staged(one.value.0, staged.reused + [one.value.1]))
  {
  }

  /** One more candidate is staged, with the share made for it. */
  lemma StageNext(unexpired: seq<Route>, cs: seq<Candidate>, before: seq<LANShare?>, after: seq<LANShare?>,
                  staged: Staged, one: Result<(seq<Route>, Option<Route>), StoreError>, clash: Option<StoreError>,
                  n: nat)
    requires n < |cs| && n == |before| && |after| == n + 1 && before <= after
             && Stage(unexpired, cs, before, n) == Ok(staged)
    requires one == ReuseOne(staged.routes, cs[n], after[n])
    requires clash == FirstClash(unexpired + Logicals(cs[..n]), cs[n])
    ensures Stage(unexpired, cs, after, n + 1)
            == if one.Err? then Err(one.error)
               else if clash.Some? then Err(clash.value)
               else Ok(Staged(one.value.0, staged.reused + [one.value.1]))
  {
    StageAgrees(unexpired, cs, before, after, n);
    StageStep(unexpired, cs, after, n, staged, one, clash);
  }

  lemma StageFailsAnyhow(unexpired: seq<Route>, cs: seq<Candidate>, shares: seq<LANShare?>, more: seq<LANShare?>,
                         i: nat)
    requires i == |shares| <= |cs| == |more| && shares <= more && Stage(unexpired, cs, shares, i).Err?
    ensures Stage(unexpired, cs, more, |cs|) == Stage(unexpired, cs, shares, i)
  {
    StageAgrees(unexpired, cs, shares, more, i);
    StageFails(unexpired, cs, more, i, |cs|);
  }

  lemma LogicalsGrow(unexpired: seq<Route>, cs: seq<Candidate>, i: nat)
    requires i < |cs|
    ensures unexpired + Logicals(cs[..i + 1]) == unexpired + Logicals(cs[..i]) + [Logical(cs[i])]
  {
    assert Logicals(cs[..i + 1]) == Logicals(cs[..i]) + [Logical(cs[i])];
  }

  /** The next candidate is checked, and a share made for the route it reuses if need be. */
  method StageOne(unexpired: seq<Route>, cs: seq<Candidate>, ghost shares: seq<LANShare?>, staged: Staged, c: Candidate,
                  logical: seq<Route>, now: Time)
    returns (next: Result<Staged, StoreError>, share: LANShare?)
    requires |shares| < |cs| && c == cs[|shares|] && Stage(unexpired, cs, shares, |shares|) == Ok(staged)
    requires logical == unexpired + Logicals(cs[..|shares|])
    ensures Stage(unexpired, cs, shares + [share], |shares| + 1) == next
    ensures (share == null || fresh(share)) && JustRequested(share, now)
  {
    var one;
    one, share := ReuseRoute(staged.routes, c, now);
    var clash := SchemeConflictAmong(logical, c);
    StageNext(unexpired, cs, shares, shares + [share], staged, one, clash, |shares|);
    if one.Err? {
      return Err(one.error), share;
    }
    if clash.Some? {
      return Err(clash.value), share;
    }
    next := Ok(Staged(one.value.0, staged.reused + [one.value.1]));
  }

  method StageCandidates(unexpired: seq<Route>, cs: seq<Candidate>, now: Time)
    returns (r: Result<Staged, StoreError>, shares: seq<LANShare?>)
    ensures |shares| == |cs| && r == Stage(unexpired, cs, shares, |cs|)
    ensures forall k :: 0 <= k < |shares| ==>
              (shares[k] == null || fresh(shares[k])) && JustRequested(shares[k], now)
  {
    var staged := Staged(unexpired, []);
    var logical := unexpired;
    shares := [];
    for i := 0 to |cs|
      invariant |shares| == i && Stage(unexpired, cs, shares, i) == Ok(staged)
      invariant logical == unexpired + Logicals(cs[..i])
      invariant forall k :: 0 <= k < |shares| ==>
                  (shares[k] == null || fresh(shares[k])) && JustRequested(shares[k], now)
    {
      var next, share := StageOne(unexpired, cs, shares, staged, cs[i], logical, now);
      shares := shares + [share];
      if next.Err? {
        StageFailsAnyhow(unexpired, cs, shares, shares + Nulls(|cs| - i - 1), i + 1);
        shares := shares + Nulls(|cs| - i - 1);
        return next, shares;
      }
      staged := next.value;
      LogicalsGrow(unexpired, cs, i);
      logical := logical + [Logical(cs[i])];
    }
    return Ok(staged), shares;
  }

  lemma KeysOfOneMore(p: Platform, routes: seq<Route>, r: Route)
    ensures TargetKeys(p, routes + [r]) == TargetKeys(p, routes) + if Key(p, r).Some? then {Key(p, r).value} else {}
  {
    var all := routes + [r];
    forall k | k in TargetKeys(p, all)
      ensures k in TargetKeys(p, routes) + if Key(p, r).Some? then {Key(p, r).value} else {}
    {
      var x :| x in all && Key(p, x).Some? && Key(p, x).value == k;
    }
    forall k | k in TargetKeys(p, routes) ensures k in TargetKeys(p, all) {
      var x :| x in routes && Key(p, x).Some? && Key(p, x).value == k;
      assert x in all;
    }
    assert r in all;
  }

  method OccupiedTargets(p: Platform, routes: seq<Route>) returns (occupied: set<Text>)
    ensures occupied == TargetKeys(p, routes)
  {
    occupied := {};
    for i := 0 to |routes|
      invariant occupied == TargetKeys(p, routes[..i])
    {
      KeysOfOneMore(p, routes[..i], routes[i]);
      assert routes[..i + 1] == routes[..i] + [routes[i]];
      var target := routes[i].target;
      if routes[i].IsPending() {
        target := routes[i].pendingTarget;
      }
      var key := p.targetKey(target);
      if key.Some? {
        occupied := occupied + {key.value};
      }
    }
    assert routes[..|routes|] == routes;
  }

  lemma {:induction false} ClaimFails(p: Platform, taken: set<Text>, cs: seq<Candidate>, reused: seq<Option<Route>>,
                                      i: nat, n: nat)
    requires i <= n <= |cs| == |reused| && ClaimTargets(p, taken, cs, reused, i).Err?
    ensures ClaimTargets(p, taken, cs, reused, n) == ClaimTargets(p, taken, cs, reused, i)
    decreases n
  {
    if i < n {
      ClaimFails(p, taken, cs, reused, i, n - 1);
    }
  }

  method ClaimAllTargets(p: Platform, taken: set<Text>, cs: seq<Candidate>, reused: seq<Option<Route>>)
    returns (r: Result<set<Text>, StoreError>)
    requires |cs| == |reused|
    ensures r == ClaimTargets(p, taken, cs, reused, |cs|)
  {
    var occupied := taken;
    for i := 0 to |cs|
      invariant ClaimTargets(p, taken, cs, reused, i) == Ok(occupied)
    {
      if reused[i].Some? {
        continue;
      }
      var key := p.targetKey(cs[i].target);
      if key.None? {
        ClaimFails(p, taken, cs, reused, i + 1, |cs|);
        return Err(BadTarget);
      }
      if key.value in occupied {
        ClaimFails(p, taken, cs, reused, i + 1, |cs|);
        return Err(TargetTaken(cs[i].target));
      }
      occupied := occupied + {key.value};
    }
    return Ok(occupied);
  }

  // ------------------------------------------------------------ allocation

  /** The directory that stands for "taken by somebody". */
  const OCCUPIED := "\0occupied"

  /** It is no candidate's own. */
  predicate NotOccupied(p: Platform, c: Candidate) {
    !p.paths.samePath(OCCUPIED, c.owner.cwd.chars)
  }

  predicate NoneOccupied(p: Platform, cs: seq<Candidate>) {
    forall k :: 0 <= k < |cs| ==> NotOccupied(p, cs[k])
  }

  /** Nor is it after the candidates have been validated. */
  lemma {:induction false} ValidKeepsOwners(p: Platform, raw: seq<Candidate>, n: nat)
    requires n <= |raw| && ValidateFirst(p, raw, n).Ok?
    ensures forall k :: 0 <= k < n ==> ValidateFirst(p, raw, n).value[k].owner == raw[k].owner
  {
    if n > 0 {
      ValidKeepsOwners(p, raw, n - 1);
    }
  }

  lemma NoneOccupiedOnceValid(p: Platform, raw: seq<Candidate>, cs: seq<Candidate>)
    requires NoneOccupied(p, raw) && ValidateAll(p, raw) == Ok(cs)
    ensures NoneOccupied(p, cs)
  {
    ValidKeepsOwners(p, raw, |raw|);
  }

  /** The hosts of the routes, each taken by somebody. */
  ghost predicate Occupies(occupied: map<string, string>, routes: seq<Route>) {
    && (forall h :: h in occupied ==> occupied[h] == OCCUPIED)
    && (forall h :: h in occupied <==> exists i :: 0 <= i < |routes| && routes[i].host == h)
  }

  lemma OccupiedNames(p: Platform, occupied: map<string, string>, routes: seq<Route>, cwd: string)
    requires !p.paths.samePath(OCCUPIED, cwd) && Occupies(occupied, routes)
    ensures Hostnames.Unambiguous(p.paths, occupied, cwd)
    ensures Hostnames.Busy(p.paths, occupied, cwd) == HostNames(routes)
  {
    var busy := Hostnames.Busy(p.paths, occupied, cwd);
    forall name | name in busy ensures name in HostNames(routes) {
      var h :| h in occupied && Lower(h) == name;
      var i :| 0 <= i < |routes| && routes[i].host == h;
      assert routes[i] in routes;
    }
    forall name | name in HostNames(routes) ensures name in busy {
      var r :| r in routes && Lower(r.host) == name;
      assert r.host in occupied;
    }
  }

  method OccupiedHosts(routes: seq<Route>) returns (occupied: map<string, string>)
    ensures Occupies(occupied, routes)
  {
    occupied := map[];
    for i := 0 to |routes|
      invariant Occupies(occupied, routes[..i])
    {
      OneMoreOccupied(occupied, routes[..i], routes[i]);
      assert routes[..i + 1] == routes[..i] + [routes[i]];
      occupied := occupied[routes[i].host := OCCUPIED];
    }
    assert routes[..|routes|] == routes;
  }

  lemma OneMoreOccupied(occupied: map<string, string>, routes: seq<Route>, r: Route)
    requires Occupies(occupied, routes)
    ensures Occupies(occupied[r.host := OCCUPIED], routes + [r])
  {
    var next, all := occupied[r.host := OCCUPIED], routes + [r];
    forall h | h in next ensures exists i :: 0 <= i < |all| && all[i].host == h {
      if h == r.host {
        assert all[|routes|].host == h;
      } else {
        var i :| 0 <= i < |routes| && routes[i].host == h;
        assert all[i].host == h;
      }
    }
    forall i | 0 <= i < |all| ensures all[i].host in next {
      if i < |routes| {
        assert routes[i].host in occupied;
      }
    }
  }

  lemma {:induction false} AllocateAgrees(p: Platform, staged: seq<Route>, cs: seq<Candidate>,
                                          reused: seq<Option<Route>>, runId: Text, expiry: Time, ids: seq<Text>,
                                          s: seq<LANShare?>, t: seq<LANShare?>, n: nat)
    requires n <= |cs| == |reused| == |s| == |t| && forall k :: 0 <= k < n ==> s[k] == t[k]
    ensures Allocate(p, staged, cs, reused, runId, expiry, ids, s, n)
            == Allocate(p, staged, cs, reused, runId, expiry, ids, t, n)
  {
    if n > 0 {
      AllocateAgrees(p, staged, cs, reused, runId, expiry, ids, s, t, n - 1);
    }
  }

  lemma {:induction false} AllocateFails(p: Platform, staged: seq<Route>, cs: seq<Candidate>,
                                         reused: seq<Option<Route>>, runId: Text, expiry: Time, ids: seq<Text>,
                                         shares: seq<LANShare?>, i: nat, n: nat)
    requires i <= n <= |cs| == |reused| == |shares|
             && Allocate(p, staged, cs, reused, runId, expiry, ids, shares, i).Err?
    ensures Allocate(p, staged, cs, reused, runId, expiry, ids, shares, n)
            == Allocate(p, staged, cs, reused, runId, expiry, ids, shares, i)
    decreases n
  {
    if i < n {
      AllocateFails(p, staged, cs, reused, runId, expiry, ids, shares, i, n - 1);
    }
  }

  lemma AllocateNext(p: Platform, staged: seq<Route>, cs: seq<Candidate>, reused: seq<Option<Route>>, runId: Text,
                     expiry: Time, ids: seq<Text>, before: seq<LANShare?>, shares: seq<LANShare?>, i: nat,
                     made: Allocation, one: Result<Allocation, StoreError>)
    requires i < |cs| == |reused| == |before| == |shares| && shares == before[i := shares[i]] && reused[i].None?
    requires Allocate(p, staged, cs, reused, runId, expiry, ids, before, i) == Ok(made)
    requires one == Place(p, made, cs[i], None, runId, expiry, ids, shares[i])
    ensures Allocate(p, staged, cs, reused, runId, expiry, ids, shares, i + 1) == one
    ensures one.Err? ==> Allocate(p, staged, cs, reused, runId, expiry, ids, shares, |cs|) == one
  {
    AllocateAgrees(p, staged, cs, reused, runId, expiry, ids, before, shares, i);
    if one.Err? {
      AllocateFails(p, staged, cs, reused, runId, expiry, ids, shares, i + 1, |cs|);
    }
  }

  method ChooseHost(p: Platform, routes: seq<Route>, c: Candidate, occupied: map<string, string>) returns (host: string)
    requires NotOccupied(p, c) && Occupies(occupied, routes)
    ensures host == Hostnames.Resolve(p.paths, HostNames(routes), c.desiredHost, c.owner.cwd.chars)
  {
    OccupiedNames(p, occupied, routes, c.owner.cwd.chars);
    host := Hostnames.ResolveHostnameConflict(p.paths, c.desiredHost, c.owner.cwd.chars, occupied);
  }

  method RequestedLanShare(mode: ShareMode, host: string, now: Time) returns (share: LANShare?)
    ensures (share == null || fresh(share)) && JustRequested(share, now)
    ensures share != null <==> mode == Lan && Shareable(host)
    ensures share != null ==> share.requestedHostname == ShareName(host)
  {
    if mode == Lan && Shareable(host) {
      share := new LANShare(ShareName(host), now);
    } else {
      share := null;
    }
  }

  /** The host just chosen for a new route. */
  ghost predicate Chosen(p: Platform, before: Allocation, c: Candidate, host: string) {
    host == Hostnames.Resolve(p.paths, HostNames(before.routes), c.desiredHost, c.owner.cwd.chars)
  }

  lemma PlaceIs(p: Platform, before: Allocation, c: Candidate, runId: Text, expiry: Time, ids: seq<Text>,
                share: LANShare?, host: string)
    requires before.used <= |ids| && Chosen(p, before, c, host)
    ensures Place(p, before, c, None, runId, expiry, ids, share)
            == if before.used == |ids| then Err(NoIdentity)
               else
                 var route := NewRoute(c, host, ids[before.used], runId, expiry, share);
                 Ok(Allocation(before.routes + [route], before.reserved + [Reserved(route, false)], before.used + 1))
  {
  }

  /** One new route, with a host that no route has and a share if one is wanted. */
  method PlaceRoute(p: Platform, before: Allocation, c: Candidate, occupied: map<string, string>, runId: Text,
                    expiry: Time, ids: seq<Text>, now: Time)
    returns (r: Result<Allocation, StoreError>, host: string, share: LANShare?)
    requires before.used <= |ids| && NotOccupied(p, c) && Occupies(occupied, before.routes)
    ensures r == Place(p, before, c, None, runId, expiry, ids, share)
    ensures (share == null || fresh(share)) && JustRequested(share, now)
    ensures r.Ok? ==> |r.value.routes| == |before.routes| + 1 && before.routes <= r.value.routes
                      && r.value.routes[|before.routes|].host == host && r.value.routes[|before.routes|].share == share
    ensures share != null <==> c.shareMode == Lan && Shareable(host)
    ensures share != null ==> share.requestedHostname == ShareName(host)
  {
    host := ChooseHost(p, before.routes, c, occupied);
    share := RequestedLanShare(c.shareMode, host, now);
    PlaceIs(p, before, c, runId, expiry, ids, share, host);
    if before.used == |ids| {
      return Err(NoIdentity), host, share;
    }
    var route := NewRoute(c, host, ids[before.used], runId, expiry, share);
    r := Ok(Allocation(before.routes + [route], before.reserved + [Reserved(route, false)], before.used + 1));
  }

  /** And its host is occupied from then on. */
  method PlaceNext(p: Platform, before: Allocation, c: Candidate, occupied: map<string, string>, runId: Text,
                   expiry: Time, ids: seq<Text>, now: Time)
    returns (r: Result<Allocation, StoreError>, share: LANShare?, taken: map<string, string>)
    requires before.used <= |ids| && NotOccupied(p, c) && Occupies(occupied, before.routes)
    ensures r == Place(p, before, c, None, runId, expiry, ids, share)
    ensures (share == null || fresh(share)) && JustRequested(share, now)
    ensures r.Ok? ==> Occupies(taken, r.value.routes)
  {
    var host;
    taken := occupied;
    r, host, share := PlaceRoute(p, before, c, occupied, runId, expiry, ids, now);
    if r.Ok? {
      OneMoreOccupied(occupied, before.routes, r.value.routes[|before.routes|]);
      assert r.value.routes == before.routes + [r.value.routes[|before.routes|]];
      taken := occupied[host := OCCUPIED];
    }
  }

  method AllocateRoutes(p: Platform, staged: seq<Route>, cs: seq<Candidate>, reused: seq<Option<Route>>, runId: Text,
                        expiry: Time, ids: seq<Text>, given: seq<LANShare?>, now: Time)
    returns (r: Result<Allocation, StoreError>, shares: seq<LANShare?>)
    requires |cs| == |reused| == |given| && NoneOccupied(p, cs)
    ensures |shares| == |cs| && r == Allocate(p, staged, cs, reused, runId, expiry, ids, shares, |cs|)
    ensures forall k :: 0 <= k < |cs| ==>
              || shares[k] == given[k]
              || (reused[k].None? && (shares[k] == null || fresh(shares[k])) && JustRequested(shares[k], now))
  {
    var made := Allocation(staged, [], 0);
    var occupied := OccupiedHosts(staged);
    shares := given;
    for i := 0 to |cs|
      invariant |shares| == |cs| && Allocate(p, staged, cs, reused, runId, expiry, ids, shares, i) == Ok(made)
      invariant Occupies(occupied, made.routes)
      invariant forall k :: 0 <= k < |cs| ==>
                  || shares[k] == given[k]
                  || (reused[k].None? && k < i && (shares[k] == null || fresh(shares[k]))
                      && JustRequested(shares[k], now))
    {
      if reused[i].Some? {
        made := made.(reserved := made.reserved + [Reserved(reused[i].value, true)]);
        continue;
      }
      ghost var before := shares;
      var one, share, taken := PlaceNext(p, made, cs[i], occupied, runId, expiry, ids, now);
      shares := shares[i := share];
      AllocateNext(p, staged, cs, reused, runId, expiry, ids, before, shares, i, made, one);
      if one.Err? {
        return Err(one.error), shares;
      }
      occupied, made := taken, one.value;
    }
    return Ok(made), shares;
  }

  // ------------------------------------------------------------ batch checks

  /** completeRunIndexes: the positions of a batch, if it is complete. */
  method CompleteRunIndexes(routes: seq<Route>, runId: Text, refs: seq<RouteRef>, pendingOnly: bool, now: Option<Time>)
    returns (indexes: Option<seq<nat>>)
    ensures indexes.Some? <==> CompleteRun(routes, runId, refs, pendingOnly, now)
    ensures indexes.Some? ==> |indexes.value| == |refs|
                              && forall k :: 0 <= k < |refs| ==> FindRef(routes, refs[k]) == Some(indexes.value[k])
  {
    var matching := MatchingRunIndexes(routes, runId, refs, pendingOnly, now);
    if matching.None? {
      return None;
    }
    var expected := 0;
    for i := 0 to |routes|
      invariant expected == CountRun(routes[..i], runId, pendingOnly)
    {
      assert routes[..i + 1][..i] == routes[..i];
      if routes[i].runId == runId && (!pendingOnly || routes[i].IsPending()) {
        expected := expected + 1;
      }
    }
    assert routes[..|routes|] == routes;
    if expected != |matching.value| {
      return None;
    }
    return matching;
  }

  ghost predicate Matches(routes: seq<Route>, runId: Text, refs: seq<RouteRef>, pendingOnly: bool, now: Option<Time>,
                          n: nat)
    requires n <= |refs|
  {
    && (forall i :: 0 <= i < n ==>
          FindRef(routes, refs[i]).Some? && Eligible(routes[FindRef(routes, refs[i]).value], runId, pendingOnly, now))
    && (forall i, j :: 0 <= i < j < n ==> refs[i] != refs[j])
  }

  method MatchingRunIndexes(routes: seq<Route>, runId: Text, refs: seq<RouteRef>, pendingOnly: bool, now: Option<Time>)
    returns (r: Option<seq<nat>>)
    ensures r.Some? <==> runId != EMPTY && refs != [] && Matches(routes, runId, refs, pendingOnly, now, |refs|)
    ensures r.Some? ==> |r.value| == |refs| && forall k :: 0 <= k < |refs| ==>
            FindRef(routes, refs[k]) == Some(r.value[k])
  {
    if runId == EMPTY || refs == [] {
      return None;
    }
    var indexes, seen := [], {};
    for i := 0 to |refs|
      invariant |indexes| == i && Matches(routes, runId, refs, pendingOnly, now, i)
      invariant forall k :: 0 <= k < i ==> FindRef(routes, refs[k]) == Some(indexes[k])
      invariant forall x :: x in seen <==> x in indexes
    {
      var index := RouteRefIndex(routes, refs[i]);
      if index.None? || index.value in seen || routes[index.value].runId != runId {
        return None;
      }
      if pendingOnly && !routes[index.value].IsPending() {
        return None;
      }
      if routes[index.value].IsPending() && now.Some? && ReservationExpired(routes[index.value], now.value) {
        return None;
      }
      seen := seen + {index.value};
      indexes := indexes + [index.value];
    }
    return Some(indexes);
  }

  // ------------------------------------------------------------ changes to the routes of a batch

  /** The routes at the first n positions of indexes have been changed. */
  ghost predicate ChangedSoFar(before: seq<Route>, routes: seq<Route>, indexes: seq<nat>, n: nat, f: Route -> Route)
    requires n <= |indexes|
  {
    && |routes| == |before|
    && forall i :: 0 <= i < |before| ==> routes[i] == if i in indexes[..n] then f(before[i]) else before[i]
  }

  lemma AllChanged(before: seq<Route>, routes: seq<Route>, refs: seq<RouteRef>, indexes: seq<nat>, f: Route -> Route)
    requires |indexes| == |refs| && forall k :: 0 <= k < |refs| ==> FindRef(before, refs[k]) == Some(indexes[k])
    requires ChangedSoFar(before, routes, indexes, |indexes|, f)
    ensures routes == MapPointed(before, refs, f)
  {
    assert indexes[..|indexes|] == indexes;
    forall i | 0 <= i < |before| ensures i in indexes <==> PointedAt(before, refs, i) {
    }
  }

  lemma DifferentPositions(routes: seq<Route>, refs: seq<RouteRef>, indexes: seq<nat>)
    requires |indexes| == |refs| && forall k :: 0 <= k < |refs| ==> FindRef(routes, refs[k]) == Some(indexes[k])
    requires forall i, j :: 0 <= i < j < |refs| ==> refs[i] != refs[j]
    ensures NoDup(indexes)
  {
    forall i, j | 0 <= i < j < |indexes| ensures indexes[i] != indexes[j] {
      assert routes[indexes[i]].Ref() == refs[i] && routes[indexes[j]].Ref() == refs[j];
    }
  }

  /** The loop of ActivateRoutes, on the store's copy of the routes. */
  method ActivateAt(before: seq<Route>, indexes: seq<nat>, expiry: Time)
    returns (routes: seq<Route>, activated: seq<Route>)
    requires NoDup(indexes) && forall k :: 0 <= k < |indexes| ==> indexes[k] < |before|
    ensures ChangedSoFar(before, routes, indexes, |indexes|, (r: Route) => ActivatedRoute(r, expiry))
    ensures |activated| == |indexes| && forall k :: 0 <= k < |indexes| ==>
              activated[k] == ActivatedRoute(before[indexes[k]], expiry) && activated[k] in routes
  {
    routes, activated := before, [];
    for k := 0 to |indexes|
      invariant ChangedSoFar(before, routes, indexes, k, (r: Route) => ActivatedRoute(r, expiry))
      invariant |activated| == k && forall m :: 0 <= m < k ==>
                activated[m] == ActivatedRoute(before[indexes[m]], expiry)
    {
      var route := routes[indexes[k]];
      route := route.(state := Active);
      route := route.(target := route.pendingTarget);
      route := route.(pendingTarget := EMPTY);
      route := route.(reservationExpiresAt := None);
      route := route.(leaseExpiresAt := Some(expiry));
      routes := routes[indexes[k] := route];
      activated := activated + [route];
    }
    forall k | 0 <= k < |indexes| ensures activated[k] in routes {
      assert indexes[k] in indexes[..|indexes|];
      assert routes[indexes[k]] == activated[k];
    }
  }

  /** The loop of RenewRoutes. */
  method RenewAt(before: seq<Route>, indexes: seq<nat>, expiry: Time) returns (routes: seq<Route>)
    requires NoDup(indexes) && forall k :: 0 <= k < |indexes| ==> indexes[k] < |before|
    ensures ChangedSoFar(before, routes, indexes, |indexes|, (r: Route) => RenewedRoute(r, expiry))
  {
    routes := before;
    for k := 0 to |indexes|
      invariant ChangedSoFar(before, routes, indexes, k, (r: Route) => RenewedRoute(r, expiry))
    {
      var index := indexes[k];
      if routes[index].IsPending() {
        routes := routes[index := routes[index].(reservationExpiresAt := Some(expiry))];
      } else {
        routes := routes[index := routes[index].(leaseExpiresAt := Some(expiry))];
      }
    }
  }

  /** The checks of RenewRoutes. */
  method RenewIndexes(routes: seq<Route>, runId: Text, refs: seq<RouteRef>, now: Time) returns (r: Option<seq<nat>>)
    ensures r.Some? <==> Renewable(routes, runId, refs, now)
    ensures r.Some? ==> |r.value| == |refs| && forall k :: 0 <= k < |refs| ==>
            FindRef(routes, refs[k]) == Some(r.value[k])
  {
    if Blank(runId) || refs == [] {
      return None;
    }
    var indexes, seen := [], {};
    for i := 0 to |refs|
      invariant |indexes| == i && Matches(routes, runId, refs, false, Some(now), i)
      invariant forall k :: 0 <= k < i ==> FindRef(routes, refs[k]) == Some(indexes[k])
      invariant forall x :: x in seen <==> x in refs[..i]
    {
      if refs[i] in seen {
        ghost var k :| 0 <= k < i && refs[..i][k] == refs[i];
        assert refs[k] == refs[i];
        return None;
      }
      seen := seen + {refs[i]};
      var index := RouteRefIndex(routes, refs[i]);
      if index.None? || routes[index.value].runId != runId {
        return None;
      }
      if routes[index.value].IsPending() && ReservationExpired(routes[index.value], now) {
        return None;
      }
      indexes := indexes + [index.value];
    }
    return Some(indexes);
  }

  method BuildRoutes(p: Platform, unexpired: seq<Route>, cs: seq<Candidate>, runId: Text, expiry: Time, ids: seq<Text>,
                     now: Time)
    returns (r: Result<Allocation, StoreError>, shares: seq<LANShare?>)
    requires NoneOccupied(p, cs)
    ensures |shares| == |cs| && r == Build(p, unexpired, cs, runId, expiry, ids, shares)
    ensures forall k :: 0 <= k < |shares| ==>
              (shares[k] == null || fresh(shares[k])) && JustRequested(shares[k], now)
  {
    shares := Nulls(|cs|);
    var conflict := EnforceSingleWslOwner(unexpired, cs);
    if conflict.Some? {
      return Err(conflict.value), shares;
    }
    var staged;
    staged, shares := StageCandidates(unexpired, cs, now);
    if staged.Err? {
      return Err(staged.error), shares;
    }
    var occupied := OccupiedTargets(p, staged.value.routes);
    var targets := ClaimAllTargets(p, occupied, cs, staged.value.reused);
    if targets.Err? {
      return Err(targets.error), shares;
    }
    ghost var given := shares;
    r, shares := AllocateRoutes(p, staged.value.routes, cs, staged.value.reused, runId, expiry, ids, shares, now);
    ReusedAreNamed(unexpired, cs, given, |cs|);
    StageAgrees(unexpired, cs, given, shares, |cs|);
  }

  lemma {:induction false} ReusedAreNamed(unexpired: seq<Route>, cs: seq<Candidate>, shares: seq<LANShare?>, n: nat)
    requires n <= |cs| && n <= |shares| && Stage(unexpired, cs, shares, n).Ok?
    ensures forall k :: 0 <= k < n ==> (Stage(unexpired, cs, shares, n).value.reused[k].Some? <==> cs[k].reuse.Some?)
  {
    if n > 0 {
      ReusedAreNamed(unexpired, cs, shares, n - 1);
    }
  }

  /** What a request that has passed the first checks comes to. */
  lemma ReserveIs(p: Platform, stored: seq<Route>, request: Request, now: Time, ids: seq<Text>, shares: seq<LANShare?>,
                  cs: seq<Candidate>, made: Result<Allocation, StoreError>)
    requires !Blank(request.runId) && request.ttl > 0 && request.routes != [] && |shares| == |request.routes|
    requires ValidateAll(p, request.routes) == Ok(cs)
    requires made == Build(p, RemoveExpired(SortRoutes(stored), now), cs, request.runId, now + request.ttl, ids, shares)
    ensures Reserve(p, stored, request, now, ids, shares)
            == if made.Err? then Err(made.error) else Ok((SortRoutes(made.value.routes), made.value.reserved))
  {
  }

  class MemoryStore {
    var routes: seq<Route>

    constructor ()
      ensures routes == []
    {
      routes := [];
    }

    /** shares are the share objects made on the way. */
    method ReserveRoutes(p: Platform, request: Request, now: Time, ids: seq<Text>)
      returns (r: Result<seq<Reserved>, StoreError>, shares: seq<LANShare?>)
      requires NoneOccupied(p, request.routes)
      modifies this
      ensures |shares| == |request.routes|
      ensures forall k :: 0 <= k < |shares| ==>
                (shares[k] == null || fresh(shares[k])) && JustRequested(shares[k], now)
      ensures r.Ok? ==> Reserve(p, old(routes), request, now, ids, shares) == Ok((routes, r.value))
      ensures r.Err? ==> routes == old(routes) && Reserve(p, old(routes), request, now, ids, shares) == Err(r.error)
    {
      shares := Nulls(|request.routes|);
      if Blank(request.runId) {
        return Err(NoRunID), shares;
      }
      if request.ttl <= 0 {
        return Err(BadTTL), shares;
      }
      if request.routes == [] {
        return Err(NoRoutes), shares;
      }
      var unexpired := FilterExpired(SortRoutes(routes), now);
      var candidates := ValidateCandidates(p, request.routes);
      if candidates.Err? {
        return Err(candidates.error), shares;
      }
      NoneOccupiedOnceValid(p, request.routes, candidates.value);
      var made;
      made, shares := BuildRoutes(p, unexpired, candidates.value, request.runId, now + request.ttl, ids, now);
      ReserveIs(p, routes, request, now, ids, shares, candidates.value, made);
      if made.Err? {
        return Err(made.error), shares;
      }
      var next := SortRoutes(made.value.routes);
      SortIsIdempotent(made.value.routes);
      routes := SortRoutes(next);
      return Ok(made.value.reserved), shares;
    }

    method ActivateRoutes(runId: Text, refs: seq<RouteRef>, now: Time, ttl: Time)
      returns (r: Result<seq<Route>, StoreError>)
      modifies this
      ensures r.Ok? ==> Activate(old(routes), runId, refs, now, ttl) == Ok(routes)
      ensures r.Ok? ==> |r.value| == |refs| && forall k :: 0 <= k < |refs| ==>
                r.value[k] in routes && r.value[k].Ref() == refs[k] && r.value[k].state == Active
      ensures r.Err? ==> routes == old(routes) && Activate(old(routes), runId, refs, now, ttl) == Err(r.error)
    {
      if ttl <= 0 {
        return Err(BadTTL);
      }
      var work := SortRoutes(routes);
      var indexes := CompleteRunIndexes(work, runId, refs, true, Some(now));
      if indexes.None? {
        return Err(RefMismatch);
      }
      DifferentPositions(work, refs, indexes.value);
      var next, activated := ActivateAt(work, indexes.value, now + ttl);
      AllChanged(work, next, refs, indexes.value, (r: Route) => ActivatedRoute(r, now + ttl));
      SortIsIdempotent(next);
      forall k | 0 <= k < |refs| ensures activated[k] in SortRoutes(next) {
        SortedMembers(next, activated[k]);
      }
      next := SortRoutes(next);
      routes := SortRoutes(next);
      return Ok(activated);
    }

    method ReleaseRoutes(runId: Text, refs: seq<RouteRef>) returns (r: Option<StoreError>)
      modifies this
      ensures r.None? ==> Release(old(routes), runId, refs) == Ok(routes)
      ensures r.Some? ==> routes == old(routes) && Release(old(routes), runId, refs) == Err(r.value)
    {
      var work := SortRoutes(routes);
      var indexes := CompleteRunIndexes(work, runId, refs, false, None);
      if indexes.None? {
        return Some(RefMismatch);
      }
      var remove := {};
      for k := 0 to |indexes.value|
        invariant forall x :: x in remove <==> x in indexes.value[..k]
      {
        remove := remove + {indexes.value[k]};
      }
      RemovedArePointed(work, refs, indexes.value, remove);
      var next := [];
      for i := 0 to |work|
        invariant next == Drop(work, remove, i)
      {
        if i !in remove {
          next := next + [work[i]];
        }
      }
      routes := SortRoutes(next);
      return None;
    }

    method RenewRoutes(runId: Text, refs: seq<RouteRef>, now: Time, ttl: Time) returns (r: Option<StoreError>)
      modifies this
      ensures r.None? ==> Renew(old(routes), runId, refs, now, ttl) == Ok(routes)
      ensures r.Some? ==> routes == old(routes) && Renew(old(routes), runId, refs, now, ttl) == Err(r.value)
    {
      if ttl <= 0 {
        return Some(BadTTL);
      }
      var work := SortRoutes(routes);
      var indexes := RenewIndexes(work, runId, refs, now);
      if indexes.None? {
        return Some(RefMismatch);
      }
      DifferentPositions(work, refs, indexes.value);
      var next := RenewAt(work, indexes.value, now + ttl);
      AllChanged(work, next, refs, indexes.value, (r: Route) => RenewedRoute(r, now + ttl));
      routes := SortRoutes(next);
      return None;
    }

    method DeleteRouteRef(ref: RouteRef) returns (r: Option<StoreError>)
      modifies this
      ensures r.None? ==> Delete(old(routes), ref) == Ok(routes)
      ensures r.Some? ==> routes == old(routes) && Delete(old(routes), ref) == Err(r.value)
    {
      var work := SortRoutes(routes);
      var index := RouteRefIndex(work, ref);
      if index.None? {
        return Some(RefMismatch);
      }
      routes := SortRoutes(work[..index.value] + work[index.value + 1..]);
      return None;
    }
  }

  lemma RemovedArePointed(routes: seq<Route>, refs: seq<RouteRef>, indexes: seq<nat>, remove: set<nat>)
    requires |indexes| == |refs| && forall k :: 0 <= k < |refs| ==> FindRef(routes, refs[k]) == Some(indexes[k])
    requires forall x :: x in remove <==> x in indexes[..|indexes|]
    ensures remove == Pointed(routes, refs)
  {
    assert indexes[..|indexes|] == indexes;
    forall x | x in remove ensures x in Pointed(routes, refs) {
      var k :| 0 <= k < |indexes| && indexes[k] == x;
      assert FindRef(routes, refs[k]) == Some(x);
    }
    forall x | x in Pointed(routes, refs) ensures x in remove {
      var k :| 0 <= k < |refs| && FindRef(routes, refs[k]) == Some(x);
      assert indexes[k] == x;
    }
  }
}
