/** When a reservation is accepted, told from the request and the stored routes alone. */
module RouteAccepts {
  import opened Common
  import opened Routes
  import opened RouteFacts
  import opened RouteRuns
  import Hostnames

  // ------------------------------------------------------------ what a request must meet

  /** The route has not expired. */
  predicate IsLive(r: Route, now: Time) {
    if r.state == Pending then r.reservationExpiresAt.None? || now < r.reservationExpiresAt.value
    else r.leaseExpiresAt.None? || now < r.leaseExpiresAt.value
  }

  function OwnDirectory(o: Owner): Text {
    if o.ownerCwd == EMPTY then o.cwd else o.ownerCwd
  }

  /** The route's owner is the candidate's: the same directory, and the same project root
      and name as far as the candidate gives them. */
  predicate SameOwner(r: Owner, c: Owner) {
    && OwnDirectory(r) != EMPTY && OwnDirectory(r) == OwnDirectory(c)
    && (c.projectRoot == EMPTY || r.projectRoot == c.projectRoot)
    && (c.projectName == EMPTY || r.projectName == c.projectName)
  }

  /** Host, directory, target, scheme and share mode are such as the store knows. */
  predicate IsAcceptable(p: Platform, c: Candidate) {
    && p.normalizeHost(c.desiredHost).Some? && !Blank(c.owner.cwd) && p.targetKey(c.target).Some?
    && (c.scheme == Http || c.scheme == Https) && (c.shareMode == NotShared || c.shareMode == Lan)
  }

  ghost predicate AllAcceptable(p: Platform, cs: seq<Candidate>) {
    forall k :: 0 <= k < |cs| ==> IsAcceptable(p, cs[k])
  }

  predicate ByWsl(o: Owner) {
    o.env == Wsl && o.instance != EMPTY
  }

  ghost predicate BatchOwnedBy(cs: seq<Candidate>, owner: Text) {
    forall k :: 0 <= k < |cs| && ByWsl(cs[k].owner) ==> cs[k].owner.instance == owner
  }

  ghost predicate StoreOwnedBy(stored: seq<Route>, owner: Text, now: Time) {
    forall i :: 0 <= i < |stored| && IsLive(stored[i], now) && ByWsl(stored[i].owner) ==>
        stored[i].owner.instance == owner
  }

  /** If a candidate is owned by WSL, one instance owns those of the batch and of the store. */
  ghost predicate OneWslOwner(stored: seq<Route>, cs: seq<Candidate>, now: Time) {
    || (forall k :: 0 <= k < |cs| ==> !ByWsl(cs[k].owner))
    || exists owner :: BatchOwnedBy(cs, owner) && StoreOwnedBy(stored, owner, now)
  }

  /** The candidate names no route to reuse, or an active one of its owner and scheme. */
  ghost predicate ReusesOwn(stored: seq<Route>, c: Candidate, now: Time) {
    c.reuse.None? ||
    exists i :: 0 <= i < |stored| && stored[i].Ref() == c.reuse.value && IsLive(stored[i], now)
                && stored[i].state != Pending && SameOwner(stored[i].owner, c.owner) && stored[i].scheme == c.scheme
  }

  /** The same owner has the host under another scheme. */
  predicate OtherScheme(host: string, owner: Owner, scheme: Scheme, wanted: string, c: Candidate) {
    host == wanted && SameOwner(owner, c.owner) && scheme != c.scheme
  }

  /** No unexpired route, and no candidate before the n-th, is of its owner and for its host
      but under another scheme. */
  ghost predicate SchemeAgrees(p: Platform, stored: seq<Route>, cs: seq<Candidate>, n: nat, now: Time)
    requires n < |cs| && AllAcceptable(p, cs)
  {
    var host := p.normalizeHost(cs[n].desiredHost).value;
    && (forall i :: 0 <= i < |stored| && IsLive(stored[i], now) ==>
          !OtherScheme(stored[i].host, stored[i].owner, stored[i].scheme, host, cs[n]))
    && (forall j :: 0 <= j < n ==>
          !OtherScheme(p.normalizeHost(cs[j].desiredHost).value, cs[j].owner, cs[j].scheme, host, cs[n]))
  }

  /** The socket of a candidate that reuses nothing is not taken by a route or by another
      such candidate before it. */
  ghost predicate TargetIsFree(p: Platform, stored: seq<Route>, cs: seq<Candidate>, k: nat, now: Time)
    requires k < |cs|
  {
    cs[k].reuse.Some? ||
    (&& (forall i :: 0 <= i < |stored| && IsLive(stored[i], now) ==>
           p.targetKey(if stored[i].state == Pending then stored[i].pendingTarget else stored[i].target)
           != p.targetKey(cs[k].target))
     && (forall j :: 0 <= j < k && cs[j].reuse.None? ==> p.targetKey(cs[j].target) != p.targetKey(cs[k].target)))
  }

  function NewOnes(cs: seq<Candidate>): set<nat> {
    set k: nat | k < |cs| && cs[k].reuse.None?
  }

  /** What acceptable candidates must meet. */
  ghost predicate BatchFits(p: Platform, stored: seq<Route>, cs: seq<Candidate>, now: Time, ids: seq<Text>)
    requires AllAcceptable(p, cs)
  {
    && OneWslOwner(stored, cs, now) && |NewOnes(cs)| <= |ids|
    && forall k :: 0 <= k < |cs| ==>
         ReusesOwn(stored, cs[k], now) && SchemeAgrees(p, stored, cs, k, now) && TargetIsFree(p, stored, cs, k, now)
  }

  /** What a reservation must meet to be accepted. */
  ghost predicate Accepts(p: Platform, stored: seq<Route>, request: Request, now: Time, ids: seq<Text>) {
    && !Blank(request.runId) && request.ttl > 0 && request.routes != []
    && AllAcceptable(p, request.routes) && BatchFits(p, stored, request.routes, now, ids)
  }

  // ------------------------------------------------------------ step by step

  lemma {:induction false} ValidExactly(p: Platform, cs: seq<Candidate>, n: nat)
    requires n <= |cs|
    ensures ValidateFirst(p, cs, n).Ok? <==> forall k :: 0 <= k < n ==> IsAcceptable(p, cs[k])
    ensures ValidateFirst(p, cs, n).Ok? ==>
              forall k :: 0 <= k < n ==>
                ValidateFirst(p, cs, n).value[k] == cs[k].(desiredHost := p.normalizeHost(cs[k].desiredHost).value)
  {
    if n > 0 {
      ValidExactly(p, cs, n - 1);
    }
  }

  lemma SameOwnerIsMatch(r: Owner, c: Owner)
    ensures OwnerMatches(r, c) <==> SameOwner(r, c)
  {
  }

  lemma LiveIsUnexpired(r: Route, now: Time)
    ensures Expired(r, now) <==> !IsLive(r, now)
  {
  }

  lemma {:induction false} ClashExactly(routes: seq<Route>, c: Candidate)
    ensures FirstClash(routes, c).None? <==>
              forall i :: 0 <= i < |routes| ==>
                !OtherScheme(routes[i].host, routes[i].owner, routes[i].scheme, c.desiredHost, c)
  {
    if routes != [] {
      ClashExactly(routes[..|routes| - 1], c);
      SameOwnerIsMatch(routes[|routes| - 1].owner, c.owner);
    }
  }

  lemma {:induction false} ClashAt(routes: seq<Route>, c: Candidate) returns (i: nat)
    requires FirstClash(routes, c).Some?
    ensures i < |routes| && OtherScheme(routes[i].host, routes[i].owner, routes[i].scheme, c.desiredHost, c)
    ensures FirstClash(routes, c) == Some(SchemeConflict(routes[i].host, routes[i].scheme, c.scheme))
  {
    if FirstClash(routes[..|routes| - 1], c).Some? {
      i := ClashAt(routes[..|routes| - 1], c);
    } else {
      i := |routes| - 1;
      SameOwnerIsMatch(routes[i].owner, c.owner);
    }
  }

  /** The route that a candidate names, as staging finds it. */
  predicate FindsOwn(unexpired: seq<Route>, c: Candidate) {
    c.reuse.None? ||
    (FindRef(unexpired, c.reuse.value).Some?
     && var r := unexpired[FindRef(unexpired, c.reuse.value).value];
        r.state != Pending && SameOwner(r.owner, c.owner) && r.scheme == c.scheme)
  }

  lemma FindsSame(unexpired: seq<Route>, routes: seq<Route>, ref: RouteRef)
    requires KeptButShares(unexpired, routes)
    ensures FindRef(routes, ref) == FindRef(unexpired, ref)
  {
    assert forall i :: 0 <= i < |routes| ==> ButShare(unexpired[i], routes[i]);
    var a, b := FindRef(unexpired, ref), FindRef(routes, ref);
    assert a.Some? ==> routes[a.value].Ref() == ref;
    assert b.Some? ==> unexpired[b.value].Ref() == ref;
  }

  lemma ReuseExactly(unexpired: seq<Route>, routes: seq<Route>, c: Candidate, share: LANShare?)
    requires KeptButShares(unexpired, routes)
    ensures ReuseOne(routes, c, share).Ok? <==> FindsOwn(unexpired, c)
  {
    if c.reuse.Some? {
      FindsSame(unexpired, routes, c.reuse.value);
      var found := FindRef(unexpired, c.reuse.value);
      if found.Some? {
        assert ButShare(unexpired[found.value], routes[found.value]);
        SameOwnerIsMatch(unexpired[found.value].owner, c.owner);
      }
    }
  }

  /** No unexpired route and no candidate before it clashes with the n-th candidate. */
  ghost predicate NoClash(unexpired: seq<Route>, cs: seq<Candidate>, n: nat)
    requires n < |cs|
  {
    && (forall i :: 0 <= i < |unexpired| ==>
          !OtherScheme(unexpired[i].host, unexpired[i].owner, unexpired[i].scheme, cs[n].desiredHost, cs[n]))
    && (forall j :: 0 <= j < n ==>
          !OtherScheme(cs[j].desiredHost, cs[j].owner, cs[j].scheme, cs[n].desiredHost, cs[n]))
  }

  lemma NoClashExactly(unexpired: seq<Route>, cs: seq<Candidate>, n: nat)
    requires n < |cs|
    ensures FirstClash(unexpired + Logicals(cs[..n]), cs[n]).None? <==> NoClash(unexpired, cs, n)
  {
    var all := unexpired + Logicals(cs[..n]);
    ClashExactly(all, cs[n]);
    assert forall i :: 0 <= i < |unexpired| ==> all[i] == unexpired[i];
    assert forall j :: 0 <= j < n ==> all[|unexpired| + j] == Logical(cs[j]);
    if FirstClash(all, cs[n]).None? {
      forall j | 0 <= j < n ensures !OtherScheme(cs[j].desiredHost, cs[j].owner, cs[j].scheme, cs[n].desiredHost,
                                                 cs[n]) {
        assert all[|unexpired| + j].host == cs[j].desiredHost;
      }
    }
  }

  ghost predicate CanStage(unexpired: seq<Route>, cs: seq<Candidate>, n: nat)
    requires n < |cs|
  {
    FindsOwn(unexpired, cs[n]) && NoClash(unexpired, cs, n)
  }

  lemma StagesNext(unexpired: seq<Route>, cs: seq<Candidate>, shares: seq<LANShare?>, n: nat)
    requires n < |cs| == |shares|
    ensures Stage(unexpired, cs, shares, n + 1).Ok? <==>
            Stage(unexpired, cs, shares, n).Ok? && CanStage(unexpired, cs, n)
  {
    if Stage(unexpired, cs, shares, n).Ok? {
      var routes := Stage(unexpired, cs, shares, n).value.routes;
      StageKeeps(unexpired, cs, shares, n);
      ReuseExactly(unexpired, routes, cs[n], shares[n]);
      NoClashExactly(unexpired, cs, n);
    }
  }

  lemma {:induction false} StageExactly(unexpired: seq<Route>, cs: seq<Candidate>, shares: seq<LANShare?>, n: nat)
    requires n <= |cs| == |shares|
    ensures Stage(unexpired, cs, shares, n).Ok? <==> forall k :: 0 <= k < n ==> CanStage(unexpired, cs, k)
  {
    if n > 0 {
      StageExactly(unexpired, cs, shares, n - 1);
      StagesNext(unexpired, cs, shares, n - 1);
    }
  }

  /** The n-th candidate, if it is new, has a target that is neither taken nor asked for
      before. */
  ghost predicate ClaimsFree(p: Platform, taken: set<Text>, cs: seq<Candidate>, n: nat)
    requires n < |cs|
  {
    cs[n].reuse.Some? ||
    (&& p.targetKey(cs[n].target).Some? && p.targetKey(cs[n].target).value !in taken
     && forall j :: 0 <= j < n && cs[j].reuse.None? ==> p.targetKey(cs[j].target) != p.targetKey(cs[n].target))
  }

  ghost function ClaimedKeys(p: Platform, cs: seq<Candidate>, n: nat): set<Text>
    requires n <= |cs|
  {
    set k: nat | k < n && cs[k].reuse.None? && p.targetKey(cs[k].target).Some? :: p.targetKey(cs[k].target).value
  }

  lemma OneMoreKey(p: Platform, cs: seq<Candidate>, n: nat)
    requires n < |cs|
    ensures ClaimedKeys(p, cs, n + 1) == ClaimedKeys(p, cs, n)
              + if cs[n].reuse.None? && p.targetKey(cs[n].target).Some? then {p.targetKey(cs[n].target).value} else {}
  {
  }

  lemma KeyIsTaken(p: Platform, taken: set<Text>, cs: seq<Candidate>, n: nat)
    requires n < |cs| && cs[n].reuse.None? && p.targetKey(cs[n].target).Some?
    ensures p.targetKey(cs[n].target).value in taken + ClaimedKeys(p, cs, n) <==> !ClaimsFree(p, taken, cs, n)
  {
    var key := p.targetKey(cs[n].target).value;
    if key in ClaimedKeys(p, cs, n) {
      var j: nat :| j < n && cs[j].reuse.None? && p.targetKey(cs[j].target) == Some(key);
    }
    forall j | 0 <= j < n && cs[j].reuse.None? && p.targetKey(cs[j].target) == Some(key)
      ensures key in ClaimedKeys(p, cs, n)
    {
    }
  }

  lemma ClaimsNext(p: Platform, taken: set<Text>, cs: seq<Candidate>, reused: seq<Option<Route>>, n: nat)
    requires n < |cs| == |reused| && (reused[n].Some? <==> cs[n].reuse.Some?)
    requires ClaimTargets(p, taken, cs, reused, n) == Ok(taken + ClaimedKeys(p, cs, n))
    ensures ClaimTargets(p, taken, cs, reused, n + 1).Ok? <==> ClaimsFree(p, taken, cs, n)
    ensures ClaimTargets(p, taken, cs, reused, n + 1).Ok? ==>
              ClaimTargets(p, taken, cs, reused, n + 1).value == taken + ClaimedKeys(p, cs, n + 1)
  {
    OneMoreKey(p, cs, n);
    if cs[n].reuse.None? && p.targetKey(cs[n].target).Some? {
      KeyIsTaken(p, taken, cs, n);
    }
  }

  lemma {:induction false} TargetsExactly(p: Platform, taken: set<Text>, cs: seq<Candidate>, reused: seq<Option<Route>>,
                                          n: nat)
    requires n <= |cs| == |reused| && forall k :: 0 <= k < |cs| ==> (reused[k].Some? <==> cs[k].reuse.Some?)
    ensures ClaimTargets(p, taken, cs, reused, n).Ok? <==> forall k :: 0 <= k < n ==> ClaimsFree(p, taken, cs, k)
    ensures ClaimTargets(p, taken, cs, reused, n).Ok? ==>
              ClaimTargets(p, taken, cs, reused, n).value == taken + ClaimedKeys(p, cs, n)
  {
    if n > 0 {
      TargetsExactly(p, taken, cs, reused, n - 1);
      if ClaimTargets(p, taken, cs, reused, n - 1).Ok? {
        ClaimsNext(p, taken, cs, reused, n - 1);
      }
    } else {
      assert ClaimedKeys(p, cs, 0) == {};
    }
  }

  function NewCount(cs: seq<Candidate>, n: nat): nat
    requires n <= |cs|
  {
    if n == 0 then 0 else NewCount(cs, n - 1) + if cs[n - 1].reuse.None? then 1 else 0
  }

  lemma {:induction false} NewCountIsSize(cs: seq<Candidate>, n: nat)
    requires n <= |cs|
    ensures NewCount(cs, n) == |NewOnes(cs[..n])|
    ensures n > 0 ==> NewCount(cs, n - 1) <= NewCount(cs, n)
  {
    if n == 0 {
      assert NewOnes(cs[..n]) == {};
    } else {
      NewCountIsSize(cs, n - 1);
      assert NewOnes(cs[..n]) == NewOnes(cs[..n - 1]) + if cs[n - 1].reuse.None? then {n - 1} else {};
    }
  }

  lemma {:induction false} AllocateExactly(p: Platform, staged: seq<Route>, cs: seq<Candidate>,
                                           reused: seq<Option<Route>>, runId: Text, expiry: Time, ids: seq<Text>,
                                           shares: seq<LANShare?>, n: nat)
    requires n <= |cs| == |reused| == |shares|
    requires forall k :: 0 <= k < |cs| ==> (reused[k].Some? <==> cs[k].reuse.Some?)
    ensures Allocate(p, staged, cs, reused, runId, expiry, ids, shares, n).Ok? <==> NewCount(cs, n) <= |ids|
    ensures Allocate(p, staged, cs, reused, runId, expiry, ids, shares, n).Ok? ==>
              Allocate(p, staged, cs, reused, runId, expiry, ids, shares, n).value.used == NewCount(cs, n)
  {
    if n > 0 {
      AllocateExactly(p, staged, cs, reused, runId, expiry, ids, shares, n - 1);
    }
  }

  // ------------------------------------------------------------ the batch as a whole

  lemma KeptKeys(p: Platform, unexpired: seq<Route>, staged: seq<Route>)
    requires KeptButShares(unexpired, staged)
    ensures TargetKeys(p, staged) == TargetKeys(p, unexpired)
  {
    forall r | r in staged ensures exists x :: x in unexpired && Key(p, x) == Key(p, r) {
      var i :| 0 <= i < |staged| && staged[i] == r;
      assert ButShare(unexpired[i], staged[i]) && unexpired[i] in unexpired;
    }
    forall x | x in unexpired ensures exists r :: r in staged && Key(p, r) == Key(p, x) {
      var i :| 0 <= i < |unexpired| && unexpired[i] == x;
      assert ButShare(unexpired[i], staged[i]) && staged[i] in staged;
    }
  }

  ghost predicate CanBuild(p: Platform, unexpired: seq<Route>, cs: seq<Candidate>, ids: seq<Text>) {
    && OwnerConflict(unexpired, cs).None?
    && (forall k :: 0 <= k < |cs| ==> CanStage(unexpired, cs, k))
    && (forall k :: 0 <= k < |cs| ==> ClaimsFree(p, TargetKeys(p, unexpired), cs, k))
    && NewCount(cs, |cs|) <= |ids|
  }

  lemma BuildExactly(p: Platform, unexpired: seq<Route>, cs: seq<Candidate>, runId: Text, expiry: Time, ids: seq<Text>,
                     shares: seq<LANShare?>)
    requires |cs| == |shares|
    ensures Build(p, unexpired, cs, runId, expiry, ids, shares).Ok? <==> CanBuild(p, unexpired, cs, ids)
  {
    StageExactly(unexpired, cs, shares, |cs|);
    var staged := Stage(unexpired, cs, shares, |cs|);
    if staged.Ok? {
      var routes, reused := staged.value.routes, staged.value.reused;
      StageKeeps(unexpired, cs, shares, |cs|);
      forall k | 0 <= k < |cs| ensures reused[k].Some? <==> cs[k].reuse.Some? {
        assert ReusesNamed(cs[k], reused[k]);
      }
      KeptKeys(p, unexpired, routes);
      TargetsExactly(p, TargetKeys(p, routes), cs, reused, |cs|);
      AllocateExactly(p, routes, cs, reused, runId, expiry, ids, shares, |cs|);
    }
  }

  // ------------------------------------------------------------ in terms of the stored routes

  /** The routes that staging looks at are the live ones of the store. */
  ghost predicate AreLive(unexpired: seq<Route>, stored: seq<Route>, now: Time) {
    && (forall i :: 0 <= i < |unexpired| ==> unexpired[i] in stored && IsLive(unexpired[i], now))
    && (forall i :: 0 <= i < |stored| && IsLive(stored[i], now) ==> stored[i] in unexpired)
  }

  lemma UnexpiredAreLive(stored: seq<Route>, now: Time)
    ensures AreLive(RemoveExpired(SortRoutes(stored), now), stored, now)
  {
    var unexpired := RemoveExpired(SortRoutes(stored), now);
    forall i | 0 <= i < |unexpired| ensures unexpired[i] in stored && IsLive(unexpired[i], now) {
      UnexpiredMembers(SortRoutes(stored), now, unexpired[i]);
      SortedMembers(stored, unexpired[i]);
      LiveIsUnexpired(unexpired[i], now);
    }
    forall i | 0 <= i < |stored| && IsLive(stored[i], now) ensures stored[i] in unexpired {
      UnexpiredMembers(SortRoutes(stored), now, stored[i]);
      SortedMembers(stored, stored[i]);
      LiveIsUnexpired(stored[i], now);
    }
  }

  /** The candidates with their hosts normalized. */
  ghost predicate AreNormalized(p: Platform, raw: seq<Candidate>, cs: seq<Candidate>) {
    && |cs| == |raw| && AllAcceptable(p, raw)
    && forall k :: 0 <= k < |raw| ==> cs[k] == raw[k].(desiredHost := p.normalizeHost(raw[k].desiredHost).value)
  }

  lemma ReusesExactly(unexpired: seq<Route>, stored: seq<Route>, c: Candidate, now: Time)
    requires AreLive(unexpired, stored, now) && Consistent(None, unexpired)
    ensures FindsOwn(unexpired, c) <==> ReusesOwn(stored, c, now)
  {
    if c.reuse.Some? {
      var found := FindRef(unexpired, c.reuse.value);
      if found.Some? {
        var r := unexpired[found.value];
        var i :| 0 <= i < |stored| && stored[i] == r;
      }
      if ReusesOwn(stored, c, now) {
        var i :| 0 <= i < |stored| && stored[i].Ref() == c.reuse.value && IsLive(stored[i], now)
                 && stored[i].state != Pending && SameOwner(stored[i].owner, c.owner) && stored[i].scheme == c.scheme;
        var j :| 0 <= j < |unexpired| && unexpired[j] == stored[i];
        FoundIsThat(unexpired, j);
      }
    }
  }

  lemma FoundIsThat(routes: seq<Route>, j: nat)
    requires Consistent(None, routes) && j < |routes|
    ensures FindRef(routes, routes[j].Ref()) == Some(j)
  {
    assert Sound(None, routes[j]);
    forall i | 0 <= i < |routes| && i != j ensures routes[i].Ref() != routes[j].Ref() {
      assert Compatible(None, routes[if i < j then i else j], routes[if i < j then j else i]);
    }
  }

  lemma SchemesExactly(p: Platform, unexpired: seq<Route>, stored: seq<Route>, raw: seq<Candidate>, cs: seq<Candidate>,
                       n: nat, now: Time)
    requires AreLive(unexpired, stored, now) && AreNormalized(p, raw, cs) && n < |raw|
    ensures NoClash(unexpired, cs, n) <==> SchemeAgrees(p, stored, raw, n, now)
  {
    forall i | 0 <= i < |unexpired| ensures exists k :: 0 <= k < |stored| && stored[k] == unexpired[i] {
      assert unexpired[i] in stored;
    }
    forall i | 0 <= i < |stored| && IsLive(stored[i], now)
      ensures exists k :: 0 <= k < |unexpired| && unexpired[k] == stored[i]
    {
      assert stored[i] in unexpired;
    }
  }

  lemma TargetExactly(p: Platform, unexpired: seq<Route>, stored: seq<Route>, raw: seq<Candidate>, cs: seq<Candidate>,
                      n: nat, now: Time)
    requires AreLive(unexpired, stored, now) && AreNormalized(p, raw, cs) && n < |raw|
    ensures ClaimsFree(p, TargetKeys(p, unexpired), cs, n) <==> TargetIsFree(p, stored, raw, n, now)
  {
    assert IsAcceptable(p, raw[n]);
    var key := p.targetKey(raw[n].target).value;
    if key in TargetKeys(p, unexpired) {
      var r :| r in unexpired && Key(p, r) == Some(key);
      var i :| 0 <= i < |stored| && stored[i] == r;
    }
    forall i | 0 <= i < |stored| && IsLive(stored[i], now) && Key(p, stored[i]) == Some(key)
      ensures key in TargetKeys(p, unexpired)
    {
      assert stored[i] in unexpired;
    }
  }

  lemma OwnersExactly(p: Platform, unexpired: seq<Route>, stored: seq<Route>, raw: seq<Candidate>, cs: seq<Candidate>,
                      now: Time)
    requires AreLive(unexpired, stored, now) && AreNormalized(p, raw, cs)
    ensures OwnerConflict(unexpired, cs).None? <==> OneWslOwner(stored, raw, now)
  {
    OwnerConflictIsExact(unexpired, cs);
    assert forall k :: 0 <= k < |cs| ==> cs[k].owner == raw[k].owner && (cs[k].owner.IsWsl() <==> ByWsl(raw[k].owner));
    forall owner: Text
      ensures SoleOwnerIs(cs, owner) <==> BatchOwnedBy(raw, owner)
      ensures OwnedOnlyBy(unexpired, owner) <==> StoreOwnedBy(stored, owner, now)
    {
      OwnedExactly(unexpired, stored, owner, now);
    }
  }

  lemma OwnedExactly(unexpired: seq<Route>, stored: seq<Route>, owner: Text, now: Time)
    requires AreLive(unexpired, stored, now)
    ensures OwnedOnlyBy(unexpired, owner) <==> StoreOwnedBy(stored, owner, now)
  {
    forall i | 0 <= i < |unexpired| ensures exists k :: 0 <= k < |stored| && stored[k] == unexpired[i] {
      assert unexpired[i] in stored;
    }
    forall i | 0 <= i < |stored| && IsLive(stored[i], now)
      ensures exists k :: 0 <= k < |unexpired| && unexpired[k] == stored[i]
    {
      assert stored[i] in unexpired;
    }
  }

  lemma SameNewOnes(p: Platform, raw: seq<Candidate>, cs: seq<Candidate>)
    requires AreNormalized(p, raw, cs)
    ensures NewCount(cs, |cs|) == |NewOnes(raw)|
  {
    NewCountIsSize(cs, |cs|);
    assert cs[..|cs|] == cs && NewOnes(cs) == NewOnes(raw);
  }

  lemma CanBuildExactly(p: Platform, unexpired: seq<Route>, stored: seq<Route>, raw: seq<Candidate>, cs: seq<Candidate>,
                        ids: seq<Text>, now: Time)
    requires AreLive(unexpired, stored, now) && AreNormalized(p, raw, cs) && Consistent(None, unexpired)
    ensures CanBuild(p, unexpired, cs, ids) <==>
              BatchFits(p, stored, raw, now, ids)
  {
    OwnersExactly(p, unexpired, stored, raw, cs, now);
    SameNewOnes(p, raw, cs);
    forall k | 0 <= k < |raw|
      ensures CanStage(unexpired, cs, k) <==> ReusesOwn(stored, raw[k], now) && SchemeAgrees(p, stored, raw, k, now)
      ensures ClaimsFree(p, TargetKeys(p, unexpired), cs, k) <==> TargetIsFree(p, stored, raw, k, now)
    {
      ReusesExactly(unexpired, stored, cs[k], now);
      SchemesExactly(p, unexpired, stored, raw, cs, k, now);
      TargetExactly(p, unexpired, stored, raw, cs, k, now);
    }
  }

  lemma BuiltIfMet(p: Platform, stored: seq<Route>, raw: seq<Candidate>, cs: seq<Candidate>, runId: Text, expiry: Time,
                   now: Time, ids: seq<Text>, shares: seq<LANShare?>)
    requires Consistent(None, stored) && |shares| == |raw| && AreNormalized(p, raw, cs)
    ensures Build(p, RemoveExpired(SortRoutes(stored), now), cs, runId, expiry, ids, shares).Ok? <==>
              BatchFits(p, stored, raw, now, ids)
  {
    var unexpired := RemoveExpired(SortRoutes(stored), now);
    UnexpiredAreLive(stored, now);
    UnexpiredSortedConsistent(None, stored, now);
    BuildExactly(p, unexpired, cs, runId, expiry, ids, shares);
    CanBuildExactly(p, unexpired, stored, raw, cs, ids, now);
  }

  lemma AcceptableIsBuilt(p: Platform, stored: seq<Route>, request: Request, now: Time, ids: seq<Text>,
                          shares: seq<LANShare?>)
    requires Consistent(None, stored) && |shares| == |request.routes| && AllAcceptable(p, request.routes)
    ensures Reserve(p, stored, request, now, ids, shares).Ok? <==> Accepts(p, stored, request, now, ids)
  {
    ValidExactly(p, request.routes, |request.routes|);
    var cs := ValidateAll(p, request.routes).value;
    ValidAreNormalized(p, request.routes, cs);
    CallbackExactly(p, stored, request, now, ids, shares, RemoveExpired(SortRoutes(stored), now), cs);
    BuiltIfMet(p, stored, request.routes, cs, request.runId, now + request.ttl, now, ids, shares);
  }

  lemma UnacceptableIsRefused(p: Platform, stored: seq<Route>, request: Request, now: Time, ids: seq<Text>,
                              shares: seq<LANShare?>)
    requires |shares| == |request.routes| && !AllAcceptable(p, request.routes)
    ensures Reserve(p, stored, request, now, ids, shares).Err?
  {
    ValidExactly(p, request.routes, |request.routes|);
  }

  /** A reservation is accepted just when the request meets all of this. */
  lemma ReserveAcceptsExactly(p: Platform, stored: seq<Route>, request: Request, now: Time, ids: seq<Text>,
                              shares: seq<LANShare?>)
    requires Consistent(None, stored) && |shares| == |request.routes|
    ensures Reserve(p, stored, request, now, ids, shares).Ok? <==> Accepts(p, stored, request, now, ids)
  {
    if AllAcceptable(p, request.routes) {
      AcceptableIsBuilt(p, stored, request, now, ids, shares);
    } else {
      UnacceptableIsRefused(p, stored, request, now, ids, shares);
    }
  }

  lemma CallbackExactly(p: Platform, stored: seq<Route>, request: Request, now: Time, ids: seq<Text>,
                        shares: seq<LANShare?>, unexpired: seq<Route>, cs: seq<Candidate>)
    requires |shares| == |request.routes| && ValidateAll(p, request.routes) == Ok(cs)
    requires unexpired == RemoveExpired(SortRoutes(stored), now)
    ensures Reserve(p, stored, request, now, ids, shares).Ok? <==>
              && !Blank(request.runId) && request.ttl > 0 && request.routes != []
              && Build(p, unexpired, cs, request.runId, now + request.ttl, ids, shares).Ok?
  {
  }

  // ------------------------------------------------------------ conflicts of schemes

  /** A live route of that owner has the host under the scheme. */
  ghost predicate LiveUnder(stored: seq<Route>, now: Time, host: string, scheme: Scheme, c: Candidate) {
    exists i ::
      && 0 <= i < |stored| && IsLive(stored[i], now) && stored[i].host == host && stored[i].scheme == scheme
      && SameOwner(stored[i].owner, c.owner)
  }

  /** A candidate before the n-th, of its owner, has the host under the scheme. */
  ghost predicate AskedUnder(p: Platform, raw: seq<Candidate>, n: nat, host: string, scheme: Scheme)
    requires n < |raw| && AllAcceptable(p, raw)
  {
    exists j ::
      && 0 <= j < n && p.normalizeHost(raw[j].desiredHost).value == host && raw[j].scheme == scheme
      && SameOwner(raw[j].owner, raw[n].owner)
  }

  /** One of them does, under another scheme than the n-th candidate's. */
  ghost predicate HasSchemeConflict(p: Platform, stored: seq<Route>, raw: seq<Candidate>, n: nat, now: Time,
                                    host: string, existing: Scheme)
    requires n < |raw| && AllAcceptable(p, raw)
  {
    && existing != raw[n].scheme
    && (LiveUnder(stored, now, host, existing, raw[n]) || AskedUnder(p, raw, n, host, existing))
  }

  /** The candidate at which staging fails. */
  lemma {:induction false} FailsAt(unexpired: seq<Route>, cs: seq<Candidate>, shares: seq<LANShare?>, n: nat)
    returns (k: nat)
    requires n <= |cs| == |shares| && Stage(unexpired, cs, shares, n).Err?
    ensures k < n && Stage(unexpired, cs, shares, k).Ok?
    ensures Stage(unexpired, cs, shares, k + 1) == Stage(unexpired, cs, shares, n)
    decreases n
  {
    if Stage(unexpired, cs, shares, n - 1).Err? {
      k := FailsAt(unexpired, cs, shares, n - 1);
    } else {
      k := n - 1;
    }
  }

  lemma NextConflict(p: Platform, unexpired: seq<Route>, stored: seq<Route>, raw: seq<Candidate>, cs: seq<Candidate>,
                     shares: seq<LANShare?>, k: nat, now: Time, host: string, existing: Scheme, wanted: Scheme)
    requires AreLive(unexpired, stored, now) && AreNormalized(p, raw, cs) && k < |cs| == |shares|
    requires Stage(unexpired, cs, shares, k).Ok?
    requires Stage(unexpired, cs, shares, k + 1) == Err(SchemeConflict(host, existing, wanted))
    ensures wanted == raw[k].scheme && HasSchemeConflict(p, stored, raw, k, now, host, existing)
  {
    var routes, c := Stage(unexpired, cs, shares, k).value.routes, cs[k];
    StageKeeps(unexpired, cs, shares, k);
    if ReuseOne(routes, c, shares[k]).Err? {
      ReuseConflict(p, unexpired, routes, stored, raw, cs, shares[k], k, now, host, existing, wanted);
    } else {
      ClashConflict(p, unexpired, stored, raw, cs, k, now, host, existing, wanted);
    }
  }

  lemma ReuseConflict(p: Platform, unexpired: seq<Route>, routes: seq<Route>, stored: seq<Route>, raw: seq<Candidate>,
                      cs: seq<Candidate>, share: LANShare?, k: nat, now: Time, host: string, existing: Scheme,
                      wanted: Scheme)
    requires AreLive(unexpired, stored, now) && AreNormalized(p, raw, cs) && k < |cs|
             && KeptButShares(unexpired, routes)
    requires ReuseOne(routes, cs[k], share) == Err(SchemeConflict(host, existing, wanted))
    ensures wanted == raw[k].scheme && HasSchemeConflict(p, stored, raw, k, now, host, existing)
  {
    var found := FindRef(routes, cs[k].reuse.value).value;
    assert ButShare(unexpired[found], routes[found]) && unexpired[found] in stored;
    SameOwnerIsMatch(routes[found].owner, cs[k].owner);
    var i :| 0 <= i < |stored| && stored[i] == unexpired[found];
  }

  lemma ClashConflict(p: Platform, unexpired: seq<Route>, stored: seq<Route>, raw: seq<Candidate>, cs: seq<Candidate>,
                      k: nat, now: Time, host: string, existing: Scheme, wanted: Scheme)
    requires AreLive(unexpired, stored, now) && AreNormalized(p, raw, cs) && k < |cs|
    requires FirstClash(unexpired + Logicals(cs[..k]), cs[k]) == Some(SchemeConflict(host, existing, wanted))
    ensures wanted == raw[k].scheme && HasSchemeConflict(p, stored, raw, k, now, host, existing)
  {
    var all, c := unexpired + Logicals(cs[..k]), cs[k];
    var i := ClashAt(all, c);
    if i < |unexpired| {
      assert all[i] == unexpired[i];
      ClashWithRoute(p, unexpired, stored, raw, cs, k, now, i);
    } else {
      var j := i - |unexpired|;
      assert all[i] == Logical(cs[j]);
      ClashWithCandidate(p, stored, raw, cs, k, now, j);
    }
  }

  lemma ClashWithRoute(p: Platform, unexpired: seq<Route>, stored: seq<Route>, raw: seq<Candidate>, cs: seq<Candidate>,
                       k: nat, now: Time, i: nat)
    requires AreLive(unexpired, stored, now) && AreNormalized(p, raw, cs) && k < |cs| && i < |unexpired|
    requires OtherScheme(unexpired[i].host, unexpired[i].owner, unexpired[i].scheme, cs[k].desiredHost, cs[k])
    ensures HasSchemeConflict(p, stored, raw, k, now, unexpired[i].host, unexpired[i].scheme)
  {
    assert unexpired[i] in stored;
    var l :| 0 <= l < |stored| && stored[l] == unexpired[i];
  }

  lemma ClashWithCandidate(p: Platform, stored: seq<Route>, raw: seq<Candidate>, cs: seq<Candidate>, k: nat, now: Time,
                           j: nat)
    requires AreNormalized(p, raw, cs) && j < k < |cs|
    requires OtherScheme(cs[j].desiredHost, cs[j].owner, cs[j].scheme, cs[k].desiredHost, cs[k])
    ensures HasSchemeConflict(p, stored, raw, k, now, cs[j].desiredHost, cs[j].scheme)
  {
    assert raw[j].scheme == cs[j].scheme;
  }

  /** A scheme conflict is reported only when there is one. */
  lemma SchemeConflictIsReal(p: Platform, stored: seq<Route>, request: Request, now: Time, ids: seq<Text>,
                             shares: seq<LANShare?>, host: string, existing: Scheme, wanted: Scheme)
    returns (k: nat)
    requires |shares| == |request.routes|
    requires Reserve(p, stored, request, now, ids, shares) == Err(SchemeConflict(host, existing, wanted))
    ensures AllAcceptable(p, request.routes) && k < |request.routes| && wanted == request.routes[k].scheme
    ensures HasSchemeConflict(p, stored, request.routes, k, now, host, existing)
  {
    var raw, unexpired := request.routes, RemoveExpired(SortRoutes(stored), now);
    ValidErrors(p, raw, |raw|);
    UnexpiredAreLive(stored, now);
    var cs := ValidateAll(p, raw).value;
    ValidAreNormalized(p, raw, cs);
    BuildErrors(p, unexpired, cs, request.runId, now + request.ttl, ids, shares, host, existing, wanted);
    k := FailsAt(unexpired, cs, shares, |cs|);
    NextConflict(p, unexpired, stored, raw, cs, shares, k, now, host, existing, wanted);
  }

  lemma {:induction false} ValidErrors(p: Platform, cs: seq<Candidate>, n: nat)
    requires n <= |cs|
    ensures ValidateFirst(p, cs, n).Err? ==> !ValidateFirst(p, cs, n).error.SchemeConflict?
  {
    if n > 0 {
      ValidErrors(p, cs, n - 1);
    }
  }

  lemma {:induction false} TargetErrors(p: Platform, taken: set<Text>, cs: seq<Candidate>, reused: seq<Option<Route>>,
                                        n: nat)
    requires n <= |cs| == |reused|
    ensures ClaimTargets(p, taken, cs, reused, n).Err? ==> !ClaimTargets(p, taken, cs, reused, n).error.SchemeConflict?
  {
    if n > 0 {
      TargetErrors(p, taken, cs, reused, n - 1);
    }
  }

  lemma {:induction false} AllocateErrors(p: Platform, staged: seq<Route>, cs: seq<Candidate>,
                                          reused: seq<Option<Route>>, runId: Text, expiry: Time, ids: seq<Text>,
                                          shares: seq<LANShare?>, n: nat)
    requires n <= |cs| == |reused| == |shares|
    ensures var r := Allocate(p, staged, cs, reused, runId, expiry, ids, shares, n); r.Err? ==> r.error == NoIdentity
  {
    if n > 0 {
      AllocateErrors(p, staged, cs, reused, runId, expiry, ids, shares, n - 1);
    }
  }

  lemma {:induction false} OwnerErrors(cs: seq<Candidate>)
    ensures SoleOwner(cs).Err? ==> SoleOwner(cs).error.WslOwner?
  {
    if cs != [] {
      OwnerErrors(cs[..|cs| - 1]);
    }
  }

  lemma BuildErrors(p: Platform, unexpired: seq<Route>, cs: seq<Candidate>, runId: Text, expiry: Time, ids: seq<Text>,
                    shares: seq<LANShare?>, host: string, existing: Scheme, wanted: Scheme)
    requires |cs| == |shares|
    requires Build(p, unexpired, cs, runId, expiry, ids, shares) == Err(SchemeConflict(host, existing, wanted))
    ensures Stage(unexpired, cs, shares, |cs|) == Err(SchemeConflict(host, existing, wanted))
  {
    OwnerErrors(cs);
    var staged := Stage(unexpired, cs, shares, |cs|);
    if staged.Ok? {
      TargetErrors(p, TargetKeys(p, staged.value.routes), cs, staged.value.reused, |cs|);
      AllocateErrors(p, staged.value.routes, cs, staged.value.reused, runId, expiry, ids, shares, |cs|);
    }
  }

  // ------------------------------------------------------------ what is answered

  /** The answer for a candidate: the route it names, or a new pending one for it. */
  predicate IsAnswer(c: Candidate, r: Reserved, id: Text, runId: Text, expiry: Time, share: LANShare?) {
    if c.reuse.Some? then r.reused && r.route.Ref() == c.reuse.value
    else
      && !r.reused
      && r.route == Route(id, 1, runId, Pending, r.route.share, c.scheme, r.route.host, EMPTY, c.target, Some(expiry),
                          None,
                          c.owner.(ownerCwd := OwnDirectory(c.owner)))
      && (r.route.share != null ==> r.route.share == share && c.shareMode == Lan)
  }

  /** The n-th new route has the host asked for, if that is not taken and no new route
      before it has that. */
  ghost predicate KeepsHost(taken: set<string>, cs: seq<Candidate>, reserved: seq<Reserved>, n: nat)
    requires n < |cs| && n < |reserved|
  {
    (cs[n].reuse.None? && Lower(cs[n].desiredHost) !in taken
     && forall j :: 0 <= j < n && !reserved[j].reused ==> !EqualFold(reserved[j].route.host, cs[n].desiredHost))
    ==> reserved[n].route.host == cs[n].desiredHost
  }

  ghost predicate AnswerOk(taken: set<string>, cs: seq<Candidate>, reserved: seq<Reserved>, runId: Text, expiry: Time,
                           ids: seq<Text>, shares: seq<LANShare?>, k: nat)
    requires k < |cs| == |shares| && k < |reserved|
  {
    && NewCount(cs, k) + (if cs[k].reuse.None? then 1 else 0) <= |ids|
    && IsAnswer(cs[k], reserved[k], if cs[k].reuse.None? then ids[NewCount(cs, k)] else EMPTY, runId, expiry, shares[k])
    && KeepsHost(taken, cs, reserved, k)
  }

  ghost predicate AllAnswered(taken: set<string>, cs: seq<Candidate>, reserved: seq<Reserved>, runId: Text,
                              expiry: Time, ids: seq<Text>, shares: seq<LANShare?>)
    requires |cs| == |shares| == |reserved|
  {
    forall k :: 0 <= k < |cs| ==> AnswerOk(taken, cs, reserved, runId, expiry, ids, shares, k)
  }

  lemma AnswerStays(taken: set<string>, cs: seq<Candidate>, reserved: seq<Reserved>, more: seq<Reserved>, runId: Text,
                    expiry: Time, ids: seq<Text>, shares: seq<LANShare?>, k: nat)
    requires k < |cs| == |shares| && k < |reserved| <= |more| && more[..|reserved|] == reserved
    requires AnswerOk(taken, cs, reserved, runId, expiry, ids, shares, k)
    ensures AnswerOk(taken, cs, more, runId, expiry, ids, shares, k)
  {
    assert forall j :: 0 <= j < |reserved| ==> more[j] == reserved[j];
  }

  /** Every route is one of those staged or one that has been answered with. */
  ghost predicate OnlyAnswered(staged: seq<Route>, a: Allocation) {
    forall i :: 0 <= i < |a.routes| ==> a.routes[i] in staged || Reserved(a.routes[i], false) in a.reserved
  }

  lemma OnlyAnsweredGrows(staged: seq<Route>, a: Allocation, r: Route)
    requires OnlyAnswered(staged, a)
    ensures OnlyAnswered(staged, Allocation(a.routes + [r], a.reserved + [Reserved(r, false)], a.used + 1))
  {
    var b := Allocation(a.routes + [r], a.reserved + [Reserved(r, false)], a.used + 1);
    assert b.reserved[|a.reserved|] == Reserved(r, false);
    forall i | 0 <= i < |b.routes| ensures b.routes[i] in staged || Reserved(b.routes[i], false) in b.reserved {
      if i < |a.routes| {
        assert b.routes[i] == a.routes[i];
      }
    }
  }

  lemma HostIsKept(p: Platform, staged: seq<Route>, cs: seq<Candidate>, a: Allocation, n: nat)
    requires n < |cs| && |a.reserved| == n && OnlyAnswered(staged, a)
    requires Lower(cs[n].desiredHost) !in HostNames(staged)
    requires forall j :: 0 <= j < n && !a.reserved[j].reused ==> !EqualFold(a.reserved[j].route.host, cs[n].desiredHost)
    ensures Hostnames.Resolve(p.paths, HostNames(a.routes), cs[n].desiredHost, cs[n].owner.cwd.chars)
            == cs[n].desiredHost
  {
    forall i | 0 <= i < |a.routes| ensures !EqualFold(a.routes[i].host, cs[n].desiredHost) {
      if a.routes[i] in staged {
        assert Lower(a.routes[i].host) in HostNames(staged);
      } else {
        var j :| 0 <= j < n && a.reserved[j] == Reserved(a.routes[i], false);
      }
    }
    assert Lower(cs[n].desiredHost) !in HostNames(a.routes);
    Hostnames.FreeIsDesired(p.paths, HostNames(a.routes), cs[n].desiredHost, cs[n].owner.cwd.chars);
  }

  /** What is answered to the candidates placed so far. */
  ghost predicate AnsweredTo(staged: seq<Route>, cs: seq<Candidate>, a: Allocation, runId: Text, expiry: Time,
                             ids: seq<Text>, shares: seq<LANShare?>, n: nat)
    requires n <= |cs| == |shares|
  {
    && |a.reserved| == n && a.used == NewCount(cs, n) <= |ids| && OnlyAnswered(staged, a)
    && forall k :: 0 <= k < n ==> AnswerOk(HostNames(staged), cs, a.reserved, runId, expiry, ids, shares, k)
  }

  lemma PlacedIsAnswer(p: Platform, staged: seq<Route>, cs: seq<Candidate>, a: Allocation, reused: Option<Route>,
                       runId: Text, expiry: Time, ids: seq<Text>, shares: seq<LANShare?>, n: nat)
    requires n < |cs| == |shares| && AnsweredTo(staged, cs, a, runId, expiry, ids, shares, n)
    requires ReusesNamed(cs[n], reused) && Place(p, a, cs[n], reused, runId, expiry, ids, shares[n]).Ok?
    ensures var b := Place(p, a, cs[n], reused, runId, expiry, ids, shares[n]).value;
            && b.reserved[..n] == a.reserved && b.used == NewCount(cs, n + 1) && OnlyAnswered(staged, b)
            && AnswerOk(HostNames(staged), cs, b.reserved, runId, expiry, ids, shares, n)
  {
    var b := Place(p, a, cs[n], reused, runId, expiry, ids, shares[n]).value;
    assert forall j :: 0 <= j < n ==> b.reserved[j] == a.reserved[j];
    if cs[n].reuse.None? {
      var r := b.routes[|a.routes|];
      OnlyAnsweredGrows(staged, a, r);
      if Lower(cs[n].desiredHost) !in HostNames(staged)
         && (forall j :: 0 <= j < n && !a.reserved[j].reused ==>
             !EqualFold(a.reserved[j].route.host, cs[n].desiredHost)) {
        HostIsKept(p, staged, cs, a, n);
      }
    }
  }

  lemma {:induction false} AllocateAnswers(p: Platform, staged: seq<Route>, cs: seq<Candidate>,
                                           reused: seq<Option<Route>>, runId: Text, expiry: Time, ids: seq<Text>,
                                           shares: seq<LANShare?>, n: nat)
    requires n <= |cs| == |reused| == |shares| && forall k :: 0 <= k < |cs| ==> ReusesNamed(cs[k], reused[k])
    requires Allocate(p, staged, cs, reused, runId, expiry, ids, shares, n).Ok?
    ensures AnsweredTo(staged, cs, Allocate(p, staged, cs, reused, runId, expiry, ids, shares, n).value, runId, expiry,
                       ids,
                       shares, n)
  {
    if n > 0 {
      AllocateAnswers(p, staged, cs, reused, runId, expiry, ids, shares, n - 1);
      var a := Allocate(p, staged, cs, reused, runId, expiry, ids, shares, n - 1).value;
      var b := Allocate(p, staged, cs, reused, runId, expiry, ids, shares, n).value;
      PlacedIsAnswer(p, staged, cs, a, reused[n - 1], runId, expiry, ids, shares, n - 1);
      forall k | 0 <= k < n - 1 ensures AnswerOk(HostNames(staged), cs, b.reserved, runId, expiry, ids, shares, k) {
        AnswerStays(HostNames(staged), cs, a.reserved, b.reserved, runId, expiry, ids, shares, k);
      }
    }
  }

  ghost function LiveHosts(stored: seq<Route>, now: Time): set<string> {
    set i | 0 <= i < |stored| && IsLive(stored[i], now) :: Lower(stored[i].host)
  }

  lemma StagedHosts(unexpired: seq<Route>, staged: seq<Route>, stored: seq<Route>, now: Time)
    requires AreLive(unexpired, stored, now) && KeptButShares(unexpired, staged)
    ensures HostNames(staged) == LiveHosts(stored, now)
  {
    forall name | name in HostNames(staged) ensures name in LiveHosts(stored, now) {
      var r :| r in staged && Lower(r.host) == name;
      var i :| 0 <= i < |staged| && staged[i] == r;
      assert ButShare(unexpired[i], staged[i]) && unexpired[i] in stored;
      var k :| 0 <= k < |stored| && stored[k] == unexpired[i];
    }
    forall name | name in LiveHosts(stored, now) ensures name in HostNames(staged) {
      var k :| 0 <= k < |stored| && IsLive(stored[k], now) && Lower(stored[k].host) == name;
      assert stored[k] in unexpired;
      var i :| 0 <= i < |unexpired| && unexpired[i] == stored[k];
      assert ButShare(unexpired[i], staged[i]) && staged[i] in staged;
    }
  }

  /** An accepted reservation is answered, candidate by candidate, with the route to reuse
      or a new pending route: with an ID of its own, for the target, scheme and owner asked
      for, expiring when the time given is over, and under the host asked for if no live
      route and no route made before it has that. */
  lemma ReserveAnswersExactly(p: Platform, stored: seq<Route>, request: Request, now: Time, ids: seq<Text>,
                              shares: seq<LANShare?>, after: seq<Route>, reserved: seq<Reserved>)
    returns (cs: seq<Candidate>)
    requires |shares| == |request.routes| && Reserve(p, stored, request, now, ids, shares) == Ok((after, reserved))
    ensures AreNormalized(p, request.routes, cs) && |reserved| == |cs| == |shares|
    ensures AllAnswered(LiveHosts(stored, now), cs, reserved, request.runId, now + request.ttl, ids, shares)
  {
    var expiry, unexpired := now + request.ttl, RemoveExpired(SortRoutes(stored), now);
    var made;
    cs, made := NormalizedAndBuilt(p, stored, request, now, ids, shares, after, reserved, expiry);
    UnexpiredAreLive(stored, now);
    BuiltAnswers(p, unexpired, stored, cs, request.runId, expiry, ids, shares, made, now);
  }

  lemma NormalizedAndBuilt(p: Platform, stored: seq<Route>, request: Request, now: Time, ids: seq<Text>,
                           shares: seq<LANShare?>, after: seq<Route>, reserved: seq<Reserved>, expiry: Time)
    returns (cs: seq<Candidate>, made: Allocation)
    requires |shares| == |request.routes| && Reserve(p, stored, request, now, ids, shares) == Ok((after, reserved))
    requires expiry == now + request.ttl
    ensures AreNormalized(p, request.routes, cs) && |cs| == |shares| && reserved == made.reserved
    ensures Build(p, RemoveExpired(SortRoutes(stored), now), cs, request.runId, expiry, ids, shares) == Ok(made)
  {
    cs, made := ReserveBuilds(p, stored, request, now, ids, shares, after, reserved, expiry);
    ValidAreNormalized(p, request.routes, cs);
  }

  lemma ValidAreNormalized(p: Platform, raw: seq<Candidate>, cs: seq<Candidate>)
    requires ValidateAll(p, raw) == Ok(cs)
    ensures AreNormalized(p, raw, cs)
  {
    ValidExactly(p, raw, |raw|);
  }

  lemma BuiltAnswers(p: Platform, unexpired: seq<Route>, stored: seq<Route>, cs: seq<Candidate>, runId: Text,
                     expiry: Time, ids: seq<Text>, shares: seq<LANShare?>, made: Allocation, now: Time)
    requires AreLive(unexpired, stored, now) && |cs| == |shares|
    requires Build(p, unexpired, cs, runId, expiry, ids, shares) == Ok(made)
    ensures |made.reserved| == |cs|
            && AllAnswered(LiveHosts(stored, now), cs, made.reserved, runId, expiry, ids, shares)
  {
    var staged := Stage(unexpired, cs, shares, |cs|).value;
    StageKeeps(unexpired, cs, shares, |cs|);
    StagedHosts(unexpired, staged.routes, stored, now);
    AllocateAnswers(p, staged.routes, cs, staged.reused, runId, expiry, ids, shares, |cs|);
  }
}
