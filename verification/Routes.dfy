/**
 The route store's data and what each reservation operation does to it
 (internal/router/reservations.go and the Route type of router.go). MemoryStore.dfy
 carries the operations out; RouteRuns.dfy proves what every run of them keeps.
 */
module Routes {
  import opened Common
  import Hostnames

  datatype ShareState = Requested | Live | Suspended | Removing

  /** The LAN share of a route: one object, however many copies of the route there are. */
  class LANShare {
    var state: ShareState
    const requestedHostname: string
    const createdAt: Time
    var hostname: string
    var interfaceIndex: int
    var interfaceName: string
    var address: string
    var prefix: string
    var lastConnectedAt: Option<Time>
    var suspendedReason: string

    constructor (requestedHostname: string, now: Time)
      ensures state == Requested && this.requestedHostname == requestedHostname && createdAt == now
    {
      state := Requested;
      this.requestedHostname, createdAt := requestedHostname, now;
      hostname, interfaceIndex, interfaceName, address, prefix := "", 0, "", "", "";
      lastConnectedAt, suspendedReason := None, "";
    }
  }

  /** Unset is the state of routes written by older versions; it counts as active. */
  datatype RouteState = Unset | Pending | Active

  datatype RouteRef = RouteRef(id: Text, generation: nat)

  datatype Scheme = Http | Https | OtherScheme
  datatype ShareMode = NotShared | Lan | OtherMode
  datatype OwnerEnv = Wsl | OtherEnv

  /** Whose route it is. */
  datatype Owner = Owner(cwd: Text, projectRoot: Text, projectName: Text, ownerCwd: Text, env: OwnerEnv, instance: Text)
  {
    /** An instance of WSL is the owner. */
    predicate IsWsl() {
      env == Wsl && instance != EMPTY
    }

    function Dir(): Text {
      if ownerCwd == EMPTY then cwd else ownerCwd
    }
  }

  datatype Route = Route(
    id: Text, generation: nat, runId: Text, state: RouteState, share: LANShare?,
    scheme: Scheme, host: string, target: Text, pendingTarget: Text,
    reservationExpiresAt: Option<Time>, leaseExpiresAt: Option<Time>, owner: Owner)
  {
    function Ref(): RouteRef {
      RouteRef(id, generation)
    }

    predicate IsPending() {
      state == Pending
    }

    function EffectiveTarget(): Text {
      if IsPending() then pendingTarget else target
    }
  }

  /** What the store needs to know of its surroundings: how a host is normalized, which
      socket a target URL names (None: not a valid local target), and file paths. */
  datatype Platform = Platform(normalizeHost: string -> Option<string>, targetKey: Text -> Option<Text>,
                               paths: Hostnames.Paths)

  datatype Candidate = Candidate(
    desiredHost: string, scheme: Scheme, target: Text, owner: Owner, shareMode: ShareMode, reuse: Option<RouteRef>)

  datatype Request = Request(runId: Text, ttl: Time, routes: seq<Candidate>)

  datatype Reserved = Reserved(route: Route, reused: bool)

  datatype StoreError =
    | NoRunID | BadTTL | NoRoutes | BadHost | NoCWD | BadTarget | BadScheme | BadShareMode
    | WslOwner(instance: Text) | RefMismatch | SchemeConflict(host: string, existing: Scheme, requested: Scheme)
    | TargetTaken(target: Text) | NoIdentity
    | NotActive | NotShareable | NoShare | BadTransition

  // ------------------------------------------------------------ order

  predicate LexLeq(a: string, b: string) {
    a == "" || (b != "" && (a[0] < b[0] || (a[0] == b[0] && LexLeq(a[1..], b[1..]))))
  }

  /** sortRoutes orders by lower-case host, then by host. */
  predicate HostLeq(a: string, b: string) {
    if Lower(a) == Lower(b) then LexLeq(a, b) else LexLeq(Lower(a), Lower(b))
  }

  predicate Precedes(r: Route, s: Route) {
    HostLeq(r.host, s.host)
  }

  function Insert(r: Route, sorted: seq<Route>): seq<Route> {
    if sorted == [] || Precedes(r, sorted[0]) then [r] + sorted
    else [sorted[0]] + Insert(r, sorted[1..])
  }

  function InsertionSort(routes: seq<Route>): seq<Route> {
    if routes == [] then [] else Insert(routes[0], InsertionSort(routes[1..]))
  }

  /** The routes in order of their hosts. (Not the recursive function itself, so that proofs
      about stores do not unfold it; RemoveExpired is apart from Unexpired for the same reason.) */
  function SortRoutes(routes: seq<Route>): seq<Route> {
    InsertionSort(routes)
  }

  // ------------------------------------------------------------ expiry and lookup

  /** RouteReservationExpired. */
  predicate ReservationExpired(r: Route, now: Time) {
    r.IsPending() && r.reservationExpiresAt.Some? && r.reservationExpiresAt.value <= now
  }

  /** RouteLeaseExpired. */
  predicate LeaseExpired(r: Route, now: Time) {
    !r.IsPending() && r.leaseExpiresAt.Some? && r.leaseExpiresAt.value <= now
  }

  predicate Expired(r: Route, now: Time) {
    ReservationExpired(r, now) || LeaseExpired(r, now)
  }

  function Unexpired(routes: seq<Route>, now: Time): seq<Route> {
    if routes == [] then []
    else
      var front := Unexpired(routes[..|routes| - 1], now);
      if Expired(routes[|routes| - 1], now) then front else front + [routes[|routes| - 1]]
  }

  /** The routes, in order, that have not expired. */
  function RemoveExpired(routes: seq<Route>, now: Time): seq<Route> {
    Unexpired(routes, now)
  }

  /** routeRefIndex: the first route with that identity. */
  function FindRef(routes: seq<Route>, ref: RouteRef): (r: Option<nat>)
    ensures r.Some? ==> r.value < |routes| && routes[r.value].Ref() == ref && ref.id != EMPTY && ref.generation != 0
    ensures r.Some? ==> forall i :: 0 <= i < r.value ==> routes[i].Ref() != ref
    ensures r.None? ==> ref.id == EMPTY || ref.generation == 0 || forall i :: 0 <= i < |routes| ==>
            routes[i].Ref() != ref
  {
    if ref.id == EMPTY || ref.generation == 0 then None else FindFrom(routes, ref, 0)
  }

  function FindFrom(routes: seq<Route>, ref: RouteRef, i: nat): (r: Option<nat>)
    requires i <= |routes|
    ensures r.Some? ==> i <= r.value < |routes| && routes[r.value].Ref() == ref
    ensures r.Some? ==> forall k :: i <= k < r.value ==> routes[k].Ref() != ref
    ensures r.None? ==> forall k :: i <= k < |routes| ==> routes[k].Ref() != ref
    decreases |routes| - i
  {
    if i == |routes| then None
    else if routes[i].Ref() == ref then Some(i)
    else FindFrom(routes, ref, i + 1)
  }

  /** The store's routes with the share of the route of that identity replaced. */
  function WithShare(routes: seq<Route>, ref: RouteRef, share: LANShare?): seq<Route> {
    var sorted := SortRoutes(routes);
    var index := FindRef(sorted, ref);
    if index.None? then sorted else sorted[index.value := sorted[index.value].(share := share)]
  }

  // ------------------------------------------------------------ activate, release, renew, delete

  /** The route is one that a batch operation of the run may touch now. */
  predicate Eligible(r: Route, runId: Text, pendingOnly: bool, now: Option<Time>) {
    && r.runId == runId
    && (pendingOnly ==> r.IsPending())
    && (now.Some? ==> !ReservationExpired(r, now.value))
  }

  predicate Counted(r: Route, runId: Text, pendingOnly: bool) {
    r.runId == runId && (pendingOnly ==> r.IsPending())
  }

  function CountRun(routes: seq<Route>, runId: Text, pendingOnly: bool): nat {
    if routes == [] then 0
    else CountRun(routes[..|routes| - 1], runId, pendingOnly)
         + (if Counted(routes[|routes| - 1], runId, pendingOnly) then 1 else 0)
  }

  /** completeRunIndexes succeeds: the refs name different eligible routes, and as
      many of them as the run has. */
  predicate CompleteRun(routes: seq<Route>, runId: Text, refs: seq<RouteRef>, pendingOnly: bool, now: Option<Time>) {
    && runId != EMPTY && refs != []
    && (forall i :: 0 <= i < |refs| ==>
          FindRef(routes, refs[i]).Some? && Eligible(routes[FindRef(routes, refs[i]).value], runId, pendingOnly, now))
    && (forall i, j :: 0 <= i < j < |refs| ==> refs[i] != refs[j])
    && CountRun(routes, runId, pendingOnly) == |refs|
  }

  function ActivatedRoute(r: Route, expiry: Time): Route {
    r.(state := Active, target := r.pendingTarget, pendingTarget := EMPTY, reservationExpiresAt := None,
       leaseExpiresAt := Some(expiry))
  }

  /** The routes that refs point at: the first with each identity. */
  ghost predicate PointedAt(routes: seq<Route>, refs: seq<RouteRef>, i: nat) {
    exists k :: 0 <= k < |refs| && FindRef(routes, refs[k]) == Some(i)
  }

  ghost function MapPointed(routes: seq<Route>, refs: seq<RouteRef>, f: Route -> Route): seq<Route> {
    seq(|routes|, i requires 0 <= i < |routes| => if PointedAt(routes, refs, i) then f(routes[i]) else routes[i])
  }

  ghost function ActivateCallback(routes: seq<Route>, runId: Text, refs: seq<RouteRef>, now: Time, ttl: Time)
    : Result<seq<Route>, StoreError>
  {
    if !CompleteRun(routes, runId, refs, true, Some(now)) then Err(RefMismatch)
    else Ok(MapPointed(routes, refs, (r: Route) => ActivatedRoute(r, now + ttl)))
  }

  ghost function Pointed(routes: seq<Route>, refs: seq<RouteRef>): set<nat> {
    set i: nat | i < |routes| && PointedAt(routes, refs, i)
  }

  /** The first n elements but for those at the positions gone. */
  function Drop<T>(s: seq<T>, gone: set<nat>, n: nat): seq<T>
    requires n <= |s|
  {
    if n == 0 then []
    else Drop(s, gone, n - 1) + if n - 1 in gone then [] else [s[n - 1]]
  }

  ghost function ReleaseCallback(routes: seq<Route>, runId: Text, refs: seq<RouteRef>): Result<seq<Route>, StoreError> {
    if !CompleteRun(routes, runId, refs, false, None) then Err(RefMismatch)
    else Ok(Drop(routes, Pointed(routes, refs), |routes|))
  }

  function RenewedRoute(r: Route, expiry: Time): Route {
    if r.IsPending() then r.(reservationExpiresAt := Some(expiry)) else r.(leaseExpiresAt := Some(expiry))
  }

  predicate Renewable(routes: seq<Route>, runId: Text, refs: seq<RouteRef>, now: Time) {
    && !Blank(runId) && refs != []
    && (forall i :: 0 <= i < |refs| ==>
          FindRef(routes, refs[i]).Some? && Eligible(routes[FindRef(routes, refs[i]).value], runId, false, Some(now)))
    && (forall i, j :: 0 <= i < j < |refs| ==> refs[i] != refs[j])
  }

  ghost function RenewCallback(routes: seq<Route>, runId: Text, refs: seq<RouteRef>, now: Time, ttl: Time)
    : Result<seq<Route>, StoreError>
  {
    if !Renewable(routes, runId, refs, now) then Err(RefMismatch)
    else Ok(MapPointed(routes, refs, (r: Route) => RenewedRoute(r, now + ttl)))
  }

  function DeleteCallback(routes: seq<Route>, ref: RouteRef): Result<seq<Route>, StoreError> {
    var index := FindRef(routes, ref);
    if index.None? then Err(RefMismatch) else Ok(routes[..index.value] + routes[index.value + 1..])
  }

  // ------------------------------------------------------------ reserve

  function Validate(p: Platform, c: Candidate): Result<Candidate, StoreError> {
    if p.normalizeHost(c.desiredHost).None? then Err(BadHost)
    else if Blank(c.owner.cwd) then Err(NoCWD)
    else if p.targetKey(c.target).None? then Err(BadTarget)
    else if c.scheme == OtherScheme then Err(BadScheme)
    else if c.shareMode == OtherMode then Err(BadShareMode)
    else Ok(c.(desiredHost := p.normalizeHost(c.desiredHost).value))
  }

  /** The candidates with their hosts normalized, unless one of them is invalid. */
  function ValidateAll(p: Platform, cs: seq<Candidate>): (r: Result<seq<Candidate>, StoreError>)
    ensures r.Ok? ==> |r.value| == |cs|
  {
    ValidateFirst(p, cs, |cs|)
  }

  function ValidateFirst(p: Platform, cs: seq<Candidate>, n: nat): (r: Result<seq<Candidate>, StoreError>)
    requires n <= |cs|
    ensures r.Ok? ==> |r.value| == n
  {
    if n == 0 then Ok([])
    else
      var front := ValidateFirst(p, cs, n - 1);
      if front.Err? then front
      else
        var last := Validate(p, cs[n - 1]);
        if last.Err? then Err(last.error) else Ok(front.value + [last.value])
  }

  /** The one WSL instance among the candidates (EMPTY if there is none). */
  function SoleOwner(cs: seq<Candidate>): Result<Text, StoreError> {
    if cs == [] then Ok(EMPTY)
    else
      var front := SoleOwner(cs[..|cs| - 1]);
      var c := cs[|cs| - 1];
      if front.Err? || !c.owner.IsWsl() then front
      else if front.value != EMPTY && front.value != c.owner.instance then Err(WslOwner(front.value))
      else Ok(c.owner.instance)
  }

  /** The first route owned by another WSL instance. */
  function ForeignOwner(routes: seq<Route>, owner: Text): Option<Text> {
    if routes == [] then None
    else
      var front := ForeignOwner(routes[..|routes| - 1], owner);
      var r := routes[|routes| - 1];
      if front.Some? then front
      else if r.owner.IsWsl() && r.owner.instance != owner then Some(r.owner.instance)
      else None
  }

  function OwnerConflict(routes: seq<Route>, cs: seq<Candidate>): Option<StoreError> {
    var owner := SoleOwner(cs);
    if owner.Err? then Some(owner.error)
    else if owner.value == EMPTY then None
    else
      var foreign := ForeignOwner(routes, owner.value);
      if foreign.Some? then Some(WslOwner(foreign.value)) else None
  }

  /** reservationOwnerMatches. */
  predicate OwnerMatches(r: Owner, c: Owner) {
    && r.Dir() != EMPTY && r.Dir() == c.Dir()
    && (c.projectRoot != EMPTY ==> r.projectRoot == c.projectRoot)
    && (c.projectName != EMPTY ==> r.projectName == c.projectName)
  }

  predicate SchemeClash(r: Route, c: Candidate) {
    r.host == c.desiredHost && OwnerMatches(r.owner, c.owner) && r.scheme != c.scheme
  }

  /** The first route of the same owner and host under another scheme. */
  function FirstClash(routes: seq<Route>, c: Candidate): Option<StoreError> {
    if routes == [] then None
    else
      var front := FirstClash(routes[..|routes| - 1], c);
      var r := routes[|routes| - 1];
      if front.Some? then front
      else if SchemeClash(r, c) then Some(SchemeConflict(r.host, r.scheme, c.scheme))
      else None
  }

  /** requestedLANShare makes a share only of a name under .localhost. */
  predicate Shareable(host: string) {
    HasSuffix(Lower(host), Hostnames.LOCALHOST) && Lower(host) != Hostnames.LOCALHOST
  }

  /** The share object to use, if this host is to be shared. */
  function ShareFor(mode: ShareMode, host: string, share: LANShare?): LANShare? {
    if mode == Lan && Shareable(host) then share else null
  }

  function ShareName(host: string): string {
    TrimSuffix(Lower(host), Hostnames.LOCALHOST) + ".local."
  }

  /** The routes after n candidates have been checked for reuse, and what each reuses. */
  datatype Staged = Staged(routes: seq<Route>, reused: seq<Option<Route>>)

  function Logical(c: Candidate): Route {
    Route(EMPTY, 0, EMPTY, Unset, null, c.scheme, c.desiredHost, EMPTY, EMPTY, None, None, c.owner)
  }

  function Logicals(cs: seq<Candidate>): seq<Route> {
    seq(|cs|, i requires 0 <= i < |cs| => Logical(cs[i]))
  }

  function ReuseOne(routes: seq<Route>, c: Candidate, share: LANShare?)
    : Result<(seq<Route>, Option<Route>), StoreError>
  {
    if c.reuse.None? then Ok((routes, None))
    else
      var index := FindRef(routes, c.reuse.value);
      if index.None? || routes[index.value].IsPending() || !OwnerMatches(routes[index.value].owner, c.owner)
          then Err(RefMismatch)
      else
        var existing := routes[index.value];
        if existing.scheme != c.scheme then Err(SchemeConflict(existing.host, existing.scheme, c.scheme))
        else
          var kept := if c.shareMode == Lan && existing.share == null
                      then existing.(share := ShareFor(c.shareMode, existing.host, share)) else existing;
          Ok((routes[index.value := kept], Some(kept)))
  }

  function Stage(unexpired: seq<Route>, cs: seq<Candidate>, shares: seq<LANShare?>, n: nat)
    : (r: Result<Staged, StoreError>)
    requires n <= |cs| && n <= |shares|
    ensures r.Ok? ==> |r.value.routes| == |unexpired| && |r.value.reused| == n
  {
    if n == 0 then Ok(Staged(unexpired, []))
    else
      var before := Stage(unexpired, cs, shares, n - 1);
      if before.Err? then before
      else
        var c := cs[n - 1];
        var one := ReuseOne(before.value.routes, c, shares[n - 1]);
        if one.Err? then Err(one.error)
        else
          var clash := FirstClash(unexpired + Logicals(cs[..n - 1]), c);
          if clash.Some? then Err(clash.value)
          else Ok(Staged(one.value.0, before.value.reused + [one.value.1]))
  }

  function HostNames(routes: seq<Route>): set<string> {
    set r | r in routes :: Lower(r.host)
  }

  function Key(p: Platform, r: Route): Option<Text> {
    p.targetKey(r.EffectiveTarget())
  }

  function TargetKeys(p: Platform, routes: seq<Route>): set<Text> {
    set r | r in routes && Key(p, r).Some? :: Key(p, r).value
  }

  /** The targets taken after n candidates, unless one of them was taken already. */
  function ClaimTargets(p: Platform, taken: set<Text>, cs: seq<Candidate>, reused: seq<Option<Route>>, n: nat)
    : Result<set<Text>, StoreError>
    requires n <= |cs| == |reused|
  {
    if n == 0 then Ok(taken)
    else
      var before := ClaimTargets(p, taken, cs, reused, n - 1);
      if before.Err? || reused[n - 1].Some? then before
      else
        var key := p.targetKey(cs[n - 1].target);
        if key.None? then Err(BadTarget)
        else if key.value in before.value then Err(TargetTaken(cs[n - 1].target))
        else Ok(before.value + {key.value})
  }

  function NewRoute(c: Candidate, host: string, id: Text, runId: Text, expiry: Time, share: LANShare?): Route {
    Route(id, 1, runId, Pending, ShareFor(c.shareMode, host, share), c.scheme, host, EMPTY, c.target,
          Some(expiry), None, c.owner.(ownerCwd := c.owner.Dir()))
  }

  /** Routes and results after n candidates; ids is the supply of fresh IDs, of which
      each new route takes the next. */
  datatype Allocation = Allocation(routes: seq<Route>, reserved: seq<Reserved>, used: nat)

  function Place(p: Platform, before: Allocation, c: Candidate, reused: Option<Route>, runId: Text, expiry: Time,
                 ids: seq<Text>, share: LANShare?): (r: Result<Allocation, StoreError>)
    requires before.used <= |ids|
    ensures r.Ok? ==> |r.value.reserved| == |before.reserved| + 1 && r.value.used <= |ids|
  {
    if reused.Some? then Ok(before.(reserved := before.reserved + [Reserved(reused.value, true)]))
    else if before.used == |ids| then Err(NoIdentity)
    else
      var host := Hostnames.Resolve(p.paths, HostNames(before.routes), c.desiredHost, c.owner.cwd.chars);
      var route := NewRoute(c, host, ids[before.used], runId, expiry, share);
      Ok(Allocation(before.routes + [route], before.reserved + [Reserved(route, false)], before.used + 1))
  }

  function Allocate(p: Platform, staged: seq<Route>, cs: seq<Candidate>, reused: seq<Option<Route>>,
                    runId: Text, expiry: Time, ids: seq<Text>, shares: seq<LANShare?>, n: nat)
    : (r: Result<Allocation, StoreError>)
    requires n <= |cs| == |reused| == |shares|
    ensures r.Ok? ==> |r.value.reserved| == n && r.value.used <= |ids|
  {
    if n == 0 then Ok(Allocation(staged, [], 0))
    else
      var before := Allocate(p, staged, cs, reused, runId, expiry, ids, shares, n - 1);
      if before.Err? then before else Place(p, before.value, cs[n - 1], reused[n - 1], runId, expiry, ids,
                                            shares[n - 1])
  }

  /** The checks and reuse of a batch, once the candidates are valid. */
  function Prepare(p: Platform, unexpired: seq<Route>, cs: seq<Candidate>, shares: seq<LANShare?>)
    : (r: Result<Staged, StoreError>)
    requires |cs| == |shares|
    ensures r.Ok? ==> |r.value.routes| == |unexpired| && |r.value.reused| == |cs|
  {
    var conflict := OwnerConflict(unexpired, cs);
    if conflict.Some? then Err(conflict.value)
    else
      var staged := Stage(unexpired, cs, shares, |cs|);
      if staged.Err? then staged
      else
        var targets := ClaimTargets(p, TargetKeys(p, staged.value.routes), cs, staged.value.reused, |cs|);
        if targets.Err? then Err(targets.error) else staged
  }

  /** The routes and results of a batch of valid candidates. */
  function Build(p: Platform, unexpired: seq<Route>, cs: seq<Candidate>, runId: Text, expiry: Time,
                 ids: seq<Text>, shares: seq<LANShare?>): Result<Allocation, StoreError>
    requires |cs| == |shares|
  {
    var staged := Prepare(p, unexpired, cs, shares);
    if staged.Err? then Err(staged.error)
    else Allocate(p, staged.value.routes, cs, staged.value.reused, runId, expiry, ids, shares, |cs|)
  }

  function ReserveCallback(p: Platform, stored: seq<Route>, request: Request, now: Time,
                           ids: seq<Text>, shares: seq<LANShare?>)
    : Result<Allocation, StoreError>
    requires |shares| == |request.routes|
  {
    var valid := ValidateAll(p, request.routes);
    if valid.Err? then Err(valid.error)
    else
      Build(p, RemoveExpired(stored, now), valid.value, request.runId, now + request.ttl, ids, shares)
  }

  // ------------------------------------------------------------ store operations

  /** MemoryStore.Update: the callback sees a sorted copy, and its result is stored
      sorted. (Some callbacks sort their result too, which changes nothing.) */
  function Committed(r: Result<seq<Route>, StoreError>): Result<seq<Route>, StoreError> {
    if r.Ok? then Ok(SortRoutes(r.value)) else r
  }

  function Reserve(p: Platform, stored: seq<Route>, request: Request, now: Time, ids: seq<Text>, shares: seq<LANShare?>)
    : Result<(seq<Route>, seq<Reserved>), StoreError>
    requires |shares| == |request.routes|
  {
    if Blank(request.runId) then Err(NoRunID)
    else if request.ttl <= 0 then Err(BadTTL)
    else if request.routes == [] then Err(NoRoutes)
    else
      var r := ReserveCallback(p, SortRoutes(stored), request, now, ids, shares);
      if r.Err? then Err(r.error) else Ok((SortRoutes(r.value.routes), r.value.reserved))
  }

  ghost function Activate(stored: seq<Route>, runId: Text, refs: seq<RouteRef>, now: Time, ttl: Time)
    : Result<seq<Route>, StoreError>
  {
    if ttl <= 0 then Err(BadTTL) else Committed(ActivateCallback(SortRoutes(stored), runId, refs, now, ttl))
  }

  ghost function Release(stored: seq<Route>, runId: Text, refs: seq<RouteRef>): Result<seq<Route>, StoreError> {
    Committed(ReleaseCallback(SortRoutes(stored), runId, refs))
  }

  ghost function Renew(stored: seq<Route>, runId: Text, refs: seq<RouteRef>, now: Time, ttl: Time)
    : Result<seq<Route>, StoreError>
  {
    if ttl <= 0 then Err(BadTTL) else Committed(RenewCallback(SortRoutes(stored), runId, refs, now, ttl))
  }

  function Delete(stored: seq<Route>, ref: RouteRef): Result<seq<Route>, StoreError> {
    Committed(DeleteCallback(SortRoutes(stored), ref))
  }
}
