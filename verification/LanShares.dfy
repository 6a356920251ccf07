/** LAN share updates (internal/router/lan.go). Copies of a route hold the same share
    object, so an update that fails must not have written to it. */
module LanShares {
  import opened Common
  import opened Routes
  import opened RouteFacts
  import opened MemoryStores

  /** Everything that can change in a share. */
  datatype ShareValue = ShareValue(
    state: ShareState, hostname: string, interfaceIndex: int, interfaceName: string,
    address: string, prefix: string, lastConnectedAt: Option<Time>, suspendedReason: string)

  ghost function Value(s: LANShare): ShareValue
    reads s
  {
    ShareValue(s.state, s.hostname, s.interfaceIndex, s.interfaceName, s.address, s.prefix, s.lastConnectedAt,
               s.suspendedReason)
  }

  function Shares(routes: seq<Route>): set<LANShare> {
    set r | r in routes && r.share != null :: r.share
  }

  // ------------------------------------------------------------ transitions

  predicate ValidTransition(current: ShareState, next: ShareState) {
    match current
    case Requested => next == Live || next == Suspended || next == Removing
    case Live => next == Suspended || next == Removing
    case Suspended => next == Live || next == Removing
    case Removing => false
  }

  predicate MayMove(current: ShareState, next: ShareState) {
    next == current || ValidTransition(current, next)
  }

  /** The states a share goes through: a share being removed stays so, and none is
      requested again. */
  lemma {:induction false} HistoryOfAShare(states: seq<ShareState>, i: nat, j: nat)
    requires forall k :: 0 < k < |states| ==> MayMove(states[k - 1], states[k])
    requires i <= j < |states|
    ensures states[i] == Removing ==> states[j] == Removing
    ensures states[i] != Requested ==> states[j] != Requested
    decreases j
  {
    if i < j {
      HistoryOfAShare(states, i, j - 1);
    }
  }

  // ------------------------------------------------------------ what each update does to a share

  function SetState(v: ShareValue, next: ShareState): Result<ShareValue, StoreError> {
    if MayMove(v.state, next) then Ok(v.(state := next)) else Err(BadTransition)
  }

  datatype Activation = Activation(hostname: string, interfaceIndex: int, interfaceName: string, address: string,
                                   prefix: string)

  function Activated(v: ShareValue, a: Activation): Result<ShareValue, StoreError> {
    if !MayMove(v.state, Live) then Err(BadTransition)
    else Ok(v.(state := Live, hostname := a.hostname, interfaceIndex := a.interfaceIndex,
               interfaceName := a.interfaceName,
               address := a.address, prefix := a.prefix, suspendedReason := ""))
  }

  /** None: nothing to note, as the share is not live or was noted less than a minute ago. */
  function Connected(v: ShareValue, now: Time): Option<ShareValue> {
    if v.state != Live || (v.lastConnectedAt.Some? && now - v.lastConnectedAt.value < MINUTE) then None
    else Some(v.(lastConnectedAt := Some(now)))
  }

  function Suspension(v: ShareValue, reason: string): Result<ShareValue, StoreError> {
    if !MayMove(v.state, Suspended) then Err(BadTransition)
    else Ok(v.(state := Suspended, suspendedReason := reason))
  }

  /** A share may go live unless it is being removed, be suspended once it is no longer
      so, and be removed at any time; none goes back to being requested. */
  lemma MovesExactly(current: ShareState, next: ShareState)
    ensures MayMove(current, next) <==>
              || next == current
              || (current != Removing && (next == Live || next == Suspended || next == Removing))
  {
  }

  /** What each update sets, and what it leaves as it was. */
  lemma UpdatesExactly(v: ShareValue, next: ShareState, a: Activation, now: Time, reason: string)
    ensures SetState(v, next) == if next == v.state || (v.state != Removing && next != Requested)
                                 then Ok(v.(state := next)) else Err(BadTransition)
    ensures Activated(v, a) ==
              if v.state == Removing then Err(BadTransition)
              else Ok(ShareValue(Live, a.hostname, a.interfaceIndex, a.interfaceName, a.address, a.prefix,
                                 v.lastConnectedAt, ""))
    ensures Suspension(v, reason) ==
              if v.state == Removing then Err(BadTransition)
              else Ok(ShareValue(Suspended, v.hostname, v.interfaceIndex, v.interfaceName, v.address, v.prefix,
                                 v.lastConnectedAt, reason))
    ensures Connected(v, now).Some? <==>
              v.state == Live && (v.lastConnectedAt.None? || now >= v.lastConnectedAt.value + 60 * SECOND)
    ensures Connected(v, now).Some? ==> Connected(v, now).value == v.(lastConnectedAt := Some(now))
  {
  }

  // ------------------------------------------------------------ what an update may change

  /** Nothing that can be observed has changed. */
  twostate predicate NothingChanged(store: MemoryStore, was: seq<Route>)
    reads store, Shares(was)
  {
    store.routes == was && forall s :: s in Shares(was) ==> Value(s) == old(Value(s))
  }

  /** The routes are the given ones, and of the shares only one may have changed. */
  twostate predicate OnlyShareChanged(store: MemoryStore, was: seq<Route>, new now: seq<Route>, new share: LANShare?)
    reads store, Shares(was)
  {
    && store.routes == SortRoutes(now)
    && forall s :: s in Shares(was) ==>
         (s != share ==> Value(s) == old(Value(s))) && MayMove(old(s.state), s.state)
  }

  /** An update of one share either takes it to the given value, or fails and changes
      nothing. */
  twostate predicate Updates(store: MemoryStore, was: seq<Route>, new share: LANShare,
                             outcome: Result<ShareValue, StoreError>, new r: Option<StoreError>)
    reads store, share, Shares(was)
  {
    if outcome.Err? then r == Some(outcome.error) && NothingChanged(store, was)
    else r.None? && share in Shares(was) && OnlyShareChanged(store, was, was, share) && Value(share) == outcome.value
  }

  /** The route with that identity, as the store's callbacks find it. */
  function Found(routes: seq<Route>, ref: RouteRef): Option<Route> {
    var index := FindRef(SortRoutes(routes), ref);
    if index.None? then None else Some(SortRoutes(routes)[index.value])
  }

  /** Look up the route and make sure that its share is one of the store's. */
  method Look(routes: seq<Route>, ref: RouteRef) returns (work: seq<Route>, index: Option<nat>)
    ensures work == SortRoutes(routes) && index == FindRef(work, ref)
    ensures Found(routes, ref) == if index.Some? then Some(work[index.value]) else None
    ensures index.Some? && work[index.value].share != null ==> work[index.value].share in Shares(routes)
    ensures SortRoutes(work) == work
  {
    work := SortRoutes(routes);
    index := RouteRefIndex(work, ref);
    if index.Some? {
      SortedMembers(routes, work[index.value]);
    }
    SortIsIdempotent(routes);
  }

  // ------------------------------------------------------------ the updates

  method SetLanShareState(store: MemoryStore, ref: RouteRef, next: ShareState) returns (r: Option<StoreError>)
    modifies store, Shares(store.routes)
    ensures var route := Found(old(store.routes), ref);
            if route.None? then r == Some(RefMismatch) && NothingChanged(store, old(store.routes))
            else if route.value.share == null then r == Some(NoShare) && NothingChanged(store, old(store.routes))
            else Updates(store, old(store.routes), route.value.share, SetState(old(Value(route.value.share)), next), r)
  {
    var work, index := Look(store.routes, ref);
    if index.None? {
      return Some(RefMismatch);
    }
    var share := work[index.value].share;
    if share == null {
      return Some(NoShare);
    }
    if share.state != next {
      if !ValidTransition(share.state, next) {
        return Some(BadTransition);
      }
      share.state := next;
    }
    store.routes := SortRoutes(work);
    return None;
  }

  method FillIn(share: LANShare, a: Activation)
    requires MayMove(share.state, Live)
    modifies share
    ensures Activated(old(Value(share)), a) == Ok(Value(share))
  {
    share.state := Live;
    share.hostname := a.hostname;
    share.interfaceIndex, share.interfaceName := a.interfaceIndex, a.interfaceName;
    share.address, share.prefix := a.address, a.prefix;
    share.suspendedReason := "";
  }

  /** activation: None if a field of it was found invalid. */
  method ActivateLanShare(store: MemoryStore, ref: RouteRef, activation: Option<Activation>)
    returns (r: Option<StoreError>)
    modifies store, Shares(store.routes)
    ensures var route := Found(old(store.routes), ref);
            if activation.None? then r == Some(NotShareable) && NothingChanged(store, old(store.routes))
            else if route.None? then r == Some(RefMismatch) && NothingChanged(store, old(store.routes))
            else if route.value.share == null then r == Some(NoShare) && NothingChanged(store, old(store.routes))
            else Updates(store, old(store.routes), route.value.share,
                         Activated(old(Value(route.value.share)), activation.value), r)
  {
    if activation.None? {
      return Some(NotShareable);
    }
    var work, index := Look(store.routes, ref);
    if index.None? {
      return Some(RefMismatch);
    }
    var share := work[index.value].share;
    if share == null {
      return Some(NoShare);
    }
    if share.state != Live && !ValidTransition(share.state, Live) {
      return Some(BadTransition);
    }
    FillIn(share, activation.value);
    store.routes := SortRoutes(work);
    return None;
  }

  /** A connection that need not be noted is no error, but changes nothing either. */
  method MarkLanShareConnected(store: MemoryStore, ref: RouteRef, now: Time) returns (r: Option<StoreError>)
    modifies store, Shares(store.routes)
    ensures var route := Found(old(store.routes), ref);
            if route.None? then r == Some(RefMismatch) && NothingChanged(store, old(store.routes))
            else if route.value.share == null || Connected(old(Value(route.value.share)), now).None?
            then r.None? && NothingChanged(store, old(store.routes))
            else Updates(store, old(store.routes), route.value.share,
                         Ok(Connected(old(Value(route.value.share)), now).value), r)
  {
    var work, index := Look(store.routes, ref);
    if index.None? {
      return Some(RefMismatch);
    }
    var share := work[index.value].share;
    if share == null || share.state != Live {
      return None;
    }
    if share.lastConnectedAt.Some? && now - share.lastConnectedAt.value < MINUTE {
      return None;
    }
    share.lastConnectedAt := Some(now);
    store.routes := SortRoutes(work);
    return None;
  }

  method SuspendLanShare(store: MemoryStore, ref: RouteRef, reason: string) returns (r: Option<StoreError>)
    modifies store, Shares(store.routes)
    ensures var route := Found(old(store.routes), ref);
            if route.None? then r == Some(RefMismatch) && NothingChanged(store, old(store.routes))
            else if route.value.share == null then r.None?
                && OnlyShareChanged(store, old(store.routes), old(store.routes), null)
            else Updates(store, old(store.routes), route.value.share,
                         Suspension(old(Value(route.value.share)), reason), r)
  {
    var work, index := Look(store.routes, ref);
    if index.None? {
      return Some(RefMismatch);
    }
    var share := work[index.value].share;
    if share == null {
      store.routes := SortRoutes(work);
      return None;
    }
    if share.state != Suspended && !ValidTransition(share.state, Suspended) {
      return Some(BadTransition);
    }
    share.state := Suspended;
    share.suspendedReason := reason;
    store.routes := SortRoutes(work);
    return None;
  }

  /** No share object changes: the route stops or starts to refer to one. */
  method RemoveLanShare(store: MemoryStore, ref: RouteRef) returns (r: Option<StoreError>)
    modifies store
    ensures r == if Found(old(store.routes), ref).None? then Some(RefMismatch) else None
    ensures r.Some? ==> NothingChanged(store, old(store.routes))
    ensures r.None? ==> OnlyShareChanged(store, old(store.routes), WithShare(old(store.routes), ref, null), null)
  {
    var work, index := Look(store.routes, ref);
    if index.None? {
      return Some(RefMismatch);
    }
    work := work[index.value := work[index.value].(share := null)];
    store.routes := SortRoutes(work);
    return None;
  }

  method RequestLanShare(store: MemoryStore, ref: RouteRef, now: Time) returns (r: Result<Route, StoreError>)
    modifies store
    ensures r.Err? ==> NothingChanged(store, old(store.routes))
    ensures r.Err? <==> Found(old(store.routes), ref).None? || Found(old(store.routes), ref).value.IsPending()
                        || (Found(old(store.routes), ref).value.share == null
                            && !Shareable(Found(old(store.routes), ref).value.host))
    ensures r.Ok? ==> r.value.share != null
                      && OnlyShareChanged(store, old(store.routes), WithShare(old(store.routes), ref, r.value.share),
                                          null)
    ensures r.Ok? ==> if Found(old(store.routes), ref).value.share != null
            then r.value == Found(old(store.routes), ref).value
                      else fresh(r.value.share) && JustRequested(r.value.share, now)
                           && r.value.share.requestedHostname == ShareName(r.value.host)
  {
    var work, index := Look(store.routes, ref);
    if index.None? {
      return Err(RefMismatch);
    }
    var route := work[index.value];
    if route.IsPending() {
      return Err(NotActive);
    }
    if route.share == null {
      var share := RequestedLanShare(Lan, route.host, now);
      if share == null {
        return Err(NotShareable);
      }
      route := route.(share := share);
    }
    work := work[index.value := route];
    store.routes := SortRoutes(work);
    return Ok(route);
  }
}
