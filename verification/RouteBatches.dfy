/** Activation, release and renewal act on exactly the routes they are meant for. */
module RouteBatches {
  import opened Common
  import opened Routes
  import opened RouteFacts

  // ------------------------------------------------------------ which batches are accepted

  ghost predicate HasRef(routes: seq<Route>, ref: RouteRef) {
    exists i :: 0 <= i < |routes| && routes[i].Ref() == ref
  }

  /** refs lists, without repetition, identities of stored routes, and of a stored
      route's just when it is one the batch is for. */
  ghost predicate ListsExactly(stored: seq<Route>, refs: seq<RouteRef>, runId: Text, pendingOnly: bool) {
    && NoDup(refs)
    && (forall k :: 0 <= k < |refs| ==> HasRef(stored, refs[k]))
    && (forall i :: 0 <= i < |stored| ==> (stored[i].Ref() in refs <==> Counted(stored[i], runId, pendingOnly)))
  }

  ghost predicate NoneExpired(stored: seq<Route>, runId: Text, now: Time) {
    forall i :: 0 <= i < |stored| && stored[i].runId == runId ==> !ReservationExpired(stored[i], now)
  }

  lemma ListsPermuted(a: seq<Route>, b: seq<Route>, refs: seq<RouteRef>, runId: Text, pendingOnly: bool)
    requires multiset(a) == multiset(b) && ListsExactly(a, refs, runId, pendingOnly)
    ensures ListsExactly(b, refs, runId, pendingOnly)
  {
    forall k | 0 <= k < |refs| ensures HasRef(b, refs[k]) {
      assert HasRef(a, refs[k]);
      var i :| 0 <= i < |a| && a[i].Ref() == refs[k];
      assert a[i] in multiset(b);
      var j :| 0 <= j < |b| && b[j] == a[i];
    }
    forall i | 0 <= i < |b| ensures b[i].Ref() in refs <==> Counted(b[i], runId, pendingOnly) {
      assert b[i] in multiset(a);
      var j :| 0 <= j < |a| && a[j] == b[i];
    }
  }

  lemma NoneExpiredPermuted(a: seq<Route>, b: seq<Route>, runId: Text, now: Time)
    requires multiset(a) == multiset(b) && NoneExpired(a, runId, now)
    ensures NoneExpired(b, runId, now)
  {
    forall i | 0 <= i < |b| && b[i].runId == runId ensures !ReservationExpired(b[i], now) {
      assert b[i] in multiset(a);
      var j :| 0 <= j < |a| && a[j] == b[i];
    }
  }

  lemma AcceptsExactly(routes: seq<Route>, runId: Text, refs: seq<RouteRef>, pendingOnly: bool, now: Option<Time>)
    requires Consistent(None, routes)
    ensures CompleteRun(routes, runId, refs, pendingOnly, now) <==>
              && runId != EMPTY && refs != [] && ListsExactly(routes, refs, runId, pendingOnly)
              && (forall i :: 0 <= i < |routes| && Counted(routes[i], runId, pendingOnly) ==>
                    Eligible(routes[i], runId, pendingOnly, now))
  {
    BatchIsAccepted(None, routes, runId, refs, pendingOnly, now);
    forall k | 0 <= k < |refs| && HasRef(routes, refs[k]) ensures FindRef(routes, refs[k]).Some? {
      var i :| 0 <= i < |routes| && routes[i].Ref() == refs[k];
      assert Sound(None, routes[i]);
    }
    forall k | 0 <= k < |refs| && FindRef(routes, refs[k]).Some? ensures HasRef(routes, refs[k]) {
      assert routes[FindRef(routes, refs[k]).value].Ref() == refs[k];
    }
  }

  /** An activation succeeds just when refs lists exactly the run's pending routes, and
      none of them has expired. */
  lemma ActivateAcceptsExactly(stored: seq<Route>, runId: Text, refs: seq<RouteRef>, now: Time, ttl: Time)
    requires Consistent(None, stored)
    ensures Activate(stored, runId, refs, now, ttl).Ok? <==>
              ttl > 0 && runId != EMPTY && refs != [] && ListsExactly(stored, refs, runId, true)
                  && NoneExpired(stored, runId, now)
  {
    var routes := SortRoutes(stored);
    SortConsistent(None, stored);
    SortIsPermutation(stored);
    AcceptsExactly(routes, runId, refs, true, Some(now));
    if ListsExactly(stored, refs, runId, true) {
      ListsPermuted(stored, routes, refs, runId, true);
    }
    if ListsExactly(routes, refs, runId, true) {
      ListsPermuted(routes, stored, refs, runId, true);
    }
    if NoneExpired(stored, runId, now) {
      NoneExpiredPermuted(stored, routes, runId, now);
    }
    if forall i :: 0 <= i < |routes| && Counted(routes[i], runId, true) ==>
        Eligible(routes[i], runId, true, Some(now)) {
      NoneExpiredPermuted(routes, stored, runId, now);
    }
  }

  /** A release succeeds just when refs lists exactly the run's routes. */
  lemma ReleaseAcceptsExactly(stored: seq<Route>, runId: Text, refs: seq<RouteRef>)
    requires Consistent(None, stored)
    ensures Release(stored, runId, refs).Ok? <==>
            runId != EMPTY && refs != [] && ListsExactly(stored, refs, runId, false)
  {
    var routes := SortRoutes(stored);
    SortConsistent(None, stored);
    SortIsPermutation(stored);
    AcceptsExactly(routes, runId, refs, false, None);
    if ListsExactly(stored, refs, runId, false) {
      ListsPermuted(stored, routes, refs, runId, false);
    }
    if ListsExactly(routes, refs, runId, false) {
      ListsPermuted(routes, stored, refs, runId, false);
    }
  }

  // ------------------------------------------------------------ what a batch changes

  function Changed<T>(s: seq<T>, f: T -> T): (r: seq<T>)
    ensures |r| == |s| && forall i :: 0 <= i < |s| ==> r[i] == f(s[i])
  {
    seq(|s|, i requires 0 <= i < |s| => f(s[i]))
  }

  lemma RemovedAt<T>(s: seq<T>, k: nat)
    requires k < |s|
    ensures multiset(s[..k] + s[k + 1..]) == multiset(s) - multiset{s[k]}
  {
    assert s == s[..k] + [s[k]] + s[k + 1..];
  }

  lemma CountAppended<T>(s: seq<T>, last: T, x: T)
    ensures multiset(s + [last])[x] == multiset(s)[x] + if x == last then 1 else 0
  {
  }

  lemma ChangedAround<T>(s: seq<T>, k: nat, f: T -> T)
    requires k < |s|
    ensures multiset(Changed(s, f)) == multiset(Changed(s[..k] + s[k + 1..], f)) + multiset{f(s[k])}
  {
    RemovedAt(Changed(s, f), k);
    assert Changed(s, f)[..k] + Changed(s, f)[k + 1..] == Changed(s[..k] + s[k + 1..], f);
    assert f(s[k]) == Changed(s, f)[k] && Changed(s, f)[k] in multiset(Changed(s, f));
  }

  lemma SameRest<T>(a: seq<T>, b: seq<T>, k: nat)
    requires |a| > 0 && k < |b| && b[k] == a[0] && multiset(a) == multiset(b)
    ensures multiset(a[..0] + a[1..]) == multiset(b[..k] + b[k + 1..])
  {
    RemovedAt(a, 0);
    RemovedAt(b, k);
  }

  lemma {:induction false} ChangedPermuted<T>(a: seq<T>, b: seq<T>, f: T -> T)
    requires multiset(a) == multiset(b)
    ensures multiset(Changed(a, f)) == multiset(Changed(b, f))
    decreases |a|
  {
    if a == [] {
      assert |multiset(b)| == 0;
    } else {
      assert a[0] in multiset(b);
      var k :| 0 <= k < |b| && b[k] == a[0];
      var restA, restB := a[..0] + a[1..], b[..k] + b[k + 1..];
      SameRest(a, b, k);
      ChangedPermuted(restA, restB, f);
      ChangedAround(a, 0, f);
      ChangedAround(b, k, f);
    }
  }

  /** The run's pending routes, activated; every other route as it is. */
  function ActivateOne(r: Route, runId: Text, expiry: Time): Route {
    if Counted(r, runId, true) then ActivatedRoute(r, expiry) else r
  }

  /** An activation activates all the run's pending routes, none of which had expired,
      and leaves every other route unchanged: all or nothing, up to the order. */
  lemma ActivateIsExact(stored: seq<Route>, runId: Text, refs: seq<RouteRef>, now: Time, ttl: Time)
    requires Activate(stored, runId, refs, now, ttl).Ok?
    ensures multiset(Activate(stored, runId, refs, now, ttl).value)
            == multiset(Changed(stored, (r: Route) => ActivateOne(r, runId, now + ttl)))
    ensures NoneExpired(stored, runId, now)
  {
    var routes := SortRoutes(stored);
    var f := (r: Route) => ActivatedRoute(r, now + ttl);
    var g := (r: Route) => ActivateOne(r, runId, now + ttl);
    var mapped := MapPointed(routes, refs, f);
    forall i | 0 <= i < |routes| ensures mapped[i] == g(routes[i])
        && (routes[i].runId == runId ==> !ReservationExpired(routes[i], now)) {
      BatchIsExact(routes, runId, refs, true, Some(now), i);
    }
    assert mapped == Changed(routes, g);
    SortIsPermutation(stored);
    ChangedPermuted(routes, stored, g);
    SortIsPermutation(mapped);
    NoneExpiredPermuted(routes, stored, runId, now);
  }

  function Occurs<T(==)>(s: seq<T>, x: T): nat {
    if s == [] then 0 else Occurs(s[..|s| - 1], x) + if s[|s| - 1] == x then 1 else 0
  }

  lemma {:induction false} OccursIsCount<T>(s: seq<T>, x: T)
    ensures multiset(s)[x] == Occurs(s, x)
  {
    if s != [] {
      OccursIsCount(s[..|s| - 1], x);
      CountAppended(s[..|s| - 1], s[|s| - 1], x);
      assert s == s[..|s| - 1] + [s[|s| - 1]];
    }
  }

  lemma OccursAppended<T>(s: seq<T>, last: T, x: T)
    ensures Occurs(s + [last], x) == Occurs(s, x) + if last == x then 1 else 0
  {
    assert (s + [last])[..|s|] == s;
  }

  /** An activated route serves the target it was reserved for, under the same identity
      and host, until exactly the end of its lease. */
  lemma ActivatedServes(r: Route, runId: Text, expiry: Time, t: Time)
    requires Counted(r, runId, true)
    ensures var a := ActivateOne(r, runId, expiry);
            && a.state == Active && a.target == r.pendingTarget && a.Ref() == r.Ref() && a.host == r.host
               && a.owner == r.owner
            && (Expired(a, t) <==> expiry <= t)
  {
  }

  /** A renewed route lives until exactly the new expiry, whatever the old one. */
  lemma RenewedLives(r: Route, refs: seq<RouteRef>, expiry: Time, t: Time)
    requires r.Ref() in refs
    ensures var n := RenewOne(r, refs, expiry);
            && n.state == r.state && n.EffectiveTarget() == r.EffectiveTarget() && n.Ref() == r.Ref()
               && n.host == r.host
            && (Expired(n, t) <==> expiry <= t)
  {
  }

  lemma {:induction false} DroppedOccurs<T>(s: seq<T>, gone: set<nat>, n: nat, x: T, goes: bool)
    requires n <= |s| && forall i: nat :: i < n && s[i] == x ==> (i in gone <==> goes)
    ensures Occurs(Drop(s, gone, n), x) == if goes then 0 else Occurs(s[..n], x)
  {
    if n > 0 {
      DroppedOccurs(s, gone, n - 1, x, goes);
      assert s[..n] == s[..n - 1] + [s[n - 1]];
      OccursAppended(s[..n - 1], s[n - 1], x);
      OccursAppended(Drop(s, gone, n - 1), s[n - 1], x);
      assert n - 1 in gone ==> Drop(s, gone, n) == Drop(s, gone, n - 1);
    }
  }

  lemma DroppedCount<T>(s: seq<T>, gone: set<nat>, x: T, goes: bool)
    requires forall i: nat :: i < |s| && s[i] == x ==> (i in gone <==> goes)
    ensures multiset(Drop(s, gone, |s|))[x] == if goes then 0 else multiset(s)[x]
  {
    DroppedOccurs(s, gone, |s|, x, goes);
    assert s[..|s|] == s;
    OccursIsCount(s, x);
    OccursIsCount(Drop(s, gone, |s|), x);
  }

  /** A release removes all the run's routes and keeps every other one. */
  lemma ReleaseIsExact(stored: seq<Route>, runId: Text, refs: seq<RouteRef>, r: Route)
    requires Release(stored, runId, refs).Ok?
    ensures multiset(Release(stored, runId, refs).value)[r] == if r.runId == runId then 0 else multiset(stored)[r]
  {
    var routes := SortRoutes(stored);
    var gone := Pointed(routes, refs);
    forall i: nat | i < |routes| ensures i in gone <==> routes[i].runId == runId {
      BatchIsExact(routes, runId, refs, false, None, i);
    }
    DroppedCount(routes, gone, r, r.runId == runId);
    SortIsPermutation(stored);
    SortIsPermutation(Drop(routes, gone, |routes|));
  }

  /** A renewal moves the expiry of the routes named, all of the run, and nothing else. */
  function RenewOne(r: Route, refs: seq<RouteRef>, expiry: Time): Route {
    if r.Ref() in refs then RenewedRoute(r, expiry) else r
  }

  lemma RenewIsExact(stored: seq<Route>, runId: Text, refs: seq<RouteRef>, now: Time, ttl: Time)
    requires Consistent(None, stored) && Renew(stored, runId, refs, now, ttl).Ok?
    ensures multiset(Renew(stored, runId, refs, now, ttl).value)
            == multiset(Changed(stored, (r: Route) => RenewOne(r, refs, now + ttl)))
    ensures forall i :: 0 <= i < |stored| && stored[i].Ref() in refs ==>
            stored[i].runId == runId && !ReservationExpired(stored[i], now)
  {
    var routes := SortRoutes(stored);
    SortConsistent(None, stored);
    var f := (r: Route) => RenewedRoute(r, now + ttl);
    var g := (r: Route) => RenewOne(r, refs, now + ttl);
    var mapped := MapPointed(routes, refs, f);
    forall i | 0 <= i < |routes|
      ensures mapped[i] == g(routes[i])
      ensures routes[i].Ref() in refs ==> Eligible(routes[i], runId, false, Some(now))
    {
      PointedAtByRef(None, routes, refs, i);
    }
    assert mapped == Changed(routes, g);
    SortIsPermutation(stored);
    ChangedPermuted(routes, stored, g);
    SortIsPermutation(mapped);
    forall i | 0 <= i < |stored| && stored[i].Ref() in refs
      ensures stored[i].runId == runId && !ReservationExpired(stored[i], now)
    {
      assert stored[i] in multiset(routes);
      var j :| 0 <= j < |routes| && routes[j] == stored[i];
    }
  }

  /** A deletion succeeds just when a route has that identity. */
  lemma DeleteAcceptsExactly(stored: seq<Route>, ref: RouteRef)
    requires Consistent(None, stored)
    ensures Delete(stored, ref).Ok? <==> HasRef(stored, ref)
  {
    var routes := SortRoutes(stored);
    SortIsPermutation(stored);
    forall i | 0 <= i < |stored| && stored[i].Ref() == ref ensures FindRef(routes, ref).Some? {
      assert Sound(None, stored[i]) && stored[i] in multiset(routes);
    }
    if FindRef(routes, ref).Some? {
      assert routes[FindRef(routes, ref).value] in multiset(stored);
    }
  }

  lemma CutCount<T>(s: seq<T>, k: nat, x: T)
    requires k < |s| && multiset(s)[x] <= 1
    ensures multiset(s[..k] + s[k + 1..])[x] == if x == s[k] then 0 else multiset(s)[x]
  {
    RemovedAt(s, k);
  }

  lemma OnlyOneHasRef(routes: seq<Route>, k: nat, r: Route)
    requires Consistent(None, routes) && k < |routes| && r.Ref() == routes[k].Ref() && r in routes
    ensures r == routes[k]
  {
    var j :| 0 <= j < |routes| && routes[j] == r;
    FindUnique(None, routes, j);
    FindUnique(None, routes, k);
  }

  /** A deletion removes the route with that identity and keeps every other one. */
  lemma DeleteIsExact(stored: seq<Route>, ref: RouteRef, r: Route)
    requires Consistent(None, stored) && Delete(stored, ref).Ok?
    ensures multiset(Delete(stored, ref).value)[r] == if r.Ref() == ref then 0 else multiset(stored)[r]
  {
    var routes := SortRoutes(stored);
    SortIsPermutation(stored);
    SortConsistent(None, stored);
    var k := FindRef(routes, ref).value;
    OnceInMultiset(None, routes, r);
    CutCount(routes, k, r);
    SortIsPermutation(routes[..k] + routes[k + 1..]);
    if r.Ref() == ref && r in routes {
      OnlyOneHasRef(routes, k, r);
    }
  }
}
