/** What the reservation operations keep, and that batch operations are exact. */
module RouteFacts {
  import opened Common
  import opened Routes
  import Hostnames

  // ------------------------------------------------------------ consistency

  predicate SameWslOwner(a: Route, b: Route) {
    a.owner.IsWsl() && b.owner.IsWsl() ==> a.owner.instance == b.owner.instance
  }

  /** Two routes that may be in the store together. Without a platform only their
      identities have to differ. */
  predicate Compatible(q: Option<Platform>, a: Route, b: Route) {
    && a.Ref() != b.Ref()
    && (q.Some? ==> Lower(a.host) != Lower(b.host) && Key(q.value, a) != Key(q.value, b) && SameWslOwner(a, b))
  }

  /** A route with an identity and, given a platform, a valid target. */
  predicate Sound(q: Option<Platform>, r: Route) {
    r.id != EMPTY && r.generation != 0 && (q.Some? ==> Key(q.value, r).Some?)
  }

  /** Identities are pairwise distinct and, given a platform, so are hosts and target
      sockets, and at most one WSL instance owns routes. */
  ghost predicate Consistent(q: Option<Platform>, routes: seq<Route>) {
    && (forall i :: 0 <= i < |routes| ==> Sound(q, routes[i]))
    && (forall i, j :: 0 <= i < j < |routes| ==> Compatible(q, routes[i], routes[j]))
  }

  lemma ConsistentAppend(q: Option<Platform>, routes: seq<Route>, r: Route)
    requires Consistent(q, routes) && Sound(q, r) && forall x :: x in routes ==> Compatible(q, x, r)
    ensures Consistent(q, routes + [r])
  {
  }

  /** The same identity, host, target and owner. */
  predicate SameIdentity(q: Option<Platform>, a: Route, b: Route) {
    a.Ref() == b.Ref() && a.host == b.host && (q.Some? ==> Key(q.value, a) == Key(q.value, b))
    && a.owner == b.owner
  }

  lemma SameIdentities(q: Option<Platform>, before: seq<Route>, after: seq<Route>)
    requires Consistent(q, before) && |after| == |before|
    requires forall i :: 0 <= i < |before| ==> SameIdentity(q, before[i], after[i])
    ensures Consistent(q, after)
  {
    forall i, j | 0 <= i < j < |after| ensures Compatible(q, after[i], after[j]) {
      assert Compatible(q, before[i], before[j]);
    }
  }

  // ------------------------------------------------------------ sorting

  lemma {:induction false} InsertIsPermutation(r: Route, sorted: seq<Route>)
    ensures multiset(Insert(r, sorted)) == multiset{r} + multiset(sorted)
    ensures |Insert(r, sorted)| == |sorted| + 1
  {
    if sorted != [] && !Precedes(r, sorted[0]) {
      InsertIsPermutation(r, sorted[1..]);
      assert sorted == [sorted[0]] + sorted[1..];
    }
  }

  /** Sorting only reorders. */
  lemma {:induction false} SortIsPermutation(routes: seq<Route>)
    ensures multiset(SortRoutes(routes)) == multiset(routes) && |SortRoutes(routes)| == |routes|
  {
    if routes != [] {
      SortIsPermutation(routes[1..]);
      InsertIsPermutation(routes[0], SortRoutes(routes[1..]));
      assert routes == [routes[0]] + routes[1..];
    }
  }

  lemma SortedMembers(routes: seq<Route>, r: Route)
    ensures r in SortRoutes(routes) <==> r in routes
  {
    SortIsPermutation(routes);
    assert r in multiset(SortRoutes(routes)) <==> r in multiset(routes);
  }

  ghost predicate IsSorted(routes: seq<Route>) {
    forall i :: 0 < i < |routes| ==> HostLeq(routes[i - 1].host, routes[i].host)
  }

  lemma {:induction false} LexTotal(a: string, b: string)
    ensures LexLeq(a, b) || LexLeq(b, a)
  {
    if a != "" && b != "" && a[0] == b[0] {
      LexTotal(a[1..], b[1..]);
    }
  }

  /** sortRoutes leaves the routes in host order. */
  lemma {:induction false} SortSorts(routes: seq<Route>)
    ensures IsSorted(SortRoutes(routes))
  {
    if routes != [] {
      SortSorts(routes[1..]);
      InsertSorts(routes[0], SortRoutes(routes[1..]));
    }
  }

  lemma {:induction false} InsertSorts(r: Route, sorted: seq<Route>)
    requires IsSorted(sorted)
    ensures IsSorted(Insert(r, sorted))
    ensures Insert(r, sorted)[0] == r || (sorted != [] && Insert(r, sorted)[0] == sorted[0])
  {
    if sorted != [] && !Precedes(r, sorted[0]) {
      InsertSorts(r, sorted[1..]);
      LexTotal(r.host, sorted[0].host);
      LexTotal(Lower(r.host), Lower(sorted[0].host));
    }
  }

  lemma {:induction false} SortedIsFixed(routes: seq<Route>)
    requires IsSorted(routes)
    ensures SortRoutes(routes) == routes
  {
    if routes != [] {
      var rest := routes[1..];
      SortedIsFixed(rest);
      if rest != [] {
        assert Precedes(routes[0], routes[1]);
      }
    }
  }

  /** Sorting twice is sorting once. */
  lemma SortIsIdempotent(routes: seq<Route>)
    ensures SortRoutes(SortRoutes(routes)) == SortRoutes(routes)
  {
    SortSorts(routes);
    SortedIsFixed(SortRoutes(routes));
  }

  /** Consistency does not depend on the order. */
  lemma PermutedConsistent(q: Option<Platform>, a: seq<Route>, b: seq<Route>)
    requires Consistent(q, a) && multiset(b) == multiset(a)
    ensures Consistent(q, b)
  {
    forall i | 0 <= i < |b| ensures b[i] in a && Sound(q, b[i]) {
      assert b[i] in multiset(a);
    }
    forall i, j | 0 <= i < j < |b| ensures Compatible(q, b[i], b[j]) {
      if b[i] == b[j] {
        TwiceInMultiset(b, i, j);
        OnceInMultiset(q, a, b[i]);
        assert false;
      }
      var k :| 0 <= k < |a| && a[k] == b[i];
      var l :| 0 <= l < |a| && a[l] == b[j];
      assert if k < l then Compatible(q, a[k], a[l]) else Compatible(q, a[l], a[k]);
    }
  }

  lemma TwiceInMultiset(b: seq<Route>, i: nat, j: nat)
    requires i < j < |b| && b[i] == b[j]
    ensures multiset(b)[b[i]] >= 2
  {
    assert b == b[..j] + [b[j]] + b[j + 1..];
    assert b[i] == b[..j][i] && b[i] in multiset(b[..j]);
  }

  lemma {:induction false} OnceInMultiset(q: Option<Platform>, a: seq<Route>, r: Route)
    requires Consistent(q, a)
    ensures multiset(a)[r] <= 1
  {
    if a != [] {
      var front, last := a[..|a| - 1], a[|a| - 1];
      OnceInMultiset(q, front, r);
      assert a == front + [last];
      forall i | 0 <= i < |front| ensures front[i] != last {
        assert Compatible(q, a[i], a[|a| - 1]);
      }
      assert last !in multiset(front);
    }
  }

  lemma SortConsistent(q: Option<Platform>, routes: seq<Route>)
    requires Consistent(q, routes)
    ensures Consistent(q, SortRoutes(routes))
  {
    SortIsPermutation(routes);
    PermutedConsistent(q, routes, SortRoutes(routes));
  }

  // ------------------------------------------------------------ dropping routes

  lemma {:induction false} UnexpiredMembers(routes: seq<Route>, now: Time, r: Route)
    ensures r in Unexpired(routes, now) <==> r in routes && !Expired(r, now)
  {
    if routes != [] {
      UnexpiredMembers(routes[..|routes| - 1], now, r);
      assert routes == routes[..|routes| - 1] + [routes[|routes| - 1]];
    }
  }

  lemma {:induction false} UnexpiredConsistent(q: Option<Platform>, routes: seq<Route>, now: Time)
    requires Consistent(q, routes)
    ensures Consistent(q, Unexpired(routes, now)) && |Unexpired(routes, now)| <= |routes|
  {
    if routes != [] {
      var front, last := routes[..|routes| - 1], routes[|routes| - 1];
      UnexpiredConsistent(q, front, now);
      if !Expired(last, now) {
        forall x | x in Unexpired(front, now) ensures Compatible(q, x, last) {
          UnexpiredMembers(front, now, x);
          var i :| 0 <= i < |front| && front[i] == x;
          assert Compatible(q, routes[i], routes[|routes| - 1]);
        }
        ConsistentAppend(q, Unexpired(front, now), last);
      }
    }
  }

  lemma {:induction false} DroppedMembers<T>(s: seq<T>, gone: set<nat>, n: nat, x: T)
    requires n <= |s|
    ensures x in Drop(s, gone, n) <==> exists i :: 0 <= i < n && s[i] == x && i !in gone
  {
    if n > 0 {
      DroppedMembers(s, gone, n - 1, x);
    }
  }

  lemma {:induction false} DropConsistent(q: Option<Platform>, routes: seq<Route>, gone: set<nat>, n: nat)
    requires Consistent(q, routes) && n <= |routes|
    ensures Consistent(q, Drop(routes, gone, n)) && |Drop(routes, gone, n)| <= n
  {
    if n > 0 {
      DropConsistent(q, routes, gone, n - 1);
      var kept := Drop(routes, gone, n - 1);
      if n - 1 in gone {
        assert kept + [] == kept;
      } else {
        forall x | x in kept ensures Compatible(q, x, routes[n - 1]) {
          DroppedMembers(routes, gone, n - 1, x);
          var i :| 0 <= i < n - 1 && routes[i] == x && i !in gone;
          assert Compatible(q, routes[i], routes[n - 1]);
        }
        ConsistentAppend(q, kept, routes[n - 1]);
      }
    }
  }

  // ------------------------------------------------------------ batches are exact

  ghost function CountedAt(routes: seq<Route>, runId: Text, pendingOnly: bool): set<nat> {
    set i: nat | i < |routes| && Counted(routes[i], runId, pendingOnly)
  }

  lemma {:induction false} CountRunIsCardinality(routes: seq<Route>, runId: Text, pendingOnly: bool)
    ensures CountRun(routes, runId, pendingOnly) == |CountedAt(routes, runId, pendingOnly)|
  {
    if routes == [] {
      assert CountedAt(routes, runId, pendingOnly) == {};
    } else {
      var front := routes[..|routes| - 1];
      CountRunIsCardinality(front, runId, pendingOnly);
      var last: nat := |routes| - 1;
      if Counted(routes[last], runId, pendingOnly) {
        assert CountedAt(routes, runId, pendingOnly) == CountedAt(front, runId, pendingOnly) + {last};
      } else {
        assert CountedAt(routes, runId, pendingOnly) == CountedAt(front, runId, pendingOnly);
      }
    }
  }

  function Indexes(routes: seq<Route>, refs: seq<RouteRef>): (r: seq<nat>)
    requires forall k :: 0 <= k < |refs| ==> FindRef(routes, refs[k]).Some?
    ensures |r| == |refs| && forall k :: 0 <= k < |refs| ==> r[k] == FindRef(routes, refs[k]).value
  {
    seq(|refs|, k requires 0 <= k < |refs| => FindRef(routes, refs[k]).value)
  }

  /** A batch that passes the check names exactly the routes it is meant for: as many
      different eligible routes as the run has must be all of them. */
  lemma BatchIsExact(routes: seq<Route>, runId: Text, refs: seq<RouteRef>, pendingOnly: bool, now: Option<Time>, i: nat)
    requires CompleteRun(routes, runId, refs, pendingOnly, now) && i < |routes|
    ensures PointedAt(routes, refs, i) <==> Counted(routes[i], runId, pendingOnly)
    ensures PointedAt(routes, refs, i) ==> Eligible(routes[i], runId, pendingOnly, now)
  {
    var indexes := Indexes(routes, refs);
    var counted := CountedAt(routes, runId, pendingOnly);
    CountRunIsCardinality(routes, runId, pendingOnly);
    assert NoDup(indexes);
    NoDupCardinality(indexes);
    forall k | k in ToSet(indexes) ensures k in counted {
      var m :| 0 <= m < |indexes| && indexes[m] == k;
      assert Eligible(routes[k], runId, pendingOnly, now);
    }
    SubsetOfSameSize(ToSet(indexes), counted);
    if PointedAt(routes, refs, i) {
      var k :| 0 <= k < |refs| && FindRef(routes, refs[k]) == Some(i);
      assert indexes[k] == i;
    }
    if Counted(routes[i], runId, pendingOnly) {
      assert i in ToSet(indexes);
      var k :| 0 <= k < |indexes| && indexes[k] == i;
      assert FindRef(routes, refs[k]) == Some(i);
    }
  }

  /** With distinct identities the check passes just when refs lists, without
      repetition, the identities of the run's routes, and none of them has expired. */
  lemma BatchIsAccepted(q: Option<Platform>, routes: seq<Route>, runId: Text, refs: seq<RouteRef>, pendingOnly: bool,
                        now: Option<Time>)
    requires Consistent(q, routes)
    ensures CompleteRun(routes, runId, refs, pendingOnly, now) <==>
              && runId != EMPTY && refs != [] && NoDup(refs)
              && (forall i :: 0 <= i < |routes| ==>
                  (routes[i].Ref() in refs <==> Counted(routes[i], runId, pendingOnly)))
              && (forall k :: 0 <= k < |refs| ==> FindRef(routes, refs[k]).Some?)
              && (forall i :: 0 <= i < |routes| && Counted(routes[i], runId, pendingOnly) ==>
                    Eligible(routes[i], runId, pendingOnly, now))
  {
    if CompleteRun(routes, runId, refs, pendingOnly, now) {
      forall i | 0 <= i < |routes|
        ensures routes[i].Ref() in refs <==> Counted(routes[i], runId, pendingOnly)
        ensures Counted(routes[i], runId, pendingOnly) ==> Eligible(routes[i], runId, pendingOnly, now)
      {
        BatchIsExact(routes, runId, refs, pendingOnly, now, i);
        PointedAtByRef(q, routes, refs, i);
      }
    }
    if && runId != EMPTY && refs != [] && NoDup(refs)
       && (forall i :: 0 <= i < |routes| ==> (routes[i].Ref() in refs <==> Counted(routes[i], runId, pendingOnly)))
       && (forall k :: 0 <= k < |refs| ==> FindRef(routes, refs[k]).Some?)
       && (forall i :: 0 <= i < |routes| && Counted(routes[i], runId, pendingOnly) ==>
             Eligible(routes[i], runId, pendingOnly, now)) {
      AllNamedIsComplete(q, routes, runId, refs, pendingOnly, now);
    }
  }

  /** With distinct identities a position is pointed at when its identity is listed. */
  lemma PointedAtByRef(q: Option<Platform>, routes: seq<Route>, refs: seq<RouteRef>, i: nat)
    requires Consistent(q, routes) && i < |routes|
    ensures PointedAt(routes, refs, i) <==> routes[i].Ref() in refs
  {
    if routes[i].Ref() in refs {
      var k :| 0 <= k < |refs| && refs[k] == routes[i].Ref();
      FindUnique(q, routes, i);
    }
  }

  lemma FindUnique(q: Option<Platform>, routes: seq<Route>, i: nat)
    requires Consistent(q, routes) && i < |routes|
    ensures FindRef(routes, routes[i].Ref()) == Some(i)
  {
    assert Sound(q, routes[i]);
    assert forall k :: 0 <= k < i ==> Compatible(q, routes[k], routes[i]);
  }

  lemma AllNamedIsComplete(q: Option<Platform>, routes: seq<Route>, runId: Text, refs: seq<RouteRef>, pendingOnly: bool,
                           now: Option<Time>)
    requires Consistent(q, routes) && runId != EMPTY && refs != [] && NoDup(refs)
    requires forall i :: 0 <= i < |routes| ==> (routes[i].Ref() in refs <==> Counted(routes[i], runId, pendingOnly))
    requires forall k :: 0 <= k < |refs| ==> FindRef(routes, refs[k]).Some?
    requires forall i :: 0 <= i < |routes| && Counted(routes[i], runId, pendingOnly) ==>
      Eligible(routes[i], runId, pendingOnly, now)
    ensures CompleteRun(routes, runId, refs, pendingOnly, now)
  {
    forall k | 0 <= k < |refs|
      ensures Eligible(routes[FindRef(routes, refs[k]).value], runId, pendingOnly, now)
      ensures FindRef(routes, refs[k]).value in CountedAt(routes, runId, pendingOnly)
    {
      var i := FindRef(routes, refs[k]).value;
      assert routes[i].Ref() == refs[k];
    }
    var indexes := Indexes(routes, refs);
    NoDupCardinality(indexes);
    CountRunIsCardinality(routes, runId, pendingOnly);
    forall i | i in CountedAt(routes, runId, pendingOnly) ensures i in ToSet(indexes) {
      var k :| 0 <= k < |refs| && refs[k] == routes[i].Ref();
      FindUnique(q, routes, i);
      assert indexes[k] == i;
    }
    assert ToSet(indexes) == CountedAt(routes, runId, pendingOnly);
  }
}
