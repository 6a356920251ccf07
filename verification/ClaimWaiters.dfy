/** Register waiters and handles: nobody is forgotten, answered twice or torn down by others. */
module ClaimWaiters {
  import opened Common
  import opened Probing
  import opened ClaimModel

  ghost predicate PendingAt(s: State, h: string, i: int) {
    h in s.claims && 0 <= i < |s.claims[h].pending|
  }

  ghost function WaiterAt(s: State, h: string, i: int): Pending
    requires PendingAt(s, h, i)
  {
    s.claims[h].pending[i]
  }

  ghost predicate Waiting(s: State, reply: nat) {
    exists h, i :: PendingAt(s, h, i) && WaiterAt(s, h, i).reply == reply
  }

  ghost predicate Answered(s: State, reply: nat) {
    exists k :: 0 <= k < |s.answers| && s.answers[k].reply == reply
  }

  /** No two waiters share a reply channel or a handle. */
  ghost predicate Distinct(s: State) {
    forall h, i, k, j | PendingAt(s, h, i) && PendingAt(s, k, j) ::
      (WaiterAt(s, h, i).reply == WaiterAt(s, k, j).reply || WaiterAt(s, h, i).id == WaiterAt(s, k, j).id)
      ==> h == k && i == j
  }

  /** A waiter holds a handle of its claim and has been neither answered nor cancelled. */
  ghost predicate Unsettled(s: State, h: string, w: Pending) {
    && h in s.claims && w.id in s.claims[h].refs && w.id in s.names
    && w.reply in s.accepted && w.reply !in s.cancelled
    && !Answered(s, w.reply) && !Delivered(s, w.id)
  }

  ghost predicate AllUnsettled(s: State) {
    forall h, i :: PendingAt(s, h, i) ==> Unsettled(s, h, WaiterAt(s, h, i))
  }

  ghost predicate AnswersOk(s: State) {
    && (forall a, b :: 0 <= a < b < |s.answers| ==> s.answers[a].reply != s.answers[b].reply)
    && (forall a :: 0 <= a < |s.answers| ==>
          && s.answers[a].reply in s.accepted && s.answers[a].reply !in s.cancelled
          && (s.answers[a].outcome.Registered? ==> s.answers[a].outcome.id in s.names))
  }

  ghost predicate NobodyForgotten(s: State) {
    && (forall r :: r in s.accepted ==> Answered(s, r) || r in s.cancelled || Waiting(s, r))
    && s.cancelled <= s.accepted
  }

  ghost predicate HandlesOk(s: State) {
    && (forall h :: h in s.claims ==>
          && s.claims[h].requested == h && s.claims[h].refs != {}
          && (s.claims[h].phase == Active ==> s.claims[h].pending == []))
    && (forall h, id :: h in s.claims && id in s.claims[h].refs ==> id in s.registrations && s.registrations[id] == h)
    && (forall id :: id in s.registrations ==> id in s.names)
  }

  ghost predicate WaitersOk(s: State) {
    Distinct(s) && AllUnsettled(s) && AnswersOk(s) && NobodyForgotten(s) && HandlesOk(s)
  }

  // ------------------------------------------------------------ the shapes of a turn

  /** The claim goes on with the same handles and waiters. */
  ghost predicate Kept(c: Claim, e: Effect) {
    && e.answers == [] && e.forgotten == {} && e.cancelled == {}
    && e.next.Some? && e.next.value.requested == c.requested
    && e.next.value.refs == c.refs && e.next.value.pending == c.pending
    && (e.next.value.phase == Active ==> c.phase == Active)
  }

  /** Every waiter is answered, and the claim is gone or goes on without waiters. */
  ghost predicate Settled(c: Claim, e: Effect, failure: Option<Failure>) {
    && e.answers == Complete(c.pending, failure) && e.forgotten == {} && e.cancelled == {}
    && (e.next.Some? ==>
          && e.next.value.requested == c.requested && e.next.value.refs == c.refs && e.next.value.pending == [])
  }

  /** Waiter i has left, and the claim with it if it was the last handle. */
  ghost predicate Left(c: Claim, e: Effect, i: nat) {
    && i < |c.pending|
    && e.answers == [] && e.forgotten == {c.pending[i].id} && e.cancelled == {c.pending[i].reply}
    && (var left := c.(refs := c.refs - {c.pending[i].id}, pending := Without(c.pending, i));
        e.next == if left.refs == {} then None else Some(left))
  }

  ghost predicate Shaped(c: Claim, e: Effect) {
    || Kept(c, e)
    || (exists failure :: Settled(c, e, failure))
    || (exists i :: Left(c, e, i))
  }

  lemma VerdictShaped(c: Claim, clash: bool, lost: bool, next: Result<string, NameError>, now: Time, delay: Time)
    ensures Shaped(c, Verdict(c, clash, lost, next, now, delay))
  {
    var e := Verdict(c, clash, lost, next, now, delay);
    if e.next.None? {
      var failure := if now - c.startedAt >= PROBING_LIMIT then TimedOut else NoSuffix(next.error);
      assert Settled(c, e, Some(failure));
    } else {
      assert Kept(c, e);
    }
  }

  lemma TurnShaped(ours: Address, c: Claim, sweep: Sweep)
    ensures Shaped(c, EffectOf(ours, c, sweep))
  {
    var e := EffectOf(ours, c, sweep);
    match sweep
    case OnPacket(msg, now, delays) =>
      VerdictShaped(c, ConflictsWith(msg, c.current, ours), Loses(ours, msg, c.candidate),
                    NextConflictHostname(c.candidate), now, DelayOf(delays, c.requested));
    case OnTick(now, room) =>
      if e.next.None? {
        assert Settled(c, e, Some(if c.phase == Observing then CoordinatorQueueFull else WriteQueueFull));
      } else if e.next.value.phase == Active && c.phase == Announcing {
        assert Settled(c, e, None);
      } else {
        assert Kept(c, e);
      }
    case OnCancel(reply) =>
      var found := FindPending(c.pending, reply);
      if found.Some? {
        assert Left(c, e, found.value);
      }
  }

  // ------------------------------------------------------------ one turn

  lemma KeptKeeps(s: State, h: string, e: Effect)
    requires WaitersOk(s) && h in s.claims && Kept(s.claims[h], e)
    ensures WaitersOk(Apply(s, h, e))
  {
    var t := Apply(s, h, e);
    assert t.answers == s.answers && t.cancelled == s.cancelled && t.registrations == s.registrations;
    forall k, i ensures PendingAt(t, k, i) <==> PendingAt(s, k, i)
      ensures PendingAt(s, k, i) ==> WaiterAt(t, k, i) == WaiterAt(s, k, i)
    {
    }
    forall k, i | PendingAt(t, k, i) ensures Unsettled(t, k, WaiterAt(t, k, i)) {
      assert Unsettled(s, k, WaiterAt(s, k, i));
    }
    forall r | r in t.accepted ensures Answered(t, r) || r in t.cancelled || Waiting(t, r) {
      if Waiting(s, r) {
        var k, i :| PendingAt(s, k, i) && WaiterAt(s, k, i).reply == r;
        assert PendingAt(t, k, i);
      }
    }
  }

  lemma SettledAnswers(s: State, h: string, e: Effect, failure: Option<Failure>)
    requires WaitersOk(s) && h in s.claims && Settled(s.claims[h], e, failure)
    ensures AnswersOk(Apply(s, h, e))
  {
    var t := Apply(s, h, e);
    var n := |s.answers|;
    forall a | n <= a < |t.answers|
      ensures PendingAt(s, h, a - n) && Unsettled(s, h, WaiterAt(s, h, a - n))
      ensures t.answers[a].reply == WaiterAt(s, h, a - n).reply
      ensures t.answers[a].outcome.Registered? ==> t.answers[a].outcome.id == WaiterAt(s, h, a - n).id
    {
      assert PendingAt(s, h, a - n);
    }
    assert forall a :: 0 <= a < n ==> t.answers[a] == s.answers[a];
    forall a, b | 0 <= a < b < |t.answers| ensures t.answers[a].reply != t.answers[b].reply {
      if b >= n {
        assert Unsettled(s, h, WaiterAt(s, h, b - n));
        if a < n {
          assert t.answers[a].reply == s.answers[a].reply;
        }
      }
    }
  }

  /** Every waiter of another claim still waits; those of this one are answered. */
  lemma SettledKeeps(s: State, h: string, e: Effect, failure: Option<Failure>)
    requires WaitersOk(s) && h in s.claims && Settled(s.claims[h], e, failure)
    ensures WaitersOk(Apply(s, h, e))
  {
    SettledAnswers(s, h, e, failure);
    SettledWaiters(s, h, e, failure);
    var t := Apply(s, h, e);
    var n := |s.answers|;
    forall r | r in t.accepted ensures Answered(t, r) || r in t.cancelled || Waiting(t, r) {
      if Answered(s, r) {
        var a :| 0 <= a < n && s.answers[a].reply == r;
        assert t.answers[a].reply == r;
      } else if Waiting(s, r) {
        var k, i :| PendingAt(s, k, i) && WaiterAt(s, k, i).reply == r;
        if k == h {
          assert t.answers[n + i] == e.answers[i];
        } else {
          assert PendingAt(t, k, i);
        }
      }
    }
  }

  lemma SettledWaiters(s: State, h: string, e: Effect, failure: Option<Failure>)
    requires WaitersOk(s) && h in s.claims && Settled(s.claims[h], e, failure)
    ensures var t := Apply(s, h, e);
            Distinct(t) && AllUnsettled(t) && HandlesOk(t)
  {
    var t := Apply(s, h, e);
    var n := |s.answers|;
    assert t.cancelled == s.cancelled && t.registrations == s.registrations;
    forall k, i | PendingAt(t, k, i) ensures PendingAt(s, k, i) && k != h && WaiterAt(t, k, i) == WaiterAt(s, k, i) {
    }
    forall k, i | PendingAt(t, k, i) ensures Unsettled(t, k, WaiterAt(t, k, i)) {
      var w := WaiterAt(t, k, i);
      assert Unsettled(s, k, w);
      forall a | 0 <= a < |t.answers|
        ensures t.answers[a].reply != w.reply && t.answers[a].outcome != Registered(w.id)
      {
        if a >= n {
          assert PendingAt(s, h, a - n);
          assert WaiterAt(s, h, a - n).reply != w.reply && WaiterAt(s, h, a - n).id != w.id;
          assert t.answers[a] == e.answers[a - n];
        } else {
          assert t.answers[a] == s.answers[a];
        }
      }
    }
  }

  lemma LeftKeeps(s: State, h: string, e: Effect, gone: nat)
    requires WaitersOk(s) && h in s.claims && Left(s.claims[h], e, gone)
    ensures WaitersOk(Apply(s, h, e))
  {
    LeftPendings(s, h, e, gone);
    LeftUnsettled(s, h, e, gone);
    LeftForgetsNobody(s, h, e, gone);
    LeftHandles(s, h, e, gone);
  }

  lemma LeftUnsettled(s: State, h: string, e: Effect, gone: nat)
    requires WaitersOk(s) && h in s.claims && Left(s.claims[h], e, gone)
    ensures AllUnsettled(Apply(s, h, e)) && AnswersOk(Apply(s, h, e))
  {
    var t := Apply(s, h, e);
    var w := s.claims[h].pending[gone];
    assert t.answers == s.answers;
    assert PendingAt(s, h, gone) && Unsettled(s, h, w);
    LeftPendings(s, h, e, gone);
    forall k, i | PendingAt(t, k, i) ensures Unsettled(t, k, WaiterAt(t, k, i)) {
      var j := Before(h, gone, k, i);
      assert PendingAt(s, k, j) && WaiterAt(t, k, i) == WaiterAt(s, k, j);
      assert Unsettled(s, k, WaiterAt(s, k, j));
      assert WaiterAt(s, k, j).reply != w.reply && WaiterAt(s, k, j).id != w.id;
    }
    forall a | 0 <= a < |t.answers| ensures t.answers[a].reply !in t.cancelled {
      assert s.answers[a].reply != w.reply;
    }
  }

  lemma LeftForgetsNobody(s: State, h: string, e: Effect, gone: nat)
    requires WaitersOk(s) && h in s.claims && Left(s.claims[h], e, gone)
    ensures NobodyForgotten(Apply(s, h, e))
  {
    var t := Apply(s, h, e);
    assert t.answers == s.answers;
    assert PendingAt(s, h, gone) && Unsettled(s, h, WaiterAt(s, h, gone));
    forall r | r in t.accepted ensures Answered(t, r) || r in t.cancelled || Waiting(t, r) {
      if Waiting(s, r) && r !in t.cancelled {
        var k, j :| PendingAt(s, k, j) && WaiterAt(s, k, j).reply == r;
        LastHandleHasNoCompany(s, h, gone, k, j);
        var i := if k == h && j > gone then j - 1 else j;
        assert PendingAt(t, k, i) && WaiterAt(t, k, i) == WaiterAt(s, k, j);
      }
    }
  }

  lemma LeftHandles(s: State, h: string, e: Effect, gone: nat)
    requires WaitersOk(s) && h in s.claims && Left(s.claims[h], e, gone)
    ensures HandlesOk(Apply(s, h, e))
  {
    var t := Apply(s, h, e);
    var w := s.claims[h].pending[gone];
    assert PendingAt(s, h, gone) && Unsettled(s, h, WaiterAt(s, h, gone));
    forall k, id | k in t.claims && id in t.claims[k].refs
      ensures id in t.registrations && t.registrations[id] == k
    {
      assert id in s.claims[k].refs;
      assert s.registrations[w.id] == h;
    }
  }

  /** Where the waiter now at position i of claim k stood before waiter gone left claim h. */
  ghost function Before(h: string, gone: nat, k: string, i: int): int {
    if k == h && i >= gone then i + 1 else i
  }

  lemma LeftPendings(s: State, h: string, e: Effect, gone: nat)
    requires WaitersOk(s) && h in s.claims && Left(s.claims[h], e, gone)
    ensures var t := Apply(s, h, e);
            && Distinct(t)
            && forall k, i :: PendingAt(t, k, i) ==>
                 PendingAt(s, k, Before(h, gone, k, i)) && WaiterAt(t, k, i) == WaiterAt(s, k, Before(h, gone, k, i))
  {
    var t := Apply(s, h, e);
    forall k, i | PendingAt(t, k, i)
      ensures PendingAt(s, k, Before(h, gone, k, i)) && WaiterAt(t, k, i) == WaiterAt(s, k, Before(h, gone, k, i))
    {
    }
    forall k, i, l, j | PendingAt(t, k, i) && PendingAt(t, l, j) &&
      (WaiterAt(t, k, i).reply == WaiterAt(t, l, j).reply || WaiterAt(t, k, i).id == WaiterAt(t, l, j).id)
      ensures k == l && i == j
    {
      assert PendingAt(s, k, Before(h, gone, k, i)) && PendingAt(s, l, Before(h, gone, l, j));
    }
  }

  /** A claim with another waiter has another handle. */
  lemma LastHandleHasNoCompany(s: State, h: string, gone: nat, k: string, j: int)
    requires WaitersOk(s) && PendingAt(s, h, gone) && PendingAt(s, k, j) && (k != h || j != gone)
    ensures k == h ==> s.claims[h].refs - {WaiterAt(s, h, gone).id} != {}
  {
    if k == h {
      assert Unsettled(s, k, WaiterAt(s, k, j));
      assert WaiterAt(s, k, j).id in s.claims[h].refs - {WaiterAt(s, h, gone).id};
    }
  }

  lemma {:induction false} SweepKeeps(ours: Address, s: State, sweep: Sweep, order: seq<string>)
    requires WaitersOk(s)
    ensures WaitersOk(Fold(ours, s, sweep, order))
    decreases |order|
  {
    if order != [] {
      var t := Fold(ours, s, sweep, order[..|order| - 1]);
      var h := order[|order| - 1];
      SweepKeeps(ours, s, sweep, order[..|order| - 1]);
      if h in t.claims {
        TurnShaped(ours, t.claims[h], sweep);
        ShapedKeeps(t, h, EffectOf(ours, t.claims[h], sweep));
      }
    }
  }

  lemma ShapedKeeps(s: State, h: string, e: Effect)
    requires WaitersOk(s) && h in s.claims && Shaped(s.claims[h], e)
    ensures WaitersOk(Apply(s, h, e))
  {
    if Kept(s.claims[h], e) {
      KeptKeeps(s, h, e);
    } else if failure :| Settled(s.claims[h], e, failure) {
      SettledKeeps(s, h, e, failure);
    } else {
      var i :| Left(s.claims[h], e, i);
      LeftKeeps(s, h, e, i);
    }
  }

  // ------------------------------------------------------------ the arms

  /** The parts of the state that waiters and handles live in. */
  ghost predicate SameBooks(s: State, t: State) {
    && t.claims == s.claims && t.registrations == s.registrations && t.names.Keys == s.names.Keys
    && t.answers == s.answers && t.accepted == s.accepted && t.cancelled == s.cancelled
  }

  lemma SameBooksKeep(s: State, t: State)
    requires WaitersOk(s) && SameBooks(s, t)
    ensures WaitersOk(t)
  {
    assert forall h, i :: PendingAt(t, h, i) <==> PendingAt(s, h, i);
    forall h, i | PendingAt(t, h, i) ensures Unsettled(t, h, WaiterAt(t, h, i)) {
      assert Unsettled(s, h, WaiterAt(s, h, i));
    }
    forall r | r in t.accepted ensures Answered(t, r) || r in t.cancelled || Waiting(t, r) {
      if Waiting(s, r) {
        var k, i :| PendingAt(s, k, i) && WaiterAt(s, k, i).reply == r;
        assert PendingAt(t, k, i);
      }
    }
  }

  lemma SweepArmKeeps(ours: Address, s: State, start: State, sweep: Sweep, order: seq<string>, now: Time)
    requires WaitersOk(s) && SameBooks(s, start)
    ensures WaitersOk(Rearm(Fold(ours, start, sweep, order), now))
  {
    SameBooksKeep(s, start);
    SweepKeeps(ours, start, sweep, order);
    var t := Fold(ours, start, sweep, order);
    SameBooksKeep(t, Rearm(t, now));
  }

  lemma ReadyKeeps(s: State, now: Time, fits: bool)
    requires WaitersOk(s) && s.results != []
    ensures WaitersOk(OnReadiness(s, now, fits))
  {
    var r := s.results[0];
    var s1 := s.(results := s.results[1..], clock := now);
    SameBooksKeep(s, s1);
    if Awaited(s1, r) {
      var c := s1.claims[r.requested];
      if r.refusal.Some? || !fits {
        var failure := if r.refusal.Some? then Refused(r.refusal.value) else WriteQueueFull;
        SettledKeeps(s1, r.requested, Drop(c, failure), Some(failure));
      } else {
        var ready := c.(current := c.candidate, phase := Announcing, deadline := Some(now + SECOND));
        var effect := Keep(ready).(log := [Announced(c.requested, c.candidate, now)]);
        KeptKeeps(s1, r.requested, effect);
        var t := Apply(s1, r.requested, effect);
        assert forall id :: id in c.refs ==> id in s1.names;
        SameBooksKeep(t, OnReadiness(s, now, fits));
      }
    }
  }

  /** Answering a new register command at once. */
  lemma AnsweredAtOnce(s: State, t: State, reply: nat, outcome: Outcome)
    requires WaitersOk(s) && reply !in s.accepted
    requires t.accepted == s.accepted + {reply} && t.cancelled == s.cancelled
    requires t.answers == s.answers + [Answer(reply, outcome)]
    requires s.names.Keys <= t.names.Keys
    requires outcome.Registered? ==> outcome.id in t.names && outcome.id !in s.names
    requires forall h :: h in s.claims <==> h in t.claims
    requires forall h :: h in s.claims ==>
             t.claims[h].pending == s.claims[h].pending && s.claims[h].refs <= t.claims[h].refs
    ensures Distinct(t) && AllUnsettled(t) && AnswersOk(t) && NobodyForgotten(t)
  {
    assert forall h, i :: PendingAt(t, h, i) ==> PendingAt(s, h, i) && WaiterAt(t, h, i) == WaiterAt(s, h, i);
    forall h, i | PendingAt(t, h, i) ensures Unsettled(t, h, WaiterAt(t, h, i)) {
      assert Unsettled(s, h, WaiterAt(s, h, i));
    }
    assert t.answers[|s.answers|].reply == reply;
    forall r | r in t.accepted ensures Answered(t, r) || r in t.cancelled || Waiting(t, r) {
      if r == reply {
      } else if Answered(s, r) {
        var a :| 0 <= a < |s.answers| && s.answers[a].reply == r;
        assert t.answers[a].reply == r;
      } else if Waiting(s, r) {
        var k, i :| PendingAt(s, k, i) && WaiterAt(s, k, i).reply == r;
        assert PendingAt(t, k, i);
      }
    }
  }

  /** A new register command is taken into a claim's waiting list. */
  ghost predicate TakesIn(s: State, t: State, h: string, id: string, reply: nat) {
    && t.accepted == s.accepted + {reply} && t.cancelled == s.cancelled && t.answers == s.answers
    && id in t.names && s.names.Keys <= t.names.Keys
    && (forall k :: k in t.claims <==> k in s.claims || k == h)
    && (forall k :: k in s.claims && k != h ==> t.claims[k] == s.claims[k])
    && t.claims[h].pending == (if h in s.claims then s.claims[h].pending else []) + [Pending(id, reply)]
    && t.claims[h].refs == (if h in s.claims then s.claims[h].refs else {}) + {id}
  }

  lemma TakenInLast(s: State, t: State, h: string, id: string, reply: nat)
    requires TakesIn(s, t, h, id, reply)
    ensures var n := |t.claims[h].pending| - 1;
            && PendingAt(t, h, n) && WaiterAt(t, h, n) == Pending(id, reply)
            && (forall k, i :: PendingAt(t, k, i) && (k != h || i != n) ==>
                  PendingAt(s, k, i) && WaiterAt(t, k, i) == WaiterAt(s, k, i))
            && (forall k, i :: PendingAt(s, k, i) ==> PendingAt(t, k, i) && WaiterAt(t, k, i) == WaiterAt(s, k, i))
  {
  }

  lemma TakenInUnsettled(s: State, t: State, h: string, id: string, reply: nat)
    requires WaitersOk(s) && reply !in s.accepted && id !in s.names && TakesIn(s, t, h, id, reply)
    ensures Distinct(t) && AllUnsettled(t)
  {
    var n := |t.claims[h].pending| - 1;
    TakenInLast(s, t, h, id, reply);
    forall k, i | PendingAt(t, k, i) && (k != h || i != n) ensures Unsettled(s, k, WaiterAt(s, k, i)) {
    }
    forall k, i | PendingAt(t, k, i) ensures Unsettled(t, k, WaiterAt(t, k, i)) {
      if k != h || i != n {
        assert Unsettled(s, k, WaiterAt(s, k, i));
      }
    }
  }

  lemma TakenIn(s: State, t: State, h: string, id: string, reply: nat)
    requires WaitersOk(s) && reply !in s.accepted && id !in s.names && TakesIn(s, t, h, id, reply)
    ensures Distinct(t) && AllUnsettled(t) && AnswersOk(t) && NobodyForgotten(t)
  {
    TakenInUnsettled(s, t, h, id, reply);
    TakenInLast(s, t, h, id, reply);
    forall r | r in t.accepted ensures Answered(t, r) || r in t.cancelled || Waiting(t, r) {
      if r != reply && Waiting(s, r) {
        var k, i :| PendingAt(s, k, i) && WaiterAt(s, k, i).reply == r;
        assert PendingAt(t, k, i) && WaiterAt(t, k, i) == WaiterAt(s, k, i);
      }
    }
  }

  lemma RegisterKeeps(s: State, name: Result<string, NameError>, id: Option<string>, reply: nat, now: Time, delay: Time)
    requires WaitersOk(s) && reply !in s.accepted && (id.Some? ==> id.value !in s.names)
    ensures WaitersOk(Enrol(s, name, id, reply, now, delay))
  {
    if name.Err? || id.None? {
      AnsweredAtOnce(s, Enrol(s, name, id, reply, now, delay), reply,
                     Failed(if name.Err? then BadHostname(name.error) else NoIdentity));
    } else {
      JoiningKeepsBooks(s, name.value, id.value, reply, now, delay);
      JoiningKeepsHandles(s, name.value, id.value, reply, now, delay);
    }
  }

  lemma JoiningKeepsBooks(s: State, h: string, id: string, reply: nat, now: Time, delay: Time)
    requires WaitersOk(s) && reply !in s.accepted && id !in s.names
    ensures var t := Enrol(s, Ok(h), Some(id), reply, now, delay);
            Distinct(t) && AllUnsettled(t) && AnswersOk(t) && NobodyForgotten(t)
  {
    var t := Enrol(s, Ok(h), Some(id), reply, now, delay);
    if h in s.claims && s.claims[h].phase == Active {
      AnsweredAtOnce(s, t, reply, Registered(id));
    } else {
      TakenIn(s, t, h, id, reply);
    }
  }

  lemma JoiningKeepsHandles(s: State, h: string, id: string, reply: nat, now: Time, delay: Time)
    requires HandlesOk(s) && id !in s.names
    ensures HandlesOk(Enrol(s, Ok(h), Some(id), reply, now, delay))
  {
    var c := if h in s.claims then s.claims[h] else NewClaim(h, now, delay);
    JoinedHandles(s, Join(s, c, h, id, reply), h, id);
    EnrolledHandles(s, c, h, id, reply, now, delay);
  }

  lemma EnrolledHandles(s: State, c: Claim, h: string, id: string, reply: nat, now: Time, delay: Time)
    requires c == (if h in s.claims then s.claims[h] else NewClaim(h, now, delay))
             && HandlesOk(Join(s, c, h, id, reply))
    ensures HandlesOk(Enrol(s, Ok(h), Some(id), reply, now, delay))
  {
  }

  lemma JoinedHandles(s: State, t: State, h: string, id: string)
    requires HandlesOk(s) && id !in s.names
    requires t.registrations == s.registrations[id := h] && t.names.Keys == s.names.Keys + {id}
    requires forall k :: k in t.claims <==> k in s.claims || k == h
    requires forall k :: k in s.claims && k != h ==> t.claims[k] == s.claims[k]
    requires t.claims[h].requested == h && t.claims[h].refs == (if h in s.claims then s.claims[h].refs else {}) + {id}
    requires t.claims[h].phase == Active ==>
             h in s.claims && s.claims[h].phase == Active && t.claims[h].pending == s.claims[h].pending
    ensures HandlesOk(t)
  {
    forall k, other | k in t.claims && other in t.claims[k].refs
      ensures other in t.registrations && t.registrations[other] == k
    {
      if other != id || k != h {
        assert k in s.claims && other in s.claims[k].refs;
        assert s.registrations[other] == k && other in s.names;
      }
    }
  }

  lemma ReleasedHandles(s: State, id: string, now: Time)
    requires HandlesOk(s)
    ensures HandlesOk(OnRelease(s, id, now))
  {
  }

  lemma ReleasedPendings(s: State, id: string, now: Time)
    requires WaitersOk(s) && Delivered(s, id)
    ensures var t := OnRelease(s, id, now);
            && (t.answers == s.answers && t.accepted == s.accepted && t.cancelled == s.cancelled && t.names == s.names)
            && (forall h, i :: PendingAt(s, h, i) <==> PendingAt(t, h, i))
            && (forall h, i | PendingAt(s, h, i) ::
                  WaiterAt(t, h, i) == WaiterAt(s, h, i) && WaiterAt(t, h, i).id in t.claims[h].refs)
  {
    forall h, i | PendingAt(s, h, i) ensures WaiterAt(s, h, i).id in s.claims[h].refs - {id} {
      assert Unsettled(s, h, WaiterAt(s, h, i));
    }
  }

  lemma ReleaseKeeps(s: State, id: string, now: Time)
    requires WaitersOk(s) && Delivered(s, id)
    ensures WaitersOk(OnRelease(s, id, now))
  {
    ReleasedHandles(s, id, now);
    ReleasedPendings(s, id, now);
    SamePendingsKeep(s, OnRelease(s, id, now));
  }

  lemma SamePendingsKeep(s: State, t: State)
    requires WaitersOk(s)
    requires t.answers == s.answers && t.accepted == s.accepted && t.cancelled == s.cancelled && t.names == s.names
    requires forall h, i :: PendingAt(s, h, i) <==> PendingAt(t, h, i)
    requires forall h, i | PendingAt(s, h, i) ::
               WaiterAt(t, h, i) == WaiterAt(s, h, i) && WaiterAt(t, h, i).id in t.claims[h].refs
    ensures Distinct(t) && AllUnsettled(t) && AnswersOk(t) && NobodyForgotten(t)
  {
    forall h, i | PendingAt(t, h, i) ensures Unsettled(t, h, WaiterAt(t, h, i)) {
      assert Unsettled(s, h, WaiterAt(s, h, i));
    }
    forall r | r in t.accepted ensures Answered(t, r) || r in t.cancelled || Waiting(t, r) {
      if Waiting(s, r) {
        var k, i :| PendingAt(s, k, i) && WaiterAt(s, k, i).reply == r;
        assert PendingAt(t, k, i);
      }
    }
  }

  lemma StepKeepsWaiters(ours: Address, s: State, e: Event)
    requires WaitersOk(s) && Enabled(s, e)
    ensures WaitersOk(Next(ours, s, e))
  {
    match e
    case Inbound(msg, now, delays, order) =>
      SweepArmKeeps(ours, s, s.(log := s.log + [Heard(msg, now)], clock := now), OnPacket(msg, now, delays), order,
                    now);
    case Tick(now, room, order) =>
      SweepArmKeeps(ours, s, s.(clock := now), OnTick(now, room), order, now);
    case Cancel(reply, now, order) =>
      SweepArmKeeps(ours, s, s.(clock := now), OnCancel(reply), order, now);
    case Ready(now, fits) => ReadyKeeps(s, now, fits);
    case Register(raw, id, reply, now, delay) =>
      RegisterKeeps(s, CanonicalHostname(raw), id, reply, now, delay);
    case Release(id, now) => ReleaseKeeps(s, id, now);
    case Take => SameBooksKeep(s, OnTake(s));
    case Deliver(refusal) => SameBooksKeep(s, OnDeliver(s, refusal));
  }

  lemma {:induction false} RunKeepsWaiters(ours: Address, states: seq<State>, events: seq<Event>, i: nat)
    requires IsRun(ours, states, events) && i < |states|
    ensures WaitersOk(states[i])
  {
    if i > 0 {
      RunKeepsWaiters(ours, states, events, i - 1);
      assert IsStep(ours, states, events, i - 1);
      StepKeepsWaiters(ours, states[i - 1], events[i - 1]);
    }
  }

  // ------------------------------------------------------------ theorems

  /** Register waiters are conserved: in every state of every run each accepted
      register command is in exactly one of three places, in one place only. (An
      answer sent twice would block the actor: reply channels hold one.) */
  lemma WaitersAreConserved(ours: Address, states: seq<State>, events: seq<Event>, i: nat, reply: nat)
    requires IsRun(ours, states, events) && i < |states|
    ensures var s := states[i];
            && (reply in s.accepted <==> Answered(s, reply) || reply in s.cancelled || Waiting(s, reply))
            && !(Answered(s, reply) && reply in s.cancelled)
            && !(Answered(s, reply) && Waiting(s, reply))
            && !(reply in s.cancelled && Waiting(s, reply))
            && (forall a, b :: 0 <= a < b < |s.answers| ==> s.answers[a].reply != s.answers[b].reply)
            && (forall h, m, k, j | PendingAt(s, h, m) && PendingAt(s, k, j) ::
                  WaiterAt(s, h, m).reply == WaiterAt(s, k, j).reply ==> h == k && m == j)
  {
    RunKeepsWaiters(ours, states, events, i);
    var s := states[i];
    if Waiting(s, reply) {
      var h, m :| PendingAt(s, h, m) && WaiterAt(s, h, m).reply == reply;
      assert Unsettled(s, h, WaiterAt(s, h, m));
    }
  }

  /** Every stored claim has a handle, its waiters hold handles of it, and each of
      its handles is registered under its name. */
  lemma HandlesBelongToClaims(ours: Address, states: seq<State>, events: seq<Event>, i: nat, h: string)
    requires IsRun(ours, states, events) && i < |states| && h in states[i].claims
    ensures var s := states[i]; var c := s.claims[h];
            && c.refs != {}
            && (forall w :: w in c.pending ==> w.id in c.refs)
            && (forall id :: id in c.refs ==> id in s.registrations && s.registrations[id] == h)
            && (c.phase == Active ==> c.pending == [])
  {
    RunKeepsWaiters(ours, states, events, i);
    var s := states[i];
    forall w | w in s.claims[h].pending ensures w.id in s.claims[h].refs {
      var m :| 0 <= m < |s.claims[h].pending| && s.claims[h].pending[m] == w;
      assert PendingAt(s, h, m) && Unsettled(s, h, WaiterAt(s, h, m));
    }
  }

  /** Only cancelling its own reply channel takes a waiter back. */
  lemma {:induction false} SweepCancels(ours: Address, s: State, sweep: Sweep, order: seq<string>)
    ensures Fold(ours, s, sweep, order).cancelled <=
            s.cancelled + if sweep.OnCancel? then {sweep.reply} else {}
    decreases |order|
  {
    if order != [] {
      var t := Fold(ours, s, sweep, order[..|order| - 1]);
      var h := order[|order| - 1];
      SweepCancels(ours, s, sweep, order[..|order| - 1]);
      if h in t.claims && sweep.OnPacket? {
        var c := t.claims[h];
        VerdictCancelsNothing(c, ConflictsWith(sweep.msg, c.current, ours), Loses(ours, sweep.msg, c.candidate),
                              NextConflictHostname(c.candidate), sweep.now, DelayOf(sweep.delays, c.requested));
      }
    }
  }

  lemma VerdictCancelsNothing(c: Claim, clash: bool, lost: bool, next: Result<string, NameError>, now: Time,
                              delay: Time)
    ensures Verdict(c, clash, lost, next, now, delay).cancelled == {}
  {
  }

  lemma StepCancels(ours: Address, s: State, e: Event, reply: nat)
    requires Enabled(s, e) && reply in Next(ours, s, e).cancelled && reply !in s.cancelled
    ensures e.Cancel? && e.reply == reply
  {
    match e
    case Inbound(msg, now, delays, order) =>
      SweepCancels(ours, s.(log := s.log + [Heard(msg, now)], clock := now), OnPacket(msg, now, delays), order);
    case Tick(now, room, order) => SweepCancels(ours, s.(clock := now), OnTick(now, room), order);
    case Cancel(r, now, order) => SweepCancels(ours, s.(clock := now), OnCancel(r), order);
    case Register(raw, id, r, now, delay) =>
      RegisterCancelsNothing(s, CanonicalHostname(raw), id, r, now, delay);
    case _ =>
  }

  lemma RegisterCancelsNothing(s: State, name: Result<string, NameError>, id: Option<string>, reply: nat, now: Time,
                               delay: Time)
    ensures Enrol(s, name, id, reply, now, delay).cancelled == s.cancelled
    ensures Enrol(s, name, id, reply, now, delay).accepted == s.accepted + {reply}
  {
  }

  lemma {:induction false} SweepAccepts(ours: Address, s: State, sweep: Sweep, order: seq<string>)
    ensures Fold(ours, s, sweep, order).accepted == s.accepted
    decreases |order|
  {
    if order != [] {
      SweepAccepts(ours, s, sweep, order[..|order| - 1]);
    }
  }

  lemma StepAccepts(ours: Address, s: State, e: Event)
    requires Enabled(s, e)
    ensures s.accepted <= Next(ours, s, e).accepted
  {
    match e
    case Inbound(msg, now, delays, order) =>
      SweepAccepts(ours, s.(log := s.log + [Heard(msg, now)], clock := now), OnPacket(msg, now, delays), order);
    case Tick(now, room, order) => SweepAccepts(ours, s.(clock := now), OnTick(now, room), order);
    case Cancel(r, now, order) => SweepAccepts(ours, s.(clock := now), OnCancel(r), order);
    case Register(raw, id, r, now, delay) =>
      RegisterCancelsNothing(s, CanonicalHostname(raw), id, r, now, delay);
    case _ =>
  }

  /** No claim is deleted with an unanswered waiter: a waiter that stops waiting in
      a step has been answered in that step, unless the step cancelled it. */
  lemma NoWaiterIsDropped(ours: Address, s: State, e: Event, reply: nat)
    requires WaitersOk(s) && Enabled(s, e)
    requires Waiting(s, reply) && !Waiting(Next(ours, s, e), reply)
    ensures var t := Next(ours, s, e);
            Answered(t, reply) || (e.Cancel? && e.reply == reply)
  {
    var h, i :| PendingAt(s, h, i) && WaiterAt(s, h, i).reply == reply;
    assert Unsettled(s, h, WaiterAt(s, h, i));
    StepAccepts(ours, s, e);
    StepKeepsWaiters(ours, s, e);
    if reply in Next(ours, s, e).cancelled {
      StepCancels(ours, s, e, reply);
    }
  }

  /** Releasing a handle deletes its claim only when it was the claim's last one; a
      handle of a claim that is gone leaves a newer claim of the same name alone. */
  lemma ReleaseTouchesOwnClaimOnly(s: State, id: string, now: Time, h: string)
    requires WaitersOk(s) && h in s.claims
    ensures var t := OnRelease(s, id, now);
            && (h in t.claims <==> s.claims[h].refs != {id})
            && (h in t.claims ==> t.claims[h] == s.claims[h].(refs := s.claims[h].refs - {id}))
  {
    assert id !in s.claims[h].refs ==> s.claims[h].refs - {id} == s.claims[h].refs;
    assert s.claims[h] == s.claims[h].(refs := s.claims[h].refs);
    assert s.claims[h].refs - {id} == {} ==> s.claims[h].refs == {id};
  }
}
