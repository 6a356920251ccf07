/** The limit on failed trust downloads (rateLimitedLANTrust and ClearLANTrust of
    internal/router/lan_trust.go). */
module RateLimiter {
  import opened Common

  const LIMIT: nat := 20
  const WINDOW: Time := MINUTE

  datatype Attempt = Attempt(window: Time, count: nat)

  /** What an attempt leaves, and whether it is turned away. */
  function Try(attempts: map<string, Attempt>, client: string, now: Time): (map<string, Attempt>, bool) {
    var attempt := if client in attempts && now - attempts[client].window < WINDOW then attempts[client]
        else Attempt(now, 0);
    if attempt.count >= LIMIT then (attempts, true)
    else (attempts[client := attempt.(count := attempt.count + 1)], false)
  }

  class LanTrust {
    var attempts: map<string, Attempt>

    constructor ()
      ensures attempts == map[]
    {
      attempts := map[];
    }

    method RateLimited(client: string, now: Time) returns (limited: bool)
      modifies this
      ensures (attempts, limited) == Try(old(attempts), client, now)
    {
      var attempt := Attempt(now, 0);
      if client in attempts {
        attempt := attempts[client];
        if now - attempt.window >= WINDOW {
          attempt := Attempt(now, 0);
        }
      }
      if attempt.count >= LIMIT {
        return true;
      }
      attempt := attempt.(count := attempt.count + 1);
      attempts := attempts[client := attempt];
      return false;
    }

    /** ClearLANTrust without tokens. */
    method ClearAll()
      modifies this
      ensures attempts == map[]
    {
      attempts := map[];
    }
  }

  // ------------------------------------------------------------ runs

  datatype Op = Fail(client: string, now: Time) | Clear(now: Time)

  function Run(ops: seq<Op>): map<string, Attempt> {
    if ops == [] then map[]
    else
      var before, last := Run(ops[..|ops| - 1]), ops[|ops| - 1];
      if last.Clear? then map[] else Try(before, last.client, last.now).0
  }

  /** The client's attempts at from or later, but before until, that were not turned away. */
  function Admitted(ops: seq<Op>, client: string, from: Time, until: Time): nat {
    if ops == [] then 0
    else
      var front, last := ops[..|ops| - 1], ops[|ops| - 1];
      Admitted(front, client, from, until)
      + if last.Fail? && last.client == client && from <= last.now < until && !Try(Run(front), client, last.now).1
          then 1 else 0
  }

  ghost predicate Monotone(ops: seq<Op>) {
    forall i, j :: 0 <= i < j < |ops| ==> ops[i].now <= ops[j].now
  }

  /** Where the client stands at the time last. */
  ghost predicate Bounded(a: map<string, Attempt>, client: string, last: Time, from: Time, admitted: nat) {
    && admitted <= 2 * LIMIT - 1
    && (from > last ==> admitted == 0)
    && (client !in a ==> admitted == 0 || last >= from + WINDOW)
    && (client in a ==>
          var w, c := a[client].window, a[client].count;
          && w <= last && 1 <= c <= LIMIT
          && (from > w ==> admitted <= c - 1)
          && (from <= w < from + WINDOW ==> admitted <= LIMIT - 1 + c))
  }

  lemma StepIsBounded(a: map<string, Attempt>, client: string, last: Time, from: Time, admitted: nat, op: Op)
    requires Bounded(a, client, last, from, admitted) && last <= op.now
    requires op.Clear? ==> !(from <= op.now < from + WINDOW)
    ensures var more := if op.Fail? && op.client == client && from <= op.now < from + WINDOW
            && !Try(a, client, op.now).1 then 1 else 0;
            Bounded(if op.Clear? then map[] else Try(a, op.client, op.now).0, client, op.now, from, admitted + more)
  {
  }

  lemma {:induction false} RunIsBounded(ops: seq<Op>, client: string, from: Time)
    requires Monotone(ops) && ops != []
    requires forall i :: 0 <= i < |ops| && ops[i].Clear? ==> !(from <= ops[i].now < from + WINDOW)
    ensures Bounded(Run(ops), client, ops[|ops| - 1].now, from, Admitted(ops, client, from, from + WINDOW))
  {
    var front, last := ops[..|ops| - 1], ops[|ops| - 1];
    if front == [] {
      StepIsBounded(map[], client, if last.now < from then last.now else from - 1, from, 0, last);
    } else {
      RunIsBounded(front, client, from);
      StepIsBounded(Run(front), client, front[|front| - 1].now, from, Admitted(front, client, from, from + WINDOW),
                    last);
    }
  }

  /** On a monotone clock no half-open minute sees more than 39 attempts of a client that
      are not turned away, unless all attempts are forgotten within it: a second window
      begins a minute after the first attempt of the one before. */
  lemma AtMost39AMinute(ops: seq<Op>, client: string, from: Time)
    requires Monotone(ops)
    requires forall i :: 0 <= i < |ops| && ops[i].Clear? ==> !(from <= ops[i].now < from + WINDOW)
    ensures Admitted(ops, client, from, from + WINDOW) <= 39
  {
    if ops != [] {
      RunIsBounded(ops, client, from);
    }
  }

  function Repeated(client: string, now: Time, n: nat): (r: seq<Op>)
    ensures |r| == n && forall i :: 0 <= i < n ==> r[i] == Fail(client, now)
  {
    seq(n, i => Fail(client, now))
  }

  /** The client's window is w with c attempts so far, or a new one begins now. */
  ghost predicate Has(ops: seq<Op>, client: string, now: Time, w: Time, c: nat) {
    if c == 0 then w == now && (client !in Run(ops) || now - Run(ops)[client].window >= WINDOW)
    else client in Run(ops) && Run(ops)[client] == Attempt(w, c) && now - w < WINDOW
  }

  lemma OneIsAdmitted(ops: seq<Op>, client: string, now: Time, from: Time, w: Time, c: nat)
    requires c < LIMIT && from <= now < from + WINDOW && Has(ops, client, now, w, c)
    ensures Admitted(ops + [Fail(client, now)], client, from, from + WINDOW)
            == Admitted(ops, client, from, from + WINDOW) + 1
    ensures Has(ops + [Fail(client, now)], client, now, w, c + 1)
  {
    assert (ops + [Fail(client, now)])[..|ops|] == ops;
  }

  lemma {:induction false} RepeatedAreAdmitted(ops: seq<Op>, client: string, now: Time, n: nat, from: Time, w: Time,
                                               c: nat)
    requires c + n <= LIMIT && from <= now < from + WINDOW && Has(ops, client, now, w, c)
    ensures var all := ops + Repeated(client, now, n);
            && Admitted(all, client, from, from + WINDOW) == Admitted(ops, client, from, from + WINDOW) + n
            && Has(all, client, now, w, c + n)
  {
    if n == 0 {
      assert ops + Repeated(client, now, 0) == ops;
    } else {
      RepeatedAreAdmitted(ops, client, now, n - 1, from, w, c);
      OneIsAdmitted(ops + Repeated(client, now, n - 1), client, now, from, w, c + n - 1);
      assert ops + Repeated(client, now, n) == ops + Repeated(client, now, n - 1) + [Fail(client, now)];
    }
  }

  /** The bound is reached: one attempt, 19 more at the end of its window, and 20 right
      after. */
  lemma BoundIsReached(client: string) returns (ops: seq<Op>, from: Time)
    ensures Monotone(ops) && (forall i :: 0 <= i < |ops| ==> ops[i].Fail?)
    ensures Admitted(ops, client, from, from + WINDOW) == 39
  {
    var late := WINDOW - SECOND;
    from := late;
    var first := [Fail(client, 0)];
    assert first[..0] == [];
    assert Run(first)[client] == Attempt(0, 1) && Admitted(first, client, late, late + WINDOW) == 0;
    RepeatedAreAdmitted(first, client, late, 19, late, 0, 1);
    var second := first + Repeated(client, late, 19);
    RepeatedAreAdmitted(second, client, WINDOW, 20, late, WINDOW, 0);
    ops := second + Repeated(client, WINDOW, 20);
  }
}
