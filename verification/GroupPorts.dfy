/** Choosing ports for the services of a group (prepareDistinctGroupPlans of
    internal/app/run.go). */
module GroupPorts {
  import opened Common

  const MAX_ATTEMPTS: nat := 8

  datatype Plan = Plan(port: int, fixed: bool)

  /** What preparing the i-th service for the k-th time yields; None: an error. */
  type Prepare = (nat, nat) -> Option<Plan>

  datatype PortError = PrepareFailed(i: nat) | NoDistinctPort(i: nat)

  /** The ports that were fixed when each service was first prepared. */
  ghost function FixedPorts(prepare: Prepare, n: nat): set<int> {
    set i: nat | i < n && prepare(i, 0).Some? && prepare(i, 0).value.fixed :: prepare(i, 0).value.port
  }

  ghost predicate IsAuto(prepare: Prepare, i: nat) {
    prepare(i, 0).Some? && !prepare(i, 0).value.fixed
  }

  /** The plan is the first answer for its service whose port is not taken. */
  ghost predicate IsFirstFree(prepare: Prepare, i: nat, plan: Plan, taken: set<int>) {
    exists k: nat :: k < MAX_ATTEMPTS && prepare(i, k) == Some(plan) && plan.port !in taken
                     && forall m: nat :: m < k ==> prepare(i, m).Some? && prepare(i, m).value.port in taken
  }

  /** All eight answers for the service have ports that are taken. */
  ghost predicate AllTaken(prepare: Prepare, i: nat, taken: set<int>) {
    forall k: nat :: k < MAX_ATTEMPTS ==> prepare(i, k).Some? && prepare(i, k).value.port in taken
  }

  /** The ports taken for the i-th service: the fixed ones, and those accepted before. */
  ghost function Taken(prepare: Prepare, plans: seq<Plan>, i: nat, fixedPorts: set<int>): set<int>
    requires i <= |plans|
  {
    fixedPorts + AutoPorts(prepare, plans, i)
  }

  /** The plans of the first n services: the first answer for a fixed port, else the first
      answer whose port was not taken. */
  ghost predicate Chosen(prepare: Prepare, plans: seq<Plan>, n: nat, fixedPorts: set<int>) {
    n <= |plans| && forall i: nat :: i < n ==>
      if IsAuto(prepare, i) then IsFirstFree(prepare, i, plans[i], Taken(prepare, plans, i, fixedPorts))
      else prepare(i, 0) == Some(plans[i])
  }

  lemma OneMoreChosen(prepare: Prepare, plans: seq<Plan>, i: nat, plan: Plan, fixedPorts: set<int>)
    requires i < |plans| && Chosen(prepare, plans, i, fixedPorts)
    requires if IsAuto(prepare, i) then IsFirstFree(prepare, i, plan, Taken(prepare, plans, i, fixedPorts))
             else prepare(i, 0) == Some(plan)
    ensures Chosen(prepare, plans[i := plan], i + 1, fixedPorts)
  {
    var next := plans[i := plan];
    forall k: nat | k <= i ensures AutoPorts(prepare, next, k) == AutoPorts(prepare, plans, k) {
      assert forall m: nat :: m < k ==> next[m] == plans[m];
    }
  }

  /** The first n services have distinct automatic ports, which are not fixed ports. */
  ghost predicate AutoDistinct(prepare: Prepare, plans: seq<Plan>, n: nat, fixedPorts: set<int>)
    requires n <= |plans|
  {
    && (forall i: nat :: i < n && IsAuto(prepare, i) ==> plans[i].port !in fixedPorts)
    && (forall i: nat, j: nat :: i < j < n && IsAuto(prepare, i) && IsAuto(prepare, j) ==>
        plans[i].port != plans[j].port)
  }

  ghost function AutoPorts(prepare: Prepare, plans: seq<Plan>, n: nat): set<int>
    requires n <= |plans|
  {
    set i: nat | i < n && IsAuto(prepare, i) :: plans[i].port
  }

  lemma OneMoreAuto(prepare: Prepare, plans: seq<Plan>, i: nat, plan: Plan)
    requires i < |plans|
    ensures AutoPorts(prepare, plans[i := plan], i + 1)
            == AutoPorts(prepare, plans, i) + if IsAuto(prepare, i) then {plan.port} else {}
  {
    var next := plans[i := plan];
    forall port | port in AutoPorts(prepare, plans, i) ensures port in AutoPorts(prepare, next, i + 1) {
      var k: nat :| k < i && IsAuto(prepare, k) && plans[k].port == port;
      assert next[k].port == port;
    }
    assert next[i].port == plan.port;
    assert forall k: nat :: k < i ==> next[k] == plans[k];
  }

  method PrepareFirst(prepare: Prepare, count: nat) returns (r: Result<seq<Plan>, PortError>, fixedPorts: set<int>)
    ensures r.Ok? ==> |r.value| == count && forall i: nat :: i < count ==> prepare(i, 0) == Some(r.value[i])
    ensures r.Ok? ==> fixedPorts == FixedPorts(prepare, count)
    ensures r.Err? ==> r.error.PrepareFailed? && r.error.i < count && prepare(r.error.i, 0).None?
  {
    var plans := [];
    fixedPorts := {};
    for i := 0 to count
      invariant |plans| == i && forall k: nat :: k < i ==> prepare(k, 0) == Some(plans[k])
      invariant fixedPorts == FixedPorts(prepare, i)
    {
      var plan := prepare(i, 0);
      if plan.None? {
        return Err(PrepareFailed(i)), fixedPorts;
      }
      plans := plans + [plan.value];
      if plan.value.fixed {
        fixedPorts := fixedPorts + {plan.value.port};
      }
      assert FixedPorts(prepare, i + 1) == FixedPorts(prepare, i) + if plan.value.fixed then {plan.value.port} else {};
    }
    return Ok(plans), fixedPorts;
  }

  /** The first answer for the service whose port is not taken; taken: the fixed ports and
      those of the automatic services before it. */
  method ChoosePort(prepare: Prepare, i: nat, first: Plan, taken: set<int>) returns (r: Result<Plan, PortError>)
    requires prepare(i, 0) == Some(first)
    ensures r.Ok? ==> IsFirstFree(prepare, i, r.value, taken)
    ensures r == Err(NoDistinctPort(i)) ==> AllTaken(prepare, i, taken)
    ensures r == Err(PrepareFailed(i)) ==> exists k: nat :: k < MAX_ATTEMPTS && prepare(i, k).None?
    ensures r.Err? ==> r.error == NoDistinctPort(i) || r.error == PrepareFailed(i)
  {
    var plan := first;
    var attempts := 1;
    while plan.port in taken
      invariant 1 <= attempts <= MAX_ATTEMPTS && prepare(i, attempts - 1) == Some(plan)
      invariant forall m: nat :: m < attempts - 1 ==> prepare(i, m).Some? && prepare(i, m).value.port in taken
      decreases MAX_ATTEMPTS - attempts
    {
      if attempts >= MAX_ATTEMPTS {
        return Err(NoDistinctPort(i));
      }
      var next := prepare(i, attempts);
      if next.None? {
        return Err(PrepareFailed(i));
      }
      plan := next.value;
      attempts := attempts + 1;
    }
    return Ok(plan);
  }

  /** On success every service whose port is not fixed has the first one offered that no
      automatic service before it and no fixed service has; a failure is the environment's,
      or eight answers for one service all had ports taken so. */
  method PrepareDistinctGroupPlans(prepare: Prepare, count: nat) returns (r: Result<seq<Plan>, PortError>)
    ensures r.Ok? ==> |r.value| == count && AutoDistinct(prepare, r.value, count, FixedPorts(prepare, count))
    ensures r.Ok? ==> Chosen(prepare, r.value, count, FixedPorts(prepare, count))
    ensures r.Err? && r.error.PrepareFailed? ==> exists k: nat :: k < MAX_ATTEMPTS && prepare(r.error.i, k).None?
    ensures r.Err? && r.error.NoDistinctPort? ==>
              exists plans ::
                && r.error.i < count == |plans| && Chosen(prepare, plans, r.error.i, FixedPorts(prepare, count))
                && IsAuto(prepare, r.error.i)
                && AllTaken(prepare, r.error.i, Taken(prepare, plans, r.error.i, FixedPorts(prepare, count)))
  {
    var first, fixedPorts := PrepareFirst(prepare, count);
    if first.Err? {
      return Err(first.error);
    }
    var plans := first.value;
    var accepted: set<int> := {};
    for i := 0 to count
      invariant |plans| == count && AutoDistinct(prepare, plans, i, fixedPorts)
      invariant Chosen(prepare, plans, i, fixedPorts)
      invariant forall k: nat :: i <= k < count ==> prepare(k, 0) == Some(plans[k])
      invariant accepted == AutoPorts(prepare, plans, i)
    {
      if plans[i].fixed {
        OneMoreChosen(prepare, plans, i, plans[i], fixedPorts);
        OneMoreAuto(prepare, plans, i, plans[i]);
        assert plans[i := plans[i]] == plans;
        continue;
      }
      var chosen := ChoosePort(prepare, i, plans[i], fixedPorts + accepted);
      if chosen.Err? {
        return Err(chosen.error);
      }
      OneMoreChosen(prepare, plans, i, chosen.value, fixedPorts);
      OneMoreAuto(prepare, plans, i, chosen.value);
      plans := plans[i := chosen.value];
      accepted := accepted + {chosen.value.port};
    }
    return Ok(plans);
  }
}
