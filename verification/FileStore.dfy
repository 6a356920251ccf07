/** The file store's read and replace protocol (internal/router/router.go): any number
    of processes load and update one file, one atomic file-system step at a time. On
    Windows the file is replaced by renaming it aside and then renaming the new one in;
    an unlocked reader that finds nothing looks again under the lock. */
module FileStore {
  import opened Common

  /** What a routes file holds: the JSON text "null", which decodes to no routes at all,
      or the text of some routes. */
  datatype Stored = Null | Data(routes: Text)

  type File = Option<Stored>

  /** The routes a load takes from the file; None also if there is no file. */
  function Decode(file: File): Option<Text> {
    if file.Some? && file.value.Data? then Some(file.value.routes) else None
  }

  /** What an update makes of the routes it loaded; None: it fails, or the new file
      cannot be written. */
  type Update = Option<Text> -> Option<Stored>

  /** Where a process stands in Load or Update. from: the last commit when Load began. */
  datatype Proc =
    | Idle
    | Reading(from: nat)
    | Retrying(from: nat)
    | Rereading(from: nat)
    | Reread(from: nat, result: Option<Text>)
    | Loaded(from: nat, result: Option<Text>)
    | Waiting(update: Update)
    | Updating(update: Update)
    | Prepared(update: Update, next: Stored)
    | Aside(update: Update, next: Stored, backup: File)
    | RollingBack(backup: File)
    | Replaced
    | Failing
    | Done(ok: bool, committed: bool)

  /** history: the contents committed so far, the first being those at the outset;
      updates: what made each from the one before. stranded: a file renamed aside was
      never renamed back. */
  datatype State = State(
    windows: bool, file: File, lock: Option<nat>, procs: map<nat, Proc>,
    history: seq<File>, updates: seq<Update>, stranded: bool)

  datatype Event =
    | StartLoad(p: nat)
    | ReadUnlocked(p: nat)
    | Lock(p: nat)
    | LockFails(p: nat)
    | ReadLocked(p: nat)
    | EndLoad(p: nat)
    | StartUpdate(p: nat, update: Update)
    | LoadForUpdate(p: nat)
    | MoveAside(p: nat, ok: bool)
    | MoveIn(p: nat, ok: bool)
    | RollBack(p: nat, ok: bool)
    | EndUpdate(p: nat, chmod: bool)
    | Crash(p: nat)

  function At(s: State, p: nat): Proc {
    if p in s.procs then s.procs[p] else Idle
  }

  predicate Holding(c: Proc) {
    c.Rereading? || c.Reread? || c.Updating? || c.Prepared? || c.Aside? || c.RollingBack? || c.Replaced? || c.Failing?
  }

  predicate Resting(c: Proc) {
    c.Idle? || c.Loaded? || c.Done?
  }

  ghost function Current(s: State): File
    requires s.history != []
  {
    s.history[|s.history| - 1]
  }

  predicate Enabled(s: State, e: Event) {
    match e
    case StartLoad(p) => Resting(At(s, p))
    case ReadUnlocked(p) => At(s, p).Reading?
    case Lock(p) => s.lock.None? && (At(s, p).Retrying? || At(s, p).Waiting?)
    case LockFails(p) => At(s, p).Retrying? || At(s, p).Waiting?
    case ReadLocked(p) => At(s, p).Rereading?
    case EndLoad(p) => At(s, p).Reread?
    case StartUpdate(p, update) => Resting(At(s, p))
    case LoadForUpdate(p) => At(s, p).Updating?
    case MoveAside(p, ok) => s.windows && At(s, p).Prepared?
    case MoveIn(p, ok) => if s.windows then At(s, p).Aside? else At(s, p).Prepared?
    case RollBack(p, ok) => At(s, p).RollingBack?
    case EndUpdate(p, chmod) => At(s, p).Replaced? || At(s, p).Failing?
    case Crash(p) => Holding(At(s, p))
  }

  function Moved(s: State, p: nat, c: Proc): State {
    s.(procs := s.procs[p := c])
  }

  function Released(s: State, p: nat, c: Proc): State {
    Moved(s, p, c).(lock := None)
  }

  /** The rename that brings the new file in. */
  function Commit(s: State, p: nat, update: Update, next: Stored): State {
    Moved(s, p, Replaced).(file := Some(next), history := s.history + [Some(next)], updates := s.updates + [update])
  }

  function Apply(s: State, e: Event): State
    requires Enabled(s, e) && s.history != []
  {
    var c := At(s, e.p);
    match e
    case StartLoad(p) => Moved(s, p, Reading(|s.history| - 1))
    case ReadUnlocked(p) =>
      if Decode(s.file).Some? then Moved(s, p, Loaded(c.from, Decode(s.file))) else Moved(s, p, Retrying(c.from))
    case Lock(p) => Moved(s, p, if c.Retrying? then Rereading(c.from) else Updating(c.update)).(lock := Some(p))
    case LockFails(p) => Moved(s, p, if c.Retrying? then Idle else Done(false, false))
    case ReadLocked(p) => Moved(s, p, Reread(c.from, Decode(s.file)))
    case EndLoad(p) => Released(s, p, Loaded(c.from, c.result))
    case StartUpdate(p, update) => Moved(s, p, Waiting(update))
    case LoadForUpdate(p) =>
      var next := c.update(Decode(s.file));
      Moved(s, p, if next.Some? then Prepared(c.update, next.value) else Failing)
    case MoveAside(p, ok) =>
      if s.file.None? then Moved(s, p, Aside(c.update, c.next, None))
      else if ok then Moved(s, p, Aside(c.update, c.next, s.file)).(file := None)
      else Moved(s, p, Failing)
    case MoveIn(p, ok) =>
      if ok then Commit(s, p, c.update, c.next)
      else if c.Aside? && c.backup.Some? then Moved(s, p, RollingBack(c.backup))
      else Moved(s, p, Failing)
    case RollBack(p, ok) =>
      if ok then Moved(s, p, Failing).(file := c.backup) else Moved(s, p, Failing).(stranded := true)
    case EndUpdate(p, chmod) => Released(s, p, Done(c.Replaced? && chmod, c.Replaced?))
    case Crash(p) =>
      var lost := (c.Aside? && c.backup.Some?) || c.RollingBack?;
      Released(s, p, Idle).(stranded := s.stranded || lost)
  }

  // ------------------------------------------------------------ invariant

  /** The file has been renamed aside and nothing is in its place yet. */
  predicate Swapping(c: Proc) {
    c.Aside? || c.RollingBack?
  }

  predicate IsLoading(c: Proc) {
    c.Reading? || c.Retrying? || c.Rereading? || c.Reread? || c.Loaded?
  }

  /** The result was the committed contents at some moment since the load began. */
  ghost predicate Seen(history: seq<File>, from: nat, result: Option<Text>) {
    exists k :: from <= k < |history| && Decode(history[k]) == result
  }

  ghost predicate LoadOk(history: seq<File>, c: Proc) {
    && (IsLoading(c) ==> c.from < |history|)
    && (c.Reread? || c.Loaded? ==> Seen(history, c.from, c.result))
  }

  ghost predicate UpdateOk(current: File, c: Proc) {
    && (c.Prepared? || c.Aside? ==> c.update(Decode(current)) == Some(c.next))
    && (Swapping(c) ==> c.backup == current)
  }

  ghost predicate LockOk(s: State) {
    forall p: nat :: Holding(At(s, p)) <==> s.lock == Some(p)
  }

  /** The file is what was committed last, but for a swap under way. */
  ghost predicate FileOk(s: State)
    requires s.history != []
  {
    s.file == if s.lock.Some? && Swapping(At(s, s.lock.value)) then None else Current(s)
  }

  /** Each contents was made by one update from the contents right before it. */
  ghost predicate IsSerial(history: seq<File>, updates: seq<Update>) {
    && |history| == |updates| + 1
    && forall k :: 0 <= k < |updates| ==> updates[k](Decode(history[k])) == history[k + 1]
  }

  ghost predicate Intact(s: State)
    requires s.history != []
  {
    && FileOk(s) && IsSerial(s.history, s.updates)
    && (forall p :: p in s.procs ==> LoadOk(s.history, s.procs[p]))
    && (s.lock.Some? ==> UpdateOk(Current(s), At(s, s.lock.value)))
  }

  ghost predicate Inv(s: State) {
    s.history != [] && LockOk(s) && (!s.stranded ==> Intact(s))
  }

  predicate TakesOrLeavesLock(e: Event) {
    e.Lock? || e.EndLoad? || e.EndUpdate? || e.Crash?
  }

  /** These events take or release the lock; their process is its only holder. */
  lemma LockStepKeepsLock(s: State, e: Event)
    requires Inv(s) && Enabled(s, e) && TakesOrLeavesLock(e)
    ensures LockOk(Apply(s, e))
  {
    assert Holding(At(s, e.p)) <==> s.lock == Some(e.p);
  }

  /** The others leave their process with or without it, as it was. */
  lemma OtherStepKeepsLock(s: State, e: Event)
    requires Inv(s) && Enabled(s, e) && !TakesOrLeavesLock(e)
    ensures LockOk(Apply(s, e))
  {
    assert Holding(At(s, e.p)) <==> s.lock == Some(e.p);
  }

  lemma StepKeepsLock(s: State, e: Event)
    requires Inv(s) && Enabled(s, e)
    ensures Apply(s, e).history != [] && LockOk(Apply(s, e))
  {
    if TakesOrLeavesLock(e) {
      LockStepKeepsLock(s, e);
    } else {
      OtherStepKeepsLock(s, e);
    }
  }

  lemma LockStepKeepsFile(s: State, e: Event)
    requires Inv(s) && Enabled(s, e) && TakesOrLeavesLock(e) && !Apply(s, e).stranded
    ensures FileOk(Apply(s, e)) && IsSerial(Apply(s, e).history, Apply(s, e).updates)
  {
    assert Holding(At(s, e.p)) <==> s.lock == Some(e.p);
  }

  lemma OtherStepKeepsFile(s: State, e: Event)
    requires Inv(s) && Enabled(s, e) && !TakesOrLeavesLock(e) && !Apply(s, e).stranded
    ensures FileOk(Apply(s, e)) && IsSerial(Apply(s, e).history, Apply(s, e).updates)
  {
    assert Holding(At(s, e.p)) <==> s.lock == Some(e.p);
  }

  lemma StepKeepsFile(s: State, e: Event)
    requires Inv(s) && Enabled(s, e) && !Apply(s, e).stranded
    ensures FileOk(Apply(s, e)) && IsSerial(Apply(s, e).history, Apply(s, e).updates)
  {
    if TakesOrLeavesLock(e) {
      LockStepKeepsFile(s, e);
    } else {
      OtherStepKeepsFile(s, e);
    }
  }

  lemma StepKeepsUpdate(s: State, e: Event)
    requires Inv(s) && Enabled(s, e) && !Apply(s, e).stranded
    ensures var t := Apply(s, e); t.lock.Some? ==> UpdateOk(Current(t), At(t, t.lock.value))
  {
    assert Holding(At(s, e.p)) <==> s.lock == Some(e.p);
  }

  lemma SeenGrows(history: seq<File>, more: seq<File>, c: Proc)
    requires LoadOk(history, c) && history <= more
    ensures LoadOk(more, c)
  {
    if c.Reread? || c.Loaded? {
      var k :| c.from <= k < |history| && Decode(history[k]) == c.result;
      assert more[k] == history[k];
    }
  }

  lemma StepKeepsLoads(s: State, e: Event, p: nat)
    requires Inv(s) && Enabled(s, e) && !Apply(s, e).stranded && p in Apply(s, e).procs
    ensures LoadOk(Apply(s, e).history, Apply(s, e).procs[p])
  {
    var t := Apply(s, e);
    assert Holding(At(s, e.p)) <==> s.lock == Some(e.p);
    if p != e.p {
      SeenGrows(s.history, t.history, s.procs[p]);
    } else if p in s.procs {
      assert LoadOk(s.history, s.procs[p]);
      assert t.history[|s.history| - 1] == Current(s);
      if e.EndLoad? {
        SeenGrows(s.history, t.history, s.procs[p]);
      }
    }
  }

  lemma StepKeepsInv(s: State, e: Event)
    requires Inv(s) && Enabled(s, e)
    ensures Inv(Apply(s, e))
  {
    StepKeepsLock(s, e);
    if !Apply(s, e).stranded {
      StepKeepsFile(s, e);
      StepKeepsUpdate(s, e);
      forall p | p in Apply(s, e).procs ensures LoadOk(Apply(s, e).history, Apply(s, e).procs[p]) {
        StepKeepsLoads(s, e, p);
      }
    }
  }

  // ------------------------------------------------------------ runs

  function Initial(windows: bool, file: File): State {
    State(windows, file, None, map[], [file], [], false)
  }

  ghost predicate IsRun(states: seq<State>, events: seq<Event>) {
    && |states| == |events| + 1
    && states[0] == Initial(states[0].windows, states[0].file)
    && forall i {:trigger IsStep(states, events, i)} :: 0 <= i < |events| ==> IsStep(states, events, i)
  }

  ghost predicate IsStep(states: seq<State>, events: seq<Event>, i: int)
    requires 0 <= i < |events| && i + 1 < |states|
  {
    states[i].history != [] && Enabled(states[i], events[i]) && states[i + 1] == Apply(states[i], events[i])
  }

  lemma {:induction false} RunKeepsInv(states: seq<State>, events: seq<Event>, i: nat)
    requires IsRun(states, events) && i < |states|
    ensures Inv(states[i])
  {
    if i > 0 {
      RunKeepsInv(states, events, i - 1);
      var k := i - 1;
      assert IsStep(states, events, k);
      StepKeepsInv(states[k], events[k]);
    } else {
      assert states[0] == Initial(states[0].windows, states[0].file);
    }
  }

  /** A process that begins no other call between two moments. */
  ghost predicate SameCall(events: seq<Event>, s: nat, i: nat, p: nat) {
    forall k :: s < k < i && k < |events| ==> events[k] != StartLoad(p) && !(events[k].StartUpdate? && events[k].p == p)
  }

  lemma StepKeepsFrom(s: State, e: Event, p: nat)
    requires s.history != [] && Enabled(s, e) && e != StartLoad(p) && !(e.StartUpdate? && e.p == p)
    requires IsLoading(At(s, p)) || At(s, p).Idle?
    ensures IsLoading(At(Apply(s, e), p)) || At(Apply(s, e), p).Idle?
    ensures IsLoading(At(Apply(s, e), p)) ==> IsLoading(At(s, p)) && At(Apply(s, e), p).from == At(s, p).from
  {
  }

  lemma {:induction false} FromIsKept(states: seq<State>, events: seq<Event>, s: nat, i: nat, p: nat)
    requires IsRun(states, events) && s < i < |states| && events[s] == StartLoad(p) && SameCall(events, s, i, p)
    ensures IsLoading(At(states[i], p)) || At(states[i], p).Idle?
    ensures IsLoading(At(states[i], p)) ==> At(states[i], p).from == |states[s].history| - 1
    decreases i
  {
    var k := i - 1;
    assert IsStep(states, events, k);
    if k > s {
      FromIsKept(states, events, s, k, p);
      StepKeepsFrom(states[k], events[k], p);
    }
  }

  lemma StepGrows(s: State, e: Event)
    requires s.history != [] && Enabled(s, e)
    ensures s.history <= Apply(s, e).history && |Apply(s, e).history| <= |s.history| + 1
  {
  }

  lemma {:induction false} HistoryGrows(states: seq<State>, events: seq<Event>, s: nat, i: nat)
    requires IsRun(states, events) && s <= i < |states|
    ensures states[s].history <= states[i].history
    decreases i
  {
    if s < i {
      HistoryGrows(states, events, s, i - 1);
      var k := i - 1;
      assert IsStep(states, events, k);
      StepGrows(states[k], events[k]);
    }
  }

  /** The n-th commit was the last one at some moment between s and i. */
  lemma {:induction false} WasCurrent(states: seq<State>, events: seq<Event>, s: nat, i: nat, n: nat) returns (m: nat)
    requires IsRun(states, events) && s <= i < |states| && |states[s].history| - 1 <= n < |states[i].history|
    ensures s <= m <= i && states[m].history != [] && n < |states[i].history|
            && Current(states[m]) == states[i].history[n]
    decreases i
  {
    RunKeepsInv(states, events, i);
    if n == |states[i].history| - 1 {
      m := i;
    } else {
      HistoryGrows(states, events, s, i);
      assert s < i;
      var k := i - 1;
      assert IsStep(states, events, k);
      StepGrows(states[k], events[k]);
      m := WasCurrent(states, events, s, k, n);
    }
  }

  /** Load is linearizable: what it returns was the committed contents at some moment
      between its start and its return, whatever the other processes did: the routes that
      the file held then, or nothing if there was no file or one that held none. */
  lemma LoadIsLinearizable(states: seq<State>, events: seq<Event>, s: nat, i: nat, p: nat) returns (m: nat)
    requires IsRun(states, events) && s < i < |states| && events[s] == StartLoad(p) && SameCall(events, s, i, p)
    requires At(states[i], p).Loaded? && !states[i].stranded
    ensures s <= m <= i && states[m].history != []
    ensures var result := At(states[i], p).result;
            if result.Some? then Current(states[m]) == Some(Data(result.value))
            else Current(states[m]) == None || Current(states[m]) == Some(Null)
  {
    RunKeepsInv(states, events, i);
    FromIsKept(states, events, s, i, p);
    var c := At(states[i], p);
    assert LoadOk(states[i].history, states[i].procs[p]);
    var n :| c.from <= n < |states[i].history| && Decode(states[i].history[n]) == c.result;
    m := WasCurrent(states, events, s, i, n);
  }

  /** A load that runs while there are committed routes returns those of some moment. */
  lemma NeverNoStore(states: seq<State>, events: seq<Event>, s: nat, i: nat, p: nat) returns (m: nat)
    requires IsRun(states, events) && s < i < |states| && events[s] == StartLoad(p) && SameCall(events, s, i, p)
    requires At(states[i], p).Loaded? && !states[i].stranded
    requires forall m :: s <= m <= i ==>
               states[m].history != [] && Current(states[m]).Some? && Current(states[m]).value.Data?
    ensures s <= m <= i && states[m].history != []
    ensures At(states[i], p).result == Some(Current(states[m]).value.routes)
  {
    m := LoadIsLinearizable(states, events, s, i, p);
  }

  /** A load that finds routes in the file returns them without taking the lock; else it
      looks again under the lock, and returns what it finds there. */
  lemma ReadsWhatIsThere(states: seq<State>, events: seq<Event>, i: nat, p: nat)
    requires IsRun(states, events) && i < |events| && (events[i] == ReadUnlocked(p) || events[i] == ReadLocked(p))
    ensures var file, next := states[i].file, At(states[i + 1], p);
            && states[i + 1].lock == states[i].lock && states[i + 1].file == file
            && (events[i].ReadUnlocked? ==>
                  if file.Some? && file.value.Data? then next.Loaded? && next.result == Some(file.value.routes)
                  else next.Retrying?)
            && (events[i].ReadLocked? ==>
                  next.Reread? && next.result == if file.Some? && file.value.Data? then Some(file.value.routes)
                      else None)
  {
    assert IsStep(states, events, i);
  }

  /** The updates take effect one after the other: each is given the routes that the one
      before it left, or nothing if there were none, and what it makes of them is
      committed. */
  lemma UpdatesAreSerial(states: seq<State>, events: seq<Event>, i: nat)
    requires IsRun(states, events) && i < |states| && !states[i].stranded
    ensures var history, updates := states[i].history, states[i].updates;
            && |history| == |updates| + 1
            && forall k :: 0 <= k < |updates| ==>
                 history[k + 1] == updates[k](if history[k].Some? && history[k].value.Data?
                                              then Some(history[k].value.routes) else None)
  {
    RunKeepsInv(states, events, i);
  }

  /** The event leaves a file aside: its rename back failed, or its process was killed
      between the two renames. */
  ghost predicate Strands(s: State, e: Event) {
    || (e.RollBack? && !e.ok)
    || (e.Crash? && (At(s, e.p).RollingBack? || (At(s, e.p).Aside? && At(s, e.p).backup.Some?)))
  }

  lemma StepStrands(s: State, e: Event)
    requires s.history != [] && Enabled(s, e)
    ensures Apply(s, e).stranded <==> s.stranded || Strands(s, e)
  {
  }

  /** The store is intact just as long as that has not happened. */
  lemma {:induction false} StrandedExactly(states: seq<State>, events: seq<Event>, i: nat)
    requires IsRun(states, events) && i < |states|
    ensures states[i].stranded <==> exists k :: 0 <= k < i && Strands(states[k], events[k])
  {
    if i == 0 {
      assert states[0] == Initial(states[0].windows, states[0].file);
    } else {
      StrandedExactly(states, events, i - 1);
      var k := i - 1;
      assert IsStep(states, events, k);
      StepStrands(states[k], events[k]);
    }
  }

  // ------------------------------------------------------------ what an update that fails has done

  ghost function CommitsBy(events: seq<Event>, s: nat, i: nat, p: nat): nat
    requires s <= i <= |events|
    decreases i
  {
    if s == i then 0 else CommitsBy(events, s, i - 1, p) + if events[i - 1] == MoveIn(p, true) then 1 else 0
  }

  predicate IsUpdating(c: Proc) {
    c.Waiting? || c.Updating? || c.Prepared? || c.Aside? || c.RollingBack? || c.Failing?
  }

  /** How far an update of the process has come, with that many commits. */
  ghost predicate CommitsFit(c: Proc, commits: nat) {
    && (IsUpdating(c) || c.Replaced? || c.Done? || c.Idle?) && commits <= 1
    && (IsUpdating(c) ==> commits == 0)
    && (c.Replaced? ==> commits == 1)
    && (c.Done? ==> (c.ok ==> c.committed) && commits == if c.committed then 1 else 0)
  }

  lemma StepFits(s: State, e: Event, p: nat, commits: nat)
    requires s.history != [] && Enabled(s, e) && CommitsFit(At(s, p), commits)
    requires e != StartLoad(p) && !(e.StartUpdate? && e.p == p)
    ensures CommitsFit(At(Apply(s, e), p), commits + if e == MoveIn(p, true) then 1 else 0)
  {
  }

  lemma {:induction false} CommitsOfAnUpdate(states: seq<State>, events: seq<Event>, s: nat, i: nat, p: nat)
    requires IsRun(states, events) && s < i < |states| && SameCall(events, s, i, p)
    requires events[s].StartUpdate? && events[s].p == p
    ensures CommitsFit(At(states[i], p), CommitsBy(events, s, i, p))
    decreases i
  {
    var k := i - 1;
    assert IsStep(states, events, k);
    if k > s {
      CommitsOfAnUpdate(states, events, s, k, p);
      StepFits(states[k], events[k], p, CommitsBy(events, s, k, p));
    } else {
      assert CommitsBy(events, s, k, p) == 0;
    }
  }

  lemma EndsUpdate(s: State, e: Event, p: nat)
    requires s.history != [] && Enabled(s, e) && !At(s, p).Done? && At(Apply(s, e), p).Done?
    ensures var d := At(Apply(s, e), p);
            if At(s, p).Replaced? then d.committed && (e == EndUpdate(p, d.ok))
                else !d.committed && !d.ok && e != MoveIn(p, true)
  {
  }

  /** An update that succeeds has committed once. One that fails has committed nothing,
      unless all that failed was setting the mode of the new file. */
  lemma FailedUpdateCommitsNothing(states: seq<State>, events: seq<Event>, s: nat, i: nat, p: nat)
    requires IsRun(states, events) && s < i < |events| && SameCall(events, s, i + 1, p)
    requires events[s].StartUpdate? && events[s].p == p
    requires !At(states[i], p).Done? && At(states[i + 1], p).Done?
    ensures At(states[i + 1], p).ok ==> CommitsBy(events, s, i + 1, p) == 1
    ensures !At(states[i + 1], p).ok ==>
              (CommitsBy(events, s, i + 1, p) == 1 <==> events[i] == EndUpdate(p, false) && At(states[i], p).Replaced?)
  {
    assert IsStep(states, events, i);
    EndsUpdate(states[i], events[i], p);
    CommitsOfAnUpdate(states, events, s, i + 1, p);
  }
}
