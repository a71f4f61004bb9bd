/** The runner of one round as a machine whose every step is one write to the result directory, with a
    reboot possible between any two of them. */
module CrashScheduler {
  import opened Wrappers
  import opened RecipeOrder

  /** What can happen to a recipe before its trials are considered: it is let through, it is marked
      SKIPPED, or run_recipe is not reached or returns without a trace (failing directory config,
      missing or refused recipe file). */
  datatype Gate = Run | Skip | Leave

  datatype Status = Running | Finished | Skipped

  /** The files that survive a reboot: __current_testcase, reboot_count and run_status of every recipe,
      __finished_testcase and __finished. */
  datatype Disk = Disk(current: Option<Id>, count: map<Id, nat>, status: map<Id, Status>,
                       finished: Option<Id>, done: bool)

  /** The next write of run_recipe. */
  datatype Pc = Visit | Decide | FreshCount | FreshCurrent | FreshStatus | Enter | Trying | Unmark | Mark

  datatype Mode = Down | Idle(queue: seq<Id>) | In(pc: Pc, id: Id, queue: seq<Id>)

  /** base is the list that the latest start walks; entered counts the calls of do_soft_try; passed holds
      the recipes some visit did not let through. */
  datatype State = State(disk: Disk, mode: Mode, base: seq<Id>, entered: multiset<Id>, passed: set<Id>)

  datatype Action = Tick | Pass(gate: Gate) | Crash | Boot

  /** gates(x) is the set of outcomes the environment may produce at a visit of x. */
  datatype Config = Config(sel: Selection, gates: Id -> set<Gate>, maxReboot: Id -> nat)

  const INIT := State(Disk(None, map[], map[], None, false), Down, [], multiset{}, {})

  predicate IsFinished(d: Disk, id: Id) {
    id in d.status && d.status[id] == Finished
  }

  /** One step; None when the action is not possible in this state. */
  function Next(c: Config, s: State, a: Action): Option<State> {
    match a
    case Crash => if s.mode.Down? then None else Some(s.(mode := Down))
    case Boot =>
      if s.mode.Down? && !s.disk.done then
        var queue := Queue(c.sel, s.disk.finished);
        Some(s.(mode := Idle(queue), base := queue))
      else None
    case Pass(g) =>
      if !s.mode.In? || s.mode.pc != Visit || IsFinished(s.disk, s.mode.id) || g !in c.gates(s.mode.id) then None
      else PassGate(s, s.mode.id, s.mode.queue, g)
    case Tick =>
      match s.mode
      case Down => None
      case Idle(q) =>
        if q == [] then Some(s.(mode := Down, disk := s.disk.(done := true)))
        else Some(s.(mode := In(Visit, q[0], q[1..])))
      case In(pc, id, q) => TickIn(c, s, pc, id, q)
  }

  function PassGate(s: State, id: Id, q: seq<Id>, g: Gate): Option<State> {
    match g
    case Run => Some(s.(mode := In(Decide, id, q)))
    case Skip => Some(s.(mode := Idle(q), passed := s.passed + {id},
                         disk := s.disk.(status := s.disk.status[id := Skipped])))
    case Leave => Some(s.(mode := Idle(q), passed := s.passed + {id}))
  }

  function TickIn(c: Config, s: State, pc: Pc, id: Id, q: seq<Id>): Option<State> {
    var d := s.disk;
    match pc
    case Visit => if IsFinished(d, id) then Some(s.(mode := Idle(q))) else None
    case Decide =>
      if d.current != Some(id) then Some(s.(mode := In(FreshCount, id, q)))
      else if id !in d.count then Some(s.(mode := In(Enter, id, q)))
      else
        var n := d.count[id] + 1;
        Some(s.(disk := d.(count := d.count[id := n]),
                mode := In(if n > c.maxReboot(id) then Trying else Enter, id, q)))
    case FreshCount => Some(s.(disk := d.(count := d.count[id := 0]), mode := In(FreshCurrent, id, q)))
    case FreshCurrent => Some(s.(disk := d.(current := Some(id)), mode := In(FreshStatus, id, q)))
    case FreshStatus => Some(s.(disk := d.(status := d.status[id := Running]), mode := In(Enter, id, q)))
    case Enter => Some(s.(entered := s.entered + multiset{id}, mode := In(Trying, id, q)))
    // the trials are over, or were not started because of too many reboots
    case Trying => Some(s.(disk := d.(status := d.status[id := Finished]), mode := In(Unmark, id, q)))
    case Unmark => Some(s.(disk := d.(current := None), mode := In(Mark, id, q)))
    case Mark => Some(s.(disk := d.(finished := Some(id)), mode := Idle(q)))
  }

  function Exec(c: Config, s: State, script: seq<Action>): Option<State>
    decreases |script|
  {
    if script == [] then Some(s)
    else match Next(c, s, script[0])
         case None => None
         case Some(t) => Exec(c, t, script[1..])
  }

  ghost predicate Reachable(c: Config, s: State) {
    exists script :: Exec(c, INIT, script) == Some(s)
  }

  ghost predicate MayRun(c: Config, x: Id) { Run in c.gates(x) }

  ghost predicate MayPass(c: Config, x: Id) { Skip in c.gates(x) || Leave in c.gates(x) }

  /** Nothing is asked of the order of the recipelist. */
  ghost predicate Valid(c: Config) {
    Distinct(c.sel.recipelist) && forall x :: MayRun(c, x) || MayPass(c, x)
  }

  // ---------- runs ----------

  lemma {:induction false} ExecConcat(c: Config, s: State, p: seq<Action>, q: seq<Action>)
    requires Exec(c, s, p).Some?
    ensures Exec(c, s, p + q) == Exec(c, Exec(c, s, p).value, q)
    decreases |p|
  {
    if p == [] {
      assert p + q == q;
    } else {
      assert (p + q)[1..] == p[1..] + q;
      ExecConcat(c, Next(c, s, p[0]).value, p[1..], q);
    }
  }

  lemma {:induction false} ReachableStep(c: Config, s: State, a: Action, t: State)
    requires Reachable(c, s) && Next(c, s, a) == Some(t)
    ensures Reachable(c, t)
  {
    var script :| Exec(c, INIT, script) == Some(s);
    ExecConcat(c, INIT, script, [a]);
    assert Exec(c, s, [a]) == Some(t);
  }

  // ---------- finished for ever ----------

  /** Within a visit the status of a finished recipe has either just been found or just been written. */
  ghost predicate KnowsFinished(s: State) {
    s.mode.In? && IsFinished(s.disk, s.mode.id) ==> s.mode.pc.Visit? || s.mode.pc.Unmark? || s.mode.pc.Mark?
  }

  lemma {:induction false} ExecKnowsFinished(c: Config, s: State, script: seq<Action>, t: State)
    requires KnowsFinished(s) && Exec(c, s, script) == Some(t)
    ensures KnowsFinished(t)
    decreases |script|
  {
    if script != [] {
      var m := Next(c, s, script[0]).value;
      assert KnowsFinished(m);
      ExecKnowsFinished(c, m, script[1..], t);
    }
  }

  /** FINISHED is never taken back. */
  ghost predicate Grows(s: State, t: State) {
    && s.passed <= t.passed
    && (forall x | IsFinished(s.disk, x) :: IsFinished(t.disk, x))
  }

  lemma {:induction false} StepGrows(c: Config, s: State, a: Action, t: State)
    requires KnowsFinished(s) && Next(c, s, a) == Some(t)
    ensures Grows(s, t)
  {
  }

  lemma {:induction false} StaysFinished(c: Config, s: State, script: seq<Action>, t: State, x: Id)
    requires KnowsFinished(s) && Exec(c, s, script) == Some(t) && IsFinished(s.disk, x)
    ensures IsFinished(t.disk, x) && t.entered[x] == s.entered[x]
    decreases |script|
  {
    if script != [] {
      var m := Next(c, s, script[0]).value;
      ExecKnowsFinished(c, s, [script[0]], m);
      StepGrows(c, s, script[0], m);
      StaysFinished(c, m, script[1..], t, x);
    }
  }

  /** Whatever the lists, the gates and the reboots: once FINISHED, a recipe stays so and is never tried
      again. */
  lemma {:induction false} FinishedForever(c: Config, s: State, script: seq<Action>, t: State, x: Id)
    requires Reachable(c, s) && Exec(c, s, script) == Some(t) && IsFinished(s.disk, x)
    ensures IsFinished(t.disk, x) && t.entered[x] == s.entered[x]
  {
    var before :| Exec(c, INIT, before) == Some(s);
    ExecKnowsFinished(c, INIT, before, s);
    StaysFinished(c, s, script, t, x);
  }

  // ---------- what every reachable state keeps ----------

  /** The first i recipes of a list are finished or were not let through at some visit. */
  ghost predicate Settled(list: seq<Id>, s: State, i: int) {
    i <= |list| && forall j | 0 <= j < i :: IsFinished(s.disk, list[j]) || list[j] in s.passed
  }

  /** Where the runner is in the list it walks. */
  ghost predicate Placed(c: Config, s: State) {
    match s.mode
    case Down => true
    case Idle(q) =>
      |q| <= |s.base| && q == s.base[|s.base| - |q|..] && Settled(s.base, s, |s.base| - |q|)
    case In(pc, id, q) =>
      && |q| < |s.base| && q == s.base[|s.base| - |q|..] && id == s.base[|s.base| - |q| - 1]
      && Settled(s.base, s, |s.base| - |q| - 1)
      && (!pc.Visit? ==> MayRun(c, id))
      && (IsFinished(s.disk, id) ==> pc.Visit? || pc.Unmark? || pc.Mark?)
      && (pc.Unmark? || pc.Mark? ==> IsFinished(s.disk, id))
      && (pc.FreshCurrent? || pc.FreshStatus? ==> id in s.disk.count)
  }

  /** The list of a start: in run order, part of the run list, and never exceeded by a later one. */
  ghost predicate GoodBase(c: Config, base: seq<Id>) {
    && Sorted(c.sel.priority, base)
    && (forall y | y in base :: y in RunList(c.sel))
    && (forall y | y in base :: Within(c, Some(y), base))
  }

  /** What a start after f walks lies within base. */
  ghost predicate Within(c: Config, f: Option<Id>, base: seq<Id>) {
    forall z | z in Queue(c.sel, f) :: z in base
  }

  ghost predicate Inv(c: Config, s: State) {
    Placed(c, s) && Sane(c, s) && GoodResume(c, s.mode.Down?, s.base, s.disk.finished)
  }

  lemma {:induction false} SettledGrows(list: seq<Id>, s: State, t: State)
    requires Grows(s, t)
    ensures forall i :: Settled(list, s, i) ==> Settled(list, t, i)
  {
  }

  lemma {:induction false} TickKeepsPlace(c: Config, s: State, t: State)
    requires Placed(c, s) && Grows(s, t)
    requires s.mode.In? && TickIn(c, s, s.mode.pc, s.mode.id, s.mode.queue) == Some(t)
    ensures Placed(c, t)
  {
    SettledGrows(s.base, s, t);
    var at := |s.base| - |s.mode.queue| - 1;
    match s.mode.pc
    case Visit => assert Settled(s.base, t, at + 1);
    case Decide =>
    case FreshCount =>
    case FreshCurrent =>
    case FreshStatus =>
    case Enter =>
    case Trying =>
    case Unmark =>
    case Mark => assert Settled(s.base, t, at + 1);
  }

  /** The list walked and the resume point. */
  ghost predicate GoodResume(c: Config, down: bool, base: seq<Id>, finished: Option<Id>) {
    && (!down ==> GoodBase(c, base) && Within(c, finished, base))
    && (finished.Some? ==> finished.value in RunList(c.sel) && MayRun(c, finished.value))
  }

  ghost predicate Sane(c: Config, s: State) {
    && (s.disk.current.Some? ==> s.disk.current.value in s.disk.count)
    && (forall x | x in s.passed :: MayPass(c, x))
  }

  lemma {:induction false} MarkKeepsResume(c: Config, base: seq<Id>, finished: Option<Id>, i: nat)
    requires GoodResume(c, false, base, finished) && i < |base| && MayRun(c, base[i])
    ensures GoodResume(c, false, base, Some(base[i]))
  {
    assert base[i] in base;
  }

  lemma {:induction false} TickKeepsResume(c: Config, s: State, t: State)
    requires Placed(c, s) && GoodResume(c, false, s.base, s.disk.finished)
    requires s.mode.In? && TickIn(c, s, s.mode.pc, s.mode.id, s.mode.queue) == Some(t)
    ensures GoodResume(c, false, t.base, t.disk.finished)
  {
    if s.mode.pc.Mark? {
      MarkKeepsResume(c, s.base, s.disk.finished, |s.base| - |s.mode.queue| - 1);
    }
  }

  lemma {:induction false} TickKeepsSane(c: Config, s: State, t: State)
    requires Placed(c, s) && Sane(c, s)
    requires s.mode.In? && TickIn(c, s, s.mode.pc, s.mode.id, s.mode.queue) == Some(t)
    ensures Sane(c, t) && !t.mode.Down?
  {
  }

  lemma {:induction false} TickKeepsInv(c: Config, s: State, t: State)
    requires Inv(c, s) && Grows(s, t)
    requires s.mode.In? && TickIn(c, s, s.mode.pc, s.mode.id, s.mode.queue) == Some(t)
    ensures Inv(c, t)
  {
    TickKeepsPlace(c, s, t);
    TickKeepsSane(c, s, t);
    TickKeepsResume(c, s, t);
  }

  lemma {:induction false} PassKeepsInv(c: Config, s: State, g: Gate, t: State)
    requires Inv(c, s) && Next(c, s, Pass(g)) == Some(t) && Grows(s, t)
    ensures Inv(c, t)
  {
    SettledGrows(s.base, s, t);
    if !g.Run? {
      assert Settled(s.base, t, |s.base| - |s.mode.queue|);
    }
  }

  lemma {:induction false} IdleKeepsInv(c: Config, s: State, t: State)
    requires Inv(c, s) && s.mode.Idle? && Next(c, s, Tick) == Some(t) && Grows(s, t)
    ensures Inv(c, t)
  {
    SettledGrows(s.base, s, t);
  }

  /** A restart from the resume point. */
  lemma {:induction false} BootKeepsInv(c: Config, s: State, t: State)
    requires Valid(c) && Inv(c, s) && Next(c, s, Boot) == Some(t)
    ensures Inv(c, t)
  {
    var f := s.disk.finished;
    QueueSorted(c.sel, f);
    QueueMembers(c.sel, f);
    RunListCorrect(c.sel);
    AfterWithin(c.sel.recipelist, f);
    forall y | y in t.base ensures Within(c, Some(y), t.base) {
      QueueClosed(c.sel, f, y);
    }
  }

  lemma {:induction false} StepKeepsInv(c: Config, s: State, a: Action, t: State)
    requires Valid(c) && Inv(c, s) && Next(c, s, a) == Some(t)
    ensures Inv(c, t) && Grows(s, t)
  {
    StepGrows(c, s, a, t);
    match a
    case Tick =>
      if s.mode.In? {
        TickKeepsInv(c, s, t);
      } else {
        IdleKeepsInv(c, s, t);
      }
    case Pass(g) => PassKeepsInv(c, s, g, t);
    case Crash =>
    case Boot => BootKeepsInv(c, s, t);
  }

  lemma {:induction false} ExecKeepsInv(c: Config, s: State, script: seq<Action>, t: State)
    requires Valid(c) && Inv(c, s) && Exec(c, s, script) == Some(t)
    ensures Inv(c, t)
    decreases |script|
  {
    if script != [] {
      var m := Next(c, s, script[0]).value;
      StepKeepsInv(c, s, script[0], m);
      ExecKeepsInv(c, m, script[1..], t);
    }
  }

  lemma {:induction false} ReachableInv(c: Config, s: State)
    requires Valid(c) && Reachable(c, s)
    ensures Inv(c, s)
  {
    var script :| Exec(c, INIT, script) == Some(s);
    ExecKeepsInv(c, INIT, script, s);
  }

  // ---------- nothing is lost ----------

  lemma {:induction false} StepBase(c: Config, s: State, a: Action, t: State)
    requires Next(c, s, a) == Some(t)
    ensures s.mode.Down? ==> !t.mode.Down? && t.base == Queue(c.sel, s.disk.finished)
    ensures !s.mode.Down? ==> t.base == s.base
    ensures t.mode.Down? ==> t.disk.finished == s.disk.finished
  {
  }

  ghost predicate Behind(s: State, x: Id) {
    IsFinished(s.disk, x) || x in s.passed
  }

  /** A recipe is finished, was not let through at some visit, or is in the list of the next start. */
  ghost predicate Kept(c: Config, s: State, x: Id) {
    Behind(s, x) || (!s.disk.done && x in Queue(c.sel, s.disk.finished))
  }

  /** No recipe that may run is listed after one that is due after it. */
  ghost predicate ResumeSafe(c: Config) {
    forall x, y | x in RunList(c.sel) && y in RunList(c.sel) && MayRun(c, y) :: !Inverted(c.sel, x, y)
  }

  ghost predicate AllKept(c: Config, s: State) {
    && (forall x | x in RunList(c.sel) :: Kept(c, s, x))
    && (!s.mode.Down? ==> !s.disk.done && forall x | x in RunList(c.sel) && x !in s.base :: Behind(s, x))
  }

  /** What the list of the present start has before the runner's position is behind it. */
  lemma {:induction false} EarlierIsBehind(c: Config, s: State, x: Id)
    requires Inv(c, s) && s.mode.In? && x in s.base && Before(c.sel.priority, x, s.mode.id)
    ensures Behind(s, x)
  {
    var at := |s.base| - |s.mode.queue| - 1;
    var i: nat :| i < |s.base| && s.base[i] == x;
    SortedIndex(c.sel.priority, s.base, i, at);
  }

  lemma {:induction false} MarkKeepsAll(c: Config, s: State, t: State)
    requires Valid(c) && ResumeSafe(c) && Inv(c, s) && AllKept(c, s) && Grows(s, t)
    requires s.mode.In? && s.mode.pc.Mark? && Next(c, s, Tick) == Some(t)
    ensures AllKept(c, t)
  {
    var id := s.mode.id;
    assert id in s.base;
    forall x | x in RunList(c.sel) ensures Kept(c, t, x) {
      if x !in Queue(c.sel, Some(id)) && x != id {
        DroppedIff(c.sel, x, id);
        assert !Inverted(c.sel, x, id);
        if x in s.base {
          EarlierIsBehind(c, s, x);
        }
        assert Behind(s, x);
      }
    }
  }

  lemma {:induction false} DoneKeepsAll(c: Config, s: State, t: State)
    requires Inv(c, s) && AllKept(c, s) && s.mode == Idle([]) && Next(c, s, Tick) == Some(t)
    ensures AllKept(c, t)
  {
    forall x | x in RunList(c.sel) ensures Behind(s, x) {
      if x in s.base {
        var i :| 0 <= i < |s.base| && s.base[i] == x;
      }
    }
  }

  lemma {:induction false} SameResumeKeepsAll(c: Config, s: State, t: State)
    requires AllKept(c, s) && Grows(s, t) && t.disk.finished == s.disk.finished && t.disk.done == s.disk.done
    requires !t.mode.Down? ==> !t.disk.done
                               && forall x | x in RunList(c.sel) && x !in t.base :: Behind(s, x)
    ensures AllKept(c, t)
  {
    forall x | Behind(s, x) ensures Behind(t, x) {
    }
    forall x | x in RunList(c.sel) ensures Kept(c, t, x) {
      assert Kept(c, s, x);
    }
  }

  lemma {:induction false} BootLeavesBehind(c: Config, s: State, t: State)
    requires AllKept(c, s) && Next(c, s, Boot) == Some(t)
    ensures !t.disk.done && forall x | x in RunList(c.sel) && x !in t.base :: Behind(s, x)
  {
    forall x | x in RunList(c.sel) && x !in t.base ensures Behind(s, x) {
      assert Kept(c, s, x);
    }
  }

  lemma {:induction false} ResumeUnchanged(c: Config, s: State, a: Action, t: State)
    requires Next(c, s, a) == Some(t)
    ensures !(a.Tick? && s.mode.In? && s.mode.pc.Mark?) ==> t.disk.finished == s.disk.finished
    ensures !(a.Tick? && s.mode == Idle([])) ==> t.disk.done == s.disk.done
  {
  }

  lemma {:induction false} RunningLeavesBehind(c: Config, s: State, a: Action, t: State)
    requires AllKept(c, s) && Next(c, s, a) == Some(t) && !t.mode.Down?
    ensures forall x | x in RunList(c.sel) && x !in t.base :: Behind(s, x)
    ensures !s.disk.done
  {
    StepBase(c, s, a, t);
    if s.mode.Down? {
      BootLeavesBehind(c, s, t);
    }
  }

  lemma {:induction false} StepKeepsAll(c: Config, s: State, a: Action, t: State)
    requires Valid(c) && ResumeSafe(c) && Inv(c, s) && AllKept(c, s) && Next(c, s, a) == Some(t)
    ensures AllKept(c, t)
  {
    StepKeepsInv(c, s, a, t);
    if s.mode.In? && s.mode.pc.Mark? && a.Tick? {
      MarkKeepsAll(c, s, t);
    } else if s.mode == Idle([]) && a.Tick? {
      DoneKeepsAll(c, s, t);
    } else {
      ResumeUnchanged(c, s, a, t);
      if !t.mode.Down? {
        RunningLeavesBehind(c, s, a, t);
      }
      SameResumeKeepsAll(c, s, t);
    }
  }

  lemma {:induction false} ExecKeepsAll(c: Config, s: State, script: seq<Action>, t: State)
    requires Valid(c) && ResumeSafe(c) && Inv(c, s) && AllKept(c, s) && Exec(c, s, script) == Some(t)
    ensures AllKept(c, t)
    decreases |script|
  {
    if script != [] {
      var m := Next(c, s, script[0]).value;
      StepKeepsInv(c, s, script[0], m);
      StepKeepsAll(c, s, script[0], m);
      ExecKeepsAll(c, m, script[1..], t);
    }
  }

  /** In every reachable state every recipe of the round is kept, if no recipe that may run is listed
      after one that is due after it. */
  lemma {:induction false} NothingLost(c: Config, s: State, x: Id)
    requires Valid(c) && ResumeSafe(c) && Reachable(c, s) && x in RunList(c.sel)
    ensures Kept(c, s, x)
  {
    var script :| Exec(c, INIT, script) == Some(s);
    ExecKeepsAll(c, INIT, script, s);
  }

  // ---------- the reboot budget ----------

  /** No recipe up to x changes its mind between visits while another one could use the gap: every
      earlier recipe is always or never let through, and x itself too unless nothing after it can run. */
  ghost predicate Steady(c: Config, run: seq<Id>, k: nat)
    requires k < |run|
  {
    && (forall j | 0 <= j < k :: !(MayRun(c, run[j]) && MayPass(c, run[j])))
    && (MayPass(c, run[k]) ==> forall j | k < j < |run| :: !MayRun(c, run[j]))
  }

  /** The recipe belongs to the list of the present start, or of the next one if the machine is down. */
  ghost predicate Ahead(c: Config, s: State, x: Id) {
    if s.mode.Down? then x in Queue(c.sel, s.disk.finished) else x in s.base
  }

  lemma {:induction false} AheadWithin(c: Config, s: State, x: Id)
    requires GoodResume(c, s.mode.Down?, s.base, s.disk.finished) && x in Queue(c.sel, s.disk.finished)
    ensures Ahead(c, s, x)
  {
  }

  /** A recipe that a start leaves out never comes back. */
  lemma {:induction false} AheadShrinks(c: Config, s: State, a: Action, t: State, x: Id)
    requires Inv(c, s) && Next(c, s, a) == Some(t) && Ahead(c, t, x)
    ensures Ahead(c, s, x)
  {
    StepBase(c, s, a, t);
    if t.mode.Down? {
      AheadWithin(c, s, x);
    }
  }

  /** What is kept of x while it can still be visited. */
  ghost predicate Budgeted(c: Config, run: seq<Id>, k: nat, s: State)
    requires k < |run|
  {
    var x, d, n := run[k], s.disk, s.entered[run[k]];
    && (!IsFinished(d, x) ==> d.current == Some(x) && x in d.count && n <= d.count[x] + 1)
    && (forall j | 0 <= j < k && !MayPass(c, run[j]) && Ahead(c, s, run[j]) :: IsFinished(d, run[j]))
  }

  ghost predicate Budget(c: Config, run: seq<Id>, k: nat, s: State)
    requires k < |run|
  {
    var x, n := run[k], s.entered[run[k]];
    && n <= c.maxReboot(x) + 1
    && (n > 0 && Ahead(c, s, x) ==> Budgeted(c, run, k, s))
    && (s.mode.In? && !s.mode.pc.Visit? ==>
          if s.mode.id == x then BudgetAt(c, x, s, s.mode.pc) else x in s.mode.queue ==> n == 0)
  }

  ghost predicate BudgetAt(c: Config, x: Id, s: State, pc: Pc) {
    var d, n := s.disk, s.entered[x];
    && (pc.FreshCount? ==> n == 0)
    && (pc.FreshCurrent? ==> n == 0 && x in d.count && d.count[x] == 0)
    && (pc.FreshStatus? ==> n == 0 && x in d.count && d.count[x] == 0 && d.current == Some(x))
    && (pc.Enter? ==> d.current == Some(x) && x in d.count && n <= d.count[x] <= c.maxReboot(x))
  }

  /** A recipe of the list that is neither at hand nor still queued comes before the one at hand. */
  lemma {:induction false} Position(c: Config, s: State, x: Id)
    requires Inv(c, s) && s.mode.In? && x in s.base && x != s.mode.id
    ensures s.mode.id in s.base && s.mode.id in RunList(c.sel)
    ensures x in s.mode.queue ==> Before(c.sel.priority, s.mode.id, x)
    ensures x !in s.mode.queue ==> Before(c.sel.priority, x, s.mode.id) && Behind(s, x)
  {
    var at := |s.base| - |s.mode.queue| - 1;
    var i: nat :| i < |s.base| && s.base[i] == x;
    assert s.base[at] in s.base;
    if i > at {
      assert s.mode.queue[i - at - 1] == x;
    } else {
      NotInTail(c.sel.priority, s.base, i, at + 1);
    }
  }

  lemma {:induction false} NotInTail(priority: Id -> int, s: seq<Id>, i: nat, m: nat)
    requires Sorted(priority, s) && i < m <= |s|
    ensures s[i] !in s[m..]
  {
    SortedDistinct(priority, s);
  }

  /** A visit at a recipe other than x changes nothing that x's budget depends on. */
  lemma {:induction false} ElsewhereKeepsBudget(c: Config, run: seq<Id>, k: nat, s: State, t: State)
    requires run == RunList(c.sel) && Sorted(c.sel.priority, run) && k < |run|
    requires Steady(c, run, k) && Inv(c, s) && Budget(c, run, k, s)
    requires s.mode.In? && s.mode.id != run[k] && !s.mode.pc.Visit?
    requires TickIn(c, s, s.mode.pc, s.mode.id, s.mode.queue) == Some(t) && Grows(s, t)
    ensures Budget(c, run, k, t)
  {
    var x := run[k];
    assert t.base == s.base && t.entered[x] == s.entered[x];
    if t.entered[x] > 0 && x in s.base {
      assert Budgeted(c, run, k, s);
      Overtaken(c, run, k, s);
      forall j | 0 <= j < k && !MayPass(c, run[j]) && Ahead(c, t, run[j]) ensures IsFinished(t.disk, run[j]) {
        assert Ahead(c, s, run[j]);
      }
    }
  }

  /** When a recipe after x is under way in a list that has x, x is finished. */
  lemma {:induction false} Overtaken(c: Config, run: seq<Id>, k: nat, s: State)
    requires run == RunList(c.sel) && Sorted(c.sel.priority, run) && k < |run| && Steady(c, run, k) && Inv(c, s)
    requires s.mode.In? && !s.mode.pc.Visit? && s.mode.id != run[k]
    requires run[k] in s.base && run[k] !in s.mode.queue
    ensures IsFinished(s.disk, run[k])
  {
    Position(c, s, run[k]);
    var i: nat :| i < |run| && run[i] == s.mode.id;
    SortedIndex(c.sel.priority, run, k, i);
    assert MayRun(c, run[i]);
  }

  lemma {:induction false} OwnTickKeepsBudget(c: Config, run: seq<Id>, k: nat, s: State, t: State)
    requires run == RunList(c.sel) && Sorted(c.sel.priority, run) && k < |run|
    requires Inv(c, s) && Budget(c, run, k, s)
    requires s.mode.In? && s.mode.id == run[k] && !s.mode.pc.Visit?
    requires TickIn(c, s, s.mode.pc, s.mode.id, s.mode.queue) == Some(t) && Grows(s, t)
    ensures Budget(c, run, k, t)
  {
    var x := run[k];
    assert x in s.base;
    match s.mode.pc
    case Decide =>
    case FreshCount =>
    case FreshCurrent =>
    case FreshStatus =>
    case Enter =>
      forall j | 0 <= j < k && !MayPass(c, run[j]) && Ahead(c, t, run[j]) ensures IsFinished(t.disk, run[j]) {
        EarlierIsBehind(c, s, run[j]);
      }
    case Trying =>
    case Unmark =>
    case Mark =>
  }

  lemma {:induction false} PassKeepsBudget(c: Config, run: seq<Id>, k: nat, s: State, g: Gate, t: State)
    requires run == RunList(c.sel) && Sorted(c.sel.priority, run) && k < |run|
    requires Steady(c, run, k) && Inv(c, s) && Budget(c, run, k, s)
    requires Next(c, s, Pass(g)) == Some(t) && Grows(s, t)
    ensures Budget(c, run, k, t)
  {
    var x, id := run[k], s.mode.id;
    if g.Run? && id != x && x in s.mode.queue {
      assert x in s.base;
      Position(c, s, x);
      var i: nat :| i < |run| && run[i] == id;
      SortedIndex(c.sel.priority, run, i, k);
      assert !MayPass(c, run[i]) && Ahead(c, s, run[i]);
    }
  }

  lemma {:induction false} StepKeepsBudget(c: Config, run: seq<Id>, k: nat, s: State, a: Action, t: State)
    requires run == RunList(c.sel) && Sorted(c.sel.priority, run) && k < |run|
    requires Steady(c, run, k) && Inv(c, s) && Budget(c, run, k, s)
    requires Next(c, s, a) == Some(t)
    ensures Budget(c, run, k, t)
  {
    StepGrows(c, s, a, t);
    if a.Pass? {
      PassKeepsBudget(c, run, k, s, a.gate, t);
    } else if s.mode.In? && a.Tick? && !s.mode.pc.Visit? {
      if s.mode.id == run[k] {
        OwnTickKeepsBudget(c, run, k, s, t);
      } else {
        ElsewhereKeepsBudget(c, run, k, s, t);
      }
    } else if t.entered[run[k]] > 0 && Ahead(c, t, run[k]) {
      AheadShrinks(c, s, a, t, run[k]);
      forall j | 0 <= j < k && !MayPass(c, run[j]) && Ahead(c, t, run[j]) ensures IsFinished(t.disk, run[j]) {
        AheadShrinks(c, s, a, t, run[j]);
      }
    }
  }

  lemma {:induction false} ExecKeepsBudget(c: Config, k: nat, s: State, script: seq<Action>, t: State)
    requires Valid(c) && k < |RunList(c.sel)| && Steady(c, RunList(c.sel), k)
    requires Reachable(c, s) && Budget(c, RunList(c.sel), k, s) && Exec(c, s, script) == Some(t)
    ensures Budget(c, RunList(c.sel), k, t)
    decreases |script|
  {
    if script != [] {
      var m := Next(c, s, script[0]).value;
      RunListCorrect(c.sel);
      ReachableInv(c, s);
      StepKeepsBudget(c, RunList(c.sel), k, s, script[0], m);
      ReachableStep(c, s, script[0], m);
      ExecKeepsBudget(c, k, m, script[1..], t);
    }
  }

  // ---------- overrunning the budget ----------

  lemma {:induction false} Go(c: Config, s: State, a: Action) returns (t: State)
    requires Reachable(c, s) && Next(c, s, a).Some?
    ensures Some(t) == Next(c, s, a) && Reachable(c, t)
  {
    t := Next(c, s, a).value;
    ReachableStep(c, s, a, t);
  }

  /** t differs from s only in where the runner is and in which recipes are marked SKIPPED. */
  ghost predicate Alike(s: State, t: State) {
    && t.entered == s.entered && t.disk.(status := s.disk.status) == s.disk
    && forall x :: IsFinished(s.disk, x) <==> IsFinished(t.disk, x)
  }

  /** Only recipes before index h were passed over on the way from s to t. */
  ghost predicate PassedOnly(run: seq<Id>, h: nat, s: State, t: State)
    requires h <= |run|
  {
    forall x | x in t.passed && x !in s.passed :: x in run[..h]
  }

  /** Everything before index h can be walked past. */
  ghost predicate Open(c: Config, run: seq<Id>, h: nat, s: State) {
    h <= |run| && forall j | 0 <= j < h :: IsFinished(s.disk, run[j]) || MayPass(c, run[j])
  }

  lemma {:induction false} Drive(c: Config, run: seq<Id>, i: nat, h: nat, s: State) returns (t: State)
    requires Reachable(c, s) && i <= h && Open(c, run, h, s) && s.mode == Idle(run[i..])
    ensures Reachable(c, t) && t.mode == Idle(run[h..]) && Alike(s, t) && PassedOnly(run, h, s, t)
    decreases h - i
  {
    t := s;
    if i < h {
      assert run[i..][1..] == run[i + 1..];
      t := Go(c, t, Tick);
      if IsFinished(s.disk, run[i]) {
        t := Go(c, t, Tick);
      } else if Skip in c.gates(run[i]) {
        t := Go(c, t, Pass(Skip));
      } else {
        t := Go(c, t, Pass(Leave));
      }
      assert Alike(s, t) && (forall x | x in t.passed && x !in s.passed :: x == run[i]);
      assert run[i] in run[..h];
      t := Drive(c, run, i + 1, h, t);
    }
  }

  /** From a machine that is down, start the runner and let recipe h begin afresh, up to and including
      the write of __current_testcase. */
  lemma {:induction false} Begin(c: Config, h: nat, s: State) returns (t: State)
    requires var run := RunList(c.sel);
             && h < |run| && Reachable(c, s) && s.mode.Down? && !s.disk.done && s.disk.finished.None?
             && Open(c, run, h, s) && MayRun(c, run[h]) && !IsFinished(s.disk, run[h]) && s.disk.current != Some(run[h])
    ensures var run := RunList(c.sel);
            && Reachable(c, t) && t.mode == In(FreshStatus, run[h], run[h + 1..]) && t.entered == s.entered
            && !t.disk.done && t.disk.finished.None? && t.disk.current == Some(run[h])
            && (forall x :: IsFinished(s.disk, x) <==> IsFinished(t.disk, x)) && PassedOnly(run, h, s, t)
  {
    var run := RunList(c.sel);
    t := Go(c, s, Boot);
    assert run == run[0..];
    t := Drive(c, run, 0, h, t);
    assert run[h..][1..] == run[h + 1..];
    t := Go(c, t, Tick);
    t := Go(c, t, Pass(Run));
    t := Go(c, t, Tick);
    t := Go(c, t, Tick);
    t := Go(c, t, Tick);
  }

  /** The machine is down before any resume point was recorded, everything before h can be walked past,
      nothing else is finished, and the recipe last marked current is a finished one. */
  ghost predicate Cleared(c: Config, h: nat, s: State) {
    var run := RunList(c.sel);
    && Reachable(c, s) && s.mode.Down? && !s.disk.done && s.disk.finished.None? && Open(c, run, h, s)
    && (forall j | 0 <= j < |run| && (h <= j || MayPass(c, run[j])) :: !IsFinished(s.disk, run[j]))
    && (s.disk.current.Some? ==> IsFinished(s.disk, s.disk.current.value))
    && (forall j | h <= j < |run| :: run[j] !in s.passed)
  }

  /** A recipe that always runs can be finished by a reboot right after the FINISHED write, before the
      resume point is recorded. */
  lemma {:induction false} ClearOne(c: Config, h: nat, s: State) returns (t: State)
    requires Valid(c) && h < |RunList(c.sel)| && Distinct(RunList(c.sel)) && Cleared(c, h, s)
    requires !MayPass(c, RunList(c.sel)[h])
    ensures Cleared(c, h + 1, t)
  {
    var run := RunList(c.sel);
    t := Begin(c, h, s);
    t := Go(c, t, Tick);
    t := Go(c, t, Tick);
    t := Go(c, t, Tick);
    t := Go(c, t, Crash);
    assert forall x | x != run[h] :: IsFinished(s.disk, x) <==> IsFinished(t.disk, x);
    assert IsFinished(t.disk, run[h]);
  }

  /** The machine with everything before h either finished or still to be passed over. */
  lemma {:induction false} Clear(c: Config, h: nat) returns (s: State)
    requires Valid(c) && h <= |RunList(c.sel)|
    ensures Cleared(c, h, s)
  {
    var run := RunList(c.sel);
    RunListCorrect(c.sel);
    SortedDistinct(c.sel.priority, run);
    if h == 0 {
      s := INIT;
      assert Exec(c, INIT, []) == Some(s);
    } else {
      s := Clear(c, h - 1);
      if !MayPass(c, run[h - 1]) {
        s := ClearOne(c, h - 1, s);
      }
    }
  }

  /** Both x = run[k] and its rival run[r] can still run, everything before the later one can be walked
      past, and x is not the recipe marked current. */
  ghost predicate Contested(c: Config, k: nat, r: nat, s: State) {
    var run := RunList(c.sel);
    && k < |run| && r < |run| && k != r && MayRun(c, run[k]) && MayRun(c, run[r])
    && Reachable(c, s) && s.mode.Down? && !s.disk.done && s.disk.finished.None?
    && Open(c, run, if k < r then r else k, s)
    && !IsFinished(s.disk, run[k]) && !IsFinished(s.disk, run[r]) && s.disk.current != Some(run[k])
  }

  lemma {:induction false} Round(c: Config, k: nat, r: nat, s: State) returns (t: State)
    requires Valid(c) && Contested(c, k, r, s)
    ensures Contested(c, k, r, t) && t.entered[RunList(c.sel)[k]] == s.entered[RunList(c.sel)[k]] + 1
  {
    var run := RunList(c.sel);
    RunListCorrect(c.sel);
    SortedDistinct(c.sel.priority, run);
    t := Begin(c, k, s);
    t := Go(c, t, Tick);
    t := Go(c, t, Tick);
    t := Go(c, t, Crash);
    t := Begin(c, r, t);
    t := Go(c, t, Crash);
  }

  lemma {:induction false} Repeat(c: Config, k: nat, r: nat, s: State, n: nat) returns (t: State)
    requires Valid(c) && Contested(c, k, r, s)
    ensures Contested(c, k, r, t) && t.entered[RunList(c.sel)[k]] >= n
  {
    t := s;
    if n > 0 {
      t := Repeat(c, k, r, s, n - 1);
      t := Round(c, k, r, t);
    }
  }

  /** If x is not steady, no number of do_soft_try calls is a bound. */
  lemma {:induction false} Overrun(c: Config, k: nat, n: nat) returns (t: State)
    requires Valid(c) && k < |RunList(c.sel)| && MayRun(c, RunList(c.sel)[k]) && !Steady(c, RunList(c.sel), k)
    ensures Reachable(c, t) && t.entered[RunList(c.sel)[k]] >= n
  {
    var run := RunList(c.sel);
    var r: nat :| r < |run| && r != k && MayRun(c, run[r]) && MayPass(c, run[if k < r then k else r]);
    var h := if k < r then r else k;
    t := Clear(c, h);
    t := Repeat(c, k, r, t, n);
  }

  /** Every reachable state has called do_soft_try on x at most MAX_REBOOT + 1 times. */
  ghost predicate Bounded(c: Config, x: Id) {
    forall s | Reachable(c, s) :: s.entered[x] <= c.maxReboot(x) + 1
  }

  /** The bound holds exactly for the recipes that never run and those that are steady. */
  lemma {:induction false} RebootBoundIff(c: Config, k: nat)
    requires Valid(c) && k < |RunList(c.sel)|
    ensures Bounded(c, RunList(c.sel)[k]) <==> !MayRun(c, RunList(c.sel)[k]) || Steady(c, RunList(c.sel), k)
  {
    var run := RunList(c.sel);
    var x := run[k];
    assert Exec(c, INIT, []) == Some(INIT);
    if Steady(c, run, k) {
      forall s | Reachable(c, s) ensures s.entered[x] <= c.maxReboot(x) + 1 {
        var script :| Exec(c, INIT, script) == Some(s);
        ExecKeepsBudget(c, k, INIT, script, s);
      }
    } else if MayRun(c, x) {
      var s := Overrun(c, k, c.maxReboot(x) + 2);
    } else {
      forall s | Reachable(c, s) ensures s.entered[x] == 0 {
        NeverRuns(c, s, x);
      }
    }
  }

  /** Past the gate of a recipe only if the gate can open. */
  ghost predicate LetThrough(c: Config, s: State) {
    s.mode.In? && !s.mode.pc.Visit? ==> MayRun(c, s.mode.id)
  }

  lemma {:induction false} ExecNeverRuns(c: Config, s: State, script: seq<Action>, t: State, x: Id)
    requires LetThrough(c, s) && Exec(c, s, script) == Some(t) && !MayRun(c, x) && s.entered[x] == 0
    ensures t.entered[x] == 0
    decreases |script|
  {
    if script != [] {
      var m := Next(c, s, script[0]).value;
      assert LetThrough(c, m);
      ExecNeverRuns(c, m, script[1..], t, x);
    }
  }

  lemma {:induction false} NeverRuns(c: Config, s: State, x: Id)
    requires Reachable(c, s) && !MayRun(c, x)
    ensures s.entered[x] == 0
  {
    var script :| Exec(c, INIT, script) == Some(s);
    ExecNeverRuns(c, INIT, script, s, x);
  }

  // ---------- losing a recipe ----------

  lemma {:induction false} Complete(c: Config, s: State) returns (t: State)
    requires Reachable(c, s) && s.mode.In? && s.mode.pc.FreshStatus?
    ensures Reachable(c, t) && t.mode == Idle(s.mode.queue) && !t.mode.Down? && t.disk.done == s.disk.done
    ensures t.disk.finished == Some(s.mode.id) && t.passed == s.passed
    ensures forall x | x != s.mode.id :: IsFinished(s.disk, x) <==> IsFinished(t.disk, x)
  {
    t := Go(c, s, Tick);
    t := Go(c, t, Tick);
    t := Go(c, t, Tick);
    t := Go(c, t, Tick);
    t := Go(c, t, Tick);
  }

  /** A recipe that may run and is listed after one that is due after it can be the resume point before
      that one has been visited, which is then lost. */
  lemma {:induction false} InversionLoses(c: Config, early: Id, late: Id) returns (t: State)
    requires Valid(c) && Inverted(c.sel, early, late) && MayRun(c, late)
    ensures Reachable(c, t) && early in RunList(c.sel) && !Kept(c, t, early)
  {
    var run := RunList(c.sel);
    RunListCorrect(c.sel);
    SortedDistinct(c.sel.priority, run);
    var a, b := InversionDrops(c.sel, early, late);
    var s := Clear(c, a);
    t := Begin(c, a, s);
    assert early !in run[..a] by {
      NotInHead(run, a, b);
    }
    t := Complete(c, t);
    assert !IsFinished(s.disk, run[b]) && run[b] !in s.passed;
  }

  lemma {:induction false} NotInHead(s: seq<Id>, a: nat, b: nat)
    requires Distinct(s) && a <= b < |s|
    ensures s[b] !in s[..a]
  {
  }

  /** No reachable state has lost a recipe of the round. */
  ghost predicate NeverLoses(c: Config) {
    forall s, x | Reachable(c, s) && x in RunList(c.sel) :: Kept(c, s, x)
  }

  /** Nothing is ever lost exactly if no recipe that may run is listed after one that is due after it. */
  lemma {:induction false} NothingLostIff(c: Config)
    requires Valid(c)
    ensures NeverLoses(c) <==> ResumeSafe(c)
  {
    if ResumeSafe(c) {
      forall s, x | Reachable(c, s) && x in RunList(c.sel) ensures Kept(c, s, x) {
        NothingLost(c, s, x);
      }
    } else {
      var early, late :| early in RunList(c.sel) && late in RunList(c.sel) && MayRun(c, late) && Inverted(c.sel, early, late);
      var t := InversionLoses(c, early, late);
    }
  }
}
