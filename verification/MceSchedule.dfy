/** The thread structure of a machine-check broadcast: a main thread that walks the CPUs, writing some
    records itself and creating threads held at a gate for others, then opens the gate and joins. */
module MceSchedule {
  import opened Wrappers

  /** struct mce; the fields the injector only copies are kept together in payload. */
  datatype Mce = Mce(status: bv64, mcgstatus: bv64, flags: bv8, bank: nat, cpu: nat, extcpu: nat, payload: nat)

  /** Whose record a thread writes: the shared target record, or one of its own. */
  datatype Source = Target | Own(rec: Mce)

  /** What the main thread does with one CPU. */
  datatype Plan = Out | Direct(rec: Mce) | Threaded(src: Source)

  /** The target record as given, as set when its CPU is reached, and as flagged when some record was
      written directly. */
  datatype Job = Job(cpus: seq<nat>, plan: seq<Plan>, given: Mce, ready: Mce, flagged: Mce)

  datatype Thread = Thread(cpu: nat, src: Source)

  datatype Entry = Entry(cpu: nat, rec: Mce, threaded: bool)

  datatype Phase = Loop(i: nat) | Flags | Open | Join(k: nat) | Done

  /** m is the shared target record; order lists the threads in the order they wrote. */
  datatype State = State(m: Mce, phase: Phase, threads: seq<Thread>, random: bool, blocked: bool,
                         log: seq<Entry>, order: seq<nat>)

  datatype Action = Main | Thr(j: nat)

  ghost predicate Valid(j: Job) {
    && |j.plan| == |j.cpus| && (exists i :: 0 <= i < |j.plan| && j.plan[i] == Threaded(Target))
    && (forall a, b | 0 <= a < b < |j.cpus| :: j.cpus[a] != j.cpus[b])
  }

  function Begin(m: Mce): State {
    State(m, Loop(0), [], false, true, [], [])
  }

  function Turn(j: Job, s: State, i: nat): State
    requires i < |j.cpus| == |j.plan|
  {
    match j.plan[i]
    case Out => s.(phase := Loop(i + 1))
    case Direct(rec) => s.(log := s.log + [Entry(j.cpus[i], rec, false)], random := true, phase := Loop(i + 1))
    case Threaded(src) =>
      s.(m := if src.Target? then j.ready else s.m, threads := s.threads + [Thread(j.cpus[i], src)], phase := Loop(i + 1))
  }

  function Written(m: Mce, t: Thread): Entry {
    Entry(t.cpu, if t.src.Target? then m else t.src.rec, true)
  }

  /** A thread that has passed the gate writes its record. */
  function Write(s: State, j: nat): Option<State> {
    if s.blocked || j >= |s.threads| || j in s.order then None
    else Some(s.(log := s.log + [Written(s.m, s.threads[j])], order := s.order + [j]))
  }

  /** After the flags: the gate is opened and the threads are joined, last created first. */
  function Close(s: State): Option<State> {
    match s.phase
    case Open => Some(s.(blocked := false, phase := Join(|s.threads|)))
    case Join(k) =>
      if k == 0 then Some(s.(phase := Done))
      else if k - 1 in s.order then Some(s.(phase := Join(k - 1)))
      else None
    case _ => None
  }

  function Next(j: Job, s: State, a: Action): Option<State>
    requires |j.cpus| == |j.plan|
  {
    match a
    case Thr(n) => Write(s, n)
    case Main =>
      match s.phase
      case Loop(i) => Some(if i < |j.cpus| then Turn(j, s, i) else s.(phase := Flags))
      case Flags => Some(s.(m := if s.random then j.flagged else s.m, phase := Open))
      case _ => Close(s)
  }

  function Run(j: Job, s: State, script: seq<Action>): Option<State>
    requires |j.cpus| == |j.plan|
    decreases |script|
  {
    if script == [] then Some(s)
    else match Next(j, s, script[0])
         case None => None
         case Some(t) => Run(j, t, script[1..])
  }

  // ---------- what is to be written, independently of any schedule ----------

  /** Of the first k CPUs, the indices of those written directly, or of those written by a thread. */
  function Pick(plan: seq<Plan>, k: nat, direct: bool): seq<nat>
    requires k <= |plan|
  {
    if k == 0 then []
    else Pick(plan, k - 1, direct)
         + if (if direct then plan[k - 1].Direct? else plan[k - 1].Threaded?) then [k - 1] else []
  }

  lemma {:induction false} PickExact(plan: seq<Plan>, k: nat, direct: bool)
    requires k <= |plan|
    ensures forall a | 0 <= a < |Pick(plan, k, direct)| :: Pick(plan, k, direct)[a] < k
              && if direct then plan[Pick(plan, k, direct)[a]].Direct? else plan[Pick(plan, k, direct)[a]].Threaded?
    ensures forall a, b | 0 <= a < b < |Pick(plan, k, direct)| :: Pick(plan, k, direct)[a] < Pick(plan, k, direct)[b]
    ensures forall i | 0 <= i < k && (if direct then plan[i].Direct? else plan[i].Threaded?) :: i in Pick(plan, k, direct)
  {
    if k > 0 {
      PickExact(plan, k - 1, direct);
    }
  }

  predicate AnyDirect(plan: seq<Plan>) {
    exists i :: 0 <= i < |plan| && plan[i].Direct?
  }

  /** The target record as its thread finds it. */
  function Shared(j: Job): Mce {
    if AnyDirect(j.plan) then j.flagged else j.ready
  }

  /** The entry CPU i is to get. */
  function Expected(j: Job, i: nat): Entry
    requires i < |j.cpus| == |j.plan| && !j.plan[i].Out?
  {
    match j.plan[i]
    case Direct(rec) => Entry(j.cpus[i], rec, false)
    case Threaded(src) => Written(Shared(j), Thread(j.cpus[i], src))
  }

  // ---------- every interleaving ----------

  ghost predicate Ordered(order: seq<nat>, n: nat) {
    && (forall k | 0 <= k < |order| :: order[k] < n)
    && (forall i, j | 0 <= i < j < |order| :: order[i] != order[j])
  }

  /** The first entries of the log are the direct writes of the first k CPUs, in CPU order. */
  ghost predicate DirectPart(j: Job, log: seq<Entry>, k: nat)
    requires |j.cpus| == |j.plan| && k <= |j.plan|
  {
    var d := Pick(j.plan, k, true);
    |d| <= |log| && forall a | 0 <= a < |d| ::
      d[a] < |j.plan| && j.plan[d[a]].Direct? && log[a] == Entry(j.cpus[d[a]], j.plan[d[a]].rec, false)
  }

  ghost predicate Made(j: Job, threads: seq<Thread>, k: nat)
    requires |j.cpus| == |j.plan| && k <= |j.plan|
  {
    var t := Pick(j.plan, k, false);
    |t| == |threads| && forall a | 0 <= a < |t| ::
      t[a] < |j.plan| && j.plan[t[a]].Threaded? && threads[a] == Thread(j.cpus[t[a]], j.plan[t[a]].src)
  }

  ghost predicate InLoop(j: Job, s: State, i: nat)
    requires |j.cpus| == |j.plan|
  {
    && i <= |j.cpus| && s.blocked && s.order == []
    && DirectPart(j, s.log, i) && |s.log| == |Pick(j.plan, i, true)| && Made(j, s.threads, i)
    && s.random == (s.log != [])
    && (s.m == j.given || s.m == j.ready)
    && (forall k | 0 <= k < i && j.plan[k] == Threaded(Target) :: s.m == j.ready)
  }

  ghost predicate Opened(j: Job, s: State)
    requires |j.cpus| == |j.plan|
  {
    var d := |Pick(j.plan, |j.plan|, true)|;
    && s.m == Shared(j) && Made(j, s.threads, |j.plan|) && DirectPart(j, s.log, |j.plan|)
    && Ordered(s.order, |s.threads|) && |s.log| == d + |s.order|
    && (forall a | 0 <= a < |s.order| :: s.log[d + a] == Written(s.m, s.threads[s.order[a]]))
  }

  ghost predicate Inv(j: Job, s: State)
    requires |j.cpus| == |j.plan|
  {
    match s.phase
    case Loop(i) => InLoop(j, s, i)
    case Flags => InLoop(j, s, |j.cpus|)
    case Open => Opened(j, s) && s.blocked && s.order == []
    case Join(k) => Opened(j, s) && !s.blocked && k <= |s.threads| && forall n | k <= n < |s.threads| :: n in s.order
    case Done => Opened(j, s) && !s.blocked && forall n | 0 <= n < |s.threads| :: n in s.order
  }

  lemma {:induction false} DirectGrows(j: Job, log: seq<Entry>, i: nat)
    requires |j.cpus| == |j.plan| && i < |j.plan|
    requires DirectPart(j, log, i) && |log| == |Pick(j.plan, i, true)|
    ensures j.plan[i].Direct? ==>
              DirectPart(j, log + [Entry(j.cpus[i], j.plan[i].rec, false)], i + 1)
              && |log| + 1 == |Pick(j.plan, i + 1, true)|
    ensures !j.plan[i].Direct? ==> DirectPart(j, log, i + 1) && |log| == |Pick(j.plan, i + 1, true)|
  {
  }

  lemma {:induction false} ThreadsGrow(j: Job, threads: seq<Thread>, i: nat)
    requires |j.cpus| == |j.plan| && i < |j.plan| && Made(j, threads, i)
    ensures j.plan[i].Threaded? ==> Made(j, threads + [Thread(j.cpus[i], j.plan[i].src)], i + 1)
    ensures !j.plan[i].Threaded? ==> Made(j, threads, i + 1)
  {
  }

  lemma {:induction false} TurnKeepsInv(j: Job, s: State, i: nat)
    requires Valid(j) && i < |j.cpus| && InLoop(j, s, i)
    ensures InLoop(j, Turn(j, s, i), i + 1)
  {
    DirectGrows(j, s.log, i);
    ThreadsGrow(j, s.threads, i);
  }

  lemma {:induction false} FlagsKeepsInv(j: Job, s: State, t: State)
    requires Valid(j) && InLoop(j, s, |j.cpus|)
    requires t == s.(m := if s.random then j.flagged else s.m, phase := Open)
    ensures Opened(j, t)
  {
    PickExact(j.plan, |j.plan|, true);
    var i :| 0 <= i < |j.plan| && j.plan[i] == Threaded(Target);
    assert s.m == j.ready;
    if s.random {
      assert j.plan[Pick(j.plan, |j.plan|, true)[0]].Direct?;
    }
    if AnyDirect(j.plan) {
      var n :| 0 <= n < |j.plan| && j.plan[n].Direct?;
      assert n in Pick(j.plan, |j.plan|, true);
    }
  }

  lemma {:induction false} WriteKeepsOpened(j: Job, s: State, n: nat, t: State)
    requires Valid(j) && Opened(j, s) && Write(s, n) == Some(t)
    ensures Opened(j, t)
  {
    var d := |Pick(j.plan, |j.plan|, true)|;
    forall a | 0 <= a < |t.order| ensures t.log[d + a] == Written(t.m, t.threads[t.order[a]]) {
      if a < |s.order| {
        assert t.log[d + a] == s.log[d + a];
      }
    }
  }

  lemma {:induction false} CloseKeepsInv(j: Job, s: State, t: State)
    requires Valid(j) && Inv(j, s) && Close(s) == Some(t)
    ensures Inv(j, t)
  {
  }

  lemma {:induction false} ThreadKeepsInv(j: Job, s: State, n: nat, t: State)
    requires Valid(j) && Inv(j, s) && Write(s, n) == Some(t)
    ensures Inv(j, t)
  {
    WriteKeepsOpened(j, s, n, t);
    assert forall x :: x in s.order ==> x in t.order;
  }

  lemma {:induction false} LoopKeepsInv(j: Job, s: State, t: State)
    requires Valid(j) && Inv(j, s) && s.phase.Loop? && Next(j, s, Main) == Some(t)
    ensures Inv(j, t)
  {
    if s.phase.i < |j.cpus| {
      TurnKeepsInv(j, s, s.phase.i);
    }
  }

  lemma {:induction false} StepKeepsInv(j: Job, s: State, a: Action, t: State)
    requires Valid(j) && Inv(j, s) && Next(j, s, a) == Some(t)
    ensures Inv(j, t)
  {
    match a
    case Thr(n) => ThreadKeepsInv(j, s, n, t);
    case Main =>
      match s.phase
      case Loop(i) => LoopKeepsInv(j, s, t);
      case Flags => FlagsKeepsInv(j, s, t);
      case _ => CloseKeepsInv(j, s, t);
  }

  lemma {:induction false} RunKeepsInv(j: Job, s: State, script: seq<Action>, t: State)
    requires Valid(j) && Inv(j, s) && Run(j, s, script) == Some(t)
    ensures Inv(j, t)
    decreases |script|
  {
    if script != [] {
      var n := Next(j, s, script[0]).value;
      StepKeepsInv(j, s, script[0], n);
      RunKeepsInv(j, n, script[1..], t);
    }
  }

  /** No interleaving gets stuck: until the broadcast is done the main thread, or the thread it is
      joining, can move. */
  lemma {:induction false} Progress(j: Job, s: State)
    requires Valid(j) && Inv(j, s) && !s.phase.Done?
    ensures Next(j, s, Main).Some? || (s.phase.Join? && s.phase.k > 0 && Next(j, s, Thr(s.phase.k - 1)).Some?)
  {
  }

  // ---------- every schedule ends ----------

  /** How many steps of the main thread and of the others are still to come, of all that the job has. */
  function Left(j: Job, s: State): int
    requires |j.cpus| == |j.plan|
  {
    var n := |Pick(j.plan, |j.plan|, false)|;
    match s.phase
    case Loop(i) => |j.cpus| - i + 4 + 2 * n
    case Flags => 3 + 2 * n
    case Open => 2 + 2 * n
    case Join(k) => 1 + k + n - |s.order|
    case Done => n - |s.order|
  }

  lemma {:induction false} StepCounts(j: Job, s: State, a: Action, t: State)
    requires Valid(j) && Inv(j, s) && Next(j, s, a) == Some(t)
    ensures Left(j, t) == Left(j, s) - 1
  {
  }

  function Numbers(n: nat): (r: set<nat>)
    ensures |r| == n && forall k: nat :: k in r <==> k < n
  {
    if n == 0 then {} else Numbers(n - 1) + {n - 1}
  }

  function Elements(order: seq<nat>): (r: set<nat>)
    ensures forall k :: k in r <==> k in order
  {
    set k | k in order
  }

  lemma {:induction false} DistinctSize(order: seq<nat>)
    requires forall i, j | 0 <= i < j < |order| :: order[i] != order[j]
    ensures |Elements(order)| == |order|
  {
    if order != [] {
      var front, last := order[..|order| - 1], order[|order| - 1];
      DistinctSize(front);
      assert order == front + [last];
      assert last !in front;
      assert Elements(order) == Elements(front) + {last};
    }
  }

  /** Distinct numbers below n are at most n, and n of them if they are all there. */
  lemma {:induction false} OrderedLength(order: seq<nat>, n: nat)
    requires Ordered(order, n)
    ensures |order| <= n && ((forall k | 0 <= k < n :: k in order) ==> |order| == n)
  {
    var here, all := Elements(order), Numbers(n);
    DistinctSize(order);
    assert here <= all;
    assert here + (all - here) == all;
    if forall k | 0 <= k < n :: k in order {
      assert here == all;
    }
  }

  /** No step is left exactly when the broadcast is done. */
  lemma {:induction false} LeftZero(j: Job, s: State)
    requires Valid(j) && Inv(j, s)
    ensures Left(j, s) >= 0 && (Left(j, s) == 0 <==> s.phase.Done?)
  {
    if s.phase.Join? || s.phase.Done? {
      OrderedLength(s.order, |s.threads|);
    }
  }

  // ---------- which CPUs get a record ----------

  /** The index of the CPU that entry a of the log belongs to. */
  function Origin(j: Job, order: seq<nat>, a: nat): nat {
    var d, t := Pick(j.plan, |j.plan|, true), Pick(j.plan, |j.plan|, false);
    if a < |d| then d[a]
    else if a - |d| < |order| && order[a - |d|] < |t| then t[order[a - |d|]]
    else 0
  }

  lemma {:induction false} LogEntry(j: Job, s: State, a: nat)
    requires Valid(j) && Opened(j, s) && a < |s.log|
    ensures Origin(j, s.order, a) < |j.plan| && !j.plan[Origin(j, s.order, a)].Out?
    ensures s.log[a] == Expected(j, Origin(j, s.order, a))
    ensures s.log[a].threaded == (a >= |Pick(j.plan, |j.plan|, true)|)
  {
    var d := |Pick(j.plan, |j.plan|, true)|;
    if a >= d {
      var k := a - d;
      var n := s.order[k];
      assert s.log[d + k] == Written(s.m, s.threads[n]);
      assert s.threads[n] == Thread(j.cpus[Origin(j, s.order, a)], j.plan[Origin(j, s.order, a)].src);
    }
  }

  /** Every entry is the expected one of its CPU, and direct entries come first. */
  lemma {:induction false} LogExact(j: Job, s: State)
    requires Valid(j) && Opened(j, s)
    ensures forall a | 0 <= a < |s.log| :: Origin(j, s.order, a) < |j.plan| && !j.plan[Origin(j, s.order, a)].Out?
              && s.log[a] == Expected(j, Origin(j, s.order, a))
    ensures forall a | 0 <= a < |s.log| :: s.log[a].threaded == (a >= |Pick(j.plan, |j.plan|, true)|)
  {
    forall a | 0 <= a < |s.log|
      ensures Origin(j, s.order, a) < |j.plan| && !j.plan[Origin(j, s.order, a)].Out?
      ensures s.log[a] == Expected(j, Origin(j, s.order, a))
      ensures s.log[a].threaded == (a >= |Pick(j.plan, |j.plan|, true)|)
    {
      LogEntry(j, s, a);
    }
  }

  lemma {:induction false} OriginDistinct(j: Job, s: State, a: nat, b: nat)
    requires Valid(j) && Opened(j, s) && a < b < |s.log|
    ensures Origin(j, s.order, a) != Origin(j, s.order, b)
  {
    var d, t := Pick(j.plan, |j.plan|, true), Pick(j.plan, |j.plan|, false);
    PickExact(j.plan, |j.plan|, true);
    PickExact(j.plan, |j.plan|, false);
    if |d| <= a {
      var x, y := s.order[a - |d|], s.order[b - |d|];
      assert x != y;
      assert x < y ==> t[x] < t[y];
      assert y < x ==> t[y] < t[x];
    }
  }

  lemma {:induction false} EveryCpuWritten(j: Job, s: State, i: nat)
    requires Valid(j) && Opened(j, s) && forall n | 0 <= n < |s.threads| :: n in s.order
    requires i < |j.cpus| && !j.plan[i].Out?
    ensures Expected(j, i) in s.log
  {
    LogExact(j, s);
    var d, t := Pick(j.plan, |j.plan|, true), Pick(j.plan, |j.plan|, false);
    PickExact(j.plan, |j.plan|, j.plan[i].Direct?);
    if j.plan[i].Direct? {
      var a :| 0 <= a < |d| && d[a] == i;
      assert Origin(j, s.order, a) == i;
    } else {
      var n :| 0 <= n < |t| && t[n] == i;
      assert n in s.order;
      var k :| 0 <= k < |s.order| && s.order[k] == n;
      assert Origin(j, s.order, |d| + k) == i;
    }
  }

  ghost predicate IsExpected(j: Job, e: Entry)
    requires |j.cpus| == |j.plan|
  {
    exists i :: 0 <= i < |j.plan| && !j.plan[i].Out? && e == Expected(j, i)
  }

  /** The log of a finished broadcast: exactly one entry for every CPU that takes part, the expected one,
      none for the others, and all direct entries before all threaded ones. */
  ghost predicate Complete(j: Job, log: seq<Entry>)
    requires |j.cpus| == |j.plan|
  {
    && (forall a | 0 <= a < |log| :: IsExpected(j, log[a]))
    && (forall i | 0 <= i < |j.plan| && !j.plan[i].Out? :: Expected(j, i) in log)
    && (forall a, b | 0 <= a < b < |log| :: log[a].cpu != log[b].cpu)
    && (forall a, b | 0 <= a < b < |log| && log[a].threaded :: log[b].threaded)
  }

  lemma {:induction false} DoneIsComplete(j: Job, s: State)
    requires Valid(j) && Inv(j, s) && s.phase.Done?
    ensures Complete(j, s.log)
  {
    forall i | 0 <= i < |j.plan| && !j.plan[i].Out? ensures Expected(j, i) in s.log {
      EveryCpuWritten(j, s, i);
    }
    LogExact(j, s);
    forall a | 0 <= a < |s.log| ensures IsExpected(j, s.log[a]) {
      assert s.log[a] == Expected(j, Origin(j, s.order, a));
    }
    forall a, b | 0 <= a < b < |s.log| ensures s.log[a].cpu != s.log[b].cpu {
      OriginDistinct(j, s, a, b);
      assert s.log[a].cpu == j.cpus[Origin(j, s.order, a)] && s.log[b].cpu == j.cpus[Origin(j, s.order, b)];
    }
  }
}
