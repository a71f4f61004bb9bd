/** The machine-check injector: held records, the decisions of do_inject_mce on every CPU, and the
    broadcast they amount to. Status bits as in sections 15.3.1.2 and 15.3.2.2 of the Intel SDM,
    volume 3B. */
module MceBroadcast {
  import opened Wrappers
  import opened MceSchedule

  const MCG_STATUS_RIPV: bv64 := 0x1
  const MCG_STATUS_MCIP: bv64 := 0x4
  const MCI_STATUS_UC: bv64 := 0x2000_0000_0000_0000

  const MCJ_CTX_MASK: bv8 := 3
  const MCJ_CTX_RANDOM: bv8 := 0
  const MCJ_CTX_PROCESS: bv8 := 1
  const MCJ_NMI_BROADCAST: bv8 := 4
  const MCJ_EXCEPTION: bv8 := 8
  const MCJ_IRQ_BROADCAST: bv8 := 0x10

  /** The CPUs, the records held for them, and the switches do_inject_mce reads. */
  datatype Setup = Setup(cpus: seq<nat>, held: seq<Option<Mce>>, nobroadcast: bool, irq: bool, norandom: bool)

  /** Distinct CPU ids, a slot for each, every held record in the slot of the CPU it names, and a target
      that is one of the CPUs. */
  ghost predicate ValidSetup(u: Setup, ext: nat) {
    && |u.held| == |u.cpus| && ext in u.cpus
    && (forall i, j | 0 <= i < j < |u.cpus| :: u.cpus[i] != u.cpus[j])
    && (forall i | 0 <= i < |u.held| && u.held[i].Some? :: u.held[i].value.extcpu == u.cpus[i])
  }

  function Ctx(m: Mce): bv8 {
    m.flags & MCJ_CTX_MASK
  }

  function SetProcess(m: Mce): Mce {
    m.(flags := (m.flags & !MCJ_CTX_MASK) | (MCJ_CTX_PROCESS & MCJ_CTX_MASK))
  }

  /** The record made up for a CPU that only takes part in the broadcast. */
  function Other(m: Mce, cpu: nat): Mce {
    Mce(m.status & MCI_STATUS_UC,
        (m.mcgstatus & MCG_STATUS_MCIP) | (if m.status & MCI_STATUS_UC != 0 then MCG_STATUS_RIPV else 0),
        MCJ_EXCEPTION, 0, cpu % 256, cpu, 0)
  }

  function Flagged(u: Setup, m: Mce): Mce {
    m.(flags := m.flags | if u.irq then MCJ_IRQ_BROADCAST else MCJ_NMI_BROADCAST)
  }

  /** One turn of the loop of do_inject_mce, on the target record as it is at that moment. */
  function CodeTurn(u: Setup, s: State, i: nat): State
    requires i < |u.cpus| == |u.held|
  {
    var cpu := u.cpus[i];
    if cpu == s.m.extcpu then
      s.(m := if Ctx(s.m) == MCJ_CTX_RANDOM then SetProcess(s.m) else s.m,
         threads := s.threads + [Thread(cpu, Target)], phase := Loop(i + 1))
    else if u.held[i].None? && u.nobroadcast then s.(phase := Loop(i + 1))
    else
      var rec := if u.held[i].Some? then u.held[i].value else Other(s.m, cpu);
      if u.norandom && Ctx(rec) == MCJ_CTX_RANDOM then
        s.(threads := s.threads + [Thread(cpu, Own(SetProcess(rec)))], phase := Loop(i + 1))
      else if Ctx(rec) == MCJ_CTX_RANDOM then
        s.(log := s.log + [Entry(cpu, rec, false)], random := true, phase := Loop(i + 1))
      else
        s.(threads := s.threads + [Thread(cpu, Own(rec))], phase := Loop(i + 1))
  }

  /** do_inject_mce and the injector threads. */
  function CodeNext(u: Setup, s: State, a: Action): Option<State>
    requires |u.cpus| == |u.held|
  {
    match a
    case Thr(n) => Write(s, n)
    case Main =>
      match s.phase
      case Loop(i) => Some(if i < |u.cpus| then CodeTurn(u, s, i) else s.(phase := Flags))
      case Flags => Some(s.(m := if s.random then Flagged(u, s.m) else s.m, phase := Open))
      case _ => Close(s)
  }

  function CodeRun(u: Setup, s: State, script: seq<Action>): Option<State>
    requires |u.cpus| == |u.held|
    decreases |script|
  {
    if script == [] then Some(s)
    else match CodeNext(u, s, script[0])
         case None => None
         case Some(t) => CodeRun(u, t, script[1..])
  }

  // ---------- the job a setup amounts to ----------

  function Ready(m: Mce): Mce {
    if Ctx(m) == MCJ_CTX_RANDOM then SetProcess(m) else m
  }

  function PlanOf(u: Setup, m: Mce, i: nat): Plan
    requires i < |u.cpus| == |u.held|
  {
    var rec := if u.held[i].Some? then u.held[i].value else Other(m, u.cpus[i]);
    if u.cpus[i] == m.extcpu then Threaded(Target)
    else if u.held[i].None? && u.nobroadcast then Out
    else if Ctx(rec) != MCJ_CTX_RANDOM then Threaded(Own(rec))
    else if u.norandom then Threaded(Own(SetProcess(rec)))
    else Direct(rec)
  }

  function Plans(u: Setup, m: Mce, k: nat): (p: seq<Plan>)
    requires k <= |u.cpus| == |u.held|
    ensures |p| == k && forall i | 0 <= i < k :: p[i] == PlanOf(u, m, i)
  {
    if k == 0 then [] else Plans(u, m, k - 1) + [PlanOf(u, m, k - 1)]
  }

  function JobOf(u: Setup, m: Mce): Job
    requires |u.cpus| == |u.held|
  {
    Job(u.cpus, Plans(u, m, |u.cpus|), m, Ready(m), Flagged(u, Ready(m)))
  }

  lemma {:induction false} FlagBits(f: bv8)
    ensures ((f & !MCJ_CTX_MASK) | (MCJ_CTX_PROCESS & MCJ_CTX_MASK)) & MCJ_CTX_MASK == MCJ_CTX_PROCESS
    ensures (f | MCJ_IRQ_BROADCAST) & MCJ_CTX_MASK == f & MCJ_CTX_MASK
    ensures (f | MCJ_NMI_BROADCAST) & MCJ_CTX_MASK == f & MCJ_CTX_MASK
    ensures (f | MCJ_IRQ_BROADCAST) & MCJ_IRQ_BROADCAST != 0 && (f | MCJ_NMI_BROADCAST) & MCJ_NMI_BROADCAST != 0
  {
  }

  lemma {:induction false} ReadyStable(m: Mce)
    ensures Ctx(Ready(m)) != MCJ_CTX_RANDOM && Ready(Ready(m)) == Ready(m)
  {
    FlagBits(m.flags);
  }

  lemma {:induction false} JobValid(u: Setup, m: Mce)
    requires ValidSetup(u, m.extcpu)
    ensures Valid(JobOf(u, m))
  {
    var i :| 0 <= i < |u.cpus| && u.cpus[i] == m.extcpu;
    assert JobOf(u, m).plan[i] == Threaded(Target);
  }

  /** Setting the context of the target on the way does not change what is decided for the others. */
  lemma {:induction false} PlanReady(u: Setup, m: Mce, i: nat)
    requires i < |u.cpus| == |u.held|
    ensures PlanOf(u, Ready(m), i) == PlanOf(u, m, i)
  {
    assert Other(Ready(m), u.cpus[i]) == Other(m, u.cpus[i]);
  }

  lemma {:induction false} TurnPlan(u: Setup, s: State, i: nat)
    requires i < |u.cpus| == |u.held|
    ensures CodeTurn(u, s, i) ==
            match PlanOf(u, s.m, i)
            case Out => s.(phase := Loop(i + 1))
            case Direct(rec) => s.(log := s.log + [Entry(u.cpus[i], rec, false)], random := true, phase := Loop(i + 1))
            case Threaded(src) =>
              s.(m := if src.Target? then Ready(s.m) else s.m,
                 threads := s.threads + [Thread(u.cpus[i], src)], phase := Loop(i + 1))
  {
  }

  lemma {:induction false} CodeTurnIsTurn(u: Setup, m: Mce, s: State, i: nat)
    requires i < |u.cpus| == |u.held| && (s.m == m || s.m == Ready(m))
    ensures CodeTurn(u, s, i) == Turn(JobOf(u, m), s, i)
  {
    TurnPlan(u, s, i);
    PlanReady(u, m, i);
    ReadyStable(m);
    assert JobOf(u, m).plan[i] == PlanOf(u, m, i) == PlanOf(u, s.m, i);
    assert Ready(s.m) == Ready(m);
  }

  lemma {:induction false} FlagsAfterReady(u: Setup, m: Mce, s: State)
    requires ValidSetup(u, m.extcpu) && Valid(JobOf(u, m)) && InLoop(JobOf(u, m), s, |u.cpus|)
    ensures s.m == Ready(m)
  {
    var j := JobOf(u, m);
    var i :| 0 <= i < |j.plan| && j.plan[i] == Threaded(Target);
  }

  /** The code takes the steps of the job. */
  lemma {:induction false} CodeStepIsJobStep(u: Setup, m: Mce, s: State, a: Action)
    requires ValidSetup(u, m.extcpu) && Valid(JobOf(u, m)) && Inv(JobOf(u, m), s)
    ensures CodeNext(u, s, a) == Next(JobOf(u, m), s, a)
  {
    if a.Main? && s.phase.Loop? && s.phase.i < |u.cpus| {
      CodeTurnIsTurn(u, m, s, s.phase.i);
    } else if a.Main? && s.phase.Flags? {
      FlagsAfterReady(u, m, s);
    }
  }

  lemma {:induction false} CodeRunKeepsInv(u: Setup, m: Mce, s: State, script: seq<Action>, t: State)
    requires ValidSetup(u, m.extcpu) && Inv(JobOf(u, m), s) && CodeRun(u, s, script) == Some(t)
    ensures Inv(JobOf(u, m), t)
    decreases |script|
  {
    if script != [] {
      JobValid(u, m);
      CodeStepIsJobStep(u, m, s, script[0]);
      var n := CodeNext(u, s, script[0]).value;
      StepKeepsInv(JobOf(u, m), s, script[0], n);
      CodeRunKeepsInv(u, m, n, script[1..], t);
    }
  }

  lemma {:induction false} BeginInv(u: Setup, m: Mce)
    requires ValidSetup(u, m.extcpu)
    ensures Inv(JobOf(u, m), Begin(m))
  {
  }

  // ---------- the broadcast ----------

  /** Whatever the schedule, a finished broadcast has written exactly one record for the target, for
      every CPU with a held record and, unless broadcast is off, for every other CPU; all direct writes
      come before all threaded ones. */
  lemma {:induction false} BroadcastWritesOnePerCpu(u: Setup, m: Mce, script: seq<Action>, s: State)
    requires ValidSetup(u, m.extcpu) && CodeRun(u, Begin(m), script) == Some(s) && s.phase.Done?
    ensures Complete(JobOf(u, m), s.log)
    ensures forall i | 0 <= i < |u.cpus| ::
              JobOf(u, m).plan[i].Out? <==> u.cpus[i] != m.extcpu && u.held[i].None? && u.nobroadcast
  {
    BeginInv(u, m);
    CodeRunKeepsInv(u, m, Begin(m), script, s);
    JobValid(u, m);
    DoneIsComplete(JobOf(u, m), s);
  }

  /** Until then the main thread or the thread it joins can always move. */
  lemma {:induction false} BroadcastProgress(u: Setup, m: Mce, script: seq<Action>, s: State)
    requires ValidSetup(u, m.extcpu) && CodeRun(u, Begin(m), script) == Some(s) && !s.phase.Done?
    ensures CodeNext(u, s, Main).Some? || (s.phase.Join? && s.phase.k > 0 && CodeNext(u, s, Thr(s.phase.k - 1)).Some?)
  {
    BeginInv(u, m);
    CodeRunKeepsInv(u, m, Begin(m), script, s);
    JobValid(u, m);
    Progress(JobOf(u, m), s);
    CodeStepIsJobStep(u, m, s, Main);
    if s.phase.Join? && s.phase.k > 0 {
      CodeStepIsJobStep(u, m, s, Thr(s.phase.k - 1));
    }
  }

  lemma {:induction false} CodeRunCounts(u: Setup, m: Mce, s: State, script: seq<Action>, t: State)
    requires ValidSetup(u, m.extcpu) && Inv(JobOf(u, m), s) && CodeRun(u, s, script) == Some(t)
    ensures Left(JobOf(u, m), t) == Left(JobOf(u, m), s) - |script|
    decreases |script|
  {
    if script != [] {
      JobValid(u, m);
      CodeStepIsJobStep(u, m, s, script[0]);
      var n := CodeNext(u, s, script[0]).value;
      StepKeepsInv(JobOf(u, m), s, script[0], n);
      StepCounts(JobOf(u, m), s, script[0], n);
      CodeRunCounts(u, m, n, script[1..], t);
    }
  }

  ghost predicate CannotMove(u: Setup, s: State)
    requires |u.cpus| == |u.held|
  {
    forall a :: CodeNext(u, s, a).None?
  }

  /** How many steps a broadcast takes. */
  function Steps(u: Setup, m: Mce): int
    requires |u.cpus| == |u.held|
  {
    |u.cpus| + 4 + 2 * |Pick(Plans(u, m, |u.cpus|), |u.cpus|, false)|
  }

  /** Every schedule ends after the same number of steps, with the broadcast done, and stops nowhere
      before. */
  lemma {:induction false} BroadcastTerminates(u: Setup, m: Mce, script: seq<Action>, s: State)
    requires ValidSetup(u, m.extcpu) && CodeRun(u, Begin(m), script) == Some(s)
    ensures |script| <= Steps(u, m)
    ensures |script| == Steps(u, m) <==> s.phase.Done?
    ensures CannotMove(u, s) <==> s.phase.Done?
  {
    BeginInv(u, m);
    CodeRunKeepsInv(u, m, Begin(m), script, s);
    CodeRunCounts(u, m, Begin(m), script, s);
    JobValid(u, m);
    LeftZero(JobOf(u, m), s);
    if s.phase.Done? {
      assert forall n: nat | n < |s.threads| :: n in s.order;
    } else {
      BroadcastProgress(u, m, script, s);
    }
  }

  /** The target's record is always written by a thread, in process context if it came with a random
      one, and with the broadcast flag exactly as set when some record is written directly. */
  lemma {:induction false} TargetRecord(u: Setup, m: Mce, i: nat)
    requires ValidSetup(u, m.extcpu) && i < |u.cpus| && u.cpus[i] == m.extcpu
    ensures Expected(JobOf(u, m), i) == Entry(m.extcpu, Shared(JobOf(u, m)), true)
    ensures Ctx(Shared(JobOf(u, m))) == if Ctx(m) == MCJ_CTX_RANDOM then MCJ_CTX_PROCESS else Ctx(m)
    ensures AnyDirect(JobOf(u, m).plan) ==>
              Shared(JobOf(u, m)).flags & (if u.irq then MCJ_IRQ_BROADCAST else MCJ_NMI_BROADCAST) != 0
    ensures !AnyDirect(JobOf(u, m).plan) ==> Shared(JobOf(u, m)) == Ready(m)
  {
    FlagBits(m.flags);
    FlagBits(Ready(m).flags);
  }

  lemma {:induction false} PlanRecord(u: Setup, m: Mce, i: nat)
    requires ValidSetup(u, m.extcpu) && i < |u.cpus|
    ensures match PlanOf(u, m, i)
            case Out => true
            case Direct(rec) => rec.extcpu == u.cpus[i] && Ctx(rec) == MCJ_CTX_RANDOM && !u.norandom
            case Threaded(Target) => u.cpus[i] == m.extcpu
            case Threaded(Own(rec)) => rec.extcpu == u.cpus[i] && Ctx(rec) != MCJ_CTX_RANDOM
  {
    var rec := if u.held[i].Some? then u.held[i].value else Other(m, u.cpus[i]);
    FlagBits(rec.flags);
  }

  /** Every record names the CPU it is written for, and the direct ones are exactly those with a random
      context when that is allowed. */
  lemma {:induction false} RecordNamesCpu(u: Setup, m: Mce, i: nat)
    requires ValidSetup(u, m.extcpu) && i < |u.cpus| && !JobOf(u, m).plan[i].Out?
    ensures Expected(JobOf(u, m), i).rec.extcpu == u.cpus[i] == Expected(JobOf(u, m), i).cpu
    ensures !Expected(JobOf(u, m), i).threaded <==> !u.norandom && Ctx(Expected(JobOf(u, m), i).rec) == MCJ_CTX_RANDOM
  {
    PlanRecord(u, m, i);
    assert JobOf(u, m).plan[i] == PlanOf(u, m, i);
    if u.cpus[i] == m.extcpu {
      TargetRecord(u, m, i);
    }
  }

  // ---------- what the records say ----------

  lemma {:induction false} ContextBits(f: bv8)
    ensures ((f & !MCJ_CTX_MASK) | (MCJ_CTX_PROCESS & MCJ_CTX_MASK)) & !MCJ_CTX_MASK == f & !MCJ_CTX_MASK
    ensures (f | MCJ_IRQ_BROADCAST) & !MCJ_IRQ_BROADCAST == f & !MCJ_IRQ_BROADCAST
    ensures (f | MCJ_NMI_BROADCAST) & !MCJ_NMI_BROADCAST == f & !MCJ_NMI_BROADCAST
  {
  }

  lemma {:induction false} StatusBits(g: bv64, uc: bool)
    ensures var r := (g & 0x4) | if uc then 0x1 else 0;
            (r & 0x1 != 0 <==> uc) && r & 0x4 == g & 0x4 && r & !0x5 == 0
  {
    if uc {
      assert ((g & 0x4) | 0x1) & 0x1 == 0x1 && ((g & 0x4) | 0x1) & 0x4 == g & 0x4 && ((g & 0x4) | 0x1) & !0x5 == 0;
    } else {
      assert (g & 0x4) | 0 == g & 0x4;
      assert (g & 0x4) & 0x1 == 0 && (g & 0x4) & 0x4 == g & 0x4 && (g & 0x4) & !0x5 == 0;
    }
  }

  /** A CPU that only takes part in the broadcast: of the status just the UC bit, restart-IP valid exactly if
      the target's error is uncorrected, in progress as the target says and no other global status, an
      exception to be raised, in process context if random ones are not allowed, and its own number. */
  lemma {:induction false} SecondaryRecord(u: Setup, m: Mce, i: nat)
    requires ValidSetup(u, m.extcpu) && i < |u.cpus| && u.cpus[i] != m.extcpu && u.held[i].None? && !u.nobroadcast
    ensures !JobOf(u, m).plan[i].Out?
    ensures var rec := Expected(JobOf(u, m), i).rec;
            && rec.status == m.status & MCI_STATUS_UC
            && (rec.mcgstatus & MCG_STATUS_RIPV != 0 <==> m.status & MCI_STATUS_UC != 0)
            && rec.mcgstatus & MCG_STATUS_MCIP == m.mcgstatus & MCG_STATUS_MCIP
            && rec.mcgstatus & !(MCG_STATUS_RIPV | MCG_STATUS_MCIP) == 0
            && rec.flags == (if u.norandom then MCJ_EXCEPTION | MCJ_CTX_PROCESS else MCJ_EXCEPTION)
            && rec.extcpu == u.cpus[i] && rec.cpu == u.cpus[i] % 256 && rec.bank == 0 && rec.payload == 0
  {
    assert JobOf(u, m).plan[i] == PlanOf(u, m, i);
    StatusBits(m.mcgstatus, m.status & MCI_STATUS_UC != 0);
  }

  /** A CPU with a held record gets that record, moved to process context if it came with a random one and
      that is not allowed. */
  lemma {:induction false} HeldRecord(u: Setup, m: Mce, i: nat)
    requires ValidSetup(u, m.extcpu) && i < |u.cpus| && u.cpus[i] != m.extcpu && u.held[i].Some?
    ensures !JobOf(u, m).plan[i].Out?
    ensures var rec, held := Expected(JobOf(u, m), i).rec, u.held[i].value;
            && rec.(flags := held.flags) == held && rec.flags & !MCJ_CTX_MASK == held.flags & !MCJ_CTX_MASK
            && rec.flags & MCJ_CTX_MASK ==
               if u.norandom && held.flags & MCJ_CTX_MASK == MCJ_CTX_RANDOM then MCJ_CTX_PROCESS
               else held.flags & MCJ_CTX_MASK
  {
    assert JobOf(u, m).plan[i] == PlanOf(u, m, i);
    ContextBits(u.held[i].value.flags);
    FlagBits(u.held[i].value.flags);
  }

  /** The target gets its own record; of the flags only the context and the broadcast flag can change. */
  lemma {:induction false} TargetKeepsRecord(u: Setup, m: Mce, i: nat)
    requires ValidSetup(u, m.extcpu) && i < |u.cpus| && u.cpus[i] == m.extcpu
    ensures var rec := Expected(JobOf(u, m), i).rec;
            var changed := MCJ_CTX_MASK | if u.irq then MCJ_IRQ_BROADCAST else MCJ_NMI_BROADCAST;
            rec.(flags := m.flags) == m && rec.flags & !changed == m.flags & !changed
  {
    assert JobOf(u, m).plan[i] == PlanOf(u, m, i);
    TargetBits(m.flags);
  }

  lemma {:induction false} TargetBits(f: bv8)
    ensures var g := (f & !MCJ_CTX_MASK) | (MCJ_CTX_PROCESS & MCJ_CTX_MASK);
            var irq, nmi := MCJ_CTX_MASK | MCJ_IRQ_BROADCAST, MCJ_CTX_MASK | MCJ_NMI_BROADCAST;
            && g & !irq == f & !irq && (g | MCJ_IRQ_BROADCAST) & !irq == f & !irq && (f | MCJ_IRQ_BROADCAST) & !irq == f & !irq
            && g & !nmi == f & !nmi && (g | MCJ_NMI_BROADCAST) & !nmi == f & !nmi && (f | MCJ_NMI_BROADCAST) & !nmi == f & !nmi
  {
  }

  // ---------- the injector ----------

  datatype Outcome = Exit | Held | Inject(setup: Setup, m: Mce)

  class Injector {
    const cpus: seq<nat>
    const maxBank: nat
    var held: seq<Option<Mce>>
    var nobroadcast: bool
    var hold: bool
    var raise: bool
    var irq: bool
    var nmi: bool
    var norandom: bool

    ghost predicate Valid()
      reads this
    {
      && |held| == |cpus| && (forall i, j | 0 <= i < j < |cpus| :: cpus[i] != cpus[j])
      && (forall i | 0 <= i < |held| && held[i].Some? :: held[i].value.extcpu == cpus[i])
    }

    /** -1 stands for the exit of the source when the CPU is not online. */
    method CpuIdToIndex(id: nat) returns (r: int)
      ensures -1 <= r < |cpus|
      ensures r == -1 <==> id !in cpus
      ensures r >= 0 ==> cpus[r] == id && forall i | 0 <= i < r :: cpus[i] != id
    {
      for i := 0 to |cpus|
        invariant forall j | 0 <= j < i :: cpus[j] != id
      {
        if cpus[i] == id {
          return i;
        }
      }
      return -1;
    }

    /** inject_mce up to the call of do_inject_mce, whose arguments it returns; the held records are
        dropped afterwards. A record that does not raise an exception turns broadcasting off for good. */
    method InjectMce(given: Mce) returns (r: Outcome)
      requires Valid()
      modifies this
      ensures Valid()
      ensures r.Exit? <==> given.extcpu !in cpus || given.bank > maxBank
      ensures hold == old(hold) && raise == old(raise) && norandom == old(norandom)
      ensures !r.Inject? ==> nobroadcast == old(nobroadcast) && irq == old(irq) && nmi == old(nmi)
      ensures r.Exit? ==> held == old(held)
      ensures r.Held? ==> hold
      ensures r.Held? ==>
                exists i :: 0 <= i < |cpus| && cpus[i] == given.extcpu && held == old(held)[i := Some(Raised(old(raise), given))]
      ensures r.Inject? ==> !old(hold) && r.m == Raised(old(raise), given) && ValidSetup(r.setup, r.m.extcpu)
      ensures r.Inject? ==> r.setup == Setup(cpus, old(held), nobroadcast, irq, old(norandom))
      ensures r.Inject? ==> nobroadcast == (old(nobroadcast) || r.m.flags & MCJ_EXCEPTION == 0)
      ensures r.Inject? ==> irq == (old(irq) && r.m.flags & MCJ_EXCEPTION != 0)
      ensures r.Inject? ==> nmi == (old(nmi) && r.m.flags & MCJ_EXCEPTION != 0)
      ensures r.Inject? ==> forall i | 0 <= i < |held| :: held[i].None?
    {
      var index := CpuIdToIndex(given.extcpu);
      if index < 0 || given.bank > maxBank {
        return Exit;
      }
      var m := SetException(given);
      if hold {
        held := held[index := Some(m)];
        return Held;
      }
      if m.flags & MCJ_EXCEPTION == 0 {
        nobroadcast, irq, nmi := true, false, false;
      }
      r := Inject(Setup(cpus, held, nobroadcast, irq, norandom), m);
      DropHeld();
    }

    /** Unless the record is to be raised as given, its exception flag follows the UC bit; nothing else
        changes. */
    method SetException(given: Mce) returns (m: Mce)
      ensures m.(flags := given.flags) == given && (raise ==> m == given)
      ensures !raise ==> (m.flags & MCJ_EXCEPTION != 0 <==> given.status & MCI_STATUS_UC != 0)
      ensures !raise ==> m.flags & !MCJ_EXCEPTION == given.flags & !MCJ_EXCEPTION
      ensures m == Raised(raise, given)
    {
      ExceptionBits(given.flags);
      m := given;
      if !raise {
        if m.status & MCI_STATUS_UC != 0 {
          m := m.(flags := m.flags | MCJ_EXCEPTION);
        } else {
          m := m.(flags := m.flags & !MCJ_EXCEPTION);
        }
      }
    }

    method DropHeld()
      requires |held| == |cpus|
      modifies this`held
      ensures |held| == |cpus| && forall i | 0 <= i < |held| :: held[i].None?
    {
      var i := 0;
      while i < |cpus|
        invariant 0 <= i <= |cpus| == |held|
        invariant forall k | 0 <= k < i :: held[k].None?
      {
        held := held[i := None];
        i := i + 1;
      }
    }
  }

  lemma {:induction false} ExceptionBits(f: bv8)
    ensures (f | MCJ_EXCEPTION) & MCJ_EXCEPTION != 0 && (f & !MCJ_EXCEPTION) & MCJ_EXCEPTION == 0
    ensures (f | MCJ_EXCEPTION) & !MCJ_EXCEPTION == f & !MCJ_EXCEPTION
    ensures (f & !MCJ_EXCEPTION) & !MCJ_EXCEPTION == f & !MCJ_EXCEPTION
  {
  }

  function Raised(raise: bool, m: Mce): Mce {
    if raise then m
    else if m.status & MCI_STATUS_UC != 0 then m.(flags := m.flags | MCJ_EXCEPTION)
    else m.(flags := m.flags & !MCJ_EXCEPTION)
  }
}
