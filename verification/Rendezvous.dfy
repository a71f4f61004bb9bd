/** The rendezvous between a test program and its controller: the program writes a message to the pipe
    and waits, the controller reads the message and answers with one SIGUSR1. A pending signal is a
    single bit (section 2.4 of POSIX.1-2017 System Interfaces), so two of them would merge. */
module Rendezvous {
  import opened Wrappers

  /** A wait message asks for a signal; an information message is only logged. */
  datatype Msg = Wait | Info

  /** Where the program is: between messages, or at the given statement of pprintf_wait. */
  datatype Pc = Idle | Install | Print | Spin | Restore

  datatype Controller = Reading | Sending

  datatype State = State(
    todo: seq<Msg>, pc: Pc, flag: bool, handler: bool,
    pipe: seq<Msg>, ctl: Controller, pending: bool,
    printed: nat, sent: nat, delivered: nat, completed: nat, merged: nat)

  /** A statement of the program, the delivery of the pending signal, or a statement of the controller. */
  datatype Action = Program | Deliver | Control

  function Init(msgs: seq<Msg>): State {
    State(msgs, Idle, false, false, [], Reading, false, 0, 0, 0, 0, 0)
  }

  /** The controller: read one line; if it is a wait message, send the signal. */
  function ControlStep(s: State): Option<State> {
    match s.ctl
    case Reading =>
      if s.pipe == [] then None
      else Some(s.(pipe := s.pipe[1..], ctl := if s.pipe[0] == Wait then Sending else Reading))
    case Sending =>
      Some(s.(ctl := Reading, pending := true, sent := s.sent + 1,
              merged := if s.pending then s.merged + 1 else s.merged))
  }

  /** The program with the flag loop of pprintf_wait. The outer handler of SIGUSR1 does nothing. */
  function FlagStep(s: State, a: Action): Option<State> {
    match a
    case Control => ControlStep(s)
    case Deliver =>
      if !s.pending then None
      else Some(s.(pending := false, delivered := s.delivered + 1, flag := if s.handler then false else s.flag))
    case Program =>
      match s.pc
      case Idle =>
        if s.todo == [] then None
        else if s.todo[0] == Info then Some(s.(todo := s.todo[1..], pipe := s.pipe + [Info]))
        else Some(s.(pc := Install, flag := true))
      case Install => Some(s.(pc := Print, handler := true))
      case Print => Some(s.(pc := Spin, pipe := s.pipe + [Wait], printed := s.printed + 1))
      case Spin => if s.flag then None else Some(s.(pc := Restore))
      case Restore =>
        if s.todo == [] then None
        else Some(s.(pc := Idle, handler := false, todo := s.todo[1..], completed := s.completed + 1))
  }

  function FlagRun(s: State, script: seq<Action>): Option<State>
    decreases |script|
  {
    if script == [] then Some(s)
    else match FlagStep(s, script[0])
         case None => None
         case Some(t) => FlagRun(t, script[1..])
  }

  function Waits(q: seq<Msg>): nat {
    if q == [] then 0 else (if q[0] == Wait then 1 else 0) + Waits(q[1..])
  }

  lemma {:induction false} WaitsAppend(q: seq<Msg>, m: Msg)
    ensures Waits(q + [m]) == Waits(q) + if m == Wait then 1 else 0
  {
    if q != [] {
      assert (q + [m])[1..] == q[1..] + [m];
      WaitsAppend(q[1..], m);
    } else {
      assert q + [m] == [m];
      assert [m][1..] == [];
    }
  }

  /** Answers on their way: wait messages not read yet, a signal about to be sent, a pending signal. */
  function Outstanding(s: State): nat {
    Waits(s.pipe) + (if s.ctl == Sending then 1 else 0) + (if s.pending then 1 else 0)
  }

  /** What every interleaving keeps. */
  ghost predicate Inv(s: State) {
    && s.merged == 0 && s.sent == s.delivered + (if s.pending then 1 else 0)
    && s.printed == s.delivered + Outstanding(s)
    && s.handler == (s.pc in {Print, Spin, Restore})
    && (s.pc in {Install, Print, Spin, Restore} ==> s.todo != [] && s.todo[0] == Wait)
    && s.printed == s.completed + (if s.pc in {Spin, Restore} then 1 else 0)
    && (s.pc in {Install, Print} ==> s.flag)
    && (s.pc == Spin ==> s.flag == (Outstanding(s) == 1))
    && Outstanding(s) == if s.pc == Spin && s.flag then 1 else 0
  }

  lemma {:induction false} FlagStepKeepsInv(s: State, a: Action, t: State)
    requires Inv(s) && FlagStep(s, a) == Some(t)
    ensures Inv(t)
  {
    if a == Program && s.pc == Print {
      WaitsAppend(s.pipe, Wait);
    } else if a == Program && s.pc == Idle {
      WaitsAppend(s.pipe, Info);
    }
  }

  // ---------- every run ends ----------

  function CostOf(q: seq<Msg>): nat {
    if q == [] then 0 else (if q[0] == Wait then 8 else 2) + CostOf(q[1..])
  }

  function PipeCost(q: seq<Msg>): nat {
    if q == [] then 0 else (if q[0] == Wait then 3 else 1) + PipeCost(q[1..])
  }

  lemma {:induction false} PipeCostAppend(q: seq<Msg>, m: Msg)
    ensures PipeCost(q + [m]) == PipeCost(q) + if m == Wait then 3 else 1
  {
    if q != [] {
      assert (q + [m])[1..] == q[1..] + [m];
      PipeCostAppend(q[1..], m);
    } else {
      assert q + [m] == [m];
      assert [m][1..] == [];
    }
  }

  /** How many statements of either side are still to come. */
  function Left(s: State): int {
    CostOf(s.todo) + PipeCost(s.pipe) + (if s.ctl == Sending then 2 else 0) + (if s.pending then 1 else 0)
    - match s.pc case Idle => 0 case Install => 1 case Print => 2 case Spin => 6 case Restore => 7
  }

  lemma {:induction false} FlagStepCounts(s: State, a: Action, t: State)
    requires Inv(s) && FlagStep(s, a) == Some(t)
    ensures Left(t) == Left(s) - 1
  {
    if a == Program && s.pc == Print {
      PipeCostAppend(s.pipe, Wait);
    } else if a == Program && s.pc == Idle {
      PipeCostAppend(s.pipe, Info);
    }
  }

  predicate Finished(s: State) {
    s.todo == [] && s.pipe == [] && s.ctl == Reading && !s.pending
  }

  lemma {:induction false} LeftZero(s: State)
    requires Inv(s)
    ensures Left(s) >= 0 && (Left(s) == 0 <==> Finished(s))
  {
    assert s.todo != [] ==> CostOf(s.todo) >= 2;
  }

  /** Nobody waits for ever: unless everything is done, one of the three can move. */
  lemma {:induction false} FlagProgress(s: State)
    requires Inv(s) && !Finished(s)
    ensures exists a :: FlagStep(s, a).Some?
  {
    if s.pc == Spin && s.flag {
      if s.pending {
        assert FlagStep(s, Deliver).Some?;
      } else {
        assert s.ctl == Reading ==> s.pipe != [];
        assert FlagStep(s, Control).Some?;
      }
    } else if s.todo != [] {
      assert FlagStep(s, Program).Some?;
    } else {
      assert FlagStep(s, Control).Some?;
    }
  }

  lemma {:induction false} FlagRunKeepsInv(s: State, script: seq<Action>, t: State)
    requires Inv(s) && FlagRun(s, script) == Some(t)
    ensures Inv(t) && Left(t) == Left(s) - |script|
    decreases |script|
  {
    if script != [] {
      var m := FlagStep(s, script[0]).value;
      FlagStepKeepsInv(s, script[0], m);
      FlagStepCounts(s, script[0], m);
      FlagRunKeepsInv(m, script[1..], t);
    }
  }

  /** In every interleaving: no signal is merged into another, at most one answer is outstanding, the
      k-th wait ends only after the k-th signal was sent and delivered, and no wait starts before the
      previous one ended. */
  lemma {:induction false} FlagSafety(msgs: seq<Msg>, script: seq<Action>, s: State)
    requires FlagRun(Init(msgs), script) == Some(s)
    ensures s.merged == 0 && Outstanding(s) <= 1
    ensures s.completed <= s.delivered <= s.sent <= s.printed <= s.completed + 1
  {
    FlagRunKeepsInv(Init(msgs), script, s);
  }

  /** Every interleaving that cannot be continued is complete: all waits ended, after the same number of
      steps whatever the order. */
  lemma {:induction false} FlagTerminates(msgs: seq<Msg>, script: seq<Action>, s: State)
    requires FlagRun(Init(msgs), script) == Some(s)
    ensures |script| <= CostOf(msgs)
    ensures (forall a :: FlagStep(s, a).None?) <==> |script| == CostOf(msgs)
    ensures |script| == CostOf(msgs) ==> s.todo == [] && s.completed == s.sent == s.printed
  {
    FlagRunKeepsInv(Init(msgs), script, s);
    LeftZero(s);
    if !Finished(s) {
      FlagProgress(s);
    }
  }

  // ---------- print, then pause() ----------

  /** The program of hugetlb_1gb.c: the message is printed, then pause() waits for a signal to arrive
      from then on. early records that the answer of the current wait came before pause(). */
  datatype Pausing = Pausing(base: State, paused: bool, early: bool)

  function PauseStep(p: Pausing, a: Action): Option<Pausing> {
    var s := p.base;
    match a
    case Control =>
      (match ControlStep(s)
       case None => None
       case Some(t) => Some(p.(base := t)))
    case Deliver =>
      if !s.pending then None
      else
        var t := s.(pending := false, delivered := s.delivered + 1);
        if p.paused && s.todo != [] then
          Some(p.(base := t.(pc := Idle, todo := s.todo[1..], completed := s.completed + 1), paused := false))
        else Some(p.(base := t, early := p.early || s.pc == Spin))
    case Program =>
      match s.pc
      case Idle =>
        if s.todo == [] then None
        else if s.todo[0] == Info then Some(p.(base := s.(todo := s.todo[1..], pipe := s.pipe + [Info])))
        else Some(p.(base := s.(pc := Print)))
      case Print => Some(p.(base := s.(pc := Spin, pipe := s.pipe + [Wait], printed := s.printed + 1)))
      case Spin => if p.paused then None else Some(p.(paused := true))
      case _ => None
  }

  function PauseRun(p: Pausing, script: seq<Action>): Option<Pausing>
    decreases |script|
  {
    if script == [] then Some(p)
    else match PauseStep(p, script[0])
         case None => None
         case Some(t) => PauseRun(t, script[1..])
  }

  ghost predicate PauseInv(p: Pausing) {
    var s := p.base;
    && s.pc in {Idle, Print, Spin}
    && (s.pc in {Print, Spin} ==> s.todo != [] && s.todo[0] == Wait)
    && (p.paused ==> s.pc == Spin) && (p.early ==> s.pc == Spin)
    && Outstanding(s) == if s.pc == Spin && !p.early then 1 else 0
  }

  lemma {:induction false} PauseStepKeepsInv(p: Pausing, a: Action, q: Pausing)
    requires PauseInv(p) && PauseStep(p, a) == Some(q)
    ensures PauseInv(q) && (p.early ==> q.early)
  {
    if a == Program && p.base.pc == Print {
      WaitsAppend(p.base.pipe, Wait);
    } else if a == Program && p.base.pc == Idle {
      WaitsAppend(p.base.pipe, Info);
    }
  }

  lemma {:induction false} PauseRunKeepsInv(p: Pausing, script: seq<Action>, q: Pausing)
    requires PauseInv(p) && PauseRun(p, script) == Some(q)
    ensures PauseInv(q) && (p.early ==> q.early)
    decreases |script|
  {
    if script != [] {
      var m := PauseStep(p, script[0]).value;
      PauseStepKeepsInv(p, script[0], m);
      PauseRunKeepsInv(m, script[1..], q);
    }
  }

  ghost predicate PauseReachable(msgs: seq<Msg>, p: Pausing) {
    exists script :: PauseRun(Pausing(Init(msgs), false, false), script) == Some(p)
  }

  /** A run of the pausing program that cannot continue has either completed or lost the answer of its
      current wait to the gap before pause(). */
  lemma {:induction false} PauseStuckIff(msgs: seq<Msg>, p: Pausing)
    requires PauseReachable(msgs, p) && forall a :: PauseStep(p, a).None?
    ensures p.base.todo != [] <==> p.early
    ensures p.early ==> p.paused && Outstanding(p.base) == 0
  {
    var script :| PauseRun(Pausing(Init(msgs), false, false), script) == Some(p);
    PauseRunKeepsInv(Pausing(Init(msgs), false, false), script, p);
    assert PauseStep(p, Control).None? && PauseStep(p, Deliver).None? && PauseStep(p, Program).None?;
  }

  lemma {:induction false} PauseGo(msgs: seq<Msg>, p: Pausing, a: Action) returns (q: Pausing)
    requires PauseReachable(msgs, p) && PauseStep(p, a).Some?
    ensures Some(q) == PauseStep(p, a) && PauseReachable(msgs, q)
  {
    q := PauseStep(p, a).value;
    var script :| PauseRun(Pausing(Init(msgs), false, false), script) == Some(p);
    PauseRunConcat(Pausing(Init(msgs), false, false), script, a);
  }

  lemma {:induction false} PauseRunConcat(p: Pausing, script: seq<Action>, a: Action)
    requires PauseRun(p, script).Some?
    ensures PauseRun(p, script + [a]) == PauseStep(PauseRun(p, script).value, a)
    decreases |script|
  {
    if script == [] {
      assert script + [a] == [a];
      assert PauseStep(p, a).Some? ==> PauseRun(PauseStep(p, a).value, [a][1..]) == PauseStep(p, a);
    } else {
      assert (script + [a])[1..] == script[1..] + [a];
      PauseRunConcat(PauseStep(p, script[0]).value, script[1..], a);
    }
  }

  /** The first k messages done, nothing in flight. */
  lemma {:induction false} PauseAdvance(msgs: seq<Msg>, k: nat) returns (p: Pausing)
    requires k <= |msgs|
    ensures PauseReachable(msgs, p) && !p.paused && !p.early && p.base.pc == Idle && p.base.todo == msgs[k..]
    ensures p.base.pipe == [] && p.base.ctl == Reading && !p.base.pending
  {
    if k == 0 {
      p := Pausing(Init(msgs), false, false);
      assert PauseRun(p, []) == Some(p);
    } else {
      p := PauseAdvance(msgs, k - 1);
      p := PauseGo(msgs, p, Program);
      if msgs[k - 1] == Info {
        p := PauseGo(msgs, p, Control);
      } else {
        p := PauseGo(msgs, p, Program);
        p := PauseGo(msgs, p, Program);
        p := PauseGo(msgs, p, Control);
        p := PauseGo(msgs, p, Control);
        p := PauseGo(msgs, p, Deliver);
      }
    }
  }

  /** Every wait of a pausing program can be the one that never returns. */
  lemma {:induction false} PauseCanStick(msgs: seq<Msg>, k: nat) returns (p: Pausing)
    requires k < |msgs| && msgs[k] == Wait
    ensures PauseReachable(msgs, p) && p.base.todo == msgs[k..] && forall a :: PauseStep(p, a).None?
  {
    p := PauseAdvance(msgs, k);
    p := PauseGo(msgs, p, Program);
    p := PauseGo(msgs, p, Program);
    p := PauseGo(msgs, p, Control);
    p := PauseGo(msgs, p, Control);
    p := PauseGo(msgs, p, Deliver);
    p := PauseGo(msgs, p, Program);
  }

  lemma {:induction false} TodoFromMessages(msgs: seq<Msg>, p: Pausing, script: seq<Action>, q: Pausing)
    requires PauseRun(p, script) == Some(q) && forall m | m in p.base.todo :: m in msgs
    ensures forall m | m in q.base.todo :: m in msgs
    decreases |script|
  {
    if script != [] {
      TodoFromMessages(msgs, PauseStep(p, script[0]).value, script[1..], q);
    }
  }

  ghost predicate Stuck(p: Pausing) {
    p.base.todo != [] && forall a :: PauseStep(p, a).None?
  }

  lemma {:induction false} StuckHasWait(msgs: seq<Msg>, p: Pausing)
    requires PauseReachable(msgs, p) && Stuck(p)
    ensures Wait in msgs
  {
    var start := Pausing(Init(msgs), false, false);
    var script :| PauseRun(start, script) == Some(p);
    PauseRunKeepsInv(start, script, p);
    TodoFromMessages(msgs, start, script, p);
    PauseStuckIff(msgs, p);
  }

  /** The pausing program can be stuck exactly if one of its messages is a wait. */
  lemma {:induction false} PauseSafeIff(msgs: seq<Msg>)
    ensures (forall p | PauseReachable(msgs, p) :: !Stuck(p)) <==> Wait !in msgs
  {
    if Wait in msgs {
      var k: nat :| k < |msgs| && msgs[k] == Wait;
      var p := PauseCanStick(msgs, k);
      assert Stuck(p);
    } else {
      forall p | PauseReachable(msgs, p) ensures !Stuck(p) {
        if Stuck(p) {
          StuckHasWait(msgs, p);
        }
      }
    }
  }
}
