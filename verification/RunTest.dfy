/** The runner itself, as the statements of run-test.sh that write the result directory. The trail records
    the state after every one of them, and is proved to be a path of the scheduler machine, so that a
    reboot between any two statements is one of its reboots. */
module RunTest {
  import opened Wrappers
  import opened RecipeOrder
  import opened CrashScheduler

  /** One step of the machine that is not a reboot. */
  ghost predicate Follows(c: Config, s: State, t: State) {
    exists a: Action :: !a.Crash? && Next(c, s, a) == Some(t)
  }

  ghost predicate StepAt(c: Config, trail: seq<State>, i: int)
    requires 0 <= i < |trail| - 1
  {
    Follows(c, trail[i], trail[i + 1])
  }

  ghost predicate Path(c: Config, trail: seq<State>) {
    trail != [] && forall i | 0 <= i < |trail| - 1 :: StepAt(c, trail, i)
  }

  ghost function Last(trail: seq<State>): State
    requires trail != []
  {
    trail[|trail| - 1]
  }

  lemma {:induction false} PathExtends(c: Config, trail: seq<State>, a: Action, t: State)
    requires Path(c, trail) && !a.Crash? && Next(c, Last(trail), a) == Some(t)
    ensures Path(c, trail + [t])
  {
    var longer := trail + [t];
    forall i | 0 <= i < |longer| - 1 ensures StepAt(c, longer, i) {
      if i < |trail| - 1 {
        assert StepAt(c, trail, i);
      } else {
        assert Follows(c, longer[i], longer[i + 1]);
      }
    }
  }

  /** Whatever the machine guarantees in its reachable states holds after every statement. */
  lemma {:induction false} TrailIsReachable(c: Config, trail: seq<State>, i: nat)
    requires Path(c, trail) && Reachable(c, trail[0]) && i < |trail|
    ensures Reachable(c, trail[i])
  {
    if i > 0 {
      TrailIsReachable(c, trail, i - 1);
      assert StepAt(c, trail, i - 1);
      var a: Action :| !a.Crash? && Next(c, trail[i - 1], a) == Some(trail[i]);
      ReachableStep(c, trail[i - 1], a, trail[i]);
    }
  }

  // ---------- what a round does ----------

  /** The gate lets the recipe through, given the files at the start of the round. */
  ghost predicate LetThrough(verdict: Id -> Gate, d: Disk, x: Id) {
    verdict(x) == Run && !IsFinished(d, x)
  }

  /** No recipe of the list is let through before x. */
  ghost predicate LetThroughFirst(verdict: Id -> Gate, d: Disk, s: seq<Id>, x: Id) {
    exists k :: 0 <= k < |s| && s[k] == x && NoneThrough(verdict, d, s[..k])
  }

  ghost predicate NoneThrough(verdict: Id -> Gate, d: Disk, s: seq<Id>) {
    forall x | x in s :: !LetThrough(verdict, d, x)
  }

  /** The k-th visit lets its recipe through, and no visit after it does. */
  ghost predicate LetThroughLast(verdict: Id -> Gate, d: Disk, s: seq<Id>, k: nat) {
    Lets(verdict, d, s, k) && forall j | k < j < |s| :: !Lets(verdict, d, s, j)
  }

  ghost predicate Lets(verdict: Id -> Gate, d: Disk, s: seq<Id>, k: nat) {
    k < |s| && LetThrough(verdict, d, s[k]) && s[k] !in s[..k]
  }

  ghost predicate SameStatus(d: Disk, e: Disk, x: Id) {
    if x in d.status then x in e.status && e.status[x] == d.status[x] else x !in e.status
  }

  ghost predicate SameCount(d: Disk, e: Disk, x: Id) {
    if x in d.count then x in e.count && e.count[x] == d.count[x] else x !in e.count
  }

  /** The status that the verdict calls for. */
  ghost predicate Settled(verdict: Id -> Gate, d: Disk, e: Disk, x: Id) {
    match verdict(x)
    case Run => IsFinished(e, x)
    case Skip => x in e.status && e.status[x] == Skipped
    case Leave => SameStatus(d, e, x)
  }

  /** The marker names x, and x is the first to be let through: its trials go on after a reboot. */
  ghost predicate Resumes(verdict: Id -> Gate, d: Disk, s: seq<Id>, x: Id) {
    d.current == Some(x) && LetThroughFirst(verdict, d, s, x)
  }

  /** It has been rebooted more often than it may be. */
  ghost predicate GivesUp(c: Config, verdict: Id -> Gate, d: Disk, s: seq<Id>, x: Id) {
    Resumes(verdict, d, s, x) && x in d.count && d.count[x] + 1 > c.maxReboot(x)
  }

  ghost predicate StatusAfter(verdict: Id -> Gate, d: Disk, e: Disk, s: seq<Id>) {
    forall x :: if x in s && !IsFinished(d, x) then Settled(verdict, d, e, x) else SameStatus(d, e, x)
  }

  ghost predicate CountAfter(verdict: Id -> Gate, d: Disk, e: Disk, s: seq<Id>) {
    forall x :: CountedAs(verdict, d, e, s, x)
  }

  /** A new start counts from 0, a resumed one counts the reboot. */
  ghost predicate CountedAs(verdict: Id -> Gate, d: Disk, e: Disk, s: seq<Id>, x: Id) {
    if !(x in s && LetThrough(verdict, d, x)) then SameCount(d, e, x)
    else if !Resumes(verdict, d, s, x) then x in e.count && e.count[x] == 0
    else if x in d.count then x in e.count && e.count[x] == d.count[x] + 1
    else x !in e.count
  }

  ghost predicate CallsAfter(c: Config, verdict: Id -> Gate, d: Disk, was: multiset<Id>, now: multiset<Id>, s: seq<Id>) {
    forall x :: now[x] == was[x] + if x in s && LetThrough(verdict, d, x) && !GivesUp(c, verdict, d, s, x) then 1 else 0
  }

  ghost predicate MarksAfter(verdict: Id -> Gate, d: Disk, e: Disk, s: seq<Id>) {
    if NoneThrough(verdict, d, s) then e.finished == d.finished && e.current == d.current
    else e.current == None && exists k: nat :: LetThroughLast(verdict, d, s, k) && e.finished == Some(s[k])
  }

  ghost predicate RoundAfter(c: Config, verdict: Id -> Gate, s: State, t: State, visited: seq<Id>) {
    && StatusAfter(verdict, s.disk, t.disk, visited)
    && CountAfter(verdict, s.disk, t.disk, visited)
    && CallsAfter(c, verdict, s.disk, s.entered, t.entered, visited)
    && MarksAfter(verdict, s.disk, t.disk, visited)
  }

  /** What one visit changes. */
  ghost predicate Visited(c: Config, id: Id, gate: Gate, s: State, t: State) {
    var d, e := s.disk, t.disk;
    if gate == Run && !IsFinished(d, id) then
      && e.status == d.status[id := Finished] && e.current == None && e.finished == Some(id)
      && (if d.current != Some(id) then e.count == d.count[id := 0]
          else if id in d.count then e.count == d.count[id := d.count[id] + 1]
          else e.count == d.count)
      && (if d.current == Some(id) && id in d.count && d.count[id] + 1 > c.maxReboot(id) then t.entered == s.entered
          else t.entered == s.entered + multiset{id})
    else
      && e.current == d.current && e.finished == d.finished && e.count == d.count && t.entered == s.entered
      && e.status == if gate == Skip && !IsFinished(d, id) then d.status[id := Skipped] else d.status
  }

  /** A visit lets its recipe through exactly at its first turn. */
  lemma {:induction false} FinishedNow(verdict: Id -> Gate, d: Disk, e: Disk, s: seq<Id>, id: Id)
    requires StatusAfter(verdict, d, e, s)
    ensures verdict(id) == Run ==> (!IsFinished(e, id) <==> LetThrough(verdict, d, id) && id !in s)
    ensures IsFinished(e, id) <==> IsFinished(d, id) || (id in s && verdict(id) == Run)
  {
    assert if id in s && !IsFinished(d, id) then Settled(verdict, d, e, id) else SameStatus(d, e, id);
  }

  lemma {:induction false} StatusStep(c: Config, verdict: Id -> Gate, d: Disk, s: seq<Id>, id: Id, t: State, u: State)
    requires StatusAfter(verdict, d, t.disk, s) && Visited(c, id, verdict(id), t, u)
    ensures StatusAfter(verdict, d, u.disk, s + [id])
  {
    FinishedNow(verdict, d, t.disk, s, id);
  }

  lemma {:induction false} FirstStep(verdict: Id -> Gate, d: Disk, s: seq<Id>, id: Id, x: Id)
    ensures x in s && LetThrough(verdict, d, x) ==>
              (LetThroughFirst(verdict, d, s + [id], x) <==> LetThroughFirst(verdict, d, s, x))
    ensures id !in s ==> (LetThroughFirst(verdict, d, s + [id], id) <==> NoneThrough(verdict, d, s))
  {
    var w := s + [id];
    forall k | 0 <= k <= |s| ensures w[..k] == s[..k] {
    }
    if x in s && LetThrough(verdict, d, x) && LetThroughFirst(verdict, d, w, x) {
      var k :| 0 <= k < |w| && w[k] == x && NoneThrough(verdict, d, w[..k]);
      assert k < |s|;
    }
    assert s[..|s|] == s && w[|s|] == id;
  }

  lemma {:induction false} CountStep(c: Config, verdict: Id -> Gate, d: Disk, s: seq<Id>, id: Id, t: State, u: State)
    requires StatusAfter(verdict, d, t.disk, s) && CountAfter(verdict, d, t.disk, s) && MarksAfter(verdict, d, t.disk, s)
    requires Visited(c, id, verdict(id), t, u)
    ensures CountAfter(verdict, d, u.disk, s + [id])
  {
    FinishedNow(verdict, d, t.disk, s, id);
    forall x ensures CountedAs(verdict, d, u.disk, s + [id], x) {
      FirstStep(verdict, d, s, id, x);
      assert CountedAs(verdict, d, t.disk, s, x);
    }
  }

  lemma {:induction false} CallsStep(c: Config, verdict: Id -> Gate, d: Disk, was: multiset<Id>, s: seq<Id>, id: Id,
                                     t: State, u: State)
    requires StatusAfter(verdict, d, t.disk, s) && CountAfter(verdict, d, t.disk, s) && MarksAfter(verdict, d, t.disk, s)
    requires CallsAfter(c, verdict, d, was, t.entered, s) && Visited(c, id, verdict(id), t, u)
    ensures CallsAfter(c, verdict, d, was, u.entered, s + [id])
  {
    FinishedNow(verdict, d, t.disk, s, id);
    assert CountedAs(verdict, d, t.disk, s, id);
    forall x ensures u.entered[x] == was[x] +
      if x in s + [id] && LetThrough(verdict, d, x) && !GivesUp(c, verdict, d, s + [id], x) then 1 else 0 {
      FirstStep(verdict, d, s, id, x);
    }
  }

  lemma {:induction false} MarksStep(c: Config, verdict: Id -> Gate, d: Disk, s: seq<Id>, id: Id, t: State, u: State)
    requires StatusAfter(verdict, d, t.disk, s) && MarksAfter(verdict, d, t.disk, s) && Visited(c, id, verdict(id), t, u)
    ensures MarksAfter(verdict, d, u.disk, s + [id])
  {
    FinishedNow(verdict, d, t.disk, s, id);
    var w := s + [id];
    assert NoneThrough(verdict, d, w) <==> NoneThrough(verdict, d, s) && !LetThrough(verdict, d, id);
    if LetThrough(verdict, d, id) && id !in s {
      LastStep(verdict, d, s, id, |s|);
    } else if k: nat :| LetThroughLast(verdict, d, s, k) && t.disk.finished == Some(s[k]) {
      LastStep(verdict, d, s, id, k);
    }
  }

  lemma {:induction false} LastStep(verdict: Id -> Gate, d: Disk, s: seq<Id>, id: Id, k: nat)
    requires if LetThrough(verdict, d, id) && id !in s then k == |s| else LetThroughLast(verdict, d, s, k)
    ensures LetThroughLast(verdict, d, s + [id], k)
  {
    var w := s + [id];
    assert w[..|s|] == s;
    assert Lets(verdict, d, w, |s|) <==> LetThrough(verdict, d, id) && id !in s;
    forall j | 0 <= j < |s| ensures Lets(verdict, d, w, j) <==> Lets(verdict, d, s, j) {
      assert w[..j] == s[..j];
    }
  }

  lemma {:induction false} RoundStep(c: Config, verdict: Id -> Gate, s: State, visited: seq<Id>, id: Id, t: State, u: State)
    requires RoundAfter(c, verdict, s, t, visited) && Visited(c, id, verdict(id), t, u)
    ensures RoundAfter(c, verdict, s, u, visited + [id])
  {
    StatusStep(c, verdict, s.disk, visited, id, t, u);
    CountStep(c, verdict, s.disk, visited, id, t, u);
    CallsStep(c, verdict, s.disk, s.entered, visited, id, t, u);
    MarksStep(c, verdict, s.disk, visited, id, t, u);
  }

  lemma {:induction false} RoundStart(c: Config, verdict: Id -> Gate, s: State, t: State)
    requires t.disk == s.disk && t.entered == s.entered
    ensures RoundAfter(c, verdict, s, t, [])
  {
  }

  lemma {:induction false} RoundDone(c: Config, verdict: Id -> Gate, queue: seq<Id>, s0: State, s: State, t: State, t1: State)
    requires RoundAfter(c, verdict, s, t, queue) && s0.disk == s.disk && s0.entered == s.entered
    requires t1 == t.(disk := t.disk.(done := true))
    ensures RoundAfter(c, verdict, s0, t1, queue)
  {
    assert forall x :: CountedAs(verdict, s.disk, t.disk, queue, x) <==> CountedAs(verdict, s.disk, t1.disk, queue, x);
  }

  /** The same for the recipes one by one. */
  lemma {:induction false} RoundInFull(c: Config, verdict: Id -> Gate, s: State, t: State, queue: seq<Id>)
    requires RoundAfter(c, verdict, s, t, queue)
    ensures forall x | x in queue && !IsFinished(s.disk, x) ::
              && (verdict(x) == Run ==> IsFinished(t.disk, x))
              && (verdict(x) == Skip ==> x in t.disk.status && t.disk.status[x] == Skipped)
              && (verdict(x) == Leave ==> SameStatus(s.disk, t.disk, x))
    ensures forall x | x !in queue || IsFinished(s.disk, x) :: SameStatus(s.disk, t.disk, x)
    ensures forall x | x in queue && LetThrough(verdict, s.disk, x) && s.disk.current != Some(x) ::
              t.entered[x] == s.entered[x] + 1
    ensures forall x | x !in queue || !LetThrough(verdict, s.disk, x) :: t.entered[x] == s.entered[x]
  {
    forall x | x in queue && !IsFinished(s.disk, x) ensures Settled(verdict, s.disk, t.disk, x) {
    }
  }

  class Runner {
    var current: Option<Id>
    var count: map<Id, nat>
    var status: map<Id, Status>
    var finished: Option<Id>
    var done: bool
    ghost var base: seq<Id>
    ghost var entered: multiset<Id>
    ghost var passed: set<Id>
    ghost var trail: seq<State>

    ghost function Seen(mode: Mode): State
      reads this`current, this`count, this`status, this`finished, this`done, this`base, this`entered, this`passed
    {
      State(Disk(current, count, status, finished, done), mode, base, entered, passed)
    }

    /** The trail is a path and ends in the present state. */
    ghost predicate Here(c: Config, mode: Mode)
      reads this
    {
      Path(c, trail) && Last(trail) == Seen(mode)
    }

    constructor ()
      ensures Seen(Down) == INIT
    {
      current, count, status, finished, done := None, map[], map[], None, false;
      base, entered, passed, trail := [], multiset{}, {}, [];
    }

    /** The last statement made this step. */
    ghost method Did(c: Config, a: Action, mode: Mode)
      requires Path(c, trail) && !a.Crash? && Next(c, Last(trail), a) == Some(Seen(mode))
      modifies this`trail
      ensures Here(c, mode) && old(trail) <= trail
    {
      PathExtends(c, trail, a, Seen(mode));
      trail := trail + [Seen(mode)];
    }

    /** Whether the trials of a recipe that is let through are started. */
    function Tries(c: Config, id: Id): bool
      reads this`current, this`count
    {
      current == Some(id) && id in count ==> count[id] + 1 <= c.maxReboot(id)
    }

    /** The reboot counts when a recipe is let through. */
    function Counted(id: Id): map<Id, nat>
      reads this`current, this`count
    {
      if current != Some(id) then count[id := 0]
      else if id in count then count[id := count[id] + 1]
      else count
    }

    /** run_recipe in background mode, when the visit ends with the given verdict of the gate. A finished
        recipe is left alone whatever the gate says. */
    method RunRecipe(c: Config, id: Id, verdict: Gate, ghost queue: seq<Id>)
      requires verdict in c.gates(id) && Here(c, Idle([id] + queue))
      modifies this
      ensures Here(c, Idle(queue)) && old(trail) <= trail
      ensures done == old(done) && base == old(base)
      ensures verdict == Run && !old(IsFinished(Seen(Down).disk, id)) ==>
                && status == old(status)[id := Finished] && current == None && finished == Some(id)
                && count == old(Counted(id)) && passed == old(passed)
                && entered == old(entered) + if old(Tries(c, id)) then multiset{id} else multiset{}
      ensures verdict != Run || old(IsFinished(Seen(Down).disk, id)) ==>
                current == old(current) && finished == old(finished) && count == old(count) && entered == old(entered)
      ensures verdict != Run && !old(IsFinished(Seen(Down).disk, id)) ==>
                passed == old(passed) + {id} && status == if verdict == Skip then old(status)[id := Skipped] else old(status)
      ensures old(IsFinished(Seen(Down).disk, id)) ==> passed == old(passed) && status == old(status)
      ensures Visited(c, id, verdict, old(Seen(Down)), Seen(Down))
    {
      Take(c, id, queue);
      if id in status && status[id] == Finished {
        Did(c, Tick, Idle(queue));
        return;
      }
      if verdict != Run {
        PassOver(c, id, verdict, queue);
        return;
      }
      Admit(c, id, queue);
    }

    /** The next recipe of the list is looked at. */
    ghost method Take(c: Config, id: Id, queue: seq<Id>)
      requires Here(c, Idle([id] + queue))
      modifies this`trail
      ensures Here(c, In(Visit, id, queue)) && old(trail) <= trail
    {
      assert ([id] + queue)[1..] == queue;
      Did(c, Tick, In(Visit, id, queue));
    }

    /** The gate does not let the recipe through; only some of its checks mark it as skipped. */
    method PassOver(c: Config, id: Id, verdict: Gate, ghost queue: seq<Id>)
      requires verdict != Run && verdict in c.gates(id) && Here(c, In(Visit, id, queue))
      requires !IsFinished(Seen(Down).disk, id)
      modifies this`status, this`passed, this`trail
      ensures Here(c, Idle(queue)) && old(trail) <= trail && passed == old(passed) + {id}
      ensures status == if verdict == Skip then old(status)[id := Skipped] else old(status)
    {
      if verdict == Skip {
        status := status[id := Skipped];
      }
      passed := passed + {id};
      Did(c, Pass(verdict), Idle(queue));
    }

    /** What is done with a recipe that is let through. */
    method Admit(c: Config, id: Id, ghost queue: seq<Id>)
      requires Run in c.gates(id) && Here(c, In(Visit, id, queue)) && !IsFinished(Seen(Down).disk, id)
      modifies this`current, this`count, this`status, this`finished, this`entered, this`trail
      ensures Here(c, Idle(queue)) && old(trail) <= trail
      ensures current == None && finished == Some(id) && count == old(Counted(id))
      ensures status == old(status)[id := Finished]
      ensures entered == old(entered) + if old(Tries(c, id)) then multiset{id} else multiset{}
    {
      Did(c, Pass(Run), In(Decide, id, queue));
      if current == Some(id) {
        Restart(c, id, queue);
      } else {
        Start(c, id, queue);
      }
      Finish(c, id, queue);
    }

    /** The branch taken when __current_testcase names the recipe: the reboot hit its trials. */
    method Restart(c: Config, id: Id, ghost queue: seq<Id>)
      requires current == Some(id) && Here(c, In(Decide, id, queue))
      modifies this`count, this`entered, this`trail
      ensures Here(c, In(Trying, id, queue)) && old(trail) <= trail && count == old(Counted(id))
      ensures entered == old(entered) + if old(Tries(c, id)) then multiset{id} else multiset{}
    {
      var doit := true;
      if id in count {
        var rcount := count[id] + 1;
        count := count[id := rcount];
        if rcount > c.maxReboot(id) {
          doit := false;
        }
      }
      Did(c, Tick, In(if doit then Enter else Trying, id, queue));
      if doit {
        DoSoftTry(c, id, queue);
      }
    }

    /** The other branch: counter, marker and status are written, in this order, before the trials. */
    method Start(c: Config, id: Id, ghost queue: seq<Id>)
      requires current != Some(id) && Here(c, In(Decide, id, queue))
      modifies this`count, this`current, this`status, this`entered, this`trail
      ensures Here(c, In(Trying, id, queue)) && old(trail) <= trail && count == old(Counted(id))
      ensures status == old(status)[id := Running] && entered == old(entered) + multiset{id}
    {
      Did(c, Tick, In(FreshCount, id, queue));
      count := count[id := 0];
      Did(c, Tick, In(FreshCurrent, id, queue));
      MarkRunning(c, id, queue);
      DoSoftTry(c, id, queue);
    }

    method MarkRunning(c: Config, id: Id, ghost queue: seq<Id>)
      requires Here(c, In(FreshCurrent, id, queue))
      modifies this`current, this`status, this`trail
      ensures Here(c, In(Enter, id, queue)) && old(trail) <= trail
      ensures current == Some(id) && status == old(status)[id := Running]
    {
      current := Some(id);
      Did(c, Tick, In(FreshStatus, id, queue));
      status := status[id := Running];
      Did(c, Tick, In(Enter, id, queue));
    }

    /** The call of do_soft_try. */
    ghost method DoSoftTry(c: Config, id: Id, queue: seq<Id>)
      requires Here(c, In(Enter, id, queue))
      modifies this`entered, this`trail
      ensures Here(c, In(Trying, id, queue)) && old(trail) <= trail && entered == old(entered) + multiset{id}
    {
      entered := entered + multiset{id};
      Did(c, Tick, In(Trying, id, queue));
    }

    /** The end of run_recipe: FINISHED, no current testcase, and the resume point, in this order. */
    method Finish(c: Config, id: Id, ghost queue: seq<Id>)
      requires Here(c, In(Trying, id, queue))
      modifies this`status, this`current, this`finished, this`trail
      ensures Here(c, Idle(queue)) && old(trail) <= trail
      ensures status == old(status)[id := Finished] && current == None && finished == Some(id)
    {
      status := status[id := Finished];
      Did(c, Tick, In(Unmark, id, queue));
      RemoveMarker(c, id, queue);
      finished := Some(id);
      Did(c, Tick, Idle(queue));
    }

    method RemoveMarker(c: Config, id: Id, ghost queue: seq<Id>)
      requires Here(c, In(Unmark, id, queue))
      modifies this`current, this`trail
      ensures Here(c, In(Mark, id, queue)) && old(trail) <= trail && current == None
    {
      current := None;
      Did(c, Tick, In(Mark, id, queue));
    }

    /** One start of the runner that is not interrupted: from the resume point to __finished. Every recipe of
        its list that was not finished gets what its verdict calls for, the trials of those let through are
        started once, and the resume point is the last of them. */
    method RunRound(c: Config, verdict: Id -> Gate)
      requires !done && forall id :: verdict(id) in c.gates(id)
      modifies this
      ensures Here(c, Down) && done && trail[0] == old(Seen(Down))
      ensures RoundAfter(c, verdict, old(Seen(Down)), Seen(Down), Queue(c.sel, old(finished)))
      ensures forall x | x in Queue(c.sel, old(finished)) && !old(IsFinished(Seen(Down).disk, x)) ::
                && (verdict(x) == Run ==> x in status && status[x] == Finished)
                && (verdict(x) == Skip ==> x in status && status[x] == Skipped)
                && (verdict(x) == Leave ==> SameStatus(old(Seen(Down)).disk, Seen(Down).disk, x))
      ensures forall x | x !in Queue(c.sel, old(finished)) || old(IsFinished(Seen(Down).disk, x)) ::
                SameStatus(old(Seen(Down)).disk, Seen(Down).disk, x)
      ensures forall x | x in Queue(c.sel, old(finished)) && !old(IsFinished(Seen(Down).disk, x)) && verdict(x) == Run ::
                old(current) != Some(x) ==> entered[x] == old(entered)[x] + 1
      ensures forall x | x !in Queue(c.sel, old(finished)) || old(IsFinished(Seen(Down).disk, x)) || verdict(x) != Run ::
                entered[x] == old(entered)[x]
    {
      ghost var first := Seen(Down);
      var queue := Begin(c);
      ghost var start := Seen(Down);
      Walk(c, verdict, queue);
      ghost var end := Seen(Down);
      Conclude(c);
      RoundDone(c, verdict, queue, first, start, end, Seen(Down));
      RoundInFull(c, verdict, first, Seen(Down), queue);
    }

    /** All testcases of the project are finished. */
    method Conclude(c: Config)
      requires !done && Here(c, Idle([]))
      modifies this`done, this`trail
      ensures Here(c, Down) && done && old(trail) <= trail
      ensures Seen(Down) == old(Seen(Down)).(disk := old(Seen(Down)).disk.(done := true))
    {
      done := true;
      Did(c, Tick, Down);
    }

    /** run_recipes in background mode: the recipes of the list one after the other. */
    method Walk(c: Config, verdict: Id -> Gate, list: seq<Id>)
      requires !done && Here(c, Idle(list)) && forall id :: verdict(id) in c.gates(id)
      modifies this
      ensures Here(c, Idle([])) && old(trail) <= trail && !done
      ensures RoundAfter(c, verdict, old(Seen(Down)), Seen(Down), list)
    {
      ghost var first := Seen(Down);
      var queue := list;
      ghost var visited, present := [], Seen(Down);
      RoundStart(c, verdict, first, present);
      while queue != []
        invariant Here(c, Idle(queue)) && old(trail) <= trail && !done
        invariant present == Seen(Down) && visited + queue == list
        invariant RoundAfter(c, verdict, first, present, visited)
        decreases |queue|
      {
        assert queue == [queue[0]] + queue[1..];
        RunRecipe(c, queue[0], verdict(queue[0]), queue[1..]);
        RoundStep(c, verdict, first, visited, queue[0], present, Seen(Down));
        visited, present := visited + [queue[0]], Seen(Down);
        queue := queue[1..];
      }
      assert visited == list;
    }

    /** generate_recipelist. */
    method Begin(c: Config) returns (queue: seq<Id>)
      requires !done
      modifies this`base, this`trail
      ensures Here(c, Idle(queue)) && trail[0] == old(Seen(Down)) && queue == Queue(c.sel, old(finished))
      ensures Seen(Down) == old(Seen(Down)).(base := queue)
    {
      trail := [Seen(Down)];
      queue := Queue(c.sel, finished);
      base := queue;
      Did(c, Boot, Idle(queue));
    }
  }
}
