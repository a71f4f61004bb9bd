/** The rounds of a project: every round reruns the failures of the round before, and an invocation may
    be cut short at any point and repeated later. */
module Rounds {

  type Id = int

  datatype Result = Pass | Fail | Skip | Warn | NotRun

  /** What an invocation leaves under work/<project>: the list to start from and, by round, recipelist,
      __finished and the result of every testcase. */
  datatype Files = Files(base: seq<Id>, lists: map<nat, seq<Id>>, finished: set<nat>, results: map<nat, map<Id, Result>>)

  /** The lines of test_summary -p that start with FAIL. */
  function FailLines(list: seq<Id>, results: map<Id, Result>): seq<Id> {
    if list == [] then []
    else if list[0] in results && results[list[0]] == Fail then [list[0]] + FailLines(list[1..], results)
    else FailLines(list[1..], results)
  }

  function Failures(f: Files, r: nat): seq<Id> {
    if r in f.lists && r in f.results then FailLines(f.lists[r], f.results[r]) else []
  }

  lemma {:induction false} FailLinesExact(list: seq<Id>, results: map<Id, Result>)
    ensures forall x :: x in FailLines(list, results) <==> x in list && x in results && results[x] == Fail
    decreases |list|
  {
    if list != [] {
      assert list == [list[0]] + list[1..];
      FailLinesExact(list[1..], results);
    }
  }

  /** a is what is left of b when some elements are dropped. */
  ghost predicate Subsequence(a: seq<Id>, b: seq<Id>)
    decreases |b|
  {
    a == [] || (b != [] && ((a[0] == b[0] && Subsequence(a[1..], b[1..])) || Subsequence(a, b[1..])))
  }

  /** They keep the order of the list. */
  lemma {:induction false} FailLinesInOrder(list: seq<Id>, results: map<Id, Result>)
    ensures Subsequence(FailLines(list, results), list)
    decreases |list|
  {
    if list != [] {
      FailLinesInOrder(list[1..], results);
      assert list[0] in results && results[list[0]] == Fail ==> FailLines(list, results)[1..] == FailLines(list[1..], results);
    }
  }

  /** The first round has the base list, a later one the failures of the round before, which is finished. */
  ghost predicate Derived(f: Files, r: nat)
    requires r in f.lists
  {
    && r >= 1 && (r == 1 ==> f.lists[r] == f.base)
    && (r > 1 ==> r - 1 in f.finished && f.lists[r] == Failures(f, r - 1))
  }

  /** Every list is derived, and no round but the first was ever started on an empty list. */
  ghost predicate Valid(f: Files) {
    && (forall r {:trigger Derived(f, r)} | r in f.lists :: Derived(f, r))
    && (forall r | r in f.finished :: r in f.lists && (r > 1 ==> f.lists[r] != []))
    && f.results.Keys <= f.lists.Keys
  }

  /** check_project_finished. */
  predicate ProjectFinished(f: Files, failretry: nat) {
    failretry in f.finished || exists r | 1 <= r <= failretry :: r in f.finished && Failures(f, r) == []
  }

  lemma {:induction false} FinishedIsPrefix(f: Files, r: nat, q: nat)
    requires Valid(f) && r in f.lists && 1 <= q < r
    ensures q in f.finished
    decreases r
  {
    assert Derived(f, r);
    if q < r - 1 {
      FinishedIsPrefix(f, r - 1, q);
    }
  }

  /** A testcase in the list of round r was in the list of every earlier round and failed there. */
  lemma {:induction false} FailedInAllEarlierRounds(f: Files, r: nat, q: nat, x: Id)
    requires Valid(f) && r in f.lists && x in f.lists[r] && 1 <= q < r
    ensures q in f.finished && q in f.results && x in f.lists[q] && x in f.results[q] && f.results[q][x] == Fail
    decreases r
  {
    var p := r - 1;
    assert Derived(f, r);
    FailLinesExact(f.lists[p], f.results[p]);
    if q < p {
      FailedInAllEarlierRounds(f, p, q, x);
    }
  }

  /** In a finished project the round after the last finished one, if there is any left, has nothing to
      run. */
  lemma {:induction false} NothingLeft(f: Files, failretry: nat, round: nat)
    requires Valid(f) && ProjectFinished(f, failretry) && 1 <= round <= failretry && round !in f.finished
    ensures round > 1 && (round - 1 in f.finished ==> Failures(f, round - 1) == [])
  {
    assert failretry !in f.finished by {
      if failretry in f.finished {
        FinishedIsPrefix(f, failretry, round);
      }
    }
    var r :| 1 <= r <= failretry && r in f.finished && Failures(f, r) == [];
    assert r < round by {
      if round < r {
        FinishedIsPrefix(f, r, round);
      }
    }
    if r < round - 1 && round - 1 in f.finished {
      if r + 1 < round - 1 {
        FinishedIsPrefix(f, round - 1, r + 1);
      }
      NextRoundHadFailures(f, r);
    }
  }

  lemma {:induction false} NextRoundHadFailures(f: Files, r: nat)
    requires Valid(f) && r >= 1 && r + 1 in f.finished
    ensures Failures(f, r) != []
  {
    assert Derived(f, r + 1);
  }

  /** How a run of run-test.sh ends: it completes and touches __finished, it stops early on its own, or
      the whole invocation is cut short during it; results holds what the round's directory then says. */
  datatype Ending = Completes(results: map<Id, Result>) | Aborts(results: map<Id, Result>) | Killed(results: map<Id, Result>)

  /** f is a later state of e: finished rounds are frozen, lists are never rewritten. */
  ghost predicate Extends(e: Files, f: Files) {
    && f.base == e.base && e.finished <= f.finished
    && (forall r | r in e.lists :: r in f.lists && f.lists[r] == e.lists[r])
    && (forall r | r in e.finished && r in e.results :: r in f.results && f.results[r] == e.results[r])
    && (forall r | r in e.finished && r !in e.results :: r !in f.results)
  }

  /** The list of a round that has none yet. */
  function WithList(f: Files, round: nat): Files {
    if round in f.lists then f
    else f.(lists := f.lists[round := if round > 1 then Failures(f, round - 1) else f.base])
  }

  function WithRun(f: Files, round: nat, e: Ending): Files {
    f.(results := f.results[round := e.results], finished := if e.Completes? then f.finished + {round} else f.finished)
  }

  ghost predicate Startable(f: Files, round: nat) {
    round >= 1 && round !in f.finished && (round > 1 ==> round - 1 in f.finished)
  }

  lemma {:induction false} WithListValid(f: Files, round: nat)
    requires Valid(f) && Startable(f, round)
    ensures Valid(WithList(f, round)) && Extends(f, WithList(f, round))
    ensures round > 1 ==> WithList(f, round).lists[round] == Failures(f, round - 1)
  {
    var g := WithList(f, round);
    forall r {:trigger Derived(g, r)} | r in g.lists ensures Derived(g, r) {
      assert r in f.lists ==> Derived(f, r);
      assert r > 1 ==> Failures(g, r - 1) == Failures(f, r - 1);
    }
    if round in f.lists {
      assert Derived(f, round);
    }
  }

  lemma {:induction false} WithRunValid(f: Files, round: nat, e: Ending)
    requires Valid(f) && Startable(f, round) && round in f.lists && (round > 1 ==> f.lists[round] != [])
    ensures Valid(WithRun(f, round, e)) && Extends(f, WithRun(f, round, e))
  {
    var g := WithRun(f, round, e);
    forall r {:trigger Derived(g, r)} | r in g.lists ensures Derived(g, r) {
      assert Derived(f, r);
    }
  }

  lemma {:induction false} ExtendsTrans(e: Files, f: Files, g: Files)
    requires Extends(e, f) && Extends(f, g)
    ensures Extends(e, g)
  {
  }

  /** How the loop goes on after a turn. */
  datatype Verdict = Continue | Break | Return

  /** A run of run-test.sh: its round, the list it was started on and the rounds finished before it. */
  datatype Run = Run(round: nat, list: seq<Id>, before: set<nat>)

  datatype Turn = Turn(files: Files, runs: seq<Run>, verdict: Verdict)

  /** One turn of the loop of run_test: the files it leaves and the run of run-test.sh it made, if any. */
  function TurnOf(f: Files, round: nat, killed: bool, ending: Ending): Turn {
    if round > 1 && round - 1 !in f.finished then Turn(f, [], Break)
    else if round in f.finished then Turn(f, [], Continue)
    else if killed then Turn(f, [], Return)
    else
      var g := WithList(f, round);
      if round > 1 && g.lists[round] == [] then Turn(g, [], Break)
      else
        var h := WithRun(g, round, ending);
        Turn(h, [Run(round, g.lists[round], f.finished)],
             if ending.Killed? then Return else if Failures(h, round) == [] then Break else Continue)
  }

  /** A run between e and f was started when its round was not finished but all earlier ones were, on the
      list that the files record for it. */
  ghost predicate Sound(run: Run, e: Files, f: Files) {
    && run.round >= 1 && run.round !in run.before && (forall q | 1 <= q < run.round :: q in run.before)
    && e.finished <= run.before <= f.finished
    && run.round in f.lists && f.lists[run.round] == run.list
  }

  lemma {:induction false} TurnKeeps(f: Files, round: nat, killed: bool, ending: Ending)
    requires Valid(f) && round >= 1
    ensures var t := TurnOf(f, round, killed, ending);
            && Valid(t.files) && Extends(f, t.files)
            && (forall k | 0 <= k < |t.runs| :: Sound(t.runs[k], f, t.files) && t.runs[k].round == round) && |t.runs| <= 1
  {
    if Startable(f, round) && !killed {
      var g := WithList(f, round);
      WithListValid(f, round);
      if round == 1 || g.lists[round] != [] {
        WithRunValid(g, round, ending);
        ExtendsTrans(f, g, WithRun(g, round, ending));
        forall q | 1 <= q < round ensures q in f.finished {
          FinishedIsPrefix(g, round, q);
        }
      }
    }
  }

  /** Unless the runner stops on its own, the loop goes on only past a finished round and ends, when not
      cut short, with the project finished. */
  lemma {:induction false} TurnConcludes(f: Files, failretry: nat, round: nat, killed: bool, ending: Ending)
    requires Valid(f) && 1 <= round <= failretry && !ending.Aborts? && (round > 1 ==> round - 1 in f.finished)
    ensures var t := TurnOf(f, round, killed, ending);
            && (t.verdict == Continue ==> round in t.files.finished)
            && (t.verdict == Break ==> ProjectFinished(t.files, failretry))
  {
    if round !in f.finished && !killed {
      var g := WithList(f, round);
      WithListValid(f, round);
      if round > 1 && g.lists[round] == [] {
        assert Failures(g, round - 1) == [];
        assert ProjectFinished(g, failretry);
      }
    }
  }

  /** In a finished project no turn starts the runner or changes a result. */
  lemma {:induction false} TurnOfFinished(f: Files, failretry: nat, round: nat, killed: bool, ending: Ending)
    requires Valid(f) && ProjectFinished(f, failretry) && 1 <= round <= failretry
    ensures var t := TurnOf(f, round, killed, ending);
            && t.runs == [] && t.files.finished == f.finished && t.files.results == f.results
            && (t.verdict == Continue ==> t.files == f)
  {
    if Startable(f, round) {
      NothingLeft(f, failretry, round);
      WithListValid(f, round);
    }
  }

  lemma {:induction false} SoundBetween(run: Run, d: Files, e: Files, f: Files, g: Files)
    requires Extends(d, e) && Sound(run, e, f) && Extends(f, g)
    ensures Sound(run, d, g)
  {
  }

  // ---------- a whole invocation ----------

  /** The loop from the given round on: killed(r) says that the invocation ends before round r writes its
      list, ending(r) how the runner of round r ends. */
  function Invocation(f: Files, failretry: nat, round: nat, killed: nat -> bool, ending: nat -> Ending): Turn
    decreases failretry - round
  {
    if round > failretry then Turn(f, [], Continue)
    else
      var t := TurnOf(f, round, killed(round), ending(round));
      if t.verdict != Continue then t
      else
        var u := Invocation(t.files, failretry, round + 1, killed, ending);
        Turn(u.files, t.runs + u.runs, u.verdict)
  }

  /** The runs of an invocation between e and f: each one sound, in ascending rounds from the given one. */
  ghost predicate RunsSound(runs: seq<Run>, round: nat, e: Files, f: Files) {
    && (forall k | 0 <= k < |runs| :: Sound(runs[k], e, f) && runs[k].round >= round)
    && (forall j, k | 0 <= j < k < |runs| :: runs[j].round < runs[k].round)
  }

  lemma {:induction false} RunsConcat(t: Turn, u: Turn, round: nat, f: Files)
    requires RunsSound(t.runs, round, f, t.files) && (forall k | 0 <= k < |t.runs| :: t.runs[k].round == round)
    requires RunsSound(u.runs, round + 1, t.files, u.files) && Extends(f, t.files) && Extends(t.files, u.files)
    ensures RunsSound(t.runs + u.runs, round, f, u.files)
  {
    var runs := t.runs + u.runs;
    forall k | 0 <= k < |runs| ensures Sound(runs[k], f, u.files) && runs[k].round >= round {
      if k < |t.runs| {
        SoundBetween(runs[k], f, f, t.files, u.files);
      } else {
        SoundBetween(runs[k], f, t.files, u.files, u.files);
      }
    }
  }

  lemma {:induction false} InvocationKeeps(f: Files, failretry: nat, round: nat, killed: nat -> bool, ending: nat -> Ending)
    requires Valid(f) && round >= 1
    ensures var t := Invocation(f, failretry, round, killed, ending);
            Valid(t.files) && Extends(f, t.files) && RunsSound(t.runs, round, f, t.files)
    decreases failretry - round
  {
    if round <= failretry {
      var t := TurnOf(f, round, killed(round), ending(round));
      TurnKeeps(f, round, killed(round), ending(round));
      if t.verdict == Continue {
        var u := Invocation(t.files, failretry, round + 1, killed, ending);
        InvocationKeeps(t.files, failretry, round + 1, killed, ending);
        RunsConcat(t, u, round, f);
        ExtendsTrans(f, t.files, u.files);
      }
    }
  }

  /** An invocation is cut short only where the environment says so, and otherwise, unless some runner
      stops on its own, it ends with the project finished. */
  lemma {:induction false} InvocationFinishes(f: Files, failretry: nat, round: nat, killed: nat -> bool, ending: nat -> Ending)
    requires Valid(f) && 1 <= round <= failretry + 1 && (round > 1 ==> round - 1 in f.finished)
    requires failretry >= 1 && forall r | round <= r <= failretry :: !ending(r).Aborts?
    ensures var t := Invocation(f, failretry, round, killed, ending);
            if t.verdict == Return then exists r | round <= r <= failretry :: killed(r) || ending(r).Killed?
            else ProjectFinished(t.files, failretry)
    decreases failretry - round
  {
    if round <= failretry {
      var t := TurnOf(f, round, killed(round), ending(round));
      TurnKeeps(f, round, killed(round), ending(round));
      TurnConcludes(f, failretry, round, killed(round), ending(round));
      if t.verdict == Continue {
        InvocationFinishes(t.files, failretry, round + 1, killed, ending);
      } else if t.verdict == Return {
        assert killed(round) || ending(round).Killed?;
      }
    }
  }

  lemma {:induction false} OnlyCutShort(f: Files, failretry: nat, round: nat, killed: nat -> bool, ending: nat -> Ending)
    requires Invocation(f, failretry, round, killed, ending).verdict == Return
    ensures exists r | round <= r <= failretry :: killed(r) || ending(r).Killed?
    decreases failretry - round
  {
    var t := TurnOf(f, round, killed(round), ending(round));
    if t.verdict == Continue {
      OnlyCutShort(t.files, failretry, round + 1, killed, ending);
    } else {
      assert killed(round) || ending(round).Killed?;
    }
  }

  // ---------- what a run records, and what it leads to ----------

  /** The results of every run are what its runner left. */
  ghost predicate Recorded(runs: seq<Run>, f: Files, ending: nat -> Ending) {
    forall k | 0 <= k < |runs| ::
      runs[k].round in f.results && f.results[runs[k].round] == ending(runs[k].round).results
  }

  /** The run of round r has a round after it that is not cut short, was completed, and x failed in it. */
  ghost predicate FailedIn(run: Run, x: Id, failretry: nat, killed: nat -> bool, ending: nat -> Ending) {
    var e := ending(run.round);
    && e.Completes? && run.round < failretry && !killed(run.round + 1)
    && x in run.list && x in e.results && e.results[x] == Fail
  }

  /** A failure of one run is in the list of the next run, which is of the next round. */
  ghost predicate Reran(runs: seq<Run>, k: int, x: Id)
    requires 0 <= k < |runs|
  {
    k + 1 < |runs| && runs[k + 1].round == runs[k].round + 1 && x in runs[k + 1].list
  }

  lemma {:induction false} UnfinishedStops(f: Files, failretry: nat, round: nat, killed: nat -> bool, ending: nat -> Ending)
    requires round >= 1 && round !in f.finished
    ensures var t := Invocation(f, failretry, round + 1, killed, ending); t.files == f && t.runs == []
  {
  }

  /** What a turn that runs the runner leaves, up to the end of the invocation. */
  lemma {:induction false} TurnRecorded(f: Files, failretry: nat, round: nat, killed: nat -> bool, ending: nat -> Ending)
    requires Valid(f) && 1 <= round <= failretry && TurnOf(f, round, killed(round), ending(round)).runs != []
    ensures var g := Invocation(f, failretry, round, killed, ending).files;
            round in g.results && g.results[round] == ending(round).results
  {
    var t := TurnOf(f, round, killed(round), ending(round));
    TurnKeeps(f, round, killed(round), ending(round));
    assert round in t.files.results && t.files.results[round] == ending(round).results;
    if t.verdict == Continue {
      if ending(round).Completes? {
        InvocationKeeps(t.files, failretry, round + 1, killed, ending);
      } else {
        UnfinishedStops(t.files, failretry, round, killed, ending);
      }
    }
  }

  lemma {:induction false} RunsRecorded(f: Files, failretry: nat, round: nat, killed: nat -> bool, ending: nat -> Ending)
    requires Valid(f) && round >= 1
    ensures var t := Invocation(f, failretry, round, killed, ending); Recorded(t.runs, t.files, ending)
    decreases failretry - round
  {
    if round <= failretry {
      var t := TurnOf(f, round, killed(round), ending(round));
      TurnKeeps(f, round, killed(round), ending(round));
      if t.runs != [] {
        TurnRecorded(f, failretry, round, killed, ending);
      }
      if t.verdict == Continue {
        RunsRecorded(t.files, failretry, round + 1, killed, ending);
      }
    }
  }

  /** The turn after a completed round with a failure starts the next round on a list that has it. */
  lemma {:induction false} NextRoundRuns(f: Files, failretry: nat, round: nat, killed: nat -> bool, ending: nat -> Ending, x: Id)
    requires Valid(f) && 1 <= round < failretry && !killed(round + 1)
    requires round in f.finished && round + 1 !in f.finished && round + 1 !in f.lists && x in Failures(f, round)
    ensures var t := Invocation(f, failretry, round + 1, killed, ending);
            t.runs != [] && t.runs[0].round == round + 1 && x in t.runs[0].list
  {
  }

  lemma {:induction false} LaterUnlisted(f: Files, round: nat)
    requires Valid(f) && round >= 1 && round !in f.finished
    ensures round + 1 !in f.finished && round + 1 !in f.lists
  {
    assert round + 1 in f.lists ==> Derived(f, round + 1);
  }

  lemma {:induction false} FirstRunReran(f: Files, failretry: nat, round: nat, killed: nat -> bool, ending: nat -> Ending, x: Id)
    requires Valid(f) && 1 <= round <= failretry
    requires var t := TurnOf(f, round, killed(round), ending(round));
             t.runs != [] && FailedIn(t.runs[0], x, failretry, killed, ending)
    ensures var runs := Invocation(f, failretry, round, killed, ending).runs;
            0 < |runs| && Reran(runs, 0, x)
  {
    var t := TurnOf(f, round, killed(round), ending(round));
    TurnKeeps(f, round, killed(round), ending(round));
    LaterUnlisted(f, round);
    FailLinesExact(t.files.lists[round], t.files.results[round]);
    NextRoundRuns(t.files, failretry, round, killed, ending, x);
  }

  lemma {:induction false} RunsSplit(f: Files, failretry: nat, round: nat, killed: nat -> bool, ending: nat -> Ending)
    returns (later: seq<Run>)
    requires Invocation(f, failretry, round, killed, ending).runs != []
    ensures var t := TurnOf(f, round, killed(round), ending(round));
            && round <= failretry && Invocation(f, failretry, round, killed, ending).runs == t.runs + later
            && later == if t.verdict == Continue then Invocation(t.files, failretry, round + 1, killed, ending).runs else []
  {
    var t := TurnOf(f, round, killed(round), ending(round));
    later := if t.verdict == Continue then Invocation(t.files, failretry, round + 1, killed, ending).runs else [];
    assert t.runs + [] == t.runs;
  }

  lemma {:induction false} RerunLater(first: seq<Run>, later: seq<Run>, k: nat, x: Id)
    requires |first| <= k < |first| + |later| && Reran(later, k - |first|, x)
    ensures Reran(first + later, k, x)
  {
    var runs := first + later;
    assert runs[k] == later[k - |first|] && runs[k + 1] == later[k + 1 - |first|];
  }

  lemma {:induction false} TurnStartsOne(f: Files, round: nat, kill: bool, ending: Ending)
    requires Valid(f) && round >= 1
    ensures var t := TurnOf(f, round, kill, ending); Valid(t.files) && |t.runs| <= 1
  {
    TurnKeeps(f, round, kill, ending);
  }

  /** Every failure of a completed run is run again in the next round, unless the invocation is cut short
      before it or the rounds are used up. */
  lemma {:induction false} FailuresReran(f: Files, failretry: nat, round: nat, killed: nat -> bool, ending: nat -> Ending,
                                         k: nat, x: Id)
    requires Valid(f) && round >= 1
    requires var runs := Invocation(f, failretry, round, killed, ending).runs;
             k < |runs| && FailedIn(runs[k], x, failretry, killed, ending)
    ensures Reran(Invocation(f, failretry, round, killed, ending).runs, k, x)
    decreases failretry - round
  {
    var t := TurnOf(f, round, killed(round), ending(round));
    TurnStartsOne(f, round, killed(round), ending(round));
    var later := RunsSplit(f, failretry, round, killed, ending);
    if k < |t.runs| {
      FirstRunReran(f, failretry, round, killed, ending, x);
    } else {
      FailuresReran(t.files, failretry, round + 1, killed, ending, k - |t.runs|, x);
      RerunLater(t.runs, later, k, x);
    }
  }

  /** In a finished project an invocation runs nothing and changes no result. */
  lemma {:induction false} InvocationOfFinished(f: Files, failretry: nat, round: nat, killed: nat -> bool, ending: nat -> Ending)
    requires Valid(f) && ProjectFinished(f, failretry) && round >= 1
    ensures var t := Invocation(f, failretry, round, killed, ending);
            t.runs == [] && t.files.finished == f.finished && t.files.results == f.results
    decreases failretry - round
  {
    if round <= failretry {
      TurnOfFinished(f, failretry, round, killed(round), ending(round));
      if TurnOf(f, round, killed(round), ending(round)).verdict == Continue {
        InvocationOfFinished(f, failretry, round + 1, killed, ending);
      }
    }
  }

  /** What run_test promises. */
  lemma {:induction false} InvocationPromises(f: Files, failretry: nat, killed: nat -> bool, ending: nat -> Ending)
    requires Valid(f)
    ensures var t := Invocation(f, failretry, 1, killed, ending);
            && Valid(t.files) && Extends(f, t.files) && RunsSound(t.runs, 1, f, t.files)
            && (t.verdict == Return ==> exists r | 1 <= r <= failretry :: killed(r) || ending(r).Killed?)
            && (failretry >= 1 && (forall r | 1 <= r <= failretry :: !killed(r) && ending(r).Completes?) ==>
                  t.verdict != Return && ProjectFinished(t.files, failretry))
            && (ProjectFinished(f, failretry) ==>
                  t.runs == [] && t.files.finished == f.finished && t.files.results == f.results)
  {
    InvocationKeeps(f, failretry, 1, killed, ending);
    if Invocation(f, failretry, 1, killed, ending).verdict == Return {
      OnlyCutShort(f, failretry, 1, killed, ending);
    }
    if failretry >= 1 && (forall r | 1 <= r <= failretry :: !killed(r) && ending(r).Completes?) {
      InvocationFinishes(f, failretry, 1, killed, ending);
    }
    if ProjectFinished(f, failretry) {
      InvocationOfFinished(f, failretry, 1, killed, ending);
    }
  }

  lemma {:induction false} Regroup(a: seq<Run>, b: seq<Run>, c: seq<Run>)
    ensures a + (b + c) == a + b + c
  {
  }

  // ---------- run.sh ----------

  class Project {
    var files: Files
    /** The runs of run-test.sh so far. */
    var runs: seq<Run>

    constructor (base: seq<Id>)
      ensures files == Files(base, map[], {}, map[]) && Valid(files) && runs == []
    {
      files := Files(base, map[], {}, map[]);
      runs := [];
    }

    /** The statements of one turn. */
    method Round(round: nat, killed: bool, ending: Ending) returns (verdict: Verdict)
      modifies this
      ensures var t := TurnOf(old(files), round, killed, ending);
              files == t.files && runs == old(runs) + t.runs && verdict == t.verdict
    {
      if round > 1 && round - 1 !in files.finished {
        return Break;
      }
      if round in files.finished {
        return Continue;
      }
      if killed {
        return Return;
      }
      if round !in files.lists {
        var list := if round > 1 then Failures(files, round - 1) else files.base;
        files := files.(lists := files.lists[round := list]);
      }
      if round > 1 && files.lists[round] == [] {
        return Break;
      }
      runs := runs + [Run(round, files.lists[round], files.finished)];
      files := files.(results := files.results[round := ending.results]);
      if ending.Completes? {
        files := files.(finished := files.finished + {round});
      }
      if ending.Killed? {
        return Return;
      }
      verdict := if Failures(files, round) == [] then Break else Continue;
    }

    /** run_test without AGAIN. */
    method RunTest(failretry: nat, killed: nat -> bool, ending: nat -> Ending) returns (interrupted: bool)
      requires Valid(files)
      modifies this
      ensures var t := Invocation(old(files), failretry, 1, killed, ending);
              files == t.files && runs == old(runs) + t.runs && interrupted == (t.verdict == Return)
      ensures Valid(files) && Extends(old(files), files)
      ensures RunsSound(runs[|old(runs)|..], 1, old(files), files)
      ensures interrupted ==> exists r | 1 <= r <= failretry :: killed(r) || ending(r).Killed?
      ensures forall k | |old(runs)| <= k < |runs| ::
                runs[k].round in files.results && files.results[runs[k].round] == ending(runs[k].round).results
      ensures forall k, x | |old(runs)| <= k < |runs| && FailedIn(runs[k], x, failretry, killed, ending) ::
                k + 1 < |runs| && runs[k + 1].round == runs[k].round + 1 && x in runs[k + 1].list
      ensures failretry >= 1 && (forall r | 1 <= r <= failretry :: !killed(r) && ending(r).Completes?) ==>
                !interrupted && ProjectFinished(files, failretry)
      ensures ProjectFinished(old(files), failretry) ==>
                runs == old(runs) && files.finished == old(files.finished) && files.results == old(files.results)
    {
      interrupted := Loop(failretry, killed, ending);
      InvocationPromises(old(files), failretry, killed, ending);
      ghost var added := Invocation(old(files), failretry, 1, killed, ending).runs;
      assert runs[|old(runs)|..] == added;
      RunsRecorded(old(files), failretry, 1, killed, ending);
      forall k | |old(runs)| <= k < |runs|
        ensures runs[k].round in files.results && files.results[runs[k].round] == ending(runs[k].round).results
      {
        assert runs[k] == added[k - |old(runs)|];
      }
      forall k, x | |old(runs)| <= k < |runs| && FailedIn(runs[k], x, failretry, killed, ending)
        ensures k + 1 < |runs| && runs[k + 1].round == runs[k].round + 1 && x in runs[k + 1].list
      {
        assert runs[k] == added[k - |old(runs)|];
        FailuresReran(old(files), failretry, 1, killed, ending, k - |old(runs)|, x);
        assert runs[k + 1] == added[k + 1 - |old(runs)|];
      }
    }

    method Loop(failretry: nat, killed: nat -> bool, ending: nat -> Ending) returns (interrupted: bool)
      modifies this
      ensures var t := Invocation(old(files), failretry, 1, killed, ending);
              files == t.files && runs == old(runs) + t.runs && interrupted == (t.verdict == Return)
    {
      ghost var goal := Invocation(files, failretry, 1, killed, ending);
      ghost var all := runs + goal.runs;
      var round := 1;
      while round <= failretry
        invariant 1 <= round <= failretry + 1
        invariant var u := Invocation(files, failretry, round, killed, ending);
                  goal.files == u.files && all == runs + u.runs && goal.verdict == u.verdict
        decreases failretry - round
      {
        ghost var t := TurnOf(files, round, killed(round), ending(round));
        Regroup(runs, t.runs, Invocation(t.files, failretry, round + 1, killed, ending).runs);
        var verdict := Round(round, killed(round), ending(round));
        if verdict != Continue {
          return verdict == Return;
        }
        round := round + 1;
      }
      interrupted := false;
    }

    /** check_project_finished as the loop of the source. */
    method CheckProjectFinished(failretry: nat) returns (done: bool)
      ensures done == ProjectFinished(files, failretry)
    {
      var round := 1;
      while round <= failretry
        invariant 1 <= round <= failretry + 1
        invariant forall r | 1 <= r < round :: !(r in files.finished && Failures(files, r) == [])
      {
        if round in files.finished && Failures(files, round) == [] {
          return true;
        }
        round := round + 1;
      }
      return failretry in files.finished;
    }
  }
}
