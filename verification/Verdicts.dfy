/** testcase_result: how a testcase is classified from what its runs wrote, when a reboot made it run more
    than once. */
module Verdicts {
  import opened Wrappers

  datatype Verdict = NONE | SKIP | WARN | PASS | FAIL

  /** run_status as the summary sees it. */
  datatype Status = Never | Skipped | Begun

  /** A line of the result file. */
  datatype Line = Log(text: string) | Result(verdict: Verdict)

  /** What one call of do_soft_try appended: its log, and its verdict if it got as far as that line. */
  datatype Output = Output(log: seq<string>, verdict: Option<Verdict>)

  function Logged(log: seq<string>): seq<Line> {
    if log == [] then [] else [Log(log[0])] + Logged(log[1..])
  }

  function Lines(o: Output): seq<Line> {
    Logged(o.log) + if o.verdict.Some? then [Result(o.verdict.value)] else []
  }

  /** The result file after the given calls, which all append to it. */
  function File(outputs: seq<Output>): seq<Line> {
    if outputs == [] then [] else Lines(outputs[0]) + File(outputs[1..])
  }

  function FirstResult(file: seq<Line>): Option<Verdict> {
    if file == [] then None
    else if file[0].Result? then Some(file[0].verdict)
    else FirstResult(file[1..])
  }

  /** testcase_result; None stands for a missing file. */
  method TestcaseResult(status: Status, file: Option<seq<Line>>) returns (r: Verdict)
    ensures status.Never? ==> r == NONE
    ensures status.Skipped? ==> r == SKIP
    ensures status.Begun? ==> r == Classified(if file.Some? then file.value else [])
    ensures status.Begun? && (file.None? || forall i | 0 <= i < |file.value| :: file.value[i].Log?) ==> r == WARN
    ensures status.Begun? && file.Some? ==>
              forall i | 0 <= i < |file.value| && file.value[i].Result? && (forall j | 0 <= j < i :: file.value[j].Log?) ::
                r == file.value[i].verdict
  {
    if status == Never {
      return NONE;
    }
    if status == Skipped {
      return SKIP;
    }
    var tmp: Option<Verdict> := None;
    if file.Some? {
      var i := 0;
      while i < |file.value|
        invariant 0 <= i <= |file.value| && tmp.None?
        invariant forall j | 0 <= j < i :: file.value[j].Log?
        invariant FirstResult(file.value) == FirstResult(file.value[i..])
        decreases |file.value| - i
      {
        if file.value[i].Result? {
          tmp := Some(file.value[i].verdict);
          break;
        }
        i := i + 1;
      }
    }
    r := if tmp.None? then WARN else tmp.value;
  }

  function Classified(file: seq<Line>): Verdict {
    var first := FirstResult(file);
    if first.None? then WARN else first.value
  }

  // ---------- which run decides ----------

  lemma {:induction false} FirstConcat(a: seq<Line>, b: seq<Line>)
    ensures FirstResult(a + b) == if FirstResult(a).Some? then FirstResult(a) else FirstResult(b)
    decreases |a|
  {
    if a == [] {
      assert a + b == b;
    } else {
      assert (a + b)[1..] == a[1..] + b;
      FirstConcat(a[1..], b);
    }
  }

  lemma {:induction false} FirstOfLog(log: seq<string>)
    ensures FirstResult(Logged(log)).None?
  {
    if log != [] {
      FirstOfLog(log[1..]);
      assert Logged(log)[1..] == Logged(log[1..]);
    }
  }

  lemma {:induction false} FirstOfOutput(o: Output)
    ensures FirstResult(Lines(o)) == o.verdict
  {
    FirstOfLog(o.log);
    FirstConcat(Logged(o.log), if o.verdict.Some? then [Result(o.verdict.value)] else []);
  }

  /** Run k is the first that got as far as its verdict. */
  ghost predicate Decides(outputs: seq<Output>, k: int) {
    0 <= k < |outputs| && outputs[k].verdict.Some? && forall j | 0 <= j < k :: outputs[j].verdict.None?
  }

  lemma {:induction false} SomeRunDecides(outputs: seq<Output>)
    ensures if FirstResult(File(outputs)).Some?
            then exists k :: Decides(outputs, k) && FirstResult(File(outputs)) == outputs[k].verdict
            else forall j | 0 <= j < |outputs| :: outputs[j].verdict.None?
  {
    if outputs != [] {
      var o, rest := outputs[0], outputs[1..];
      FirstOfOutput(o);
      FirstConcat(Lines(o), File(rest));
      SomeRunDecides(rest);
      if o.verdict.Some? {
        assert Decides(outputs, 0);
      } else if k :| Decides(rest, k) && FirstResult(File(rest)) == rest[k].verdict {
        assert forall j | 0 < j < |outputs| :: outputs[j] == rest[j - 1];
        assert Decides(outputs, k + 1) && outputs[k + 1] == rest[k];
      } else {
        assert forall j | 0 < j < |outputs| :: outputs[j] == rest[j - 1];
      }
    }
  }

  /** The testcase is classified by the verdict of its last run exactly if every earlier run that is the
      first to reach its verdict line came to the same verdict. */
  lemma {:induction false} LastRunDecidesIff(outputs: seq<Output>)
    requires outputs != [] && outputs[|outputs| - 1].verdict.Some?
    ensures Classified(File(outputs)) == outputs[|outputs| - 1].verdict.value <==>
            forall k | Decides(outputs, k) :: outputs[k].verdict == outputs[|outputs| - 1].verdict
  {
    SomeRunDecides(outputs);
    var k :| Decides(outputs, k) && FirstResult(File(outputs)) == outputs[k].verdict;
    assert forall m | Decides(outputs, m) :: m == k;
  }

  /** In particular if at most one run reached the line, or all that did agree. */
  lemma {:induction false} AgreeingRunsDecide(outputs: seq<Output>)
    requires outputs != [] && outputs[|outputs| - 1].verdict.Some?
    requires forall i, j | 0 <= i < |outputs| && 0 <= j < |outputs| && outputs[i].verdict.Some? && outputs[j].verdict.Some? ::
               outputs[i].verdict == outputs[j].verdict
    ensures Classified(File(outputs)) == outputs[|outputs| - 1].verdict.value
  {
    LastRunDecidesIff(outputs);
  }

  /** A reboot between the verdict line and the FINISHED status fixes the older verdict, whatever the run
      after it comes to. */
  lemma {:induction false} OlderVerdictStays(first: Output, second: Output)
    requires first.verdict.Some?
    ensures Classified(File([first, second])) == first.verdict.value
  {
    SomeRunDecides([first, second]);
    assert Decides([first, second], 0);
  }
}
