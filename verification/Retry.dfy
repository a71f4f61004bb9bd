/** The retry loops around a testcase: HARD_RETRY trials in a row must pass, and this may be attempted
    until SOFT_RETRY attempts have failed. */
module Retry {
  import opened Wrappers

  /** The exit status of one trial: passed (0), preparation failed (1), checks failed (2), or any other
      status, as left by a trial that was killed. */
  datatype Trial = Passed | Skipped | Failed | Other

  /** The TESTCASE_RESULT line; no line at all for another status. */
  datatype Verdict = PASS | SKIP | FAIL | NoLine

  function Line(t: Trial): (v: Verdict)
    ensures (v == PASS <==> t == Passed) && (v == SKIP <==> t == Skipped) && (v == FAIL <==> t == Failed)
  {
    match t case Passed => PASS case Skipped => SKIP case Failed => FAIL case Other => NoLine
  }

  datatype Outcome = Outcome(last: Trial, used: nat)

  // ---------- one flat scan ----------

  /** After n trials, f attempts have failed and the current attempt has gone h trials without failing. */
  function Scan(trial: nat -> Trial, soft: nat, hard: nat, n: nat, f: nat, h: nat): Outcome
    requires f < soft && h < hard
    decreases soft - f, hard - h
  {
    var t := trial(n);
    match t
    case Skipped => Outcome(t, n + 1)
    case Failed => if f + 1 == soft then Outcome(t, n + 1) else Scan(trial, soft, hard, n + 1, f + 1, 0)
    case Passed => if h + 1 == hard then Outcome(t, n + 1) else Scan(trial, soft, hard, n + 1, f, h + 1)
    case Other =>
      if h + 1 < hard then Scan(trial, soft, hard, n + 1, f, h + 1)
      else if f + 1 == soft then Outcome(t, n + 1)
      else Scan(trial, soft, hard, n + 1, f + 1, 0)
  }

  function Setting(retry: Option<int>): int {
    match retry case None => 1 case Some(v) => v
  }

  /** What a testcase comes to. A retry count below 1 leaves an empty loop, whose status is success. */
  function Result(trial: nat -> Trial, soft: Option<int>, hard: Option<int>): Outcome {
    if Setting(soft) < 1 || Setting(hard) < 1 then Outcome(Passed, 0)
    else Scan(trial, Setting(soft), Setting(hard), 0, 0, 0)
  }

  // ---------- the loops of the source ----------

  /** The end of one attempt that starts after n trials. */
  function Attempt(trial: nat -> Trial, hard: nat, n: nat, h: nat): Outcome
    requires h < hard
    decreases hard - h
  {
    var t := trial(n);
    if t.Skipped? || t.Failed? || h + 1 == hard then Outcome(t, n + 1) else Attempt(trial, hard, n + 1, h + 1)
  }

  /** do_hard_try. */
  method DoHardTry(trial: nat -> Trial, hard: Option<int>, n: nat) returns (r: Outcome)
    ensures Setting(hard) >= 1 ==> r == Attempt(trial, Setting(hard), n, 0)
    ensures Setting(hard) < 1 ==> r == Outcome(Passed, n)
  {
    if hard.None? || hard.value == 1 {
      return Outcome(trial(n), n + 1);
    }
    var last, used := Passed, n;
    var k := 0;
    while k < hard.value
      invariant 0 <= k && (k == 0 || k <= hard.value)
      invariant k == 0 ==> last == Passed && used == n
      invariant k < hard.value ==> Attempt(trial, hard.value, n, 0) == Attempt(trial, hard.value, used, k)
      invariant 0 < k == hard.value ==> Attempt(trial, hard.value, n, 0) == Outcome(last, used)
    {
      last, used := trial(used), used + 1;
      if last == Skipped || last == Failed {
        return Outcome(last, used);
      }
      k := k + 1;
    }
    r := Outcome(last, used);
  }

  /** do_soft_try, and the TESTCASE_RESULT line that it writes. */
  method DoSoftTry(trial: nat -> Trial, soft: Option<int>, hard: Option<int>) returns (r: Outcome, line: Verdict)
    ensures r == Result(trial, soft, hard)
    ensures (line == PASS <==> r.last == Passed) && (line == SKIP <==> r.last == Skipped)
    ensures (line == FAIL <==> r.last == Failed) && (line == NoLine <==> r.last == Other)
  {
    if soft.None? || soft.value == 1 {
      r := DoHardTry(trial, hard, 0);
      if Setting(hard) >= 1 {
        ScanIsAttempts(trial, 1, Setting(hard), 0, 0, 0);
      }
    } else {
      r := Attempts(trial, soft.value, hard);
    }
    if r.last == Passed {
      line := PASS;
    } else if r.last == Skipped {
      line := SKIP;
    } else if r.last == Failed {
      line := FAIL;
    } else {
      line := NoLine;
    }
  }

  /** Its loop. */
  method Attempts(trial: nat -> Trial, soft: int, hard: Option<int>) returns (r: Outcome)
    ensures r == Result(trial, Some(soft), hard)
  {
    r := Outcome(Passed, 0);
    var k := 0;
    while k < soft
      invariant 0 <= k && (k == 0 || k <= soft)
      invariant k == 0 ==> r == Outcome(Passed, 0)
      invariant k > 0 ==> Setting(hard) >= 1
      invariant k < soft && Setting(hard) >= 1 ==>
                  Result(trial, Some(soft), hard) == Scan(trial, soft, Setting(hard), r.used, k, 0)
      invariant 0 < k == soft ==> Result(trial, Some(soft), hard) == r
    {
      if Setting(hard) >= 1 {
        ScanIsAttempts(trial, soft, Setting(hard), r.used, k, 0);
      }
      r := DoHardTry(trial, hard, r.used);
      if r.last == Passed || r.last == Skipped {
        return;
      }
      k := k + 1;
    }
  }

  /** The scan is a sequence of attempts. */
  lemma {:induction false} ScanIsAttempts(trial: nat -> Trial, soft: nat, hard: nat, n: nat, f: nat, h: nat)
    requires f < soft && h < hard
    ensures var a := Attempt(trial, hard, n, h);
            Scan(trial, soft, hard, n, f, h) ==
            if a.last == Passed || a.last == Skipped || f + 1 == soft then a else Scan(trial, soft, hard, a.used, f + 1, 0)
    decreases hard - h
  {
    var t := trial(n);
    if !t.Skipped? && !t.Failed? && h + 1 < hard {
      ScanIsAttempts(trial, soft, hard, n + 1, f, h + 1);
    }
  }

  // ---------- what the documentation promises ----------

  function Failures(trial: nat -> Trial, n: nat): nat {
    if n == 0 then 0 else Failures(trial, n - 1) + if trial(n - 1) == Failed then 1 else 0
  }

  ghost predicate PassedInARow(trial: nat -> Trial, hard: int, n: nat) {
    hard <= n && forall i: nat | n - hard <= i < n :: trial(i) == Passed
  }

  /** The first n trials settle the testcase. */
  ghost predicate Settled(trial: nat -> Trial, soft: nat, hard: nat, n: nat) {
    n >= 1 && (PassedInARow(trial, hard, n) || Failures(trial, n) >= soft || trial(n - 1) == Skipped)
  }

  /** After n unsettled trials, f of them failed and the last h passed, no more. */
  ghost predicate Position(trial: nat -> Trial, soft: nat, hard: nat, n: nat, f: nat, h: nat) {
    && f < soft && h < hard && h <= n && f == Failures(trial, n)
    && (forall i: nat | n - h <= i < n :: trial(i) == Passed)
    && (h < n ==> trial(n - h - 1) != Passed)
    && (forall m: nat | m <= n :: !Settled(trial, soft, hard, m))
  }

  lemma {:induction false} StepSettled(trial: nat -> Trial, soft: nat, hard: nat, n: nat, f: nat, h: nat)
    requires Position(trial, soft, hard, n, f, h)
    ensures PassedInARow(trial, hard, n + 1) <==> trial(n) == Passed && h + 1 == hard
    ensures Settled(trial, soft, hard, n + 1) <==>
            (trial(n) == Passed && h + 1 == hard) || Failures(trial, n + 1) >= soft || trial(n) == Skipped
  {
    if PassedInARow(trial, hard, n + 1) {
      assert trial(n) == Passed;
    }
    if trial(n) == Passed && h + 1 == hard {
      forall i: nat | n + 1 - hard <= i < n + 1 ensures trial(i) == Passed {
      }
    }
  }

  /** An unsettling trial moves the position on. */
  lemma {:induction false} StepPosition(trial: nat -> Trial, soft: nat, hard: nat, n: nat, f: nat, h: nat)
    requires Position(trial, soft, hard, n, f, h)
    ensures trial(n) == Failed && f + 1 < soft ==> Position(trial, soft, hard, n + 1, f + 1, 0)
    ensures trial(n) == Passed && h + 1 < hard ==> Position(trial, soft, hard, n + 1, f, h + 1)
  {
    StepSettled(trial, soft, hard, n, f, h);
  }

  ghost predicate Decides(trial: nat -> Trial, soft: nat, hard: nat, r: Outcome) {
    && r.used >= 1
    && Settled(trial, soft, hard, r.used) && (forall m: nat | m < r.used :: !Settled(trial, soft, hard, m))
    && (Line(r.last) == PASS <==> PassedInARow(trial, hard, r.used))
    && (Line(r.last) == FAIL <==> Failures(trial, r.used) == soft)
    && (Line(r.last) == SKIP <==> trial(r.used - 1) == Skipped)
  }

  lemma {:induction false} ScanDecides(trial: nat -> Trial, soft: nat, hard: nat, n: nat, f: nat, h: nat)
    requires Position(trial, soft, hard, n, f, h) && forall i: nat :: trial(i) != Other
    ensures Decides(trial, soft, hard, Scan(trial, soft, hard, n, f, h))
    decreases soft - f, hard - h
  {
    StepPosition(trial, soft, hard, n, f, h);
    if trial(n) == Failed && f + 1 < soft {
      ScanDecides(trial, soft, hard, n + 1, f + 1, 0);
    } else if trial(n) == Passed && h + 1 < hard {
      ScanDecides(trial, soft, hard, n + 1, f, h + 1);
    } else {
      StepSettled(trial, soft, hard, n, f, h);
      assert Scan(trial, soft, hard, n, f, h) == Outcome(trial(n), n + 1);
      if trial(n) == Passed {
        assert Failures(trial, n + 1) == f;
      }
    }
  }

  /** Whatever the statuses are, at most SOFT_RETRY * HARD_RETRY trials. */
  lemma {:induction false} ScanIsBounded(trial: nat -> Trial, soft: nat, hard: nat, n: nat, f: nat, h: nat)
    requires f < soft && h < hard
    ensures n < Scan(trial, soft, hard, n, f, h).used <= n + (soft - f) * hard - h
    decreases soft - f, hard - h
  {
    Product(soft - f, hard);
    if f + 1 < soft {
      ScanIsBounded(trial, soft, hard, n + 1, f + 1, 0);
    }
    if h + 1 < hard {
      ScanIsBounded(trial, soft, hard, n + 1, f, h + 1);
    }
  }

  lemma {:induction false} Product(a: nat, b: nat)
    requires a >= 1
    ensures a * b == (a - 1) * b + b
  {
  }

  /** When every trial ends with one of the three documented statuses, the nested loops stop at the first
      trial that settles the testcase, PASS for HARD_RETRY passes in a row, FAIL for the SOFT_RETRY-th
      failure, SKIP for a failed preparation, after at most SOFT_RETRY * HARD_RETRY trials. */
  lemma {:induction false} RetryKeepsItsPromise(trial: nat -> Trial, soft: nat, hard: nat)
    requires soft >= 1 && hard >= 1 && forall i: nat :: trial(i) != Other
    ensures var r := Result(trial, Some(soft), Some(hard));
            && r.used <= soft * hard
            && Decides(trial, soft, hard, r)
  {
    ScanDecides(trial, soft, hard, 0, 0, 0);
    ScanIsBounded(trial, soft, hard, 0, 0, 0);
  }

  /** In the last attempt of a PASS every trial passed or ended with another status. */
  lemma {:induction false} PassWindow(trial: nat -> Trial, soft: nat, hard: nat)
    requires soft >= 1 && hard >= 1 && Result(trial, Some(soft), Some(hard)).last == Passed
    ensures var n := Result(trial, Some(soft), Some(hard)).used;
            && hard <= n && trial(n - 1) == Passed
            && (PassedInARow(trial, hard, n) <==> forall i: nat | n - hard <= i < n :: trial(i) != Other)
  {
    LastAttempt(trial, soft, hard, 0, 0, 0);
  }

  /** All trials end with statuses from the given set. */
  ghost predicate Drawn(trial: nat -> Trial, statuses: set<Trial>) {
    forall i: nat :: trial(i) in statuses
  }

  /** A PASS stands for HARD_RETRY passes in a row. */
  ghost predicate Earned(trial: nat -> Trial, soft: Option<int>, hard: Option<int>) {
    var r := Result(trial, soft, hard);
    Line(r.last) == PASS ==> PassedInARow(trial, Setting(hard), r.used)
  }

  /** The settings and the possible statuses that let no PASS through unearned: no pass is asked for, or
      there is at least one attempt and one pass is enough, no trial can end with a status other than the
      documented ones, or no trial can pass. */
  predicate Safe(soft: int, hard: int, statuses: set<Trial>) {
    hard < 1 || (soft >= 1 && (hard == 1 || Other !in statuses || Passed !in statuses))
  }

  lemma {:induction false} SafeIsEarned(trial: nat -> Trial, soft: Option<int>, hard: Option<int>, statuses: set<Trial>)
    requires Drawn(trial, statuses) && Safe(Setting(soft), Setting(hard), statuses)
    ensures Earned(trial, soft, hard)
  {
    if Setting(hard) >= 1 && Result(trial, soft, hard).last == Passed {
      assert Result(trial, soft, hard) == Result(trial, Some(Setting(soft)), Some(Setting(hard)));
      PassWindow(trial, Setting(soft), Setting(hard));
    }
  }

  lemma {:induction false} UnsafeIsUnearned(soft: Option<int>, hard: Option<int>, statuses: set<Trial>)
    returns (trial: nat -> Trial)
    requires statuses != {} && !Safe(Setting(soft), Setting(hard), statuses)
    ensures Drawn(trial, statuses) && !Earned(trial, soft, hard)
  {
    if Setting(soft) < 1 {
      var t :| t in statuses;
      trial := n => t;
      assert Drawn(trial, statuses);
    } else {
      trial := n => if n == 0 then Other else Passed;
      PassesOn(trial, Setting(soft), Setting(hard), 1, 0, 1);
      assert Drawn(trial, statuses) && trial(0) == Other;
    }
  }

  /** Every PASS is earned, whatever the trials do, exactly for these settings and statuses. */
  lemma {:induction false} PassIsEarnedIff(soft: Option<int>, hard: Option<int>, statuses: set<Trial>)
    requires statuses != {}
    ensures (forall trial | Drawn(trial, statuses) :: Earned(trial, soft, hard)) <==>
            Safe(Setting(soft), Setting(hard), statuses)
  {
    if Safe(Setting(soft), Setting(hard), statuses) {
      forall trial | Drawn(trial, statuses) ensures Earned(trial, soft, hard) {
        SafeIsEarned(trial, soft, hard, statuses);
      }
    } else {
      var trial := UnsafeIsUnearned(soft, hard, statuses);
    }
  }

  /** From the second trial on everything passes. */
  lemma {:induction false} PassesOn(trial: nat -> Trial, soft: nat, hard: nat, n: nat, f: nat, h: nat)
    requires f < soft && h < hard && forall i: nat | i >= n :: trial(i) == Passed
    ensures Scan(trial, soft, hard, n, f, h) == Outcome(Passed, n + hard - h)
    decreases hard - h
  {
    if h + 1 < hard {
      PassesOn(trial, soft, hard, n + 1, f, h + 1);
    }
  }

  lemma {:induction false} LastAttempt(trial: nat -> Trial, soft: nat, hard: nat, n: nat, f: nat, h: nat)
    requires f < soft && h < hard && h <= n && Scan(trial, soft, hard, n, f, h).last == Passed
    requires forall i: nat | n - h <= i < n :: trial(i) == Passed || trial(i) == Other
    ensures var m := Scan(trial, soft, hard, n, f, h).used;
            hard <= m && trial(m - 1) == Passed
            && forall i: nat | m - hard <= i < m :: trial(i) == Passed || trial(i) == Other
    decreases soft - f, hard - h
  {
    match trial(n)
    case Skipped =>
    case Failed =>
      if f + 1 < soft {
        LastAttempt(trial, soft, hard, n + 1, f + 1, 0);
      }
    case Passed =>
      if h + 1 < hard {
        LastAttempt(trial, soft, hard, n + 1, f, h + 1);
      }
    case Other =>
      if h + 1 < hard {
        LastAttempt(trial, soft, hard, n + 1, f, h + 1);
      } else if f + 1 < soft {
        LastAttempt(trial, soft, hard, n + 1, f + 1, 0);
      }
  }

  /** A trial that was killed counts towards a pass if the attempt goes on. */
  lemma {:induction false} KilledTrialInPass()
    ensures Result(n => if n == 0 then Other else Passed, Some(1), Some(2)) == Outcome(Passed, 2)
  {
  }
}
