/** collect_subprocesses: the processes below a given one, level by level, from a snapshot of the process
    table. */
module ProcessTree {

  /** A line of the snapshot. */
  datatype Line = Line(ppid: nat, pid: nat)

  type Table = seq<Line>

  /** Every process has one line. */
  predicate OneLineEach(table: Table) {
    forall i, j | 0 <= i < j < |table| :: table[i].pid != table[j].pid
  }

  predicate HasLine(table: Table, ppid: nat, pid: nat) {
    Line(ppid, pid) in table
  }

  /** grep and cut: the children of t, in the order of the table. */
  function ChildrenOf(table: Table, t: nat): seq<nat> {
    if table == [] then []
    else (if table[0].ppid == t then [table[0].pid] else []) + ChildrenOf(table[1..], t)
  }

  function Children(table: Table, list: seq<nat>): seq<nat> {
    if list == [] then [] else ChildrenOf(table, list[0]) + Children(table, list[1..])
  }

  /** The processes k generations below p. */
  function Level(table: Table, p: nat, k: nat): seq<nat> {
    if k == 0 then [p] else Children(table, Level(table, p, k - 1))
  }

  /** The processes 1 to k generations below p. */
  function Below(table: Table, p: nat, k: nat): seq<nat> {
    if k == 0 then [] else Below(table, p, k - 1) + Level(table, p, k)
  }

  /** q is k generations below p. */
  ghost predicate On(table: Table, p: nat, k: nat, q: nat) {
    if k == 0 then q == p else exists t: nat :: On(table, p, k - 1, t) && HasLine(table, t, q)
  }

  ghost predicate Descends(table: Table, p: nat, q: nat) {
    exists k: nat :: k >= 1 && On(table, p, k, q)
  }

  /** No process is k generations below p. */
  ghost predicate Ended(table: Table, p: nat, k: nat) {
    forall q: nat :: !On(table, p, k, q)
  }

  predicate Distinct(s: seq<nat>) {
    forall i, j | 0 <= i < j < |s| :: s[i] != s[j]
  }

  // ---------- children ----------

  lemma {:induction false} ChildrenOfExact(table: Table, t: nat, q: nat)
    ensures q in ChildrenOf(table, t) <==> HasLine(table, t, q)
  {
    if table != [] {
      ChildrenOfExact(table[1..], t, q);
      assert table == [table[0]] + table[1..];
    }
  }

  ghost predicate ChildOfSome(table: Table, list: seq<nat>, q: nat) {
    exists t | t in list :: HasLine(table, t, q)
  }

  lemma {:induction false} ChildOfHead(table: Table, list: seq<nat>, q: nat)
    requires list != []
    ensures ChildOfSome(table, list, q) <==> HasLine(table, list[0], q) || ChildOfSome(table, list[1..], q)
  {
    assert list == [list[0]] + list[1..];
  }

  lemma {:induction false} ChildrenExact(table: Table, list: seq<nat>, q: nat)
    ensures q in Children(table, list) <==> ChildOfSome(table, list, q)
  {
    if list != [] {
      ChildOfHead(table, list, q);
      ChildrenOfExact(table, list[0], q);
      ChildrenExact(table, list[1..], q);
    }
  }

  lemma {:induction false} OneParent(table: Table, s: nat, t: nat, q: nat)
    requires OneLineEach(table) && HasLine(table, s, q) && HasLine(table, t, q)
    ensures s == t
  {
  }

  lemma {:induction false} DistinctConcat(a: seq<nat>, b: seq<nat>)
    requires Distinct(a) && Distinct(b) && forall x | x in a :: x !in b
    ensures Distinct(a + b)
  {
    var s := a + b;
    forall i, j | 0 <= i < j < |s| ensures s[i] != s[j] {
      if i < |a| <= j {
        assert s[i] in a && s[j] == b[j - |a|] && s[j] in b;
      }
    }
  }

  lemma {:induction false} ChildrenOfDistinct(table: Table, t: nat)
    requires OneLineEach(table)
    ensures Distinct(ChildrenOf(table, t))
  {
    if table != [] {
      var rest := table[1..];
      ChildrenOfDistinct(rest, t);
      ChildrenOfExact(rest, t, table[0].pid);
      if table[0].ppid == t {
        DistinctConcat([table[0].pid], ChildrenOf(rest, t));
      }
    }
  }

  lemma {:induction false} ChildrenDistinct(table: Table, list: seq<nat>)
    requires OneLineEach(table) && Distinct(list)
    ensures Distinct(Children(table, list))
  {
    if list != [] {
      var own, rest := ChildrenOf(table, list[0]), list[1..];
      ChildrenOfDistinct(table, list[0]);
      ChildrenDistinct(table, rest);
      forall q | q in own ensures q !in Children(table, rest) {
        ChildrenOfExact(table, list[0], q);
        ChildrenExact(table, rest, q);
        forall t | t in rest ensures !HasLine(table, t, q) {
          if HasLine(table, t, q) {
            OneParent(table, list[0], t, q);
          }
        }
      }
      DistinctConcat(own, Children(table, rest));
    }
  }

  // ---------- levels ----------

  lemma {:induction false} LevelDistinct(table: Table, p: nat, k: nat)
    requires OneLineEach(table)
    ensures Distinct(Level(table, p, k))
  {
    if k > 0 {
      LevelDistinct(table, p, k - 1);
      ChildrenDistinct(table, Level(table, p, k - 1));
    }
  }

  lemma {:induction false} NextLevelExact(table: Table, p: nat, j: nat, before: seq<nat>, q: nat)
    requires forall t: nat :: t in before <==> On(table, p, j, t)
    ensures q in Children(table, before) <==> On(table, p, j + 1, q)
  {
    ChildrenExact(table, before, q);
  }

  lemma {:induction false} LevelExact(table: Table, p: nat, k: nat, q: nat)
    ensures q in Level(table, p, k) <==> On(table, p, k, q)
    decreases k
  {
    if k > 0 {
      var j, before := k - 1, Level(table, p, k - 1);
      forall t: nat ensures t in before <==> On(table, p, j, t) {
        LevelExact(table, p, j, t);
      }
      NextLevelExact(table, p, j, before, q);
    }
  }

  /** A process on two levels makes p its own descendant: its ancestors lie on two levels each, up to p. */
  lemma {:induction false} TwoLevels(table: Table, p: nat, q: nat, i: nat, j: nat)
    requires OneLineEach(table) && i < j && On(table, p, i, q) && On(table, p, j, q)
    ensures On(table, p, j - i, p)
    decreases i
  {
    if i > 0 {
      var s: nat :| On(table, p, i - 1, s) && HasLine(table, s, q);
      var t: nat :| On(table, p, j - 1, t) && HasLine(table, t, q);
      OneParent(table, s, t, q);
      TwoLevels(table, p, s, i - 1, j - 1);
    }
  }

  ghost predicate OnUpTo(table: Table, p: nat, k: nat, q: nat) {
    exists i: nat :: 1 <= i <= k && On(table, p, i, q)
  }

  lemma {:induction false} OnUpToStep(table: Table, p: nat, k: nat, q: nat)
    requires k >= 1
    ensures OnUpTo(table, p, k, q) <==> OnUpTo(table, p, k - 1, q) || On(table, p, k, q)
  {
  }

  lemma {:induction false} InConcat(a: seq<nat>, b: seq<nat>, q: nat)
    ensures q in a + b <==> q in a || q in b
  {
  }

  lemma {:induction false} BelowStep(table: Table, p: nat, k: nat) returns (above: seq<nat>, level: seq<nat>)
    requires k >= 1
    ensures above == Below(table, p, k - 1) && level == Level(table, p, k) && Below(table, p, k) == above + level
  {
    above, level := Below(table, p, k - 1), Level(table, p, k);
  }

  /** What is listed up to level k are the descendants up to generation k. */
  lemma {:induction false} BelowExact(table: Table, p: nat, k: nat, q: nat)
    ensures q in Below(table, p, k) <==> OnUpTo(table, p, k, q)
    decreases k
  {
    if k > 0 {
      BelowExact(table, p, k - 1, q);
      LevelExact(table, p, k, q);
      OnUpToStep(table, p, k, q);
      var above, level := BelowStep(table, p, k);
      InConcat(above, level, q);
    }
  }

  lemma {:induction false} NotOnTwice(table: Table, p: nat, k: nat, q: nat)
    requires OneLineEach(table) && !Descends(table, p, p) && k >= 1 && OnUpTo(table, p, k - 1, q)
    ensures !On(table, p, k, q)
  {
    if On(table, p, k, q) {
      var i: nat :| 1 <= i <= k - 1 && On(table, p, i, q);
      TwoLevels(table, p, q, i, k);
    }
  }

  ghost predicate DistinctUpTo(table: Table, p: nat, k: nat, s: seq<nat>) {
    Distinct(s) && forall q | q in s :: OnUpTo(table, p, k, q)
  }

  ghost predicate DistinctOn(table: Table, p: nat, k: nat, s: seq<nat>) {
    Distinct(s) && forall q | q in s :: On(table, p, k, q)
  }

  lemma {:induction false} LevelApart(table: Table, p: nat, k: nat, above: seq<nat>, level: seq<nat>)
    requires OneLineEach(table) && !Descends(table, p, p) && k >= 1
    requires DistinctUpTo(table, p, k - 1, above) && DistinctOn(table, p, k, level)
    ensures DistinctUpTo(table, p, k, above + level)
  {
    forall q | q in above ensures q !in level {
      NotOnTwice(table, p, k, q);
    }
    DistinctConcat(above, level);
    forall q | q in above + level ensures OnUpTo(table, p, k, q) {
      InConcat(above, level, q);
      OnUpToStep(table, p, k, q);
    }
  }

  lemma {:induction false} LevelOn(table: Table, p: nat, k: nat) returns (level: seq<nat>)
    requires OneLineEach(table)
    ensures level == Level(table, p, k) && DistinctOn(table, p, k, level)
  {
    level := Level(table, p, k);
    LevelDistinct(table, p, k);
    forall q | q in level ensures On(table, p, k, q) {
      LevelExact(table, p, k, q);
    }
  }

  lemma {:induction false} BelowOn(table: Table, p: nat, k: nat) returns (below: seq<nat>)
    requires OneLineEach(table) && !Descends(table, p, p)
    ensures below == Below(table, p, k) && DistinctUpTo(table, p, k, below)
    decreases k
  {
    if k == 0 {
      below := [];
    } else {
      var above := BelowOn(table, p, k - 1);
      var level := LevelOn(table, p, k);
      LevelApart(table, p, k, above, level);
      below := above + level;
    }
  }

  lemma {:induction false} OnHasLine(table: Table, p: nat, k: nat, q: nat)
    requires OnUpTo(table, p, k, q)
    ensures q in Pids(table)
  {
    var i: nat :| 1 <= i <= k && On(table, p, i, q);
    var t: nat :| On(table, p, i - 1, t) && HasLine(table, t, q);
    InPids(table, Line(t, q));
  }

  /** Only processes of the table are found, so there is room for at most |table|. */
  lemma {:induction false} BelowInTable(table: Table, p: nat, k: nat)
    requires OneLineEach(table) && !Descends(table, p, p)
    ensures |Below(table, p, k)| <= |table|
  {
    var below := BelowOn(table, p, k);
    forall q | q in below ensures q in Pids(table) {
      OnHasLine(table, p, k, q);
    }
    Pigeonhole(below, Pids(table));
  }

  function Pids(table: Table): (s: set<nat>)
    ensures |s| <= |table|
  {
    if table == [] then {} else {table[0].pid} + Pids(table[1..])
  }

  lemma {:induction false} InPids(table: Table, x: Line)
    requires x in table
    ensures x.pid in Pids(table)
  {
    if x != table[0] {
      assert x in table[1..];
      InPids(table[1..], x);
    }
  }

  lemma {:induction false} Pigeonhole(a: seq<nat>, s: set<nat>)
    requires Distinct(a) && forall x | x in a :: x in s
    ensures |a| <= |s|
  {
    if a != [] {
      var rest := a[1..];
      forall x | x in rest ensures x in s - {a[0]} {
      }
      Pigeonhole(rest, s - {a[0]});
    }
  }

  // ---------- the function of the source ----------

  lemma {:induction false} ChildrenStep(table: Table, args: seq<nat>, i: nat, tmp: seq<nat>)
    requires i < |args|
    ensures tmp + Children(table, args[i..]) == tmp + ChildrenOf(table, args[i]) + Children(table, args[i + 1..])
  {
    assert args[i..][0] == args[i] && args[i..][1..] == args[i + 1..];
    var own, rest := ChildrenOf(table, args[i]), Children(table, args[i + 1..]);
    assert tmp + (own + rest) == tmp + own + rest;
  }

  /** The loop: the children of all arguments. */
  method ListChildren(table: Table, args: seq<nat>) returns (tmp: seq<nat>)
    ensures tmp == Children(table, args)
  {
    tmp := [];
    ghost var all := Children(table, args);
    assert args[0..] == args && [] + all == all;
    for i := 0 to |args|
      invariant tmp + Children(table, args[i..]) == all
    {
      ChildrenStep(table, args, i, tmp);
      tmp := tmp + ChildrenOf(table, args[i]);
    }
    assert args[|args|..] == [] && tmp + [] == tmp;
  }

  lemma {:induction false} NextBelow(table: Table, p: nat, k: nat, tmp: seq<nat>)
    requires OneLineEach(table) && !Descends(table, p, p) && tmp == Children(table, Level(table, p, k))
    ensures tmp == Level(table, p, k + 1) && Below(table, p, k + 1) == Below(table, p, k) + tmp
    ensures |Below(table, p, k)| + |tmp| <= |table|
  {
    BelowInTable(table, p, k + 1);
  }

  lemma {:induction false} Regroup(a: seq<nat>, b: seq<nat>, c: seq<nat>)
    ensures a + b + c == a + (b + c)
  {
  }

  lemma {:induction false} EndedLevel(table: Table, p: nat, k: nat)
    ensures Level(table, p, k) == [] <==> Ended(table, p, k)
  {
    var level := Level(table, p, k);
    if level == [] {
      forall q: nat ensures !On(table, p, k, q) {
        LevelExact(table, p, k, q);
      }
    } else {
      LevelExact(table, p, k, level[0]);
    }
  }

  /** collect_subprocesses, called with the processes k generations below p, until level m is empty. */
  method CollectSubprocesses(table: Table, p: nat, args: seq<nat>, ghost k: nat) returns (out: seq<nat>, ghost m: nat)
    requires OneLineEach(table) && !Descends(table, p, p) && args == Level(table, p, k)
    ensures m >= k && Below(table, p, m) == Below(table, p, k) + out && Ended(table, p, m)
    decreases |table| - |Below(table, p, k)|, |args|
  {
    if |args| == 0 {
      EndedLevel(table, p, k);
      return [], k;
    }
    var tmp := ListChildren(table, args);
    NextBelow(table, p, k, tmp);
    var rest;
    rest, m := CollectSubprocesses(table, p, tmp, k + 1);
    out := tmp + rest;
    Regroup(Below(table, p, k), tmp, rest);
  }

  lemma {:induction false} EmptyFromThere(table: Table, p: nat, m: nat, k: nat)
    requires m <= k && Ended(table, p, m)
    ensures Ended(table, p, k)
    decreases k
  {
    if m < k {
      EmptyFromThere(table, p, m, k - 1);
    }
  }

  lemma {:induction false} UpToIsAll(table: Table, p: nat, m: nat, q: nat)
    requires Ended(table, p, m)
    ensures OnUpTo(table, p, m, q) <==> Descends(table, p, q)
  {
    if k: nat :| k >= 1 && On(table, p, k, q) && k > m {
      EmptyFromThere(table, p, m, k);
    }
  }

  /** Called with one process that is not its own descendant, it terminates and prints every descendant
      exactly once and nothing else. */
  method CollectBelow(table: Table, p: nat) returns (out: seq<nat>)
    requires OneLineEach(table) && !Descends(table, p, p)
    ensures Distinct(out) && forall q: nat :: q in out <==> Descends(table, p, q)
  {
    ghost var m;
    out, m := CollectSubprocesses(table, p, [p], 0);
    assert Below(table, p, m) == out;
    ghost var below := BelowOn(table, p, m);
    forall q: nat ensures q in out <==> Descends(table, p, q) {
      BelowExact(table, p, m, q);
      UpToIsAll(table, p, m, q);
    }
  }

  lemma {:induction false} LevelsRepeat(table: Table, p: nat, k: nat, j: nat, q: nat)
    requires On(table, p, k, p) && On(table, p, j, q)
    ensures On(table, p, k + j, q)
    decreases j
  {
    if j > 0 {
      var t: nat :| On(table, p, j - 1, t) && HasLine(table, t, q);
      LevelsRepeat(table, p, k, j - 1, t);
    }
  }

  /** With a process that is its own descendant no level is empty, so the recursion never ends. */
  lemma {:induction false} CycleNeverEnds(table: Table, p: nat, k: nat, m: nat)
    requires k >= 1 && On(table, p, k, p)
    ensures !Ended(table, p, m)
    decreases m
  {
    if m >= k {
      CycleNeverEnds(table, p, k, m - k);
      var q: nat :| On(table, p, m - k, q);
      LevelsRepeat(table, p, k, m - k, q);
    } else if Ended(table, p, m) {
      EmptyFromThere(table, p, m, k);
    }
  }

  lemma {:induction false} LevelsRunOut(table: Table, p: nat, k: nat)
    requires forall m: nat :: !Ended(table, p, m)
    ensures |Below(table, p, k)| >= k
  {
    if k > 0 {
      LevelsRunOut(table, p, k - 1);
      EndedLevel(table, p, k);
      var above, level := BelowStep(table, p, k);
    }
  }

  /** On a table with one line for each process, some level is empty, and the recursion ends, exactly if p
      is not its own descendant; no other cycle can be reached. */
  lemma {:induction false} EndsIff(table: Table, p: nat)
    requires OneLineEach(table)
    ensures (exists m: nat :: Ended(table, p, m)) <==> !Descends(table, p, p)
  {
    if k: nat :| k >= 1 && On(table, p, k, p) {
      forall m: nat ensures !Ended(table, p, m) {
        CycleNeverEnds(table, p, k, m);
      }
    } else if forall m: nat :: !Ended(table, p, m) {
      LevelsRunOut(table, p, |table| + 1);
      BelowInTable(table, p, |table| + 1);
    }
  }
}
