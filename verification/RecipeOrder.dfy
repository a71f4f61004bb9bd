/** The recipe list of one round, the order in which recipe.rb hands recipes to the runner,
    and the list that is left when the runner resumes after an interruption. */
module RecipeOrder {
  import opened Wrappers

  type Id = int

  /** What fixes the run order: the recipelist file, which of its recipes pass the type, priority and
      keyword filters, and the priority of every recipe. */
  datatype Selection = Selection(recipelist: seq<Id>, chosen: set<Id>, priority: Id -> int)

  ghost predicate Distinct(s: seq<Id>) {
    forall i, j | 0 <= i < j < |s| :: s[i] != s[j]
  }

  /** Ruby's [priority, id] <=> [priority, id]. */
  predicate Before(priority: Id -> int, a: Id, b: Id) {
    priority(a) < priority(b) || (priority(a) == priority(b) && a < b)
  }

  ghost predicate Sorted(priority: Id -> int, s: seq<Id>) {
    forall i, j | 0 <= i < j < |s| :: Before(priority, s[i], s[j])
  }

  function Filter(s: seq<Id>, chosen: set<Id>): seq<Id> {
    if s == [] then []
    else if s[0] in chosen then [s[0]] + Filter(s[1..], chosen)
    else Filter(s[1..], chosen)
  }

  function Insert(priority: Id -> int, x: Id, s: seq<Id>): seq<Id> {
    if s == [] || Before(priority, x, s[0]) then [x] + s
    else [s[0]] + Insert(priority, x, s[1..])
  }

  function Sort(priority: Id -> int, s: seq<Id>): seq<Id> {
    if s == [] then [] else Insert(priority, s[0], Sort(priority, s[1..]))
  }

  /** The lines of the recipelist after the line holding the recipe named in __finished_testcase;
      all of them when that recipe is not listed. */
  function After(s: seq<Id>, finished: Option<Id>): seq<Id> {
    if finished.None? || finished.value !in s then s
    else if s[0] == finished.value then s[1..]
    else After(s[1..], finished)
  }

  /** The recipes that one start of the runner walks, given what __finished_testcase holds. */
  function Queue(sel: Selection, finished: Option<Id>): seq<Id> {
    Sort(sel.priority, Filter(After(sel.recipelist, finished), sel.chosen))
  }

  /** The run order of a round that nothing interrupts. */
  function RunList(sel: Selection): seq<Id> {
    Queue(sel, None)
  }

  // ---------- filtering and sorting ----------

  lemma {:induction false} FilterMembers(s: seq<Id>, chosen: set<Id>)
    ensures forall x :: x in Filter(s, chosen) <==> x in s && x in chosen
  {
    if s != [] {
      assert s == [s[0]] + s[1..];
      FilterMembers(s[1..], chosen);
    }
  }

  lemma {:induction false} FilterDistinct(s: seq<Id>, chosen: set<Id>)
    requires Distinct(s)
    ensures Distinct(Filter(s, chosen))
  {
    if s != [] {
      FilterDistinct(s[1..], chosen);
      FilterMembers(s[1..], chosen);
    }
  }

  lemma {:induction false} InsertMembers(priority: Id -> int, x: Id, s: seq<Id>)
    ensures forall y :: y in Insert(priority, x, s) <==> y == x || y in s
    ensures |Insert(priority, x, s)| == |s| + 1
  {
    if s != [] && !Before(priority, x, s[0]) {
      InsertMembers(priority, x, s[1..]);
      assert s == [s[0]] + s[1..];
    }
  }

  lemma {:induction false} InsertSorted(priority: Id -> int, x: Id, s: seq<Id>)
    requires Sorted(priority, s) && x !in s
    ensures Sorted(priority, Insert(priority, x, s))
  {
    if s != [] && !Before(priority, x, s[0]) {
      InsertSorted(priority, x, s[1..]);
      InsertMembers(priority, x, s[1..]);
      var r := Insert(priority, x, s[1..]);
      forall j | 0 <= j < |r| ensures Before(priority, s[0], r[j]) {
        assert r[j] in r;
      }
    }
  }

  /** recipe.rb's sort: the same recipes, lower priority numbers first, and lower ids first among equals. */
  lemma {:induction false} SortCorrect(priority: Id -> int, s: seq<Id>)
    requires Distinct(s)
    ensures Sorted(priority, Sort(priority, s))
    ensures var r := Sort(priority, s);
            forall i, j | 0 <= i < j < |r| ::
              priority(r[i]) < priority(r[j]) || (priority(r[i]) == priority(r[j]) && r[i] < r[j])
    ensures |Sort(priority, s)| == |s|
    ensures forall x :: x in Sort(priority, s) <==> x in s
  {
    if s != [] {
      SortCorrect(priority, s[1..]);
      assert s == [s[0]] + s[1..];
      InsertSorted(priority, s[0], Sort(priority, s[1..]));
      InsertMembers(priority, s[0], Sort(priority, s[1..]));
    }
  }

  lemma {:induction false} SortIdentity(priority: Id -> int, s: seq<Id>)
    requires Sorted(priority, s)
    ensures Sort(priority, s) == s
  {
    if s != [] {
      SortIdentity(priority, s[1..]);
    }
  }

  // ---------- where a resume starts ----------

  lemma {:induction false} AfterSplit(s: seq<Id>, x: Id)
    requires Distinct(s) && x in s
    ensures exists k :: 0 <= k < |s| && s[k] == x && After(s, Some(x)) == s[k + 1..]
  {
    if s[0] == x {
      assert s[0] == x && After(s, Some(x)) == s[0 + 1..];
    } else {
      AfterSplit(s[1..], x);
      var k :| 0 <= k < |s[1..]| && s[1..][k] == x && After(s[1..], Some(x)) == s[1..][k + 1..];
      assert s[k + 1] == x && After(s, Some(x)) == s[k + 1 + 1..];
    }
  }

  /** In list order, what a resume filters out of the rest of the file is the rest of what the whole
      file filters to. */
  lemma {:induction false} FilterAfter(s: seq<Id>, chosen: set<Id>, x: Id) returns (k: nat)
    requires Distinct(s) && x in s && x in chosen
    ensures k < |Filter(s, chosen)| && Filter(s, chosen)[k] == x
    ensures Filter(After(s, Some(x)), chosen) == Filter(s, chosen)[k + 1..]
  {
    if s[0] == x {
      k := 0;
    } else {
      var j := FilterAfter(s[1..], chosen, x);
      if s[0] in chosen {
        k := j + 1;
        assert Filter(s, chosen)[k + 1..] == Filter(s[1..], chosen)[j + 1..];
      } else {
        k := j;
      }
    }
  }

  /** The recipelist agrees with the run order on the recipes that pass the filters. */
  ghost predicate InRunOrder(sel: Selection) {
    Sorted(sel.priority, Filter(sel.recipelist, sel.chosen))
  }

  lemma {:induction false} SortedDistinct(priority: Id -> int, s: seq<Id>)
    requires Sorted(priority, s)
    ensures Distinct(s)
  {
    forall i, j | 0 <= i < j < |s| ensures s[i] != s[j] {
      assert Before(priority, s[i], s[j]);
    }
  }

  /** When the recipelist is in run order, resuming after the k-th recipe leaves exactly the recipes
      after it. */
  lemma {:induction false} ResumeIsSuffix(sel: Selection, k: nat)
    requires Distinct(sel.recipelist) && InRunOrder(sel) && k < |RunList(sel)|
    ensures Queue(sel, Some(RunList(sel)[k])) == RunList(sel)[k + 1..]
  {
    var all := Filter(sel.recipelist, sel.chosen);
    SortIdentity(sel.priority, all);
    FilterMembers(sel.recipelist, sel.chosen);
    var x := all[k];
    assert x in all;
    var j := FilterAfter(sel.recipelist, sel.chosen, x);
    SortedDistinct(sel.priority, all);
    assert j == k;
    SortIdentity(sel.priority, all[k + 1..]);
  }

  lemma {:induction false} QueueMembers(sel: Selection, finished: Option<Id>)
    requires Distinct(sel.recipelist)
    ensures forall x :: x in Queue(sel, finished) <==> x in After(sel.recipelist, finished) && x in sel.chosen
  {
    var rest := After(sel.recipelist, finished);
    assert Distinct(rest) by {
      if finished.Some? && finished.value in sel.recipelist {
        AfterSplit(sel.recipelist, finished.value);
      }
    }
    FilterDistinct(rest, sel.chosen);
    FilterMembers(rest, sel.chosen);
    SortCorrect(sel.priority, Filter(rest, sel.chosen));
  }

  lemma {:induction false} QueueSorted(sel: Selection, finished: Option<Id>)
    requires Distinct(sel.recipelist)
    ensures Sorted(sel.priority, Queue(sel, finished))
  {
    var rest := After(sel.recipelist, finished);
    assert Distinct(rest) by {
      if finished.Some? && finished.value in sel.recipelist {
        AfterSplit(sel.recipelist, finished.value);
      }
    }
    FilterDistinct(rest, sel.chosen);
    SortCorrect(sel.priority, Filter(rest, sel.chosen));
  }

  lemma {:induction false} RunListCorrect(sel: Selection)
    requires Distinct(sel.recipelist)
    ensures Sorted(sel.priority, RunList(sel))
    ensures forall x :: x in RunList(sel) <==> x in sel.recipelist && x in sel.chosen
  {
    QueueSorted(sel, None);
    QueueMembers(sel, None);
  }

  lemma {:induction false} AfterWithin(s: seq<Id>, f: Option<Id>)
    ensures forall z | z in After(s, f) :: z in s
  {
    if f.Some? && f.value in s && s[0] != f.value {
      AfterWithin(s[1..], f);
    }
  }

  lemma {:induction false} AfterAfter(s: seq<Id>, f: Option<Id>, y: Id)
    requires Distinct(s) && y in After(s, f)
    ensures forall z | z in After(s, Some(y)) :: z in After(s, f)
  {
    AfterWithin(s, Some(y));
    if f.Some? && f.value in s {
      AfterWithin(s[1..], f);
      assert y in s[1..] && y != s[0];
      if s[0] == f.value {
        AfterWithin(s[1..], Some(y));
      } else {
        AfterAfter(s[1..], f, y);
      }
    }
  }

  /** Resuming after a recipe of a queue never brings back one that the queue does not have. */
  lemma {:induction false} QueueClosed(sel: Selection, f: Option<Id>, y: Id)
    requires Distinct(sel.recipelist) && y in Queue(sel, f)
    ensures forall z | z in Queue(sel, Some(y)) :: z in Queue(sel, f)
  {
    QueueMembers(sel, f);
    QueueMembers(sel, Some(y));
    AfterAfter(sel.recipelist, f, y);
  }

  /** No resume point drops a recipe that comes later in the run order. */
  ghost predicate NothingDropped(sel: Selection) {
    var run := RunList(sel);
    forall k, j | 0 <= k < j < |run| :: run[j] in Queue(sel, Some(run[k]))
  }

  lemma {:induction false} SortedIndex(priority: Id -> int, s: seq<Id>, a: nat, b: nat)
    requires Sorted(priority, s) && a < |s| && b < |s| && Before(priority, s[a], s[b])
    ensures a < b
  {
  }

  ghost predicate ListedBefore(sel: Selection, x: Id, y: Id) {
    var all := Filter(sel.recipelist, sel.chosen);
    exists i, j :: 0 <= i < j < |all| && all[i] == x && all[j] == y
  }

  /** Two recipes, the first one listed before the second but due after it. */
  ghost predicate Inverted(sel: Selection, early: Id, late: Id) {
    ListedBefore(sel, early, late) && !Before(sel.priority, early, late)
  }

  /** Resuming after y drops exactly y itself and what is listed before it. */
  lemma {:induction false} DroppedIff(sel: Selection, x: Id, y: Id)
    requires Distinct(sel.recipelist) && x in RunList(sel) && y in RunList(sel)
    ensures x !in Queue(sel, Some(y)) <==> x == y || ListedBefore(sel, x, y)
  {
    var all := Filter(sel.recipelist, sel.chosen);
    FilterDistinct(sel.recipelist, sel.chosen);
    FilterMembers(sel.recipelist, sel.chosen);
    RunListCorrect(sel);
    var k := FilterAfter(sel.recipelist, sel.chosen, y);
    QueueMembers(sel, Some(y));
    FilterMembers(After(sel.recipelist, Some(y)), sel.chosen);
    var i :| 0 <= i < |all| && all[i] == x;
    if k < i {
      assert all[k + 1..][i - k - 1] == x;
    }
  }

  /** An inversion in the recipelist is a lost recipe: finishing the one listed later loses the one
      listed earlier. */
  lemma {:induction false} InversionDrops(sel: Selection, early: Id, late: Id) returns (a: nat, b: nat)
    requires Distinct(sel.recipelist) && Inverted(sel, early, late)
    ensures a < b < |RunList(sel)| && RunList(sel)[a] == late && RunList(sel)[b] == early
    ensures early !in Queue(sel, Some(late))
  {
    var all := Filter(sel.recipelist, sel.chosen);
    var run := RunList(sel);
    FilterDistinct(sel.recipelist, sel.chosen);
    FilterMembers(sel.recipelist, sel.chosen);
    RunListCorrect(sel);
    assert early in all && late in all;
    b :| 0 <= b < |run| && run[b] == early;
    a :| 0 <= a < |run| && run[a] == late;
    assert Before(sel.priority, late, early);
    SortedIndex(sel.priority, run, a, b);
    DroppedIff(sel, early, late);
  }

  /** Resuming loses nothing exactly when the recipelist itself is in run order. */
  lemma {:induction false} ResumeLosesNothingIff(sel: Selection)
    requires Distinct(sel.recipelist)
    ensures NothingDropped(sel) <==> InRunOrder(sel)
  {
    var all := Filter(sel.recipelist, sel.chosen);
    if InRunOrder(sel) {
      var run := RunList(sel);
      forall k, j | 0 <= k < j < |run| ensures run[j] in Queue(sel, Some(run[k])) {
        ResumeIsSuffix(sel, k);
        assert run[k + 1..][j - k - 1] == run[j];
      }
    } else {
      var i, j :| 0 <= i < j < |all| && !Before(sel.priority, all[i], all[j]);
      var a, b := InversionDrops(sel, all[i], all[j]);
    }
  }
}
