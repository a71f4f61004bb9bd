/** Which recipes of a list run_recipes runs, and under which directory configs. */
module RecipeRuns {
  import opened Wrappers
  import opened RecipeTree

  datatype Ran = Ran(dir: Path, name: Name, configs: seq<Path>)

  datatype Replayed = Replayed(runs: seq<Ran>, open: seq<Path>)

  /** Reads a trace with the directories whose config is in force; None if a clean-up does not match the
      innermost of them. */
  function Replay(trace: seq<Event>, open: seq<Path>): Option<Replayed>
    decreases |trace|
  {
    if trace == [] then Some(Replayed([], open))
    else
      var rest := trace[1..];
      match trace[0]
      case Source(d) => Replay(rest, open + [d])
      case Refuse(_) => Replay(rest, open)
      case Run(d, n) =>
        (match Replay(rest, open)
         case None => None
         case Some(r) => Some(r.(runs := [Ran(d, n, open)] + r.runs)))
      case Cleanup(d) =>
        if open != [] && open[|open| - 1] == d then Replay(rest, open[..|open| - 1]) else None
  }

  // ---------- what each recipe is due ----------

  /** Recipe i lies below the same directory at depth l as the recipe before it in the list. */
  predicate Stays(elms: seq<Recipe>, i: nat, l: nat)
    requires i < |elms|
  {
    i > 0 && l <= |elms[i - 1].dirs| && l <= |elms[i].dirs| && elms[i - 1].dirs[..l] == elms[i].dirs[..l]
  }

  /** Where the walk last entered the directory of recipe i at depth l. */
  function Start(elms: seq<Recipe>, i: nat, l: nat): nat
    requires i < |elms|
  {
    if Stays(elms, i, l) then Start(elms, i - 1, l) else i
  }

  /** What the config of that directory did then. */
  function Outcome(c: Configs, dir: Path, at: nat, elms: seq<Recipe>, i: nat, l: nat): Config
    requires i < |elms| && l <= |elms[i].dirs|
  {
    c(dir + elms[i].dirs[..l], at + Start(elms, i, l))
  }

  /** No config above recipe i, from depth l on, had failed. */
  predicate Runs(c: Configs, dir: Path, at: nat, elms: seq<Recipe>, i: nat, l: nat)
    requires i < |elms|
    decreases |elms[i].dirs| - l
  {
    l >= |elms[i].dirs| || (!Outcome(c, dir, at, elms, i, l + 1).Fails? && Runs(c, dir, at, elms, i, l + 1))
  }

  /** The configs above it, from depth l on, outer to inner. */
  function ConfigsOf(c: Configs, dir: Path, at: nat, elms: seq<Recipe>, i: nat, l: nat): seq<Path>
    requires i < |elms|
    decreases |elms[i].dirs| - l
  {
    if l >= |elms[i].dirs| then []
    else
      (if Outcome(c, dir, at, elms, i, l + 1).Passes? then [dir + elms[i].dirs[..l + 1]] else [])
      + ConfigsOf(c, dir, at, elms, i, l + 1)
  }

  /** The recipes from number i on that are to run, in list order. */
  function Due(c: Configs, dir: Path, at: nat, elms: seq<Recipe>, i: nat, open: seq<Path>): seq<Ran>
    requires i <= |elms|
    decreases |elms| - i
  {
    if i == |elms| then []
    else
      (if Runs(c, dir, at, elms, i, 0)
       then [Ran(dir + elms[i].dirs, elms[i].name, open + ConfigsOf(c, dir, at, elms, i, 0))] else [])
      + Due(c, dir, at, elms, i + 1, open)
  }

  // ---------- replaying the flat walk ----------

  /** The configs in force in the given directories, and whether the walk got all the way in. */
  function InForce(dir: Path, levels: seq<Level>): seq<Path>
    decreases |levels|
  {
    if levels == [] then []
    else
      var d := dir + [levels[0].name];
      match levels[0].config
      case Fails => []
      case Passes => [d] + InForce(d, levels[1..])
      case Absent => InForce(d, levels[1..])
  }

  predicate Clear(levels: seq<Level>)
    decreases |levels|
  {
    levels == [] || (!levels[0].config.Fails? && Clear(levels[1..]))
  }

  lemma {:induction false} Assoc3(a: seq<Path>, b: seq<Path>, c: seq<Path>)
    ensures a + (b + c) == a + b + c
  {
  }

  lemma {:induction false} ReplayConcat(a: seq<Event>, b: seq<Event>, open: seq<Path>)
    requires Replay(a, open).Some?
    ensures Replay(a + b, open) ==
            match Replay(b, Replay(a, open).value.open)
            case None => None
            case Some(r) => Some(Replayed(Replay(a, open).value.runs + r.runs, r.open))
    decreases |a|
  {
    if a == [] {
      assert a + b == b;
      assert Replay(b, open).Some? ==> [] + Replay(b, open).value.runs == Replay(b, open).value.runs;
    } else {
      assert (a + b)[1..] == a[1..] + b;
      match a[0]
      case Source(d) => ReplayConcat(a[1..], b, open + [d]);
      case Refuse(_) => ReplayConcat(a[1..], b, open);
      case Run(d, n) =>
        ReplayConcat(a[1..], b, open);
        var first := Replay(a[1..], open).value;
        var second := Replay(b, first.open);
        assert second.Some? ==> [Ran(d, n, open)] + (first.runs + second.value.runs) == [Ran(d, n, open)] + first.runs + second.value.runs;
      case Cleanup(d) => ReplayConcat(a[1..], b, open[..|open| - 1]);
    }
  }

  lemma {:induction false} SourceThen(d: Path, rest: seq<Event>, open: seq<Path>)
    ensures Replay([Source(d)] + rest, open) == Replay(rest, open + [d])
  {
    assert ([Source(d)] + rest)[1..] == rest;
  }

  lemma {:induction false} CleanupLast(d: Path, open: seq<Path>)
    ensures Replay([Cleanup(d)], open + [d]) == Some(Replayed([], open))
  {
    assert (open + [d])[..|open + [d]| - 1] == open;
  }

  lemma {:induction false} ReplayLeave(dir: Path, from: seq<Level>, open: seq<Path>)
    ensures Replay(Leave(dir, from), open + InForce(dir, from)) == Some(Replayed([], open))
    decreases |from|
  {
    assert open + [] == open;
    if from != [] && !from[0].config.Fails? {
      var d, inner := dir + [from[0].name], from[1..];
      if from[0].config.Passes? {
        Assoc3(open, [d], InForce(d, inner));
        ReplayLeave(d, inner, open + [d]);
        ReplayConcat(Leave(d, inner), [Cleanup(d)], open + [d] + InForce(d, inner));
        CleanupLast(d, open);
        var none: seq<Ran> := [];
        assert none + none == none;
      } else {
        ReplayLeave(d, inner, open);
      }
    }
  }

  /** What a recipe adds to the runs when the walk stands in the given directories. */
  function RunAt(dir: Path, levels: seq<Level>, p: Recipe, open: seq<Path>): seq<Ran> {
    if Clear(levels) then [Ran(dir + p.dirs, p.name, open + InForce(dir, levels))] else []
  }

  lemma {:induction false} RunAtInside(dir: Path, l: Level, levels: seq<Level>, p: Recipe, open: seq<Path>)
    requires p.dirs != [] && l.name == p.dirs[0] && !l.config.Fails?
    ensures var d := dir + [l.name]; var own := if l.config.Passes? then [d] else [];
            && RunAt(dir, [l] + levels, p, open) == RunAt(d, levels, Inside(p), open + own)
            && InForce(dir, [l] + levels) == own + InForce(d, levels)
            && open + InForce(dir, [l] + levels) == open + own + InForce(d, levels)
  {
    var d := dir + [l.name];
    var own := if l.config.Passes? then [d] else [];
    assert ([l] + levels)[1..] == levels;
    assert dir + p.dirs == d + p.dirs[1..];
    assert [] + InForce(d, levels) == InForce(d, levels);
    Assoc3(open, own, InForce(d, levels));
  }

  lemma {:induction false} ReplayArrive(c: Configs, dir: Path, at: nat, p: Recipe, open: seq<Path>)
    ensures var levels := Arrived(c, dir, at, p);
            Replay(Arrive(c, dir, at, p), open) ==
            Some(Replayed(RunAt(dir, levels, p, open), open + InForce(dir, levels)))
    decreases |p.dirs|
  {
    assert open + [] == open && dir + [] == dir;
    if p.dirs != [] {
      var d := dir + [p.dirs[0]];
      var l := Level(p.dirs[0], c(d, at));
      match l.config
      case Fails =>
      case Passes =>
        RunAtInside(dir, l, Arrived(c, d, at, Inside(p)), p, open);
        ReplayArrive(c, d, at, Inside(p), open + [d]);
        SourceThen(d, Arrive(c, d, at, Inside(p)), open);
      case Absent =>
        RunAtInside(dir, l, Arrived(c, d, at, Inside(p)), p, open);
        ReplayArrive(c, d, at, Inside(p), open);
    } else {
      assert dir + p.dirs == dir && [Run(dir, p.name)][1..] == [];
      assert [Ran(dir, p.name, open)] + [] == [Ran(dir, p.name, open)];
    }
  }

  lemma {:induction false} ReplayStop(c: Configs, dir: Path, at: nat, from: seq<Level>, p: Recipe, open: seq<Path>)
    ensures var levels := Stopped(c, dir, at, from, p);
            Replay(Stop(c, dir, at, from, p), open + InForce(dir, from)) ==
            Some(Replayed(RunAt(dir, levels, p, open), open + InForce(dir, levels)))
    decreases |from|
  {
    if !Shared(from, p) {
      ReplayLeave(dir, from, open);
      ReplayArrive(c, dir, at, p, open);
      ReplayConcat(Leave(dir, from), Arrive(c, dir, at, p), open + InForce(dir, from));
      var runs := RunAt(dir, Arrived(c, dir, at, p), p, open);
      assert [] + runs == runs;
    } else if !from[0].config.Fails? {
      var l, d := from[0], dir + [p.dirs[0]];
      var own := if l.config.Passes? then [d] else [];
      assert from == [l] + from[1..];
      RunAtInside(dir, l, from[1..], p, open);
      RunAtInside(dir, l, Stopped(c, d, at, from[1..], Inside(p)), p, open);
      ReplayStop(c, d, at, from[1..], Inside(p), open + own);
    }
  }

  /** The runs of the flat walk. */
  function FlatRuns(c: Configs, dir: Path, at: nat, from: seq<Level>, elms: seq<Recipe>, open: seq<Path>): seq<Ran>
    decreases |elms|
  {
    if elms == [] then []
    else
      var next := Stopped(c, dir, at, from, elms[0]);
      RunAt(dir, next, elms[0], open) + FlatRuns(c, dir, at + 1, next, elms[1..], open)
  }

  lemma {:induction false} ReplayFlat(c: Configs, dir: Path, at: nat, from: seq<Level>, elms: seq<Recipe>, open: seq<Path>)
    ensures Replay(Flat(c, dir, at, from, elms), open + InForce(dir, from)) ==
            Some(Replayed(FlatRuns(c, dir, at, from, elms, open), open))
    decreases |elms|
  {
    if elms == [] {
      ReplayLeave(dir, from, open);
    } else {
      var next := Stopped(c, dir, at, from, elms[0]);
      ReplayStop(c, dir, at, from, elms[0], open);
      ReplayFlat(c, dir, at + 1, next, elms[1..], open);
      ReplayConcat(Stop(c, dir, at, from, elms[0]), Flat(c, dir, at + 1, next, elms[1..]), open + InForce(dir, from));
    }
  }

  // ---------- the runs of the flat walk are those that are due ----------

  /** The directories of recipe i from depth l on, up to one whose config had failed. */
  function Levels(c: Configs, dir: Path, at: nat, elms: seq<Recipe>, i: nat, l: nat): seq<Level>
    requires i < |elms|
    decreases |elms[i].dirs| - l
  {
    if l >= |elms[i].dirs| then []
    else
      var config := Outcome(c, dir, at, elms, i, l + 1);
      [Level(elms[i].dirs[l], config)] + if config.Fails? then [] else Levels(c, dir, at, elms, i, l + 1)
  }

  function From(p: Recipe, l: nat): Recipe
    requires l <= |p.dirs|
  {
    p.(dirs := p.dirs[l..])
  }

  lemma {:induction false} FromInside(p: Recipe, l: nat)
    requires l < |p.dirs|
    ensures From(p, l).dirs != [] && From(p, l).dirs[0] == p.dirs[l] && Inside(From(p, l)) == From(p, l + 1)
    ensures p.dirs[..l + 1] == p.dirs[..l] + [p.dirs[l]]
  {
  }

  lemma {:induction false} StaysShorter(elms: seq<Recipe>, i: nat, l: nat, m: nat)
    requires i < |elms| && l <= m && Stays(elms, i, m)
    ensures Stays(elms, i, l)
  {
    var a, b := elms[i - 1].dirs, elms[i].dirs;
    assert a[..l] == a[..m][..l] && b[..l] == b[..m][..l];
  }

  /** Directories that recipe i does not share with the one before it are entered at recipe i. */
  lemma {:induction false} ArrivedLevels(c: Configs, dir: Path, at: nat, elms: seq<Recipe>, i: nat, l: nat)
    requires i < |elms| && l <= |elms[i].dirs| && !Stays(elms, i, l + 1)
    ensures Arrived(c, dir + elms[i].dirs[..l], at + i, From(elms[i], l)) == Levels(c, dir, at, elms, i, l)
    decreases |elms[i].dirs| - l
  {
    var p := elms[i];
    if l < |p.dirs| {
      FromInside(p, l);
      assert dir + p.dirs[..l + 1] == dir + p.dirs[..l] + [p.dirs[l]];
      if Stays(elms, i, l + 2) {
        StaysShorter(elms, i, l + 1, l + 2);
      }
      ArrivedLevels(c, dir, at, elms, i, l + 1);
    }
  }

  lemma {:induction false} LevelShared(c: Configs, dir: Path, at: nat, elms: seq<Recipe>, i: nat, l: nat)
    requires 0 < i < |elms| && Stays(elms, i, l + 1)
    ensures Outcome(c, dir, at, elms, i, l + 1) == Outcome(c, dir, at, elms, i - 1, l + 1)
    ensures elms[i].dirs[l] == elms[i - 1].dirs[l]
  {
    assert elms[i].dirs[..l + 1][l] == elms[i - 1].dirs[..l + 1][l];
  }

  lemma {:induction false} SharedIff(c: Configs, dir: Path, at: nat, elms: seq<Recipe>, i: nat, l: nat)
    requires 0 < i < |elms| && Stays(elms, i, l)
    ensures Shared(Levels(c, dir, at, elms, i - 1, l), From(elms[i], l)) <==> Stays(elms, i, l + 1)
  {
    var a, b := elms[i - 1].dirs, elms[i].dirs;
    if l < |a| && l < |b| {
      assert a[..l + 1] == a[..l] + [a[l]] && b[..l + 1] == b[..l] + [b[l]];
      assert a[..l + 1] == b[..l + 1] ==> a[..l + 1][l] == b[..l + 1][l];
    }
  }

  lemma {:induction false} StoppedLevels(c: Configs, dir: Path, at: nat, elms: seq<Recipe>, i: nat, l: nat)
    requires 0 < i < |elms| && Stays(elms, i, l)
    ensures Stopped(c, dir + elms[i].dirs[..l], at + i, Levels(c, dir, at, elms, i - 1, l), From(elms[i], l)) ==
            Levels(c, dir, at, elms, i, l)
    decreases |elms[i].dirs| - l
  {
    SharedIff(c, dir, at, elms, i, l);
    if !Stays(elms, i, l + 1) {
      ArrivedLevels(c, dir, at, elms, i, l);
    } else {
      var before := Levels(c, dir, at, elms, i - 1, l);
      LevelShared(c, dir, at, elms, i, l);
      FromInside(elms[i], l);
      assert dir + elms[i].dirs[..l + 1] == dir + elms[i].dirs[..l] + [elms[i].dirs[l]];
      if !before[0].config.Fails? {
        assert before[1..] == Levels(c, dir, at, elms, i - 1, l + 1);
        StoppedLevels(c, dir, at, elms, i, l + 1);
      }
    }
  }

  /** Where the walk stands after the first i recipes. */
  function Standing(c: Configs, dir: Path, at: nat, elms: seq<Recipe>, i: nat): seq<Level>
    requires i <= |elms|
  {
    if i == 0 then [] else Levels(c, dir, at, elms, i - 1, 0)
  }

  lemma {:induction false} NextStanding(c: Configs, dir: Path, at: nat, elms: seq<Recipe>, i: nat)
    requires i < |elms|
    ensures Stopped(c, dir, at + i, Standing(c, dir, at, elms, i), elms[i]) == Levels(c, dir, at, elms, i, 0)
  {
    var p := elms[i];
    assert dir + p.dirs[..0] == dir && From(p, 0) == p;
    if i == 0 {
      ArrivedLevels(c, dir, at, elms, 0, 0);
    } else {
      StoppedLevels(c, dir, at, elms, i, 0);
    }
  }

  lemma {:induction false} LevelsClear(c: Configs, dir: Path, at: nat, elms: seq<Recipe>, i: nat, l: nat)
    requires i < |elms| && l <= |elms[i].dirs|
    ensures Clear(Levels(c, dir, at, elms, i, l)) <==> Runs(c, dir, at, elms, i, l)
    ensures Runs(c, dir, at, elms, i, l) ==>
              InForce(dir + elms[i].dirs[..l], Levels(c, dir, at, elms, i, l)) == ConfigsOf(c, dir, at, elms, i, l)
    decreases |elms[i].dirs| - l
  {
    if l < |elms[i].dirs| {
      var levels, dirs := Levels(c, dir, at, elms, i, l), elms[i].dirs;
      assert dir + dirs[..l + 1] == dir + dirs[..l] + [dirs[l]];
      LevelsClear(c, dir, at, elms, i, l + 1);
      if !levels[0].config.Fails? {
        assert levels[1..] == Levels(c, dir, at, elms, i, l + 1);
      }
    }
  }

  lemma {:induction false} RunIsDue(c: Configs, dir: Path, at: nat, elms: seq<Recipe>, i: nat, open: seq<Path>)
    requires i < |elms|
    ensures RunAt(dir, Levels(c, dir, at, elms, i, 0), elms[i], open) ==
            if Runs(c, dir, at, elms, i, 0)
            then [Ran(dir + elms[i].dirs, elms[i].name, open + ConfigsOf(c, dir, at, elms, i, 0))] else []
  {
    LevelsClear(c, dir, at, elms, i, 0);
    assert dir + elms[i].dirs[..0] == dir;
  }

  lemma {:induction false} FlatRunsStep(c: Configs, dir: Path, at: nat, elms: seq<Recipe>, i: nat, open: seq<Path>)
    requires i < |elms|
    ensures FlatRuns(c, dir, at + i, Standing(c, dir, at, elms, i), elms[i..], open) ==
            RunAt(dir, Standing(c, dir, at, elms, i + 1), elms[i], open)
            + FlatRuns(c, dir, at + i + 1, Standing(c, dir, at, elms, i + 1), elms[i + 1..], open)
  {
    assert elms[i..][0] == elms[i] && elms[i..][1..] == elms[i + 1..];
    NextStanding(c, dir, at, elms, i);
  }

  /** From recipe i on, the flat walk runs what is due. */
  ghost predicate SameRuns(c: Configs, dir: Path, at: nat, elms: seq<Recipe>, i: nat, open: seq<Path>)
    requires i <= |elms|
  {
    FlatRuns(c, dir, at + i, Standing(c, dir, at, elms, i), elms[i..], open) == Due(c, dir, at, elms, i, open)
  }

  lemma {:induction false} DueStep(c: Configs, dir: Path, at: nat, elms: seq<Recipe>, i: nat, open: seq<Path>)
    requires i < |elms|
    ensures Due(c, dir, at, elms, i, open) ==
            RunAt(dir, Standing(c, dir, at, elms, i + 1), elms[i], open) + Due(c, dir, at, elms, i + 1, open)
  {
    RunIsDue(c, dir, at, elms, i, open);
  }

  lemma {:induction false} SameRunsStep(c: Configs, dir: Path, at: nat, elms: seq<Recipe>, i: nat, open: seq<Path>)
    requires i < |elms| && SameRuns(c, dir, at, elms, i + 1, open)
    ensures SameRuns(c, dir, at, elms, i, open)
  {
    assert at + i + 1 == at + (i + 1);
    FlatRunsStep(c, dir, at, elms, i, open);
    DueStep(c, dir, at, elms, i, open);
  }

  lemma {:induction false} SameRunsEnd(c: Configs, dir: Path, at: nat, elms: seq<Recipe>, open: seq<Path>)
    ensures SameRuns(c, dir, at, elms, |elms|, open)
  {
    assert elms[|elms|..] == [];
  }

  lemma {:induction false} RunsAreDue(c: Configs, dir: Path, at: nat, elms: seq<Recipe>, i: nat, open: seq<Path>)
    requires i <= |elms|
    ensures SameRuns(c, dir, at, elms, i, open)
    decreases |elms| - i
  {
    if i == |elms| {
      SameRunsEnd(c, dir, at, elms, open);
    } else {
      RunsAreDue(c, dir, at, elms, i + 1, open);
      SameRunsStep(c, dir, at, elms, i, open);
    }
  }

  /** The loop of a directory runs exactly the recipes that are due, in list order, each under exactly its
      ancestors' configs. */
  lemma {:induction false} BodyRunsAllowed(c: Configs, dir: Path, at: nat, elms: seq<Recipe>, open: seq<Path>)
    ensures Replay(Body(c, dir, at, elms), open) == Some(Replayed(Due(c, dir, at, elms, 0, open), open))
  {
    TreeIsFlatWalk(c, dir, at, elms);
    assert open + [] == open && elms[0..] == elms;
    ReplayFlat(c, dir, at, [], elms, open);
    RunsAreDue(c, dir, at, elms, 0, open);
  }

  /** run_recipes runs exactly the recipes of its list that have no failed config above them, in list
      order, each under exactly the configs of its ancestors from outer to inner, as these turned out when
      the walk last entered them; every config that was sourced is cleaned up, innermost first. */
  lemma {:induction false} VisitRunsAllowed(c: Configs, dir: Path, at: nat, elms: seq<Recipe>, open: seq<Path>)
    ensures var inside := open + if c(dir, at).Passes? then [dir] else [];
            Replay(Visit(c, dir, at, elms), open) ==
            Some(Replayed(if c(dir, at).Fails? then [] else Due(c, dir, at, elms, 0, inside), open))
  {
    assert open + [] == open;
    BodyRunsAllowed(c, dir, at, elms, open);
    if c(dir, at).Passes? {
      var body, due := Body(c, dir, at, elms), Due(c, dir, at, elms, 0, open + [dir]);
      BodyRunsAllowed(c, dir, at, elms, open + [dir]);
      ReplayConcat(body, [Cleanup(dir)], open + [dir]);
      CleanupLast(dir, open);
      SourceThen(dir, body + [Cleanup(dir)], open);
      assert [Source(dir)] + body + [Cleanup(dir)] == [Source(dir)] + (body + [Cleanup(dir)]);
      assert due + [] == due;
    }
  }
}
