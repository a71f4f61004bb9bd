/** run_recipes: the recipe list is walked as a tree of directory subshells, one per maximal run of
    consecutive recipes below the same directory, each with its config and clean-up. */
module RecipeTree {
  import opened Wrappers

  type Name = string

  type Path = seq<Name>

  /** A recipe, relative to the directory it is looked up in. */
  datatype Recipe = Recipe(dirs: Path, name: Name)

  function Inside(p: Recipe): Recipe {
    if p.dirs == [] then p else p.(dirs := p.dirs[1..])
  }

  function Under(n: Name, p: Recipe): Recipe {
    p.(dirs := [n] + p.dirs)
  }

  /** Whether a directory has a config file, and whether sourcing it succeeds. */
  datatype Config = Absent | Passes | Fails

  /** What happens at a visit of a directory, told by how many recipes of the whole list come before it. */
  type Configs = (Path, nat) -> Config

  datatype Event = Source(dir: Path) | Refuse(dir: Path) | Run(dir: Path, name: Name) | Cleanup(dir: Path)

  function Size(elms: seq<Recipe>): nat {
    if elms == [] then 0 else |elms[0].dirs| + 1 + Size(elms[1..])
  }

  /** The list starts with a recipe below directory n. */
  predicate Starts(elms: seq<Recipe>, n: Name) {
    elms != [] && elms[0].dirs != [] && elms[0].dirs[0] == n
  }

  /** The recipes below n at the front of the list, seen from there. */
  function Group(elms: seq<Recipe>, n: Name): (g: seq<Recipe>)
    ensures Starts(elms, n) ==> g != []
  {
    if Starts(elms, n) then [Inside(elms[0])] + Group(elms[1..], n) else []
  }

  /** What follows them. */
  function Rest(elms: seq<Recipe>, n: Name): (r: seq<Recipe>)
    ensures Size(Group(elms, n)) + |Group(elms, n)| + Size(r) == Size(elms)
    ensures |Group(elms, n)| + |r| == |elms| && !Starts(r, n)
  {
    if Starts(elms, n) then Rest(elms[1..], n) else elms
  }

  /** The events of one call of run_recipes. */
  function Visit(c: Configs, dir: Path, at: nat, elms: seq<Recipe>): seq<Event>
    decreases Size(elms), |elms|, 1
  {
    match c(dir, at)
    case Fails => [Refuse(dir)]
    case Passes => [Source(dir)] + Body(c, dir, at, elms) + [Cleanup(dir)]
    case Absent => Body(c, dir, at, elms)
  }

  /** The events of its loop: a file is run, a group of files below a directory is one nested call. */
  function Body(c: Configs, dir: Path, at: nat, elms: seq<Recipe>): seq<Event>
    decreases Size(elms), |elms|, 0
  {
    if elms == [] then []
    else if elms[0].dirs == [] then [Run(dir, elms[0].name)] + Body(c, dir, at + 1, elms[1..])
    else
      var n := elms[0].dirs[0];
      var g, rest := Group(elms, n), Rest(elms, n);
      assert Starts(elms, n);
      Visit(c, dir + [n], at, g) + Body(c, dir, at + |g|, rest)
  }

  // ---------- the loop of the source ----------

  /** What is left to do when a group that starts at the given place is being collected and rest is still
      to be read. */
  ghost function Pending(c: Configs, dir: Path, n: Name, at: nat, line: seq<Recipe>, rest: seq<Recipe>): seq<Event> {
    Visit(c, dir + [n], at, line + Group(rest, n)) + Body(c, dir, at + |line| + |Group(rest, n)|, Rest(rest, n))
  }

  lemma {:induction false} PendingGrows(c: Configs, dir: Path, n: Name, at: nat, line: seq<Recipe>, rest: seq<Recipe>)
    requires Starts(rest, n)
    ensures Pending(c, dir, n, at, line, rest) == Pending(c, dir, n, at, line + [Inside(rest[0])], rest[1..])
  {
    assert line + Group(rest, n) == line + [Inside(rest[0])] + Group(rest[1..], n);
  }

  lemma {:induction false} PendingEnds(c: Configs, dir: Path, n: Name, at: nat, line: seq<Recipe>, rest: seq<Recipe>)
    requires !Starts(rest, n)
    ensures Pending(c, dir, n, at, line, rest) == Visit(c, dir + [n], at, line) + Body(c, dir, at + |line|, rest)
  {
    assert line + [] == line;
  }

  lemma {:induction false} PendingStarts(c: Configs, dir: Path, n: Name, at: nat, rest: seq<Recipe>)
    requires Starts(rest, n)
    ensures Body(c, dir, at, rest) == Pending(c, dir, n, at, [Inside(rest[0])], rest[1..])
  {
  }

  lemma {:induction false} SizeAppend(line: seq<Recipe>, p: Recipe)
    ensures Size(line + [p]) == Size(line) + |p.dirs| + 1
    decreases |line|
  {
    if line == [] {
      assert line + [p] == [p];
      assert [p][1..] == [];
    } else {
      assert (line + [p])[1..] == line[1..] + [p];
      SizeAppend(line[1..], p);
    }
  }

  /** What is left to do in the loop, when rest is the list from the given place on. */
  ghost function Todo(c: Configs, dir: Path, at: nat, keepdir: Option<Name>, line: seq<Recipe>, rest: seq<Recipe>): seq<Event>
    requires |line| <= at
  {
    match keepdir
    case None => Body(c, dir, at, rest)
    case Some(n) => Pending(c, dir, n, at - |line|, line, rest)
  }

  /** run_recipes as written: sourcing the config, the loop, the clean-up. */
  method RunRecipes(c: Configs, dir: Path, at: nat, elms: seq<Recipe>) returns (trace: seq<Event>)
    ensures trace == Visit(c, dir, at, elms)
    decreases Size(elms), 2
  {
    var config := c(dir, at);
    if config == Fails {
      return [Refuse(dir)];
    }
    var body := Walk(c, dir, at, elms);
    if config == Passes {
      trace := [Source(dir)] + body + [Cleanup(dir)];
    } else {
      trace := body;
    }
  }

  /** The end of a group, if one is being collected: the nested call in its own subshell. */
  method Flush(c: Configs, dir: Path, at: nat, keepdir: Option<Name>, line: seq<Recipe>, ghost rest: seq<Recipe>)
    returns (sub: seq<Event>)
    requires |line| <= at && (keepdir.Some? ==> !Starts(rest, keepdir.value))
    ensures sub + Body(c, dir, at, rest) == Todo(c, dir, at, keepdir, line, rest)
    decreases if keepdir.Some? then Size(line) else 0, if keepdir.Some? then 3 else 0
  {
    sub := [];
    if keepdir.Some? {
      PendingEnds(c, dir, keepdir.value, at - |line|, line, rest);
      sub := RunRecipes(c, dir + [keepdir.value], at - |line|, line);
    }
  }

  lemma {:induction false} Regroup(a: seq<Event>, b: seq<Event>, x: seq<Event>, y: seq<Event>)
    ensures a + b + x + y == a + (b + (x + y))
  {
  }

  lemma {:induction false} WalkFile(c: Configs, dir: Path, at: nat, elms: seq<Recipe>, i: nat)
    requires i < |elms| && elms[i].dirs == []
    ensures Body(c, dir, at, elms[i..]) == [Run(dir, elms[i].name)] + Body(c, dir, at + 1, elms[i + 1..])
  {
    assert elms[i..][1..] == elms[i + 1..];
  }

  lemma {:induction false} WalkNew(c: Configs, dir: Path, at: nat, rest: seq<Recipe>, trace: seq<Event>, sub: seq<Event>)
    requires rest != [] && rest[0].dirs != []
    ensures trace + (sub + Body(c, dir, at, rest)) ==
            trace + sub + Pending(c, dir, rest[0].dirs[0], at, [Inside(rest[0])], rest[1..])
  {
    PendingStarts(c, dir, rest[0].dirs[0], at, rest);
    var x := Body(c, dir, at, rest);
    assert trace + (sub + x) == trace + sub + x;
  }

  /** What the loop of the source keeps between two recipes: done and still to do make up the goal. */
  ghost predicate Walking(c: Configs, dir: Path, at: nat, elms: seq<Recipe>, i: nat,
                          keepdir: Option<Name>, line: seq<Recipe>, trace: seq<Event>, goal: seq<Event>)
  {
    && i <= |elms| && |line| <= i
    && (if keepdir.None? then line == [] else Size(line) + Size(elms[i..]) < Size(elms))
    && Size(elms[i..]) <= Size(elms)
    && trace + Todo(c, dir, at + i, keepdir, line, elms[i..]) == goal
  }

  /** The loop: keepdir and linerecipe collect a group until a recipe outside it ends it. */
  method Walk(c: Configs, dir: Path, at: nat, elms: seq<Recipe>) returns (trace: seq<Event>)
    ensures trace == Body(c, dir, at, elms)
    decreases Size(elms), 1
  {
    trace := [];
    var keepdir: Option<Name> := None;
    var line: seq<Recipe> := [];
    var i := 0;
    ghost var goal := Body(c, dir, at, elms);
    assert elms[0..] == elms;
    while i < |elms|
      invariant Walking(c, dir, at, elms, i, keepdir, line, trace, goal)
    {
      keepdir, line, trace := Turn(c, dir, at, elms, i, keepdir, line, trace, goal);
      i := i + 1;
    }
    assert elms[i..] == [];
    assert Size(elms[i..]) == 0;
    var sub := Flush(c, dir, at + i, keepdir, line, []);
    assert sub + [] == sub;
    trace := trace + sub;
  }

  lemma {:induction false} RestOf(elms: seq<Recipe>, i: nat)
    requires i < |elms|
    ensures elms[i..] != [] && elms[i..][0] == elms[i] && elms[i..][1..] == elms[i + 1..]
    ensures Size(elms[i..]) == |elms[i].dirs| + 1 + Size(elms[i + 1..])
  {
  }

  lemma {:induction false} AfterFile(c: Configs, dir: Path, at: nat, elms: seq<Recipe>, i: nat,
                                     trace: seq<Event>, sub: seq<Event>, goal: seq<Event>)
    requires i < |elms| && elms[i].dirs == [] && Size(elms[i..]) <= Size(elms)
    requires trace + (sub + Body(c, dir, at + i, elms[i..])) == goal
    ensures Walking(c, dir, at, elms, i + 1, None, [], trace + sub + [Run(dir, elms[i].name)], goal)
  {
    var run, rest := [Run(dir, elms[i].name)], Body(c, dir, at + i + 1, elms[i + 1..]);
    RestOf(elms, i);
    WalkFile(c, dir, at + i, elms, i);
    Regroup(trace, sub, run, rest);
  }

  lemma {:induction false} AfterNew(c: Configs, dir: Path, at: nat, elms: seq<Recipe>, i: nat,
                                    trace: seq<Event>, sub: seq<Event>, goal: seq<Event>)
    requires i < |elms| && elms[i].dirs != [] && Size(elms[i..]) <= Size(elms)
    requires trace + (sub + Body(c, dir, at + i, elms[i..])) == goal
    ensures Walking(c, dir, at, elms, i + 1, Some(elms[i].dirs[0]), [Inside(elms[i])], trace + sub, goal)
  {
    RestOf(elms, i);
    WalkNew(c, dir, at + i, elms[i..], trace, sub);
    SizeAppend([], Inside(elms[i]));
    assert [] + [Inside(elms[i])] == [Inside(elms[i])];
  }

  lemma {:induction false} AfterSame(c: Configs, dir: Path, at: nat, elms: seq<Recipe>, i: nat, line: seq<Recipe>, trace: seq<Event>,
                                     goal: seq<Event>)
    requires i < |elms| && elms[i].dirs != []
    requires Walking(c, dir, at, elms, i, Some(elms[i].dirs[0]), line, trace, goal)
    ensures Walking(c, dir, at, elms, i + 1, Some(elms[i].dirs[0]), line + [Inside(elms[i])], trace, goal)
  {
    RestOf(elms, i);
    PendingGrows(c, dir, elms[i].dirs[0], at + i - |line|, line, elms[i..]);
    SizeAppend(line, Inside(elms[i]));
  }

  /** One turn of the loop. */
  method Turn(c: Configs, dir: Path, at: nat, elms: seq<Recipe>, i: nat,
              keepdir: Option<Name>, line: seq<Recipe>, trace: seq<Event>, ghost goal: seq<Event>)
    returns (keepdir': Option<Name>, line': seq<Recipe>, trace': seq<Event>)
    requires i < |elms| && Walking(c, dir, at, elms, i, keepdir, line, trace, goal)
    ensures Walking(c, dir, at, elms, i + 1, keepdir', line', trace', goal)
    decreases Size(elms), 0
  {
    var elm := elms[i];
    RestOf(elms, i);
    if elm.dirs == [] {
      var sub := Flush(c, dir, at + i, keepdir, line, elms[i..]);
      AfterFile(c, dir, at, elms, i, trace, sub, goal);
      return None, [], trace + sub + [Run(dir, elm.name)];
    } else if keepdir != Some(elm.dirs[0]) {
      var sub := Flush(c, dir, at + i, keepdir, line, elms[i..]);
      AfterNew(c, dir, at, elms, i, trace, sub, goal);
      return Some(elm.dirs[0]), [Inside(elm)], trace + sub;
    } else {
      AfterSame(c, dir, at, elms, i, line, trace, goal);
      return keepdir, line + [Inside(elm)], trace;
    }
  }

  // ---------- the same walk, seen recipe by recipe ----------

  /** A directory the walk is in, with what its config did when it was entered. */
  datatype Level = Level(name: Name, config: Config)

  /** From dir down to a recipe and running it, unless a config on the way fails. */
  function Arrive(c: Configs, dir: Path, at: nat, p: Recipe): seq<Event>
    decreases |p.dirs|
  {
    if p.dirs == [] then [Run(dir, p.name)]
    else
      var d := dir + [p.dirs[0]];
      match c(d, at)
      case Fails => [Refuse(d)]
      case Passes => [Source(d)] + Arrive(c, d, at, Inside(p))
      case Absent => Arrive(c, d, at, Inside(p))
  }

  function Arrived(c: Configs, dir: Path, at: nat, p: Recipe): seq<Level>
    decreases |p.dirs|
  {
    if p.dirs == [] then []
    else
      var d := dir + [p.dirs[0]];
      [Level(p.dirs[0], c(d, at))] + if c(d, at).Fails? then [] else Arrived(c, d, at, Inside(p))
  }

  /** Leaving directories again, innermost first. */
  function Leave(dir: Path, from: seq<Level>): seq<Event>
    decreases |from|
  {
    if from == [] then []
    else
      var d := dir + [from[0].name];
      match from[0].config
      case Fails => []
      case Passes => Leave(d, from[1..]) + [Cleanup(d)]
      case Absent => Leave(d, from[1..])
  }

  predicate Shared(from: seq<Level>, p: Recipe) {
    from != [] && p.dirs != [] && from[0].name == p.dirs[0]
  }

  /** The next recipe of the pass: the directories it shares with the one before stay as they are. */
  function Stop(c: Configs, dir: Path, at: nat, from: seq<Level>, p: Recipe): seq<Event>
    decreases |from|
  {
    if !Shared(from, p) then Leave(dir, from) + Arrive(c, dir, at, p)
    else if from[0].config.Fails? then []
    else Stop(c, dir + [p.dirs[0]], at, from[1..], Inside(p))
  }

  function Stopped(c: Configs, dir: Path, at: nat, from: seq<Level>, p: Recipe): seq<Level>
    decreases |from|
  {
    if !Shared(from, p) then Arrived(c, dir, at, p)
    else [from[0]] + if from[0].config.Fails? then [] else Stopped(c, dir + [p.dirs[0]], at, from[1..], Inside(p))
  }

  /** The recipe list as one pass, leaving everything at the end. */
  function Flat(c: Configs, dir: Path, at: nat, from: seq<Level>, elms: seq<Recipe>): seq<Event>
    decreases |elms|
  {
    if elms == [] then Leave(dir, from)
    else Stop(c, dir, at, from, elms[0]) + Flat(c, dir, at + 1, Stopped(c, dir, at, from, elms[0]), elms[1..])
  }

  function Below(n: Name, g: seq<Recipe>): seq<Recipe> {
    if g == [] then [] else [Under(n, g[0])] + Below(n, g[1..])
  }

  /** The rest of a group of recipes below a directory, and leaving it. */
  ghost function GroupEnd(c: Configs, dir: Path, at: nat, l: Level, from: seq<Level>, g: seq<Recipe>): seq<Event>
  {
    var d := dir + [l.name];
    match l.config
    case Fails => []
    case Passes => Flat(c, d, at, from, g) + [Cleanup(d)]
    case Absent => Flat(c, d, at, from, g)
  }

  lemma {:induction false} GroupAndRest(elms: seq<Recipe>, n: Name)
    ensures elms == Below(n, Group(elms, n)) + Rest(elms, n)
  {
    if Starts(elms, n) {
      var p := elms[0];
      GroupAndRest(elms[1..], n);
      assert [n] + p.dirs[1..] == p.dirs;
      assert Under(n, Inside(p)) == p;
      BelowHead(n, Group(elms, n), Rest(elms, n));
      assert elms == [p] + elms[1..];
    }
  }

  lemma {:induction false} Assoc(a: seq<Event>, b: seq<Event>, x: seq<Event>)
    ensures a + b + x == a + (b + x)
  {
  }

  /** A recipe outside the group ends it. */
  lemma {:induction false} StopOutside(c: Configs, dir: Path, at: nat, from: seq<Level>, p: Recipe)
    requires !Shared(from, p)
    ensures Stop(c, dir, at, from, p) == Leave(dir, from) + Stop(c, dir, at, [], p)
    ensures Stopped(c, dir, at, from, p) == Stopped(c, dir, at, [], p)
  {
    assert Leave(dir, []) + Arrive(c, dir, at, p) == Arrive(c, dir, at, p);
  }

  lemma {:induction false} GroupLeft(c: Configs, dir: Path, at: nat, l: Level, from: seq<Level>, rest: seq<Recipe>)
    requires !Starts(rest, l.name)
    ensures Flat(c, dir, at, [l] + from, rest) == Leave(dir, [l] + from) + Flat(c, dir, at, [], rest)
  {
    if rest != [] {
      var next := Stopped(c, dir, at, [], rest[0]);
      StopOutside(c, dir, at, [l] + from, rest[0]);
      Assoc(Leave(dir, [l] + from), Stop(c, dir, at, [], rest[0]), Flat(c, dir, at + 1, next, rest[1..]));
    }
  }

  lemma {:induction false} LeaveIsGroupEnd(c: Configs, dir: Path, at: nat, l: Level, from: seq<Level>)
    ensures Leave(dir, [l] + from) == GroupEnd(c, dir, at, l, from, [])
  {
    assert ([l] + from)[1..] == from;
  }

  /** The levels below l after a recipe of the group, and its events. */
  function Inner(c: Configs, dir: Path, at: nat, l: Level, from: seq<Level>, p: Recipe): seq<Level>
  {
    if l.config.Fails? then [] else Stopped(c, dir + [l.name], at, from, p)
  }

  function InsideStop(c: Configs, dir: Path, at: nat, l: Level, from: seq<Level>, p: Recipe): seq<Event>
  {
    if l.config.Fails? then [] else Stop(c, dir + [l.name], at, from, p)
  }

  /** A recipe of the group, from above and from inside. */
  lemma {:induction false} StopInside(c: Configs, dir: Path, at: nat, l: Level, from: seq<Level>, p: Recipe)
    ensures Stopped(c, dir, at, [l] + from, Under(l.name, p)) == [l] + Inner(c, dir, at, l, from, p)
    ensures Stop(c, dir, at, [l] + from, Under(l.name, p)) == InsideStop(c, dir, at, l, from, p)
  {
    assert Inside(Under(l.name, p)) == p && ([l] + from)[1..] == from;
  }

  /** The first recipe of a group, reached from outside it. */
  lemma {:induction false} StopEnters(c: Configs, dir: Path, at: nat, n: Name, p: Recipe)
    ensures Stopped(c, dir, at, [], Under(n, p)) ==
            [Level(n, c(dir + [n], at))] + Inner(c, dir, at, Level(n, c(dir + [n], at)), [], p)
    ensures Stop(c, dir, at, [], Under(n, p)) ==
            match c(dir + [n], at)
            case Fails => [Refuse(dir + [n])]
            case Passes => [Source(dir + [n])] + Stop(c, dir + [n], at, [], p)
            case Absent => Stop(c, dir + [n], at, [], p)
  {
    assert Inside(Under(n, p)) == p;
    StopAlone(c, dir, at, Under(n, p));
    StopAlone(c, dir + [n], at, p);
  }

  lemma {:induction false} StopAlone(c: Configs, dir: Path, at: nat, p: Recipe)
    ensures Stop(c, dir, at, [], p) == Arrive(c, dir, at, p) && Stopped(c, dir, at, [], p) == Arrived(c, dir, at, p)
  {
    assert Leave(dir, []) + Arrive(c, dir, at, p) == Arrive(c, dir, at, p);
  }

  lemma {:induction false} GroupGrows(c: Configs, dir: Path, at: nat, l: Level, from: seq<Level>, g: seq<Recipe>)
    requires g != []
    ensures GroupEnd(c, dir, at, l, from, g) ==
            InsideStop(c, dir, at, l, from, g[0])
            + GroupEnd(c, dir, at + 1, l, Inner(c, dir, at, l, from, g[0]), g[1..])
  {
    var d, next := dir + [l.name], Inner(c, dir, at, l, from, g[0]);
    if l.config.Passes? {
      Assoc(Stop(c, d, at, from, g[0]), Flat(c, d, at + 1, next, g[1..]), [Cleanup(d)]);
    }
  }

  lemma {:induction false} BelowHead(n: Name, g: seq<Recipe>, rest: seq<Recipe>)
    requires g != []
    ensures Below(n, g) + rest == [Under(n, g[0])] + (Below(n, g[1..]) + rest)
  {
  }

  lemma {:induction false} FlatHead(c: Configs, dir: Path, at: nat, from: seq<Level>, p: Recipe, rest: seq<Recipe>)
    ensures Flat(c, dir, at, from, [p] + rest) ==
            Stop(c, dir, at, from, p) + Flat(c, dir, at + 1, Stopped(c, dir, at, from, p), rest)
  {
    assert ([p] + rest)[1..] == rest;
  }

  lemma {:induction false} FlatStep(c: Configs, dir: Path, at: nat, l: Level, from: seq<Level>, g: seq<Recipe>, rest: seq<Recipe>)
    requires g != []
    ensures Flat(c, dir, at, [l] + from, Below(l.name, g) + rest) ==
            InsideStop(c, dir, at, l, from, g[0])
            + Flat(c, dir, at + 1, [l] + Inner(c, dir, at, l, from, g[0]), Below(l.name, g[1..]) + rest)
  {
    BelowHead(l.name, g, rest);
    FlatHead(c, dir, at, [l] + from, Under(l.name, g[0]), Below(l.name, g[1..]) + rest);
    StopInside(c, dir, at, l, from, g[0]);
  }

  lemma {:induction false} Chain(x: seq<Event>, s: seq<Event>, f: seq<Event>, g: seq<Event>, h: seq<Event>, r: seq<Event>)
    requires x == s + f && f == h + r && g == s + h
    ensures x == g + r
  {
    Assoc(s, h, r);
  }

  lemma {:induction false} FlatGroup(c: Configs, dir: Path, at: nat, l: Level, from: seq<Level>, g: seq<Recipe>, rest: seq<Recipe>)
    requires !Starts(rest, l.name)
    ensures Flat(c, dir, at, [l] + from, Below(l.name, g) + rest) ==
            GroupEnd(c, dir, at, l, from, g) + Flat(c, dir, at + |g|, [], rest)
    decreases |g|
  {
    if g == [] {
      assert Below(l.name, g) + rest == rest;
      GroupLeft(c, dir, at, l, from, rest);
      LeaveIsGroupEnd(c, dir, at, l, from);
    } else {
      var next, m := Inner(c, dir, at, l, from, g[0]), at + |g|;
      assert at + 1 + |g[1..]| == m;
      FlatStep(c, dir, at, l, from, g, rest);
      FlatGroup(c, dir, at + 1, l, next, g[1..], rest);
      GroupGrows(c, dir, at, l, from, g);
      Chain(Flat(c, dir, at, [l] + from, Below(l.name, g) + rest), InsideStop(c, dir, at, l, from, g[0]),
            Flat(c, dir, at + 1, [l] + next, Below(l.name, g[1..]) + rest), GroupEnd(c, dir, at, l, from, g),
            GroupEnd(c, dir, at + 1, l, next, g[1..]), Flat(c, dir, m, [], rest));
    }
  }

  lemma {:induction false} Bracket(d: Path, stop: seq<Event>, f: seq<Event>)
    ensures [Source(d)] + (stop + f) + [Cleanup(d)] == [Source(d)] + stop + (f + [Cleanup(d)])
  {
  }

  /** The first recipe of a group from outside, and the rest of the group. */
  ghost function GroupFrom(c: Configs, dir: Path, at: nat, n: Name, g: seq<Recipe>): seq<Event>
    requires g != []
  {
    var l := Level(n, c(dir + [n], at));
    Stop(c, dir, at, [], Under(n, g[0])) + GroupEnd(c, dir, at + 1, l, Inner(c, dir, at, l, [], g[0]), g[1..])
  }

  lemma {:induction false} VisitIsGroupFrom(c: Configs, dir: Path, at: nat, n: Name, g: seq<Recipe>)
    requires g != [] && Body(c, dir + [n], at, g) == Flat(c, dir + [n], at, [], g)
    ensures Visit(c, dir + [n], at, g) == GroupFrom(c, dir, at, n, g)
  {
    var d := dir + [n];
    StopEnters(c, dir, at, n, g[0]);
    match c(d, at)
    case Fails =>
    case Absent =>
    case Passes =>
      Bracket(d, Stop(c, d, at, [], g[0]), Flat(c, d, at + 1, Stopped(c, d, at, [], g[0]), g[1..]));
  }

  lemma {:induction false} FlatEnters(c: Configs, dir: Path, at: nat, n: Name, g: seq<Recipe>, rest: seq<Recipe>)
    requires g != []
    ensures var l := Level(n, c(dir + [n], at));
            Flat(c, dir, at, [], Below(n, g) + rest) ==
            Stop(c, dir, at, [], Under(n, g[0]))
            + Flat(c, dir, at + 1, [l] + Inner(c, dir, at, l, [], g[0]), Below(n, g[1..]) + rest)
  {
    BelowHead(n, g, rest);
    FlatHead(c, dir, at, [], Under(n, g[0]), Below(n, g[1..]) + rest);
    StopEnters(c, dir, at, n, g[0]);
  }

  lemma {:induction false} FlatVisit(c: Configs, dir: Path, at: nat, n: Name, g: seq<Recipe>, rest: seq<Recipe>)
    requires g != [] && !Starts(rest, n)
    ensures Flat(c, dir, at, [], Below(n, g) + rest) == GroupFrom(c, dir, at, n, g) + Flat(c, dir, at + |g|, [], rest)
  {
    var l := Level(n, c(dir + [n], at));
    var next, m := Inner(c, dir, at, l, [], g[0]), at + |g|;
    assert at + 1 + |g[1..]| == m;
    FlatEnters(c, dir, at, n, g, rest);
    FlatGroup(c, dir, at + 1, l, next, g[1..], rest);
    Chain(Flat(c, dir, at, [], Below(n, g) + rest), Stop(c, dir, at, [], Under(n, g[0])),
          Flat(c, dir, at + 1, [l] + next, Below(n, g[1..]) + rest), GroupFrom(c, dir, at, n, g),
          GroupEnd(c, dir, at + 1, l, next, g[1..]), Flat(c, dir, m, [], rest));
  }

  lemma {:induction false} FlatFile(c: Configs, dir: Path, at: nat, elms: seq<Recipe>)
    requires elms != [] && elms[0].dirs == []
    ensures Flat(c, dir, at, [], elms) == [Run(dir, elms[0].name)] + Flat(c, dir, at + 1, [], elms[1..])
  {
    StopAlone(c, dir, at, elms[0]);
  }

  lemma {:induction false} GroupSizes(elms: seq<Recipe>, n: Name)
    requires Starts(elms, n)
    ensures Size(Group(elms, n)) < Size(elms) && Size(Rest(elms, n)) <= Size(elms) && |Rest(elms, n)| < |elms|
  {
    assert |Group(elms, n)| + |Rest(elms, n)| == |elms|;
  }

  lemma {:induction false} BodyGroup(c: Configs, dir: Path, at: nat, elms: seq<Recipe>, n: Name)
    requires Starts(elms, n)
    ensures var g, rest := Group(elms, n), Rest(elms, n);
            Body(c, dir, at, elms) == Visit(c, dir + [n], at, g) + Body(c, dir, at + |g|, rest)
  {
  }

  lemma {:induction false} FlatFirstGroup(c: Configs, dir: Path, at: nat, elms: seq<Recipe>, n: Name)
    requires Starts(elms, n)
    ensures var g, rest := Group(elms, n), Rest(elms, n);
            Flat(c, dir, at, [], elms) == GroupFrom(c, dir, at, n, g) + Flat(c, dir, at + |g|, [], rest)
  {
    GroupAndRest(elms, n);
    FlatVisit(c, dir, at, n, Group(elms, n), Rest(elms, n));
  }

  lemma {:induction false} BodyFile(c: Configs, dir: Path, at: nat, elms: seq<Recipe>)
    requires elms != [] && elms[0].dirs == []
    ensures Body(c, dir, at, elms) == [Run(dir, elms[0].name)] + Body(c, dir, at + 1, elms[1..])
  {
  }

  lemma {:induction false} TreeFile(c: Configs, dir: Path, at: nat, elms: seq<Recipe>)
    requires elms != [] && elms[0].dirs == []
    ensures Body(c, dir, at, elms) == Flat(c, dir, at, [], elms)
    decreases Size(elms), |elms|, 0
  {
    TreeIsFlatWalk(c, dir, at + 1, elms[1..]);
    BodyFile(c, dir, at, elms);
    FlatFile(c, dir, at, elms);
  }

  ghost predicate SameWalk(c: Configs, dir: Path, at: nat, elms: seq<Recipe>) {
    Body(c, dir, at, elms) == Flat(c, dir, at, [], elms)
  }

  lemma {:induction false} TreeGroupStep(c: Configs, dir: Path, at: nat, elms: seq<Recipe>, n: Name)
    requires Starts(elms, n) && SameWalk(c, dir + [n], at, Group(elms, n))
    requires SameWalk(c, dir, at + |Group(elms, n)|, Rest(elms, n))
    ensures SameWalk(c, dir, at, elms)
  {
    BodyGroup(c, dir, at, elms, n);
    VisitIsGroupFrom(c, dir, at, n, Group(elms, n));
    FlatFirstGroup(c, dir, at, elms, n);
  }

  lemma {:induction false} TreeInside(c: Configs, dir: Path, at: nat, elms: seq<Recipe>, n: Name)
    requires Starts(elms, n)
    ensures SameWalk(c, dir + [n], at, Group(elms, n))
    decreases Size(elms), |elms|, 0
  {
    GroupSizes(elms, n);
    TreeIsFlatWalk(c, dir + [n], at, Group(elms, n));
  }

  lemma {:induction false} TreeAfter(c: Configs, dir: Path, at: nat, elms: seq<Recipe>, n: Name)
    requires Starts(elms, n)
    ensures SameWalk(c, dir, at + |Group(elms, n)|, Rest(elms, n))
    decreases Size(elms), |elms|, 0
  {
    GroupSizes(elms, n);
    TreeIsFlatWalk(c, dir, at + |Group(elms, n)|, Rest(elms, n));
  }

  lemma {:induction false} TreeGroup(c: Configs, dir: Path, at: nat, elms: seq<Recipe>, n: Name)
    requires Starts(elms, n)
    ensures SameWalk(c, dir, at, elms)
    decreases Size(elms), |elms|, 1
  {
    TreeInside(c, dir, at, elms, n);
    TreeAfter(c, dir, at, elms, n);
    TreeGroupStep(c, dir, at, elms, n);
  }

  /** The tree of subshells is the flat walk: a config is sourced once for every maximal run of
      consecutive recipes below its directory, and cleaned up when the walk leaves it. */
  lemma {:induction false} TreeIsFlatWalk(c: Configs, dir: Path, at: nat, elms: seq<Recipe>)
    ensures Body(c, dir, at, elms) == Flat(c, dir, at, [], elms)
    decreases Size(elms), |elms|, 2
  {
    if elms == [] {
    } else if elms[0].dirs == [] {
      TreeFile(c, dir, at, elms);
    } else {
      TreeGroup(c, dir, at, elms, elms[0].dirs[0]);
    }
  }
}
