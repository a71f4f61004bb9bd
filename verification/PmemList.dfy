/** The persistent-memory list: stores go to a volatile image, reach the durable image at any moment or
    at the latest at a persist, and a crash keeps the durable image only. */
module PmemList {
  import opened Wrappers

  /** struct list_root; node 0 stands for NULL. */
  datatype Image = Image(head: nat, value: seq<int>, next: seq<nat>)

  datatype Cell = Head | Value(node: nat) | Next(node: nat)

  /** The statements of the two insert routines, for the node and value they were called with. */
  datatype Op = StoreValue | StoreNext | StoreHead | PersistNode | PersistNext | PersistHead | PersistValue

  datatype Insert = Insert(node: nat, value: int)

  datatype Mem = Mem(vol: Image, dur: Image)

  const CONSISTENT := [StoreValue, StoreNext, PersistNode, StoreHead, PersistHead]

  const INCONSISTENT := [StoreNext, PersistNext, StoreHead, PersistHead, StoreValue, PersistValue]

  predicate InRange(m: Image, n: nat) {
    n < |m.value| && n < |m.next|
  }

  /** One cell reaches the durable image. */
  function WriteBack(m: Mem, c: Cell): Mem {
    match c
    case Head => m.(dur := m.dur.(head := m.vol.head))
    case Value(n) =>
      if n < |m.vol.value| && n < |m.dur.value| then m.(dur := m.dur.(value := m.dur.value[n := m.vol.value[n]])) else m
    case Next(n) =>
      if n < |m.vol.next| && n < |m.dur.next| then m.(dur := m.dur.(next := m.dur.next[n := m.vol.next[n]])) else m
  }

  function Exec(m: Mem, op: Op, i: Insert): Mem
    requires InRange(m.vol, i.node)
  {
    match op
    case StoreValue => m.(vol := m.vol.(value := m.vol.value[i.node := i.value]))
    case StoreNext => m.(vol := m.vol.(next := m.vol.next[i.node := m.vol.head]))
    case StoreHead => m.(vol := m.vol.(head := i.node))
    case PersistNode => WriteBack(WriteBack(m, Value(i.node)), Next(i.node))
    case PersistNext => WriteBack(m, Next(i.node))
    case PersistHead => WriteBack(m, Head)
    case PersistValue => WriteBack(m, Value(i.node))
  }

  /** A program of inserts in progress: inserts[done] has executed its first pc statements. */
  datatype State = State(mem: Mem, done: nat, pc: nat)

  datatype Action = Step | Evict(cell: Cell)

  function Advance(code: seq<Op>, inserts: seq<Insert>, s: State, a: Action): Option<State> {
    match a
    case Evict(c) => Some(s.(mem := WriteBack(s.mem, c)))
    case Step =>
      if s.done < |inserts| && s.pc < |code| && InRange(s.mem.vol, inserts[s.done].node) then
        var mem := Exec(s.mem, code[s.pc], inserts[s.done]);
        Some(if s.pc + 1 == |code| then State(mem, s.done + 1, 0) else State(mem, s.done, s.pc + 1))
      else None
  }

  function Run(code: seq<Op>, inserts: seq<Insert>, s: State, script: seq<Action>): Option<State>
    decreases |script|
  {
    if script == [] then Some(s)
    else match Advance(code, inserts, s, script[0])
         case None => None
         case Some(t) => Run(code, inserts, t, script[1..])
  }

  function Zeros(size: nat): (z: seq<nat>)
    ensures |z| == size && forall i | 0 <= i < size :: z[i] == 0
  {
    if size == 0 then [] else [0] + Zeros(size - 1)
  }

  /** The image after pmem_memset_persist. */
  function Zeroed(size: nat): Image {
    Image(0, Zeros(size), Zeros(size))
  }

  function Init(size: nat): State {
    State(Mem(Zeroed(size), Zeroed(size)), 0, 0)
  }

  ghost predicate Reachable(code: seq<Op>, size: nat, inserts: seq<Insert>, s: State) {
    exists script :: Run(code, inserts, Init(size), script) == Some(s)
  }

  /** What the callers of the insert routines must respect: node ids inside the array, not NULL, each
      used once, and values different from the 0 that marks an unset value. */
  ghost predicate Fresh(size: nat, inserts: seq<Insert>) {
    && (forall i | 0 <= i < |inserts| :: 0 < inserts[i].node < size && inserts[i].value != 0)
    && (forall i, j | 0 <= i < j < |inserts| :: inserts[i].node != inserts[j].node)
  }

  // ---------- the list an image holds ----------

  /** From n, the image links exactly the nodes of path and then NULL. */
  ghost predicate Chain(m: Image, n: nat, path: seq<Insert>)
    decreases |path|
  {
    if path == [] then n == 0
    else
      && n != 0 && InRange(m, n) && n == path[0].node && m.value[n] == path[0].value
      && Chain(m, m.next[n], path[1..])
  }

  /** The list after the first k inserts, most recent first. */
  function Listed(inserts: seq<Insert>, k: nat): seq<Insert>
    requires k <= |inserts|
  {
    if k == 0 then [] else [inserts[k - 1]] + Listed(inserts, k - 1)
  }

  ghost predicate Holds(m: Image, inserts: seq<Insert>, k: nat) {
    k <= |inserts| && Chain(m, m.head, Listed(inserts, k))
  }

  /** check_consistency from node n: None while undecided after fuel nodes. */
  function Check(m: Image, n: nat, fuel: nat): Option<int>
    decreases fuel
  {
    if n == 0 then Some(0)
    else if fuel == 0 || !InRange(m, n) then None
    else if m.value[n] == 0 then Some(1)
    else Check(m, m.next[n], fuel - 1)
  }

  lemma {:induction false} ChainChecks(m: Image, n: nat, path: seq<Insert>)
    requires Chain(m, n, path) && forall i | 0 <= i < |path| :: path[i].value != 0
    ensures Check(m, n, |path|) == Some(0)
    decreases |path|
  {
    if path != [] {
      ChainChecks(m, m.next[n], path[1..]);
    }
  }

  lemma {:induction false} CheckMonotone(m: Image, n: nat, fuel: nat, more: nat)
    requires Check(m, n, fuel).Some? && fuel <= more
    ensures Check(m, n, more) == Check(m, n, fuel)
    decreases fuel
  {
    if n != 0 && m.value[n] != 0 {
      CheckMonotone(m, m.next[n], fuel - 1, more - 1);
    }
  }

  lemma {:induction false} ListedIn(inserts: seq<Insert>, k: nat)
    requires k <= |inserts|
    ensures |Listed(inserts, k)| == k
    ensures forall i | 0 <= i < k :: Listed(inserts, k)[i] == inserts[k - 1 - i]
  {
    if k > 0 {
      ListedIn(inserts, k - 1);
    }
  }

  /** The head pointer after the first k inserts. */
  function HeadAfter(inserts: seq<Insert>, k: nat): nat
    requires k <= |inserts|
  {
    if k == 0 then 0 else inserts[k - 1].node
  }

  ghost predicate Sized(m: Image, size: nat) {
    |m.value| == size && |m.next| == size
  }

  ghost predicate LinkedAt(next: seq<nat>, inserts: seq<Insert>, j: nat)
    requires j < |inserts|
  {
    inserts[j].node < |next| && next[inserts[j].node] == HeadAfter(inserts, j)
  }

  /** The first k inserted nodes are linked to their predecessors. */
  ghost predicate Linked(m: Image, size: nat, inserts: seq<Insert>, k: nat) {
    && Sized(m, size) && Fresh(size, inserts) && k <= |inserts|
    && (forall j | 0 <= j < k :: LinkedAt(m.next, inserts, j))
  }

  /** The first k inserted nodes are in place. */
  ghost predicate Written(m: Image, size: nat, inserts: seq<Insert>, k: nat) {
    && Linked(m, size, inserts, k)
    && (forall j | 0 <= j < k :: m.value[inserts[j].node] == inserts[j].value)
  }

  lemma {:induction false} WrittenIsChain(m: Image, size: nat, inserts: seq<Insert>, k: nat)
    requires Written(m, size, inserts, k)
    ensures Chain(m, HeadAfter(inserts, k), Listed(inserts, k))
  {
    if k > 0 {
      WrittenIsChain(m, size, inserts, k - 1);
      assert LinkedAt(m.next, inserts, k - 1);
      assert Listed(inserts, k)[1..] == Listed(inserts, k - 1);
    }
  }

  lemma {:induction false} WrittenChecks(m: Image, size: nat, inserts: seq<Insert>, k: nat, fuel: nat)
    requires Written(m, size, inserts, k) && k <= fuel
    ensures Check(m, HeadAfter(inserts, k), fuel) == Some(0)
  {
    WrittenIsChain(m, size, inserts, k);
    ListedIn(inserts, k);
    ChainChecks(m, HeadAfter(inserts, k), Listed(inserts, k));
    CheckMonotone(m, HeadAfter(inserts, k), k, fuel);
  }

  // ---------- the consistent insert ----------

  ghost predicate GoodInv(size: nat, inserts: seq<Insert>, s: State) {
    var vol, dur, d := s.mem.vol, s.mem.dur, s.done;
    && s.pc < 5 && (if s.pc == 0 then d <= |inserts| else d < |inserts|)
    && Written(vol, size, inserts, if s.pc < 2 then d else d + 1)
    && Written(dur, size, inserts, if s.pc < 3 then d else d + 1)
    && vol.head == HeadAfter(inserts, if s.pc < 4 then d else d + 1)
    && (dur.head == HeadAfter(inserts, d) || (s.pc == 4 && dur.head == HeadAfter(inserts, d + 1)))
    && (s.pc == 1 ==> vol.value[inserts[d].node] == inserts[d].value)
  }

  lemma {:induction false} WriteBackWritten(m: Mem, size: nat, inserts: seq<Insert>, k: nat, c: Cell)
    requires Written(m.vol, size, inserts, k) && Written(m.dur, size, inserts, k)
    ensures Written(WriteBack(m, c).dur, size, inserts, k)
  {
    WriteBackLinked(m, size, inserts, k, c);
  }

  lemma {:induction false} GoodEvict(size: nat, inserts: seq<Insert>, s: State, c: Cell, t: State)
    requires GoodInv(size, inserts, s) && Advance(CONSISTENT, inserts, s, Evict(c)) == Some(t)
    ensures GoodInv(size, inserts, t)
  {
    WriteBackWritten(s.mem, size, inserts, if s.pc < 3 then s.done else s.done + 1, c);
  }

  lemma {:induction false} StoreWritten(m: Mem, size: nat, inserts: seq<Insert>, k: nat, op: Op)
    requires Written(m.vol, size, inserts, k) && k < |inserts| && (op.StoreValue? || op.StoreNext?)
    ensures Written(Exec(m, op, inserts[k]).vol, size, inserts, k)
  {
    forall j | 0 <= j < k ensures LinkedAt(Exec(m, op, inserts[k]).vol.next, inserts, j) {
      assert LinkedAt(m.vol.next, inserts, j);
    }
  }

  lemma {:induction false} PersistWritten(m: Mem, size: nat, inserts: seq<Insert>, k: nat)
    requires k < |inserts| && Written(m.vol, size, inserts, k + 1) && Written(m.dur, size, inserts, k)
    ensures Written(Exec(m, PersistNode, inserts[k]).dur, size, inserts, k + 1)
  {
    var mid := WriteBack(m, Value(inserts[k].node));
    WriteBackWritten(m, size, inserts, k, Value(inserts[k].node));
    WriteBackWritten(mid, size, inserts, k, Next(inserts[k].node));
    assert LinkedAt(m.vol.next, inserts, k);
  }

  lemma {:induction false} GoodStep(size: nat, inserts: seq<Insert>, s: State, t: State)
    requires GoodInv(size, inserts, s) && Advance(CONSISTENT, inserts, s, Step) == Some(t)
    ensures GoodInv(size, inserts, t)
  {
    var d := s.done;
    assert CONSISTENT == [StoreValue, StoreNext, PersistNode, StoreHead, PersistHead];
    if s.pc < 2 {
      StoreWritten(s.mem, size, inserts, d, CONSISTENT[s.pc]);
      assert s.pc == 1 ==> LinkedAt(t.mem.vol.next, inserts, d);
    } else if s.pc == 2 {
      PersistWritten(s.mem, size, inserts, d);
    }
  }

  lemma {:induction false} GoodRun(size: nat, inserts: seq<Insert>, s: State, script: seq<Action>, t: State)
    requires GoodInv(size, inserts, s) && Run(CONSISTENT, inserts, s, script) == Some(t)
    ensures GoodInv(size, inserts, t)
    decreases |script|
  {
    if script != [] {
      var m := Advance(CONSISTENT, inserts, s, script[0]).value;
      if script[0].Step? {
        GoodStep(size, inserts, s, m);
      } else {
        GoodEvict(size, inserts, s, script[0].cell, m);
      }
      GoodRun(size, inserts, m, script[1..], t);
    }
  }

  /** Whenever the power fails, the durable list is the one before or the one after the insert in
      flight, and the consistency check terminates and accepts it. */
  lemma {:induction false} ConsistentSurvivesCrash(size: nat, inserts: seq<Insert>, s: State)
    requires Fresh(size, inserts) && Reachable(CONSISTENT, size, inserts, s)
    ensures s.done <= |inserts|
    ensures Holds(s.mem.dur, inserts, s.done) || (s.pc > 0 && Holds(s.mem.dur, inserts, s.done + 1))
    ensures Check(s.mem.dur, s.mem.dur.head, |inserts|) == Some(0)
  {
    var script :| Run(CONSISTENT, inserts, Init(size), script) == Some(s);
    GoodRun(size, inserts, Init(size), script, s);
    var k := if s.mem.dur.head == HeadAfter(inserts, s.done) then s.done else s.done + 1;
    WrittenIsChain(s.mem.dur, size, inserts, k);
    WrittenChecks(s.mem.dur, size, inserts, k, |inserts|);
  }

  // ---------- the inconsistent insert ----------

  /** The first k inserted values are set, the others are still unset. */
  ghost predicate Valued(m: Image, size: nat, inserts: seq<Insert>, k: nat) {
    && Sized(m, size) && Fresh(size, inserts) && k <= |inserts|
    && (forall j | 0 <= j < |inserts| :: m.value[inserts[j].node] == if j < k then inserts[j].value else 0)
  }

  ghost predicate BadInv(size: nat, inserts: seq<Insert>, s: State) {
    var vol, dur, d := s.mem.vol, s.mem.dur, s.done;
    && s.pc < 6 && (if s.pc == 0 then d <= |inserts| else d < |inserts|)
    && Linked(vol, size, inserts, if s.pc < 1 then d else d + 1)
    && Linked(dur, size, inserts, if s.pc < 2 then d else d + 1)
    && Valued(vol, size, inserts, if s.pc < 5 then d else d + 1)
    && (Valued(dur, size, inserts, d) || (s.pc == 5 && Valued(dur, size, inserts, d + 1)))
    && vol.head == HeadAfter(inserts, if s.pc < 3 then d else d + 1)
    && ((s.pc < 4 && dur.head == HeadAfter(inserts, d)) || (s.pc >= 3 && dur.head == HeadAfter(inserts, d + 1)))
  }

  lemma {:induction false} WriteBackLinked(m: Mem, size: nat, inserts: seq<Insert>, k: nat, c: Cell)
    requires Linked(m.vol, size, inserts, k) && Linked(m.dur, size, inserts, k)
    ensures Linked(WriteBack(m, c).dur, size, inserts, k)
  {
    forall j | 0 <= j < k ensures LinkedAt(WriteBack(m, c).dur.next, inserts, j) {
      assert LinkedAt(m.vol.next, inserts, j) && LinkedAt(m.dur.next, inserts, j);
    }
  }

  /** Two images that differ in at most one inserted value: the write-back of a cell makes the durable
      one either stay or catch up. */
  lemma {:induction false} WriteBackValued(m: Mem, size: nat, inserts: seq<Insert>, k: nat, c: Cell)
    requires Valued(m.dur, size, inserts, k)
    requires Valued(m.vol, size, inserts, k) || Valued(m.vol, size, inserts, k + 1)
    ensures Valued(WriteBack(m, c).dur, size, inserts, k)
         || (Valued(m.vol, size, inserts, k + 1) && Valued(WriteBack(m, c).dur, size, inserts, k + 1))
    ensures Valued(m.vol, size, inserts, k + 1) && c == Value(inserts[k].node) ==>
              Valued(WriteBack(m, c).dur, size, inserts, k + 1)
  {
  }

  lemma {:induction false} WriteBackSame(m: Mem, size: nat, inserts: seq<Insert>, k: nat, c: Cell)
    requires Valued(m.vol, size, inserts, k) && Valued(m.dur, size, inserts, k)
    ensures Valued(WriteBack(m, c).dur, size, inserts, k)
  {
  }

  /** The durable values are at most one insert behind the volatile ones, and stay so. */
  lemma {:induction false} ValuesWriteBack(m: Mem, size: nat, inserts: seq<Insert>, k: nat, c: Cell, last: bool)
    requires Valued(m.vol, size, inserts, if last then k + 1 else k)
    requires Valued(m.dur, size, inserts, k) || (last && Valued(m.dur, size, inserts, k + 1))
    ensures Valued(WriteBack(m, c).dur, size, inserts, k) || (last && Valued(WriteBack(m, c).dur, size, inserts, k + 1))
  {
    if Valued(m.dur, size, inserts, k) {
      if last {
        WriteBackValued(m, size, inserts, k, c);
      } else {
        WriteBackSame(m, size, inserts, k, c);
      }
    } else {
      WriteBackSame(m, size, inserts, k + 1, c);
    }
  }

  lemma {:induction false} BadWriteBack(size: nat, inserts: seq<Insert>, s: State, c: Cell)
    requires BadInv(size, inserts, s)
    ensures BadInv(size, inserts, s.(mem := WriteBack(s.mem, c)))
  {
    var d := s.done;
    WriteBackLinked(s.mem, size, inserts, if s.pc < 2 then d else d + 1, c);
    ValuesWriteBack(s.mem, size, inserts, d, c, s.pc == 5);
  }

  lemma {:induction false} StoreNextLinked(m: Mem, size: nat, inserts: seq<Insert>, k: nat)
    requires k < |inserts| && Linked(m.vol, size, inserts, k) && m.vol.head == HeadAfter(inserts, k)
    ensures Linked(Exec(m, StoreNext, inserts[k]).vol, size, inserts, k + 1)
  {
    forall j | 0 <= j < k ensures LinkedAt(Exec(m, StoreNext, inserts[k]).vol.next, inserts, j) {
      assert LinkedAt(m.vol.next, inserts, j);
    }
  }

  lemma {:induction false} StoreValueValued(m: Mem, size: nat, inserts: seq<Insert>, k: nat)
    requires k < |inserts| && Valued(m.vol, size, inserts, k)
    ensures Valued(Exec(m, StoreValue, inserts[k]).vol, size, inserts, k + 1)
  {
  }

  lemma {:induction false} PersistNextLinked(m: Mem, size: nat, inserts: seq<Insert>, k: nat)
    requires k < |inserts| && Linked(m.vol, size, inserts, k + 1) && Linked(m.dur, size, inserts, k)
    ensures Linked(Exec(m, PersistNext, inserts[k]).dur, size, inserts, k + 1)
  {
    WriteBackLinked(m, size, inserts, k, Next(inserts[k].node));
    assert LinkedAt(m.vol.next, inserts, k);
  }

  lemma {:induction false} BadStep(size: nat, inserts: seq<Insert>, s: State, t: State)
    requires BadInv(size, inserts, s) && Advance(INCONSISTENT, inserts, s, Step) == Some(t)
    ensures BadInv(size, inserts, t)
  {
    var d := s.done;
    assert INCONSISTENT == [StoreNext, PersistNext, StoreHead, PersistHead, StoreValue, PersistValue];
    if s.pc == 0 {
      StoreNextLinked(s.mem, size, inserts, d);
    } else if s.pc == 1 {
      PersistNextLinked(s.mem, size, inserts, d);
    } else if s.pc == 4 {
      StoreValueValued(s.mem, size, inserts, d);
    } else if s.pc == 5 {
      BadWriteBack(size, inserts, s, Value(inserts[d].node));
      if Valued(s.mem.dur, size, inserts, d) {
        WriteBackValued(s.mem, size, inserts, d, Value(inserts[d].node));
      } else {
        WriteBackSame(s.mem, size, inserts, d + 1, Value(inserts[d].node));
      }
    }
  }

  lemma {:induction false} BadRun(size: nat, inserts: seq<Insert>, s: State, script: seq<Action>, t: State)
    requires BadInv(size, inserts, s) && Run(INCONSISTENT, inserts, s, script) == Some(t)
    ensures BadInv(size, inserts, t)
    decreases |script|
  {
    if script != [] {
      var m := Advance(INCONSISTENT, inserts, s, script[0]).value;
      if script[0].Step? {
        BadStep(size, inserts, s, m);
      } else {
        BadWriteBack(size, inserts, s, script[0].cell);
      }
      BadRun(size, inserts, m, script[1..], t);
    }
  }

  /** The durable head already names the node being inserted, whose value is not durable yet. */
  predicate Exposed(inserts: seq<Insert>, s: State) {
    var dur := s.mem.dur;
    s.done < |inserts| && InRange(dur, inserts[s.done].node) && dur.head == inserts[s.done].node
    && dur.value[inserts[s.done].node] == 0
  }

  lemma {:induction false} ExposedAtHead(size: nat, inserts: seq<Insert>, s: State)
    requires BadInv(size, inserts, s) && s.pc == 4
    ensures Exposed(inserts, s)
  {
  }

  lemma {:induction false} BadVerdict(size: nat, inserts: seq<Insert>, s: State)
    requires BadInv(size, inserts, s)
    ensures Check(s.mem.dur, s.mem.dur.head, |inserts|) == Some(if Exposed(inserts, s) then 1 else 0)
  {
    var dur, d := s.mem.dur, s.done;
    if !Exposed(inserts, s) {
      if dur.head == HeadAfter(inserts, d) {
        WrittenChecks(dur, size, inserts, d, |inserts|);
      } else {
        assert Valued(dur, size, inserts, d + 1);
        WrittenChecks(dur, size, inserts, d + 1, |inserts|);
      }
    }
  }

  /** The check rejects a crash image of the inconsistent insert exactly in that window, and accepts all
      others. */
  lemma {:induction false} InconsistentRejectedIff(size: nat, inserts: seq<Insert>, s: State)
    requires Fresh(size, inserts) && Reachable(INCONSISTENT, size, inserts, s)
    ensures Check(s.mem.dur, s.mem.dur.head, |inserts|) == Some(if Exposed(inserts, s) then 1 else 0)
  {
    var script :| Run(INCONSISTENT, inserts, Init(size), script) == Some(s);
    BadRun(size, inserts, Init(size), script, s);
    BadVerdict(size, inserts, s);
  }

  lemma {:induction false} RunConcat(code: seq<Op>, inserts: seq<Insert>, s: State, p: seq<Action>, q: seq<Action>)
    requires Run(code, inserts, s, p).Some?
    ensures Run(code, inserts, s, p + q) == Run(code, inserts, Run(code, inserts, s, p).value, q)
    decreases |p|
  {
    if p == [] {
      assert p + q == q;
    } else {
      assert (p + q)[1..] == p[1..] + q;
      RunConcat(code, inserts, Advance(code, inserts, s, p[0]).value, p[1..], q);
    }
  }

  /** Without any eviction, the first n statements of the program. */
  lemma {:induction false} Straight(size: nat, inserts: seq<Insert>, n: nat) returns (s: State)
    requires Fresh(size, inserts) && n <= 6 * |inserts|
    ensures Reachable(INCONSISTENT, size, inserts, s) && s.done == n / 6 && s.pc == n % 6
  {
    if n == 0 {
      s := Init(size);
      assert Run(INCONSISTENT, inserts, s, []) == Some(s);
    } else {
      var before := Straight(size, inserts, n - 1);
      var script :| Run(INCONSISTENT, inserts, Init(size), script) == Some(before);
      BadRun(size, inserts, Init(size), script, before);
      s := Advance(INCONSISTENT, inserts, before, Step).value;
      RunConcat(INCONSISTENT, inserts, Init(size), script, [Step]);
      assert Run(INCONSISTENT, inserts, before, [Step]) == Some(s);
    }
  }

  /** Every single inconsistent insert has a crash image that the check rejects. */
  lemma {:induction false} InconsistentHasBadImage(size: nat, inserts: seq<Insert>, d: nat) returns (s: State)
    requires Fresh(size, inserts) && d < |inserts|
    ensures Reachable(INCONSISTENT, size, inserts, s) && s.done == d
    ensures Check(s.mem.dur, s.mem.dur.head, |inserts|) == Some(1)
  {
    s := Straight(size, inserts, 6 * d + 4);
    var script :| Run(INCONSISTENT, inserts, Init(size), script) == Some(s);
    BadRun(size, inserts, Init(size), script, s);
    ExposedAtHead(size, inserts, s);
    BadVerdict(size, inserts, s);
  }

  // ---------- the routines themselves ----------

  /** The whole of an insert routine with no eviction in between. */
  function ExecAll(m: Mem, code: seq<Op>, i: Insert): Mem
    requires InRange(m.vol, i.node)
    decreases |code|
  {
    if code == [] then m
    else
      var n := Exec(m, code[0], i);
      if InRange(n.vol, i.node) then ExecAll(n, code[1..], i) else n
  }

  function After(m: Mem, i: Insert): Mem
    requires InRange(m.vol, i.node) && InRange(m.dur, i.node)
  {
    Mem(Image(i.node, m.vol.value[i.node := i.value], m.vol.next[i.node := m.vol.head]),
        Image(i.node, m.dur.value[i.node := i.value], m.dur.next[i.node := m.vol.head]))
  }

  /** With no power failure the two routines cannot be told apart: both leave the new node at the head,
      in memory and durably, and change nothing else. */
  lemma {:induction false} SameWithoutCrash(m: Mem, i: Insert)
    requires InRange(m.vol, i.node) && InRange(m.dur, i.node)
    ensures ExecAll(m, CONSISTENT, i) == After(m, i) == ExecAll(m, INCONSISTENT, i)
  {
    var a1 := Exec(m, StoreValue, i);
    var a2 := Exec(a1, StoreNext, i);
    var a3 := Exec(a2, PersistNode, i);
    var a4 := Exec(a3, StoreHead, i);
    var a5 := Exec(a4, PersistHead, i);
    assert ExecAll(a3, [StoreHead, PersistHead], i) == a5 by {
      assert [StoreHead, PersistHead][1..] == [PersistHead];
      assert ExecAll(a4, [PersistHead], i) == a5;
    }
    assert CONSISTENT[1..] == [StoreNext, PersistNode, StoreHead, PersistHead];
    assert CONSISTENT[1..][1..] == [PersistNode, StoreHead, PersistHead];
    assert CONSISTENT[1..][1..][1..] == [StoreHead, PersistHead];
    var b1 := Exec(m, StoreNext, i);
    var b2 := Exec(b1, PersistNext, i);
    var b3 := Exec(b2, StoreHead, i);
    var b4 := Exec(b3, PersistHead, i);
    var b5 := Exec(b4, StoreValue, i);
    var b6 := Exec(b5, PersistValue, i);
    assert ExecAll(b3, [PersistHead, StoreValue, PersistValue], i) == b6 by {
      assert [PersistHead, StoreValue, PersistValue][1..] == [StoreValue, PersistValue];
      assert [StoreValue, PersistValue][1..] == [PersistValue];
      assert ExecAll(b5, [PersistValue], i) == b6;
    }
    assert INCONSISTENT[1..] == [PersistNext, StoreHead, PersistHead, StoreValue, PersistValue];
    assert INCONSISTENT[1..][1..] == [StoreHead, PersistHead, StoreValue, PersistValue];
    assert INCONSISTENT[1..][1..][1..] == [PersistHead, StoreValue, PersistValue];
  }

  class Root {
    var head: nat
    var value: array<int>
    var next: array<nat>
    ghost var dur: Image
    ghost var log: seq<Op>

    ghost predicate Valid()
      reads this
    {
      value.Length == next.Length
    }

    ghost function Vol(): Image
      reads this, value, next
    {
      Image(head, value[..], next[..])
    }

    ghost function State(): Mem
      reads this, value, next
    {
      Mem(Vol(), dur)
    }

    /** Records that the last statement had the effect of op, and returns the memory it left. */
    ghost method Did(op: Op, i: Insert, before: Mem) returns (m: Mem)
      requires InRange(before.vol, i.node) && State() == Exec(before, op, i)
      modifies this`log
      ensures log == old(log) + [op] && m == State() == old(State())
    {
      log := log + [op];
      m := State();
    }

    method ListInsertConsistent(node: nat, v: int)
      requires Valid() && 0 < node < value.Length && InRange(dur, node)
      modifies this`head, this`dur, this`log, value, next
      ensures log == old(log) + CONSISTENT
      ensures State() == After(old(State()), Insert(node, v))
    {
      ghost var i := Insert(node, v);
      ghost var m := State();
      value[node] := v;
      m := Did(StoreValue, i, m);
      next[node] := head;
      m := Did(StoreNext, i, m);
      dur := WriteBack(WriteBack(State(), Value(node)), Next(node)).dur;
      m := Did(PersistNode, i, m);
      head := node;
      m := Did(StoreHead, i, m);
      dur := WriteBack(State(), Head).dur;
      m := Did(PersistHead, i, m);
    }

    method ListInsertInconsistent(node: nat, v: int)
      requires Valid() && 0 < node < value.Length && InRange(dur, node)
      modifies this`head, this`dur, this`log, value, next
      ensures log == old(log) + INCONSISTENT
      ensures State() == After(old(State()), Insert(node, v))
    {
      ghost var i := Insert(node, v);
      ghost var m := State();
      next[node] := head;
      m := Did(StoreNext, i, m);
      dur := WriteBack(State(), Next(node)).dur;
      m := Did(PersistNext, i, m);
      head := node;
      m := Did(StoreHead, i, m);
      dur := WriteBack(State(), Head).dur;
      m := Did(PersistHead, i, m);
      value[node] := v;
      m := Did(StoreValue, i, m);
      dur := WriteBack(State(), Value(node)).dur;
      m := Did(PersistValue, i, m);
    }

    /** check_consistency on the image in memory. The loop of the source ends only when the walk from
        the head reaches NULL or an unset value, which the ghost bound expresses. */
    method CheckConsistency(ghost fuel: nat) returns (r: int)
      requires Valid() && Check(Vol(), head, fuel).Some?
      ensures Check(Vol(), head, fuel) == Some(r)
    {
      var node := head;
      if node == 0 {
        return 0;
      }
      ghost var left := fuel;
      while true
        invariant node != 0 && Check(Vol(), node, left) == Check(Vol(), head, fuel)
        decreases left
      {
        if value[node] == 0 {
          return 1;
        }
        node := next[node];
        left := left - 1;
        if node == 0 {
          return 0;
        }
      }
    }
  }
}
