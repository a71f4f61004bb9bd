/** The io_uring rings: free-running 32-bit indices over a power-of-two array, shared with the kernel. */
module IoRing {
  import opened Wrappers
  import opened Arith

  const WRAP: int := 0x1_0000_0000

  type uint32 = x: int | 0 <= x < 0x1_0000_0000

  /** 2^k slots, the reader's index and the writer's index. */
  datatype Ring<T> = Ring(k: nat, head: uint32, tail: uint32, slots: seq<T>)

  predicate Sized<T>(r: Ring<T>) {
    r.k <= 31 && |r.slots| == Pow2(r.k)
  }

  /** index & mask */
  function Slot(i: nat, k: nat): (s: nat)
    ensures s < Pow2(k)
  {
    MaskIsRemainder(i, k);
    DivMod(i, Pow2(k));
    And(i, Pow2(k) - 1)
  }

  /** An unsigned increment. */
  function Inc(i: uint32): uint32 {
    (i + 1) % WRAP
  }

  /** tail - head in unsigned arithmetic. */
  function Fill<T>(r: Ring<T>): uint32 {
    (r.tail - r.head) % WRAP
  }

  /** Write a slot, then move the tail. */
  function Put<T>(r: Ring<T>, x: T): Ring<T>
    requires Sized(r)
  {
    r.(slots := r.slots[Slot(r.tail, r.k) := x], tail := Inc(r.tail))
  }

  function Peek<T>(r: Ring<T>): T
    requires Sized(r)
  {
    r.slots[Slot(r.head, r.k)]
  }

  function Advance<T>(r: Ring<T>): Ring<T> {
    r.(head := Inc(r.head))
  }

  // ---------- the ring against its history ----------

  /** Of everything written so far, the newest |slots| are in their slots. */
  ghost predicate Held<T>(slots: seq<T>, all: seq<T>)
    requires |slots| > 0
  {
    forall n | 0 <= n < |all| && |all| - |slots| <= n :: slots[n % |slots|] == all[n]
  }

  /** all has been written, in order, and the reader has taken the first taken of them. */
  ghost predicate Tracks<T>(r: Ring<T>, all: seq<T>, taken: nat) {
    && Sized(r) && taken <= |all|
    && r.head == taken % WRAP && r.tail == |all| % WRAP
    && Held(r.slots, all)
  }

  /** 2^k divides 2^32, so the slot of the n-th entry does not depend on wrap-around. */
  lemma {:induction false} SlotOf(n: nat, k: nat)
    requires k <= 32
    ensures Slot(n % WRAP, k) == n % Pow2(k)
  {
    MaskIsRemainder(n % WRAP, k);
    PowSplit(k, 32 - k);
    WrapIsPow2();
    ModMultiple(n, Pow2(k), Pow2(32 - k));
  }

  lemma {:induction false} WrapIsPow2()
    ensures Pow2(32) == WRAP
  {
    SmallPowers();
    PowSplit(16, 16);
  }

  lemma {:induction false} SmallPowers()
    ensures Pow2(16) == 65536
  {
    assert Pow2(8) == 256;
    assert Pow2(12) == 4096;
  }

  lemma {:induction false} IncCounts(n: nat)
    ensures Inc(n % WRAP) == (n + 1) % WRAP
  {
  }

  /** The fill level, however often the indices have wrapped. */
  lemma {:induction false} FillCounts<T>(r: Ring<T>, all: seq<T>, taken: nat)
    requires Tracks(r, all, taken) && |all| - taken <= |r.slots|
    ensures Fill(r) == |all| - taken
    ensures r.head == r.tail <==> taken == |all|
  {
    PowBelow(r.k);
    WrapDifference(taken, |all|);
  }

  lemma {:induction false} WrapDifference(a: nat, b: nat)
    requires a <= b < a + WRAP
    ensures (b % WRAP - a % WRAP) % WRAP == b - a && (a % WRAP == b % WRAP <==> a == b)
  {
    var x, y := a / WRAP, b / WRAP;
    DivModIs(b % WRAP - a % WRAP, WRAP, x - y, b - a);
  }

  lemma {:induction false} PowBelow(k: nat)
    requires k <= 31
    ensures Pow2(k) < WRAP
  {
    WrapIsPow2();
    PowSplit(k, 32 - k);
    Multiples(Pow2(k), 1, Pow2(32 - k));
  }

  lemma {:induction false} PutHeld<T>(slots: seq<T>, all: seq<T>, x: T)
    requires |slots| > 0 && Held(slots, all)
    ensures |all| % |slots| < |slots|
    ensures Held(slots[|all| % |slots| := x], all + [x])
  {
    var e, i := |slots|, |all| % |slots|;
    forall n | 0 <= n < |all| + 1 && |all| + 1 - e <= n ensures slots[i := x][n % e] == (all + [x])[n] {
      if n < |all| {
        CloseRemaindersDiffer(n, |all|, e);
      }
    }
  }

  lemma {:induction false} PutTracks<T>(r: Ring<T>, all: seq<T>, taken: nat, x: T)
    requires Tracks(r, all, taken)
    ensures Tracks(Put(r, x), all + [x], taken)
  {
    SlotOf(|all|, r.k);
    IncCounts(|all|);
    PutHeld(r.slots, all, x);
  }

  lemma {:induction false} AdvanceTracks<T>(r: Ring<T>, all: seq<T>, taken: nat)
    requires Tracks(r, all, taken) && taken < |all|
    ensures Tracks(Advance(r), all, taken + 1)
  {
    IncCounts(taken);
  }

  /** The last write to the slot of entry n, among total writes. */
  function Latest(n: nat, total: nat, e: nat): (m: nat)
    requires n < total && e > 0
    ensures n <= m < total && total - e <= m && m % e == n % e
    ensures m == n <==> total <= n + e
    decreases total - n
  {
    if total <= n + e then n
    else
      AddMultiple(n, 1, e);
      Latest(n + e, total, e)
  }

  /** What the slot of entry n holds at any time: entry n itself exactly until entries more have been
      written after it. */
  lemma {:induction false} SlotHolds<T>(slots: seq<T>, all: seq<T>, n: nat)
    requires |slots| > 0 && n < |all| && Held(slots, all)
    ensures n % |slots| < |slots|
    ensures slots[n % |slots|] == all[Latest(n, |all|, |slots|)]
    ensures Latest(n, |all|, |slots|) == n <==> |all| <= n + |slots|
  {
    var m := Latest(n, |all|, |slots|);
    assert slots[m % |slots|] == all[m];
  }

  /** The reader sees its next entry as long as the writer has not run over it. */
  lemma {:induction false} PeekIs<T>(r: Ring<T>, all: seq<T>, taken: nat)
    requires Tracks(r, all, taken) && taken < |all|
    ensures Peek(r) == all[Latest(taken, |all|, |r.slots|)]
    ensures |all| - taken <= |r.slots| ==> Peek(r) == all[taken]
  {
    SlotOf(taken, r.k);
    SlotHolds(r.slots, all, taken);
  }

  /** Writing to a full ring replaces the oldest entry that is still to be read; writing to one that is
      not full leaves it. */
  lemma {:induction false} PutKeepsOldestIff<T>(r: Ring<T>, all: seq<T>, taken: nat, x: T)
    requires Tracks(r, all, taken) && taken < |all| && |all| - taken <= |r.slots|
    ensures Peek(Put(r, x)) == if Fill(r) < |r.slots| then all[taken] else x
  {
    FillCounts(r, all, taken);
    PutTracks(r, all, taken, x);
    PeekIs(Put(r, x), all + [x], taken);
  }

  // ---------- runs ----------

  datatype Op<T> = Post(x: T) | Take

  /** The replies of the reader: nothing when the indices are equal, the slot at the head otherwise. */
  function Replies<T>(r: Ring<T>, ops: seq<Op<T>>): seq<Option<T>>
    requires Sized(r)
    decreases |ops|
  {
    if ops == [] then []
    else match ops[0]
      case Post(x) => Replies(Put(r, x), ops[1..])
      case Take =>
        if r.head == r.tail then [None] + Replies(r, ops[1..])
        else [Some(Peek(r))] + Replies(Advance(r), ops[1..])
  }

  /** The replies of an unbounded queue. */
  function QueueReplies<T>(q: seq<T>, ops: seq<Op<T>>): seq<Option<T>>
    decreases |ops|
  {
    if ops == [] then []
    else match ops[0]
      case Post(x) => QueueReplies(q + [x], ops[1..])
      case Take =>
        if q == [] then [None] + QueueReplies(q, ops[1..])
        else [Some(q[0])] + QueueReplies(q[1..], ops[1..])
  }

  /** The writer never writes when tail - head has reached the number of entries. */
  predicate NeverOverfilled<T>(r: Ring<T>, ops: seq<Op<T>>)
    requires Sized(r)
    decreases |ops|
  {
    ops == [] ||
    match ops[0]
    case Post(x) => Fill(r) < |r.slots| && NeverOverfilled(Put(r, x), ops[1..])
    case Take => NeverOverfilled(if r.head == r.tail then r else Advance(r), ops[1..])
  }

  lemma {:induction false} PostReplies<T>(r: Ring<T>, all: seq<T>, taken: nat, x: T, ops: seq<Op<T>>)
    requires Tracks(r, all, taken) && Replies(Put(r, x), ops) == QueueReplies((all + [x])[taken..], ops)
    ensures Replies(r, [Post(x)] + ops) == QueueReplies(all[taken..], [Post(x)] + ops)
  {
    assert ([Post(x)] + ops)[1..] == ops;
    assert (all + [x])[taken..] == all[taken..] + [x];
  }

  lemma {:induction false} EmptyReplies<T>(r: Ring<T>, ops: seq<Op<T>>)
    requires Sized(r) && r.head == r.tail && Replies(r, ops) == QueueReplies([], ops)
    ensures Replies(r, [Take] + ops) == QueueReplies([], [Take] + ops)
  {
    assert ([Take] + ops)[1..] == ops;
  }

  lemma {:induction false} TakeReplies<T>(r: Ring<T>, all: seq<T>, taken: nat, ops: seq<Op<T>>)
    requires Tracks(r, all, taken) && taken < |all| && r.head != r.tail && Peek(r) == all[taken]
    requires Replies(Advance(r), ops) == QueueReplies(all[taken + 1..], ops)
    ensures Replies(r, [Take] + ops) == QueueReplies(all[taken..], [Take] + ops)
  {
    assert ([Take] + ops)[1..] == ops;
    assert all[taken..][0] == all[taken] && all[taken..][1..] == all[taken + 1..];
  }

  /** Over any run, and any number of wrap-arounds, the ring is a first-in first-out queue. */
  lemma {:induction false} RingIsQueue<T>(r: Ring<T>, all: seq<T>, taken: nat, ops: seq<Op<T>>)
    requires Tracks(r, all, taken) && |all| - taken <= |r.slots| && NeverOverfilled(r, ops)
    ensures Replies(r, ops) == QueueReplies(all[taken..], ops)
    decreases |ops|
  {
    if ops != [] {
      var rest := ops[1..];
      assert ops == [ops[0]] + rest;
      FillCounts(r, all, taken);
      match ops[0]
      case Post(x) =>
        PutTracks(r, all, taken, x);
        RingIsQueue(Put(r, x), all + [x], taken, rest);
        PostReplies(r, all, taken, x, rest);
      case Take =>
        if taken == |all| {
          assert all[taken..] == [];
          RingIsQueue(r, all, taken, rest);
          EmptyReplies(r, rest);
        } else {
          PeekIs(r, all, taken);
          AdvanceTracks(r, all, taken);
          RingIsQueue(Advance(r), all, taken + 1, rest);
          TakeReplies(r, all, taken, rest);
        }
    }
  }

  /** A fresh ring: both indices zero. */
  lemma {:induction false} FreshRingIsQueue<T>(k: nat, slots: seq<T>, ops: seq<Op<T>>)
    requires k <= 31 && |slots| == Pow2(k) && NeverOverfilled(Ring(k, 0, 0, slots), ops)
    ensures Replies(Ring(k, 0, 0, slots), ops) == QueueReplies([], ops)
  {
    RingIsQueue(Ring(k, 0, 0, slots), [], 0, ops);
    var none: seq<T> := [];
    assert none[0..] == [];
  }

  // ---------- get_cqe, store by store, against a kernel that posts at any moment ----------

  /** Where get_cqe is: not in a call, the head read into a local, or the two indices found different. */
  datatype Pc = Idle | Loaded(head: uint32) | Ready(head: uint32)

  /** A return of get_cqe: -1, or 0 with a pointer to a slot. */
  datatype Return = Empty | Cqe(slot: nat)

  datatype System<T> = System(ring: Ring<T>, pc: Pc, results: seq<Return>)

  datatype Step<T> = LoadHead | CompareTail | StoreHead | KernelPosts(x: T)

  /** The kernel posts only while tail - head is below the number of entries. */
  predicate Enabled<T>(s: System<T>, t: Step<T>) {
    match t
    case LoadHead => s.pc.Idle?
    case CompareTail => s.pc.Loaded?
    case StoreHead => s.pc.Ready?
    case KernelPosts(_) => Fill(s.ring) < |s.ring.slots|
  }

  function Next<T>(s: System<T>, t: Step<T>): System<T>
    requires Enabled(s, t) && Sized(s.ring)
  {
    match t
    case LoadHead => s.(pc := Loaded(s.ring.head))
    case CompareTail =>
      if s.pc.head == s.ring.tail then s.(pc := Idle, results := s.results + [Empty])
      else s.(pc := Ready(s.pc.head))
    case StoreHead =>
      s.(pc := Idle, ring := s.ring.(head := Inc(s.pc.head)), results := s.results + [Cqe(Slot(s.pc.head, s.ring.k))])
    case KernelPosts(x) => s.(ring := Put(s.ring, x))
  }

  /** The slots handed out, in order. */
  function Handed(results: seq<Return>): seq<nat> {
    if results == [] then []
    else
      var last := results[|results| - 1];
      Handed(results[..|results| - 1]) + (if last.Cqe? then [last.slot] else [])
  }

  /** The completions posted so far are all; the i-th slot handed out is that of the i-th of them. */
  ghost predicate Inv<T>(s: System<T>, all: seq<T>) {
    var handed := Handed(s.results);
    && Tracks(s.ring, all, |handed|) && |all| - |handed| <= |s.ring.slots|
    && (s.pc.Loaded? || s.pc.Ready? ==> s.pc.head == s.ring.head)
    && (s.pc.Ready? ==> |handed| < |all|)
    && forall i | 0 <= i < |handed| :: handed[i] == i % |s.ring.slots|
  }

  function History<T>(all: seq<T>, t: Step<T>): seq<T> {
    if t.KernelPosts? then all + [t.x] else all
  }

  lemma {:induction false} HandedGrows(results: seq<Return>, x: Return)
    ensures Handed(results + [x]) == Handed(results) + if x.Cqe? then [x.slot] else []
  {
    assert (results + [x])[..|results|] == results;
  }

  lemma {:induction false} CompareKeepsInv<T>(s: System<T>, all: seq<T>)
    requires Inv(s, all) && s.pc.Loaded?
    ensures Inv(Next(s, CompareTail), all)
    ensures Next(s, CompareTail).results == s.results + [Empty] <==> |Handed(s.results)| == |all|
  {
    FillCounts(s.ring, all, |Handed(s.results)|);
    HandedGrows(s.results, Empty);
  }

  lemma {:induction false} StoreKeepsInv<T>(s: System<T>, all: seq<T>)
    requires Inv(s, all) && s.pc.Ready?
    ensures Inv(Next(s, StoreHead), all)
  {
    var taken := |Handed(s.results)|;
    AdvanceTracks(s.ring, all, taken);
    SlotOf(taken, s.ring.k);
    HandedGrows(s.results, Cqe(Slot(s.pc.head, s.ring.k)));
  }

  lemma {:induction false} PostKeepsInv<T>(s: System<T>, all: seq<T>, x: T)
    requires Inv(s, all) && Fill(s.ring) < |s.ring.slots|
    ensures Inv(Next(s, KernelPosts(x)), all + [x])
  {
    FillCounts(s.ring, all, |Handed(s.results)|);
    PutTracks(s.ring, all, |Handed(s.results)|, x);
  }

  /** Every step keeps the invariant, and get_cqe fails exactly if, when it reads the tail, every
      completion posted so far has been handed out. */
  lemma {:induction false} StepKeepsInv<T>(s: System<T>, all: seq<T>, t: Step<T>)
    requires Inv(s, all) && Enabled(s, t)
    ensures Inv(Next(s, t), History(all, t))
    ensures Next(s, t).results == s.results + [Empty] <==> t.CompareTail? && |Handed(s.results)| == |all|
  {
    match t
    case LoadHead =>
    case CompareTail => CompareKeepsInv(s, all);
    case StoreHead => StoreKeepsInv(s, all);
    case KernelPosts(x) => PostKeepsInv(s, all, x);
  }

  ghost predicate Legal<T>(s: System<T>, steps: seq<Step<T>>)
    requires Sized(s.ring)
    decreases |steps|
  {
    steps == [] || (Enabled(s, steps[0]) && Legal(Next(s, steps[0]), steps[1..]))
  }

  function Final<T>(s: System<T>, steps: seq<Step<T>>): System<T>
    requires Sized(s.ring) && Legal(s, steps)
    decreases |steps|
  {
    if steps == [] then s else Final(Next(s, steps[0]), steps[1..])
  }

  function Posted<T>(steps: seq<Step<T>>): seq<T> {
    if steps == [] then []
    else (if steps[0].KernelPosts? then [steps[0].x] else []) + Posted(steps[1..])
  }

  lemma {:induction false} RunKeepsInv<T>(s: System<T>, all: seq<T>, steps: seq<Step<T>>)
    requires Inv(s, all) && Legal(s, steps)
    ensures Inv(Final(s, steps), all + Posted(steps))
    decreases |steps|
  {
    if steps == [] {
      assert all + Posted(steps) == all;
    } else {
      StepKeepsInv(s, all, steps[0]);
      RunKeepsInv(Next(s, steps[0]), History(all, steps[0]), steps[1..]);
      HistoryGrows(all, steps);
    }
  }

  lemma {:induction false} HistoryGrows<T>(all: seq<T>, steps: seq<Step<T>>)
    requires steps != []
    ensures History(all, steps[0]) + Posted(steps[1..]) == all + Posted(steps)
  {
  }

  /** In every interleaving with the kernel: at most |all| completions have been handed out, the i-th
      pointer is to the slot of the i-th completion, and reading through it gives that completion
      exactly until the kernel has posted a whole ring more. */
  lemma {:induction false} EveryCompletionOnce<T>(k: nat, slots: seq<T>, steps: seq<Step<T>>, i: nat)
    requires k <= 31 && |slots| == Pow2(k) && Legal(System(Ring(k, 0, 0, slots), Idle, []), steps)
    requires i < |Handed(Final(System(Ring(k, 0, 0, slots), Idle, []), steps).results)|
    ensures var s := Final(System(Ring(k, 0, 0, slots), Idle, []), steps);
            var all, handed := Posted(steps), Handed(s.results);
            && |handed| <= |all| <= |handed| + Pow2(k) && |s.ring.slots| == Pow2(k)
            && handed[i] == i % Pow2(k) < Pow2(k)
            && s.ring.slots[handed[i]] == all[Latest(i, |all|, Pow2(k))]
            && (Latest(i, |all|, Pow2(k)) == i <==> |all| <= i + Pow2(k))
  {
    var s0 := System(Ring(k, 0, 0, slots), Idle, []);
    var s := Final(s0, steps);
    RunKeepsInv(s0, [], steps);
    SizeKept(s0, steps);
    var all := Posted(steps);
    assert [] + all == all;
    SlotHolds(s.ring.slots, all, i);
  }

  lemma {:induction false} SizeKept<T>(s: System<T>, steps: seq<Step<T>>)
    requires Sized(s.ring) && Legal(s, steps)
    ensures |Final(s, steps).ring.slots| == |s.ring.slots|
    decreases |steps|
  {
    if steps != [] {
      SizeKept(Next(s, steps[0]), steps[1..]);
    }
  }

  // ---------- the rings of an instance ----------

  /** The fields that prep_sqe fills in. */
  datatype Sqe = Sqe(opcode: int, fd: int, addr: int, len: int, off: int, userData: int, flags: int)

  class SubmissionRing {
    const k: nat
    var head: uint32
    var tail: uint32
    var index: array<nat>
    var sqes: array<Sqe>
    ghost var prepared: seq<Sqe>
    ghost var taken: nat

    function View(): Ring<Sqe>
      reads this, sqes
    {
      Ring(k, head, tail, sqes[..])
    }

    ghost predicate Valid()
      reads this, index, sqes
    {
      && Tracks(View(), prepared, taken) && index.Length == Pow2(k)
      && forall j | 0 <= j < index.Length && j < |prepared| :: index[j] == j
    }

    constructor (k: nat, sqes: array<Sqe>)
      requires k <= 31 && sqes.Length == Pow2(k)
      ensures Valid() && fresh(index) && this.sqes == sqes && prepared == [] && taken == 0
      ensures View() == Ring(k, 0, 0, sqes[..])
    {
      this.k, this.sqes := k, sqes;
      head, tail, prepared, taken := 0, 0, [], 0;
      index := new nat[Pow2(k)];
    }

    /** prep_sqe: it does not look at the head. */
    method PrepSqe(op: int, fd: int, addr: int, len: int, off: int, userData: int, flags: int)
      requires Valid()
      modifies this`tail, this`prepared, index, sqes
      ensures Valid() && prepared == old(prepared) + [Sqe(op, fd, addr, len, off, userData, flags)]
      ensures View() == Put(old(View()), Sqe(op, fd, addr, len, off, userData, flags))
    {
      var nextTail := Inc(tail);
      var i := Slot(tail, k);
      var sqe := Sqe(op, fd, addr, len, off, userData, flags);
      PutTracks(View(), prepared, taken, sqe);
      SlotReached(|prepared|, k);
      sqes[i] := sqe;
      index[i] := i;
      if tail != nextTail {
        tail := nextTail;
      }
      prepared := prepared + [sqe];
      assert View() == Put(old(View()), sqe);
    }

    /** The kernel takes the entry at the head, through the index array: the next one prepared, unless
        more than a ring has been prepared since. */
    method Consume() returns (x: Sqe)
      requires Valid() && head != tail
      modifies this`head, this`taken
      ensures Valid() && taken == old(taken) + 1 <= |prepared|
      ensures x == Peek(old(View())) && View() == Advance(old(View()))
      ensures x == prepared[Latest(old(taken), |prepared|, Pow2(k))]
      ensures |prepared| - old(taken) <= Pow2(k) ==> x == prepared[old(taken)]
    {
      SlotReached(taken, k);
      PeekIs(View(), prepared, taken);
      AdvanceTracks(View(), prepared, taken);
      x := sqes[index[Slot(head, k)]];
      head := Inc(head);
      taken := taken + 1;
    }
  }

  /** The slots are first used in ascending order. */
  lemma {:induction false} SlotReached(n: nat, k: nat)
    requires k <= 31
    ensures Slot(n % WRAP, k) <= n && (n < Pow2(k) ==> Slot(n % WRAP, k) == n)
  {
    SlotOf(n, k);
    DivMod(n, Pow2(k));
    if n < Pow2(k) {
      DivModIs(n, Pow2(k), 0, n);
    } else {
      assert n % Pow2(k) < Pow2(k);
    }
  }

  class CompletionRing<T> {
    const k: nat
    var head: uint32
    var tail: uint32
    var cqes: array<T>
    ghost var posted: seq<T>
    ghost var taken: nat

    function View(): Ring<T>
      reads this, cqes
    {
      Ring(k, head, tail, cqes[..])
    }

    ghost predicate Valid()
      reads this, cqes
    {
      Tracks(View(), posted, taken) && |posted| - taken <= Pow2(k)
    }

    constructor (k: nat, cqes: array<T>)
      requires k <= 31 && cqes.Length == Pow2(k)
      ensures Valid() && this.cqes == cqes && posted == [] && taken == 0
      ensures View() == Ring(k, 0, 0, cqes[..])
    {
      this.k, this.cqes := k, cqes;
      head, tail, posted, taken := 0, 0, [], 0;
    }

    /** The kernel posts a completion; it does so only while there is room. */
    method Post(x: T)
      requires Valid() && Fill(View()) < Pow2(k)
      modifies this`tail, this`posted, cqes
      ensures Valid() && posted == old(posted) + [x]
      ensures View() == Put(old(View()), x)
    {
      FillCounts(View(), posted, taken);
      PutTracks(View(), posted, taken, x);
      cqes[Slot(tail, k)] := x;
      tail := Inc(tail);
      posted := posted + [x];
      assert View() == Put(old(View()), x);
    }

    /** get_cqe: fails exactly if every completion has been taken, and points to the next one otherwise. */
    method GetCqe() returns (ret: int, slot: nat)
      requires Valid()
      modifies this`head, this`taken
      ensures Valid() && (ret == 0 || ret == -1)
      ensures ret == -1 <==> old(taken) == |posted|
      ensures ret == -1 ==> View() == old(View()) && taken == old(taken)
      ensures ret == 0 ==> slot < cqes.Length && cqes[slot] == posted[old(taken)] && taken == old(taken) + 1
      ensures ret == 0 ==> View() == Advance(old(View()))
    {
      FillCounts(View(), posted, taken);
      var h := head;
      if h == tail {
        return -1, 0;
      }
      PeekIs(View(), posted, taken);
      AdvanceTracks(View(), posted, taken);
      slot := Slot(h, k);
      head := Inc(h);
      taken := taken + 1;
      ret := 0;
    }
  }
}
