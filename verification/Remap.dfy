/** Remapping every chunk to a shifted address and back. */
module Remap {
  import opened Wrappers
  import opened Arith
  import ChunkLayout

  /** A page, named by the chunk it was allocated for and its number in there. */
  datatype Page = Page(chunk: nat, number: nat)

  /** What is mapped. All addresses that are moved are whole chunk sizes away from the base, so a place
      in memory is a chunk-sized slot, relative to the base, and a page number in it. */
  type Memory = (int, nat) -> Option<Page>

  /** n chunks for each of the backends; the last chunk of a backend has only last pages. */
  datatype Shape = Shape(n: nat, types: nat, last: nat)

  /** As many slots as the int products in the addresses can tell apart. */
  const SLOTS: int := 0x10_0000

  /** No two chunks have the same address; with more chunks do_mmap gives up. */
  predicate Valid(s: Shape) {
    1 <= s.n && 1 <= s.types && 1 <= s.last <= ChunkLayout.CHUNKSIZE && s.types * s.n <= SLOTS
  }

  /** The slot of chunk k before any move. */
  function Place(k: nat): int {
    ChunkLayout.Place(k)
  }

  function Pages(s: Shape, k: nat): (len: nat)
    requires Valid(s)
    ensures 1 <= len <= ChunkLayout.CHUNKSIZE
  {
    if k % s.n == s.n - 1 then s.last else ChunkLayout.CHUNKSIZE
  }

  /** int offset = nr_chunk * CHUNKSIZE * PS */
  function Offset(n: nat): int {
    Int32(Int32(n * ChunkLayout.CHUNKSIZE) * ChunkLayout.PS)
  }

  /** The offset in chunk sizes. */
  function Shift(n: nat): int {
    (n + 128) % 256 - 128
  }

  lemma {:induction false} OffsetIsShift(n: nat)
    ensures Offset(n) == Shift(n) * (ChunkLayout.CHUNKSIZE * ChunkLayout.PS)
  {
    var o := Shift(n);
    var a, q := (n - o) / 256, (n * 4096 + 0x8000_0000) / 0x1_0000_0000;
    assert n == 256 * a + o;
    assert Int32(n * 4096) == n * 4096 - q * 0x1_0000_0000;
    DivModIs(Int32(n * 4096) * 4096 + 0x8000_0000, 0x1_0000_0000, a - q * 4096, o * 0x100_0000 + 0x8000_0000);
  }

  // ---------- one call of mremap ----------

  predicate Mapped(m: Memory, slot: int, len: nat) {
    forall w: nat | w < len :: m(slot, w).Some?
  }

  predicate Free(m: Memory, slot: int, len: nat) {
    forall w: nat | w < len :: m(slot, w).None?
  }

  /** MREMAP_FIXED: what was mapped at the destination is gone. */
  function Move(m: Memory, src: int, len: nat, dst: int): Memory {
    (x: int, w: nat) =>
      if x == dst && w < len then m(src, w)
      else if x == src && w < len then None
      else m(x, w)
  }

  /** The call fails if the ranges overlap or the source is not mapped. */
  predicate Moves(m: Memory, src: int, len: nat, dst: int) {
    src != dst && Mapped(m, src, len)
  }

  /** __mremap_chunk for chunk k, by d slots from where the chunk is when all chunks are a slots away. */
  function Remapped(m: Memory, s: Shape, k: nat, a: int, d: int): Memory
    requires Valid(s)
  {
    var src := Place(k) + a;
    if Moves(m, src, Pages(s, k), src + d) then Move(m, src, Pages(s, k), src + d) else m
  }

  predicate Works(m: Memory, s: Shape, k: nat, a: int, d: int)
    requires Valid(s)
  {
    Moves(m, Place(k) + a, Pages(s, k), Place(k) + a + d)
  }

  /** do_work_memory from chunk i of backend j on: after a failure the rest of the backend is left out. */
  function Work(m: Memory, s: Shape, a: int, d: int, j: nat, i: nat): Memory
    requires Valid(s) && j <= s.types && i <= s.n
    decreases s.types - j, s.n - i
  {
    if j == s.types then m
    else if i == s.n then Work(m, s, a, d, j + 1, 0)
    else
      var k := i + j * s.n;
      if Works(m, s, k, a, d) then Work(Remapped(m, s, k, a, d), s, a, d, j, i + 1)
      else Work(m, s, a, d, j + 1, 0)
  }

  /** Where the chunks are when a pass starts, and by how much it moves them, in chunk sizes. */
  function Away(s: Shape, back: bool): int {
    if back then Shift(s.n) else 0
  }

  function By(s: Shape, back: bool): int {
    if back then -Shift(s.n) else Shift(s.n)
  }

  /** One pass of do_work_memory over __mremap_chunk. */
  function Pass(m: Memory, s: Shape, back: bool, j: nat, i: nat): Memory
    requires Valid(s) && j <= s.types && i <= s.n
  {
    Work(m, s, Away(s, back), By(s, back), j, i)
  }

  /** Forward by the offset, then backward, as do_mremap_stress does. */
  function RoundTrip(m: Memory, s: Shape): Memory
    requires Valid(s)
  {
    Pass(Pass(m, s, false, 0, 0), s, true, 0, 0)
  }

  /** One turn of the loop of do_mremap_stress. */
  method StressTurn(m: Memory, s: Shape) returns (r: Memory)
    requires Valid(s)
    ensures r == RoundTrip(m, s)
  {
    r := DoWorkMemory(m, s, false);
    r := DoWorkMemory(r, s, true);
  }

  /** The loops of do_work_memory over __mremap_chunk. */
  method DoWorkMemory(m: Memory, s: Shape, back: bool) returns (r: Memory)
    requires Valid(s)
    ensures r == Pass(m, s, back, 0, 0)
  {
    r := m;
    var j := 0;
    while j < s.types
      invariant 0 <= j <= s.types
      invariant Pass(m, s, back, 0, 0) == Pass(r, s, back, j, 0)
    {
      r := WorkBackend(r, s, back, j);
      j := j + 1;
    }
  }

  /** The inner loop. */
  method WorkBackend(m: Memory, s: Shape, back: bool, j: nat) returns (r: Memory)
    requires Valid(s) && j < s.types
    ensures Pass(m, s, back, j, 0) == Pass(r, s, back, j + 1, 0)
  {
    r := m;
    var i := 0;
    ghost var goal := Pass(m, s, back, j, 0);
    while i < s.n
      invariant 0 <= i <= s.n
      invariant goal == Pass(r, s, back, j, i)
    {
      var k := i + j * s.n;
      var ok;
      r, ok := MremapChunk(r, s, k, back, j, i);
      if !ok {
        return;
      }
      i := i + 1;
    }
  }

  /** The effect of a call on the memory: the pages of the chunk are at the destination and no longer at the
      source, and everything else is as before; a failed call changes nothing. */
  ghost predicate Moved(m: Memory, src: int, len: nat, dst: int, r: Memory) {
    && (forall w: nat | w < len :: r(dst, w) == m(src, w) && r(src, w).None?)
    && (forall x: int, w: nat | w >= len || (x != src && x != dst) :: r(x, w) == m(x, w))
  }

  /** __mremap_chunk on chunk k, which is chunk i of backend j. The offset is computed in bytes. */
  method MremapChunk(m: Memory, s: Shape, k: nat, back: bool, ghost j: nat, ghost i: nat) returns (r: Memory, ok: bool)
    requires Valid(s) && j < s.types && i < s.n && k == i + j * s.n
    ensures ok <==> Shift(s.n) != 0 && Mapped(m, Place(k) + Away(s, back), Pages(s, k))
    ensures ok ==> Moved(m, Place(k) + Away(s, back), Pages(s, k), Place(k) + Away(s, !back), r)
    ensures !ok ==> r == m
    ensures Pass(m, s, back, j, i) == if ok then Pass(r, s, back, j, i + 1) else Pass(r, s, back, j + 1, 0)
  {
    var offset := Offset(s.n);
    OffsetIsShift(s.n);
    var o := offset / (ChunkLayout.CHUNKSIZE * ChunkLayout.PS);
    var src := if back then Place(k) + o else Place(k);
    var dst := if back then Place(k) else Place(k) + o;
    ok := Moves(m, src, Pages(s, k), dst);
    r := if ok then Move(m, src, Pages(s, k), dst) else m;
    assert ok == Works(m, s, k, Away(s, back), By(s, back)) && r == Remapped(m, s, k, Away(s, back), By(s, back));
  }

  // ---------- shifting all chunks ----------

  function Total(s: Shape): int {
    s.types * s.n
  }

  /** The slot belongs to a chunk before any move. */
  predicate Home(s: Shape, y: int) {
    -0x8_0000 <= y < 0x8_0000 && y % SLOTS < Total(s)
  }

  lemma {:induction false} PlaceOf(k: nat)
    requires k < SLOTS
    ensures -0x8_0000 <= Place(k) < 0x8_0000
    ensures forall y | -0x8_0000 <= y < 0x8_0000 :: y % SLOTS == k <==> y == Place(k)
  {
  }

  function PageAt(s: Shape, k: nat, w: nat): Option<Page>
    requires Valid(s)
  {
    if w < Pages(s, k) then Some(Page(k, w)) else None
  }

  /** The chunks below k are b slots from home, the others a slots. */
  function Layout(s: Shape, a: int, b: int, k: nat, x: int, w: nat): Option<Page>
    requires Valid(s)
  {
    if Home(s, x - b) && (x - b) % SLOTS < k then PageAt(s, (x - b) % SLOTS, w)
    else if Home(s, x - a) && k <= (x - a) % SLOTS then PageAt(s, (x - a) % SLOTS, w)
    else None
  }

  ghost predicate LaidOut(m: Memory, s: Shape, a: int, b: int, k: nat)
    requires Valid(s)
  {
    forall x: int, w: nat :: m(x, w) == Layout(s, a, b, k, x, w)
  }

  /** All chunks are a slots away from home. */
  ghost predicate At(m: Memory, s: Shape, a: int)
    requires Valid(s)
  {
    LaidOut(m, s, a, a, 0)
  }

  /** A shift in which no chunk meets one that has not moved yet. */
  predicate Clear(s: Shape, d: int) {
    d % SLOTS >= Total(s)
  }

  lemma {:induction false} ClearMeets(s: Shape, d: int, k: nat)
    requires Valid(s) && Clear(s, d) && k < Total(s)
    ensures Home(s, Place(k) + d) ==> (Place(k) + d) % SLOTS < k
    ensures Home(s, Place(k) - d) ==> (Place(k) - d) % SLOTS > k
  {
    PlaceOf(k);
    SumMod(Place(k), d);
  }

  lemma {:induction false} SumMod(y: int, d: int)
    ensures (y + d) % SLOTS == y % SLOTS + d % SLOTS - if y % SLOTS + d % SLOTS < SLOTS then 0 else SLOTS
    ensures (y - d) % SLOTS == y % SLOTS - d % SLOTS + if y % SLOTS >= d % SLOTS then 0 else SLOTS
  {
    var p, e, q, f := y / SLOTS, y % SLOTS, d / SLOTS, d % SLOTS;
    if e + f < SLOTS {
      DivModIs(y + d, SLOTS, p + q, e + f);
    } else {
      DivModIs(y + d, SLOTS, p + q + 1, e + f - SLOTS);
    }
    if e >= f {
      DivModIs(y - d, SLOTS, p - q, e - f);
    } else {
      DivModIs(y - d, SLOTS, p - q - 1, e - f + SLOTS);
    }
  }

  lemma {:induction false} SourceHolds(m: Memory, s: Shape, a: int, d: int, k: nat, w: nat)
    requires Valid(s) && Clear(s, d) && k < Total(s) && LaidOut(m, s, a, a + d, k)
    ensures m(Place(k) + a, w) == PageAt(s, k, w)
  {
    PlaceOf(k);
    ClearMeets(s, d, k);
    assert Place(k) + a - (a + d) == Place(k) - d;
    assert m(Place(k) + a, w) == Layout(s, a, a + d, k, Place(k) + a, w);
  }

  lemma {:induction false} DestinationFree(m: Memory, s: Shape, a: int, d: int, k: nat, w: nat)
    requires Valid(s) && Clear(s, d) && k < Total(s) && LaidOut(m, s, a, a + d, k)
    ensures m(Place(k) + a + d, w).None?
  {
    PlaceOf(k);
    ClearMeets(s, d, k);
    assert Place(k) + a + d - a == Place(k) + d;
    assert m(Place(k) + a + d, w) == Layout(s, a, a + d, k, Place(k) + a + d, w);
  }

  /** One move of such a shift succeeds, and its destination is free. */
  lemma {:induction false} MoveFree(m: Memory, s: Shape, a: int, d: int, k: nat)
    requires Valid(s) && Clear(s, d) && k < Total(s) && LaidOut(m, s, a, a + d, k)
    ensures Works(m, s, k, a, d) && Free(m, Place(k) + a + d, Pages(s, k))
    ensures LaidOut(Remapped(m, s, k, a, d), s, a, a + d, k + 1)
  {
    var src, dst, len := Place(k) + a, Place(k) + a + d, Pages(s, k);
    forall w: nat ensures m(src, w) == PageAt(s, k, w) {
      SourceHolds(m, s, a, d, k, w);
    }
    forall w: nat ensures m(dst, w).None? {
      DestinationFree(m, s, a, d, k, w);
    }
    assert m(src, 0) == PageAt(s, k, 0);
    var m' := Move(m, src, len, dst);
    forall x: int, w: nat ensures m'(x, w) == Layout(s, a, a + d, k + 1, x, w) {
      MovedLayout(m, s, a, d, k, x, w);
    }
  }

  lemma {:induction false} MovedLayout(m: Memory, s: Shape, a: int, d: int, k: nat, x: int, w: nat)
    requires Valid(s) && Clear(s, d) && k < Total(s) && LaidOut(m, s, a, a + d, k)
    requires forall v: nat | v < Pages(s, k) :: m(Place(k) + a, v) == Some(Page(k, v))
    ensures Move(m, Place(k) + a, Pages(s, k), Place(k) + a + d)(x, w) == Layout(s, a, a + d, k + 1, x, w)
  {
    PlaceOf(k);
    ClearMeets(s, d, k);
    assert m(x, w) == Layout(s, a, a + d, k, x, w);
    assert x - (a + d) == Place(k) <==> x == Place(k) + a + d;
    assert x - a == Place(k) <==> x == Place(k) + a;
  }

  lemma {:induction false} AllShifted(m: Memory, s: Shape, a: int, b: int)
    requires Valid(s) && Total(s) >= 0 && LaidOut(m, s, a, b, Total(s))
    ensures At(m, s, b)
  {
    forall x: int, w: nat ensures m(x, w) == Layout(s, b, b, 0, x, w) {
      assert m(x, w) == Layout(s, a, b, Total(s), x, w);
    }
  }

  /** The rest of a pass, from chunk k, which is chunk i of backend j. */
  lemma {:induction false} ShiftAll(m: Memory, s: Shape, a: int, d: int, j: nat, i: nat, k: nat)
    requires Valid(s) && Clear(s, d) && j <= s.types && i <= s.n && (j == s.types ==> i == 0)
    requires k == i + j * s.n && LaidOut(m, s, a, a + d, k)
    ensures At(Work(m, s, a, d, j, i), s, a + d)
    decreases s.types - j, s.n - i
  {
    if j == s.types {
      AllShifted(m, s, a, a + d);
    } else if i == s.n {
      Distribute(1, j, s.n);
      ShiftAll(m, s, a, d, j + 1, 0, k);
    } else {
      ChunkLayout.IndexIsUnique(s.n, s.types, i, j);
      MoveFree(m, s, a, d, k);
      ShiftAll(Remapped(m, s, k, a, d), s, a, d, j, i + 1, k + 1);
    }
  }

  lemma {:induction false} ShiftPass(m: Memory, s: Shape, a: int, d: int)
    requires Valid(s) && Clear(s, d) && At(m, s, a)
    ensures At(Work(m, s, a, d, 0, 0), s, a + d)
  {
    forall x: int, w: nat ensures m(x, w) == Layout(s, a, a + d, 0, x, w) {
      assert m(x, w) == Layout(s, a, a, 0, x, w);
    }
    ShiftAll(m, s, a, d, 0, 0, 0);
  }

  // ---------- shifts that do not come back ----------

  ghost predicate Gone(m: Memory, p: Page) {
    forall x: int, w: nat :: m(x, w) != Some(p)
  }

  lemma {:induction false} GoneAfterMove(m: Memory, src: int, len: nat, dst: int, p: Page)
    requires Gone(m, p)
    ensures Gone(Move(m, src, len, dst), p)
  {
    var r := Move(m, src, len, dst);
    forall x: int, w: nat ensures r(x, w) != Some(p) {
      assert m(x, w) != Some(p) && m(src, w) != Some(p);
    }
  }

  lemma {:induction false} GoneAfterCall(m: Memory, s: Shape, k: nat, a: int, d: int, p: Page)
    requires Valid(s) && Gone(m, p)
    ensures Gone(Remapped(m, s, k, a, d), p)
  {
    GoneAfterMove(m, Place(k) + a, Pages(s, k), Place(k) + a + d, p);
  }

  /** A page that is mapped nowhere is never mapped again. */
  lemma {:induction false} GoneForGood(m: Memory, s: Shape, a: int, d: int, j: nat, i: nat, p: Page)
    requires Valid(s) && j <= s.types && i <= s.n && Gone(m, p)
    ensures Gone(Work(m, s, a, d, j, i), p)
    decreases s.types - j, s.n - i
  {
    if j < s.types {
      if i == s.n {
        GoneForGood(m, s, a, d, j + 1, 0, p);
      } else {
        var k := i + j * s.n;
        GoneAfterCall(m, s, k, a, d, p);
        GoneForGood(Remapped(m, s, k, a, d), s, a, d, j, i + 1, p);
        GoneForGood(m, s, a, d, j + 1, 0, p);
      }
    }
  }

  /** A shift that is not clear: the first move hits the chunk that many slots on. */
  lemma {:induction false} FirstMoveHits(m: Memory, s: Shape, a: int, d: int)
    requires Valid(s) && -128 <= d <= 128 && d != 0 && !Clear(s, d) && At(m, s, a)
    ensures Works(m, s, 0, a, d) && Gone(Remapped(m, s, 0, a, d), Page(d % SLOTS, 0))
  {
    var len := Pages(s, 0);
    PlaceOf(0);
    PlaceOf(d % SLOTS);
    assert Place(0) == 0 && Home(s, d) && Place(d % SLOTS) == d;
    forall w: nat ensures m(a, w) == PageAt(s, 0, w) {
      assert m(a, w) == Layout(s, a, a, 0, a, w);
    }
    var m' := Move(m, a, len, a + d);
    forall x: int, w: nat ensures m'(x, w) != Some(Page(d % SLOTS, 0)) {
      assert m(x, w) == Layout(s, a, a, 0, x, w);
    }
  }

  lemma {:induction false} ShortShiftLoses(m: Memory, s: Shape, a: int, d: int)
    requires Valid(s) && -128 <= d <= 128 && d != 0 && !Clear(s, d) && At(m, s, a)
    ensures Gone(Work(m, s, a, d, 0, 0), Page(d % SLOTS, 0))
  {
    FirstMoveHits(m, s, a, d);
    GoneForGood(Remapped(m, s, 0, a, d), s, a, d, 0, 1, Page(d % SLOTS, 0));
  }

  /** By nothing: every call fails. */
  lemma {:induction false} NoShift(m: Memory, s: Shape, a: int, j: nat, i: nat)
    requires Valid(s) && j <= s.types && i <= s.n
    ensures Work(m, s, a, 0, j, i) == m
    decreases s.types - j, s.n - i
  {
    if j < s.types {
      NoShift(m, s, a, j + 1, 0);
    }
  }

  lemma {:induction false} NotHome(m: Memory, s: Shape, c: nat)
    requires Valid(s) && c < Total(s) && Gone(m, Page(c, 0))
    ensures !At(m, s, 0)
  {
    PlaceOf(c);
    assert Layout(s, 0, 0, 0, Place(c), 0) == Some(Page(c, 0));
    assert m(Place(c), 0) != Some(Page(c, 0));
  }

  /** When a pass and the one back are both clear. */
  lemma {:induction false} ClearIff(s: Shape)
    requires Valid(s)
    ensures -128 <= Shift(s.n) < 128 && (Shift(s.n) == 0 <==> s.n % 256 == 0)
    ensures Shift(s.n) != 0 ==> (Clear(s, Shift(s.n)) && Clear(s, -Shift(s.n)) <==> s.types == 1 && s.n <= 128)
  {
    SmallMod(Shift(s.n));
    Multiples(s.n, 0, s.types);
    if s.types > 1 {
      Multiples(s.n, 1, s.types);
    }
    ShiftOf(s.n);
  }

  lemma {:induction false} ShiftOf(n: nat)
    ensures -128 <= Shift(n) < 128 && (Shift(n) == 0 <==> n % 256 == 0)
    ensures n < 128 ==> Shift(n) == n
    ensures n == 128 ==> Shift(n) == -128
  {
  }

  lemma {:induction false} SmallMod(o: int)
    requires -128 <= o <= 128
    ensures o % SLOTS == if o >= 0 then o else SLOTS + o
    ensures -o % SLOTS == if o <= 0 then -o else SLOTS - o
  {
  }

  /** Forward and back restores every page exactly if every call fails (a multiple of 256 chunks, whose
      byte offset is 0 as an int) or there is one backend with at most 128 chunks. */
  lemma {:induction false} RoundTripRestoresIff(m: Memory, s: Shape)
    requires Valid(s) && At(m, s, 0)
    ensures At(RoundTrip(m, s), s, 0) <==> s.n % 256 == 0 || (s.types == 1 && s.n <= 128)
  {
    var o := Shift(s.n);
    ClearIff(s);
    if o == 0 {
      NoShift(m, s, 0, 0, 0);
    } else if !Clear(s, o) {
      ShortShiftLoses(m, s, 0, o);
      GoneForGood(Work(m, s, 0, o, 0, 0), s, o, -o, 0, 0, Page(o % SLOTS, 0));
      NotHome(RoundTrip(m, s), s, o % SLOTS);
    } else {
      ShiftPass(m, s, 0, o);
      if !Clear(s, -o) {
        ShortShiftLoses(Work(m, s, 0, o, 0, 0), s, o, -o);
        NotHome(RoundTrip(m, s), s, -o % SLOTS);
      } else {
        ShiftPass(Work(m, s, 0, o, 0, 0), s, o, -o);
      }
    }
  }
}
