/** The chunked layout of the test memory: which backends are used, how the chunks are numbered, and
    which addresses and file offsets they get. */
module ChunkLayout {
  import opened Arith

  /** Pages in a chunk, and bytes in a page. */
  const CHUNKSIZE: int := 0x1000
  const PS: int := 4096
  const NR_BACKEND_TYPES: int := 11

  // ---------- backends ----------

  /** backend_bitmap, as the set of its bits. */
  type Bitmap = set<nat>

  /** The backends from i on that are set in the bitmap, ascending. */
  function Backends(bitmap: Bitmap, i: nat): seq<nat>
    decreases NR_BACKEND_TYPES - i
  {
    if i >= NR_BACKEND_TYPES then []
    else (if i in bitmap then [i] else []) + Backends(bitmap, i + 1)
  }

  function Enabled(bitmap: Bitmap): seq<nat> {
    Backends(bitmap, 0)
  }

  predicate Ascending(s: seq<nat>) {
    forall x, y | 0 <= x < y < |s| :: s[x] < s[y]
  }

  lemma {:induction false} AscendingCons(b: nat, s: seq<nat>)
    requires Ascending(s) && forall c | c in s :: b < c
    ensures Ascending([b] + s)
  {
    var t := [b] + s;
    forall x, y | 0 <= x < y < |t| ensures t[x] < t[y] {
      assert t[y] == s[y - 1];
      assert t[y] in s;
    }
  }

  lemma {:induction false} BackendsMembers(bitmap: Bitmap, i: nat)
    ensures forall b: nat :: b in Backends(bitmap, i) <==> i <= b < NR_BACKEND_TYPES && b in bitmap
    decreases NR_BACKEND_TYPES - i
  {
    if i < NR_BACKEND_TYPES {
      BackendsMembers(bitmap, i + 1);
    }
  }

  /** Ascending, from i on. */
  predicate AscendingFrom(s: seq<nat>, i: nat) {
    s == [] || (i <= s[0] && AscendingFrom(s[1..], s[0] + 1))
  }

  lemma {:induction false} FromAscends(s: seq<nat>, i: nat)
    requires AscendingFrom(s, i)
    ensures Ascending(s) && forall b | b in s :: i <= b
  {
    if s != [] {
      FromAscends(s[1..], s[0] + 1);
      AscendingCons(s[0], s[1..]);
      assert s == [s[0]] + s[1..];
    }
  }

  lemma {:induction false} FromLater(s: seq<nat>, i: nat)
    requires AscendingFrom(s, i + 1)
    ensures AscendingFrom(s, i) && AscendingFrom([i] + s, i)
  {
    assert ([i] + s)[1..] == s;
  }

  lemma {:induction false} BackendsAscend(bitmap: Bitmap, i: nat)
    ensures AscendingFrom(Backends(bitmap, i), i)
    decreases NR_BACKEND_TYPES - i
  {
    if i < NR_BACKEND_TYPES {
      var rest := Backends(bitmap, i + 1);
      BackendsAscend(bitmap, i + 1);
      FromLater(rest, i);
      assert [] + rest == rest;
    }
  }

  lemma {:induction false} BackendsCount(bitmap: Bitmap, i: nat)
    ensures i <= NR_BACKEND_TYPES ==> |Backends(bitmap, i)| <= NR_BACKEND_TYPES - i
    decreases NR_BACKEND_TYPES - i
  {
    if i < NR_BACKEND_TYPES {
      BackendsCount(bitmap, i + 1);
    }
  }

  /** Exactly the backends set in the bitmap, each once, in ascending order. */
  lemma {:induction false} EnabledExact(bitmap: Bitmap)
    ensures forall b: nat :: b in Enabled(bitmap) <==> b < NR_BACKEND_TYPES && b in bitmap
    ensures Ascending(Enabled(bitmap)) && |Enabled(bitmap)| <= NR_BACKEND_TYPES
  {
    BackendsMembers(bitmap, 0);
    BackendsAscend(bitmap, 0);
    BackendsCount(bitmap, 0);
    FromAscends(Backends(bitmap, 0), 0);
  }

  /** What is left to do when the loop variable is i. */
  function Rest(bitmap: Bitmap, i: nat): seq<nat> {
    if i < NR_BACKEND_TYPES then [i] + Backends(bitmap, i + 1) else []
  }

  /** find_next_backend. */
  method FindNextBackend(bitmap: Bitmap, start: nat) returns (i: nat)
    requires start <= NR_BACKEND_TYPES
    ensures start <= i <= NR_BACKEND_TYPES
    ensures Backends(bitmap, start) == Rest(bitmap, i)
  {
    i := start;
    while i < NR_BACKEND_TYPES
      invariant start <= i <= NR_BACKEND_TYPES
      invariant Backends(bitmap, start) == Backends(bitmap, i)
    {
      if i in bitmap {
        break;
      }
      i := i + 1;
    }
  }

  /** get_nr_mem_types. */
  method GetNrMemTypes(bitmap: Bitmap) returns (j: nat)
    ensures j == |Enabled(bitmap)|
  {
    j := 0;
    ghost var all := Enabled(bitmap);
    var i := FindNextBackend(bitmap, 0);
    while i < NR_BACKEND_TYPES
      invariant i <= NR_BACKEND_TYPES
      invariant |all| == j + |Rest(bitmap, i)|
      decreases NR_BACKEND_TYPES - i
    {
      j := j + 1;
      i := FindNextBackend(bitmap, i + 1);
    }
  }

  // ---------- chunks ----------

  /** nrP pages are cut into chunks; nr_p is a positive int. */
  predicate PageCount(nrP: int) {
    1 <= nrP < 0x8000_0000
  }

  function NrChunk(nrP: int): (n: int)
    requires PageCount(nrP)
    ensures 1 <= n <= 0x8_0000 && (n - 1) * CHUNKSIZE < nrP <= n * CHUNKSIZE
  {
    (nrP - 1) / CHUNKSIZE + 1
  }

  /** get_size_of_chunked_mmap_area, in bytes. */
  function ChunkBytes(nrP: int, i: nat): (s: int)
    requires PageCount(nrP)
    ensures PS <= s <= CHUNKSIZE * PS
  {
    if i % NrChunk(nrP) == NrChunk(nrP) - 1 then ((nrP - 1) % CHUNKSIZE + 1) * PS else CHUNKSIZE * PS
  }

  datatype Chunk = Chunk(memType: nat, size: int, addr: int, offset: int)

  /** Address relative to the base, and file offset: both products start with an int multiplication. */
  function AddressOf(k: nat): int {
    Int32(k * CHUNKSIZE) * PS
  }

  /** Chunk k is chunk k % n of backend number k / n. */
  function ChunkAt(bitmap: Bitmap, nrP: int, k: nat): Chunk
    requires PageCount(nrP) && k < |Enabled(bitmap)| * NrChunk(nrP)
  {
    var n := NrChunk(nrP);
    IndexInRange(n, |Enabled(bitmap)|, k);
    Chunk(Enabled(bitmap)[k / n], ChunkBytes(nrP, k % n), AddressOf(k), Int32(k % n * CHUNKSIZE) * PS)
  }

  /** Every index below types * n is i + j * n for some i < n and j < types. */
  lemma {:induction false} IndexInRange(n: nat, types: nat, k: nat)
    requires n > 0 && k < types * n
    ensures 0 <= k % n < n && 0 <= k / n < types && k % n + k / n * n == k
  {
    DivMod(k, n);
    if k / n < 0 {
      Multiples(n, k / n, 0);
    }
    if types < k / n {
      Multiples(n, types, k / n);
    }
  }

  /** For i < n and j < types, i + j * n is an index, and no other pair has the same index. */
  lemma {:induction false} IndexIsUnique(n: nat, types: nat, i: nat, j: nat)
    requires i < n && j < types
    ensures 0 <= i + j * n < types * n && (i + j * n) % n == i && (i + j * n) / n == j
  {
    Multiples(n, j, types);
    DivModIs(i + j * n, n, j, i);
  }

  lemma {:induction false} ChunkOf(bitmap: Bitmap, nrP: int, i: nat, j: nat)
    requires PageCount(nrP) && i < NrChunk(nrP) && j < |Enabled(bitmap)|
    ensures 0 <= i + j * NrChunk(nrP) < |Enabled(bitmap)| * NrChunk(nrP)
    ensures var k := i + j * NrChunk(nrP);
            ChunkAt(bitmap, nrP, k) ==
            Chunk(Enabled(bitmap)[j], ChunkBytes(nrP, i), Int32(k * CHUNKSIZE) * PS, Int32(i * CHUNKSIZE) * PS)
  {
    IndexIsUnique(NrChunk(nrP), |Enabled(bitmap)|, i, j);
  }

  /** What chunk i of backend j, the k-th in all, is to be: the j-th enabled backend, an address, and a stretch of the file that
      ends where the next one starts, the last one with the last page. */
  ghost predicate Describes(c: Chunk, bitmap: Bitmap, nrP: int, i: nat, j: nat, k: nat)
    requires PageCount(nrP) && j < |Enabled(bitmap)|
  {
    && c.memType == Enabled(bitmap)[j] && c.offset == i * (CHUNKSIZE * PS)
    && c.offset + c.size == (if i + 1 < NrChunk(nrP) then (i + 1) * (CHUNKSIZE * PS) else nrP * PS)
    && c.addr == Place(k) * (CHUNKSIZE * PS)
  }

  lemma {:induction false} ChunkDescribed(bitmap: Bitmap, nrP: int, i: nat, j: nat)
    requires PageCount(nrP) && i < NrChunk(nrP) && j < |Enabled(bitmap)|
    ensures 0 <= i + j * NrChunk(nrP) < |Enabled(bitmap)| * NrChunk(nrP)
    ensures var k := i + j * NrChunk(nrP); Describes(ChunkAt(bitmap, nrP, k), bitmap, nrP, i, j, k)
  {
    ChunkOf(bitmap, nrP, i, j);
    OffsetsTile(nrP, i);
    AddressIsPlace(i + j * NrChunk(nrP));
  }

  /** The first m chunks are filled in. */
  ghost predicate FilledTo(bitmap: Bitmap, nrP: int, chunkset: array<Chunk>, m: int)
    requires PageCount(nrP) && chunkset.Length == |Enabled(bitmap)| * NrChunk(nrP)
    reads chunkset
  {
    m <= chunkset.Length && forall k | 0 <= k < m :: chunkset[k] == ChunkAt(bitmap, nrP, k)
  }

  lemma {:induction false} DropOne(all: seq<nat>, j: nat, b: nat, rest: seq<nat>)
    requires j <= |all| && all[j..] == [b] + rest
    ensures j < |all| && all[j] == b && all[j + 1..] == rest
  {
    assert |all[j..]| == 1 + |rest|;
    assert all[j] == all[j..][0];
    assert all[j + 1..] == all[j..][1..];
  }

  /** do_mmap: every chunk is filled in. */
  method DoMmap(bitmap: Bitmap, nrP: int, chunkset: array<Chunk>)
    requires PageCount(nrP) && chunkset.Length == |Enabled(bitmap)| * NrChunk(nrP)
    modifies chunkset
    ensures forall k | 0 <= k < chunkset.Length :: chunkset[k] == ChunkAt(bitmap, nrP, k)
  {
    var j := 0;
    ghost var all := Enabled(bitmap);
    var backend := FindNextBackend(bitmap, 0);
    while backend < NR_BACKEND_TYPES
      invariant backend <= NR_BACKEND_TYPES && j <= |all|
      invariant all[j..] == Rest(bitmap, backend)
      invariant FilledTo(bitmap, nrP, chunkset, j * NrChunk(nrP))
      decreases NR_BACKEND_TYPES - backend
    {
      DropOne(all, j, backend, Backends(bitmap, backend + 1));
      FillRow(bitmap, nrP, chunkset, backend, j);
      j := j + 1;
      backend := FindNextBackend(bitmap, backend + 1);
    }
    assert j == |all|;
  }

  /** The inner loop. */
  method FillRow(bitmap: Bitmap, nrP: int, chunkset: array<Chunk>, backend: nat, j: nat)
    requires PageCount(nrP) && chunkset.Length == |Enabled(bitmap)| * NrChunk(nrP)
    requires j < |Enabled(bitmap)| && backend == Enabled(bitmap)[j]
    requires FilledTo(bitmap, nrP, chunkset, j * NrChunk(nrP))
    modifies chunkset
    ensures FilledTo(bitmap, nrP, chunkset, (j + 1) * NrChunk(nrP))
  {
    var n := NrChunk(nrP);
    for i := 0 to n
      invariant FilledTo(bitmap, nrP, chunkset, i + j * n)
    {
      var k := i + j * n;
      ChunkOf(bitmap, nrP, i, j);
      Fill(bitmap, nrP, chunkset, k, Chunk(backend, ChunkBytes(nrP, i), Int32(k * CHUNKSIZE) * PS, Int32(i * CHUNKSIZE) * PS));
    }
    Distribute(1, j, n);
  }

  method Fill(bitmap: Bitmap, nrP: int, chunkset: array<Chunk>, k: nat, chunk: Chunk)
    requires PageCount(nrP) && chunkset.Length == |Enabled(bitmap)| * NrChunk(nrP)
    requires k < chunkset.Length && chunk == ChunkAt(bitmap, nrP, k) && FilledTo(bitmap, nrP, chunkset, k)
    modifies chunkset
    ensures FilledTo(bitmap, nrP, chunkset, k + 1)
  {
    chunkset[k] := chunk;
  }

  // ---------- what the chunks cover ----------

  /** File offsets and sizes of one backend tile the nrP pages: each chunk starts where the one before
      it ends, the first at 0, and the last ends with the last page. */
  lemma {:induction false} OffsetsTile(nrP: int, i: nat)
    requires PageCount(nrP) && i < NrChunk(nrP)
    ensures Int32(i * CHUNKSIZE) * PS == i * CHUNKSIZE * PS
    ensures i * CHUNKSIZE * PS + ChunkBytes(nrP, i) ==
            if i + 1 < NrChunk(nrP) then (i + 1) * CHUNKSIZE * PS else nrP * PS
  {
    var n := NrChunk(nrP);
    DivModIs(i, n, 0, i);
  }

  /** Every page lies in exactly one chunk. */
  lemma {:induction false} PageInOneChunk(nrP: int, page: nat)
    requires PageCount(nrP) && page < nrP
    ensures page / CHUNKSIZE < NrChunk(nrP)
    ensures forall i: nat | i < NrChunk(nrP) ::
              (i * CHUNKSIZE * PS <= page * PS < i * CHUNKSIZE * PS + ChunkBytes(nrP, i) <==> i == page / CHUNKSIZE)
  {
    forall i: nat | i < NrChunk(nrP)
      ensures i * CHUNKSIZE * PS <= page * PS < i * CHUNKSIZE * PS + ChunkBytes(nrP, i) <==> i == page / CHUNKSIZE
    {
      OffsetsTile(nrP, i);
    }
  }

  /** Chunk k starts at a multiple of the chunk size; the multiple is k as long as k * CHUNKSIZE is an int. */
  function Place(k: nat): int {
    (k + 0x8_0000) % 0x10_0000 - 0x8_0000
  }

  lemma {:induction false} AddressIsPlace(k: nat)
    ensures AddressOf(k) == Place(k) * (CHUNKSIZE * PS)
    ensures AddressOf(k) == k * (CHUNKSIZE * PS) <==> k < 0x8_0000
  {
  }

  predicate Disjoint(a: int, la: int, b: int, lb: int) {
    a + la <= b || b + lb <= a
  }

  /** The address ranges of two chunks do not meet. */
  predicate Apart(nrP: int, k: nat, l: nat)
    requires PageCount(nrP)
  {
    Disjoint(AddressOf(k), ChunkBytes(nrP, k), AddressOf(l), ChunkBytes(nrP, l))
  }

  lemma {:induction false} ApartIff(nrP: int, k: nat, l: nat)
    requires PageCount(nrP)
    ensures Apart(nrP, k, l) <==> Place(k) != Place(l)
  {
    AddressIsPlace(k);
    AddressIsPlace(l);
  }

  lemma {:induction false} PlacesDiffer(k: nat, l: nat)
    requires k < l < 0x10_0000
    ensures Place(k) != Place(l)
  {
    CloseRemaindersDiffer(k + 0x8_0000, l + 0x8_0000, 0x10_0000);
  }

  lemma {:induction false} ApartBelow(nrP: int, k: nat, l: nat)
    requires PageCount(nrP) && k < l < 0x10_0000
    ensures Apart(nrP, k, l)
  {
    PlacesDiffer(k, l);
    ApartIff(nrP, k, l);
  }

  lemma {:induction false} SamePlace(nrP: int, k: nat)
    requires PageCount(nrP)
    ensures !Apart(nrP, k, k + 0x10_0000)
  {
    ApartIff(nrP, k, k + 0x10_0000);
  }

  /** The address ranges of the chunks are pairwise disjoint exactly up to 2^20 chunks. */
  lemma {:induction false} AddressesDisjointIff(nrP: int, total: nat)
    requires PageCount(nrP)
    ensures (forall k: nat, l: nat | k < l < total :: Apart(nrP, k, l)) <==> total <= 0x10_0000
  {
    if total <= 0x10_0000 {
      forall k: nat, l: nat | k < l < total ensures Apart(nrP, k, l) {
        ApartBelow(nrP, k, l);
      }
    } else {
      SamePlace(nrP, 0);
    }
  }
}
