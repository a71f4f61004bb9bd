/** pickaddr: the search for an allocated page that zigzags around a random address of the range. */
module Zigzag {
  import opened Wrappers
  import opened Arith

  /** What reading the pagemap entry of a page gives. */
  datatype Entry = Unreadable | Absent | Present(pfn: nat)

  datatype Hit = Hit(virt: int, phys: int)

  /** A search: the page size is 2^k bytes, and the start lies in the range. */
  datatype Search = Search(pagemap: int -> Entry, k: nat, lo: int, hi: int, start: int)

  predicate Valid(s: Search) {
    0 <= s.lo <= s.start < s.hi
  }

  /** randaddr: a tenth of the range, and up to eight more at random, rounded down to 64 bytes. */
  predicate MayStart(lo: int, hi: int, start: int, random: int) {
    0 <= 10 * random <= 8 * (hi - lo) && start == (lo + (hi - lo) / 10 + random) / 64 * 64
  }

  /** In a range of whole pages such a start lies inside. */
  lemma {:induction false} StartsInRange(pagemap: int -> Entry, k: nat, lo: int, hi: int, start: int, random: int)
    requires 0 <= lo < hi && lo % 64 == 0 && MayStart(lo, hi, start, random)
    ensures Valid(Search(pagemap, k, lo, hi, start))
  {
    assert lo / 64 * 64 == lo;
  }

  /** The address z pages from the start. */
  function Address(s: Search, z: int): int {
    s.start + z * Pow2(s.k)
  }

  predicate InRange(s: Search, z: int) {
    s.lo <= Address(s, z) < s.hi
  }

  function Look(s: Search, z: int): Entry {
    s.pagemap(Address(s, z) / Pow2(s.k))
  }

  // ---------- the order of the probes ----------

  /** 0, +1, -1, +2, -2, ... */
  function Zig(n: nat): int {
    if n % 2 == 1 then (n + 1) / 2 else -(n / 2)
  }

  function TurnOf(z: int): nat {
    if z > 0 then 2 * z - 1 else -2 * z
  }

  /** Every distance is probed at exactly one turn. */
  lemma {:induction false} ZigIsBijection(n: nat, z: int)
    ensures Zig(n) == z <==> n == TurnOf(z)
  {
  }

  /** The value of skip after n changes. */
  function Skip(n: int): int {
    if n % 2 == 1 then n else -n
  }

  function NextSkip(skip: int): int {
    if skip <= 0 then -skip + 1 else -(skip + 1)
  }

  /** Different turns look at different pages. */
  lemma {:induction false} PagesDiffer(s: Search, x: int, y: int)
    ensures Address(s, x) / Pow2(s.k) == s.start / Pow2(s.k) + x
    ensures Address(s, x) / Pow2(s.k) == Address(s, y) / Pow2(s.k) <==> x == y
  {
    PageOf(s, x);
    PageOf(s, y);
  }

  lemma {:induction false} PageOf(s: Search, x: int)
    ensures Address(s, x) / Pow2(s.k) == s.start / Pow2(s.k) + x
    ensures Address(s, x) % Pow2(s.k) == s.start % Pow2(s.k)
  {
    var p, q := Pow2(s.k), s.start / Pow2(s.k);
    DivMod(s.start, p);
    Distribute(q, x, p);
    DivModIs(Address(s, x), p, q + x, s.start % p);
  }

  // ---------- the loop ----------

  /** The search goes on after looking z pages from the start. */
  predicate GoesOn(s: Search, z: int) {
    InRange(s, z) && Look(s, z).Absent?
  }

  ghost predicate Passed(s: Search, n: nat) {
    forall i: nat | i < n :: GoesOn(s, Zig(i))
  }

  ghost predicate StopsAt(s: Search, n: nat) {
    !GoesOn(s, Zig(n)) && Passed(s, n)
  }

  /** pfn * pagesize + (a & (pagesize - 1)) */
  function Physical(k: nat, pfn: nat, a: nat): int {
    pfn * Pow2(k) + And(a, Pow2(k) - 1)
  }

  function Answer(s: Search, z: int): Option<Hit>
    requires Valid(s)
  {
    if InRange(s, z) && Look(s, z).Present? then
      Some(Hit(Address(s, z), Physical(s.k, Look(s, z).pfn, Address(s, z))))
    else None
  }

  lemma {:induction false} NextZig(n: nat)
    ensures NextSkip(Skip(n)) == Skip(n + 1) && Zig(n + 1) == Zig(n) + Skip(n + 1)
  {
    var h := n / 2;
    if n % 2 == 1 {
      assert n == 2 * h + 1 && (n + 1) % 2 == 0;
      assert Zig(n) == h + 1 && Zig(n + 1) == -(h + 1);
    } else {
      assert n == 2 * h && (n + 1) % 2 == 1;
      assert Zig(n) == -h && Zig(n + 1) == h + 1;
    }
  }

  lemma {:induction false} AddressPlus(s: Search, z: int, d: int)
    ensures Address(s, z + d) == Address(s, z) + d * Pow2(s.k)
  {
    Distribute(z, d, Pow2(s.k));
  }

  lemma {:induction false} NextAddress(s: Search, n: nat)
    ensures NextSkip(Skip(n)) == Skip(n + 1)
    ensures Address(s, Zig(n + 1)) == Address(s, Zig(n)) + Skip(n + 1) * Pow2(s.k)
  {
    NextZig(n);
    AddressPlus(s, Zig(n), Skip(n + 1));
  }

  /** pagesize * skip is an int. */
  predicate SkipFits(s: Search, n: nat) {
    Int32(Skip(n) * Pow2(s.k)) == Skip(n) * Pow2(s.k)
  }

  /** No product that the search computes overflows. */
  ghost predicate Fits(s: Search) {
    forall n: nat | n >= 1 && Passed(s, n) :: SkipFits(s, n)
  }

  lemma {:induction false} SkipProduct(n: int, p: int)
    ensures Skip(n) * p == if n % 2 == 1 then n * p else -(n * p)
  {
    if n % 2 != 1 {
      Distribute(n, -n, p);
    }
  }

  /** The last two probes are n pages apart, so the range bounds the number of turns. */
  lemma {:induction false} RangeBoundsTurn(s: Search, n: nat)
    requires Valid(s) && InRange(s, Zig(n)) && (n > 0 ==> InRange(s, Zig(n - 1)))
    ensures n <= n * Pow2(s.k) < s.hi - s.lo || n == 0
  {
    if n > 0 {
      NextAddress(s, n - 1);
      Multiples(n, 0, Pow2(s.k));
      SkipProduct(n, Pow2(s.k));
    }
  }

  lemma {:induction false} NearSkipFits(s: Search, n: nat)
    requires s.hi - s.lo + Pow2(s.k) <= 0x8000_0000 && (n == 0 || n * Pow2(s.k) < s.hi - s.lo) && s.lo < s.hi
    ensures SkipFits(s, n + 1)
  {
    Distribute(n, 1, Pow2(s.k));
    Multiples(n + 1, 0, Pow2(s.k));
    SkipProduct(n + 1, Pow2(s.k));
  }

  /** In a range of at most 2^31 bytes less a page nothing overflows. */
  lemma {:induction false} ShortRangeFits(s: Search)
    requires Valid(s) && s.hi - s.lo + Pow2(s.k) <= 0x8000_0000
    ensures Fits(s)
  {
    forall n: nat | n >= 1 && Passed(s, n) ensures SkipFits(s, n) {
      assert GoesOn(s, Zig(n - 1));
      assert n > 1 ==> GoesOn(s, Zig(n - 2));
      RangeBoundsTurn(s, n - 1);
      NearSkipFits(s, n - 1);
    }
  }

  /** One turn of the loop. */
  lemma {:induction false} NextTurn(s: Search, n: nat)
    requires Fits(s) && Passed(s, n) && GoesOn(s, Zig(n))
    ensures NextSkip(Skip(n)) == Skip(n + 1)
    ensures Address(s, Zig(n)) + Int32(Skip(n + 1) * Pow2(s.k)) == Address(s, Zig(n + 1))
  {
    assert Passed(s, n + 1);
    assert SkipFits(s, n + 1);
    NextAddress(s, n);
  }

  /** The physical address lies in the page frame, at the offset of the virtual one. */
  predicate Translates(hit: Hit, k: nat, pfn: nat) {
    hit.phys / Pow2(k) == pfn && hit.phys % Pow2(k) == hit.virt % Pow2(k)
  }

  /** pickaddr. With an address given by the user, only that one is looked at. */
  method PickAddr(s: Search, addr: Option<nat>) returns (r: Option<Hit>)
    requires Valid(s) && (addr.None? ==> Fits(s))
    ensures addr.Some? ==> r == match s.pagemap(addr.value / Pow2(s.k))
                                case Present(pfn) => Some(Hit(addr.value, Physical(s.k, pfn, addr.value)))
                                case _ => None
    ensures addr.None? ==> exists n: nat :: StopsAt(s, n) && r == Answer(s, Zig(n))
    ensures addr.None? && r.Some? ==>
              exists n: nat :: StopsAt(s, n) && r.value.virt == s.start + Zig(n) * Pow2(s.k)
    ensures r.Some? ==> var entry := s.pagemap(r.value.virt / Pow2(s.k));
                        entry.Present? && Translates(r.value, s.k, entry.pfn)
    ensures addr.None? && r.Some? ==> s.lo <= r.value.virt < s.hi
  {
    var a := if addr.Some? then addr.value else s.start;
    var skip := 0;
    ghost var n: nat := 0;
    while true
      invariant a >= 0
      invariant addr.Some? ==> a == addr.value
      invariant addr.None? ==> skip == Skip(n) && a == Address(s, Zig(n)) && InRange(s, Zig(n))
      invariant addr.None? ==> Passed(s, n)
      decreases s.hi - s.lo - n
    {
      var entry := s.pagemap(a / Pow2(s.k));
      if entry.Unreadable? {
        return None;
      }
      if entry.Present? {
        PhysicalTranslates(s.k, entry.pfn, a);
        assert addr.None? ==> StopsAt(s, n);
        return Some(Hit(a, Physical(s.k, entry.pfn, a)));
      }
      if addr.Some? {
        return None;
      }
      assert GoesOn(s, Zig(n));
      NextTurn(s, n);
      skip := NextSkip(skip);
      a := a + Int32(skip * Pow2(s.k));
      n := n + 1;
      if a < s.lo || a >= s.hi {
        return None;
      }
      RangeBoundsTurn(s, n);
    }
  }

  // ---------- what the search finds ----------

  /** The address is translated: same offset in the page, page frame from the entry. */
  lemma {:induction false} PhysicalTranslates(k: nat, pfn: nat, a: nat)
    ensures Physical(k, pfn, a) / Pow2(k) == pfn && Physical(k, pfn, a) % Pow2(k) == a % Pow2(k)
  {
    MaskIsRemainder(a, k);
    DivMod(a, Pow2(k));
    DivModIs(Physical(k, pfn, a), Pow2(k), pfn, a % Pow2(k));
  }

  function Abs(z: int): nat {
    if z < 0 then -z else z
  }

  /** A page that is found is the nearest one, the higher of two at the same distance. */
  lemma {:induction false} FoundIsNearest(s: Search, n: nat, z: int)
    requires Valid(s) && StopsAt(s, n) && Answer(s, Zig(n)).Some?
    requires Abs(z) < Abs(Zig(n)) || (Abs(z) == Abs(Zig(n)) && z > Zig(n))
    ensures InRange(s, z) && Look(s, z).Absent?
  {
    ZigIsBijection(TurnOf(z), z);
    assert TurnOf(z) < n && GoesOn(s, Zig(TurnOf(z)));
  }

  lemma {:induction false} RangeIsConvex(s: Search, x: int, y: int, z: int)
    requires x <= y <= z && InRange(s, x) && InRange(s, z)
    ensures InRange(s, y)
  {
    if x < y {
      Multiples(Pow2(s.k), x, y);
    }
    if y < z {
      Multiples(Pow2(s.k), y, z);
    }
  }

  /** The farthest page on the other side that is looked at before z. */
  function Mirror(z: int): int {
    if z > 0 then 1 - z else -z
  }

  lemma {:induction false} EarlierInRange(s: Search, z: int, i: nat)
    requires InRange(s, z) && InRange(s, Mirror(z)) && i <= TurnOf(z)
    ensures InRange(s, Zig(i))
  {
    if z > 0 {
      RangeIsConvex(s, Mirror(z), Zig(i), z);
    } else {
      RangeIsConvex(s, z, Zig(i), Mirror(z));
    }
  }

  /** z and its mirror page are in the range, and no page before z is unreadable. */
  ghost predicate Reached(s: Search, z: int) {
    InRange(s, z) && InRange(s, Mirror(z)) && forall i: nat | i < TurnOf(z) :: !Look(s, Zig(i)).Unreadable?
  }

  /** The search succeeds exactly if some page that it reaches is present; a page whose mirror lies outside
      the range is never looked at. */
  lemma {:induction false} FindsIff(s: Search, n: nat)
    requires Valid(s) && StopsAt(s, n)
    ensures Answer(s, Zig(n)).Some? <==> exists z :: Reached(s, z) && Look(s, z).Present?
  {
    var z0 := Zig(n);
    ZigIsBijection(n, z0);
    if Answer(s, z0).Some? {
      var m := TurnOf(Mirror(z0));
      ZigIsBijection(m, Mirror(z0));
      assert m < n ==> GoesOn(s, Zig(m));
      forall i: nat | i < TurnOf(z0) ensures !Look(s, Zig(i)).Unreadable? {
        assert GoesOn(s, Zig(i));
      }
      assert Reached(s, z0);
    } else if z :| Reached(s, z) && Look(s, z).Present? {
      ZigIsBijection(TurnOf(z), z);
      assert TurnOf(z) < n ==> GoesOn(s, Zig(TurnOf(z)));
      EarlierInRange(s, z, n);
      assert false;
    }
  }

  /** A range of ten pages of 4096 bytes, searched from its second page, as randaddr may choose it. */
  function TenPages(pagemap: int -> Entry, first: nat): Search {
    Search(pagemap, 12, first * 4096, first * 4096 + 40960, first * 4096 + 4096)
  }

  lemma {:induction false} LookTenPages(pagemap: int -> Entry, first: nat, z: int)
    ensures var s := TenPages(pagemap, first);
            (InRange(s, z) <==> -1 <= z < 9) && Look(s, z) == pagemap(first + 1 + z)
  {
    assert Pow2(8) == 256;
    assert Pow2(12) == 4096;
    assert (first + 1 + z) * 4096 / 4096 == first + 1 + z;
  }

  lemma {:induction false} WholePagesRounded(first: nat)
    ensures MayStart(first * 4096, first * 4096 + 40960, first * 4096 + 4096, 0)
  {
    DivModIs(first * 4096 + 4096, 64, first * 64 + 64, 0);
  }

  lemma {:induction false} TenPagesFair(pagemap: int -> Entry, first: nat)
    ensures var s := TenPages(pagemap, first); MayStart(s.lo, s.hi, s.start, 0) && Valid(s) && Fits(s)
  {
    WholePagesRounded(first);
    assert Pow2(8) == 256;
    assert Pow2(12) == 4096;
    ShortRangeFits(TenPages(pagemap, first));
  }

  /** A present page can be missed: of these ten pages only the first four are looked at. */
  lemma {:induction false} FarPageMissed(pagemap: int -> Entry, first: nat)
    requires forall i | first <= i < first + 4 :: pagemap(i) == Absent
    requires pagemap(first + 5).Present?
    ensures var s := TenPages(pagemap, first);
            && MayStart(s.lo, s.hi, s.start, 0) && Valid(s) && Fits(s)
            && InRange(s, 4) && Look(s, 4).Present? && StopsAt(s, 4) && Answer(s, Zig(4)).None?
  {
    var s := TenPages(pagemap, first);
    TenPagesFair(pagemap, first);
    LookTenPages(pagemap, first, 4);
    LookTenPages(pagemap, first, Zig(4));
    forall i: nat | i < 4 ensures GoesOn(s, Zig(i)) {
      assert -1 <= Zig(i) <= 2;
      LookTenPages(pagemap, first, Zig(i));
    }
  }
}
