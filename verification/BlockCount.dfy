/** check_hwpoison_limit_in_buddy: counting the aligned blocks with poisoned pages in one pass. */
module BlockCount {
  import opened Arith

  /** The first page of the block of a page. */
  function Start(pfn: nat, block: nat): int
    requires block > 0
  {
    pfn - pfn % block
  }

  /** The blocks with a poisoned page among the first n pages. */
  function Blocks(poisoned: seq<bool>, block: nat, n: nat): set<int>
    requires block > 0 && n <= |poisoned|
  {
    if n == 0 then {}
    else Blocks(poisoned, block, n - 1) + if poisoned[n - 1] then {Start(n - 1, block)} else {}
  }

  /** Block starts are exactly the multiples of the block size with a poisoned page less than a block
      further on. */
  lemma {:induction false} BlocksExact(poisoned: seq<bool>, block: nat, n: nat, b: int)
    requires block > 0 && n <= |poisoned|
    ensures b in Blocks(poisoned, block, n) <==>
            exists pfn: nat | pfn < n :: poisoned[pfn] && b <= pfn < b + block && b % block == 0
  {
    if n > 0 {
      BlocksExact(poisoned, block, n - 1, b);
      StartIff(n - 1, block, b);
    }
  }

  lemma {:induction false} StartIff(pfn: nat, block: nat, b: int)
    requires block > 0
    ensures b == Start(pfn, block) <==> b <= pfn < b + block && b % block == 0
  {
    DivMod(pfn, block);
    DivModIs(Start(pfn, block), block, pfn / block, 0);
    if b <= pfn < b + block && b % block == 0 {
      DivMod(b, block);
      DivModIs(pfn, block, b / block, pfn - b);
    }
  }

  lemma {:induction false} StartsAscend(p: nat, q: nat, block: nat)
    requires block > 0 && p <= q
    ensures Start(p, block) <= Start(q, block)
  {
    DivMod(p, block);
    DivMod(q, block);
    if q / block < p / block {
      Multiples(block, q / block, p / block);
    } else if p / block < q / block {
      Multiples(block, p / block, q / block);
    }
  }

  /** The last block seen. */
  function Last(poisoned: seq<bool>, block: nat, n: nat): int
    requires block > 0 && n <= |poisoned|
  {
    if n == 0 then -1 else if poisoned[n - 1] then Start(n - 1, block) else Last(poisoned, block, n - 1)
  }

  /** It is the highest so far, so a block that differs from it is new. */
  lemma {:induction false} LastIsHighest(poisoned: seq<bool>, block: nat, n: nat, pfn: nat)
    requires block > 0 && n <= |poisoned| && n <= pfn
    ensures var last, blocks := Last(poisoned, block, n), Blocks(poisoned, block, n);
            && (blocks == {} ==> last == -1) && (blocks != {} ==> last in blocks)
            && last <= Start(pfn, block) && 0 <= Start(pfn, block) && (forall b | b in blocks :: b <= last)
  {
    StartsAscend(0, pfn, block);
    DivModIs(0, block, 0, 0);
    if n > 0 {
      LastIsHighest(poisoned, block, n - 1, n - 1);
      StartsAscend(n - 1, pfn, block);
    }
  }

  lemma {:induction false} CountStep(poisoned: seq<bool>, block: nat, pfn: nat)
    requires block > 0 && pfn < |poisoned|
    ensures |Blocks(poisoned, block, pfn + 1)| ==
            |Blocks(poisoned, block, pfn)|
            + if poisoned[pfn] && Last(poisoned, block, pfn) != Start(pfn, block) then 1 else 0
  {
    LastIsHighest(poisoned, block, pfn, pfn);
    var blocks, b := Blocks(poisoned, block, pfn), Start(pfn, block);
    if poisoned[pfn] && Last(poisoned, block, pfn) != b {
      assert b !in blocks;
    } else {
      assert Blocks(poisoned, block, pfn + 1) == blocks;
    }
  }

  /** The loop: one count for every block with a poisoned page. */
  method CountBlocks(poisoned: seq<bool>, block: nat) returns (count: nat)
    requires block > 0
    ensures count == |Blocks(poisoned, block, |poisoned|)|
  {
    count := 0;
    var tmp := -1;
    for pfn := 0 to |poisoned|
      invariant tmp == Last(poisoned, block, pfn)
      invariant count == |Blocks(poisoned, block, pfn)|
    {
      CountStep(poisoned, block, pfn);
      if poisoned[pfn] {
        var tmp2 := pfn - pfn % block;
        if tmp != tmp2 {
          tmp := tmp2;
          count := count + 1;
        }
      }
    }
  }
}
