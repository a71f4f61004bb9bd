/** Division, remainders and powers of two: the few facts that the index arithmetic of the C code needs. */
module Arith {

  lemma {:induction false} Multiples(d: nat, a: int, b: int)
    requires a < b
    ensures a * d + d <= b * d
  {
    var n: nat := b - a - 1;
    assert n * d >= 0;
    assert b * d == a * d + n * d + d;
  }

  /** Quotient and remainder are unique. */
  lemma {:induction false} Unique(d: nat, q: int, r: nat, q': int, r': nat)
    requires q * d + r == q' * d + r' && r < d && r' < d
    ensures q == q' && r == r'
  {
    if q < q' {
      Multiples(d, q, q');
    } else if q' < q {
      Multiples(d, q', q);
    }
  }

  lemma {:induction false} DivMod(t: int, d: nat)
    requires d > 0
    ensures t == t / d * d + t % d && 0 <= t % d < d
  {
  }

  lemma {:induction false} DivModIs(t: int, d: nat, q: int, r: nat)
    requires t == q * d + r && r < d
    ensures t / d == q && t % d == r
  {
    DivMod(t, d);
    Unique(d, q, r, t / d, t % d);
  }

  /** Numbers closer than d have different remainders. */
  lemma {:induction false} CloseRemaindersDiffer(a: int, b: int, d: nat)
    requires a < b < a + d
    ensures a % d != b % d
  {
    DivMod(a, d);
    DivMod(b, d);
    if a % d == b % d {
      if a / d < b / d {
        Multiples(d, a / d, b / d);
      } else if b / d < a / d {
        Multiples(d, b / d, a / d);
      }
    }
  }

  lemma {:induction false} AddMultiple(a: int, q: int, d: nat)
    requires d > 0
    ensures (a + q * d) % d == a % d
  {
    DivMod(a, d);
    Distribute(a / d, q, d);
    DivModIs(a + q * d, d, a / d + q, a % d);
  }

  lemma {:induction false} Distribute(a: int, b: int, d: int)
    ensures (a + b) * d == a * d + b * d
  {
  }

  /** Reducing first by a multiple of d does not change the remainder by d. */
  lemma {:induction false} ModMultiple(n: int, d: nat, m: nat)
    requires d > 0 && m > 0 && d * m > 0
    ensures n % (d * m) % d == n % d
  {
    var q := n / (d * m);
    DivMod(n, d * m);
    Regroup(q, d, m);
    AddMultiple(n % (d * m), q * m, d);
  }

  lemma {:induction false} Regroup(q: int, d: int, m: int)
    ensures q * (d * m) == q * m * d
  {
  }

  /** The value of an expression of type int, in two's complement. */
  function Int32(x: int): (r: int)
    ensures -0x8000_0000 <= r < 0x8000_0000
  {
    (x + 0x8000_0000) % 0x1_0000_0000 - 0x8000_0000
  }

  function Pow2(k: nat): (p: nat)
    ensures p > k
  {
    if k == 0 then 1 else 2 * Pow2(k - 1)
  }

  lemma {:induction false} PowSplit(a: nat, b: nat)
    ensures Pow2(a) * Pow2(b) == Pow2(a + b)
  {
    if a > 0 {
      PowSplit(a - 1, b);
      DoubleFactor(Pow2(a - 1), Pow2(b), Pow2(a - 1 + b));
    }
  }

  lemma {:induction false} DoubleFactor(x: int, y: int, z: int)
    requires x * y == z
    ensures 2 * x * y == 2 * z
  {
  }

  /** The & of C, bit by bit. */
  function And(a: nat, b: nat): nat {
    if a == 0 || b == 0 then 0 else 2 * And(a / 2, b / 2) + (if a % 2 == 1 && b % 2 == 1 then 1 else 0)
  }

  lemma {:induction false} AndOdd(a: nat, b: nat)
    ensures And(a, 2 * b + 1) == 2 * And(a / 2, b) + a % 2
  {
    assert (2 * b + 1) / 2 == b;
  }

  lemma {:induction false} ModDouble(t: nat, p: nat)
    requires p > 0
    ensures t % (2 * p) == 2 * (t / 2 % p) + t % 2
  {
    var q, r := t / 2 / p, t / 2 % p;
    DivMod(t / 2, p);
    Regroup(2, q, p);
    DivModIs(t, 2 * p, q, 2 * r + t % 2);
  }

  lemma {:induction false} MaskDouble(t: nat, p: nat)
    requires p > 0 && And(t / 2, p - 1) == t / 2 % p
    ensures And(t, 2 * p - 1) == t % (2 * p)
  {
    ModDouble(t, p);
    assert 2 * p - 1 == 2 * (p - 1) + 1;
    AndOdd(t, p - 1);
  }

  /** Masking with 2^k - 1 is the remainder by 2^k. */
  lemma {:induction false} MaskIsRemainder(t: nat, k: nat)
    ensures And(t, Pow2(k) - 1) == t % Pow2(k)
  {
    if k == 0 {
    } else if t == 0 {
      DivModIs(0, Pow2(k), 0, 0);
    } else {
      MaskIsRemainder(t / 2, k - 1);
      MaskDouble(t, Pow2(k - 1));
    }
  }
}
