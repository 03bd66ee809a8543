/** Exact powers of two: the bracket size, its logarithm and the arithmetic of aligned blocks. */
module PowersOfTwo {

  function Pow2(k: nat): (p: nat)
    ensures p >= 1
  {
    if k == 0 then 1 else 2 * Pow2(k - 1)
  }

  lemma {:induction false} DoubleFactor(x: int, y: int)
    ensures (2 * x) * y == 2 * (x * y)
  {
  }

  lemma {:induction false} DoubleProduct(x: int, y: int)
    ensures x * (2 * y) == 2 * (x * y)
  {
  }

  lemma {:induction false} AddFactors(x: int, y: int, d: int)
    ensures (x + y) * d == x * d + y * d
  {
  }

  lemma {:induction false} Pow2Add(a: nat, b: nat)
    ensures Pow2(a + b) == Pow2(a) * Pow2(b)
  {
    if a > 0 {
      Pow2Add(a - 1, b);
      assert Pow2(a + b) == 2 * Pow2(a - 1 + b) && Pow2(a) == 2 * Pow2(a - 1);
      DoubleFactor(Pow2(a - 1), Pow2(b));
    }
  }

  lemma {:induction false} Pow2Monotone(a: nat, b: nat)
    requires a <= b
    ensures Pow2(a) <= Pow2(b)
    ensures a < b ==> 2 * Pow2(a) <= Pow2(b)
    decreases b
  {
    if a < b {
      Pow2Monotone(a, b - 1);
    }
  }

  lemma {:induction false} Pow2Divide(a: nat, b: nat)
    requires b <= a
    ensures Pow2(a) / Pow2(b) == Pow2(a - b)
  {
    Pow2Add(a - b, b);
    DivideProduct(Pow2(a - b), Pow2(b));
  }

  lemma {:induction false} DivideProduct(q: nat, d: nat)
    requires d > 0
    ensures q * d / d == q
  {
    DivisionIsUnique(q * d, d, q, 0);
  }

  lemma {:induction false} ScaleAtLeast(k: int, d: int)
    requires k >= 1 && d > 0
    ensures k * d >= d
  {
  }

  /** The j-th of k stretches of length d ends within them. */
  lemma {:induction false} StretchFits(j: int, k: int, d: int)
    requires j < k && d > 0
    ensures j * d + d <= k * d
  {
    ScaleAtLeast(k - j, d);
    assert (k - j) * d == k * d - j * d;
  }

  /** Quotient and remainder are determined by the division equation. */
  lemma {:induction false} DivisionIsUnique(x: int, d: int, q: int, r: int)
    requires 0 <= r < d && x == q * d + r
    ensures x / d == q && x % d == r
  {
    var q' := x / d;
    assert (q - q') * d == x % d - r by {
      assert x == q' * d + x % d;
    }
    if q > q' {
      ScaleAtLeast(q - q', d);
    } else if q < q' {
      ScaleAtLeast(q' - q, d);
    }
  }

  lemma {:induction false} Divide(p: nat, d: nat) returns (q: nat, r: nat)
    requires d > 0
    ensures q == p / d && r == p % d && r < d && p == q * d + r
  {
    q, r := p / d, p % d;
  }

  lemma {:induction false} QuotientAtLeast(x: nat, d: nat, k: int)
    requires d > 0 && k * d <= x
    ensures k <= x / d
  {
    var q, _ := Divide(x, d);
    if q < k {
      StretchFits(q, k, d);
    }
  }

  /** Halving a position halves the index of its aligned block's length, not its block. */
  lemma {:induction false} HalveBlock(p: nat, d: nat)
    requires d > 0
    ensures p / 2 / d == p / (2 * d)
    ensures p % (2 * d) == 0 <==> p % 2 == 0 && p / 2 % d == 0
  {
    var b, q, r := p % 2, p / 2 / d, p / 2 % d;
    assert p / 2 == q * d + r && p == 2 * (p / 2) + b;
    DoubleProduct(q, d);
    DivisionIsUnique(p, 2 * d, q, 2 * r + b);
  }

  /** The number of binary digits of x, as bits.Len computes it. */
  function BitLen(x: nat): nat {
    if x == 0 then 0 else 1 + BitLen(x / 2)
  }

  lemma {:induction false} BitLenBounds(x: nat)
    ensures x < Pow2(BitLen(x))
    ensures x > 0 ==> Pow2(BitLen(x) - 1) <= x
  {
    if x > 0 {
      BitLenBounds(x / 2);
    }
  }

  /** Log2 of an exact power of two (the source takes a floating-point logarithm). */
  function Log2(x: nat): nat {
    if x <= 1 then 0 else 1 + Log2(x / 2)
  }

  lemma {:induction false} Log2Inverts(k: nat)
    ensures Log2(Pow2(k)) == k
  {
    if k > 0 {
      Log2Inverts(k - 1);
    }
  }

  function NextPowerOfTwo(n: int): int {
    if n <= 1 then 1 else Pow2(BitLen(n - 1))
  }

  /** NextPowerOfTwo(n) is a power of two, at least n, and no smaller power of two is. */
  lemma {:induction false} NextPowerOfTwoIsLeast(n: int) returns (e: nat)
    ensures NextPowerOfTwo(n) == Pow2(e) && e == Log2(NextPowerOfTwo(n))
    ensures n <= Pow2(e)
    ensures forall k: nat :: n <= Pow2(k) ==> Pow2(e) <= Pow2(k)
    ensures n >= 2 ==> e >= 1 && Pow2(e - 1) < n
  {
    e := if n <= 1 then 0 else BitLen(n - 1);
    Log2Inverts(e);
    if n >= 2 {
      BitLenBounds(n - 1);
      forall k: nat | n <= Pow2(k) ensures Pow2(e) <= Pow2(k) {
        if k < e { Pow2Monotone(k, e - 1); }
        else { Pow2Monotone(e, k); }
      }
    }
  }
}
