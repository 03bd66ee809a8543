/** The standard seeding order of a bracket (bracketSeedOrder). */
module SeedOrder {
  import opened PowersOfTwo

  /** The seed at first-round position p of a bracket of Pow2(e) entrants. */
  function SeedAt(e: nat, p: nat): (s: int)
    requires p < Pow2(e)
    ensures 1 <= s <= Pow2(e)
  {
    if e == 0 then 1
    else if p % 2 == 0 then SeedAt(e - 1, p / 2)
    else Pow2(e) + 1 - SeedAt(e - 1, p / 2)
  }

  function Order(e: nat): seq<int> {
    seq(Pow2(e), p requires 0 <= p < Pow2(e) => SeedAt(e, p))
  }

  /** bracketSeedOrder: a recursion that fills a fresh slice from the order of half the size. */
  method BracketSeedOrder(size: nat, ghost e: nat) returns (result: array<int>)
    requires size == Pow2(e)
    ensures fresh(result) && result[..] == Order(e)
    decreases e
  {
    if size == 1 {
      result := new int[] [1];
      return;
    }
    if size == 2 {
      result := new int[] [1, 2];
      assert e == 1 && SeedAt(1, 0) == 1 && SeedAt(1, 1) == 2;
      return;
    }
    var half := BracketSeedOrder(size / 2, e - 1);
    assert half[..] == Order(e - 1);
    result := new int[size];
    for i := 0 to half.Length
      invariant fresh(result) && result.Length == size
      invariant half[..] == Order(e - 1)
      invariant forall p :: 0 <= p < 2 * i ==> result[p] == SeedAt(e, p)
    {
      assert half[i] == half[..][i] == SeedAt(e - 1, i);
      result[i * 2] := half[i];
      result[i * 2 + 1] := size + 1 - half[i];
    }
  }

  /** Every first-round pair joins a seed of the upper half with one of the lower half,
      and the two sum to size + 1. */
  lemma {:induction false} PairSum(e: nat, i: nat)
    requires e >= 1 && i < Pow2(e - 1)
    ensures 1 <= SeedAt(e, 2 * i) <= Pow2(e - 1) < SeedAt(e, 2 * i + 1) <= Pow2(e)
    ensures SeedAt(e, 2 * i) == SeedAt(e - 1, i)
    ensures SeedAt(e, 2 * i) + SeedAt(e, 2 * i + 1) == Pow2(e) + 1
    decreases e
  {
  }

  lemma {:induction false} SeedsOfPair(e: nat, i: nat)
    requires e >= 1 && i < Pow2(e - 1)
    ensures SeedAt(e, 2 * i) == SeedAt(e - 1, i)
    ensures SeedAt(e, 2 * i + 1) == Pow2(e) + 1 - SeedAt(e - 1, i)
  {
  }

  /** Where a seed is placed. */
  function Position(e: nat, s: int): (p: nat)
    requires 1 <= s <= Pow2(e)
    ensures p < Pow2(e)
  {
    if e == 0 then 0
    else if s <= Pow2(e - 1) then 2 * Position(e - 1, s)
    else 2 * Position(e - 1, Pow2(e) + 1 - s) + 1
  }

  lemma {:induction false} PositionOfSeedAt(e: nat, p: nat)
    requires p < Pow2(e)
    ensures Position(e, SeedAt(e, p)) == p
  {
    if e > 0 {
      PairSum(e, p / 2);
      PositionOfSeedAt(e - 1, p / 2);
    }
  }

  lemma {:induction false} SeedAtPosition(e: nat, s: int)
    requires 1 <= s <= Pow2(e)
    ensures SeedAt(e, Position(e, s)) == s
    decreases e
  {
    if e > 0 {
      var t := if s <= Pow2(e - 1) then s else Pow2(e) + 1 - s;
      SeedAtPosition(e - 1, t);
      SeedsOfPair(e, Position(e - 1, t));
    }
  }

  /** The order is a permutation of 1..size: every seed stands at exactly one position. */
  lemma {:induction false} OrderIsPermutation(e: nat)
    ensures |Order(e)| == Pow2(e)
    ensures forall p :: 0 <= p < Pow2(e) ==> 1 <= Order(e)[p] <= Pow2(e)
    ensures forall s :: 1 <= s <= Pow2(e) ==> s in Order(e)
    ensures forall p, q :: 0 <= p < q < Pow2(e) ==> Order(e)[p] != Order(e)[q]
  {
    forall p | 0 <= p < Pow2(e)
      ensures Position(e, Order(e)[p]) == p
    {
      PositionOfSeedAt(e, p);
    }
    forall s | 1 <= s <= Pow2(e) ensures s in Order(e) {
      SeedAtPosition(e, s);
      assert Order(e)[Position(e, s)] == s;
    }
  }

  lemma {:induction false} OddPlaceIsLow(e: nat, p: nat)
    requires e >= 1 && p < Pow2(e) && p % 2 == 1
    ensures SeedAt(e, p) > Pow2(e - 1)
  {
    PairSum(e, p / 2);
  }

  /** The seed at offset r of block q, for blocks of length d. */
  lemma {:induction false} SeedInBlock(e: nat, k: nat, d: nat, q: nat, r: nat, p: nat)
    requires k <= e && d == Pow2(e - k) && r < d && p == q * d + r && p < Pow2(e)
    ensures q < Pow2(k)
    ensures SeedAt(e, p) <= Pow2(k) <==> r == 0
    ensures r == 0 ==> SeedAt(e, p) == SeedAt(k, q)
    decreases e
  {
    if e == k {
      assert d == 1 && p == q;
    } else {
      var half := Pow2(e - 1 - k);
      assert d == 2 * half;
      DoubleProduct(q, half);
      SeedInBlock(e - 1, k, half, q, r / 2, p / 2);
      if r % 2 == 1 {
        OddPlaceIsLow(e, p);
        Pow2Monotone(k, e - 1);
      }
    }
  }

  /** Cut the order into Pow2(k) aligned blocks. The head of block j is the j-th seed of the
      order of size Pow2(k), and every other seed of the block is above Pow2(k). */
  lemma {:induction false} BlockHeads(e: nat, k: nat, p: nat)
    requires k <= e && p < Pow2(e)
    ensures p / Pow2(e - k) < Pow2(k)
    ensures SeedAt(e, p) <= Pow2(k) <==> p % Pow2(e - k) == 0
    ensures p % Pow2(e - k) == 0 ==> SeedAt(e, p) == SeedAt(k, p / Pow2(e - k))
  {
    var q, r := Divide(p, Pow2(e - k));
    SeedInBlock(e, k, Pow2(e - k), q, r, p);
  }

  /** For every k the top Pow2(k) seeds lie in different aligned blocks of length size/Pow2(k). */
  lemma {:induction false} TopSeedsApart(e: nat, k: nat, p: nat, q: nat)
    requires k <= e && p < Pow2(e) && q < Pow2(e) && p != q
    requires SeedAt(e, p) <= Pow2(k) && SeedAt(e, q) <= Pow2(k)
    ensures p / Pow2(e - k) != q / Pow2(e - k)
  {
    BlockHeads(e, k, p);
    BlockHeads(e, k, q);
    PositionOfSeedAt(e, p);
    PositionOfSeedAt(e, q);
  }

  /** ... and each of the Pow2(k) blocks holds one of them. */
  lemma {:induction false} EveryBlockHasATopSeed(e: nat, k: nat, j: nat) returns (p: nat)
    requires k <= e && j < Pow2(k)
    ensures p < Pow2(e) && p / Pow2(e - k) == j && SeedAt(e, p) <= Pow2(k)
  {
    var d := Pow2(e - k);
    p := j * d;
    assert p < Pow2(e) by {
      Pow2Add(k, e - k);
      StretchFits(j, Pow2(k), d);
    }
    DivisionIsUnique(p, d, j, 0);
    BlockHeads(e, k, p);
  }
}
