/** The shape of a single-elimination bracket of Pow2(e) entrants, by match number alone:
    where each match sends its winner, and what that makes of the whole bracket. The matches
    after the first round of a bracket are the bracket of half the size, shifted. */
module BracketTree {
  import opened PowersOfTwo
  import opened SeedOrder

  predicate IsMatchNumber(e: nat, m: int) {
    e >= 1 && 1 <= m < Pow2(e)
  }

  /** DetermineSlotInNextMatch; the source's remainder is negative for negative numbers. */
  function DetermineSlotInNextMatch(matchNumber: int): int {
    if matchNumber > 0 && matchNumber % 2 == 1 then 1 else 2
  }

  /** The match that receives the winner of match m; 0 for the final. */
  function Next(e: nat, m: int): int
    requires IsMatchNumber(e, m)
  {
    if m == Pow2(e) - 1 then 0 else Pow2(e - 1) + (m + 1) / 2
  }

  function RoundOf(e: nat, m: int): (r: nat)
    requires IsMatchNumber(e, m)
    ensures 1 <= r <= e
    decreases e
  {
    if m <= Pow2(e - 1) then 1 else 1 + RoundOf(e - 1, m - Pow2(e - 1))
  }

  /** Round r holds Pow2(e - r) matches with consecutive numbers. */
  lemma {:induction false} RoundInterval(e: nat, m: int, r: nat)
    requires IsMatchNumber(e, m) && 1 <= r <= e
    ensures RoundOf(e, m) == r <==> Pow2(e) - Pow2(e - r + 1) < m <= Pow2(e) - Pow2(e - r)
    decreases e
  {
    if r == 1 {
    } else if m <= Pow2(e - 1) {
      Pow2Monotone(e - r + 1, e - 1);
    } else {
      RoundInterval(e - 1, m - Pow2(e - 1), r - 1);
    }
  }

  /** Winners move to a later match, exactly one round on; only the last match, alone in
      round e, has no next match. */
  lemma {:induction false} NextIsOneRoundOn(e: nat, m: int)
    requires IsMatchNumber(e, m)
    ensures Next(e, m) == 0 <==> m == Pow2(e) - 1
    ensures RoundOf(e, m) == e <==> m == Pow2(e) - 1
    ensures m < Pow2(e) - 1 ==>
      IsMatchNumber(e, Next(e, m)) && Next(e, m) > m && RoundOf(e, Next(e, m)) == RoundOf(e, m) + 1
    decreases e
  {
    if m > Pow2(e - 1) {
      NextIsOneRoundOn(e - 1, m - Pow2(e - 1));
    } else if e >= 2 {
      assert (m + 1) / 2 <= Pow2(e - 2);
    }
  }

  /** The bracket is a complete binary tree: a match after the first round has exactly two
      feeders, which fill its slots 1 and 2; a first-round match has none. */
  lemma {:induction false} Feeders(e: nat, m: int, target: int)
    requires IsMatchNumber(e, m) && IsMatchNumber(e, target)
    ensures Next(e, m) == target && DetermineSlotInNextMatch(m) == 1
      <==> target > Pow2(e - 1) && m == 2 * (target - Pow2(e - 1)) - 1
    ensures Next(e, m) == target && DetermineSlotInNextMatch(m) == 2
      <==> target > Pow2(e - 1) && m == 2 * (target - Pow2(e - 1))
  {
  }

  /** The match reached from m by following Next j times. */
  function Hop(e: nat, m: int, j: nat): (h: int)
    requires IsMatchNumber(e, m) && RoundOf(e, m) + j <= e
    ensures IsMatchNumber(e, h) && RoundOf(e, h) == RoundOf(e, m) + j
    decreases j
  {
    NextIsOneRoundOn(e, m);
    if j == 0 then m else Hop(e, Next(e, m), j - 1)
  }

  /** A match of round r reaches the final in exactly e - r hops. */
  lemma {:induction false} HopsToFinal(e: nat, m: int, j: nat)
    requires IsMatchNumber(e, m) && RoundOf(e, m) + j <= e
    ensures Hop(e, m, j) == Pow2(e) - 1 <==> j == e - RoundOf(e, m)
  {
    NextIsOneRoundOn(e, Hop(e, m, j));
  }

  lemma {:induction false} HopOnce(e: nat, m: int, j: nat)
    requires IsMatchNumber(e, m) && RoundOf(e, m) + j + 1 <= e
    ensures Hop(e, m, j) < Pow2(e) - 1 && Hop(e, m, j + 1) == Next(e, Hop(e, m, j))
    decreases j
  {
    NextIsOneRoundOn(e, m);
    if j > 0 {
      HopOnce(e, Next(e, m), j - 1);
    }
  }

  /** The match of round r that the entrant at first-round position p plays if it keeps winning. */
  function MatchOnPath(e: nat, p: nat, r: nat): int
    requires 1 <= r <= e && p < Pow2(e)
  {
    Pow2(e) - Pow2(e - r + 1) + p / Pow2(r) + 1
  }

  lemma {:induction false} PathByHops(e: nat, p: nat, r: nat)
    requires 1 <= r <= e && p < Pow2(e)
    ensures IsMatchNumber(e, p / 2 + 1) && RoundOf(e, p / 2 + 1) == 1
    ensures Hop(e, p / 2 + 1, r - 1) == MatchOnPath(e, p, r)
    decreases r
  {
    if r > 1 {
      PathByHops(e, p, r - 1);
      HopOnce(e, p / 2 + 1, r - 2);
      HalveQuotient(p, Pow2(r - 1));
      var q := p / Pow2(r - 1);
      assert Pow2(e - r + 2) == 2 * (2 * Pow2(e - r));
      assert (Pow2(e) - Pow2(e - r + 2) + q + 2) / 2 == Pow2(e - 1) - Pow2(e - r + 1) + q / 2 + 1;
    }
  }

  lemma {:induction false} HalveQuotient(p: nat, d: nat)
    requires d > 0
    ensures p / d / 2 == p / (2 * d)
  {
    var h, s, r := p / d / 2, p / d % 2, p % d;
    assert p == (2 * h + s) * d + r;
    AddFactors(2 * h, s, d);
    DoubleFactor(h, d);
    DoubleProduct(h, d);
    assert p == h * (2 * d) + (s * d + r);
    assert 0 <= s * d + r < 2 * d by {
      if s == 0 {} else { assert s == 1; }
    }
    DivisionIsUnique(p, 2 * d, h, s * d + r);
  }

  /** No two of the top Pow2(k) seeds can meet before only Pow2(k) entrants remain: in every
      round up to e - k, their paths run through different matches. */
  lemma {:induction false} TopSeedsMeetLate(e: nat, k: nat, p: nat, q: nat, r: nat)
    requires k <= e && p < Pow2(e) && q < Pow2(e) && p != q
    requires SeedAt(e, p) <= Pow2(k) && SeedAt(e, q) <= Pow2(k)
    requires 1 <= r <= e - k
    ensures IsMatchNumber(e, p / 2 + 1) && IsMatchNumber(e, q / 2 + 1)
    ensures RoundOf(e, p / 2 + 1) == RoundOf(e, q / 2 + 1) == 1
    ensures Hop(e, p / 2 + 1, r - 1) != Hop(e, q / 2 + 1, r - 1)
  {
    PathByHops(e, p, r);
    PathByHops(e, q, r);
    TopSeedsApart(e, k, p, q);
    CoarserBlocks(p, e - k, r);
    CoarserBlocks(q, e - k, r);
  }

  lemma {:induction false} CoarserBlocks(p: nat, a: nat, b: nat)
    requires b <= a
    ensures p / Pow2(a) == p / Pow2(b) / Pow2(a - b)
    decreases a - b
  {
    if b < a {
      CoarserBlocks(p, a, b + 1);
      HalveQuotient(p, Pow2(b));
      HalveBlock(p / Pow2(b), Pow2(a - b - 1));
      assert Pow2(b + 1) == 2 * Pow2(b) && Pow2(a - b) == 2 * Pow2(a - b - 1);
    }
  }

  /** The two ranks that meet in a match. */
  datatype Pair = Pair(one: int, two: int) {
    function Better(): int { if one <= two then one else two }
    function Slot(slot: int): int { if slot == 1 then one else two }
  }

  /** The ranks that meet in every match (match m at index m - 1) when the first round is drawn
      by the seeding order and the better rank of every match moves to its next match and slot. */
  ghost predicate BetterRankAdvances(e: nat, meets: seq<Pair>)
    requires e >= 1
  {
    && |meets| == Pow2(e) - 1
    && (forall i :: 0 <= i < Pow2(e - 1) ==> IsDrawnAt(e, meets, i))
    && (forall m :: 1 <= m < Pow2(e) - 1 ==> IsLinked(e, meets, m))
  }

  predicate IsDrawnAt(e: nat, meets: seq<Pair>, i: int)
    requires e >= 1 && 0 <= i < Pow2(e - 1)
  {
    i < |meets| && meets[i] == Pair(SeedAt(e, 2 * i), SeedAt(e, 2 * i + 1))
  }

  predicate IsLinked(e: nat, meets: seq<Pair>, m: int)
    requires IsMatchNumber(e, m)
  {
    && 0 < Next(e, m) <= |meets| && m <= |meets|
    && meets[Next(e, m) - 1].Slot(DetermineSlotInNextMatch(m)) == meets[m - 1].Better()
  }

  /** Past the first round, the wiring is that of the bracket of half the size. */
  lemma {:induction false} NextOfLaterRound(e: nat, m: int)
    requires e >= 2 && 1 <= m < Pow2(e - 1) - 1
    ensures Next(e, m + Pow2(e - 1)) == Next(e - 1, m) + Pow2(e - 1)
    ensures 0 < Next(e - 1, m) < Pow2(e - 1)
    ensures DetermineSlotInNextMatch(m + Pow2(e - 1)) == DetermineSlotInNextMatch(m)
  {
  }

  lemma {:induction false} LinkOfRest(e: nat, meets: seq<Pair>, m: nat)
    requires e >= 2 && BetterRankAdvances(e, meets) && 1 <= m < Pow2(e - 1) - 1
    ensures IsLinked(e - 1, meets[Pow2(e - 1)..], m)
  {
    NextOfLaterRound(e, m);
    assert IsLinked(e, meets, m + Pow2(e - 1));
  }

  lemma {:induction false} NextOfFirstRound(e: nat, i: nat)
    requires e >= 2 && i < Pow2(e - 2)
    ensures 2 * i + 2 < Pow2(e) - 1
    ensures Next(e, 2 * i + 1) == Next(e, 2 * i + 2) == Pow2(e - 1) + i + 1
    ensures DetermineSlotInNextMatch(2 * i + 1) == 1 && DetermineSlotInNextMatch(2 * i + 2) == 2
  {
  }

  lemma {:induction false} FirstMeetingOfRest(e: nat, meets: seq<Pair>, i: nat)
    requires e >= 2 && BetterRankAdvances(e, meets) && i < Pow2(e - 2)
    ensures IsDrawnAt(e - 1, meets[Pow2(e - 1)..], i)
  {
    NextOfFirstRound(e, i);
    assert IsLinked(e, meets, 2 * i + 1) && IsLinked(e, meets, 2 * i + 2);
    FirstRoundWinner(e, meets, 2 * i);
    FirstRoundWinner(e, meets, 2 * i + 1);
  }

  lemma {:induction false} FirstRoundWinner(e: nat, meets: seq<Pair>, i: nat)
    requires e >= 1 && BetterRankAdvances(e, meets) && i < Pow2(e - 1)
    ensures i < |meets| && meets[i].Better() == SeedAt(e - 1, i)
  {
    assert IsDrawnAt(e, meets, i);
    PairSum(e, i);
  }

  /** The meetings after the first round are those of the bracket of half the size. */
  lemma {:induction false} LaterMeetings(e: nat, meets: seq<Pair>)
    requires e >= 2 && BetterRankAdvances(e, meets)
    ensures BetterRankAdvances(e - 1, meets[Pow2(e - 1)..])
  {
    var f, rest := e - 1, meets[Pow2(e - 1)..];
    forall i | 0 <= i < Pow2(f - 1) ensures IsDrawnAt(f, rest, i) {
      FirstMeetingOfRest(e, meets, i);
    }
    forall m | 1 <= m < Pow2(f) - 1 ensures IsLinked(f, rest, m) {
      LinkOfRest(e, meets, m);
    }
  }

  lemma {:induction false} FirstRoundMeeting(e: nat, meets: seq<Pair>, m: int)
    requires e >= 1 && BetterRankAdvances(e, meets) && 1 <= m <= Pow2(e - 1)
    ensures m <= |meets| && 1 <= meets[m - 1].one < meets[m - 1].two
    ensures meets[m - 1].one + meets[m - 1].two == Pow2(e) + 1
  {
    assert IsDrawnAt(e, meets, m - 1);
    PairSum(e, m - 1);
  }

  /** Match m of round r pairs two ranks that sum to size/Pow2(r-1) + 1: its meeting is a
      first-round meeting of the bracket of that size. */
  lemma {:induction false} BetterRankMeetings(e: nat, meets: seq<Pair>, m: int)
    requires e >= 1 && BetterRankAdvances(e, meets) && IsMatchNumber(e, m)
    ensures meets[m - 1].one + meets[m - 1].two == Pow2(e + 1 - RoundOf(e, m)) + 1
    ensures 1 <= meets[m - 1].one < meets[m - 1].two
    decreases e
  {
    if m <= Pow2(e - 1) {
      FirstRoundMeeting(e, meets, m);
    } else {
      LaterMeetings(e, meets);
      var rest, k := meets[Pow2(e - 1)..], m - Pow2(e - 1);
      assert RoundOf(e, m) == 1 + RoundOf(e - 1, k) && meets[m - 1] == rest[k - 1];
      BetterRankMeetings(e - 1, rest, k);
    }
  }

  /** The final is rank 1 against rank 2. */
  lemma {:induction false} BetterRankFinal(e: nat, meets: seq<Pair>)
    requires e >= 1 && BetterRankAdvances(e, meets)
    ensures meets[Pow2(e) - 2] == Pair(1, 2)
  {
    BetterRankMeetings(e, meets, Pow2(e) - 1);
    NextIsOneRoundOn(e, Pow2(e) - 1);
    assert Pow2(1) == 2 * Pow2(0);
  }
}
