/** GenerateSingleElimination: the generated matches are exactly the complete binary tree of
    BracketTree, drawn by the seeding order, with BYEs standing for the missing ranks. */
module SingleElimination {
  import opened Wrappers
  import opened PowersOfTwo
  import opened SeedOrder
  import opened Brackets
  import opened BracketTree
  import opened Sorting

  /** The entries from best to worst; entry of rank k at index k - 1. Ties come in any order. */
  ghost predicate IsRanking(entries: seq<SeedEntry>, ranked: seq<SeedEntry>) {
    && multiset(ranked) == multiset(entries)
    && |ranked| == |entries|
    && forall i, j :: 0 <= i < j < |ranked| ==> ranked[i].seed <= ranked[j].seed
  }

  function Entrant(ranked: seq<SeedEntry>, rank: int): SeedEntry
    requires rank >= 1
  {
    if rank <= |ranked| then ranked[rank - 1] else BYE
  }

  function EntrantAt(e: nat, ranked: seq<SeedEntry>, p: nat): SeedEntry
    requires p < Pow2(e)
  {
    Entrant(ranked, SeedAt(e, p))
  }

  /** Match m of the bracket, in closed form. */
  function BracketMatchAt(e: nat, ranked: seq<SeedEntry>, m: int): BracketMatch
    requires IsMatchNumber(e, m)
  {
    var round := RoundOf(e, m);
    var s1 := if round == 1 then EntrantAt(e, ranked, 2 * (m - 1)) else BYE;
    var s2 := if round == 1 then EntrantAt(e, ranked, 2 * (m - 1) + 1) else BYE;
    var isBye := round == 1 && (s1.seed == 0 || s2.seed == 0);
    BlankMatch(m, round, NameOfRound(round, e)).(
      team1Seed := s1.seed,
      team2Seed := s2.seed,
      team1TeamId := s1.teamId,
      team2TeamId := s2.teamId,
      isBye := isBye,
      byeWinnerSeed := if !isBye then 0 else if s1.seed != 0 then s1.seed else s2.seed,
      nextMatchNumber := Next(e, m),
      nextMatchSlot := if Next(e, m) == 0 then 0 else DetermineSlotInNextMatch(m))
  }

  ghost predicate IsBracket(e: nat, ranked: seq<SeedEntry>, matches: seq<BracketMatch>) {
    && |matches| == Pow2(e) - 1
    && forall m :: IsMatchNumber(e, m) ==> matches[m - 1] == BracketMatchAt(e, ranked, m)
  }

  lemma {:induction false} NumberInRound(e: nat, round: nat, i: nat, m: int)
    requires 1 <= round <= e && i < Pow2(e - round)
    requires m == Pow2(e) - Pow2(e - round + 1) + i + 1
    ensures IsMatchNumber(e, m) && RoundOf(e, m) == round
  {
    Pow2Monotone(e - round + 1, e);
    RoundInterval(e, m, round);
  }

  /** The i-th match of a round, by its number, and where its winner goes. */
  lemma {:induction false} MatchOfRound(e: nat, round: nat, i: nat, m: int)
    requires 1 <= round <= e && i < Pow2(e - round)
    requires m == Pow2(e) - Pow2(e - round + 1) + i + 1
    ensures IsMatchNumber(e, m) && RoundOf(e, m) == round
    ensures round == 1 ==> m == i + 1
    ensures Next(e, m) == if round == e then 0 else Pow2(e) - Pow2(e - round) + i / 2 + 1
    ensures DetermineSlotInNextMatch(m) == 1 <==> i % 2 == 0
  {
    NumberInRound(e, round, i, m);
    Pow2Monotone(e - round, e - 1);
    var size, rest := Pow2(e - 1), Pow2(e - round);
    assert m == 2 * size - 2 * rest + i + 1;
    if round < e {
      NextByIndex(size, rest, Pow2(e - round - 1), i);
    }
  }

  /** The next match by number and by index in the round agree. */
  lemma {:induction false} NextByIndex(size: nat, rest: nat, half: nat, i: nat)
    requires rest == 2 * half && rest <= size
    ensures (2 * size - 2 * rest + i + 2) / 2 == size - rest + i / 2 + 1
  {
  }

  /** The entries in seed order; sort.Slice leaves ties in any order. */
  method SortBySeed(entries: seq<SeedEntry>) returns (ranked: array<SeedEntry>)
    ensures fresh(ranked) && IsRanking(entries, ranked[..])
  {
    ranked := new SeedEntry[|entries|](i requires 0 <= i < |entries| => entries[i]);
    assert ranked[..] == entries;
    var less := (x: SeedEntry, y: SeedEntry) => x.seed < y.seed;
    SortSlice(ranked, less);
    assert |multiset(ranked[..])| == |multiset(entries)|;
    forall i, j | 0 <= i < j < ranked.Length ensures ranked[..][i].seed <= ranked[..][j].seed {
      assert !less(ranked[..][j], ranked[..][i]);
    }
  }

  /** The entrants in bracket order, ranks without an entry being BYEs. */
  method PlaceEntrants(sorted: array<SeedEntry>, bracketSize: nat, ghost e: nat) returns (positioned: array<SeedEntry>)
    requires bracketSize == Pow2(e) && sorted.Length <= bracketSize
    ensures fresh(positioned) && positioned.Length == bracketSize
    ensures forall p :: 0 <= p < bracketSize ==> positioned[p] == EntrantAt(e, sorted[..], p)
  {
    var seeds := new SeedEntry[bracketSize](_ => BYE);
    for i := 0 to sorted.Length
      invariant forall k :: 0 <= k < bracketSize ==> seeds[k] == if k < i then sorted[k] else BYE
    {
      seeds[i] := sorted[i];
    }
    var order := BracketSeedOrder(bracketSize, e);
    positioned := new SeedEntry[bracketSize](_ => BYE);
    for i := 0 to order.Length
      invariant order[..] == Order(e)
      invariant forall k :: 0 <= k < bracketSize ==> seeds[k] == Entrant(sorted[..], k + 1)
      invariant forall p :: 0 <= p < i ==> positioned[p] == EntrantAt(e, sorted[..], p)
    {
      assert order[i] == order[..][i] == SeedAt(e, i);
      var pos := order[i];
      if pos - 1 < seeds.Length {
        positioned[i] := seeds[pos - 1];
      }
    }
  }

  /** The number of matches up to and including a round, summed round by round. */
  method NextRoundMatchOffset(bracketSize: nat, round: nat, ghost e: nat) returns (offset: nat)
    requires bracketSize == Pow2(e) && 1 <= round <= e
    ensures offset == Pow2(e) - Pow2(e - round)
  {
    offset := bracketSize / 2;
    for r := 2 to round + 1
      invariant offset == Pow2(e) - Pow2(e - r + 1)
    {
      Pow2Divide(e, r);
      offset := offset + bracketSize / Pow2(r);
    }
  }

  /** One turn of the generator's inner loop. */
  method MakeMatch(matchNum: int, round: nat, i: nat, numRounds: nat, bracketSize: nat,
                   positioned: array<SeedEntry>, ghost ranked: seq<SeedEntry>) returns (bm: BracketMatch)
    requires 1 <= round <= numRounds && bracketSize == Pow2(numRounds) && i < Pow2(numRounds - round)
    requires matchNum == Pow2(numRounds) - Pow2(numRounds - round + 1) + i + 1
    requires positioned.Length == bracketSize
    requires forall p :: 0 <= p < bracketSize ==> positioned[p] == EntrantAt(numRounds, ranked, p)
    ensures IsMatchNumber(numRounds, matchNum) && bm == BracketMatchAt(numRounds, ranked, matchNum)
  {
    MatchOfRound(numRounds, round, i, matchNum);
    bm := BlankMatch(matchNum, round, NameOfRound(round, numRounds));
    if round == 1 {
      var s1, s2 := positioned[i * 2], positioned[i * 2 + 1];
      bm := bm.(team1Seed := s1.seed, team2Seed := s2.seed, team1TeamId := s1.teamId, team2TeamId := s2.teamId);
      if s1.seed == 0 || s2.seed == 0 {
        bm := bm.(isBye := true, byeWinnerSeed := if s1.seed != 0 then s1.seed else s2.seed);
      }
    }
    if round < numRounds {
      var offset := NextRoundMatchOffset(bracketSize, round, numRounds);
      bm := bm.(nextMatchNumber := offset + i / 2 + 1, nextMatchSlot := if i % 2 == 0 then 1 else 2);
    }
  }

  /** The matches so far are the first ones of the bracket. */
  ghost predicate IsBracketPrefix(e: nat, ranked: seq<SeedEntry>, matches: seq<BracketMatch>)
    requires e >= 1
  {
    && |matches| < Pow2(e)
    && forall m :: 1 <= m <= |matches| ==> matches[m - 1] == BracketMatchAt(e, ranked, m)
  }

  /** The generator's inner loop: all matches of one round. */
  method AppendRound(matches: seq<BracketMatch>, round: nat, numRounds: nat, bracketSize: nat,
                     positioned: array<SeedEntry>, ghost ranked: seq<SeedEntry>) returns (extended: seq<BracketMatch>)
    requires 1 <= round <= numRounds && bracketSize == Pow2(numRounds)
    requires positioned.Length == bracketSize
    requires forall p :: 0 <= p < bracketSize ==> positioned[p] == EntrantAt(numRounds, ranked, p)
    requires |matches| == Pow2(numRounds) - Pow2(numRounds - round + 1) && IsBracketPrefix(numRounds, ranked, matches)
    ensures |extended| == Pow2(numRounds) - Pow2(numRounds - round) && IsBracketPrefix(numRounds, ranked, extended)
  {
    extended := matches;
    var matchNum := |matches|;
    Pow2Divide(numRounds, round);
    var matchesInRound := bracketSize / Pow2(round);
    for i := 0 to matchesInRound
      invariant matchNum == |extended| == |matches| + i
      invariant IsBracketPrefix(numRounds, ranked, extended)
    {
      matchNum := matchNum + 1;
      var bm := MakeMatch(matchNum, round, i, numRounds, bracketSize, positioned, ranked);
      extended := extended + [bm];
    }
  }

  method GenerateSingleElimination(entries: seq<SeedEntry>)
    returns (result: Result<seq<BracketMatch>, BracketError>, ghost e: nat, ghost ranked: seq<SeedEntry>)
    ensures |entries| < 2 <==> result.Err?
    ensures |entries| < 2 ==> result.error == TooFewEntries(|entries|)
    ensures |entries| >= 2 ==>
      && e >= 1 && Pow2(e - 1) < |entries| <= Pow2(e)
      && IsRanking(entries, ranked) && IsBracket(e, ranked, result.value)
  {
    var n := |entries|;
    if n < 2 {
      return Err(TooFewEntries(n)), 0, [];
    }
    e := NextPowerOfTwoIsLeast(n);
    var bracketSize := NextPowerOfTwo(n);
    var numRounds := Log2(bracketSize);
    var sorted := SortBySeed(entries);
    ranked := sorted[..];
    var positioned := PlaceEntrants(sorted, bracketSize, e);
    var matches: seq<BracketMatch> := [];
    for round := 1 to numRounds + 1
      invariant |matches| == Pow2(e) - Pow2(e - round + 1) && IsBracketPrefix(e, ranked, matches)
      invariant forall p :: 0 <= p < bracketSize ==> positioned[p] == EntrantAt(e, ranked, p)
    {
      matches := AppendRound(matches, round, numRounds, bracketSize, positioned, ranked);
    }
    result := Ok(matches);
  }

  /** Rounds count from 1 in the first matches, which have entrants, to e in the final, one more with
      every advance. Only the last match is named the final; the semifinals are the matches that lead to
      it, and the quarterfinals those that lead to the semifinals. */
  lemma {:induction false} RoundsFollowTheWiring(e: nat, ranked: seq<SeedEntry>, m: int)
    requires IsMatchNumber(e, m)
    ensures var bm := BracketMatchAt(e, ranked, m);
      && (bm.round == 1 <==> m <= Pow2(e - 1)) && (bm.nextMatchNumber == 0 ==> bm.round == e)
      && (bm.roundName == Finals <==> bm.nextMatchNumber == 0)
      && (bm.roundName.Round? ==> bm.roundName == Round(bm.round))
      && (bm.nextMatchNumber > 0 ==>
        && IsMatchNumber(e, bm.nextMatchNumber)
        && var next := BracketMatchAt(e, ranked, bm.nextMatchNumber);
          && next.round == bm.round + 1
          && (bm.roundName == Semifinals <==> next.roundName == Finals)
          && (bm.roundName == Quarterfinals <==> next.roundName == Semifinals))
  {
    NextIsOneRoundOn(e, m);
  }

  /** BYEs are dealt out exactly: with n entries of positive seed, the BYE matches are those of
      the first round whose slot 1 holds one of the ranks 1..size-n; slot 2 is then empty and the
      waiting entrant is the recorded BYE winner. No match has two BYEs. */
  lemma {:induction false} ByesGoToTopRanks(e: nat, ranked: seq<SeedEntry>, m: int)
    requires e >= 1 && Pow2(e - 1) < |ranked| <= Pow2(e) && IsMatchNumber(e, m)
    requires forall i :: 0 <= i < |ranked| ==> ranked[i].seed > 0
    ensures var bm := BracketMatchAt(e, ranked, m);
      && (bm.isBye <==> m <= Pow2(e - 1) && SeedAt(e, 2 * (m - 1)) <= Pow2(e) - |ranked|)
      && (m <= Pow2(e - 1) ==>
        && SeedAt(e, 2 * (m - 1)) <= |ranked|
        && var top := ranked[SeedAt(e, 2 * (m - 1)) - 1];
          && bm.team1Seed == top.seed && bm.team1TeamId == top.teamId
          && (bm.isBye <==> bm.team2Seed == 0)
          && (bm.isBye ==> bm.team2TeamId == 0 && bm.byeWinnerSeed == top.seed))
  {
  }

  ghost function ByeMatches(e: nat, ranked: seq<SeedEntry>): set<int>
    requires e >= 1
  {
    set m | 1 <= m < Pow2(e) && BracketMatchAt(e, ranked, m).isBye
  }

  predicate HoldsTopRank(e: nat, m: int, k: nat)
    requires 1 <= m <= Pow2(e)
  {
    SeedAt(e, m - 1) <= k
  }

  ghost function TopMatches(e: nat, k: nat): set<int> {
    set m | 1 <= m <= Pow2(e) && HoldsTopRank(e, m, k)
  }

  lemma {:induction false} ByeIffTopRank(e: nat, ranked: seq<SeedEntry>, m: int)
    requires e >= 1 && Pow2(e - 1) < |ranked| <= Pow2(e)
    requires forall i :: 0 <= i < |ranked| ==> ranked[i].seed > 0
    ensures m in ByeMatches(e, ranked) <==> m in TopMatches(e - 1, Pow2(e) - |ranked|)
  {
    if 1 <= m < Pow2(e) {
      ByesGoToTopRanks(e, ranked, m);
      if m <= Pow2(e - 1) {
        PairSum(e, m - 1);
      }
    }
  }

  /** There are exactly size - n BYE matches. */
  lemma {:induction false} ByeMatchesAreCounted(e: nat, ranked: seq<SeedEntry>)
    requires e >= 1 && Pow2(e - 1) < |ranked| <= Pow2(e)
    requires forall i :: 0 <= i < |ranked| ==> ranked[i].seed > 0
    ensures |ByeMatches(e, ranked)| == Pow2(e) - |ranked|
  {
    forall m ensures m in ByeMatches(e, ranked) <==> m in TopMatches(e - 1, Pow2(e) - |ranked|) {
      ByeIffTopRank(e, ranked, m);
    }
    assert ByeMatches(e, ranked) == TopMatches(e - 1, Pow2(e) - |ranked|);
    TopRanksAreCounted(e - 1, Pow2(e) - |ranked|);
  }

  /** The seeding order places each of the ranks 1..k once. */
  lemma {:induction false} TopRanksAreCounted(e: nat, k: nat)
    requires k <= Pow2(e)
    ensures |TopMatches(e, k)| == k
    decreases k
  {
    if k == 0 {
      assert TopMatches(e, k) == {};
    } else {
      TopRanksAreCounted(e, k - 1);
      OneMoreTopRank(e, k);
    }
  }

  lemma {:induction false} OneMoreTopRank(e: nat, k: nat)
    requires 1 <= k <= Pow2(e)
    ensures Position(e, k) + 1 !in TopMatches(e, k - 1)
    ensures TopMatches(e, k) == TopMatches(e, k - 1) + {Position(e, k) + 1}
  {
    SeedAtPosition(e, k);
    forall m | m in TopMatches(e, k) ensures m in TopMatches(e, k - 1) || m == Position(e, k) + 1 {
      PositionOfSeedAt(e, m - 1);
    }
  }
}
