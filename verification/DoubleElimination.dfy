/** GenerateDoubleElimination: the winners bracket, a losers bracket behind it and the grand finals. */
module DoubleElimination {
  import opened Wrappers
  import opened PowersOfTwo
  import opened Brackets
  import opened BracketTree
  import SingleElimination

  /** Matches in losers round l: each size occurs twice, then halves. */
  function LoserRoundSize(e: nat, l: nat): nat
    requires 1 <= l
  {
    if l > 2 * (e - 1) then 0 else Pow2(e - 2 - (l - 1) / 2)
  }

  /** Losers matches before losers round l. */
  function LosersBefore(e: nat, l: nat): nat
    requires 1 <= l
  {
    if l == 1 then 0 else LosersBefore(e, l - 1) + LoserRoundSize(e, l - 1)
  }

  lemma {:induction false} LosersBeforeOddRound(e: nat, j: nat)
    requires j < e
    ensures LosersBefore(e, 2 * j + 1) == Pow2(e) - Pow2(e - j)
    decreases j
  {
    if j > 0 {
      LosersBeforeOddRound(e, j - 1);
    }
  }

  /** The losers bracket has size - 2 matches, whatever the size. */
  lemma {:induction false} LosersTotal(e: nat)
    requires e >= 1
    ensures LosersBefore(e, 2 * (e - 1) + 1) == Pow2(e) - 2
    ensures e == 1 ==> LosersBefore(e, 2) == 0
  {
    LosersBeforeOddRound(e, e - 1);
    assert Pow2(1) == 2 * Pow2(0);
  }

  /** Halving the field of an even losers round leaves at least one match, and exactly the next
      round's: the generator's minimum of one never changes a count. */
  lemma {:induction false} MinimumOneNeverApplies(e: nat, l: nat)
    requires 3 <= l <= 2 * (e - 1) && l % 2 == 1
    ensures LoserRoundSize(e, l - 1) / 2 == LoserRoundSize(e, l) >= 1
  {
  }

  /** A quarter of the size for the first losers round; then every second round keeps the size of the one
      before it, and the rounds between halve it. */
  lemma {:induction false} LoserRoundSizes(e: nat, l: nat)
    requires 1 <= l <= 2 * (e - 1)
    ensures l == 1 ==> 4 * LoserRoundSize(e, l) == Pow2(e)
    ensures l > 1 && l % 2 == 0 ==> LoserRoundSize(e, l) == LoserRoundSize(e, l - 1)
    ensures l > 1 && l % 2 == 1 ==> 2 * LoserRoundSize(e, l) == LoserRoundSize(e, l - 1)
  {
    if l > 1 && l % 2 == 0 {
      assert (l - 1) / 2 == (l - 2) / 2;
    }
  }

  function LoserRoundOf(e: nat, j: nat, l: nat): nat
    requires 1 <= l
    decreases 2 * e - l
  {
    if l >= 2 * (e - 1) || j < LosersBefore(e, l + 1) then l else LoserRoundOf(e, j, l + 1)
  }

  /** The losers match at index j (from 0) of the losers bracket, in closed form. */
  function LosersMatchAt(e: nat, j: nat): BracketMatch
    requires e >= 2 && j < Pow2(e) - 2
  {
    var l := LoserRoundOf(e, j, 1);
    var total := Pow2(e) - 2;
    var blank := BlankMatch(Pow2(e) + j, e + l, LosersRound(l));
    if j == total - 1 then
      blank.(nextMatchNumber := 2 * Pow2(e) - 2, nextMatchSlot := 2)
    else if j + j / 2 + 1 < total then
      blank.(nextMatchNumber := Pow2(e) + j + j / 2 + 1, nextMatchSlot := if j % 2 == 0 then 1 else 2)
    else
      blank
  }

  /** Match k of the winners bracket, its loser's way included. */
  function WinnersMatchAt(e: nat, ranked: seq<SeedEntry>, k: int): BracketMatch
    requires IsMatchNumber(e, k)
  {
    var bm := SingleElimination.BracketMatchAt(e, ranked, k);
    if k <= Pow2(e - 1) && e >= 2
      then bm.(loserNextMatchNumber := Pow2(e) + (k - 1) / 2, loserNextMatchSlot := if k % 2 == 1 then 1 else 2)
      else bm
  }

  /** Match k of the whole double-elimination bracket. */
  function DoubleMatchAt(e: nat, ranked: seq<SeedEntry>, k: int): BracketMatch
    requires e >= 1 && 1 <= k <= 2 * Pow2(e) - 2
  {
    if k < Pow2(e) - 1 then
      WinnersMatchAt(e, ranked, k)
    else if k == Pow2(e) - 1 then
      WinnersMatchAt(e, ranked, k).(nextMatchNumber := 2 * Pow2(e) - 2, nextMatchSlot := 1)
    else if k < 2 * Pow2(e) - 2 then
      LosersMatchAt(e, k - Pow2(e))
    else
      BlankMatch(k, e + (if e == 1 then 1 else 2 * (e - 1)) + 1, GrandFinals)
  }

  ghost predicate IsDoubleBracket(e: nat, ranked: seq<SeedEntry>, matches: seq<BracketMatch>)
    requires e >= 1
  {
    && |matches| == 2 * Pow2(e) - 2
    && forall k :: 1 <= k <= |matches| ==> matches[k - 1] == DoubleMatchAt(e, ranked, k)
  }

  lemma {:induction false} LoserRoundOfIndex(e: nat, j: nat, l: nat, from: nat)
    requires e >= 2 && 1 <= from <= l <= 2 * (e - 1)
    requires LosersBefore(e, l) <= j < LosersBefore(e, l) + LoserRoundSize(e, l)
    ensures LoserRoundOf(e, j, from) == l
    decreases l - from
  {
    if from < l {
      LosersBeforeGrows(e, from + 1, l);
      LoserRoundOfIndex(e, j, l, from + 1);
    }
  }

  /** Every losers match is in the round that its index falls into. */
  lemma {:induction false} LoserRoundHolds(e: nat, j: nat, from: nat)
    requires e >= 2 && 1 <= from <= 2 * (e - 1) && LosersBefore(e, from) <= j < Pow2(e) - 2
    ensures var l := LoserRoundOf(e, j, from);
      from <= l <= 2 * (e - 1) && LosersBefore(e, l) <= j < LosersBefore(e, l) + LoserRoundSize(e, l)
    decreases 2 * e - from
  {
    if from < 2 * (e - 1) && j >= LosersBefore(e, from + 1) {
      LoserRoundHolds(e, j, from + 1);
    } else if from == 2 * (e - 1) {
      LosersTotal(e);
    }
  }

  lemma {:induction false} LosersBeforeGrows(e: nat, a: nat, b: nat)
    requires 1 <= a <= b
    ensures LosersBefore(e, a) <= LosersBefore(e, b)
    decreases b
  {
    if a < b {
      LosersBeforeGrows(e, a, b - 1);
    }
  }

  /** A losers match before any losers wiring. */
  function UnwiredLosersMatch(e: nat, j: nat): BracketMatch {
    var l := LoserRoundOf(e, j, 1);
    BlankMatch(Pow2(e) + j, e + l, LosersRound(l))
  }

  /** Creates the losers matches round by round. */
  method CreateLosersMatches(bracketSize: nat, numWinnerRounds: nat, numLoserRounds: nat, firstNumber: nat)
    returns (loserMatches: seq<BracketMatch>)
    requires numWinnerRounds >= 1 && bracketSize == Pow2(numWinnerRounds) == firstNumber
    requires numLoserRounds == if numWinnerRounds == 1 then 1 else 2 * (numWinnerRounds - 1)
    ensures |loserMatches| == bracketSize - 2
    ensures forall j :: 0 <= j < |loserMatches| ==> loserMatches[j] == UnwiredLosersMatch(numWinnerRounds, j)
  {
    var e := numWinnerRounds;
    loserMatches := [];
    var prevLoserMatches: seq<int> := [];
    LosersTotal(e);
    for lRound := 1 to numLoserRounds + 1
      invariant |loserMatches| == LosersBefore(e, lRound)
      invariant lRound > 1 ==> |prevLoserMatches| == LoserRoundSize(e, lRound - 1)
      invariant forall j :: 0 <= j < |loserMatches| ==> loserMatches[j] == UnwiredLosersMatch(e, j)
    {
      var matchesThisRound;
      if lRound == 1 {
        matchesThisRound := bracketSize / 2 / 2;
      } else if lRound % 2 == 0 {
        matchesThisRound := |prevLoserMatches|;
        assert (lRound - 1) / 2 == (lRound - 2) / 2;
      } else {
        MinimumOneNeverApplies(e, lRound);
        matchesThisRound := |prevLoserMatches| / 2;
        if matchesThisRound < 1 {
          matchesThisRound := 1;
        }
      }
      loserMatches, prevLoserMatches :=
        AppendLoserRound(loserMatches, lRound, matchesThisRound, numWinnerRounds, firstNumber);
    }
  }

  /** One losers round: its matches, and their numbers. */
  method AppendLoserRound(before: seq<BracketMatch>, lRound: nat, matchesThisRound: nat, numWinnerRounds: nat,
        firstNumber: nat)
    returns (loserMatches: seq<BracketMatch>, currentLoserMatches: seq<int>)
    requires numWinnerRounds >= 1 && firstNumber == Pow2(numWinnerRounds) && lRound >= 1
    requires matchesThisRound == LoserRoundSize(numWinnerRounds, lRound)
      && |before| == LosersBefore(numWinnerRounds, lRound)
    requires forall j :: 0 <= j < |before| ==> before[j] == UnwiredLosersMatch(numWinnerRounds, j)
    ensures |loserMatches| == |before| + matchesThisRound && |currentLoserMatches| == matchesThisRound
    ensures forall j :: 0 <= j < |loserMatches| ==> loserMatches[j] == UnwiredLosersMatch(numWinnerRounds, j)
  {
    loserMatches, currentLoserMatches := before, [];
    var matchNum := firstNumber - 1 + |before|;
    for i := 0 to matchesThisRound
      invariant |currentLoserMatches| == i && |loserMatches| == |before| + i
      invariant matchNum == firstNumber - 1 + |loserMatches|
      invariant forall j :: 0 <= j < |loserMatches| ==> loserMatches[j] == UnwiredLosersMatch(numWinnerRounds, j)
    {
      LoserRoundOfIndex(numWinnerRounds, |loserMatches|, lRound, 1);
      matchNum := matchNum + 1;
      currentLoserMatches := currentLoserMatches + [matchNum];
      loserMatches := loserMatches + [BlankMatch(matchNum, numWinnerRounds + lRound, LosersRound(lRound))];
    }
  }

  /** The sequential wiring inside the losers bracket, the last losers match still unwired. */
  method WireLosersMatches(created: seq<BracketMatch>, winners: nat, ghost e: nat)
    returns (loserMatches: seq<BracketMatch>)
    requires e >= 1 && winners == Pow2(e) - 1 && |created| == Pow2(e) - 2
    requires forall j :: 0 <= j < |created| ==> created[j] == UnwiredLosersMatch(e, j)
    ensures |loserMatches| == |created|
    ensures forall j :: 0 <= j < |created| - 1 ==> loserMatches[j] == LosersMatchAt(e, j)
    ensures |created| > 0 ==> loserMatches[|created| - 1] == created[|created| - 1]
  {
    loserMatches := created;
    for i := 0 to |loserMatches|
      invariant |loserMatches| == |created|
      invariant forall j :: 0 <= j < |created| ==>
        loserMatches[j] == if j < i && j < |created| - 1 then LosersMatchAt(e, j) else created[j]
    {
      if i < |loserMatches| - 1 {
        var nextIdx := i / 2 + winners + |loserMatches[..i + 1]|;
        if nextIdx < winners + |loserMatches| {
          var next := loserMatches[nextIdx - winners].matchNumber;
          loserMatches := loserMatches[i :=
            loserMatches[i].(nextMatchNumber := next, nextMatchSlot := if i % 2 == 0 then 1 else 2)];
        }
      }
    }
  }

  /** Losers of the first winners round drop in pairs into the first losers matches. */
  method WireFirstRoundLosers(winners: seq<BracketMatch>, loserMatches: seq<BracketMatch>, ghost e: nat,
        ghost ranked: seq<SeedEntry>)
    returns (winnerMatches: seq<BracketMatch>)
    requires e >= 1 && SingleElimination.IsBracket(e, ranked, winners) && |loserMatches| == Pow2(e) - 2
    requires forall j :: 0 <= j < |loserMatches| ==> loserMatches[j].matchNumber == Pow2(e) + j
    ensures |winnerMatches| == Pow2(e) - 1
    ensures forall j :: 0 <= j < |winnerMatches| ==> winnerMatches[j] == WinnersMatchAt(e, ranked, j + 1)
  {
    winnerMatches := winners;
    for i := 0 to |winnerMatches|
      invariant |winnerMatches| == |winners|
      invariant forall j :: 0 <= j < |winners| ==>
        winnerMatches[j] == if j < i then WinnersMatchAt(e, ranked, j + 1) else winners[j]
    {
      assert winners[i] == SingleElimination.BracketMatchAt(e, ranked, i + 1) by {
        assert IsMatchNumber(e, i + 1) && winners[i + 1 - 1] == winners[i];
      }
      var wired := WireLoser(winnerMatches[i], i, loserMatches, e, ranked);
      winnerMatches := winnerMatches[i := wired];
    }
  }

  /** There is a losers match for every pair of first-round losers if there is a losers bracket. */
  lemma {:induction false} LoserIndex(e: nat, i: nat)
    requires e >= 1 && i < Pow2(e - 1)
    ensures e >= 2 ==> i / 2 < Pow2(e - 2) && Pow2(e - 2) <= Pow2(e) - 2
    ensures e == 1 ==> Pow2(e) - 2 == 0
  {
    if e >= 2 {
      assert Pow2(e - 1) == 2 * Pow2(e - 2) && Pow2(e) == 4 * Pow2(e - 2);
    }
  }

  lemma {:induction false} FirstRoundByIndex(e: nat, ranked: seq<SeedEntry>, i: nat)
    requires IsMatchNumber(e, i + 1)
    ensures SingleElimination.BracketMatchAt(e, ranked, i + 1).round == 1 <==> i < Pow2(e - 1)
  {
    assert SingleElimination.BracketMatchAt(e, ranked, i + 1).round == RoundOf(e, i + 1);
  }

  lemma {:induction false} SlotByIndex(i: nat)
    ensures (i + 1) % 2 == 1 <==> i % 2 == 0
  {
  }

  lemma {:induction false} WinnersMatchByIndex(e: nat, ranked: seq<SeedEntry>, i: nat)
    requires IsMatchNumber(e, i + 1)
    ensures var bm := SingleElimination.BracketMatchAt(e, ranked, i + 1);
      WinnersMatchAt(e, ranked, i + 1) ==
        if i < Pow2(e - 1) && e >= 2
          then bm.(loserNextMatchNumber := Pow2(e) + i / 2, loserNextMatchSlot := if i % 2 == 0 then 1 else 2)
          else bm
  {
    SlotByIndex(i);
  }

  method WireLoser(bm: BracketMatch, i: nat, loserMatches: seq<BracketMatch>, ghost e: nat,
        ghost ranked: seq<SeedEntry>)
    returns (wired: BracketMatch)
    requires IsMatchNumber(e, i + 1) && bm == SingleElimination.BracketMatchAt(e, ranked, i + 1)
    requires |loserMatches| == Pow2(e) - 2
    requires forall j :: 0 <= j < |loserMatches| ==> loserMatches[j].matchNumber == Pow2(e) + j
    ensures wired == WinnersMatchAt(e, ranked, i + 1)
  {
    wired := bm;
    if i < Pow2(e - 1) {
      LoserIndex(e, i);
    }
    FirstRoundByIndex(e, ranked, i);
    WinnersMatchByIndex(e, ranked, i);
    if bm.round == 1 && |loserMatches| > 0 {
      var loserIdx := i / 2;
      if loserIdx < |loserMatches| {
        wired := bm.(
          loserNextMatchNumber := loserMatches[loserIdx].matchNumber,
          loserNextMatchSlot := if i % 2 == 0 then 1 else 2);
      }
    }
  }

  /** Adds the grand finals and sends both finalists there. */
  method CombineBrackets(winners: seq<BracketMatch>, losers: seq<BracketMatch>, grandFinalsRound: nat,
                         ghost e: nat, ghost ranked: seq<SeedEntry>) returns (all: seq<BracketMatch>)
    requires e >= 1 && grandFinalsRound == e + (if e == 1 then 1 else 2 * (e - 1)) + 1
    requires |winners| == Pow2(e) - 1 && |losers| == Pow2(e) - 2
    requires forall j :: 0 <= j < |winners| ==> winners[j] == WinnersMatchAt(e, ranked, j + 1)
    requires forall j :: 0 <= j < |losers| - 1 ==> losers[j] == LosersMatchAt(e, j)
    requires |losers| > 0 ==> losers[|losers| - 1] == UnwiredLosersMatch(e, |losers| - 1)
    ensures IsDoubleBracket(e, ranked, all)
  {
    var winnerMatches, loserMatches := winners, losers;
    var matchNum := |winnerMatches| + |loserMatches| + 1;
    var grandFinals := BlankMatch(matchNum, grandFinalsRound, GrandFinals);
    var last := |winnerMatches| - 1;
    winnerMatches := winnerMatches[last := winnerMatches[last].(nextMatchNumber := matchNum, nextMatchSlot := 1)];
    if |loserMatches| > 0 {
      last := |loserMatches| - 1;
      loserMatches := loserMatches[last := loserMatches[last].(nextMatchNumber := matchNum, nextMatchSlot := 2)];
    }
    assert forall j :: 0 <= j < |loserMatches| ==> loserMatches[j] == LosersMatchAt(e, j);
    all := winnerMatches + loserMatches + [grandFinals];
  }

  method GenerateDoubleElimination(entries: seq<SeedEntry>)
    returns (result: Result<seq<BracketMatch>, BracketError>, ghost e: nat, ghost ranked: seq<SeedEntry>)
    ensures |entries| < 2 <==> result.Err?
    ensures |entries| < 2 ==> result.error == TooFewEntries(|entries|)
    ensures |entries| >= 2 ==>
      && e >= 1 && Pow2(e - 1) < |entries| <= Pow2(e)
      && SingleElimination.IsRanking(entries, ranked) && IsDoubleBracket(e, ranked, result.value)
  {
    var n := |entries|;
    if n < 2 {
      return Err(TooFewEntries(n)), 0, [];
    }
    var single;
    single, e, ranked := SingleElimination.GenerateSingleElimination(entries);
    var bracketSize := NextPowerOfTwo(n);
    ghost var exponent := NextPowerOfTwoIsLeast(n);
    SamePower(e, exponent, n);
    var numWinnerRounds := Log2(bracketSize);
    var numLoserRounds := (numWinnerRounds - 1) * 2;
    if numLoserRounds < 1 {
      numLoserRounds := 1;
    }
    var winners := |single.value|;
    var created := CreateLosersMatches(bracketSize, numWinnerRounds, numLoserRounds, winners + 1);
    var loserMatches := WireLosersMatches(created, winners, e);
    var winnerMatches := WireFirstRoundLosers(single.value, loserMatches, e, ranked);
    var all := CombineBrackets(winnerMatches, loserMatches, numWinnerRounds + numLoserRounds + 1, e, ranked);
    result := Ok(all);
  }

  lemma {:induction false} SamePower(a: nat, b: nat, n: nat)
    requires a >= 1 && b >= 1
    requires Pow2(a - 1) < n <= Pow2(a) && Pow2(b - 1) < n <= Pow2(b)
    ensures a == b
  {
    if a < b {
      Pow2Monotone(a, b - 1);
    } else if b < a {
      Pow2Monotone(b, a - 1);
    }
  }

  /** Every winner and loser edge leads to a larger match number, so rows locked from a match
      onwards are locked in increasing order: the match, its next match, the loser's next match. */
  lemma {:induction false} EdgesIncrease(e: nat, ranked: seq<SeedEntry>, k: int)
    requires e >= 1 && 1 <= k <= 2 * Pow2(e) - 2
    ensures var bm := DoubleMatchAt(e, ranked, k);
      && bm.matchNumber == k
      && (bm.nextMatchNumber != 0 ==> k < bm.nextMatchNumber <= 2 * Pow2(e) - 2)
      && (bm.loserNextMatchNumber != 0 ==> k < bm.loserNextMatchNumber < 2 * Pow2(e) - 2)
      && (bm.nextMatchNumber != 0 && bm.loserNextMatchNumber != 0 ==> bm.nextMatchNumber < bm.loserNextMatchNumber)
  {
    if k < Pow2(e) {
      NextIsOneRoundOn(e, k);
    }
  }

  /** Rounds are counted through: the winners rounds as in single elimination, then the losers rounds,
      each holding the matches after those of the rounds before it, and the grand finals last. With two
      entrants a losers round is counted that has no match. */
  lemma {:induction false} RoundsAreCountedThrough(e: nat, ranked: seq<SeedEntry>, k: int)
    requires e >= 1 && 1 <= k <= 2 * Pow2(e) - 2
    ensures var bm := DoubleMatchAt(e, ranked, k);
      && (k < Pow2(e) ==>
        var single := SingleElimination.BracketMatchAt(e, ranked, k);
        bm.round == single.round && bm.roundName == single.roundName)
      && (Pow2(e) <= k < 2 * Pow2(e) - 2 ==>
        var l := bm.round - e;
        && 1 <= l <= 2 * (e - 1) && bm.roundName == LosersRound(l)
        && LosersBefore(e, l) <= k - Pow2(e) < LosersBefore(e, l) + LoserRoundSize(e, l))
      && (k == 2 * Pow2(e) - 2 ==>
        bm.roundName == GrandFinals && bm.round == e + (if e == 1 then 1 else 2 * (e - 1)) + 1)
  {
    if Pow2(e) <= k < 2 * Pow2(e) - 2 {
      LoserRoundHolds(e, k - Pow2(e), 1);
    }
  }

  /** A path of advances: each match sends its winner or its loser to the one after it. */
  ghost predicate IsAdvancePath(e: nat, ranked: seq<SeedEntry>, path: seq<int>)
    requires e >= 1
  {
    && (forall i :: 0 <= i < |path| ==> 1 <= path[i] <= 2 * Pow2(e) - 2)
    && (forall i {:trigger path[i]} :: 0 <= i < |path| - 1 ==>
      var bm := DoubleMatchAt(e, ranked, path[i]);
      path[i + 1] == bm.nextMatchNumber || path[i + 1] == bm.loserNextMatchNumber)
  }

  /** Every chain of advances ends: no path is longer than the bracket. */
  lemma {:induction false} AdvancePathsEnd(e: nat, ranked: seq<SeedEntry>, path: seq<int>)
    requires e >= 1 && IsAdvancePath(e, ranked, path) && |path| > 0
    ensures path[|path| - 1] >= path[0] + |path| - 1
    ensures |path| <= 2 * Pow2(e) - 2
    decreases |path|
  {
    if |path| > 1 {
      var front := path[..|path| - 1];
      assert forall i :: 0 <= i < |front| ==> front[i] == path[i];
      AdvancePathsEnd(e, ranked, front);
      EdgesIncrease(e, ranked, path[|path| - 2]);
    }
  }

  /** Where a match sends someone: its winner (loser == false) or its loser. */
  ghost predicate Feeds(e: nat, ranked: seq<SeedEntry>, k: int, loser: bool, target: int, slot: int)
    requires e >= 1
  {
    && 1 <= k <= 2 * Pow2(e) - 2 && target > 0
    && var bm := DoubleMatchAt(e, ranked, k);
      if loser then bm.loserNextMatchNumber == target && bm.loserNextMatchSlot == slot
      else bm.nextMatchNumber == target && bm.nextMatchSlot == slot
  }

  /** Every first-round loser drops into a first-round losers match, in a slot no other
      first-round loser gets -- exactly when there is a losers bracket, that is from size 4 on. */
  lemma {:induction false} FirstRoundLosersGetOwnSlots(e: nat, ranked: seq<SeedEntry>, k: int, k': int)
    requires e >= 1 && 1 <= k <= Pow2(e - 1) && 1 <= k' <= Pow2(e - 1)
    ensures var bm := DoubleMatchAt(e, ranked, k);
      && (bm.loserNextMatchNumber != 0 <==> e >= 2)
      && (e >= 2 ==>
        && Pow2(e) <= bm.loserNextMatchNumber < Pow2(e) + Pow2(e - 2)
        && DoubleMatchAt(e, ranked, bm.loserNextMatchNumber).roundName == LosersRound(1)
        && Feeds(e, ranked, k, true, bm.loserNextMatchNumber, bm.loserNextMatchSlot)
        && (Feeds(e, ranked, k', true, bm.loserNextMatchNumber, bm.loserNextMatchSlot) ==> k == k'))
  {
    if e >= 2 {
      LoserRoundOfIndex(e, (k - 1) / 2, 1, 1);
      assert Pow2(e) == 4 * Pow2(e - 2);
    }
  }

  /** Two different edges fill the same slot. */
  ghost predicate SlotHasTwoFeeders(e: nat, ranked: seq<SeedEntry>)
    requires e >= 1
  {
    exists k, k', loser, loser', target, slot ::
      (k, loser) != (k', loser') && Feeds(e, ranked, k, loser, target, slot)
        && Feeds(e, ranked, k', loser', target, slot)
  }

  /** The simplified losers wiring fills one slot from two matches exactly from size 8 on: there
      the first losers match sends its winner to the slot that already takes the loser of match 3. */
  lemma {:induction false} LosersWiringClashes(e: nat, ranked: seq<SeedEntry>)
    requires e >= 1
    ensures SlotHasTwoFeeders(e, ranked) <==> e >= 3
  {
    if e >= 3 {
      Pow2Monotone(3, e);
      assert Pow2(3) == 2 * Pow2(2) == 8;
      assert Feeds(e, ranked, Pow2(e), false, Pow2(e) + 1, 1);
      assert Feeds(e, ranked, 3, true, Pow2(e) + 1, 1);
    } else {
      assert Pow2(1) == 2 && Pow2(2) == 4;
      forall k, k', loser, loser', target, slot
        | Feeds(e, ranked, k, loser, target, slot) && Feeds(e, ranked, k', loser', target, slot)
        ensures (k, loser) == (k', loser')
      {
        SmallBracketEdges(e, ranked, k, loser, target, slot);
        SmallBracketEdges(e, ranked, k', loser', target, slot);
      }
    }
  }

  /** All edges of the two brackets without a clash. */
  lemma {:induction false} SmallBracketEdges(e: nat, ranked: seq<SeedEntry>, k: int, loser: bool, target: int,
        slot: int)
    requires 1 <= e <= 2 && Feeds(e, ranked, k, loser, target, slot)
    ensures e == 1 ==> (k, loser, target, slot) == (1, false, 2, 1)
    ensures e == 2 ==>
      || (k, loser, target, slot) == (1, false, 3, 1) || (k, loser, target, slot) == (2, false, 3, 2)
      || (k, loser, target, slot) == (1, true, 4, 1) || (k, loser, target, slot) == (2, true, 4, 2)
      || (k, loser, target, slot) == (4, false, 5, 1)
      || (k, loser, target, slot) == (3, false, 6, 1) || (k, loser, target, slot) == (5, false, 6, 2)
  {
    assert Pow2(0) == 1 && Pow2(1) == 2 && Pow2(2) == 4;
  }
}
