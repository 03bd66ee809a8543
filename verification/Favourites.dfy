/** A finished bracket in which the better rank won every match. */
module Favourites {
  import opened Wrappers
  import opened PowersOfTwo
  import opened SeedOrder
  import opened Brackets
  import opened MatchTable
  import opened BracketTree
  import opened SingleElimination
  import opened BracketService
  import opened ByePlacement
  import opened AdvanceRuns
  import opened PersistedBrackets

  /** The rank of every team of the field. */
  ghost predicate RanksTeams(ranked: seq<SeedEntry>, rankOf: map<int, int>) {
    forall k :: 0 <= k < |ranked| ==> ranked[k].teamId in rankOf && rankOf[ranked[k].teamId] == k + 1
  }

  /** The rank in a slot of a match; the empty slot of a BYE match stands for the missing rank. */
  function RankIn(e: nat, rankOf: map<int, int>, teams: TeamColumns, m: int, slot: int): int {
    var team := TeamInSlot(teams, slot);
    if team.Some? && team.value in rankOf then rankOf[team.value]
    else if e >= 1 && 1 <= m <= Pow2(e - 1) && 1 <= slot <= 2 then SeedAt(e, 2 * (m - 1) + slot - 1)
    else 0
  }

  function MeetingIn(e: nat, rankOf: map<int, int>, idOf: map<int, int>, db: Table, m: int): Pair {
    if m in idOf && idOf[m] in db then
      var teams := At(db, idOf, m).teams;
      Pair(RankIn(e, rankOf, teams, m, 1), RankIn(e, rankOf, teams, m, 2))
    else Pair(0, 0)
  }

  /** The bracket was drawn as GenerateBracket draws it. */
  ghost predicate IsDrawn(e: nat, ranked: seq<SeedEntry>, idOf: map<int, int>, db: Table) {
    e >= 1 && forall m :: 1 <= m <= Pow2(e - 1) ==>
      && m in idOf && idOf[m] in db
      && At(db, idOf, m).teams.team1Id == Some(TopEntrant(e, ranked, m).teamId)
      && At(db, idOf, m).teams.team2Id
        == (if IsByeMatch(e, ranked, m) then None else Some(Entrant(ranked, SeedAt(e, 2 * (m - 1) + 1)).teamId))
  }

  /** The winner of every match with two teams is its better rank. */
  ghost predicate BetterRankAlwaysWins(e: nat, rankOf: map<int, int>, idOf: map<int, int>, db: Table) {
    forall m :: m in idOf && idOf[m] in db && BothSlotsFilled(At(db, idOf, m)) ==>
      var teams, winner := At(db, idOf, m).teams, At(db, idOf, m).result.winnerTeamId;
      winner == if RankIn(e, rankOf, teams, m, 1) <= RankIn(e, rankOf, teams, m, 2) then teams.team1Id
        else teams.team2Id
  }

  /** Everything is decided and advanced, and every match went to its better rank. */
  ghost predicate BetterRankWon(e: nat, rankOf: map<int, int>, idOf: map<int, int>, db: Table) {
    && Invariant(e, idOf, db)
    && (forall m :: m in idOf ==> HasWinner(At(db, idOf, m)))
    && (forall m :: m in idOf && m > Pow2(e - 1) ==> BothSlotsFilled(At(db, idOf, m)))
    && BetterRankAlwaysWins(e, rankOf, idOf, db)
  }

  lemma {:induction false} DrawnMeeting(e: nat, ranked: seq<SeedEntry>, rankOf: map<int, int>, idOf: map<int, int>,
        db: Table, m: int)
    requires IsField(e, ranked) && RanksTeams(ranked, rankOf) && IsDrawn(e, ranked, idOf, db) && 1 <= m <= Pow2(e - 1)
    ensures m in idOf && idOf[m] in db
    ensures MeetingIn(e, rankOf, idOf, db, m) == Pair(SeedAt(e, 2 * (m - 1)), SeedAt(e, 2 * (m - 1) + 1))
    ensures MeetingIn(e, rankOf, idOf, db, m).one < MeetingIn(e, rankOf, idOf, db, m).two
  {
  }

  /** Every match sends its better rank to its next match and slot. */
  lemma {:induction false} BetterRankMovesOn(e: nat, ranked: seq<SeedEntry>, rankOf: map<int, int>,
        idOf: map<int, int>, db: Table, m: int)
    requires IsField(e, ranked) && RanksTeams(ranked, rankOf) && IsDrawn(e, ranked, idOf, db)
    requires BetterRankWon(e, rankOf, idOf, db) && 1 <= m < Pow2(e) - 1
    ensures m in idOf && idOf[m] in db && Next(e, m) in idOf && idOf[Next(e, m)] in db
    ensures MeetingIn(e, rankOf, idOf, db, Next(e, m)).Slot(DetermineSlotInNextMatch(m))
      == MeetingIn(e, rankOf, idOf, db, m).Better()
    decreases m
  {
    NextIsOneRoundOn(e, m);
    Feeders(e, m, Next(e, m));
    var next, slot := Next(e, m), DetermineSlotInNextMatch(m);
    assert HoldsFeederWinner(e, idOf, db, next, slot);
    assert BothSlotsFilled(At(db, idOf, next));
    assert TeamInSlot(At(db, idOf, next).teams, slot) == At(db, idOf, m).result.winnerTeamId;
    WinnerIsBetter(e, ranked, rankOf, idOf, db, m);
  }

  lemma {:induction false} WinnerIsBetter(e: nat, ranked: seq<SeedEntry>, rankOf: map<int, int>, idOf: map<int, int>,
        db: Table, m: int)
    requires IsField(e, ranked) && RanksTeams(ranked, rankOf) && IsDrawn(e, ranked, idOf, db)
    requires BetterRankWon(e, rankOf, idOf, db) && 1 <= m < Pow2(e) && m in idOf
    ensures idOf[m] in db && At(db, idOf, m).result.winnerTeamId.Some?
    ensures var winner := At(db, idOf, m).result.winnerTeamId.value;
      winner in rankOf && rankOf[winner] == MeetingIn(e, rankOf, idOf, db, m).Better()
    decreases m
  {
    assert IsRightlyDecided(At(db, idOf, m)) && IsFinished(At(db, idOf, m));
    if m <= Pow2(e - 1) {
      DrawnMeeting(e, ranked, rankOf, idOf, db, m);
      DrawnTeamsAreRanked(e, ranked, rankOf, idOf, db, m);
    } else {
      SlotIsRanked(e, ranked, rankOf, idOf, db, m, 1);
      SlotIsRanked(e, ranked, rankOf, idOf, db, m, 2);
    }
  }

  lemma {:induction false} DrawnTeamsAreRanked(e: nat, ranked: seq<SeedEntry>, rankOf: map<int, int>,
        idOf: map<int, int>, db: Table, m: int)
    requires IsField(e, ranked) && RanksTeams(ranked, rankOf) && IsDrawn(e, ranked, idOf, db) && 1 <= m <= Pow2(e - 1)
    ensures m in idOf && idOf[m] in db
    ensures var teams := At(db, idOf, m).teams;
      teams.team1Id.Some? && teams.team1Id.value in rankOf && (teams.team2Id.Some? ==> teams.team2Id.value in rankOf)
  {
  }

  lemma {:induction false} SlotIsRanked(e: nat, ranked: seq<SeedEntry>, rankOf: map<int, int>, idOf: map<int, int>,
        db: Table, m: int, slot: int)
    requires IsField(e, ranked) && RanksTeams(ranked, rankOf) && IsDrawn(e, ranked, idOf, db)
    requires BetterRankWon(e, rankOf, idOf, db) && Pow2(e - 1) < m < Pow2(e) && m in idOf && 1 <= slot <= 2
    ensures idOf[m] in db && TeamInSlot(At(db, idOf, m).teams, slot).Some?
    ensures TeamInSlot(At(db, idOf, m).teams, slot).value in rankOf
    decreases m, 0
  {
    FeederFeeds(e, m, slot);
    assert BothSlotsFilled(At(db, idOf, m));
    assert HoldsFeederWinner(e, idOf, db, m, slot);
    WinnerIsBetter(e, ranked, rankOf, idOf, db, Feeder(e, m, slot));
  }

  /** The meetings of all matches, by match number. */
  function Meetings(e: nat, rankOf: map<int, int>, idOf: map<int, int>, db: Table): seq<Pair> {
    seq(Pow2(e) - 1, i requires 0 <= i < Pow2(e) - 1 => MeetingIn(e, rankOf, idOf, db, i + 1))
  }

  lemma {:induction false} MeetingMovesOn(e: nat, ranked: seq<SeedEntry>, rankOf: map<int, int>, idOf: map<int, int>,
        db: Table, m: int)
    requires IsField(e, ranked) && RanksTeams(ranked, rankOf) && IsDrawn(e, ranked, idOf, db)
    requires BetterRankWon(e, rankOf, idOf, db) && 1 <= m < Pow2(e) - 1
    ensures IsLinked(e, Meetings(e, rankOf, idOf, db), m)
  {
    NextIsOneRoundOn(e, m);
    BetterRankMovesOn(e, ranked, rankOf, idOf, db, m);
  }

  lemma {:induction false} MeetingIsDrawn(e: nat, ranked: seq<SeedEntry>, rankOf: map<int, int>, idOf: map<int, int>,
        db: Table, i: int)
    requires IsField(e, ranked) && RanksTeams(ranked, rankOf) && IsDrawn(e, ranked, idOf, db)
    requires 0 <= i < Pow2(e - 1)
    ensures IsDrawnAt(e, Meetings(e, rankOf, idOf, db), i)
  {
    DrawnMeeting(e, ranked, rankOf, idOf, db, i + 1);
  }

  lemma {:induction false} MeetingsAreDrawnAndMoved(e: nat, ranked: seq<SeedEntry>, rankOf: map<int, int>,
        idOf: map<int, int>, db: Table)
    requires IsField(e, ranked) && RanksTeams(ranked, rankOf) && IsDrawn(e, ranked, idOf, db)
    requires BetterRankWon(e, rankOf, idOf, db)
    ensures BetterRankAdvances(e, Meetings(e, rankOf, idOf, db))
  {
    var meets := Meetings(e, rankOf, idOf, db);
    forall i | 0 <= i < Pow2(e - 1) ensures IsDrawnAt(e, meets, i) {
      MeetingIsDrawn(e, ranked, rankOf, idOf, db, i);
    }
    forall m | 1 <= m < Pow2(e) - 1 ensures IsLinked(e, meets, m) {
      MeetingMovesOn(e, ranked, rankOf, idOf, db, m);
    }
  }

  /** When the better rank wins every match of the persisted bracket, every match of round r has
      paired two ranks that sum to size/Pow2(r-1) + 1. */
  lemma {:induction false} FavouritesMeet(e: nat, ranked: seq<SeedEntry>, rankOf: map<int, int>, idOf: map<int, int>,
        db: Table, m: int)
    requires IsField(e, ranked) && RanksTeams(ranked, rankOf) && IsDrawn(e, ranked, idOf, db)
    requires BetterRankWon(e, rankOf, idOf, db) && IsMatchNumber(e, m)
    ensures m in idOf && idOf[m] in db
    ensures var meeting := MeetingIn(e, rankOf, idOf, db, m);
      meeting.one + meeting.two == Pow2(e + 1 - RoundOf(e, m)) + 1
  {
    MeetingsAreDrawnAndMoved(e, ranked, rankOf, idOf, db);
    var meets := Meetings(e, rankOf, idOf, db);
    assert meets[m - 1] == MeetingIn(e, rankOf, idOf, db, m);
    BetterRankMeetings(e, meets, m);
  }

  /** ... the final is rank 1 against rank 2, and rank 1 is the champion. */
  lemma {:induction false} FavouriteWinsTheFinal(e: nat, ranked: seq<SeedEntry>, rankOf: map<int, int>,
        idOf: map<int, int>, db: Table)
    requires IsField(e, ranked) && RanksTeams(ranked, rankOf) && IsDrawn(e, ranked, idOf, db)
    requires BetterRankWon(e, rankOf, idOf, db)
    ensures Pow2(e) - 1 in idOf && idOf[Pow2(e) - 1] in db
    ensures MeetingIn(e, rankOf, idOf, db, Pow2(e) - 1) == Pair(1, 2)
    ensures At(db, idOf, Pow2(e) - 1).result.winnerTeamId == Some(ranked[0].teamId)
  {
    MeetingsAreDrawnAndMoved(e, ranked, rankOf, idOf, db);
    BetterRankFinal(e, Meetings(e, rankOf, idOf, db));
    ChampionIsRankOne(e, ranked, rankOf, idOf, db);
  }

  /** The champion's rank is 1, so it is the first of the ranking. */
  lemma {:induction false} ChampionIsRankOne(e: nat, ranked: seq<SeedEntry>, rankOf: map<int, int>,
        idOf: map<int, int>, db: Table)
    requires IsField(e, ranked) && RanksTeams(ranked, rankOf) && IsDrawn(e, ranked, idOf, db)
    requires BetterRankWon(e, rankOf, idOf, db)
    requires Pow2(e) - 1 in idOf && idOf[Pow2(e) - 1] in db
    requires MeetingIn(e, rankOf, idOf, db, Pow2(e) - 1) == Pair(1, 2)
    ensures At(db, idOf, Pow2(e) - 1).result.winnerTeamId == Some(ranked[0].teamId)
  {
    var path := WinnersOfField(e, ranked, rankOf, idOf, db, Pow2(e) - 1);
    WinnerIsBetter(e, ranked, rankOf, idOf, db, Pow2(e) - 1);
  }

  lemma {:induction false} DrawnWinner(e: nat, ranked: seq<SeedEntry>, idOf: map<int, int>, db: Table, m: int)
    returns (k: nat)
    requires IsField(e, ranked) && IsDrawn(e, ranked, idOf, db) && 1 <= m <= Pow2(e - 1)
    requires m in idOf && idOf[m] in db && HasWinner(At(db, idOf, m)) && IsRightlyDecided(At(db, idOf, m))
    ensures k < |ranked| && At(db, idOf, m).result.winnerTeamId == Some(ranked[k].teamId)
  {
    var row := At(db, idOf, m);
    PairSum(e, m - 1);
    var (one, two) := (SeedAt(e, 2 * (m - 1)), SeedAt(e, 2 * (m - 1) + 1));
    k := if row.result.winnerTeamId == row.teams.team1Id then one - 1 else two - 1;
  }

  /** Every winner is one of the ranked teams. */
  lemma {:induction false} WinnersOfField(e: nat, ranked: seq<SeedEntry>, rankOf: map<int, int>, idOf: map<int, int>,
        db: Table, m: int)
    returns (k: nat)
    requires IsField(e, ranked) && RanksTeams(ranked, rankOf) && IsDrawn(e, ranked, idOf, db)
    requires BetterRankWon(e, rankOf, idOf, db) && m in idOf
    ensures idOf[m] in db && k < |ranked| && At(db, idOf, m).result.winnerTeamId == Some(ranked[k].teamId)
    decreases m
  {
    var row := At(db, idOf, m);
    assert IsRightlyDecided(row) && IsFinished(row);
    if m <= Pow2(e - 1) {
      k := DrawnWinner(e, ranked, idOf, db, m);
    } else {
      var slot := if row.result.winnerTeamId == row.teams.team1Id then 1 else 2;
      assert HoldsFeederWinner(e, idOf, db, m, slot);
      FeederFeeds(e, m, slot);
      k := WinnersOfField(e, ranked, rankOf, idOf, db, Feeder(e, m, slot));
    }
  }

  lemma {:induction false} PersistedBracketIsDrawn(e: nat, ranked: seq<SeedEntry>, bms: seq<BracketMatch>,
        idOf: map<int, int>, db: Table)
    requires IsField(e, ranked) && IsPersisted(e, ranked, bms, idOf, db)
    ensures IsDrawn(e, ranked, idOf, db)
  {
    forall m | 1 <= m <= Pow2(e - 1)
      ensures m in idOf && idOf[m] in db
      ensures At(db, idOf, m).teams.team1Id == Some(TopEntrant(e, ranked, m).teamId)
      ensures At(db, idOf, m).teams.team2Id
        == (if IsByeMatch(e, ranked, m) then None else Some(Entrant(ranked, SeedAt(e, 2 * (m - 1) + 1)).teamId))
    {
      PersistedFirstRound(e, ranked, bms, idOf, db, m);
      PairSum(e, m - 1);
    }
  }

  /** No step touches the draw of the first round. */
  lemma {:induction false} StepKeepsTheDraw(e: nat, ranked: seq<SeedEntry>, idOf: map<int, int>, db: Table, step: Step)
    requires Invariant(e, idOf, db) && IsDrawn(e, ranked, idOf, db) && IsEnabled(e, idOf, db, step)
    ensures IsDrawn(e, ranked, idOf, Do(idOf, db, step))
  {
    forall m | 1 <= m <= Pow2(e - 1)
      ensures idOf[m] in Do(idOf, db, step) && At(Do(idOf, db, step), idOf, m).teams == At(db, idOf, m).teams
    {
      StepKeepsFirstRoundTeams(e, idOf, db, step, m);
    }
  }

  lemma {:induction false} RunKeepsTheDraw(e: nat, ranked: seq<SeedEntry>, idOf: map<int, int>, db: Table,
        steps: seq<Step>)
    requires Invariant(e, idOf, db) && IsDrawn(e, ranked, idOf, db) && IsRun(e, idOf, db, steps)
    ensures IsDrawn(e, ranked, idOf, DoAll(idOf, db, steps))
    decreases |steps|
  {
    if steps != [] {
      StepKeepsInvariant(e, idOf, db, steps[0]);
      StepKeepsTheDraw(e, ranked, idOf, db, steps[0]);
      RunKeepsTheDraw(e, ranked, idOf, Do(idOf, db, steps[0]), steps[1..]);
    }
  }

  /** From generation to the trophy: play a persisted bracket to rest by any run in which the
      better rank wins every match, and the final has been rank 1 against rank 2, won by rank 1. */
  lemma {:induction false} SeedingKeepsFavouritesApart(e: nat, ranked: seq<SeedEntry>, rankOf: map<int, int>,
        bms: seq<BracketMatch>, idOf: map<int, int>, db: Table, steps: seq<Step>)
    requires IsField(e, ranked) && RanksTeams(ranked, rankOf) && IsPersisted(e, ranked, bms, idOf, db)
    requires IsRun(e, idOf, db, steps) && IsQuiet(e, idOf, DoAll(idOf, db, steps))
    requires BetterRankAlwaysWins(e, rankOf, idOf, DoAll(idOf, db, steps))
    ensures var end, final := DoAll(idOf, db, steps), Pow2(e) - 1;
      && final in idOf && idOf[final] in end
      && MeetingIn(e, rankOf, idOf, end, final) == Pair(1, 2)
      && At(end, idOf, final).result.winnerTeamId == Some(ranked[0].teamId)
  {
    var end := DoAll(idOf, db, steps);
    PersistedBracketIsReady(e, ranked, bms, idOf, db);
    PersistedBracketIsDrawn(e, ranked, bms, idOf, db);
    RunsAreSafe(e, idOf, db, steps);
    RunKeepsTheDraw(e, ranked, idOf, db, steps);
    FirstRoundStaysFilled(e, idOf, db, end);
    forall m | m in idOf
      ensures HasWinner(At(end, idOf, m)) && (m > Pow2(e - 1) ==> BothSlotsFilled(At(end, idOf, m)))
    {
      QuietMeansDecided(e, idOf, end, m);
    }
    FavouriteWinsTheFinal(e, ranked, rankOf, idOf, end);
  }
}
