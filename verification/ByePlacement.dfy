/** What the third pass leaves of a single-elimination bracket: every entrant of a BYE match
    already stands in its next match, and nothing else has moved. */
module ByePlacement {
  import opened Wrappers
  import opened PowersOfTwo
  import opened SeedOrder
  import opened Brackets
  import opened Scoring
  import opened MatchTable
  import opened BracketTree
  import opened SingleElimination
  import opened BracketService

  /** A full ranking for a bracket of Pow2(e), as GenerateBracket makes it from registrations:
      seeds are positive. A registration without a team has a team id that is not positive. */
  ghost predicate IsSeeded(e: nat, ranked: seq<SeedEntry>) {
    && e >= 1 && Pow2(e - 1) < |ranked| <= Pow2(e)
    && forall i :: 0 <= i < |ranked| ==> ranked[i].seed > 0
  }

  /** ... and every registration has a team. */
  ghost predicate IsField(e: nat, ranked: seq<SeedEntry>) {
    IsSeeded(e, ranked) && forall i :: 0 <= i < |ranked| ==> ranked[i].teamId > 0
  }

  predicate IsByeMatch(e: nat, ranked: seq<SeedEntry>, m: int)
    requires IsMatchNumber(e, m)
  {
    m <= Pow2(e - 1) && SeedAt(e, 2 * (m - 1)) <= Pow2(e) - |ranked|
  }

  /** The entrant in slot 1 of a first-round match. */
  function TopEntrant(e: nat, ranked: seq<SeedEntry>, m: int): SeedEntry
    requires e >= 1 && 1 <= m <= Pow2(e - 1)
  {
    Entrant(ranked, SeedAt(e, 2 * (m - 1)))
  }

  /** The feeder of a slot in a match after the first round. */
  function Feeder(e: nat, m: int, slot: int): int
    requires e >= 1
  {
    2 * (m - Pow2(e - 1)) - 2 + slot
  }

  lemma {:induction false} FeederFeeds(e: nat, m: int, slot: int)
    requires IsMatchNumber(e, m) && m > Pow2(e - 1) && (slot == 1 || slot == 2)
    ensures IsMatchNumber(e, Feeder(e, m, slot)) && Feeder(e, m, slot) < m
    ensures Next(e, Feeder(e, m, slot)) == m && DetermineSlotInNextMatch(Feeder(e, m, slot)) == slot
  {
  }

  /** A BYE match after the third pass: completed, and won if the entrant has a team. */
  function ByeRow(row: MatchRow, top: SeedEntry): MatchRow {
    if top.teamId > 0 then WithResult(row, Some(top.teamId), None, ByBye) else row.(status := Completed)
  }

  function Placed(teams: TeamColumns, slot: int, top: SeedEntry): TeamColumns {
    if top.teamId > 0 then FillSlotAndSeed(teams, slot, top.teamId, top.seed) else teams
  }

  /** The row of match m when the third pass has handled the first n matches. */
  function RowAfter(e: nat, ranked: seq<SeedEntry>, idOf: map<int, int>, n: nat, m: int): MatchRow
    requires IsMatchNumber(e, m)
  {
    var row := WiredRow(BracketMatchAt(e, ranked, m), idOf);
    if m <= Pow2(e - 1) then
      if IsByeMatch(e, ranked, m) && m <= n
        then ByeRow(row, TopEntrant(e, ranked, m))
        else row
    else
      row.(teams := TeamsFrom(e, ranked, n, m, 2, TeamsFrom(e, ranked, n, m, 1, row.teams)))
  }

  function TeamsFrom(e: nat, ranked: seq<SeedEntry>, n: nat, m: int, slot: int, teams: TeamColumns): TeamColumns
    requires IsMatchNumber(e, m) && m > Pow2(e - 1) && (slot == 1 || slot == 2)
  {
    FeederFeeds(e, m, slot);
    var feeder := Feeder(e, m, slot);
    if IsByeMatch(e, ranked, feeder) && feeder <= n
      then Placed(teams, slot, TopEntrant(e, ranked, feeder))
      else teams
  }

  /** What the third pass reads of a match. */
  lemma {:induction false} ByeMatchFacts(e: nat, ranked: seq<SeedEntry>, m: int)
    requires IsSeeded(e, ranked) && IsMatchNumber(e, m)
    ensures var bm := BracketMatchAt(e, ranked, m);
      && (bm.isBye <==> IsByeMatch(e, ranked, m))
      && bm.nextMatchNumber == Next(e, m) && (bm.nextMatchNumber == 0 <==> m == Pow2(e) - 1)
      && (bm.isBye ==>
        && Pow2(e - 1) < Next(e, m) < Pow2(e) && bm.nextMatchSlot == DetermineSlotInNextMatch(m)
        && Positive(ByeWinner(bm)) == Positive(TopEntrant(e, ranked, m).teamId) && ByeWinner(bm) >= 0
        && bm.byeWinnerSeed == TopEntrant(e, ranked, m).seed)
  {
  }

  /** The rows when the third pass has handled the first n matches. */
  ghost predicate AreRowsAfter(e: nat, ranked: seq<SeedEntry>, idOf: map<int, int>, n: nat, rows: seq<MatchRow>) {
    |rows| == Pow2(e) - 1 && forall m :: IsMatchNumber(e, m) ==> rows[m - 1] == RowAfter(e, ranked, idOf, n, m)
  }

  /** One step of the third pass, on a BYE match: its own row and one slot of the next row. */
  lemma {:induction false} ByeStepRows(e: nat, ranked: seq<SeedEntry>, idOf: map<int, int>, rows: seq<MatchRow>, n: nat)
    requires IsSeeded(e, ranked) && n < |rows| && AreRowsAfter(e, ranked, idOf, n, rows)
    ensures AreRowsAfter(e, ranked, idOf, n + 1, ByeStep(rows, BracketMatchAt(e, ranked, n + 1), n))
  {
    forall m | IsMatchNumber(e, m)
      ensures ByeStep(rows, BracketMatchAt(e, ranked, n + 1), n)[m - 1] == RowAfter(e, ranked, idOf, n + 1, m)
    {
      ByeStepRow(e, ranked, idOf, rows, n, m);
    }
  }

  /** What the third pass does on match n + 1 to the row of match m. */
  function RowStep(e: nat, ranked: seq<SeedEntry>, n: nat, m: int, row: MatchRow): MatchRow
    requires n < Pow2(e) - 1 && IsMatchNumber(e, m)
  {
    if !IsByeMatch(e, ranked, n + 1) then row
    else
      var top := TopEntrant(e, ranked, n + 1);
      if m == n + 1 then ByeRow(row, top)
      else if m == Next(e, n + 1) then row.(teams := Placed(row.teams, DetermineSlotInNextMatch(n + 1), top))
      else row
  }

  lemma {:induction false} ByeStepEffect(e: nat, ranked: seq<SeedEntry>, rows: seq<MatchRow>, n: nat, m: int)
    requires IsSeeded(e, ranked) && n < |rows| == Pow2(e) - 1 && IsMatchNumber(e, m)
    ensures ByeStep(rows, BracketMatchAt(e, ranked, n + 1), n)[m - 1] == RowStep(e, ranked, n, m, rows[m - 1])
  {
    ByeMatchFacts(e, ranked, n + 1);
  }

  lemma {:induction false} ByeStepRow(e: nat, ranked: seq<SeedEntry>, idOf: map<int, int>, rows: seq<MatchRow>,
        n: nat, m: int)
    requires IsSeeded(e, ranked) && n < |rows| == Pow2(e) - 1 && IsMatchNumber(e, m)
    requires rows[m - 1] == RowAfter(e, ranked, idOf, n, m)
    ensures ByeStep(rows, BracketMatchAt(e, ranked, n + 1), n)[m - 1] == RowAfter(e, ranked, idOf, n + 1, m)
  {
    ByeStepEffect(e, ranked, rows, n, m);
    RowAfterStep(e, ranked, idOf, n, m);
  }

  lemma {:induction false} RowAfterStep(e: nat, ranked: seq<SeedEntry>, idOf: map<int, int>, n: nat, m: int)
    requires IsSeeded(e, ranked) && n < Pow2(e) - 1 && IsMatchNumber(e, m)
    ensures RowAfter(e, ranked, idOf, n + 1, m) == RowStep(e, ranked, n, m, RowAfter(e, ranked, idOf, n, m))
  {
    if IsByeMatch(e, ranked, n + 1) && m == n + 1 {
      RowAfterOwnMatch(e, ranked, idOf, m);
    } else if IsByeMatch(e, ranked, n + 1) && m == Next(e, n + 1) {
      RowAfterOwnFeeder(e, ranked, idOf, n, m);
    } else {
      RowAfterOtherMatch(e, ranked, idOf, n, m);
    }
  }

  /** A step on a BYE match completes its row. */
  lemma {:induction false} RowAfterOwnMatch(e: nat, ranked: seq<SeedEntry>, idOf: map<int, int>, m: int)
    requires IsSeeded(e, ranked) && IsMatchNumber(e, m) && IsByeMatch(e, ranked, m)
    ensures RowAfter(e, ranked, idOf, m, m)
      == ByeRow(RowAfter(e, ranked, idOf, m - 1, m), TopEntrant(e, ranked, m))
  {
  }

  /** A step on a match that is no BYE match, or neither this match nor one of its feeders. */
  lemma {:induction false} RowAfterOtherMatch(e: nat, ranked: seq<SeedEntry>, idOf: map<int, int>, n: nat, m: int)
    requires IsSeeded(e, ranked) && n < Pow2(e) - 1 && IsMatchNumber(e, m)
    requires IsByeMatch(e, ranked, n + 1) ==> m != n + 1 && m != Next(e, n + 1)
    ensures RowAfter(e, ranked, idOf, n + 1, m) == RowAfter(e, ranked, idOf, n, m)
  {
  }

  /** A step on a BYE match that feeds this match fills the feeder's slot. */
  lemma {:induction false} RowAfterOwnFeeder(e: nat, ranked: seq<SeedEntry>, idOf: map<int, int>, n: nat, m: int)
    requires IsSeeded(e, ranked) && n < Pow2(e) - 1 && IsMatchNumber(e, m)
    requires IsByeMatch(e, ranked, n + 1) && m == Next(e, n + 1)
    ensures var row, top := RowAfter(e, ranked, idOf, n, m), TopEntrant(e, ranked, n + 1);
      RowAfter(e, ranked, idOf, n + 1, m)
        == row.(teams := Placed(row.teams, DetermineSlotInNextMatch(n + 1), top))
  {
    ByeMatchFacts(e, ranked, n + 1);
    FeederFeeds(e, m, 1);
    FeederFeeds(e, m, 2);
    Feeders(e, n + 1, m);
    var slot := DetermineSlotInNextMatch(n + 1);
    assert n + 1 == Feeder(e, m, slot);
    assert Feeder(e, m, 3 - slot) <= n + 1 <==> Feeder(e, m, 3 - slot) <= n;
  }

  lemma {:induction false} RowsBeforePass(e: nat, ranked: seq<SeedEntry>, bms: seq<BracketMatch>, idOf: map<int, int>)
    requires IsSeeded(e, ranked) && IsBracket(e, ranked, bms)
    ensures AreRowsAfter(e, ranked, idOf, 0, WiredRows(bms, idOf))
  {
    forall m | IsMatchNumber(e, m) ensures WiredRows(bms, idOf)[m - 1] == RowAfter(e, ranked, idOf, 0, m) {
      if m > Pow2(e - 1) {
        FeederFeeds(e, m, 1);
        FeederFeeds(e, m, 2);
      }
    }
  }

  lemma {:induction false} BracketMatchOf(e: nat, ranked: seq<SeedEntry>, bms: seq<BracketMatch>, n: nat)
    requires e >= 1 && IsBracket(e, ranked, bms) && n < |bms|
    ensures IsMatchNumber(e, n + 1) && bms[n] == BracketMatchAt(e, ranked, n + 1)
  {
    assert IsMatchNumber(e, n + 1) && bms[n + 1 - 1] == bms[n];
  }

  lemma {:induction false} ByePassStep(e: nat, ranked: seq<SeedEntry>, bms: seq<BracketMatch>, idOf: map<int, int>,
        rows: seq<MatchRow>, n: nat)
    requires IsSeeded(e, ranked) && IsBracket(e, ranked, bms) && n < |bms|
    requires AreRowsAfter(e, ranked, idOf, n, rows)
    ensures AreRowsAfter(e, ranked, idOf, n + 1, ByeStep(rows, bms[n], n))
  {
    BracketMatchOf(e, ranked, bms, n);
    ByeStepRows(e, ranked, idOf, rows, n);
  }

  /** After any number of matches of the third pass, every row is as RowAfter says. */
  lemma {:induction false} ByePassRows(e: nat, ranked: seq<SeedEntry>, bms: seq<BracketMatch>, idOf: map<int, int>,
        n: nat)
    requires IsSeeded(e, ranked) && IsBracket(e, ranked, bms) && n <= |bms|
    ensures AreRowsAfter(e, ranked, idOf, n, ByePass(WiredRows(bms, idOf), bms, n))
    decreases n
  {
    if n == 0 {
      RowsBeforePass(e, ranked, bms, idOf);
    } else {
      ByePassRows(e, ranked, bms, idOf, n - 1);
      ByePassStep(e, ranked, bms, idOf, ByePass(WiredRows(bms, idOf), bms, n - 1), n - 1);
    }
  }

  lemma {:induction false} FirstRoundEntrants(e: nat, ranked: seq<SeedEntry>, m: int)
    requires IsSeeded(e, ranked) && 1 <= m <= Pow2(e - 1)
    ensures IsMatchNumber(e, m)
    ensures var teams := CreatedRow(BracketMatchAt(e, ranked, m)).teams;
      var (top, other) := (TopEntrant(e, ranked, m), Entrant(ranked, SeedAt(e, 2 * (m - 1) + 1)));
      && teams.team1Id == Positive(top.teamId) && teams.team1Seed == Some(top.seed)
      && teams.team2Id == (if IsByeMatch(e, ranked, m) then None else Positive(other.teamId))
      && teams.team2Seed == (if IsByeMatch(e, ranked, m) then None else Some(other.seed))
  {
    PairSum(e, m - 1);
    var (one, two) := (SeedAt(e, 2 * (m - 1)), SeedAt(e, 2 * (m - 1) + 1));
    assert IsByeMatch(e, ranked, m) <==> two > |ranked|;
    assert ranked[one - 1].seed > 0;
    if two <= |ranked| {
      assert ranked[two - 1].seed > 0;
    }
  }

  /** The first round after the third pass: a BYE match is completed with nobody in slot 2, and won
      by the team of the entrant in slot 1 if it has one; every other match waits to be played. A
      slot is empty exactly where no team is registered. */
  lemma {:induction false} FirstRoundAfterByes(e: nat, ranked: seq<SeedEntry>, bms: seq<BracketMatch>,
        idOf: map<int, int>, m: int)
    requires IsSeeded(e, ranked) && IsBracket(e, ranked, bms) && 1 <= m <= Pow2(e - 1)
    ensures IsMatchNumber(e, m)
    ensures var row := ByePass(WiredRows(bms, idOf), bms, |bms|)[m - 1];
      var top := TopEntrant(e, ranked, m);
      && row.teams.team1Id == Positive(top.teamId) && row.teams.team1Seed == Some(top.seed)
      && (if IsByeMatch(e, ranked, m) then
            && row.status == Completed
            && row.result == (if top.teamId > 0 then ResultColumns(Some(top.teamId), None, Some(ByBye)) else UNDECIDED)
            && row.teams.team2Id == None && row.teams.team2Seed == None
          else
            && row.status == Scheduled && row.result == UNDECIDED
            && row.teams.team2Id == Positive(Entrant(ranked, SeedAt(e, 2 * (m - 1) + 1)).teamId)
            && row.teams.team2Seed == Some(Entrant(ranked, SeedAt(e, 2 * (m - 1) + 1)).seed))
  {
    ByePassRows(e, ranked, bms, idOf, |bms|);
    assert ByePass(WiredRows(bms, idOf), bms, |bms|)[m - 1] == RowAfter(e, ranked, idOf, |bms|, m) by {
      assert IsMatchNumber(e, m);
    }
    FirstRoundEntrants(e, ranked, m);
  }

  /** The later rounds after the third pass: no match has started, and a slot holds the entrant
      of its feeder, with its seed, if that is a BYE match whose entrant has a team, and is empty
      otherwise. */
  lemma {:induction false} LaterRoundsAfterByes(e: nat, ranked: seq<SeedEntry>, bms: seq<BracketMatch>,
        idOf: map<int, int>, m: int, slot: int)
    requires IsSeeded(e, ranked) && IsBracket(e, ranked, bms)
    requires IsMatchNumber(e, m) && m > Pow2(e - 1) && (slot == 1 || slot == 2)
    ensures IsMatchNumber(e, Feeder(e, m, slot))
    ensures var row := ByePass(WiredRows(bms, idOf), bms, |bms|)[m - 1];
      var feeder := Feeder(e, m, slot);
      var placed := IsByeMatch(e, ranked, feeder) && TopEntrant(e, ranked, feeder).teamId > 0;
      && row.status == Scheduled && row.result == UNDECIDED
      && TeamInSlot(row.teams, slot) == (if placed then Some(TopEntrant(e, ranked, feeder).teamId) else None)
      && (if slot == 1 then row.teams.team1Seed else row.teams.team2Seed)
        == (if placed then Some(TopEntrant(e, ranked, feeder).seed) else None)
  {
    ByePassRows(e, ranked, bms, idOf, |bms|);
    FeederFeeds(e, m, 1);
    FeederFeeds(e, m, 2);
  }

  /** No slot is written twice: two BYE matches never send their entrants to the same slot. */
  lemma {:induction false} ByesFillDifferentSlots(e: nat, ranked: seq<SeedEntry>, m: int, m': int)
    requires IsSeeded(e, ranked) && IsMatchNumber(e, m) && IsMatchNumber(e, m')
    requires IsByeMatch(e, ranked, m) && IsByeMatch(e, ranked, m')
    requires Next(e, m) == Next(e, m') && DetermineSlotInNextMatch(m) == DetermineSlotInNextMatch(m')
    ensures m == m'
  {
    ByeMatchFacts(e, ranked, m);
    Feeders(e, m, Next(e, m));
    Feeders(e, m', Next(e, m));
  }
}
