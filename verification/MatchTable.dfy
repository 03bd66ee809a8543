/** A row of the matches table, grouped by the columns the update queries write together, and
    those queries. */
module MatchTable {
  import opened Wrappers
  import opened Scoring

  /** The set_scores JSON: a list of game results, or anything else that does not decode to one. */
  datatype SetScores = Unreadable | Games(games: seq<GameResult>)

  datatype ScoringColumns = ScoringColumns(
    team1Score: int,
    team2Score: int,
    currentSet: int,
    currentGame: int,
    servingTeam: Option<int>,
    serverNumber: Option<int>,
    setScores: SetScores)

  datatype RuleColumns = RuleColumns(
    rallyScoring: bool,
    pointsToWin: int,
    winBy: int,
    maxPoints: Option<int>,
    gamesPerSet: int,
    setsToWin: int,
    freezeAt: Option<int>)

  datatype TeamColumns = TeamColumns(
    team1Id: Option<int>,
    team2Id: Option<int>,
    team1Seed: Option<int>,
    team2Seed: Option<int>)

  datatype WiringColumns = WiringColumns(
    nextMatchId: Option<int>,
    nextMatchSlot: Option<int>,
    loserNextMatchId: Option<int>,
    loserNextMatchSlot: Option<int>)

  datatype WinReason = ByScore | ByForfeit | ByBye

  datatype ResultColumns = ResultColumns(winnerTeamId: Option<int>, loserTeamId: Option<int>,
    winReason: Option<WinReason>)

  const UNWIRED := WiringColumns(None, None, None, None)
  const UNDECIDED := ResultColumns(None, None, None)

  datatype MatchRow = MatchRow(
    matchNumber: Option<int>,
    status: MatchStatus,
    scoring: ScoringColumns,
    rules: RuleColumns,
    teams: TeamColumns,
    wiring: WiringColumns,
    result: ResultColumns)

  /** The UpdateMatchResult query also completes the match. */
  function WithResult(row: MatchRow, winnerTeamId: Option<int>, loserTeamId: Option<int>, reason: WinReason): MatchRow {
    row.(status := Completed, result := ResultColumns(winnerTeamId, loserTeamId, Some(reason)))
  }
}
