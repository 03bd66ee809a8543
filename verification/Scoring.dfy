/** The scoring rules and the scoring engine: every action is a function from a match state to a
    result that holds the next state or an error with the state unchanged. */
module Scoring {
  import opened Wrappers

  datatype ScoringType = SideOutScoring | RallyScoring

  datatype ScoringConfig = ScoringConfig(
    scoringType: ScoringType,
    pointsToWin: int,
    winBy: int,
    maxPoints: int,
    gamesPerSet: int,
    setsToWin: int,
    freezeAt: int)
  {
    /** What ParseScoringConfig guarantees. */
    predicate Valid() {
      pointsToWin >= 1 && winBy >= 1 && gamesPerSet >= 1 && setsToWin >= 1
    }

    /** Half of gamesPerSet, rounded up; the source's division truncates toward zero. */
    function GamesToWin(): (g: int)
      ensures gamesPerSet >= 0 ==> gamesPerSet <= 2 * g <= gamesPerSet + 1
    {
      Halve(gamesPerSet + 1)
    }

    predicate IsGameOver(teamScore: int, opponentScore: int) {
      if teamScore < pointsToWin then false
      else if maxPoints > 0 && teamScore >= maxPoints then true
      else teamScore - opponentScore >= winBy
    }

    function Midpoint(): (p: int)
      ensures pointsToWin >= 0 ==> pointsToWin <= 2 * p <= pointsToWin + 1
    {
      Halve(pointsToWin + 1)
    }

    predicate IsEndChange(team1Score: int, team2Score: int, currentGameNum: int) {
      if currentGameNum != 2 * GamesToWin() - 1 then false
      else
        var leading := Max(team1Score, team2Score);
        leading == Midpoint() && (team1Score == Midpoint() || team2Score == Midpoint())
    }
  }

  function Max(x: int, y: int): int {
    if y > x then y else x
  }

  function Halve(x: int): int {
    if x >= 0 then x / 2 else -((-x) / 2)
  }

  /** Was a positive setting kept, and another one replaced by the default? */
  predicate IsKeptOrDefault(parsed: int, given: int, default: int) {
    (given > 0 ==> parsed == given) && (given <= 0 ==> parsed == default)
  }

  function ParseScoringConfig(scoringType: string, pointsToWin: int, winBy: int, maxPoints: int,
                              gamesPerSet: int, setsToWin: int, freezeAt: int): (r: Result<ScoringConfig, string>)
    ensures r.Ok? <==> scoringType in {"", "side_out", "rally"}
    ensures r.Ok? ==> r.value.Valid() && r.value.GamesToWin() >= 1
    ensures r.Ok? ==>
      && r.value.scoringType == (if scoringType == "rally" then RallyScoring else SideOutScoring)
      && IsKeptOrDefault(r.value.pointsToWin, pointsToWin, 11) && IsKeptOrDefault(r.value.winBy, winBy, 2)
      && IsKeptOrDefault(r.value.gamesPerSet, gamesPerSet, 1) && IsKeptOrDefault(r.value.setsToWin, setsToWin, 1)
      && r.value.maxPoints == maxPoints && r.value.freezeAt == freezeAt
  {
    var kind := if scoringType == "" then "side_out" else scoringType;
    if kind != "side_out" && kind != "rally" then Err("invalid scoring type")
    else
      Ok(ScoringConfig(
        if kind == "rally" then RallyScoring else SideOutScoring,
        if pointsToWin <= 0 then 11 else pointsToWin,
        if winBy <= 0 then 2 else winBy,
        maxPoints,
        if gamesPerSet <= 0 then 1 else gamesPerSet,
        if setsToWin <= 0 then 1 else setsToWin,
        freezeAt))
  }

  datatype MatchStatus = Scheduled | Warmup | InProgress | Paused | Completed | Cancelled | Forfeited

  datatype GameResult = GameResult(gameNum: int, teamOneScore: int, teamTwoScore: int, winner: int)

  datatype MatchState = MatchState(
    teamOneScore: int,
    teamTwoScore: int,
    servingTeam: int,
    serverNumber: int,
    currentGameNum: int,
    completedGames: seq<GameResult>,
    status: MatchStatus,
    isPaused: bool)

  datatype EngineError =
    | WrongStatus(status: MatchStatus)
    | NotServing
    | ScoreAlreadyZero(team: int)
    | InvalidTeam(team: int)
    | NoCompletedGame
    | GameMismatch

  datatype EngineResult = EngineResult(
    state: MatchState,
    gameOverDetected: bool,
    matchOverDetected: bool,
    endChangeDetected: bool,
    error: Option<EngineError>)
  {
    predicate IsError() { error.Some? }
  }

  function Done(state: MatchState): EngineResult {
    EngineResult(state, false, false, false, None)
  }

  function Refused(state: MatchState, error: EngineError): EngineResult {
    EngineResult(state, false, false, false, Some(error))
  }

  /** Games won by a team. */
  function Wins(games: seq<GameResult>, team: int): nat {
    if games == [] then 0
    else Wins(games[..|games| - 1], team) + if games[|games| - 1].winner == team then 1 else 0
  }

  method CountWins(games: seq<GameResult>) returns (t1: int, t2: int)
    ensures t1 == Wins(games, 1) && t2 == Wins(games, 2)
  {
    t1, t2 := 0, 0;
    for i := 0 to |games|
      invariant t1 == Wins(games[..i], 1) && t2 == Wins(games[..i], 2)
    {
      assert games[..i + 1][..i] == games[..i];
      if games[i].winner == 1 {
        t1 := t1 + 1;
      } else if games[i].winner == 2 {
        t2 := t2 + 1;
      }
    }
    assert games[..|games|] == games;
  }

  /** Any team number other than 1 counts for team 2. */
  function Scorer(scoringTeam: int): int {
    if scoringTeam == 1 then 1 else 2
  }

  /** The score and the serve after a point; in rally scoring the service follows the scorer. */
  function Scored(cfg: ScoringConfig, state: MatchState, scoringTeam: int): MatchState {
    var scored := if scoringTeam == 1
      then state.(teamOneScore := state.teamOneScore + 1)
      else state.(teamTwoScore := state.teamTwoScore + 1);
    if cfg.scoringType == RallyScoring then scored.(servingTeam := scoringTeam, serverNumber := 1) else scored
  }

  function Point(cfg: ScoringConfig, state: MatchState, scoringTeam: int): EngineResult {
    if state.status != InProgress then Refused(state, WrongStatus(state.status))
    else if cfg.scoringType == SideOutScoring && scoringTeam != state.servingTeam then Refused(state, NotServing)
    else
      var scored := Scored(cfg, state, scoringTeam);
      var (a, b) := (scored.teamOneScore, scored.teamTwoScore);
      var endChange := cfg.IsEndChange(a, b, scored.currentGameNum);
      var winner := if cfg.IsGameOver(a, b) then 1 else if cfg.IsGameOver(b, a) then 2 else 0;
      if winner == 0 then
        Done(scored).(endChangeDetected := endChange)
      else
        var games := scored.completedGames + [GameResult(scored.currentGameNum, a, b, winner)];
        var matchOver := Wins(games, 1) >= cfg.GamesToWin() || Wins(games, 2) >= cfg.GamesToWin();
        EngineResult(scored.(completedGames := games), true, matchOver, endChange, None)
  }

  function SideOut(state: MatchState): EngineResult {
    if state.status != InProgress then Refused(state, WrongStatus(state.status))
    else if state.serverNumber == 1 then Done(state.(serverNumber := 2))
    else Done(state.(servingTeam := if state.servingTeam == 1 then 2 else 1, serverNumber := 1))
  }

  function RemovePoint(state: MatchState, team: int, prevServingTeam: int, prevServerNumber: int): EngineResult {
    if state.status != InProgress then Refused(state, WrongStatus(state.status))
    else if team != 1 && team != 2 then Refused(state, InvalidTeam(team))
    else if (if team == 1 then state.teamOneScore else state.teamTwoScore) <= 0
      then Refused(state, ScoreAlreadyZero(team))
    else
      var removed := if team == 1
        then state.(teamOneScore := state.teamOneScore - 1)
        else state.(teamTwoScore := state.teamTwoScore - 1);
      Done(removed.(servingTeam := prevServingTeam, serverNumber := prevServerNumber))
  }

  function ConfirmGameOver(state: MatchState): EngineResult {
    if state.status != InProgress then Refused(state, WrongStatus(state.status))
    else if state.completedGames == [] then Refused(state, NoCompletedGame)
    else
      var lastGame := state.completedGames[|state.completedGames| - 1];
      if lastGame.gameNum != state.currentGameNum then Refused(state, GameMismatch)
      else Done(state.(
        teamOneScore := 0,
        teamTwoScore := 0,
        currentGameNum := state.currentGameNum + 1,
        servingTeam := if lastGame.winner == 1 then 2 else 1,
        serverNumber := 1))
  }

  function ConfirmMatchOver(state: MatchState): EngineResult {
    if state.status != InProgress then Refused(state, WrongStatus(state.status))
    else Done(state.(status := Completed))
  }

  function Timeout(state: MatchState, team: int): EngineResult {
    if state.status != InProgress then Refused(state, WrongStatus(state.status))
    else if team != 1 && team != 2 then Refused(state, InvalidTeam(team))
    else Done(state)
  }

  function Pause(state: MatchState): EngineResult {
    if state.status != InProgress then Refused(state, WrongStatus(state.status))
    else Done(state.(isPaused := true, status := Paused))
  }

  function Resume(state: MatchState): EngineResult {
    if state.status != Paused then Refused(state, WrongStatus(state.status))
    else Done(state.(isPaused := false, status := InProgress))
  }

  function Forfeit(state: MatchState, forfeitingTeam: int): EngineResult {
    if state.status != InProgress && state.status != Paused then Refused(state, WrongStatus(state.status))
    else if forfeitingTeam != 1 && forfeitingTeam != 2 then Refused(state, InvalidTeam(forfeitingTeam))
    else Done(state.(status := Forfeited))
  }

  datatype Action =
    | ScorePoint(team: int)
    | CallSideOut
    | TakePoint(team: int, prevServingTeam: int, prevServerNumber: int)
    | EndGame
    | EndMatch
    | CallTimeout(team: int)
    | PauseMatch
    | ResumeMatch
    | ForfeitMatch(team: int)

  function Apply(cfg: ScoringConfig, state: MatchState, action: Action): EngineResult {
    match action
    case ScorePoint(team) => Point(cfg, state, team)
    case CallSideOut => SideOut(state)
    case TakePoint(team, servingTeam, serverNumber) => RemovePoint(state, team, servingTeam, serverNumber)
    case EndGame => ConfirmGameOver(state)
    case EndMatch => ConfirmMatchOver(state)
    case CallTimeout(team) => Timeout(state, team)
    case PauseMatch => Pause(state)
    case ResumeMatch => Resume(state)
    case ForfeitMatch(team) => Forfeit(state, team)
  }

  /** The state after a run of actions; a refused action changes nothing. */
  function Run(cfg: ScoringConfig, state: MatchState, actions: seq<Action>): MatchState
    decreases |actions|
  {
    if actions == [] then state
    else Run(cfg, Apply(cfg, state, actions[0]).state, actions[1..])
  }
}
