/** When the engine accepts an action, and what an accepted one does. */
module EngineAnswers {
  import opened Wrappers
  import opened Scoring
  import opened DisciplinedRuns

  /** A point is accepted in a match in progress from any team in rally scoring, and from the serving
      team in side-out scoring; neither the score nor the games on record matter. */
  lemma {:induction false} PointIsAccepted(cfg: ScoringConfig, state: MatchState, team: int)
    ensures !Point(cfg, state, team).IsError()
      <==> state.status == InProgress && (cfg.scoringType == SideOutScoring ==> team == state.servingTeam)
    ensures Point(cfg, state, team).error == Some(NotServing)
      <==> state.status == InProgress && cfg.scoringType == SideOutScoring && team != state.servingTeam
  {
  }

  /** The last recorded game is the one being played. */
  predicate IsGameRecorded(state: MatchState) {
    var games := state.completedGames;
    games != [] && games[|games| - 1].gameNum == state.currentGameNum
  }

  /** The status an action asks for. */
  predicate HasRightStatus(state: MatchState, action: Action) {
    if action.ResumeMatch? then state.status == Paused
    else state.status == InProgress || (action.ForfeitMatch? && state.status == Paused)
  }

  /** Of the other actions, a timeout, a forfeit and a removal need a team of the match, a removal also
      a point to take, and the end of a game a recorded one; every action needs the right status. */
  lemma {:induction false} ActionIsAccepted(cfg: ScoringConfig, state: MatchState, action: Action)
    requires !action.ScorePoint?
    ensures !Apply(cfg, state, action).IsError() <==>
      && HasRightStatus(state, action)
      && (action.CallTimeout? || action.ForfeitMatch? || action.TakePoint? ==> action.team == 1 || action.team == 2)
      && (action.TakePoint? ==> (if action.team == 1 then state.teamOneScore else state.teamTwoScore) > 0)
      && (action.EndGame? ==> IsGameRecorded(state))
  {
  }

  /** A refused action changes nothing and signals nothing, and the status is the first reason. */
  lemma {:induction false} RefusalsChangeNothing(cfg: ScoringConfig, state: MatchState, action: Action)
    requires Apply(cfg, state, action).IsError()
    ensures Apply(cfg, state, action) == Refused(state, Apply(cfg, state, action).error.value)
    ensures Apply(cfg, state, action).error == Some(WrongStatus(state.status)) <==> !HasRightStatus(state, action)
  {
  }

  /** With the right status the reason names what is wrong: the serve, the team, the score or the game. */
  lemma {:induction false} ReasonsToRefuse(cfg: ScoringConfig, state: MatchState, action: Action)
    requires Apply(cfg, state, action).IsError() && HasRightStatus(state, action)
    ensures Apply(cfg, state, action).error ==
      if action.ScorePoint? then Some(NotServing)
      else if action.EndGame? then Some(if state.completedGames == [] then NoCompletedGame else GameMismatch)
      else if action.TakePoint? && (action.team == 1 || action.team == 2) then Some(ScoreAlreadyZero(action.team))
      else if action.TakePoint? || action.CallTimeout? || action.ForfeitMatch? then Some(InvalidTeam(action.team))
      else None
  {
  }

  /** A side-out of any serve: the second server comes up after the first, on the same side; after
      any other the first server of the other side does. Nothing else moves. */
  lemma {:induction false} SideOutPassesTheServe(state: MatchState)
    requires state.status == InProgress
    ensures var after := SideOut(state).state;
      && after == state.(servingTeam := after.servingTeam, serverNumber := after.serverNumber)
      && (after.serverNumber == 1 || after.serverNumber == 2)
      && (after.serverNumber == 2 <==> state.serverNumber == 1)
      && (state.serverNumber == 1 ==> after.servingTeam == state.servingTeam)
      && (state.serverNumber != 1 ==>
        (after.servingTeam == 1 || after.servingTeam == 2) && (after.servingTeam == 2 <==> state.servingTeam == 1))
  {
  }

  /** Giving the point and the serve back undoes a removal, in any state. */
  lemma {:induction false} RemovalIsUndone(state: MatchState, team: int, servingTeam: int, serverNumber: int)
    requires !RemovePoint(state, team, servingTeam, serverNumber).IsError()
    ensures var taken := RemovePoint(state, team, servingTeam, serverNumber).state;
      && taken.servingTeam == servingTeam && taken.serverNumber == serverNumber
      && state == taken.(
        servingTeam := state.servingTeam, serverNumber := state.serverNumber,
        teamOneScore := taken.teamOneScore + (if team == 1 then 1 else 0),
        teamTwoScore := taken.teamTwoScore + (if team == 2 then 1 else 0))
  {
  }

  /** Ending a game, in any state that allows it, starts the next one at love with the first server
      of the team that lost; the record stands, and the game cannot be ended again. */
  lemma {:induction false} NextGameStarts(state: MatchState)
    requires !ConfirmGameOver(state).IsError()
    ensures var (after, games) := (ConfirmGameOver(state).state, state.completedGames);
      var winner := games[|games| - 1].winner;
      && after == state.(
        teamOneScore := 0, teamTwoScore := 0, currentGameNum := state.currentGameNum + 1,
        servingTeam := after.servingTeam, serverNumber := 1)
      && (winner == 1 || winner == 2 ==> after.servingTeam + winner == 3)
      && (after.servingTeam == 1 || after.servingTeam == 2)
      && ConfirmGameOver(after).error == Some(GameMismatch)
  {
  }

  /** The status an accepted action leads to. */
  function StatusAfter(status: MatchStatus, action: Action): MatchStatus {
    match action
    case EndMatch => Completed
    case PauseMatch => Paused
    case ResumeMatch => InProgress
    case ForfeitMatch(_) => Forfeited
    case _ => status
  }

  /** Ending, pausing, resuming and forfeiting a match move only its status, and the pause flag with
      it where the match is paused or resumed; a timeout moves nothing. No other action moves these. */
  lemma {:induction false} StatusMoves(cfg: ScoringConfig, state: MatchState, action: Action)
    requires !Apply(cfg, state, action).IsError()
    ensures var result := Apply(cfg, state, action);
      && result.state.status == StatusAfter(state.status, action)
      && (action.EndMatch? || action.CallTimeout? || action.PauseMatch? || action.ResumeMatch? || action.ForfeitMatch?
        ==> result.state == state.(status := result.state.status, isPaused := result.state.isPaused))
      && (result.state.isPaused <==> action.PauseMatch? || (!action.ResumeMatch? && state.isPaused))
      && (result.gameOverDetected || result.endChangeDetected || result.matchOverDetected ==> action.ScorePoint?)
  {
    if action.ScorePoint? {
      PointRecords(cfg, state, action.team);
      assert Scored(cfg, state, action.team).status == state.status;
      assert Scored(cfg, state, action.team).isPaused == state.isPaused;
    }
  }
}
