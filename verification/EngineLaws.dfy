/** Which engine actions undo one another, and how RecordEvent's own scoring relates to the engine. */
module EngineLaws {
  import opened Scoring
  import opened DisciplinedRuns
  import opened MatchTable
  import opened MatchService

  /** Taking back a point with the serve as it was before restores the state exactly when the
      point did not end a game: a recorded game is not taken back. */
  lemma {:induction false} RemovePointUndoesPoint(cfg: ScoringConfig, state: MatchState, team: int)
    requires team == 1 || team == 2
    requires state.teamOneScore >= 0 && state.teamTwoScore >= 0
    requires !Point(cfg, state, team).IsError()
    ensures var scored := Point(cfg, state, team);
      var taken := RemovePoint(scored.state, team, state.servingTeam, state.serverNumber);
      && !taken.IsError()
      && (taken.state == state <==> !scored.gameOverDetected)
  {
  }

  /** The service passes the serve as it is after the point: then the state is restored exactly when
      the point ended no game and, in rally scoring, the first server of the scoring team was up. */
  lemma {:induction false} ServiceUndoesPoint(cfg: ScoringConfig, state: MatchState, team: int)
    requires team == 1 || team == 2
    requires state.teamOneScore >= 0 && state.teamTwoScore >= 0
    requires !Point(cfg, state, team).IsError()
    ensures var scored := Point(cfg, state, team);
      var taken := Apply(cfg, scored.state, Resolve(scored.state, TakePoint(team, 0, 0)));
      && !taken.IsError()
      && (taken.state == state <==>
        !scored.gameOverDetected
        && (cfg.scoringType == RallyScoring ==> state.servingTeam == team && state.serverNumber == 1))
  {
    PointRecords(cfg, state, team);
  }

  /** A side-out moves from the first to the second server, then to the other team's first: four
      side-outs of a doubles match come back to the same server, and no fewer. */
  lemma {:induction false} SideOutCycle(state: MatchState)
    requires state.status == InProgress
    requires (state.servingTeam == 1 || state.servingTeam == 2) && (state.serverNumber == 1 || state.serverNumber == 2)
    ensures var one := SideOut(state).state;
      var two := SideOut(one).state;
      var three := SideOut(two).state;
      && (one.servingTeam == state.servingTeam <==> state.serverNumber == 1)
      && two.servingTeam == 3 - state.servingTeam && two.serverNumber == state.serverNumber
      && one != state && two != state && three != state
      && SideOut(three).state == state
  {
  }

  /** Pausing and resuming gives the match back as it was. */
  lemma {:induction false} ResumeUndoesPause(state: MatchState)
    requires state.status == InProgress && !state.isPaused
    ensures !Pause(state).IsError() && !Resume(Pause(state).state).IsError()
    ensures Resume(Pause(state).state).state == state
  {
  }

  /** A finished match accepts no action: completed, forfeited and cancelled are final. */
  lemma {:induction false} FinishedIsFinal(cfg: ScoringConfig, state: MatchState, actions: seq<Action>)
    requires state.status == Completed || state.status == Forfeited || state.status == Cancelled
    ensures Run(cfg, state, actions) == state
    decreases |actions|
  {
    if actions != [] {
      FinishedIsFinal(cfg, Apply(cfg, state, actions[0]).state, actions[1..]);
    }
  }

  /** The log tells engine actions apart. */
  lemma {:induction false} LoggedTypesDiffer(a: Action, b: Action)
    ensures TypeOfAction(a) == TypeOfAction(b) <==> a == b
    ensures !TypeOfAction(a).UndoEvent? && !TypeOfAction(a).OtherEvent?
  {
  }

  /** RecordEvent's side_out is not the engine's, which is logged under the same type: it always
      passes the serve to the other team. With the serve known, the two agree exactly from the second
      server. */
  lemma {:induction false} SideOutsAgree(row: MatchRow)
    requires row.status == InProgress
    ensures var recorded :=
      LoadState(row.(scoring := Recorded(row.scoring, row.rules.rallyScoring, TypeOfAction(CallSideOut))));
      recorded == SideOut(LoadState(row)).state
      <==> row.scoring.serverNumber.Some? && (row.scoring.servingTeam.Some? <==> row.scoring.serverNumber.value != 1)
  {
  }

  /** RecordEvent's points are not the engine's points either, which are logged under that type. They
      agree exactly when the new score is no win, and the scoring team is serving or, in rally scoring,
      the first server is up. */
  lemma {:induction false} PointEventsAgree(row: MatchRow, team: int)
    requires row.status == InProgress && (team == 1 || team == 2)
    ensures var columns := Recorded(row.scoring, row.rules.rallyScoring, TypeOfAction(ScorePoint(team)));
      var (a, b) := (columns.team1Score, columns.team2Score);
      LoadState(row.(scoring := columns)) == Point(LoadConfig(row), LoadState(row), team).state <==>
        && !LoadConfig(row).IsGameOver(a, b) && !LoadConfig(row).IsGameOver(b, a)
        && (if row.rules.rallyScoring
            then LoadState(row).serverNumber == 1
            else LoadState(row).servingTeam == team)
  {
    if !Point(LoadConfig(row), LoadState(row), team).IsError() {
      PointRecords(LoadConfig(row), LoadState(row), team);
    }
  }

  /** In either scoring type the team that scored serves next. */
  lemma {:induction false} ScorerServes(cfg: ScoringConfig, state: MatchState, team: int)
    requires !Point(cfg, state, team).IsError()
    ensures var after := Point(cfg, state, team).state;
      && after.servingTeam == team
      && after.serverNumber == if cfg.scoringType == RallyScoring then 1 else state.serverNumber
  {
    PointRecords(cfg, state, team);
  }

  predicate HasLegalServe(state: MatchState) {
    (state.servingTeam == 1 || state.servingTeam == 2) && (state.serverNumber == 1 || state.serverNumber == 2)
  }

  /** The serving columns admit only the numbers 1 and 2. Every action of the service respects
      that, except a rally point for a team that is neither. */
  lemma {:induction false} ServeStaysLegal(cfg: ScoringConfig, state: MatchState, action: Action)
    requires HasLegalServe(state)
    ensures HasLegalServe(Apply(cfg, state, Resolve(state, action)).state)
      <==> !(&& action.ScorePoint? && action.team != 1 && action.team != 2
             && cfg.scoringType == RallyScoring && state.status == InProgress)
  {
    if action.ScorePoint? && !Point(cfg, state, action.team).IsError() {
      ScorerServes(cfg, state, action.team);
    }
  }

  /** A point, accepted or refused, neither starts a new game nor ends the match. */
  lemma {:induction false} PointKeepsGameAndStatus(cfg: ScoringConfig, state: MatchState, team: int)
    ensures var result := Point(cfg, state, team);
      && result.state.status == state.status && result.state.currentGameNum == state.currentGameNum
      && result.state.teamOneScore == state.teamOneScore + (if !result.IsError() && Scorer(team) == 1 then 1 else 0)
      && result.state.teamTwoScore == state.teamTwoScore + (if !result.IsError() && Scorer(team) == 2 then 1 else 0)
  {
    if !Point(cfg, state, team).IsError() {
      PointRecords(cfg, state, team);
    }
  }

  /** Which actions move a match between statuses, and no others do. */
  lemma {:induction false} StatusLifecycle(cfg: ScoringConfig, state: MatchState, action: Action)
    ensures var (before, after) := (state.status, Apply(cfg, state, action).state.status);
      before == after
      || (before == InProgress && after == Completed && action.EndMatch?)
      || (before == InProgress && after == Paused && action.PauseMatch?)
      || (before == Paused && after == InProgress && action.ResumeMatch?)
      || ((before == InProgress || before == Paused) && after == Forfeited && action.ForfeitMatch?)
    ensures state.status == InProgress && (action.EndMatch? || action.PauseMatch?) ==>
      Apply(cfg, state, action).state.status != InProgress
    ensures state.status == Paused && action.ResumeMatch? ==> Apply(cfg, state, action).state.status != Paused
  {
    if action.ScorePoint? {
      PointKeepsGameAndStatus(cfg, state, action.team);
    }
  }

  /** What an action adds to a team's score. */
  function Gain(cfg: ScoringConfig, state: MatchState, action: Action, team: int): int {
    if Apply(cfg, state, action).IsError() then 0
    else match action
      case ScorePoint(scorer) => if Scorer(scorer) == team then 1 else 0
      case TakePoint(from, _, _) => if from == team then -1 else 0
      case _ => 0
  }

  function Gains(cfg: ScoringConfig, state: MatchState, actions: seq<Action>, team: int): int
    decreases |actions|
  {
    if actions == [] then 0
    else Gain(cfg, state, actions[0], team) + Gains(cfg, Apply(cfg, state, actions[0]).state, actions[1..], team)
  }

  lemma {:induction false} StepGains(cfg: ScoringConfig, state: MatchState, action: Action)
    ensures var after := Apply(cfg, state, action).state;
      && state.currentGameNum <= after.currentGameNum
      && (state.currentGameNum == after.currentGameNum ==>
        && after.teamOneScore == state.teamOneScore + Gain(cfg, state, action, 1)
        && after.teamTwoScore == state.teamTwoScore + Gain(cfg, state, action, 2))
  {
    if action.ScorePoint? {
      PointKeepsGameAndStatus(cfg, state, action.team);
    }
  }

  lemma {:induction false} GameNumbersGrow(cfg: ScoringConfig, state: MatchState, actions: seq<Action>)
    ensures state.currentGameNum <= Run(cfg, state, actions).currentGameNum
    decreases |actions|
  {
    if actions != [] {
      StepGains(cfg, state, actions[0]);
      GameNumbersGrow(cfg, Apply(cfg, state, actions[0]).state, actions[1..]);
    }
  }

  /** Under any actions, disciplined or not, as long as the game number stands each score is its
      start value plus the points accepted for the team less the points taken back from it. */
  lemma {:induction false} ScoresBalance(cfg: ScoringConfig, state: MatchState, actions: seq<Action>)
    requires Run(cfg, state, actions).currentGameNum == state.currentGameNum
    ensures Run(cfg, state, actions).teamOneScore == state.teamOneScore + Gains(cfg, state, actions, 1)
    ensures Run(cfg, state, actions).teamTwoScore == state.teamTwoScore + Gains(cfg, state, actions, 2)
    decreases |actions|
  {
    if actions != [] {
      StepGains(cfg, state, actions[0]);
      GameNumbersGrow(cfg, Apply(cfg, state, actions[0]).state, actions[1..]);
      ScoresBalance(cfg, Apply(cfg, state, actions[0]).state, actions[1..]);
    }
  }
}
