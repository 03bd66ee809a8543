/** Play can always be finished: as long as no win of the match was detected, either team can still
    win it, so that every match in progress can be played out. */
module WinnableMatches {
  import opened Wrappers
  import opened Scoring
  import opened DisciplinedRuns
  import opened EngineAnswers
  import opened MatchTable
  import opened MatchService
  import opened RowRefinement

  /** How many points in a row surely win the game for a team: up to the target and to the margin. */
  function PointsNeeded(cfg: ScoringConfig, state: MatchState, team: int): nat {
    var (own, other) := if team == 1
      then (state.teamOneScore, state.teamTwoScore)
      else (state.teamTwoScore, state.teamOneScore);
    var goal := Max(cfg.pointsToWin, other + cfg.winBy);
    if goal > own then goal - own else 0
  }

  /** A point of a team wins the game or leaves fewer to win. */
  lemma {:induction false} PointBringsCloser(cfg: ScoringConfig, state: MatchState, team: int)
    requires cfg.Valid() && IsSafe(cfg, state) && (team == 1 || team == 2)
    requires !Point(cfg, state, team).IsError() && !Point(cfg, state, team).gameOverDetected
    ensures 0 < PointsNeeded(cfg, Point(cfg, state, team).state, team) < PointsNeeded(cfg, state, team)
  {
    PointRecords(cfg, state, team);
  }

  /** A point that ends a game without ending the match leaves the scorer one win closer. */
  lemma {:induction false} WonGameCounts(cfg: ScoringConfig, state: MatchState, team: int)
    requires cfg.Valid() && Invariant(cfg, Playing, state) && (team == 1 || team == 2)
    requires !Point(cfg, state, team).IsError() && Point(cfg, state, team).gameOverDetected
    ensures Wins(Point(cfg, state, team).state.completedGames, team) == Wins(state.completedGames, team) + 1
    ensures Wins(Point(cfg, state, team).state.completedGames, 3 - team) == Wins(state.completedGames, 3 - team)
  {
    WinningPoint(cfg, state, team);
    var games := Point(cfg, state, team).state.completedGames;
    assert games == state.completedGames + [games[|games| - 1]];
    WinsOfAppend(state.completedGames, games[|games| - 1], team);
    WinsOfAppend(state.completedGames, games[|games| - 1], 3 - team);
  }

  /** The next action of a team on its way to win the match. */
  function NextAction(cfg: ScoringConfig, phase: Phase, state: MatchState, team: int): Action {
    if phase == GameDetected then EndGame
    else if cfg.scoringType == SideOutScoring && state.servingTeam != team then CallSideOut
    else ScorePoint(team)
  }

  function GamesMissing(cfg: ScoringConfig, state: MatchState, team: int): int {
    cfg.GamesToWin() - Wins(state.completedGames, team)
  }

  /** Fewer games missing, or else the win confirmed, fewer points needed or a shorter wait for the serve. */
  predicate IsCloser(cfg: ScoringConfig, phase: Phase, state: MatchState, next: Phase, after: MatchState, team: int) {
    || GamesMissing(cfg, after, team) < GamesMissing(cfg, state, team)
    || (&& GamesMissing(cfg, after, team) == GamesMissing(cfg, state, team)
        && (|| (phase == GameDetected && next == Playing)
            || (&& phase == next == Playing
                && (|| PointsNeeded(cfg, after, team) < PointsNeeded(cfg, state, team)
                    || (&& PointsNeeded(cfg, after, team) == PointsNeeded(cfg, state, team)
                        && Wait(after, team) < Wait(state, team))))))
  }

  lemma {:induction false} OwnPointBringsCloser(cfg: ScoringConfig, state: MatchState, team: int)
    requires cfg.Valid() && Invariant(cfg, Playing, state) && (team == 1 || team == 2)
    requires !Point(cfg, state, team).IsError()
    ensures var result := Point(cfg, state, team);
      var next := NextPhase(Playing, ScorePoint(team), result);
      && (next == MatchDetected ==> Wins(result.state.completedGames, team) == cfg.GamesToWin())
      && (next != MatchDetected ==> IsCloser(cfg, Playing, state, next, result.state, team))
  {
    if Point(cfg, state, team).gameOverDetected {
      WonGameCounts(cfg, state, team);
      PointDetectsMatch(cfg, state, team);
    } else {
      PointBringsCloser(cfg, state, team);
      PointRecords(cfg, state, team);
    }
  }

  /** That action is accepted and disciplined, and brings the team closer to the match. */
  lemma {:induction false} NextActionBringsCloser(cfg: ScoringConfig, phase: Phase, state: MatchState, team: int)
    requires cfg.Valid() && Invariant(cfg, phase, state) && phase != MatchDetected
    requires state.status == InProgress && (team == 1 || team == 2)
    ensures var action := NextAction(cfg, phase, state, team);
      var result := Apply(cfg, state, action);
      var next := NextPhase(phase, action, result);
      && !result.IsError() && Disciplined(cfg, phase, state, action) && result.state.status == InProgress
      && (next == MatchDetected ==> Wins(result.state.completedGames, team) == cfg.GamesToWin())
      && (next != MatchDetected ==> IsCloser(cfg, phase, state, next, result.state, team))
  {
    var action := NextAction(cfg, phase, state, team);
    if action.ScorePoint? {
      PointIsAccepted(cfg, state, team);
      StatusMoves(cfg, state, action);
      OwnPointBringsCloser(cfg, state, team);
    } else {
      ActionIsAccepted(cfg, state, action);
    }
  }

  /** Points, side-outs and confirmed games. */
  predicate IsPlayOfGames(actions: seq<Action>) {
    forall i :: 0 <= i < |actions| ==> actions[i].ScorePoint? || actions[i].CallSideOut? || actions[i].EndGame?
  }

  lemma {:induction false} RunFromFirst(cfg: ScoringConfig, phase: Phase, state: MatchState, action: Action,
        rest: seq<Action>)
    ensures var (all, result) := ([action] + rest, Apply(cfg, state, action));
      var next := NextPhase(phase, action, result);
      && (DisciplinedRun(cfg, phase, state, all) <==>
        Disciplined(cfg, phase, state, action) && DisciplinedRun(cfg, next, result.state, rest))
      && RunPhase(cfg, phase, state, all) == RunPhase(cfg, next, result.state, rest)
      && Run(cfg, state, all) == Run(cfg, result.state, rest)
  {
    assert ([action] + rest)[1..] == rest;
  }

  /** Whatever the score, before a win of the match is detected either team can still win it, in
      disciplined play from there on. */
  lemma {:induction false} EitherTeamCanStillWin(cfg: ScoringConfig, phase: Phase, state: MatchState, team: int)
    returns (actions: seq<Action>)
    requires cfg.Valid() && Invariant(cfg, phase, state) && phase != MatchDetected
    requires state.status == InProgress && (team == 1 || team == 2)
    ensures IsPlayOfGames(actions) && DisciplinedRun(cfg, phase, state, actions)
    ensures RunPhase(cfg, phase, state, actions) == MatchDetected
    ensures Run(cfg, state, actions).status == InProgress
    ensures Wins(Run(cfg, state, actions).completedGames, team) == cfg.GamesToWin()
    decreases GamesMissing(cfg, state, team), phase == GameDetected, PointsNeeded(cfg, state, team), Wait(state, team)
  {
    var action := NextAction(cfg, phase, state, team);
    var result := Apply(cfg, state, action);
    var next := NextPhase(phase, action, result);
    NextActionBringsCloser(cfg, phase, state, team);
    if next == MatchDetected {
      actions := [action];
      RunFromFirst(cfg, phase, state, action, []);
    } else {
      StepKeepsInvariant(cfg, phase, state, action);
      var rest := EitherTeamCanStillWin(cfg, next, result.state, team);
      actions := [action] + rest;
      RunFromFirst(cfg, phase, state, action, rest);
    }
  }

  /** No disciplined run closes the match to either team before it is detected as over; a paused one
      is resumed first. */
  lemma {:induction false} RunsStayWinnable(cfg: ScoringConfig, state: MatchState, actions: seq<Action>, team: int)
    returns (rest: seq<Action>)
    requires cfg.Valid() && IsFresh(state) && DisciplinedRun(cfg, Playing, state, actions)
    requires RunPhase(cfg, Playing, state, actions) != MatchDetected && (team == 1 || team == 2)
    requires Run(cfg, state, actions).status == InProgress || Run(cfg, state, actions).status == Paused
    ensures var (phase, mid) := (RunPhase(cfg, Playing, state, actions), Run(cfg, state, actions));
      && DisciplinedRun(cfg, phase, mid, rest) && RunPhase(cfg, phase, mid, rest) == MatchDetected
      && Wins(Run(cfg, mid, rest).completedGames, team) == cfg.GamesToWin()
  {
    FreshIsInvariant(cfg, state);
    RunKeepsInvariant(cfg, Playing, state, actions);
    var (phase, mid) := (RunPhase(cfg, Playing, state, actions), Run(cfg, state, actions));
    if mid.status == InProgress {
      rest := EitherTeamCanStillWin(cfg, phase, mid, team);
    } else {
      StepKeepsInvariant(cfg, phase, mid, ResumeMatch);
      var play := EitherTeamCanStillWin(cfg, phase, Resume(mid).state, team);
      rest := [ResumeMatch] + play;
      RunFromFirst(cfg, phase, mid, ResumeMatch, play);
    }
  }

  /** The service hands such play to the engine as it is. */
  lemma {:induction false} PlayIsResolved(cfg: ScoringConfig, state: MatchState, actions: seq<Action>)
    requires IsPlayOfGames(actions)
    ensures ResolveRun(cfg, state, actions) == actions
    decreases |actions|
  {
    if actions != [] {
      PlayIsResolved(cfg, Apply(cfg, state, actions[0]).state, actions[1..]);
    }
  }

  /** Every started match can be played out on its stored row, for either team. */
  lemma {:induction false} StartedMatchesCanBePlayedOut(row: MatchRow, team: int) returns (actions: seq<Action>)
    requires IsStarted(row) && (team == 1 || team == 2)
    ensures IsPlayedOut(row, actions)
    ensures Wins(LoadState(RunRow(row, actions)).completedGames, team) == LoadConfig(row).GamesToWin()
  {
    var cfg, state := LoadConfig(row), LoadState(row);
    FreshIsInvariant(cfg, state);
    actions := EitherTeamCanStillWin(cfg, Playing, state, team);
    PlayIsResolved(cfg, state, actions);
    RunRefines(row, state, actions);
  }
}
