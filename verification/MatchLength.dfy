/** With a cap on the score, a match cannot go on for ever. */
module MatchLength {
  import opened Scoring
  import opened DisciplinedRuns

  /** How many points a run scores. */
  function PointsScored(cfg: ScoringConfig, state: MatchState, actions: seq<Action>): nat
    decreases |actions|
  {
    if actions == [] then 0
    else
      var result := Apply(cfg, state, actions[0]);
      (if actions[0].ScorePoint? && !result.IsError() then 1 else 0) + PointsScored(cfg, result.state, actions[1..])
  }

  /** The most points a game can take: one team at the cap, the other one short of it. */
  function LongestGame(cfg: ScoringConfig): int {
    2 * Max(cfg.pointsToWin, cfg.maxPoints) - 1
  }

  /** The longest games for those on record, and the points of the game being played. */
  function Progress(cfg: ScoringConfig, phase: Phase, state: MatchState): int {
    |state.completedGames| * LongestGame(cfg) + if phase == Playing then state.teamOneScore + state.teamTwoScore else 0
  }

  lemma {:induction false} OneMoreGame(n: nat, k: int)
    ensures (n + 1) * k == n * k + k
  {
  }

  lemma {:induction false} FewerGames(n: nat, most: int, k: int)
    requires n <= most && k >= 0
    ensures n * k <= most * k
  {
    assert (most - n) * k >= 0;
  }

  lemma {:induction false} UnfinishedGameIsShort(cfg: ScoringConfig, state: MatchState)
    requires cfg.Valid() && cfg.maxPoints > 0 && IsSafe(cfg, state)
    ensures state.teamOneScore + state.teamTwoScore < LongestGame(cfg)
  {
    if IsOpen(cfg, state) {
      OpenScores(cfg, state);
    }
  }

  /** A point adds one to the score, and may put the game on record. */
  lemma {:induction false} PointCounts(cfg: ScoringConfig, state: MatchState, team: int)
    requires !Point(cfg, state, team).IsError()
    ensures var result := Point(cfg, state, team);
      && result.state.teamOneScore + result.state.teamTwoScore == state.teamOneScore + state.teamTwoScore + 1
      && |result.state.completedGames| == |state.completedGames| + (if result.gameOverDetected then 1 else 0)
      && (NextPhase(Playing, ScorePoint(team), result) == Playing <==> !result.gameOverDetected)
  {
  }

  lemma {:induction false} PointProgress(cfg: ScoringConfig, state: MatchState, team: int)
    requires cfg.Valid() && cfg.maxPoints > 0 && IsSafe(cfg, state) && !Point(cfg, state, team).IsError()
    ensures var result := Point(cfg, state, team);
      Progress(cfg, NextPhase(Playing, ScorePoint(team), result), result.state) >= Progress(cfg, Playing, state) + 1
  {
    PointCounts(cfg, state, team);
    UnfinishedGameIsShort(cfg, state);
    OneMoreGame(|state.completedGames|, LongestGame(cfg));
  }

  /** A point makes progress, and nothing but taking a point back undoes any. */
  lemma {:induction false} StepProgress(cfg: ScoringConfig, phase: Phase, state: MatchState, action: Action)
    requires cfg.Valid() && cfg.maxPoints > 0 && Invariant(cfg, phase, state)
    requires Disciplined(cfg, phase, state, action) && !action.TakePoint?
    ensures var result := Apply(cfg, state, action);
      Progress(cfg, NextPhase(phase, action, result), result.state)
        >= Progress(cfg, phase, state) + if action.ScorePoint? && !result.IsError() then 1 else 0
  {
    if action.ScorePoint? && !Apply(cfg, state, action).IsError() {
      PointProgress(cfg, state, action.team);
    }
  }

  lemma {:induction false} ProgressIsBounded(cfg: ScoringConfig, phase: Phase, state: MatchState)
    requires cfg.Valid() && cfg.maxPoints > 0 && Invariant(cfg, phase, state)
    ensures Progress(cfg, phase, state) <= (2 * cfg.GamesToWin() - 1) * LongestGame(cfg)
  {
    GamesAreFew(cfg, phase, state);
    var n, k, most := |state.completedGames|, LongestGame(cfg), 2 * cfg.GamesToWin() - 1;
    if phase == Playing {
      UnfinishedGameIsShort(cfg, state);
      OneMoreGame(n, k);
      FewerGames(n + 1, most, k);
    } else {
      FewerGames(n, most, k);
    }
  }

  lemma {:induction false} GamesAreFew(cfg: ScoringConfig, phase: Phase, state: MatchState)
    requires cfg.Valid() && Invariant(cfg, phase, state)
    ensures |state.completedGames| + (if phase == Playing then 1 else 0) <= 2 * cfg.GamesToWin() - 1
  {
    EveryGameHasAWinner(state.completedGames);
  }

  lemma {:induction false} RunProgress(cfg: ScoringConfig, phase: Phase, state: MatchState, actions: seq<Action>)
    requires cfg.Valid() && cfg.maxPoints > 0 && Invariant(cfg, phase, state)
      && DisciplinedRun(cfg, phase, state, actions)
    requires forall i :: 0 <= i < |actions| ==> !actions[i].TakePoint?
    ensures Progress(cfg, phase, state) + PointsScored(cfg, state, actions)
      <= (2 * cfg.GamesToWin() - 1) * LongestGame(cfg)
    decreases |actions|
  {
    if actions == [] {
      ProgressIsBounded(cfg, phase, state);
    } else {
      var result := Apply(cfg, state, actions[0]);
      StepKeepsInvariant(cfg, phase, state, actions[0]);
      StepProgress(cfg, phase, state, actions[0]);
      RunProgress(cfg, NextPhase(phase, actions[0], result), result.state, actions[1..]);
    }
  }

  /** A capped match ends: no disciplined run without taking points back scores more than
      2*GamesToWin - 1 games of twice the cap less one point each. */
  lemma {:induction false} CappedMatchesEnd(cfg: ScoringConfig, state: MatchState, actions: seq<Action>)
    requires cfg.Valid() && cfg.maxPoints > 0 && IsFresh(state) && DisciplinedRun(cfg, Playing, state, actions)
    requires forall i :: 0 <= i < |actions| ==> !actions[i].TakePoint?
    ensures PointsScored(cfg, state, actions)
      <= (2 * cfg.GamesToWin() - 1) * (2 * Max(cfg.pointsToWin, cfg.maxPoints) - 1)
  {
    FreshIsInvariant(cfg, state);
    RunProgress(cfg, Playing, state, actions);
  }
}
