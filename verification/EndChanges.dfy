/** How often a game signals the change of ends. */
module EndChanges {
  import opened Scoring
  import opened DisciplinedRuns

  function OwnScore(state: MatchState, team: int): int {
    if Scorer(team) == 1 then state.teamOneScore else state.teamTwoScore
  }

  function LeadingScore(state: MatchState): int {
    Max(state.teamOneScore, state.teamTwoScore)
  }

  predicate IsDecidingGame(cfg: ScoringConfig, state: MatchState) {
    state.currentGameNum == 2 * cfg.GamesToWin() - 1
  }

  /** The end change is signalled only in the deciding game, and there first by the point that
      brings a team to the midpoint. */
  lemma {:induction false} EndChangeAtMidpoint(cfg: ScoringConfig, state: MatchState, team: int)
    requires !Point(cfg, state, team).IsError() && LeadingScore(state) < cfg.Midpoint()
    ensures Point(cfg, state, team).endChangeDetected
      <==> IsDecidingGame(cfg, state) && OwnScore(state, team) + 1 == cfg.Midpoint()
  {
  }

  /** Once a team has reached the midpoint, a point signals the end change again exactly when the
      leader still stands there and the team that scores was below it. */
  lemma {:induction false} EndChangeRepeats(cfg: ScoringConfig, state: MatchState, team: int)
    requires !Point(cfg, state, team).IsError() && LeadingScore(state) >= cfg.Midpoint()
    ensures Point(cfg, state, team).endChangeDetected <==>
      IsDecidingGame(cfg, state) && LeadingScore(state) == cfg.Midpoint() && OwnScore(state, team) < cfg.Midpoint()
  {
  }

  /** A point of the team behind while the leader stands at the midpoint. */
  predicate IsCatchUp(cfg: ScoringConfig, state: MatchState, action: Action) {
    && action.ScorePoint? && !Point(cfg, state, action.team).IsError()
    && LeadingScore(state) == cfg.Midpoint() && OwnScore(state, action.team) < cfg.Midpoint()
  }

  function CatchUps(cfg: ScoringConfig, state: MatchState, play: seq<Action>): nat
    decreases |play|
  {
    if play == [] then 0
    else
      (if IsCatchUp(cfg, state, play[0]) then 1 else 0) + CatchUps(cfg, Apply(cfg, state, play[0]).state, play[1..])
  }

  /** How often a play signals the end change. */
  function Signals(cfg: ScoringConfig, state: MatchState, play: seq<Action>): nat
    decreases |play|
  {
    if play == [] then 0
    else
      var result := Apply(cfg, state, play[0]);
      (if result.endChangeDetected then 1 else 0) + Signals(cfg, result.state, play[1..])
  }

  /** A point raises the score of its team by one and stays in the same game. */
  lemma {:induction false} PointRaises(cfg: ScoringConfig, state: MatchState, team: int)
    requires !Point(cfg, state, team).IsError()
    ensures var after := Point(cfg, state, team).state;
      && after.currentGameNum == state.currentGameNum
      && LeadingScore(after) == Max(LeadingScore(state), OwnScore(state, team) + 1)
  {
    PointRecords(cfg, state, team);
  }

  lemma {:induction false} PlayStep(cfg: ScoringConfig, state: MatchState, action: Action)
    requires (action.ScorePoint? || action.CallSideOut?) && IsDecidingGame(cfg, state)
    ensures var result := Apply(cfg, state, action);
      var (before, after) := (LeadingScore(state), LeadingScore(result.state));
      && IsDecidingGame(cfg, result.state) && before <= after <= before + 1
      && (result.endChangeDetected <==>
        IsCatchUp(cfg, state, action) || before < cfg.Midpoint() <= after)
  {
    if action.ScorePoint? && !Point(cfg, state, action.team).IsError() {
      PointRaises(cfg, state, action.team);
      if LeadingScore(state) < cfg.Midpoint() {
        EndChangeAtMidpoint(cfg, state, action.team);
      } else {
        EndChangeRepeats(cfg, state, action.team);
      }
    }
  }

  /** In the deciding game a play signals the end change once for reaching the midpoint, and once
      more for every point of the team behind while the leader stands there. */
  lemma {:induction false} SignalsAreCounted(cfg: ScoringConfig, state: MatchState, play: seq<Action>)
    requires IsPlay(play) && IsDecidingGame(cfg, state)
    ensures var (before, after) := (LeadingScore(state), LeadingScore(Run(cfg, state, play)));
      && before <= after
      && Signals(cfg, state, play) == CatchUps(cfg, state, play) + (if before < cfg.Midpoint() <= after then 1 else 0)
      && (CatchUps(cfg, state, play) > 0 ==> after >= cfg.Midpoint())
    decreases |play|
  {
    if play != [] {
      PlayStep(cfg, state, play[0]);
      SignalsAreCounted(cfg, Apply(cfg, state, play[0]).state, play[1..]);
    }
  }

  /** From scores below the midpoint a play signals the end change at most once exactly when the team
      behind never scores while the leader stands at the midpoint. */
  lemma {:induction false} SignalledOnceIff(cfg: ScoringConfig, state: MatchState, play: seq<Action>)
    requires IsPlay(play) && IsDecidingGame(cfg, state) && LeadingScore(state) < cfg.Midpoint()
    ensures Signals(cfg, state, play) <= 1 <==> CatchUps(cfg, state, play) == 0
  {
    SignalsAreCounted(cfg, state, play);
  }

  /** A point taken back with the serve from before leaves no trace but a recorded game. */
  lemma {:induction false} TakenBack(cfg: ScoringConfig, state: MatchState, team: int)
    requires (team == 1 || team == 2) && state.teamOneScore >= 0 && state.teamTwoScore >= 0
    requires !Point(cfg, state, team).IsError()
    ensures var first := Point(cfg, state, team).state;
      var taken := RemovePoint(first, team, state.servingTeam, state.serverNumber);
      !taken.IsError() && taken.state == state.(completedGames := first.completedGames)
  {
    PointRecords(cfg, state, team);
  }

  lemma {:induction false} OpponentIsNotExposed(cfg: ScoringConfig, before: MatchState, after: MatchState, team: int)
    requires cfg.Valid() && (team == 1 || team == 2) && LeadingScore(before) < cfg.Midpoint()
    requires after == Point(cfg, before, team).state && !Point(cfg, before, team).IsError()
    ensures !ExposesOpponent(cfg, after, team)
  {
    PointRecords(cfg, before, team);
    assert cfg.Midpoint() <= cfg.pointsToWin;
  }

  /** Taking a point back is another way to signal twice: a point from below the midpoint, taken back
      and scored again, signals again whatever it signalled, and nothing speaks against taking it back. */
  lemma {:induction false} EndChangeAfterRemoval(cfg: ScoringConfig, state: MatchState, team: int)
    requires cfg.Valid() && (team == 1 || team == 2) && state.teamOneScore >= 0 && state.teamTwoScore >= 0
    requires !Point(cfg, state, team).IsError() && LeadingScore(state) < cfg.Midpoint()
    ensures var first := Point(cfg, state, team);
      var taken := RemovePoint(first.state, team, state.servingTeam, state.serverNumber);
      var second := Point(cfg, taken.state, team);
      && !taken.IsError() && !ExposesOpponent(cfg, first.state, team) && !second.IsError()
      && second.endChangeDetected == first.endChangeDetected
  {
    var first := Point(cfg, state, team);
    var taken := RemovePoint(first.state, team, state.servingTeam, state.serverNumber);
    TakenBack(cfg, state, team);
    OpponentIsNotExposed(cfg, state, first.state, team);
    EndChangeAtMidpoint(cfg, state, team);
    EndChangeAtMidpoint(cfg, taken.state, team);
  }
}
