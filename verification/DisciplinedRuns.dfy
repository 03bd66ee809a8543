/** Whole runs of the scoring engine. The engine does not stop a second point after a win is
    detected; in a disciplined run the caller confirms a detected win before scoring on. */
module DisciplinedRuns {
  import opened Scoring

  /** What was last detected and is still to be confirmed. */
  datatype Phase = Playing | GameDetected | MatchDetected

  function NextPhase(phase: Phase, action: Action, result: EngineResult): Phase {
    if result.IsError() then phase
    else match action
      case ScorePoint(_) =>
        if result.matchOverDetected then MatchDetected
        else if result.gameOverDetected then GameDetected
        else Playing
      case EndGame => Playing
      case _ => phase
  }

  /** After a detected game the next scoring step confirms it, after a detected match the next
      one confirms the match. While a game is played, a point is taken back only if that does not
      expose a win of the opponent (TakingAPointBackIsExact says why). */
  predicate Disciplined(cfg: ScoringConfig, phase: Phase, state: MatchState, action: Action) {
    match action
    case ScorePoint(_) => phase == Playing
    case TakePoint(team, _, _) =>
      phase == Playing && !Apply(cfg, state, action).IsError() ==> !ExposesOpponent(cfg, state, team)
    case EndGame => phase != MatchDetected
    case EndMatch => phase != GameDetected
    case _ => true
  }

  /** The opponent has reached the target and with one point less on this team's side is ahead by
      the margin; one point short of the cap, by more than the margin. */
  predicate ExposesOpponent(cfg: ScoringConfig, state: MatchState, team: int) {
    var (own, opponent) := if team == 1
      then (state.teamOneScore, state.teamTwoScore)
      else (state.teamTwoScore, state.teamOneScore);
    && opponent >= cfg.pointsToWin
    && (if cfg.maxPoints > 0 && opponent + 1 == cfg.maxPoints
        then opponent - own >= cfg.winBy
        else opponent - own >= cfg.winBy - 1)
  }

  predicate DisciplinedRun(cfg: ScoringConfig, phase: Phase, state: MatchState, actions: seq<Action>)
    decreases |actions|
  {
    actions == [] ||
    (&& Disciplined(cfg, phase, state, actions[0])
     && var result := Apply(cfg, state, actions[0]);
        DisciplinedRun(cfg, NextPhase(phase, actions[0], result), result.state, actions[1..]))
  }

  function RunPhase(cfg: ScoringConfig, phase: Phase, state: MatchState, actions: seq<Action>): Phase
    decreases |actions|
  {
    if actions == [] then phase
    else
      var result := Apply(cfg, state, actions[0]);
      RunPhase(cfg, NextPhase(phase, actions[0], result), result.state, actions[1..])
  }

  /** Neither team's score is a win. */
  predicate IsOpen(cfg: ScoringConfig, state: MatchState) {
    && state.teamOneScore >= 0 && state.teamTwoScore >= 0
    && !cfg.IsGameOver(state.teamOneScore, state.teamTwoScore)
    && !cfg.IsGameOver(state.teamTwoScore, state.teamOneScore)
  }

  /** One point short of the cap and ahead by exactly the margin: no step detects this win, but the
      leader's next point wins at the cap and the other team's opens the score again. */
  predicate IsShortOfCap(cfg: ScoringConfig, leader: int, other: int) {
    cfg.maxPoints > 0 && cfg.pointsToWin <= leader && leader + 1 == cfg.maxPoints && leader - other == cfg.winBy
  }

  /** The scores from which play goes well (see SafeScoresGoWell). */
  predicate IsSafe(cfg: ScoringConfig, state: MatchState) {
    && state.teamOneScore >= 0 && state.teamTwoScore >= 0
    && (|| IsOpen(cfg, state)
        || IsShortOfCap(cfg, state.teamOneScore, state.teamTwoScore)
        || IsShortOfCap(cfg, state.teamTwoScore, state.teamOneScore))
  }

  /** A rightly recorded game: the winner is strictly ahead, the loser's score is no win, and the
      winning score is PointsToWin with at least the margin, above it with exactly the margin, or
      exactly the cap. */
  predicate IsRightlyWon(cfg: ScoringConfig, g: GameResult) {
    && (g.winner == 1 || g.winner == 2)
    && var (won, lost) := if g.winner == 1 then (g.teamOneScore, g.teamTwoScore) else (g.teamTwoScore, g.teamOneScore);
      && won > lost >= 0
      && cfg.IsGameOver(won, lost) && !cfg.IsGameOver(lost, won)
      && (|| (won == cfg.pointsToWin && won - lost >= cfg.winBy)
          || (won > cfg.pointsToWin && won - lost == cfg.winBy)
          || (cfg.maxPoints > 0 && won == Max(cfg.pointsToWin, cfg.maxPoints)))
  }

  predicate AreRightGames(cfg: ScoringConfig, games: seq<GameResult>) {
    forall i :: 0 <= i < |games| ==> games[i].gameNum == i + 1 && IsRightlyWon(cfg, games[i])
  }

  /** What every disciplined run keeps. */
  predicate Invariant(cfg: ScoringConfig, phase: Phase, state: MatchState) {
    var games, goal := state.completedGames, cfg.GamesToWin();
    && AreRightGames(cfg, games)
    && match phase
      case Playing =>
        && state.currentGameNum == |games| + 1 && IsSafe(cfg, state)
        && Wins(games, 1) < goal && Wins(games, 2) < goal
      case GameDetected =>
        && state.currentGameNum == |games| > 0
        && Wins(games, 1) < goal && Wins(games, 2) < goal
      case MatchDetected =>
        && state.currentGameNum == |games| > 0
        && ((Wins(games, 1) == goal && Wins(games, 2) < goal) || (Wins(games, 1) < goal && Wins(games, 2) == goal))
  }

  /** A match about to start. */
  predicate IsFresh(state: MatchState) {
    state.teamOneScore == 0 && state.teamTwoScore == 0 && state.currentGameNum == 1 && state.completedGames == []
  }

  lemma {:induction false} FreshIsInvariant(cfg: ScoringConfig, state: MatchState)
    requires cfg.Valid() && IsFresh(state)
    ensures Invariant(cfg, Playing, state)
  {
  }

  /** A score is open exactly while both teams are short of the target or within the margin of each
      other, and both are short of the cap if there is one. */
  lemma {:induction false} OpenScores(cfg: ScoringConfig, state: MatchState)
    requires cfg.Valid() && state.teamOneScore >= 0 && state.teamTwoScore >= 0
    ensures var (a, b, target, cap) :=
      (state.teamOneScore, state.teamTwoScore, cfg.pointsToWin, Max(cfg.pointsToWin, cfg.maxPoints));
      IsOpen(cfg, state) <==>
        && ((a < target && b < target) || -cfg.winBy < a - b < cfg.winBy)
        && (cfg.maxPoints > 0 ==> a < cap && b < cap)
  {
  }

  /** A point from a safe score of a to b: a win has one of the three shapes and the opponent has
      not won; no win leaves the score open. */
  lemma {:induction false} PointFromSafeScore(cfg: ScoringConfig, a: int, b: int)
    requires cfg.Valid() && a >= 0 && b >= 0
    requires (!cfg.IsGameOver(a, b) && !cfg.IsGameOver(b, a)) || IsShortOfCap(cfg, a, b) || IsShortOfCap(cfg, b, a)
    ensures !cfg.IsGameOver(b, a + 1)
    ensures cfg.IsGameOver(a + 1, b) ==>
      && a + 1 > b
      && (|| (a + 1 == cfg.pointsToWin && a + 1 - b >= cfg.winBy)
          || (a + 1 > cfg.pointsToWin && a + 1 - b == cfg.winBy)
          || (cfg.maxPoints > 0 && a + 1 == Max(cfg.pointsToWin, cfg.maxPoints)))
  {
  }

  lemma {:induction false} WonFromSafeScore(cfg: ScoringConfig, gameNum: int, a: int, b: int)
    requires cfg.Valid() && a >= 0 && b >= 0 && cfg.IsGameOver(a + 1, b)
    requires (!cfg.IsGameOver(a, b) && !cfg.IsGameOver(b, a)) || IsShortOfCap(cfg, a, b) || IsShortOfCap(cfg, b, a)
    ensures IsRightlyWon(cfg, GameResult(gameNum, a + 1, b, 1))
    ensures IsRightlyWon(cfg, GameResult(gameNum, b, a + 1, 2))
  {
    PointFromSafeScore(cfg, a, b);
  }

  predicate IsMatchWon(cfg: ScoringConfig, games: seq<GameResult>) {
    Wins(games, 1) >= cfg.GamesToWin() || Wins(games, 2) >= cfg.GamesToWin()
  }

  /** What a point leaves: the score and the serve after it, and if either score is a win, one more
      game on record, won by team 1 if its score is a win. */
  lemma {:induction false} PointRecords(cfg: ScoringConfig, state: MatchState, team: int)
    requires !Point(cfg, state, team).IsError()
    ensures var (result, scored) := (Point(cfg, state, team), Scored(cfg, state, team));
      var (a, b) := (scored.teamOneScore, scored.teamTwoScore);
      && (result.gameOverDetected <==> cfg.IsGameOver(a, b) || cfg.IsGameOver(b, a))
      && result.state == scored.(completedGames := state.completedGames +
        if !result.gameOverDetected then []
        else [GameResult(state.currentGameNum, a, b, if cfg.IsGameOver(a, b) then 1 else 2)])
  {
  }

  lemma {:induction false} PointDetectsMatch(cfg: ScoringConfig, state: MatchState, team: int)
    requires !Point(cfg, state, team).IsError()
    ensures var result := Point(cfg, state, team);
      result.matchOverDetected <==> result.gameOverDetected && IsMatchWon(cfg, result.state.completedGames)
  {
  }

  /** The last recorded game is rightly won, by the team that scored. */
  predicate IsWonByScorer(cfg: ScoringConfig, games: seq<GameResult>, team: int) {
    |games| > 0 && games[|games| - 1].winner == Scorer(team) && IsRightlyWon(cfg, games[|games| - 1])
  }

  /** From a safe score, a point that wins the game wins it for the team that just scored, and
      the recorded game is rightly won; any other point leaves the score open. */
  lemma {:induction false} WinningPoint(cfg: ScoringConfig, state: MatchState, team: int)
    requires cfg.Valid() && IsSafe(cfg, state)
    requires !Point(cfg, state, team).IsError()
    ensures var result := Point(cfg, state, team);
      var games := result.state.completedGames;
      if result.gameOverDetected then
        && |games| == |state.completedGames| + 1
        && games[..|state.completedGames|] == state.completedGames
        && games[|games| - 1].gameNum == state.currentGameNum
        && IsWonByScorer(cfg, games, team)
      else games == state.completedGames && IsOpen(cfg, result.state)
  {
    var result, num := Point(cfg, state, team), state.currentGameNum;
    var games, a, b := state.completedGames, state.teamOneScore, state.teamTwoScore;
    PointRecords(cfg, state, team);
    if team == 1 {
      PointFromSafeScore(cfg, a, b);
      if result.gameOverDetected {
        assert result.state.completedGames == games + [GameResult(num, a + 1, b, 1)];
        WonFromSafeScore(cfg, num, a, b);
      }
    } else {
      PointFromSafeScore(cfg, b, a);
      if result.gameOverDetected {
        assert result.state.completedGames == games + [GameResult(num, a, b + 1, 2)];
        WonFromSafeScore(cfg, num, b, a);
      }
    }
  }

  lemma {:induction false} WinsOfAppend(games: seq<GameResult>, g: GameResult, team: int)
    ensures Wins(games + [g], team) == Wins(games, team) + if g.winner == team then 1 else 0
  {
  }

  /** One more rightly won game: the match is won by exactly one team, or goes on. */
  lemma {:induction false} OneMoreGame(cfg: ScoringConfig, games: seq<GameResult>, g: GameResult)
    requires AreRightGames(cfg, games) && g.gameNum == |games| + 1 && IsRightlyWon(cfg, g) && !IsMatchWon(cfg, games)
    ensures var (all, goal) := (games + [g], cfg.GamesToWin());
      && AreRightGames(cfg, all)
      && (IsMatchWon(cfg, all) ==>
        (Wins(all, 1) == goal && Wins(all, 2) < goal) || (Wins(all, 1) < goal && Wins(all, 2) == goal))
  {
    WinsOfAppend(games, g, 1);
    WinsOfAppend(games, g, 2);
  }

  lemma {:induction false} PointKeepsInvariant(cfg: ScoringConfig, state: MatchState, team: int)
    requires cfg.Valid() && Invariant(cfg, Playing, state)
    ensures var result := Point(cfg, state, team);
      Invariant(cfg, NextPhase(Playing, ScorePoint(team), result), result.state)
  {
    var result := Point(cfg, state, team);
    if !result.IsError() {
      WinningPoint(cfg, state, team);
      PointRecords(cfg, state, team);
      PointDetectsMatch(cfg, state, team);
      if result.gameOverDetected {
        var games := state.completedGames;
        var g := result.state.completedGames[|games|];
        assert result.state.completedGames == games + [g];
        OneMoreGame(cfg, games, g);
      }
    }
  }

  /** Taking a point back leaves the score safe exactly when it does not expose the opponent. */
  lemma {:induction false} TakingAPointBack(cfg: ScoringConfig, state: MatchState, team: int, servingTeam: int,
        serverNumber: int)
    requires cfg.Valid() && IsSafe(cfg, state)
    requires !RemovePoint(state, team, servingTeam, serverNumber).IsError()
    ensures IsSafe(cfg, RemovePoint(state, team, servingTeam, serverNumber).state)
      <==> !ExposesOpponent(cfg, state, team)
  {
  }

  /** Play up to the end of the game: points and side-outs. */
  predicate IsPlay(actions: seq<Action>) {
    forall i :: 0 <= i < |actions| ==> actions[i].ScorePoint? || actions[i].CallSideOut?
  }

  /** If the play ends the game, it is rightly won, by the team that scored last. */
  predicate GoesWell(cfg: ScoringConfig, state: MatchState, play: seq<Action>)
    decreases |play|
  {
    play == [] ||
    var result := Apply(cfg, state, play[0]);
    if result.gameOverDetected
      then play[0].ScorePoint? && IsWonByScorer(cfg, result.state.completedGames, play[0].team)
      else GoesWell(cfg, result.state, play[1..])
  }

  lemma {:induction false} SafePlay(cfg: ScoringConfig, state: MatchState, play: seq<Action>)
    requires cfg.Valid() && IsSafe(cfg, state) && IsPlay(play)
    ensures GoesWell(cfg, state, play)
    decreases |play|
  {
    if play != [] {
      var result := Apply(cfg, state, play[0]);
      if play[0].ScorePoint? && !result.IsError() {
        WinningPoint(cfg, state, play[0].team);
      }
      if !result.gameOverDetected {
        SafePlay(cfg, result.state, play[1..]);
      }
    }
  }

  /** From any other score one point goes wrong: the other team's, if the leader stays ahead by the
      margin, or else the leader's, which wins by more. */
  lemma {:induction false} UnsafePoint(cfg: ScoringConfig, state: MatchState) returns (team: int)
    requires cfg.Valid() && state.teamOneScore >= 0 && state.teamTwoScore >= 0 && !IsSafe(cfg, state)
    ensures team == 1 || team == 2
    ensures forall s: MatchState ::
      s.teamOneScore == state.teamOneScore && s.teamTwoScore == state.teamTwoScore && !Point(cfg, s, team).IsError() ==>
        var result := Point(cfg, s, team);
        result.gameOverDetected && !IsWonByScorer(cfg, result.state.completedGames, team)
  {
    var (a, b) := (state.teamOneScore, state.teamTwoScore);
    if cfg.IsGameOver(b, a) {
      team := if cfg.IsGameOver(b, a + 1) then 1 else 2;
    } else {
      team := if cfg.IsGameOver(a, b + 1) then 2 else 1;
    }
  }

  function SideOuts(n: nat): seq<Action> {
    seq(n, _ => CallSideOut)
  }

  lemma {:induction false} SideOutFirst(cfg: ScoringConfig, state: MatchState, n: nat, rest: seq<Action>)
    requires n > 0
    ensures GoesWell(cfg, state, SideOuts(n) + rest) == GoesWell(cfg, SideOut(state).state, SideOuts(n - 1) + rest)
  {
    assert (SideOuts(n) + rest)[1..] == SideOuts(n - 1) + rest;
  }

  /** How many side-outs bring the serve to a team: four at most. */
  function Wait(state: MatchState, team: int): nat {
    var other := if state.servingTeam == 1 then 2 else 1;
    if state.servingTeam == team then 0
    else (if state.serverNumber == 1 then 1 else 0) + (if other == team then 1 else 3)
  }

  lemma {:induction false} BringServe(cfg: ScoringConfig, state: MatchState, team: int, rest: seq<Action>)
    returns (n: nat, ready: MatchState)
    requires state.status == InProgress && (team == 1 || team == 2)
    ensures ready == state.(servingTeam := team, serverNumber := ready.serverNumber)
    ensures GoesWell(cfg, state, SideOuts(n) + rest) == GoesWell(cfg, ready, rest)
    decreases Wait(state, team)
  {
    if state.servingTeam == team {
      n, ready := 0, state;
      assert SideOuts(0) + rest == rest;
    } else {
      n, ready := BringServe(cfg, SideOut(state).state, team, rest);
      n := n + 1;
      SideOutFirst(cfg, state, n, rest);
    }
  }

  /** Safe scores are exactly those from which every play goes well, in both scoring types. */
  lemma {:induction false} SafeScoresGoWell(cfg: ScoringConfig, state: MatchState)
    requires cfg.Valid() && state.status == InProgress && state.teamOneScore >= 0 && state.teamTwoScore >= 0
    ensures (forall play :: IsPlay(play) ==> GoesWell(cfg, state, play)) <==> IsSafe(cfg, state)
  {
    if IsSafe(cfg, state) {
      forall play | IsPlay(play) ensures GoesWell(cfg, state, play) {
        SafePlay(cfg, state, play);
      }
    } else {
      var team := UnsafePoint(cfg, state);
      var n, ready := BringServe(cfg, state, team, [ScorePoint(team)]);
      assert !Point(cfg, ready, team).IsError();
      assert !GoesWell(cfg, ready, [ScorePoint(team)]);
      assert IsPlay(SideOuts(n) + [ScorePoint(team)]);
    }
  }

  /** The discipline on taking points back is exact: from a safe score, every play after an
      accepted one goes well if and only if it did not expose the opponent. */
  lemma {:induction false} TakingAPointBackIsExact(cfg: ScoringConfig, state: MatchState, team: int,
        servingTeam: int, serverNumber: int)
    requires cfg.Valid() && IsSafe(cfg, state)
    requires !RemovePoint(state, team, servingTeam, serverNumber).IsError()
    ensures var taken := RemovePoint(state, team, servingTeam, serverNumber).state;
      (forall play :: IsPlay(play) ==> GoesWell(cfg, taken, play)) <==> !ExposesOpponent(cfg, state, team)
  {
    TakingAPointBack(cfg, state, team, servingTeam, serverNumber);
    SafeScoresGoWell(cfg, RemovePoint(state, team, servingTeam, serverNumber).state);
  }

  /** Without that condition the engine records a game that was not rightly won: to 11 by 2,
      from 10-11 the leader's opponent loses a point and the leader scores once more. */
  lemma {:induction false} TakingAPointBackCanSpoilAGame(state: MatchState)
    requires state.status == InProgress && state.teamOneScore == 10 && state.teamTwoScore == 11
    ensures var cfg := ScoringConfig(RallyScoring, 11, 2, 0, 3, 1, 0);
      var taken := RemovePoint(state, 1, state.servingTeam, state.serverNumber).state;
      var result := Point(cfg, taken, 2);
      && cfg.Valid() && IsOpen(cfg, state) && ExposesOpponent(cfg, state, 1)
      && result.gameOverDetected
      && !IsRightlyWon(cfg, result.state.completedGames[|result.state.completedGames| - 1])
  {
  }

  lemma {:induction false} StepKeepsInvariant(cfg: ScoringConfig, phase: Phase, state: MatchState, action: Action)
    requires cfg.Valid() && Invariant(cfg, phase, state) && Disciplined(cfg, phase, state, action)
    ensures var result := Apply(cfg, state, action);
      Invariant(cfg, NextPhase(phase, action, result), result.state)
  {
    match action
    case ScorePoint(team) => PointKeepsInvariant(cfg, state, team);
    case TakePoint(team, servingTeam, serverNumber) =>
      TakenPointKeepsInvariant(cfg, phase, state, team, servingTeam, serverNumber);
    case EndGame => EndOfGameKeepsInvariant(cfg, phase, state);
    case _ => OtherActionKeepsInvariant(cfg, phase, state, action);
  }

  /** No other action touches the score or the games. */
  lemma {:induction false} OtherActionKeepsInvariant(cfg: ScoringConfig, phase: Phase, state: MatchState,
        action: Action)
    requires Invariant(cfg, phase, state) && !action.ScorePoint? && !action.TakePoint? && !action.EndGame?
    ensures var result := Apply(cfg, state, action);
      NextPhase(phase, action, result) == phase && Invariant(cfg, phase, result.state)
  {
  }

  /** Once a game or the match is detected, taking points back does no harm. */
  lemma {:induction false} TakenPointKeepsInvariant(cfg: ScoringConfig, phase: Phase, state: MatchState, team: int,
                                                   servingTeam: int, serverNumber: int)
    requires cfg.Valid() && Invariant(cfg, phase, state)
    requires phase == Playing && !RemovePoint(state, team, servingTeam, serverNumber).IsError() ==>
      !ExposesOpponent(cfg, state, team)
    ensures Invariant(cfg, phase, RemovePoint(state, team, servingTeam, serverNumber).state)
  {
  }

  lemma {:induction false} EndOfGameKeepsInvariant(cfg: ScoringConfig, phase: Phase, state: MatchState)
    requires cfg.Valid() && Invariant(cfg, phase, state) && phase != MatchDetected
    ensures var result := ConfirmGameOver(state);
      Invariant(cfg, NextPhase(phase, EndGame, result), result.state)
  {
  }

  lemma {:induction false} RunKeepsInvariant(cfg: ScoringConfig, phase: Phase, state: MatchState, actions: seq<Action>)
    requires cfg.Valid() && Invariant(cfg, phase, state) && DisciplinedRun(cfg, phase, state, actions)
    ensures Invariant(cfg, RunPhase(cfg, phase, state, actions), Run(cfg, state, actions))
    decreases |actions|
  {
    if actions != [] {
      StepKeepsInvariant(cfg, phase, state, actions[0]);
      var result := Apply(cfg, state, actions[0]);
      RunKeepsInvariant(cfg, NextPhase(phase, actions[0], result), result.state, actions[1..]);
    }
  }

  lemma {:induction false} EveryGameHasAWinner(games: seq<GameResult>)
    requires forall i :: 0 <= i < |games| ==> games[i].winner == 1 || games[i].winner == 2
    ensures Wins(games, 1) + Wins(games, 2) == |games|
    decreases |games|
  {
    if games != [] {
      EveryGameHasAWinner(games[..|games| - 1]);
    }
  }

  /** On every disciplined run of a match from its start: games are numbered 1, 2, 3, ... without
      gaps and rightly won; both win counts stay below GamesToWin until the match is detected as
      over, and then exactly one team has GamesToWin wins; at most 2*GamesToWin - 1 games are
      ever recorded. */
  lemma {:induction false} DisciplinedRunIsSound(cfg: ScoringConfig, state: MatchState, actions: seq<Action>)
    requires cfg.Valid() && IsFresh(state) && DisciplinedRun(cfg, Playing, state, actions)
    ensures var phase, end, goal := RunPhase(cfg, Playing, state, actions), Run(cfg, state, actions), cfg.GamesToWin();
      var (w1, w2) := (Wins(end.completedGames, 1), Wins(end.completedGames, 2));
      && (forall i :: 0 <= i < |end.completedGames| ==>
        end.completedGames[i].gameNum == i + 1 && IsRightlyWon(cfg, end.completedGames[i]))
      && (phase != MatchDetected ==> w1 < goal && w2 < goal)
      && (phase == MatchDetected ==> (w1 == goal && w2 < goal) || (w1 < goal && w2 == goal))
      && |end.completedGames| <= 2 * goal - 1
      && end.currentGameNum <= 2 * goal - 1
  {
    FreshIsInvariant(cfg, state);
    RunKeepsInvariant(cfg, Playing, state, actions);
    EveryGameHasAWinner(Run(cfg, state, actions).completedGames);
  }

  /** From the winning point of a game to the next one: the loser serves first, at love, and the
      game is on record. */
  lemma {:induction false} LoserServesFirst(cfg: ScoringConfig, state: MatchState, team: int)
    requires cfg.Valid() && Invariant(cfg, Playing, state)
    requires Point(cfg, state, team).gameOverDetected
    ensures var won := Point(cfg, state, team).state;
      var next := ConfirmGameOver(won);
      && !next.IsError() && |won.completedGames| == |state.completedGames| + 1
      && next.state == state.(
        teamOneScore := 0, teamTwoScore := 0, completedGames := won.completedGames,
        currentGameNum := |won.completedGames| + 1, servingTeam := 3 - Scorer(team), serverNumber := 1)
  {
    WinningPoint(cfg, state, team);
  }

  /** A win cannot be confirmed twice, nor before it is detected: while a game is being played
      the engine refuses to end it. */
  lemma {:induction false} NoGameEndsUndetected(cfg: ScoringConfig, state: MatchState)
    requires Invariant(cfg, Playing, state)
    ensures ConfirmGameOver(state).IsError() && ConfirmGameOver(state).state == state
  {
  }

  /** Under any actions at all, recorded games are never rewritten and refusals change nothing. */
  lemma {:induction false} RecordedGamesStay(cfg: ScoringConfig, state: MatchState, action: Action)
    ensures var result := Apply(cfg, state, action);
      && state.completedGames <= result.state.completedGames
      && (result.IsError() ==> result.state == state)
  {
    if action.ScorePoint? && !Point(cfg, state, action.team).IsError() {
      PointRecords(cfg, state, action.team);
    }
  }

  lemma {:induction false} RecordedGamesStayInRuns(cfg: ScoringConfig, state: MatchState, actions: seq<Action>)
    ensures state.completedGames <= Run(cfg, state, actions).completedGames
    decreases |actions|
  {
    if actions != [] {
      RecordedGamesStay(cfg, state, actions[0]);
      RecordedGamesStayInRuns(cfg, Apply(cfg, state, actions[0]).state, actions[1..]);
    }
  }
}
