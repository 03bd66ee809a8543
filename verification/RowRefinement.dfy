/** Loading a row, stepping the engine and storing the answer refines the pure engine; and what
    the service makes of a finished match. */
module RowRefinement {
  import opened Wrappers
  import opened Scoring
  import opened DisciplinedRuns
  import opened MatchTable
  import opened MatchService
  import BracketService
  import Brackets

  /** The row after one service call: a refused action leaves it as it is. */
  function StepRow(row: MatchRow, action: Action): MatchRow {
    var answer := Answer(row, action);
    if answer.IsError() then row else StoreState(row, answer.state)
  }

  function RunRow(row: MatchRow, actions: seq<Action>): MatchRow
    decreases |actions|
  {
    if actions == [] then row else RunRow(StepRow(row, actions[0]), actions[1..])
  }

  /** The service's calls are exactly these steps on the stored row. */
  method CallEngine(service: Service, matchId: int, action: Action) returns (r: Result<EngineResult, ServiceError>)
    requires matchId in service.matches
    modifies service
    ensures service.matches == old(service.matches)[matchId := StepRow(old(service.matches[matchId]), action)]
    ensures r.Ok? <==> !Answer(old(service.matches[matchId]), action).IsError()
  {
    r := service.Perform(matchId, action);
  }

  /** The same calls as engine actions: taking a point back keeps the serving state. */
  function ResolveRun(cfg: ScoringConfig, state: MatchState, actions: seq<Action>): seq<Action>
    decreases |actions|
  {
    if actions == [] then []
    else
      var action := Resolve(state, actions[0]);
      [action] + ResolveRun(cfg, Apply(cfg, state, action).state, actions[1..])
  }

  /** A state whose pause flag agrees with its status, as every loaded state's does. */
  function Settled(state: MatchState): MatchState {
    state.(isPaused := state.status == Paused)
  }

  /** A state can be stored if its status is, or is the row's, and no game was forgotten. */
  predicate IsStorable(row: MatchRow, state: MatchState) {
    && StoredStatus(row.status, state.status) == state.status
    && (state.completedGames == [] ==> LoadState(row).completedGames == [])
  }

  lemma {:induction false} PointKeepsStatus(cfg: ScoringConfig, state: MatchState, team: int)
    requires !Point(cfg, state, team).IsError()
    ensures Point(cfg, state, team).state.status == state.status == InProgress
  {
    assert Scored(cfg, state, team).status == state.status;
  }

  lemma {:induction false} PointIsStorable(row: MatchRow, cfg: ScoringConfig, team: int)
    requires !Point(cfg, LoadState(row), team).IsError()
    ensures IsStorable(row, Point(cfg, LoadState(row), team).state)
  {
    PointKeepsStatus(cfg, LoadState(row), team);
    RecordedGamesStay(cfg, LoadState(row), ScorePoint(team));
  }

  /** What the engine answers can be stored. */
  lemma {:induction false} AnswerIsStorable(row: MatchRow, action: Action)
    requires !Answer(row, action).IsError()
    ensures IsStorable(row, Answer(row, action).state)
  {
    match action
    case ScorePoint(team) => PointIsStorable(row, LoadConfig(row), team);
    case _ =>
  }

  lemma {:induction false} LoadStored(row: MatchRow, state: MatchState)
    requires IsStorable(row, state)
    ensures LoadState(StoreState(row, state)) == Settled(state)
  {
  }

  /** Loading the row that was just stored gives back the engine's state, pause flag settled;
      scoring rules, teams, wiring and result are untouched. */
  lemma {:induction false} LoadAfterStore(row: MatchRow, action: Action)
    requires !Answer(row, action).IsError()
    ensures var state := Answer(row, action).state;
      var stored := StoreState(row, state);
      && LoadState(stored) == Settled(state)
      && LoadConfig(stored) == LoadConfig(row)
      && stored == row.(scoring := stored.scoring, status := stored.status)
      && stored.scoring.currentSet == row.scoring.currentSet
  {
    AnswerIsStorable(row, action);
    LoadStored(row, Answer(row, action).state);
  }

  /** The one exception to an exact round trip is forfeiting a paused match: the engine leaves
      its pause flag up, the loaded state has it down. */
  lemma {:induction false} RoundTripIsExact(row: MatchRow, action: Action)
    requires !Answer(row, action).IsError()
    ensures LoadState(StoreState(row, Answer(row, action).state)) == Answer(row, action).state
      <==> !(row.status == Paused && action.ForfeitMatch?)
  {
    LoadAfterStore(row, action);
  }

  lemma {:induction false} PointIgnoresPauseFlag(cfg: ScoringConfig, state: MatchState, flag: bool, team: int)
    ensures var (a, b) := (Point(cfg, state.(isPaused := flag), team), Point(cfg, state, team));
      a == b.(state := b.state.(isPaused := flag))
  {
    var flagged := state.(isPaused := flag);
    assert Scored(cfg, flagged, team) == Scored(cfg, state, team).(isPaused := flag);
  }

  /** The engine never looks at the pause flag. */
  lemma {:induction false} SettlingCommutes(cfg: ScoringConfig, state: MatchState, action: Action)
    ensures var (a, b) := (Apply(cfg, Settled(state), action), Apply(cfg, state, action));
      && Settled(a.state) == Settled(b.state) && a.error == b.error
      && a.gameOverDetected == b.gameOverDetected && a.matchOverDetected == b.matchOverDetected
      && a.endChangeDetected == b.endChangeDetected
  {
    match action
    case ScorePoint(team) => PointIgnoresPauseFlag(cfg, state, state.status == Paused, team);
    case _ =>
  }

  lemma {:induction false} StepRefines(row: MatchRow, state: MatchState, action: Action)
    requires LoadState(row) == Settled(state)
    ensures LoadState(StepRow(row, action)) == Settled(Apply(LoadConfig(row), state, Resolve(state, action)).state)
    ensures LoadConfig(StepRow(row, action)) == LoadConfig(row)
  {
    SettlingCommutes(LoadConfig(row), state, Resolve(state, action));
    if !Answer(row, action).IsError() {
      LoadAfterStore(row, action);
    }
  }

  /** With a single writer, any run of service calls on the stored row refines the run of the
      pure engine. */
  lemma {:induction false} RunRefines(row: MatchRow, state: MatchState, actions: seq<Action>)
    requires LoadState(row) == Settled(state)
    ensures LoadState(RunRow(row, actions))
      == Settled(Run(LoadConfig(row), state, ResolveRun(LoadConfig(row), state, actions)))
    ensures LoadConfig(RunRow(row, actions)) == LoadConfig(row)
    ensures RunRow(row, actions).teams == row.teams && RunRow(row, actions).result == row.result
    decreases |actions|
  {
    if actions != [] {
      var cfg, action := LoadConfig(row), Resolve(state, actions[0]);
      var next, rest := Apply(cfg, state, action).state, actions[1..];
      StepRefines(row, state, actions[0]);
      RunRefines(StepRow(row, actions[0]), next, rest);
      var resolved := ResolveRun(cfg, state, actions);
      assert resolved[0] == action && resolved[1..] == ResolveRun(cfg, next, rest);
    }
  }

  /** A row that GenerateBracket creates waits for its start with a clean score under the default
      rules -- side-out scoring to 11 by 2, one game, no cap -- and is undecided. */
  lemma {:induction false} CreatedMatchIsFresh(bm: Brackets.BracketMatch)
    ensures var row := BracketService.CreatedRow(bm);
      && row.status == Scheduled && IsFresh(LoadState(row)) && row.result == UNDECIDED && row.wiring == UNWIRED
      && row.matchNumber == Some(bm.matchNumber) && row.scoring.currentSet == 1
      && row.scoring.servingTeam == None && row.scoring.serverNumber == None
      && ParseScoringConfig("", 0, 0, 0, 0, 0, 0) == Ok(LoadConfig(row))
      && LoadConfig(row).GamesToWin() == 1
  {
  }

  /** A row as the database creates it, started. */
  predicate IsStarted(row: MatchRow) {
    row.status == InProgress && IsFresh(LoadState(row))
  }

  /** The service calls of a disciplined match that has been played out, to be confirmed. */
  predicate IsPlayedOut(row: MatchRow, actions: seq<Action>) {
    var cfg, state := LoadConfig(row), LoadState(row);
    var resolved := ResolveRun(cfg, state, actions);
    && IsStarted(row) && DisciplinedRun(cfg, Playing, state, resolved)
    && RunPhase(cfg, Playing, state, resolved) == MatchDetected
    && RunRow(row, actions).status == InProgress
  }

  /** A confirmation without named teams is refused exactly when the games are tied. */
  lemma {:induction false} TiesAreRefused(row: MatchRow, winnerTeamId: int, loserTeamId: int)
    requires !Answer(row, EndMatch).IsError()
    ensures var (completed, games) := (StoreState(row, Answer(row, EndMatch).state), LoadState(row).completedGames);
      IsTied(completed, winnerTeamId, loserTeamId)
      <==> winnerTeamId == 0 && loserTeamId == 0 && Wins(games, 1) == Wins(games, 2)
  {
    LoadAfterStore(row, EndMatch);
  }

  predicate HasTeams(row: MatchRow) {
    && row.teams.team1Id.Some? && row.teams.team1Id.value > 0
    && row.teams.team2Id.Some? && row.teams.team2Id.value > 0
  }

  /** Who wins a confirmed match, whatever its games: the team named, if both are; if none is, the
      team with more games. In every other case the result stays as it was. */
  lemma {:induction false} ConfirmedResult(row: MatchRow, winnerTeamId: int, loserTeamId: int)
    requires !Answer(row, EndMatch).IsError()
    ensures var completed := StoreState(row, Answer(row, EndMatch).state);
      var after := Confirmed(completed, winnerTeamId, loserTeamId);
      var games, unnamed := LoadState(row).completedGames, winnerTeamId == 0 && loserTeamId == 0;
      && after.status == Completed && after.(result := row.result) == completed
      && (winnerTeamId > 0 && loserTeamId > 0 ==>
        after.result == ResultColumns(Some(winnerTeamId), Some(loserTeamId), Some(ByScore)))
      && (unnamed && HasTeams(row) && Wins(games, 1) > Wins(games, 2) ==>
        after.result == ResultColumns(row.teams.team1Id, row.teams.team2Id, Some(ByScore)))
      && (unnamed && HasTeams(row) && Wins(games, 2) > Wins(games, 1) ==>
        after.result == ResultColumns(row.teams.team2Id, row.teams.team1Id, Some(ByScore)))
      && (unnamed && (!HasTeams(row) || Wins(games, 1) == Wins(games, 2)) ==> after.result == row.result)
      && (!unnamed && (winnerTeamId <= 0 || loserTeamId <= 0) ==> after.result == row.result)
  {
    LoadAfterStore(row, EndMatch);
  }

  /** After a disciplined match, confirming it without naming a winner is never a tie: it
      completes the row with the team that won GamesToWin games as winner and the other as loser. */
  lemma {:induction false} PlayedOutMatchGetsItsWinner(row: MatchRow, actions: seq<Action>)
    requires IsPlayedOut(row, actions) && HasTeams(row)
    ensures var played := RunRow(row, actions);
      var completed := StoreState(played, Answer(played, EndMatch).state);
      var final := Confirmed(completed, 0, 0);
      var games, goal := LoadState(played).completedGames, LoadConfig(row).GamesToWin();
      && !Answer(played, EndMatch).IsError() && !IsTied(completed, 0, 0)
      && final.status == Completed && final.result.winReason == Some(ByScore)
      && (|| (Wins(games, 1) == goal > Wins(games, 2)
              && final.result.winnerTeamId == row.teams.team1Id && final.result.loserTeamId == row.teams.team2Id)
          || (Wins(games, 2) == goal > Wins(games, 1)
              && final.result.winnerTeamId == row.teams.team2Id && final.result.loserTeamId == row.teams.team1Id))
  {
    var cfg, state := LoadConfig(row), LoadState(row);
    var played := RunRow(row, actions);
    RunRefines(row, state, actions);
    DisciplinedRunIsSound(cfg, state, ResolveRun(cfg, state, actions));
    ConfirmedResult(played, 0, 0);
    TiesAreRefused(played, 0, 0);
  }

  /** A confirmation refused as tied is not undone: the row has already been completed, without a
      winner. A confirmed row without a winner is left exactly when no two positive teams were
      given or could be inferred -- because the games are tied, a team is missing, or only one
      was named. */
  lemma {:induction false} ConfirmationCanLoseItsWinner(row: MatchRow, winnerTeamId: int, loserTeamId: int)
    requires !Answer(row, EndMatch).IsError() && row.result.winnerTeamId.None?
    ensures var after := Confirmed(StoreState(row, Answer(row, EndMatch).state), winnerTeamId, loserTeamId);
      var games := LoadState(row).completedGames;
      && after.status == Completed
      && (after.result.winnerTeamId.None? <==>
        if winnerTeamId == 0 && loserTeamId == 0 then !HasTeams(row) || Wins(games, 1) == Wins(games, 2)
        else winnerTeamId <= 0 || loserTeamId <= 0)
  {
    ConfirmedResult(row, winnerTeamId, loserTeamId);
  }

  /** Storing a loaded row changes nothing but a serve that was not stored yet: it becomes the first
      server of team 1. */
  lemma {:induction false} StoreAfterLoad(row: MatchRow)
    ensures var (serving, server) := (row.scoring.servingTeam, row.scoring.serverNumber);
      StoreState(row, LoadState(row)) == row.(scoring := row.scoring.(
        servingTeam := if serving == None then Some(1) else serving,
        serverNumber := if server == None then Some(1) else server))
  {
  }

  /** A forfeit declared with both teams does not stay forfeited: setting the result completes
      the row. It ends as forfeited exactly when a team is missing, and then without a new result;
      otherwise the teams win and lose as named, whichever team forfeited. */
  lemma {:induction false} ForfeitStatus(row: MatchRow, team: int, winnerTeamId: int, loserTeamId: int)
    requires !Answer(row, ForfeitMatch(team)).IsError()
    ensures var forfeited := StoreState(row, Answer(row, ForfeitMatch(team)).state);
      var after := WithTeamsDecided(forfeited, winnerTeamId, loserTeamId, ByForfeit);
      && (after.status == Forfeited <==> winnerTeamId <= 0 || loserTeamId <= 0)
      && (after.status == Completed <==> winnerTeamId > 0 && loserTeamId > 0)
      && after.(status := Forfeited, result := row.result) == forfeited
      && after.result == if after.status == Forfeited then row.result
        else ResultColumns(Some(winnerTeamId), Some(loserTeamId), Some(ByForfeit))
  {
  }
}
