/** The match service: engine steps on the stored row, and the event log with its snapshots. */
module MatchService {
  import opened Wrappers
  import opened Scoring
  import opened MatchTable

  datatype EventType =
    | PointTeam(team: int)
    | SideOutEvent
    | UndoEvent
    | EngineEvent(action: Action)
    | OtherEvent(name: string)

  /** The undo payload names the event undone. */
  datatype Payload = NoPayload | Undone(sequenceId: int, eventType: EventType)

  datatype MatchEvent = MatchEvent(sequenceId: int, eventType: EventType, snapshot: ScoringColumns, payload: Payload)

  datatype ServiceError =
    | NotFound
    | Refusal(reason: EngineError)
    | NotInProgress(status: MatchStatus)
    | NothingToUndo
    | TiedGames

  /** matchToEngineState */
  function LoadState(row: MatchRow): MatchState {
    var s := row.scoring;
    MatchState(
      s.team1Score,
      s.team2Score,
      match s.servingTeam { case Some(team) => team case None => 1 },
      match s.serverNumber { case Some(server) => server case None => 1 },
      s.currentGame,
      match s.setScores { case Games(games) => games case Unreadable => [] },
      row.status,
      row.status == Paused)
  }

  /** matchToScoringConfig */
  function LoadConfig(row: MatchRow): (cfg: ScoringConfig)
    ensures cfg.Valid()
    ensures cfg.scoringType == RallyScoring <==> row.rules.rallyScoring
    ensures IsKeptOrDefault(cfg.pointsToWin, row.rules.pointsToWin, 11)
      && IsKeptOrDefault(cfg.winBy, row.rules.winBy, 2)
    ensures IsKeptOrDefault(cfg.gamesPerSet, row.rules.gamesPerSet, 1)
      && IsKeptOrDefault(cfg.setsToWin, row.rules.setsToWin, 1)
    ensures cfg.maxPoints > 0 ==> row.rules.maxPoints == Some(cfg.maxPoints)
    ensures row.rules.maxPoints.Some? ==> cfg.maxPoints == row.rules.maxPoints.value
    ensures if row.rules.freezeAt.Some? then cfg.freezeAt == row.rules.freezeAt.value else cfg.freezeAt == 0
  {
    var rules := row.rules;
    ParseScoringConfig(
      if rules.rallyScoring then "rally" else "side_out",
      rules.pointsToWin,
      rules.winBy,
      match rules.maxPoints { case Some(points) => points case None => 0 },
      rules.gamesPerSet,
      rules.setsToWin,
      match rules.freezeAt { case Some(points) => points case None => 0 }).value
  }

  function StoredScoring(before: ScoringColumns, state: MatchState): ScoringColumns {
    before.(
      team1Score := state.teamOneScore,
      team2Score := state.teamTwoScore,
      currentGame := state.currentGameNum,
      servingTeam := Some(state.servingTeam),
      serverNumber := Some(state.serverNumber),
      setScores := if |state.completedGames| > 0 then Games(state.completedGames) else before.setScores)
  }

  function StoredStatus(before: MatchStatus, status: MatchStatus): MatchStatus {
    if status == Paused || status == Completed || status == Forfeited || status == InProgress then status else before
  }

  /** The row applyEngineResult leaves. */
  function StoreState(row: MatchRow, state: MatchState): MatchRow {
    row.(scoring := StoredScoring(row.scoring, state), status := StoredStatus(row.status, state.status))
  }

  /** The service takes a point back with the serving state as it is. */
  function Resolve(state: MatchState, action: Action): Action {
    if action.TakePoint? then TakePoint(action.team, state.servingTeam, state.serverNumber) else action
  }

  /** The engine's answer to an action on a stored row. */
  function Answer(row: MatchRow, action: Action): EngineResult {
    Apply(LoadConfig(row), LoadState(row), Resolve(LoadState(row), action))
  }

  function TypeOfAction(action: Action): EventType {
    if action.ScorePoint? then PointTeam(action.team)
    else if action.CallSideOut? then SideOutEvent
    else EngineEvent(action)
  }

  /** GetNextSequenceID: one more than the largest sequence id so far. */
  function NextSequenceId(log: seq<MatchEvent>): int {
    LargestSequenceId(log) + 1
  }

  function LargestSequenceId(log: seq<MatchEvent>): int {
    if log == [] then 0
    else Max(LargestSequenceId(log[..|log| - 1]), log[|log| - 1].sequenceId)
  }

  /** GetLatestMatchEvent: the event with the highest sequence id. */
  function LatestEvent(log: seq<MatchEvent>): Option<MatchEvent> {
    if log == [] then None
    else
      var earlier, last := LatestEvent(log[..|log| - 1]), log[|log| - 1];
      if earlier.Some? && earlier.value.sequenceId > last.sequenceId then earlier else Some(last)
  }

  lemma {:induction false} LatestHasLargestId(log: seq<MatchEvent>)
    ensures log != [] ==> LatestEvent(log).Some? && LatestEvent(log).value in log
    ensures log != [] ==> forall i :: 0 <= i < |log| ==> log[i].sequenceId <= LatestEvent(log).value.sequenceId
    ensures log != [] ==> LatestEvent(log).value.sequenceId <= LargestSequenceId(log)
  {
    if log != [] {
      LatestHasLargestId(log[..|log| - 1]);
    }
  }

  /** An event numbered by NextSequenceId becomes the latest, whatever is in the log. */
  lemma {:induction false} AppendedIsLatest(log: seq<MatchEvent>, event: MatchEvent)
    requires event.sequenceId == NextSequenceId(log)
    ensures LatestEvent(log + [event]) == Some(event)
  {
    assert (log + [event])[..|log|] == log;
    LatestHasLargestId(log);
  }

  /** The scoring columns after an event that RecordEvent accepts. */
  function Recorded(before: ScoringColumns, rally: bool, eventType: EventType): ScoringColumns {
    match eventType
    case PointTeam(team) =>
      if team == 1 then
        before.(team1Score := before.team1Score + 1, servingTeam := if rally then Some(1) else before.servingTeam)
      else if team == 2 then
        before.(team2Score := before.team2Score + 1, servingTeam := if rally then Some(2) else before.servingTeam)
      else before
    case SideOutEvent =>
      before.(
        servingTeam := if before.servingTeam == Some(1) then Some(2) else Some(1),
        serverNumber := if before.serverNumber == None then None
          else if before.serverNumber == Some(1) then Some(2)
          else Some(1))
    case _ => before
  }

  /** The winner and loser ConfirmMatchOver settles on; 0 stands for none. */
  function InferResult(row: MatchRow, winnerTeamId: int, loserTeamId: int): (int, int) {
    var games := LoadState(row).completedGames;
    if winnerTeamId != 0 || loserTeamId != 0 || row.teams.team1Id.None? || row.teams.team2Id.None?
      then (winnerTeamId, loserTeamId)
    else if Wins(games, 1) > Wins(games, 2) then (row.teams.team1Id.value, row.teams.team2Id.value)
    else if Wins(games, 2) > Wins(games, 1) then (row.teams.team2Id.value, row.teams.team1Id.value)
    else (winnerTeamId, loserTeamId)
  }

  /** Is the confirmation refused because the games are tied? */
  predicate IsTied(row: MatchRow, winnerTeamId: int, loserTeamId: int) {
    var games := LoadState(row).completedGames;
    winnerTeamId == 0 && loserTeamId == 0 && Wins(games, 1) == Wins(games, 2)
  }

  /** The event applyEngineResult appends to a log: its snapshot is the state after the action. */
  function EngineLogged(log: seq<MatchEvent>, eventType: EventType, stored: MatchRow): seq<MatchEvent> {
    log + [MatchEvent(NextSequenceId(log), eventType, stored.scoring, NoPayload)]
  }

  /** The row after a result is set, if both teams are known. */
  function WithTeamsDecided(row: MatchRow, winnerTeamId: int, loserTeamId: int, reason: WinReason): MatchRow {
    if winnerTeamId > 0 && loserTeamId > 0 then WithResult(row, Some(winnerTeamId), Some(loserTeamId), reason) else row
  }

  /** The row a confirmation leaves of the completed one: with a result, unless the games are tied. */
  function Confirmed(completed: MatchRow, winnerTeamId: int, loserTeamId: int): MatchRow {
    var (winner, loser) := InferResult(completed, winnerTeamId, loserTeamId);
    if IsTied(completed, winnerTeamId, loserTeamId) then completed
    else WithTeamsDecided(completed, winner, loser, ByScore)
  }

  class Service {
    var matches: map<int, MatchRow>
    var events: map<int, seq<MatchEvent>>

    constructor (matches: map<int, MatchRow>)
      ensures this.matches == matches && events == map[]
    {
      this.matches := matches;
      events := map[];
    }

    function LogOf(matchId: int): seq<MatchEvent>
      reads this
    {
      if matchId in events then events[matchId] else []
    }

    /** Appends one event with the next sequence id. */
    method CreateMatchEvent(matchId: int, eventType: EventType, snapshot: ScoringColumns, payload: Payload)
      returns (event: MatchEvent)
      modifies this`events
      ensures event == MatchEvent(NextSequenceId(old(LogOf(matchId))), eventType, snapshot, payload)
      ensures events == old(events)[matchId := old(LogOf(matchId)) + [event]]
    {
      event := MatchEvent(NextSequenceId(LogOf(matchId)), eventType, snapshot, payload);
      events := events[matchId := LogOf(matchId) + [event]];
    }

    /** applyEngineResult: stores the engine's state and logs it -- with the state after the action. */
    method ApplyEngineResult(matchId: int, result: EngineResult, eventType: EventType)
      returns (r: Result<MatchRow, ServiceError>)
      modifies this
      ensures matchId !in old(matches) ==> r == Err(NotFound) && matches == old(matches) && events == old(events)
      ensures matchId in old(matches) ==>
        var row := StoreState(old(matches)[matchId], result.state);
        && r == Ok(row) && matches == old(matches)[matchId := row]
        && events == old(events)[matchId := EngineLogged(old(LogOf(matchId)), eventType, row)]
    {
      if matchId !in matches {
        return Err(NotFound);
      }
      var row := matches[matchId];
      var setScores := row.scoring.setScores;
      if |result.state.completedGames| > 0 {
        setScores := Games(result.state.completedGames);
      }
      var newStatus := row.status;
      if result.state.status == Paused {
        newStatus := Paused;
      } else if result.state.status == Completed {
        newStatus := Completed;
      } else if result.state.status == Forfeited {
        newStatus := Forfeited;
      } else if result.state.status == InProgress {
        newStatus := InProgress;
      }
      var columns := ScoringColumns(result.state.teamOneScore, result.state.teamTwoScore, row.scoring.currentSet,
        result.state.currentGameNum, Some(result.state.servingTeam), Some(result.state.serverNumber), setScores);
      matches := matches[matchId := row.(scoring := columns)];
      if newStatus != row.status {
        matches := matches[matchId := matches[matchId].(status := newStatus)];
      }
      var _ := CreateMatchEvent(matchId, eventType, columns, NoPayload);
      r := Ok(matches[matchId]);
    }

    /** ScorePoint, SideOut, RemovePoint, ConfirmGameOver, CallTimeout, PauseMatch and ResumeMatch:
        load the row, let the engine answer, store its state. */
    method Perform(matchId: int, action: Action) returns (r: Result<EngineResult, ServiceError>)
      modifies this
      ensures matchId !in old(matches) ==> r == Err(NotFound) && matches == old(matches) && events == old(events)
      ensures matchId in old(matches) ==>
        var row := old(matches)[matchId];
        var answer := Answer(row, action);
        if answer.IsError() then
          r == Err(Refusal(answer.error.value)) && matches == old(matches) && events == old(events)
        else
          var stored := StoreState(row, answer.state);
          && r == Ok(answer) && matches == old(matches)[matchId := stored]
          && events == old(events)[matchId := EngineLogged(old(LogOf(matchId)), TypeOfAction(action), stored)]
    {
      if matchId !in matches {
        return Err(NotFound);
      }
      var row := matches[matchId];
      var cfg, state := LoadConfig(row), LoadState(row);
      var answer := Apply(cfg, state, Resolve(state, action));
      if answer.IsError() {
        return Err(Refusal(answer.error.value));
      }
      var _ := ApplyEngineResult(matchId, answer, TypeOfAction(action));
      r := Ok(answer);
    }

    /** ConfirmMatchOver: the engine step is committed first, then the winner is settled. */
    method ConfirmMatchOver(matchId: int, winnerTeamId: int, loserTeamId: int)
      returns (r: Result<MatchRow, ServiceError>)
      modifies this
      ensures matchId !in old(matches) ==> r == Err(NotFound) && matches == old(matches) && events == old(events)
      ensures matchId in old(matches) ==>
        var row := old(matches)[matchId];
        var answer := Answer(row, EndMatch);
        var completed := StoreState(row, answer.state);
        var confirmed := Confirmed(completed, winnerTeamId, loserTeamId);
        if answer.IsError() then
          r == Err(Refusal(answer.error.value)) && matches == old(matches)
        else
          && r == (if IsTied(completed, winnerTeamId, loserTeamId) then Err(TiedGames) else Ok(confirmed))
          && matches == old(matches)[matchId := confirmed]
      ensures matchId in old(matches) ==>
        var row := old(matches)[matchId];
        var answer := Answer(row, EndMatch);
        events == if answer.IsError() then old(events)
          else old(events)[matchId :=
            EngineLogged(old(LogOf(matchId)), EngineEvent(EndMatch), StoreState(row, answer.state))]
    {
      var performed := Perform(matchId, EndMatch);
      if performed.Err? {
        return Err(performed.error);
      }
      var row := matches[matchId];
      var winner, loser := winnerTeamId, loserTeamId;
      var team1Wins, team2Wins := 0, 0;
      if winner == 0 && loser == 0 {
        match row.scoring.setScores {
          case Games(games) => team1Wins, team2Wins := CountWins(games);
          case Unreadable =>
        }
        if team1Wins > team2Wins && row.teams.team1Id.Some? && row.teams.team2Id.Some? {
          winner, loser := row.teams.team1Id.value, row.teams.team2Id.value;
        } else if team2Wins > team1Wins && row.teams.team1Id.Some? && row.teams.team2Id.Some? {
          winner, loser := row.teams.team2Id.value, row.teams.team1Id.value;
        }
      }
      if winner == 0 && loser == 0 && team1Wins == team2Wins {
        return Err(TiedGames);
      }
      if winner > 0 && loser > 0 {
        row := WithResult(row, Some(winner), Some(loser), ByScore);
        matches := matches[matchId := row];
      }
      r := Ok(row);
    }

    /** DeclareForfeit: forfeits through the engine, then sets the result if both teams are given. */
    method DeclareForfeit(matchId: int, forfeitingTeam: int, winnerTeamId: int, loserTeamId: int)
      returns (r: Result<MatchRow, ServiceError>)
      modifies this
      ensures matchId !in old(matches) ==> r == Err(NotFound) && matches == old(matches) && events == old(events)
      ensures matchId in old(matches) ==>
        var row := old(matches)[matchId];
        var answer := Answer(row, ForfeitMatch(forfeitingTeam));
        var decided := WithTeamsDecided(StoreState(row, answer.state), winnerTeamId, loserTeamId, ByForfeit);
        if answer.IsError() then
          r == Err(Refusal(answer.error.value)) && matches == old(matches)
        else
          r == Ok(decided) && matches == old(matches)[matchId := decided]
      ensures matchId in old(matches) ==>
        var row := old(matches)[matchId];
        var answer := Answer(row, ForfeitMatch(forfeitingTeam));
        events == if answer.IsError() then old(events)
          else old(events)[matchId :=
            EngineLogged(old(LogOf(matchId)), EngineEvent(ForfeitMatch(forfeitingTeam)), StoreState(row, answer.state))]
    {
      var performed := Perform(matchId, ForfeitMatch(forfeitingTeam));
      if performed.Err? {
        return Err(performed.error);
      }
      var row := matches[matchId];
      if winnerTeamId > 0 && loserTeamId > 0 {
        row := WithResult(row, Some(winnerTeamId), Some(loserTeamId), ByForfeit);
        matches := matches[matchId := row];
      }
      r := Ok(row);
    }

    /** RecordEvent, under the row lock: logs the state before the event, then applies it. */
    method RecordEvent(matchId: int, eventType: EventType) returns (r: Result<MatchEvent, ServiceError>)
      modifies this
      ensures r.Err? ==> matches == old(matches) && events == old(events)
      ensures r.Ok? <==> matchId in old(matches) && old(matches)[matchId].status == InProgress
      ensures r.Ok? ==>
        var row, log := old(matches)[matchId], old(LogOf(matchId));
        && r.value == MatchEvent(NextSequenceId(log), eventType, row.scoring, NoPayload)
        && events == old(events)[matchId := log + [r.value]]
        && matches == old(matches)[matchId := row.(scoring := Recorded(row.scoring, row.rules.rallyScoring, eventType))]
    {
      if matchId !in matches {
        return Err(NotFound);
      }
      var row := matches[matchId];
      if row.status != InProgress {
        return Err(NotInProgress(row.status));
      }
      var event := CreateMatchEvent(matchId, eventType, row.scoring, NoPayload);
      var newT1, newT2 := row.scoring.team1Score, row.scoring.team2Score;
      var newServingTeam, newServerNumber := row.scoring.servingTeam, row.scoring.serverNumber;
      match eventType {
        case PointTeam(team) =>
          if team == 1 {
            newT1 := newT1 + 1;
          } else if team == 2 {
            newT2 := newT2 + 1;
          }
          if row.rules.rallyScoring && (team == 1 || team == 2) {
            newServingTeam := Some(team);
          }
        case SideOutEvent =>
          if newServingTeam.Some? && newServingTeam.value == 1 {
            newServingTeam := Some(2);
          } else {
            newServingTeam := Some(1);
          }
          if newServerNumber.Some? && newServerNumber.value == 1 {
            newServerNumber := Some(2);
          } else if newServerNumber.Some? {
            newServerNumber := Some(1);
          }
        case _ =>
      }
      var columns := ScoringColumns(newT1, newT2, row.scoring.currentSet, row.scoring.currentGame,
        newServingTeam, newServerNumber, row.scoring.setScores);
      matches := matches[matchId := row.(scoring := columns)];
      r := Ok(event);
    }

    /** Undo, under the row lock: logs the current state and restores the latest event's snapshot. */
    method Undo(matchId: int) returns (r: Result<MatchEvent, ServiceError>)
      modifies this
      ensures r.Err? ==> matches == old(matches) && events == old(events)
      ensures r.Ok? <==>
        matchId in old(matches) && old(matches)[matchId].status == InProgress && old(LogOf(matchId)) != []
      ensures r.Ok? ==>
        var row, log := old(matches)[matchId], old(LogOf(matchId));
        && LatestEvent(log).Some?
        && var latest := LatestEvent(log).value;
        && r.value == MatchEvent(NextSequenceId(log), UndoEvent, row.scoring,
          Undone(latest.sequenceId, latest.eventType))
        && events == old(events)[matchId := log + [r.value]]
        && matches == old(matches)[matchId := row.(scoring := latest.snapshot)]
    {
      if matchId !in matches {
        return Err(NotFound);
      }
      var row := matches[matchId];
      if row.status != InProgress {
        return Err(NotInProgress(row.status));
      }
      var latest := LatestEvent(LogOf(matchId));
      LatestHasLargestId(LogOf(matchId));
      if latest.None? {
        return Err(NothingToUndo);
      }
      var event := CreateMatchEvent(matchId, UndoEvent, row.scoring,
        Undone(latest.value.sequenceId, latest.value.eventType));
      matches := matches[matchId := row.(scoring := latest.value.snapshot)];
      r := Ok(event);
    }
  }
}
