/** Runs of RecordEvent and Undo on one match in progress. Each call holds the row lock, so any
    number of clients make one sequence of steps. */
module EventLog {
  import opened Wrappers
  import opened MatchTable
  import opened MatchService
  import opened Scoring
  import EngineLaws

  /** What the calls work on: the scoring columns and the log of the match. */
  datatype Live = Live(scoring: ScoringColumns, log: seq<MatchEvent>)

  datatype Step = Record(eventType: EventType) | TakeBack

  /** One call, as MatchService.RecordEvent and Undo do it; an undo on an empty log is refused. */
  function Do(live: Live, rally: bool, step: Step): (after: Live)
    ensures |live.log| <= |after.log| <= |live.log| + 1
  {
    LatestHasLargestId(live.log);
    match step
    case Record(eventType) =>
      Live(Recorded(live.scoring, rally, eventType),
           live.log + [MatchEvent(NextSequenceId(live.log), eventType, live.scoring, NoPayload)])
    case TakeBack =>
      if live.log == [] then live
      else
        var latest := LatestEvent(live.log).value;
        Live(latest.snapshot,
             live.log + [MatchEvent(NextSequenceId(live.log), UndoEvent, live.scoring,
               Undone(latest.sequenceId, latest.eventType))])
  }

  function DoAll(live: Live, rally: bool, steps: seq<Step>): Live {
    if steps == [] then live
    else Do(DoAll(live, rally, steps[..|steps| - 1]), rally, steps[|steps| - 1])
  }

  /** A client of the service sees exactly these steps. */
  method CallService(service: Service, matchId: int, step: Step)
    requires matchId in service.matches && service.matches[matchId].status == InProgress
    modifies service
    ensures matchId in service.matches && service.matches[matchId].status == InProgress
    ensures Live(service.matches[matchId].scoring, service.LogOf(matchId))
      == Do(old(Live(service.matches[matchId].scoring, service.LogOf(matchId))),
        old(service.matches[matchId].rules.rallyScoring), step)
    ensures service.matches
      == old(service.matches)[matchId := old(service.matches[matchId]).(scoring := service.matches[matchId].scoring)]
  {
    match step {
      case Record(eventType) => var _ := service.RecordEvent(matchId, eventType);
      case TakeBack => var _ := service.Undo(matchId);
    }
    assert matchId in service.matches;
  }

  lemma {:induction false} StepAppends(live: Live, rally: bool, step: Step)
    ensures var after := Do(live, rally, step);
      || after == live
      || (after.log[..|live.log|] == live.log && |after.log| == |live.log| + 1
          && after.log[|live.log|].snapshot == live.scoring)
  {
  }

  /** Whatever the log held before, every snapshot written by a run is the scoring state just
      before its event: after the first k steps the log ended there, and the state was the
      snapshot. */
  lemma {:induction false} SnapshotsAreStatesBefore(live: Live, rally: bool, steps: seq<Step>, i: nat) returns (k: nat)
    requires |live.log| <= i < |DoAll(live, rally, steps).log|
    ensures k < |steps|
    ensures |DoAll(live, rally, steps[..k]).log| == i
    ensures DoAll(live, rally, steps).log[i].snapshot == DoAll(live, rally, steps[..k]).scoring
    decreases |steps|
  {
    var last := |steps| - 1;
    var mid := DoAll(live, rally, steps[..last]);
    StepAppends(mid, rally, steps[last]);
    if i < |mid.log| {
      k := SnapshotsAreStatesBefore(live, rally, steps[..last], i);
      assert steps[..last][..k] == steps[..k];
      assert DoAll(live, rally, steps).log[i] == mid.log[i];
    } else {
      k := last;
    }
  }

  /** An undo right after a recorded event restores every scoring column. */
  lemma {:induction false} UndoRestores(live: Live, rally: bool, eventType: EventType)
    ensures Do(Do(live, rally, Record(eventType)), rally, TakeBack).scoring == live.scoring
  {
    AppendedIsLatest(live.log, MatchEvent(NextSequenceId(live.log), eventType, live.scoring, NoPayload));
  }

  /** The columns the next undo would restore. */
  function LatestSnapshot(live: Live): ScoringColumns
    requires live.log != []
  {
    LatestHasLargestId(live.log);
    LatestEvent(live.log).value.snapshot
  }

  /** The columns of the match, and those the next undo would restore. */
  predicate Holds(live: Live, scoring: ScoringColumns, snapshot: ScoringColumns) {
    live.log != [] && live.scoring == scoring && LatestSnapshot(live) == snapshot
  }

  /** An undo swaps the scoring state with the latest snapshot. */
  lemma {:induction false} UndoSwaps(live: Live, rally: bool, scoring: ScoringColumns, snapshot: ScoringColumns)
    requires Holds(live, scoring, snapshot)
    ensures Holds(Do(live, rally, TakeBack), snapshot, scoring)
  {
    LatestHasLargestId(live.log);
    var latest := LatestEvent(live.log).value;
    AppendedIsLatest(live.log,
      MatchEvent(NextSequenceId(live.log), UndoEvent, live.scoring, Undone(latest.sequenceId, latest.eventType)));
  }

  function UndoTimes(live: Live, rally: bool, n: nat): Live
    decreases n
  {
    if n == 0 then live else UndoTimes(Do(live, rally, TakeBack), rally, n - 1)
  }

  /** Undos in a row only toggle: an even number of them changes nothing (a second undo is a
      redo), an odd number restores the latest snapshot. No chain of undos reaches further back. */
  lemma {:induction false} UndosToggle(live: Live, rally: bool, n: nat, scoring: ScoringColumns,
        snapshot: ScoringColumns)
    requires Holds(live, scoring, snapshot)
    ensures n % 2 == 0 ==> Holds(UndoTimes(live, rally, n), scoring, snapshot)
    ensures n % 2 == 1 ==> Holds(UndoTimes(live, rally, n), snapshot, scoring)
    decreases n
  {
    if n > 0 {
      UndoSwaps(live, rally, scoring, snapshot);
      UndosToggle(Do(live, rally, TakeBack), rally, n - 1, snapshot, scoring);
    }
  }

  /** The events of a log are numbered 1, 2, 3, ... */
  ghost predicate IsConsecutive(log: seq<MatchEvent>) {
    forall i :: 0 <= i < |log| ==> log[i].sequenceId == i + 1
  }

  lemma {:induction false} LargestIsLength(log: seq<MatchEvent>)
    requires IsConsecutive(log)
    ensures LargestSequenceId(log) == |log|
    decreases |log|
  {
    if log != [] {
      LargestIsLength(log[..|log| - 1]);
    }
  }

  lemma {:induction false} AppendKeepsConsecutive(log: seq<MatchEvent>, event: MatchEvent)
    requires IsConsecutive(log) && event.sequenceId == NextSequenceId(log)
    ensures IsConsecutive(log + [event])
  {
    LargestIsLength(log);
  }

  lemma {:induction false} StepKeepsConsecutive(live: Live, rally: bool, step: Step)
    requires IsConsecutive(live.log)
    ensures IsConsecutive(Do(live, rally, step).log)
  {
    var after := Do(live, rally, step).log;
    if after != live.log {
      AppendKeepsConsecutive(live.log, after[|live.log|]);
    }
  }

  /** Sequence ids have no gaps, whether events are recorded, undone or logged by the engine. */
  lemma {:induction false} LogsStayConsecutive(live: Live, rally: bool, steps: seq<Step>, eventType: EventType,
        stored: MatchRow)
    requires IsConsecutive(live.log)
    ensures IsConsecutive(DoAll(live, rally, steps).log)
    ensures IsConsecutive(EngineLogged(DoAll(live, rally, steps).log, eventType, stored))
    decreases |steps|
  {
    if steps != [] {
      var front := steps[..|steps| - 1];
      LogsStayConsecutive(live, rally, front, eventType, stored);
      StepKeepsConsecutive(DoAll(live, rally, front), rally, steps[|steps| - 1]);
    }
    var log := DoAll(live, rally, steps).log;
    AppendKeepsConsecutive(log, MatchEvent(NextSequenceId(log), eventType, stored.scoring, NoPayload));
  }

  /** How often a step occurs. */
  function Count(steps: seq<Step>, step: Step): nat {
    if steps == [] then 0
    else Count(steps[..|steps| - 1], step) + if steps[|steps| - 1] == step then 1 else 0
  }

  /** Without undos, each score is its start value plus the number of its point events. */
  lemma {:induction false} ScoresCountPoints(live: Live, rally: bool, steps: seq<Step>)
    requires TakeBack !in steps
    ensures var after := DoAll(live, rally, steps).scoring;
      && after.team1Score == live.scoring.team1Score + Count(steps, Record(PointTeam(1)))
      && after.team2Score == live.scoring.team2Score + Count(steps, Record(PointTeam(2)))
      && after.currentGame == live.scoring.currentGame && after.setScores == live.scoring.setScores
      && after.currentSet == live.scoring.currentSet
    ensures |DoAll(live, rally, steps).log| == |live.log| + |steps|
    decreases |steps|
  {
    if steps != [] {
      var before := steps[..|steps| - 1];
      assert TakeBack !in before by {
        assert forall s :: s in before ==> s in steps;
      }
      ScoresCountPoints(live, rally, before);
      assert steps[|steps| - 1] in steps;
    }
  }

  /** What a recorded event does to the serve: a rally point gives it to the scoring team, a side_out
      to the other team and the other server; a missing server number stays missing. Any other event,
      and a point for neither team, changes no column at all. */
  lemma {:induction false} RecordedServe(before: ScoringColumns, rally: bool, eventType: EventType)
    ensures var after := Recorded(before, rally, eventType);
      var isPoint := eventType == PointTeam(1) || eventType == PointTeam(2);
      && (isPoint ==>
        after.serverNumber == before.serverNumber
        && after.servingTeam == if rally then Some(eventType.team) else before.servingTeam)
      && (eventType.SideOutEvent? ==>
        && after == before.(servingTeam := after.servingTeam, serverNumber := after.serverNumber)
        && after.servingTeam in {Some(1), Some(2)} && (after.servingTeam == Some(2) <==> before.servingTeam == Some(1))
        && after.serverNumber in {None, Some(1), Some(2)}
        && (after.serverNumber == Some(2) <==> before.serverNumber == Some(1))
        && (after.serverNumber == None <==> before.serverNumber == None))
      && (!isPoint && !eventType.SideOutEvent? ==> after == before)
  {
  }

  /** The serve after an event log without undos, in side-out scoring: points do not move it, and after
      k side_outs both the team and the server number have changed k times, so that the second server
      of a team never follows its first. */
  lemma {:induction false} ServeFollowsSideOuts(live: Live, steps: seq<Step>)
    requires TakeBack !in steps
    requires live.scoring.servingTeam in {Some(1), Some(2)} && live.scoring.serverNumber in {Some(1), Some(2)}
    ensures var (before, after) := (live.scoring, DoAll(live, false, steps).scoring);
      var isEven := Count(steps, Record(SideOutEvent)) % 2 == 0;
      && after.servingTeam in {Some(1), Some(2)} && after.serverNumber in {Some(1), Some(2)}
      && (after.servingTeam == before.servingTeam <==> isEven)
      && (after.serverNumber == before.serverNumber <==> isEven)
    decreases |steps|
  {
    if steps != [] {
      var front := steps[..|steps| - 1];
      assert TakeBack !in front by {
        assert forall s :: s in front ==> s in steps;
      }
      ServeFollowsSideOuts(live, front);
      assert steps[|steps| - 1] in steps;
      RecordedServe(DoAll(live, false, front).scoring, false, steps[|steps| - 1].eventType);
    }
  }

  /** A sequence that interleaves the calls of two clients. */
  ghost predicate Interleaves(merged: seq<Step>, a: seq<Step>, b: seq<Step>)
    decreases |merged|
  {
    if merged == [] then a == [] && b == []
    else
      var before, last := merged[..|merged| - 1], merged[|merged| - 1];
      || (a != [] && a[|a| - 1] == last && Interleaves(before, a[..|a| - 1], b))
      || (b != [] && b[|b| - 1] == last && Interleaves(before, a, b[..|b| - 1]))
  }

  lemma {:induction false} InterleavingCounts(merged: seq<Step>, a: seq<Step>, b: seq<Step>, step: Step)
    requires Interleaves(merged, a, b)
    ensures Count(merged, step) == Count(a, step) + Count(b, step)
    ensures step in merged <==> step in a || step in b
    decreases |merged|
  {
    if merged != [] {
      var before, last := merged[..|merged| - 1], merged[|merged| - 1];
      assert merged == before + [last];
      if a != [] && a[|a| - 1] == last && Interleaves(before, a[..|a| - 1], b) {
        assert a == a[..|a| - 1] + [last];
        InterleavingCounts(before, a[..|a| - 1], b, step);
      } else {
        assert b == b[..|b| - 1] + [last];
        InterleavingCounts(before, a, b[..|b| - 1], step);
      }
    }
  }

  /** No interleaving of two clients loses or doubles a point. */
  lemma {:induction false} NoPointIsLost(live: Live, rally: bool, a: seq<Step>, b: seq<Step>, merged: seq<Step>)
    requires Interleaves(merged, a, b) && TakeBack !in a && TakeBack !in b
    ensures var after := DoAll(live, rally, merged).scoring;
      && after.team1Score == live.scoring.team1Score + Count(a, Record(PointTeam(1))) + Count(b, Record(PointTeam(1)))
      && after.team2Score == live.scoring.team2Score + Count(a, Record(PointTeam(2))) + Count(b, Record(PointTeam(2)))
  {
    InterleavingCounts(merged, a, b, TakeBack);
    InterleavingCounts(merged, a, b, Record(PointTeam(1)));
    InterleavingCounts(merged, a, b, Record(PointTeam(2)));
    ScoresCountPoints(live, rally, merged);
  }

  /** Actions that touch no score, serve or game. */
  predicate IsProcedural(action: Action) {
    action.EndMatch? || action.CallTimeout? || action.PauseMatch? || action.ResumeMatch? || action.ForfeitMatch?
  }

  /** Which engine actions leave every scoring column as it was: the procedural ones, once the serve
      is stored. */
  lemma {:induction false} UnchangedScoring(row: MatchRow, action: Action)
    requires !Answer(row, action).IsError()
    ensures StoreState(row, Answer(row, action).state).scoring == row.scoring <==>
      IsProcedural(action) && row.scoring.servingTeam.Some? && row.scoring.serverNumber.Some?
  {
    if action.ScorePoint? {
      EngineLaws.PointKeepsGameAndStatus(LoadConfig(row), LoadState(row), action.team);
    }
  }

  /** Engine actions log the state after the action, so an undo right after one changes nothing, though
      it is logged as the undo of that very action. The columns from before the action are back exactly
      after a procedural one with the serve stored; and of those only a timeout or a resumption leaves
      the match in progress, so that the undo is not refused. */
  lemma {:induction false} UndoAfterEngineAction(row: MatchRow, log: seq<MatchEvent>, action: Action)
    requires !Answer(row, action).IsError()
    ensures var stored := StoreState(row, Answer(row, action).state);
      var live := Live(stored.scoring, EngineLogged(log, TypeOfAction(action), stored));
      var undone := Do(live, row.rules.rallyScoring, TakeBack);
      var serveIsStored := row.scoring.servingTeam.Some? && row.scoring.serverNumber.Some?;
      && undone.scoring == stored.scoring
      && |undone.log| == |log| + 2 && undone.log[..|log|] == log && undone.log[|log|].eventType == TypeOfAction(action)
      && undone.log[|log| + 1].payload == Undone(undone.log[|log|].sequenceId, TypeOfAction(action))
      && (undone.scoring == row.scoring <==> IsProcedural(action) && serveIsStored)
      && (stored.status == InProgress && undone.scoring == row.scoring <==>
        (action.CallTimeout? || action.ResumeMatch?) && serveIsStored)
  {
    var stored := StoreState(row, Answer(row, action).state);
    AppendedIsLatest(log, MatchEvent(NextSequenceId(log), TypeOfAction(action), stored.scoring, NoPayload));
    UnchangedScoring(row, action);
  }
}
