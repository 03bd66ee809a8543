/** Best-of-N match series: each service call is one transaction on a locked series row. */
module Series {
  import opened Wrappers
  import Scoring

  datatype SeriesStatus = Pending | InProgress | Completed | Forfeited | Cancelled

  datatype ChildMatch = ChildMatch(matchNumber: int, status: Scoring.MatchStatus)

  datatype SeriesRow = SeriesRow(
    team1Id: Option<int>,
    team2Id: Option<int>,
    gamesToWin: int,
    team1Wins: int,
    team2Wins: int,
    status: SeriesStatus,
    winnerTeamId: Option<int>,
    loserTeamId: Option<int>,
    children: seq<ChildMatch>)

  datatype SeriesError = SeriesNotFound | InvalidStatus(status: SeriesStatus) | NotASeriesTeam

  /** A series as Create leaves it; games_to_win is at least 1. */
  predicate IsNew(row: SeriesRow) {
    && row.status == Pending && row.team1Wins == 0 && row.team2Wins == 0 && row.gamesToWin >= 1
    && row.winnerTeamId == None && row.loserTeamId == None && row.children == []
  }

  /** One child match per match type, or the most games a series can take. */
  function ChildCount(row: SeriesRow, matchTypes: nat): int {
    if matchTypes > 0 then matchTypes else row.gamesToWin * 2 - 1
  }

  function NewChildren(count: int): seq<ChildMatch> {
    if count <= 0 then [] else NewChildren(count - 1) + [ChildMatch(count, Scoring.Scheduled)]
  }

  /** CancelScheduledChildMatches */
  function CancelScheduled(children: seq<ChildMatch>): seq<ChildMatch> {
    seq(|children|, i requires 0 <= i < |children| =>
      if children[i].status == Scoring.Scheduled || children[i].status == Scoring.Warmup
        then children[i].(status := Scoring.Cancelled)
        else children[i])
  }

  function Started(row: SeriesRow, matchTypes: nat): Result<SeriesRow, SeriesError> {
    if row.status != Pending then Err(InvalidStatus(row.status))
    else Ok(row.(status := InProgress, children := row.children + NewChildren(ChildCount(row, matchTypes))))
  }

  function Recorded(row: SeriesRow, winnerTeamId: int): Result<SeriesRow, SeriesError> {
    if row.status != InProgress then Err(InvalidStatus(row.status))
    else if row.team1Id != Some(winnerTeamId) && row.team2Id != Some(winnerTeamId) then Err(NotASeriesTeam)
    else
      var scored := if row.team1Id == Some(winnerTeamId)
        then row.(team1Wins := row.team1Wins + 1)
        else row.(team2Wins := row.team2Wins + 1);
      if scored.team1Wins >= row.gamesToWin then
        Ok(Ended(scored, Completed, row.team1Id, row.team2Id))
      else if scored.team2Wins >= row.gamesToWin then
        Ok(Ended(scored, Completed, row.team2Id, row.team1Id))
      else
        Ok(scored)
  }

  function Ended(row: SeriesRow, status: SeriesStatus, winner: Option<int>, loser: Option<int>): SeriesRow {
    row.(status := status, winnerTeamId := winner, loserTeamId := loser, children := CancelScheduled(row.children))
  }

  function ForfeitedBy(row: SeriesRow, teamId: int): Result<SeriesRow, SeriesError> {
    if row.status != Pending && row.status != InProgress then Err(InvalidStatus(row.status))
    else if row.team1Id == Some(teamId) then Ok(Ended(row, Forfeited, row.team2Id, row.team1Id))
    else if row.team2Id == Some(teamId) then Ok(Ended(row, Forfeited, row.team1Id, row.team2Id))
    else Err(NotASeriesTeam)
  }

  function CancelledSeries(row: SeriesRow): Result<SeriesRow, SeriesError> {
    if row.status != Pending && row.status != InProgress then Err(InvalidStatus(row.status))
    else Ok(row.(status := Cancelled, children := CancelScheduled(row.children)))
  }

  /** The service calls on one series. */
  datatype Call = Start(matchTypes: nat) | RecordResult(winnerTeamId: int) | Forfeit(teamId: int) | Cancel

  function Answer(row: SeriesRow, call: Call): Result<SeriesRow, SeriesError> {
    match call
    case Start(matchTypes) => Started(row, matchTypes)
    case RecordResult(winner) => Recorded(row, winner)
    case Forfeit(team) => ForfeitedBy(row, team)
    case Cancel => CancelledSeries(row)
  }

  /** A refused call leaves the row as it is. */
  function Step(row: SeriesRow, call: Call): SeriesRow {
    match Answer(row, call)
    case Ok(after) => after
    case Err(_) => row
  }

  function Run(row: SeriesRow, calls: seq<Call>): SeriesRow
    decreases |calls|
  {
    if calls == [] then row else Run(Step(row, calls[0]), calls[1..])
  }

  /** What every call ensures: it answers as the row's state demands, stores the new row on
      success, and changes nothing on error. */
  predicate IsAnswered(before: map<int, SeriesRow>, after: map<int, SeriesRow>, seriesId: int, call: Call,
                       r: Result<SeriesRow, SeriesError>)
  {
    if seriesId !in before then r == Err(SeriesNotFound) && after == before
    else r == Answer(before[seriesId], call) && after == before[seriesId := Step(before[seriesId], call)]
  }

  class SeriesService {
    var series: map<int, SeriesRow>

    constructor (series: map<int, SeriesRow>)
      ensures this.series == series
    {
      this.series := series;
    }

    /** StartSeries: creates the child matches one by one, then starts the series. */
    method StartSeries(seriesId: int, matchTypes: nat) returns (r: Result<SeriesRow, SeriesError>)
      modifies this
      ensures IsAnswered(old(series), series, seriesId, Start(matchTypes), r)
    {
      if seriesId !in series {
        return Err(SeriesNotFound);
      }
      var row := series[seriesId];
      if row.status != Pending {
        return Err(InvalidStatus(row.status));
      }
      var matchCount := if matchTypes > 0 then matchTypes else row.gamesToWin * 2 - 1;
      var created: seq<ChildMatch> := [];
      var i := 0;
      while i < matchCount
        invariant 0 <= i && (if matchCount < 0 then i == 0 else i <= matchCount)
        invariant created == NewChildren(i)
      {
        var matchNum := i + 1;
        created := created + [ChildMatch(matchNum, Scoring.Scheduled)];
        i := i + 1;
      }
      row := row.(status := InProgress, children := row.children + created);
      series := series[seriesId := row];
      r := Ok(row);
    }

    /** RecordMatchResult; the child match the result belongs to is not looked at. */
    method RecordMatchResult(seriesId: int, matchId: int, winnerTeamId: int) returns (r: Result<SeriesRow, SeriesError>)
      modifies this
      ensures IsAnswered(old(series), series, seriesId, RecordResult(winnerTeamId), r)
    {
      if seriesId !in series {
        return Err(SeriesNotFound);
      }
      var row := series[seriesId];
      if row.status != InProgress {
        return Err(InvalidStatus(row.status));
      }
      var team1Wins, team2Wins := row.team1Wins, row.team2Wins;
      if row.team1Id.Some? && winnerTeamId == row.team1Id.value {
        team1Wins := team1Wins + 1;
      } else if row.team2Id.Some? && winnerTeamId == row.team2Id.value {
        team2Wins := team2Wins + 1;
      } else {
        return Err(NotASeriesTeam);
      }
      var updated := row.(team1Wins := team1Wins, team2Wins := team2Wins);
      var seriesComplete := false;
      if team1Wins >= row.gamesToWin {
        updated := updated.(status := Completed, winnerTeamId := row.team1Id, loserTeamId := row.team2Id);
        seriesComplete := true;
      } else if team2Wins >= row.gamesToWin {
        updated := updated.(status := Completed, winnerTeamId := row.team2Id, loserTeamId := row.team1Id);
        seriesComplete := true;
      }
      if seriesComplete {
        updated := updated.(children := CancelScheduled(updated.children));
      }
      series := series[seriesId := updated];
      r := Ok(updated);
    }

    method ForfeitSeries(seriesId: int, forfeitingTeamId: int) returns (r: Result<SeriesRow, SeriesError>)
      modifies this
      ensures IsAnswered(old(series), series, seriesId, Forfeit(forfeitingTeamId), r)
    {
      if seriesId !in series {
        return Err(SeriesNotFound);
      }
      var row := series[seriesId];
      if row.status != Pending && row.status != InProgress {
        return Err(InvalidStatus(row.status));
      }
      var winner, loser;
      if row.team1Id.Some? && forfeitingTeamId == row.team1Id.value {
        winner, loser := row.team2Id, row.team1Id;
      } else if row.team2Id.Some? && forfeitingTeamId == row.team2Id.value {
        winner, loser := row.team1Id, row.team2Id;
      } else {
        return Err(NotASeriesTeam);
      }
      row := row.(
        status := Forfeited, winnerTeamId := winner, loserTeamId := loser, children := CancelScheduled(row.children));
      series := series[seriesId := row];
      r := Ok(row);
    }

    method CancelSeries(seriesId: int) returns (r: Result<SeriesRow, SeriesError>)
      modifies this
      ensures IsAnswered(old(series), series, seriesId, Cancel, r)
    {
      if seriesId !in series {
        return Err(SeriesNotFound);
      }
      var row := series[seriesId];
      if row.status != Pending && row.status != InProgress {
        return Err(InvalidStatus(row.status));
      }
      row := row.(status := Cancelled, children := CancelScheduled(row.children));
      series := series[seriesId := row];
      r := Ok(row);
    }
  }

  /** What every run keeps. */
  predicate Invariant(row: SeriesRow) {
    && row.gamesToWin >= 1 && row.team1Wins >= 0 && row.team2Wins >= 0
    && match row.status
      case Pending => row.team1Wins == 0 && row.team2Wins == 0 && row.winnerTeamId == None
      case InProgress =>
        row.team1Wins < row.gamesToWin && row.team2Wins < row.gamesToWin && row.winnerTeamId == None
      case Completed =>
        || (row.team1Wins == row.gamesToWin && row.team2Wins < row.gamesToWin
            && row.winnerTeamId == row.team1Id && row.loserTeamId == row.team2Id)
        || (row.team2Wins == row.gamesToWin && row.team1Wins < row.gamesToWin
            && row.winnerTeamId == row.team2Id && row.loserTeamId == row.team1Id)
      case Forfeited =>
        row.team1Wins < row.gamesToWin && row.team2Wins < row.gamesToWin
        && (|| (row.winnerTeamId == row.team1Id && row.loserTeamId == row.team2Id)
            || (row.winnerTeamId == row.team2Id && row.loserTeamId == row.team1Id))
      case Cancelled =>
        row.team1Wins < row.gamesToWin && row.team2Wins < row.gamesToWin && row.winnerTeamId == None
  }

  /** A series that has ended leaves no child match waiting to be played. */
  ghost predicate NoneWaits(children: seq<ChildMatch>) {
    forall i :: 0 <= i < |children| ==>
      children[i].status != Scoring.Scheduled && children[i].status != Scoring.Warmup
  }

  lemma {:induction false} EndingClearsTheSchedule(row: SeriesRow, call: Call)
    requires !IsTerminal(row.status) && IsTerminal(Step(row, call).status)
    ensures NoneWaits(Step(row, call).children)
  {
  }

  /** Only child matches not yet begun are cancelled; the others stay as they are. */
  lemma {:induction false} CancellingSparesTheOthers(children: seq<ChildMatch>)
    ensures var after := CancelScheduled(children);
      && |after| == |children| && NoneWaits(after)
      && forall i :: 0 <= i < |children| ==>
        && after[i].matchNumber == children[i].matchNumber
        && (after[i] == children[i]
            || (after[i].status == Scoring.Cancelled
                && children[i].status in {Scoring.Scheduled, Scoring.Warmup}))
  {
  }

  predicate IsSeriesTeam(row: SeriesRow, team: int) {
    row.team1Id == Some(team) || row.team2Id == Some(team)
  }

  /** What a series accepts: a start while pending, results of its teams while in progress, a forfeit
      of its teams or a cancellation until it has ended. The status is the first reason to refuse. */
  lemma {:induction false} CallIsAccepted(row: SeriesRow, call: Call)
    ensures var inTime := match call
        case Start(_) => row.status == Pending
        case RecordResult(_) => row.status == InProgress
        case _ => row.status == Pending || row.status == InProgress;
      var isOfTeam := match call
        case RecordResult(team) => IsSeriesTeam(row, team)
        case Forfeit(team) => IsSeriesTeam(row, team)
        case _ => true;
      && (Answer(row, call).Ok? <==> inTime && isOfTeam)
      && (Answer(row, call) == Err(InvalidStatus(row.status)) <==> !inTime)
      && (Answer(row, call) == Err(NotASeriesTeam) <==> inTime && !isOfTeam)
  {
  }

  /** A forfeit, a cancellation and a start leave the score alone, and only a forfeit decides the
      series. */
  lemma {:induction false} OtherCallsKeepTheScore(row: SeriesRow, call: Call)
    requires Answer(row, call).Ok? && !call.RecordResult?
    ensures var after := Answer(row, call).value;
      && after.status == (if call.Start? then InProgress else if call.Forfeit? then Forfeited else Cancelled)
      && after == row.(status := after.status, children := after.children,
        winnerTeamId := after.winnerTeamId, loserTeamId := after.loserTeamId)
      && (!call.Forfeit? ==> after.winnerTeamId == row.winnerTeamId && after.loserTeamId == row.loserTeamId)
      && (!call.Start? ==> after.children == CancelScheduled(row.children))
      && (call.Forfeit? && row.team1Id != row.team2Id ==>
        && after.loserTeamId == Some(call.teamId)
        && (after.winnerTeamId == if after.loserTeamId == row.team1Id then row.team2Id else row.team1Id))
  {
  }

  /** Whoever forfeits loses; a recorded result counts for its winner only. */
  lemma {:induction false} CallsFavourTheRightTeam(row: SeriesRow, team: int)
    requires row.team1Id != row.team2Id
    ensures ForfeitedBy(row, team).Ok? ==>
      var after := ForfeitedBy(row, team).value;
      after.loserTeamId == Some(team) && after.winnerTeamId != Some(team)
    ensures Recorded(row, team).Ok? ==>
      var after := Recorded(row, team).value;
      && after.team1Wins + after.team2Wins == row.team1Wins + row.team2Wins + 1
      && (after.team1Wins > row.team1Wins <==> row.team1Id == Some(team))
      && (after.team2Wins > row.team2Wins <==> row.team2Id == Some(team))
  {
  }

  predicate IsTerminal(status: SeriesStatus) {
    status == Completed || status == Forfeited || status == Cancelled
  }

  lemma {:induction false} StepKeepsInvariant(row: SeriesRow, call: Call)
    requires Invariant(row)
    ensures Invariant(Step(row, call))
    ensures Step(row, call).gamesToWin == row.gamesToWin
    ensures Step(row, call).team1Id == row.team1Id && Step(row, call).team2Id == row.team2Id
  {
  }

  /** Terminal statuses accept no call at all. */
  lemma {:induction false} TerminalIsFinal(row: SeriesRow, calls: seq<Call>)
    requires IsTerminal(row.status)
    ensures Run(row, calls) == row
    ensures forall call :: Answer(row, call) == Err(InvalidStatus(row.status))
    decreases |calls|
  {
    if calls != [] {
      TerminalIsFinal(row, calls[1..]);
    }
  }

  /** In every run both win counts stay below gamesToWin while the series is in progress, and a
      completed series has a winner with exactly gamesToWin wins and a loser with fewer. At most
      2*gamesToWin - 1 results are ever recorded. */
  lemma {:induction false} RunsKeepTheScore(row: SeriesRow, calls: seq<Call>)
    requires Invariant(row)
    ensures Invariant(Run(row, calls)) && Run(row, calls).gamesToWin == row.gamesToWin
    ensures Run(row, calls).team1Wins + Run(row, calls).team2Wins <= 2 * row.gamesToWin - 1
    decreases |calls|
  {
    if calls != [] {
      StepKeepsInvariant(row, calls[0]);
      RunsKeepTheScore(Step(row, calls[0]), calls[1..]);
    }
  }

  lemma {:induction false} ChildrenAreNumbered(count: nat)
    ensures |NewChildren(count)| == count
    ensures forall i :: 0 <= i < count ==> NewChildren(count)[i] == ChildMatch(i + 1, Scoring.Scheduled)
  {
    if count > 0 {
      ChildrenAreNumbered(count - 1);
    }
  }

  /** A start adds one scheduled child match per match type, numbered from 1, or as many as the series
      can take results. */
  lemma {:induction false} StartAddsChildren(row: SeriesRow, matchTypes: nat)
    requires row.status == Pending && row.gamesToWin >= 1
    ensures var (before, after) := (row.children, Step(row, Start(matchTypes)).children);
      && |after| == |before| + (if matchTypes > 0 then matchTypes else 2 * row.gamesToWin - 1)
      && after[..|before|] == before
      && forall i :: |before| <= i < |after| ==> after[i] == ChildMatch(i - |before| + 1, Scoring.Scheduled)
  {
    ChildrenAreNumbered(ChildCount(row, matchTypes));
  }

  lemma {:induction false} RunsKeepTheChildren(row: SeriesRow, calls: seq<Call>)
    requires row.status != Pending
    ensures |Run(row, calls).children| == |row.children|
    decreases |calls|
  {
    if calls != [] {
      RunsKeepTheChildren(Step(row, calls[0]), calls[1..]);
    }
  }

  /** The child matches made at the start cover every run's results exactly when there are at
      least 2*gamesToWin - 1 of them: always without match types, and with match types only if
      there are that many. */
  lemma {:induction false} ChildrenCoverResults(row: SeriesRow, matchTypes: nat)
    requires IsNew(row) && row.team1Id.Some? && row.team2Id.Some? && row.team1Id != row.team2Id
    ensures var started := Step(row, Start(matchTypes));
      (forall calls :: Run(started, calls).team1Wins + Run(started, calls).team2Wins <= |Run(started, calls).children|)
      <==> (matchTypes == 0 || matchTypes >= 2 * row.gamesToWin - 1)
  {
    var started := Step(row, Start(matchTypes));
    var most := 2 * row.gamesToWin - 1;
    ChildrenAreNumbered(ChildCount(row, matchTypes));
    assert |started.children| == ChildCount(row, matchTypes);
    if matchTypes == 0 || matchTypes >= most {
      forall calls
        ensures Run(started, calls).team1Wins + Run(started, calls).team2Wins <= |Run(started, calls).children|
      {
        RunsKeepTheScore(started, calls);
        RunsKeepTheChildren(started, calls);
      }
    } else {
      var calls := LongestRun(started);
      RunsKeepTheChildren(started, calls);
      assert Run(started, calls).team1Wins + Run(started, calls).team2Wins > |Run(started, calls).children|;
    }
  }

  function Repeat(call: Call, n: nat): seq<Call> {
    if n == 0 then [] else [call] + Repeat(call, n - 1)
  }

  /** A team can win any number of games short of the series. */
  lemma {:induction false} WinsInARow(row: SeriesRow, team: int, n: nat)
    requires row.status == InProgress && row.team1Id != row.team2Id
    requires row.team1Wins < row.gamesToWin && row.team2Wins < row.gamesToWin
    requires row.team1Id == Some(team) ==> row.team1Wins + n < row.gamesToWin
    requires row.team2Id == Some(team) ==> row.team2Wins + n < row.gamesToWin
    requires row.team1Id == Some(team) || row.team2Id == Some(team)
    ensures Run(row, Repeat(RecordResult(team), n)) ==
      if row.team1Id == Some(team) then row.(team1Wins := row.team1Wins + n) else row.(team2Wins := row.team2Wins + n)
    decreases n
  {
    if n > 0 {
      assert Repeat(RecordResult(team), n)[1..] == Repeat(RecordResult(team), n - 1);
      WinsInARow(Step(row, RecordResult(team)), team, n - 1);
    }
  }

  /** From any score of a series in progress either team can still win it, by as many results in a row
      as it is short of gamesToWin and no fewer; the other team then loses, with the score it had. */
  lemma {:induction false} EitherTeamCanStillWin(row: SeriesRow, team: int)
    requires Invariant(row) && row.status == InProgress && row.team1Id != row.team2Id && IsSeriesTeam(row, team)
    ensures var isFirst := row.team1Id == Some(team);
      var missing := row.gamesToWin - (if isFirst then row.team1Wins else row.team2Wins);
      && missing >= 1
      && Run(row, Repeat(RecordResult(team), missing - 1)).status == InProgress
      && Run(row, Repeat(RecordResult(team), missing)) == row.(
        status := Completed,
        team1Wins := if isFirst then row.gamesToWin else row.team1Wins,
        team2Wins := if isFirst then row.team2Wins else row.gamesToWin,
        winnerTeamId := Some(team), loserTeamId := if isFirst then row.team2Id else row.team1Id,
        children := CancelScheduled(row.children))
  {
    var missing := row.gamesToWin - (if row.team1Id == Some(team) then row.team1Wins else row.team2Wins);
    WinsInARow(row, team, missing - 1);
    RepeatOnce(RecordResult(team), missing - 1);
    RunConcat(row, Repeat(RecordResult(team), missing - 1), [RecordResult(team)]);
    var before := Run(row, Repeat(RecordResult(team), missing - 1));
    assert Run(before, [RecordResult(team)]) == Step(before, RecordResult(team)) by {
      assert [RecordResult(team)][1..] == [];
    }
  }

  lemma {:induction false} RepeatOnce(call: Call, n: nat)
    ensures Repeat(call, n + 1) == Repeat(call, n) + [call]
  {
    if n > 0 {
      RepeatOnce(call, n - 1);
    }
  }

  lemma {:induction false} RunConcat(row: SeriesRow, a: seq<Call>, b: seq<Call>)
    ensures Run(row, a + b) == Run(Run(row, a), b)
    decreases |a|
  {
    if a == [] {
      assert a + b == b;
    } else {
      assert (a + b)[1..] == a[1..] + b;
      RunConcat(Step(row, a[0]), a[1..], b);
    }
  }

  /** Both teams one game short, then the deciding game: 2*gamesToWin - 1 results. */
  lemma {:induction false} LongestRun(row: SeriesRow) returns (calls: seq<Call>)
    requires row.status == InProgress && row.gamesToWin >= 1 && row.team1Wins == 0 && row.team2Wins == 0
    requires row.team1Id.Some? && row.team2Id.Some? && row.team1Id != row.team2Id
    ensures Run(row, calls).team1Wins + Run(row, calls).team2Wins == 2 * row.gamesToWin - 1
  {
    var n := row.gamesToWin - 1;
    var first, second := Repeat(RecordResult(row.team1Id.value), n), Repeat(RecordResult(row.team2Id.value), n);
    var last := [RecordResult(row.team1Id.value)];
    WinsInARow(row, row.team1Id.value, n);
    WinsInARow(Run(row, first), row.team2Id.value, n);
    calls := first + (second + last);
    RunConcat(row, first, second + last);
    RunConcat(Run(row, first), second, last);
    var level := Run(Run(row, first), second);
    assert last[1..] == [];
    assert Run(level, last) == Step(level, last[0]);
  }
}
