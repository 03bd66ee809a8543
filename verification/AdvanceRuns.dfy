/** Playing a single-elimination bracket to its end: matches are decided in any order, each once
    both its slots are filled, or closed without a winner, with AdvanceWinner transactions
    interleaved freely, late or repeated. */
module AdvanceRuns {
  import opened Wrappers
  import opened PowersOfTwo
  import opened Brackets
  import opened Scoring
  import opened MatchTable
  import opened BracketTree
  import opened SingleElimination
  import opened BracketService
  import opened ByePlacement

  type Table = map<int, MatchRow>

  /** The row of match m. */
  function At(db: Table, idOf: map<int, int>, m: int): MatchRow
    requires m in idOf && idOf[m] in db
  {
    db[idOf[m]]
  }

  predicate IsFinished(row: MatchRow) {
    row.status == Completed || row.status == Forfeited
  }

  function BracketWiring(e: nat, idOf: map<int, int>, m: int): WiringColumns
    requires IsMatchNumber(e, m)
  {
    if m < Pow2(e) - 1 && Next(e, m) in idOf
      then WiringColumns(Some(idOf[Next(e, m)]), Some(DetermineSlotInNextMatch(m)), None, None)
      else UNWIRED
  }

  /** The bracket's rows are in the table under distinct ids, wired as generated. */
  ghost predicate IsWired(e: nat, idOf: map<int, int>, db: Table) {
    && e >= 1
    && (forall m :: m in idOf <==> IsMatchNumber(e, m))
    && (forall m, m' :: m in idOf && m' in idOf && m != m' ==> idOf[m] != idOf[m'])
    && (forall m :: m in idOf ==> idOf[m] in db)
    && (forall m {:trigger BracketWiring(e, idOf, m)} :: m in idOf ==>
      At(db, idOf, m).wiring == BracketWiring(e, idOf, m))
  }

  predicate HasWinner(row: MatchRow) {
    row.result.winnerTeamId.Some?
  }

  /** Only a finished match has a winner, which is a team in one of its slots. */
  predicate IsRightlyDecided(row: MatchRow) {
    HasWinner(row) ==>
      && IsFinished(row)
      && (row.result.winnerTeamId == row.teams.team1Id || row.result.winnerTeamId == row.teams.team2Id)
  }

  /** A slot after the first round is empty, or holds the winner of its finished feeder; it is not
      empty once the match has a winner. */
  predicate HoldsFeederWinner(e: nat, idOf: map<int, int>, db: Table, m: int, slot: int)
    requires m in idOf && idOf[m] in db && e >= 1
  {
    var feeder := Feeder(e, m, slot);
    var team := TeamInSlot(At(db, idOf, m).teams, slot);
    if team == None then !HasWinner(At(db, idOf, m))
    else
      feeder in idOf && idOf[feeder] in db && IsFinished(At(db, idOf, feeder))
      && At(db, idOf, feeder).result.winnerTeamId == team
  }

  ghost predicate Invariant(e: nat, idOf: map<int, int>, db: Table) {
    && IsWired(e, idOf, db)
    && (forall m {:trigger IsRightlyDecided(At(db, idOf, m))} :: m in idOf ==> IsRightlyDecided(At(db, idOf, m)))
    && (forall m, slot :: m in idOf && m > Pow2(e - 1) && 1 <= slot <= 2 ==> HoldsFeederWinner(e, idOf, db, m, slot))
  }

  /** Decide: match m ends, completed or forfeited, with the team of a slot as winner.
      Close: match m ends without a winner, as after a tied confirmation or a forfeit without teams.
      Advance: one call of AdvanceWinner for match m. */
  datatype Step = Decide(m: int, slot: int, forfeit: bool) | Close(m: int, forfeit: bool) | Advance(m: int)

  predicate BothSlotsFilled(row: MatchRow) {
    row.teams.team1Id.Some? && row.teams.team2Id.Some?
  }

  predicate IsEnabled(e: nat, idOf: map<int, int>, db: Table, step: Step) {
    match step
    case Decide(m, slot, _) =>
      m in idOf && idOf[m] in db && 1 <= slot <= 2
      && !IsFinished(At(db, idOf, m)) && BothSlotsFilled(At(db, idOf, m))
    case Close(m, _) => m in idOf && idOf[m] in db && !IsFinished(At(db, idOf, m))
    case Advance(m) => m in idOf
  }

  function Ended(row: MatchRow, forfeit: bool): MatchRow {
    row.(status := if forfeit then Forfeited else Completed)
  }

  function Decided(row: MatchRow, slot: int, forfeit: bool): MatchRow {
    Ended(row, forfeit).(result := ResultColumns(
      TeamInSlot(row.teams, slot), TeamInSlot(row.teams, 3 - slot), Some(if forfeit then ByForfeit else ByScore)))
  }

  function Do(idOf: map<int, int>, db: Table, step: Step): Table {
    match step
    case Decide(m, slot, forfeit) =>
      if m in idOf && idOf[m] in db then db[idOf[m] := Decided(db[idOf[m]], slot, forfeit)] else db
    case Close(m, forfeit) =>
      if m in idOf && idOf[m] in db then db[idOf[m] := Ended(db[idOf[m]], forfeit)] else db
    case Advance(m) =>
      if m in idOf then match Advanced(db, idOf[m]) { case Ok(after) => after case Err(_) => db } else db
  }

  /** What one AdvanceWinner transaction does in a single-elimination bracket: nothing for a
      match without a winner and for the final, otherwise it fills exactly the wired slot. */
  lemma {:induction false} AdvanceEffect(e: nat, idOf: map<int, int>, db: Table, m: int)
    requires Invariant(e, idOf, db) && m in idOf
    ensures IsRightlyDecided(At(db, idOf, m))
    ensures var row := At(db, idOf, m);
      Do(idOf, db, Advance(m)) ==
        if HasWinner(row) && m < Pow2(e) - 1 && Next(e, m) in idOf then
          var next := idOf[Next(e, m)];
          db[next := db[next].(
            teams := FillSlot(db[next].teams, DetermineSlotInNextMatch(m), row.result.winnerTeamId.value))]
        else db
  {
    NextIsOneRoundOn(e, m);
    assert IsRightlyDecided(At(db, idOf, m)) && At(db, idOf, m).wiring == BracketWiring(e, idOf, m);
  }

  lemma {:induction false} DecideKeepsInvariant(e: nat, idOf: map<int, int>, db: Table, m: int, slot: int,
        forfeit: bool)
    requires Invariant(e, idOf, db) && IsEnabled(e, idOf, db, Decide(m, slot, forfeit))
    ensures Invariant(e, idOf, Do(idOf, db, Decide(m, slot, forfeit)))
  {
    var after := Do(idOf, db, Decide(m, slot, forfeit));
    forall k | k in idOf
      ensures idOf[k] in after && IsRightlyDecided(At(after, idOf, k))
      ensures At(after, idOf, k) == if k == m then Decided(At(db, idOf, m), slot, forfeit) else At(db, idOf, k)
    {
      assert IsRightlyDecided(At(db, idOf, k));
    }
    forall k, s | k in idOf && k > Pow2(e - 1) && 1 <= s <= 2 ensures HoldsFeederWinner(e, idOf, after, k, s) {
      assert HoldsFeederWinner(e, idOf, db, k, s);
      FeederFeeds(e, k, s);
    }
  }

  lemma {:induction false} CloseKeepsInvariant(e: nat, idOf: map<int, int>, db: Table, m: int, forfeit: bool)
    requires Invariant(e, idOf, db) && IsEnabled(e, idOf, db, Close(m, forfeit))
    ensures Invariant(e, idOf, Do(idOf, db, Close(m, forfeit)))
  {
    var after := Do(idOf, db, Close(m, forfeit));
    forall k | k in idOf
      ensures idOf[k] in after && IsRightlyDecided(At(after, idOf, k))
      ensures At(after, idOf, k) == if k == m then Ended(At(db, idOf, m), forfeit) else At(db, idOf, k)
    {
      assert IsRightlyDecided(At(db, idOf, k));
    }
    forall k, s | k in idOf && k > Pow2(e - 1) && 1 <= s <= 2 ensures HoldsFeederWinner(e, idOf, after, k, s) {
      assert HoldsFeederWinner(e, idOf, db, k, s);
      FeederFeeds(e, k, s);
    }
  }

  lemma {:induction false} AdvanceKeepsInvariant(e: nat, idOf: map<int, int>, db: Table, m: int)
    requires Invariant(e, idOf, db) && m in idOf
    ensures Invariant(e, idOf, Do(idOf, db, Advance(m)))
  {
    AdvanceEffect(e, idOf, db, m);
    NextIsOneRoundOn(e, m);
    var after := Do(idOf, db, Advance(m));
    if after != db {
      var next := Next(e, m);
      forall k | k in idOf
        ensures idOf[k] in after && IsRightlyDecided(At(after, idOf, k))
        ensures k != next ==> At(after, idOf, k) == At(db, idOf, k)
        ensures At(after, idOf, k).(teams := At(db, idOf, k).teams) == At(db, idOf, k)
      {
        AdvanceKeepsDecision(e, idOf, db, m, k);
      }
      forall k, s | k in idOf && k > Pow2(e - 1) && 1 <= s <= 2 ensures HoldsFeederWinner(e, idOf, after, k, s) {
        assert HoldsFeederWinner(e, idOf, db, k, s);
        FeederFeeds(e, k, s);
        Feeders(e, m, k);
      }
    }
  }

  /** Advancing never disturbs a decided match: if the next match is already finished, the slot it
      fills holds that very team. */
  lemma {:induction false} AdvanceKeepsDecision(e: nat, idOf: map<int, int>, db: Table, m: int, k: int)
    requires Invariant(e, idOf, db) && m in idOf && k in idOf
    ensures var after := Do(idOf, db, Advance(m));
      && idOf[k] in after && IsRightlyDecided(At(after, idOf, k))
      && (k != Next(e, m) ==> At(after, idOf, k) == At(db, idOf, k))
      && At(after, idOf, k).(teams := At(db, idOf, k).teams) == At(db, idOf, k)
      && (forall slot :: 1 <= slot <= 2 && TeamInSlot(At(db, idOf, k).teams, slot).Some? ==>
        TeamInSlot(At(after, idOf, k).teams, slot) == TeamInSlot(At(db, idOf, k).teams, slot))
  {
    AdvanceEffect(e, idOf, db, m);
    NextIsOneRoundOn(e, m);
    assert IsRightlyDecided(At(db, idOf, k));
    if k == Next(e, m) {
      Feeders(e, m, k);
      assert HoldsFeederWinner(e, idOf, db, k, DetermineSlotInNextMatch(m));
    }
  }

  lemma {:induction false} StepKeepsInvariant(e: nat, idOf: map<int, int>, db: Table, step: Step)
    requires Invariant(e, idOf, db) && IsEnabled(e, idOf, db, step)
    ensures Invariant(e, idOf, Do(idOf, db, step))
  {
    match step
    case Decide(m, slot, forfeit) => DecideKeepsInvariant(e, idOf, db, m, slot, forfeit);
    case Close(m, forfeit) => CloseKeepsInvariant(e, idOf, db, m, forfeit);
    case Advance(m) => AdvanceKeepsInvariant(e, idOf, db, m);
  }

  /** Every step of the run is enabled when it is taken. */
  predicate IsRun(e: nat, idOf: map<int, int>, db: Table, steps: seq<Step>)
    decreases |steps|
  {
    steps == [] || (IsEnabled(e, idOf, db, steps[0]) && IsRun(e, idOf, Do(idOf, db, steps[0]), steps[1..]))
  }

  function DoAll(idOf: map<int, int>, db: Table, steps: seq<Step>): Table
    decreases |steps|
  {
    if steps == [] then db else DoAll(idOf, Do(idOf, db, steps[0]), steps[1..])
  }

  /** What was written stays written: filled slots, finished matches and their winners. */
  ghost predicate OnlyGrows(idOf: map<int, int>, before: Table, after: Table) {
    forall m :: m in idOf && idOf[m] in before ==>
      && idOf[m] in after
      && (forall slot :: 1 <= slot <= 2 && TeamInSlot(At(before, idOf, m).teams, slot).Some? ==>
        TeamInSlot(At(after, idOf, m).teams, slot) == TeamInSlot(At(before, idOf, m).teams, slot))
      && (IsFinished(At(before, idOf, m)) ==>
        IsFinished(At(after, idOf, m)) && At(after, idOf, m).result == At(before, idOf, m).result)
  }

  lemma {:induction false} StepOnlyGrows(e: nat, idOf: map<int, int>, db: Table, step: Step)
    requires Invariant(e, idOf, db) && IsEnabled(e, idOf, db, step)
    ensures OnlyGrows(idOf, db, Do(idOf, db, step))
  {
    if step.Advance? {
      forall m | m in idOf ensures idOf[m] in Do(idOf, db, step) {
        AdvanceKeepsDecision(e, idOf, db, step.m, m);
      }
      forall m | m in idOf
        ensures IsFinished(At(db, idOf, m)) ==>
          IsFinished(At(Do(idOf, db, step), idOf, m))
            && At(Do(idOf, db, step), idOf, m).result == At(db, idOf, m).result
        ensures forall slot :: 1 <= slot <= 2 && TeamInSlot(At(db, idOf, m).teams, slot).Some? ==>
          TeamInSlot(At(Do(idOf, db, step), idOf, m).teams, slot) == TeamInSlot(At(db, idOf, m).teams, slot)
      {
        AdvanceKeepsDecision(e, idOf, db, step.m, m);
      }
    }
  }

  /** In every run each slot is written only with the winner of its unique feeder, and no write is
      ever lost or overwritten, in particular not a sibling's. */
  lemma {:induction false} RunsAreSafe(e: nat, idOf: map<int, int>, db: Table, steps: seq<Step>)
    requires Invariant(e, idOf, db) && IsRun(e, idOf, db, steps)
    ensures Invariant(e, idOf, DoAll(idOf, db, steps))
    ensures OnlyGrows(idOf, db, DoAll(idOf, db, steps))
    decreases |steps|
  {
    if steps != [] {
      var next := Do(idOf, db, steps[0]);
      StepKeepsInvariant(e, idOf, db, steps[0]);
      StepOnlyGrows(e, idOf, db, steps[0]);
      RunsAreSafe(e, idOf, next, steps[1..]);
    }
  }

  predicate WonInRound(e: nat, idOf: map<int, int>, db: Table, m: int, round: int, team: int) {
    && IsMatchNumber(e, m) && RoundOf(e, m) == round
    && m in idOf && idOf[m] in db
    && IsFinished(At(db, idOf, m)) && At(db, idOf, m).result.winnerTeamId == Some(team)
  }

  /** A path of wired matches, one in every round from the first to that of match m, all won by
      the same team. */
  ghost predicate IsWinningPath(e: nat, idOf: map<int, int>, db: Table, path: seq<int>, m: int, team: int) {
    && IsMatchNumber(e, m) && |path| == RoundOf(e, m) && path[|path| - 1] == m
    && (forall r :: 0 <= r < |path| ==> WonInRound(e, idOf, db, path[r], r + 1, team))
    && (forall q, r :: 0 <= q < r < |path| && r == q + 1 ==> IsMatchNumber(e, path[q]) && Next(e, path[q]) == path[r])
  }

  lemma {:induction false} ExtendPath(e: nat, idOf: map<int, int>, db: Table, path: seq<int>, feeder: int, m: int,
        team: int)
    requires IsWinningPath(e, idOf, db, path, feeder, team)
    requires IsMatchNumber(e, m) && Next(e, feeder) == m && WonInRound(e, idOf, db, m, RoundOf(e, feeder) + 1, team)
    ensures IsWinningPath(e, idOf, db, path + [m], m, team)
  {
  }

  /** The winner of any finished match has won a match in every round before it, along the
      wiring. For the final this is the champion's way from the first round. */
  lemma {:induction false} WinnersWonTheirWay(e: nat, idOf: map<int, int>, db: Table, m: int, team: int)
    returns (path: seq<int>)
    requires Invariant(e, idOf, db) && m in idOf && IsFinished(At(db, idOf, m))
    requires At(db, idOf, m).result.winnerTeamId == Some(team)
    ensures IsWinningPath(e, idOf, db, path, m, team)
    decreases m
  {
    var row := At(db, idOf, m);
    assert IsRightlyDecided(row);
    if m <= Pow2(e - 1) {
      path := [m];
    } else {
      var slot := if row.result.winnerTeamId == row.teams.team1Id then 1 else 2;
      var feeder := Feeder(e, m, slot);
      assert HoldsFeederWinner(e, idOf, db, m, slot);
      FeederFeeds(e, m, slot);
      NextIsOneRoundOn(e, feeder);
      path := WinnersWonTheirWay(e, idOf, db, feeder, team);
      ExtendPath(e, idOf, db, path, feeder, m, team);
      path := path + [m];
    }
  }

  /** Nothing is left to do: no match can be decided, and no AdvanceWinner changes anything. */
  ghost predicate IsQuiet(e: nat, idOf: map<int, int>, db: Table) {
    && (forall m :: m in idOf ==> !IsEnabled(e, idOf, db, Decide(m, 1, false)))
    && (forall m :: m in idOf ==> Do(idOf, db, Advance(m)) == db)
  }

  /** The first round was filled: a match there has a winner or both its teams. */
  predicate FirstRoundIsFilled(e: nat, idOf: map<int, int>, db: Table)
    requires e >= 1
  {
    forall m :: 1 <= m <= Pow2(e - 1) ==>
      m in idOf && idOf[m] in db && (HasWinner(At(db, idOf, m)) || BothSlotsFilled(At(db, idOf, m)))
  }

  /** No match that had both its teams was closed without a winner. */
  ghost predicate NobodyLostAWin(idOf: map<int, int>, db: Table) {
    forall m :: m in idOf && idOf[m] in db && IsFinished(At(db, idOf, m)) && BothSlotsFilled(At(db, idOf, m)) ==>
      HasWinner(At(db, idOf, m))
  }

  /** A bracket that has come to rest without such a match is finished: every match has a winner. */
  lemma {:induction false} QuietMeansDecided(e: nat, idOf: map<int, int>, db: Table, m: int)
    requires Invariant(e, idOf, db) && FirstRoundIsFilled(e, idOf, db) && IsQuiet(e, idOf, db)
    requires NobodyLostAWin(idOf, db) && m in idOf
    ensures HasWinner(At(db, idOf, m))
    ensures m > Pow2(e - 1) ==> BothSlotsFilled(At(db, idOf, m))
    decreases m
  {
    if m > Pow2(e - 1) {
      QuietSlot(e, idOf, db, m, 1);
      QuietSlot(e, idOf, db, m, 2);
    }
    assert !IsEnabled(e, idOf, db, Decide(m, 1, false));
  }

  lemma {:induction false} QuietSlot(e: nat, idOf: map<int, int>, db: Table, m: int, slot: int)
    requires Invariant(e, idOf, db) && FirstRoundIsFilled(e, idOf, db) && IsQuiet(e, idOf, db)
    requires NobodyLostAWin(idOf, db) && m in idOf && m > Pow2(e - 1) && 1 <= slot <= 2
    ensures TeamInSlot(At(db, idOf, m).teams, slot).Some?
    decreases m, 0
  {
    var feeder := Feeder(e, m, slot);
    FeederFeeds(e, m, slot);
    QuietMeansDecided(e, idOf, db, feeder);
    AdvanceEffect(e, idOf, db, feeder);
    assert Do(idOf, db, Advance(feeder)) == db;
    assert db[idOf[m]].teams == FillSlot(db[idOf[m]].teams, slot, At(db, idOf, feeder).result.winnerTeamId.value);
  }

  lemma {:induction false} FirstRoundStaysFilled(e: nat, idOf: map<int, int>, db: Table, after: Table)
    requires Invariant(e, idOf, db) && FirstRoundIsFilled(e, idOf, db) && OnlyGrows(idOf, db, after)
    ensures FirstRoundIsFilled(e, idOf, after)
  {
    forall m | 1 <= m <= Pow2(e - 1)
      ensures m in idOf && idOf[m] in after && (HasWinner(At(after, idOf, m)) || BothSlotsFilled(At(after, idOf, m)))
    {
      assert IsRightlyDecided(At(db, idOf, m));
      assert TeamInSlot(At(db, idOf, m).teams, 1).Some? ==> TeamInSlot(At(after, idOf, m).teams, 1).Some?;
      assert TeamInSlot(At(db, idOf, m).teams, 2).Some? ==> TeamInSlot(At(after, idOf, m).teams, 2).Some?;
    }
  }

  lemma {:induction false} QuietBracketHasAChampion(e: nat, idOf: map<int, int>, db: Table)
    returns (champion: int, path: seq<int>)
    requires Invariant(e, idOf, db) && FirstRoundIsFilled(e, idOf, db) && IsQuiet(e, idOf, db)
    requires NobodyLostAWin(idOf, db)
    ensures |path| == e && IsWinningPath(e, idOf, db, path, Pow2(e) - 1, champion)
  {
    var final := Pow2(e) - 1;
    NextIsOneRoundOn(e, final);
    QuietMeansDecided(e, idOf, db, final);
    assert IsRightlyDecided(At(db, idOf, final));
    champion := At(db, idOf, final).result.winnerTeamId.value;
    path := WinnersWonTheirWay(e, idOf, db, final, champion);
  }

  /** A champion has made every match of the bracket a match with a winner. */
  lemma {:induction false} ChampionNeedsAllWinners(e: nat, idOf: map<int, int>, db: Table, m: int)
    requires Invariant(e, idOf, db) && Pow2(e) - 1 in idOf && HasWinner(At(db, idOf, Pow2(e) - 1)) && m in idOf
    ensures HasWinner(At(db, idOf, m))
    decreases Pow2(e) - m
  {
    if m < Pow2(e) - 1 {
      NextIsOneRoundOn(e, m);
      Feeders(e, m, Next(e, m));
      ChampionNeedsAllWinners(e, idOf, db, Next(e, m));
      assert HoldsFeederWinner(e, idOf, db, Next(e, m), DetermineSlotInNextMatch(m));
    }
  }

  /** Every match that has ended has a winner, as in a bracket just generated. */
  ghost predicate EveryEndHasAWinner(idOf: map<int, int>, db: Table) {
    forall m :: m in idOf && idOf[m] in db && IsFinished(At(db, idOf, m)) ==> HasWinner(At(db, idOf, m))
  }

  predicate Closes(steps: seq<Step>) {
    exists i :: 0 <= i < |steps| && steps[i].Close?
  }

  lemma {:induction false} StepKeepsWinners(e: nat, idOf: map<int, int>, db: Table, step: Step)
    requires Invariant(e, idOf, db) && IsEnabled(e, idOf, db, step) && !step.Close?
    requires EveryEndHasAWinner(idOf, db)
    ensures EveryEndHasAWinner(idOf, Do(idOf, db, step))
  {
    if step.Advance? {
      forall m | m in idOf ensures At(Do(idOf, db, step), idOf, m).(teams := At(db, idOf, m).teams) == At(db, idOf, m) {
        AdvanceKeepsDecision(e, idOf, db, step.m, m);
      }
    }
  }

  lemma {:induction false} RunKeepsWinners(e: nat, idOf: map<int, int>, db: Table, steps: seq<Step>)
    requires Invariant(e, idOf, db) && IsRun(e, idOf, db, steps) && !Closes(steps) && EveryEndHasAWinner(idOf, db)
    ensures EveryEndHasAWinner(idOf, DoAll(idOf, db, steps))
    decreases |steps|
  {
    if steps != [] {
      assert !steps[0].Close?;
      StepKeepsInvariant(e, idOf, db, steps[0]);
      StepKeepsWinners(e, idOf, db, steps[0]);
      assert forall i :: 0 <= i < |steps[1..]| ==> steps[1..][i] == steps[i + 1];
      RunKeepsWinners(e, idOf, Do(idOf, db, steps[0]), steps[1..]);
    }
  }

  /** A match closed without a winner never gets one. */
  lemma {:induction false} ClosedStaysClosed(e: nat, idOf: map<int, int>, db: Table, steps: seq<Step>) returns (m: int)
    requires Invariant(e, idOf, db) && IsRun(e, idOf, db, steps) && Closes(steps)
    ensures m in idOf && idOf[m] in DoAll(idOf, db, steps) && !HasWinner(At(DoAll(idOf, db, steps), idOf, m))
    decreases |steps|
  {
    var next := Do(idOf, db, steps[0]);
    StepKeepsInvariant(e, idOf, db, steps[0]);
    if steps[0].Close? {
      m := steps[0].m;
      assert IsRightlyDecided(At(db, idOf, m));
      RunsAreSafe(e, idOf, next, steps[1..]);
    } else {
      var i :| 0 <= i < |steps| && steps[i].Close?;
      assert steps[1..][i - 1].Close?;
      m := ClosedStaysClosed(e, idOf, next, steps[1..]);
    }
  }

  /** However the matches were decided and the winners advanced, a bracket that has come to rest
      without a match closed on the way has a champion: the winner of the final, who won one match
      in every round. */
  lemma {:induction false} EveryRunEndsWithAChampion(e: nat, idOf: map<int, int>, db: Table, steps: seq<Step>)
    returns (champion: int, path: seq<int>)
    requires Invariant(e, idOf, db) && FirstRoundIsFilled(e, idOf, db) && EveryEndHasAWinner(idOf, db)
    requires IsRun(e, idOf, db, steps) && !Closes(steps) && IsQuiet(e, idOf, DoAll(idOf, db, steps))
    ensures |path| == e && IsWinningPath(e, idOf, DoAll(idOf, db, steps), path, Pow2(e) - 1, champion)
  {
    RunsAreSafe(e, idOf, db, steps);
    FirstRoundStaysFilled(e, idOf, db, DoAll(idOf, db, steps));
    RunKeepsWinners(e, idOf, db, steps);
    champion, path := QuietBracketHasAChampion(e, idOf, DoAll(idOf, db, steps));
  }

  /** One match closed without a winner is one too many: a bracket at rest has a champion exactly
      when the run has closed none. */
  lemma {:induction false} ChampionIffNoneClosed(e: nat, idOf: map<int, int>, db: Table, steps: seq<Step>)
    requires Invariant(e, idOf, db) && FirstRoundIsFilled(e, idOf, db) && EveryEndHasAWinner(idOf, db)
    requires IsRun(e, idOf, db, steps) && IsQuiet(e, idOf, DoAll(idOf, db, steps))
    ensures Pow2(e) - 1 in idOf && idOf[Pow2(e) - 1] in DoAll(idOf, db, steps)
    ensures HasWinner(At(DoAll(idOf, db, steps), idOf, Pow2(e) - 1)) <==> !Closes(steps)
  {
    var end, final := DoAll(idOf, db, steps), Pow2(e) - 1;
    RunsAreSafe(e, idOf, db, steps);
    assert IsMatchNumber(e, final);
    if Closes(steps) {
      var m := ClosedStaysClosed(e, idOf, db, steps);
      if HasWinner(At(end, idOf, final)) {
        ChampionNeedsAllWinners(e, idOf, end, m);
      }
    } else {
      var champion, path := EveryRunEndsWithAChampion(e, idOf, db, steps);
      assert WonInRound(e, idOf, end, path[e - 1], e, champion);
    }
  }

  /** What is settled about a match: its end and its two slots. */
  function MarksOf(row: MatchRow): nat {
    (if IsFinished(row) then 1 else 0) + (if row.teams.team1Id.Some? then 1 else 0)
      + (if row.teams.team2Id.Some? then 1 else 0)
  }

  function Marks(idOf: map<int, int>, db: Table, n: nat): (k: nat)
    ensures k <= 3 * n
  {
    if n == 0 then 0
    else Marks(idOf, db, n - 1) + if n in idOf && idOf[n] in db then MarksOf(At(db, idOf, n)) else 0
  }

  lemma {:induction false} MarksStay(idOf: map<int, int>, before: Table, after: Table, n: nat)
    requires OnlyGrows(idOf, before, after)
    ensures Marks(idOf, before, n) <= Marks(idOf, after, n)
  {
    if n > 0 {
      MarksStay(idOf, before, after, n - 1);
      MatchMarksStay(idOf, before, after, n);
    }
  }

  lemma {:induction false} MatchMarksStay(idOf: map<int, int>, before: Table, after: Table, m: int)
    requires OnlyGrows(idOf, before, after)
    ensures m in idOf && idOf[m] in before ==>
      idOf[m] in after && MarksOf(At(before, idOf, m)) <= MarksOf(At(after, idOf, m))
  {
    if m in idOf && idOf[m] in before {
      assert TeamInSlot(At(before, idOf, m).teams, 1).Some? ==> TeamInSlot(At(after, idOf, m).teams, 1).Some?;
      assert TeamInSlot(At(before, idOf, m).teams, 2).Some? ==> TeamInSlot(At(after, idOf, m).teams, 2).Some?;
    }
  }

  lemma {:induction false} MarksGrow(idOf: map<int, int>, before: Table, after: Table, n: nat, m: int)
    requires OnlyGrows(idOf, before, after)
    requires 1 <= m <= n && m in idOf && idOf[m] in before && idOf[m] in after
    requires MarksOf(At(before, idOf, m)) < MarksOf(At(after, idOf, m))
    ensures Marks(idOf, before, n) < Marks(idOf, after, n)
  {
    if m == n {
      MarksStay(idOf, before, after, n - 1);
    } else {
      MarksGrow(idOf, before, after, n - 1, m);
      MatchMarksStay(idOf, before, after, n);
    }
  }

  lemma {:induction false} FillingMarks(row: MatchRow, slot: int, team: int)
    requires slot == 1 || slot == 2
    ensures TeamInSlot(row.teams, slot) == None ==>
      MarksOf(row) < MarksOf(row.(teams := FillSlot(row.teams, slot, team)))
    ensures TeamInSlot(row.teams, slot) == Some(team) ==> row.(teams := FillSlot(row.teams, slot, team)) == row
  {
  }

  /** The slot AdvanceWinner fills is empty, or already holds the winner. */
  lemma {:induction false} WiredSlotOf(e: nat, idOf: map<int, int>, db: Table, m: int)
    requires Invariant(e, idOf, db) && m in idOf && HasWinner(At(db, idOf, m)) && m < Pow2(e) - 1
    ensures Next(e, m) in idOf && 1 <= Next(e, m) < Pow2(e) && idOf[Next(e, m)] in db
    ensures var team := TeamInSlot(At(db, idOf, Next(e, m)).teams, DetermineSlotInNextMatch(m));
      team == None || team == At(db, idOf, m).result.winnerTeamId
  {
    NextIsOneRoundOn(e, m);
    Feeders(e, m, Next(e, m));
    assert HoldsFeederWinner(e, idOf, db, Next(e, m), DetermineSlotInNextMatch(m));
  }

  lemma {:induction false} AdvanceFillsASlot(e: nat, idOf: map<int, int>, db: Table, m: int) returns (next: int)
    requires Invariant(e, idOf, db) && m in idOf && Do(idOf, db, Advance(m)) != db
    ensures 1 <= next < Pow2(e) && next in idOf && idOf[next] in db && idOf[next] in Do(idOf, db, Advance(m))
    ensures MarksOf(At(db, idOf, next)) < MarksOf(At(Do(idOf, db, Advance(m)), idOf, next))
  {
    AdvanceEffect(e, idOf, db, m);
    next := Next(e, m);
    WiredSlotOf(e, idOf, db, m);
    assert IsRightlyDecided(At(db, idOf, m));
    FillingMarks(At(db, idOf, next), DetermineSlotInNextMatch(m), At(db, idOf, m).result.winnerTeamId.value);
  }

  lemma {:induction false} EndingMarks(e: nat, idOf: map<int, int>, db: Table, step: Step)
    requires Invariant(e, idOf, db) && !step.Advance? && IsEnabled(e, idOf, db, step)
    ensures 1 <= step.m < Pow2(e) && idOf[step.m] in Do(idOf, db, step)
    ensures MarksOf(At(db, idOf, step.m)) < MarksOf(At(Do(idOf, db, step), idOf, step.m))
  {
  }

  /** A step that changes the table settles something new about some match. */
  lemma {:induction false} ChangeSettlesSomething(e: nat, idOf: map<int, int>, db: Table, step: Step) returns (m: int)
    requires Invariant(e, idOf, db) && IsEnabled(e, idOf, db, step) && Do(idOf, db, step) != db
    ensures OnlyGrows(idOf, db, Do(idOf, db, step))
    ensures 1 <= m < Pow2(e) && m in idOf && idOf[m] in db && idOf[m] in Do(idOf, db, step)
    ensures MarksOf(At(db, idOf, m)) < MarksOf(At(Do(idOf, db, step), idOf, m))
  {
    StepOnlyGrows(e, idOf, db, step);
    if !step.Advance? {
      m := step.m;
      EndingMarks(e, idOf, db, step);
    } else {
      m := AdvanceFillsASlot(e, idOf, db, step.m);
    }
  }

  /** How many steps of a run change the table. */
  function Changes(idOf: map<int, int>, db: Table, steps: seq<Step>): nat
    decreases |steps|
  {
    if steps == [] then 0
    else
      var after := Do(idOf, db, steps[0]);
      (if after != db then 1 else 0) + Changes(idOf, after, steps[1..])
  }

  lemma {:induction false} ChangeIsMarked(e: nat, idOf: map<int, int>, db: Table, step: Step)
    requires Invariant(e, idOf, db) && IsEnabled(e, idOf, db, step) && Do(idOf, db, step) != db
    ensures Marks(idOf, db, Pow2(e) - 1) < Marks(idOf, Do(idOf, db, step), Pow2(e) - 1)
  {
    var m := ChangeSettlesSomething(e, idOf, db, step);
    MarksGrow(idOf, db, Do(idOf, db, step), Pow2(e) - 1, m);
  }

  /** Every run comes to rest: at most three steps per match can change anything. */
  lemma {:induction false} RunsComeToRest(e: nat, idOf: map<int, int>, db: Table, steps: seq<Step>)
    requires Invariant(e, idOf, db) && IsRun(e, idOf, db, steps)
    ensures Changes(idOf, db, steps) + Marks(idOf, db, Pow2(e) - 1) <= 3 * (Pow2(e) - 1)
    decreases |steps|
  {
    if steps != [] {
      StepKeepsInvariant(e, idOf, db, steps[0]);
      if Do(idOf, db, steps[0]) != db {
        ChangeIsMarked(e, idOf, db, steps[0]);
      }
      RunsComeToRest(e, idOf, Do(idOf, db, steps[0]), steps[1..]);
    }
  }
}
