/** Playing a double-elimination bracket: some match lacks a feeder at every size, and no run ever
    fills the grand finals. */
module DoubleRuns {
  import opened Wrappers
  import opened PowersOfTwo
  import opened Brackets
  import opened Scoring
  import opened MatchTable
  import opened BracketTree
  import opened SingleElimination
  import opened DoubleElimination
  import opened BracketService
  import opened RowLocks

  /** The number of the last losers match; its winner goes to slot 2 of the grand finals. */
  function LastLosersMatch(e: nat): int {
    2 * Pow2(e) - 3
  }

  function GrandFinalsMatch(e: nat): int {
    2 * Pow2(e) - 2
  }

  /** The slot of the last losers match that nobody feeds: winners of the losers bracket go from
      index j to index j + j / 2 + 1, never to both slots of one match. */
  function MissingSlot(e: nat): int {
    if (Pow2(e) - 3) % 3 == 1 then 2 else 1
  }

  /** From size 4 on the last losers match gets at most one team. */
  lemma {:induction false} LastLosersMatchIsShort(e: nat, ranked: seq<SeedEntry>, k: int, loser: bool)
    requires e >= 2
    ensures !Feeds(e, ranked, k, loser, LastLosersMatch(e), MissingSlot(e))
  {
    assert Pow2(e) == 4 * Pow2(e - 2);
    if 1 <= k < Pow2(e) {
      NextIsOneRoundOn(e, k);
    } else if Pow2(e) <= k < 2 * Pow2(e) - 2 {
      SequentialSlots(k - Pow2(e));
    }
  }

  lemma {:induction false} SequentialSlots(j: nat)
    ensures j % 2 == 0 <==> (j + j / 2 + 1) % 3 == 1
    ensures j % 2 == 1 <==> (j + j / 2 + 1) % 3 == 2
  {
    var i := j / 2;
    if j % 2 == 0 {
      assert j + j / 2 + 1 == 3 * i + 1;
    } else {
      assert j + j / 2 + 1 == 3 * i + 2;
    }
  }

  /** The grand finals are fed by the winners final, in slot 1, and by the last losers match, in
      slot 2; by no other match, and at size 2 not by a losers match either. */
  lemma {:induction false} GrandFinalsFeeders(e: nat, ranked: seq<SeedEntry>, k: int, loser: bool, slot: int)
    requires e >= 1
    ensures Feeds(e, ranked, k, loser, GrandFinalsMatch(e), slot) <==>
      && !loser
      && ((k == Pow2(e) - 1 && slot == 1) || (e >= 2 && k == LastLosersMatch(e) && slot == 2))
  {
    if 1 <= k < Pow2(e) {
      NextIsOneRoundOn(e, k);
    }
  }

  lemma {:induction false} SlotsAreOneOrTwo(e: nat, ranked: seq<SeedEntry>, k: int)
    requires e >= 1 && 1 <= k <= 2 * Pow2(e) - 2
    ensures var bm := DoubleMatchAt(e, ranked, k);
      && (bm.nextMatchNumber > 0 ==> bm.nextMatchSlot == 1 || bm.nextMatchSlot == 2)
      && (bm.loserNextMatchNumber > 0 ==> bm.loserNextMatchSlot == 1 || bm.loserNextMatchSlot == 2)
  {
  }

  /** Does a match send anybody to a slot? Any slot number but 1 means slot 2. */
  predicate SendsTo(bm: BracketMatch, target: int, slot: int) {
    || (bm.nextMatchNumber == target && (bm.nextMatchSlot == 1 <==> slot == 1))
    || (bm.loserNextMatchNumber == target && (bm.loserNextMatchSlot == 1 <==> slot == 1))
  }

  lemma {:induction false} SendsOnlyWhatFeeds(e: nat, ranked: seq<SeedEntry>, k: int, target: int, slot: int)
    requires e >= 1 && 1 <= k <= 2 * Pow2(e) - 2 && target > 0 && (slot == 1 || slot == 2)
    ensures SendsTo(DoubleMatchAt(e, ranked, k), target, slot)
      <==> Feeds(e, ranked, k, false, target, slot) || Feeds(e, ranked, k, true, target, slot)
  {
    SlotsAreOneOrTwo(e, ranked, k);
  }

  /** AdvanceWinner leaves alone every slot its match does not send to. */
  lemma {:induction false} OtherSlotsStay(bms: seq<BracketMatch>, idOf: map<int, int>, db: map<int, MatchRow>,
        m: int, target: int, slot: int)
    requires IsWiredAs(bms, idOf, db) && m in idOf && target in idOf && !SendsTo(bms[m - 1], target, slot)
    requires Advanced(db, idOf[m]).Ok?
    ensures var after := Advanced(db, idOf[m]).value;
      && idOf[target] in after
      && TeamInSlot(after[idOf[target]].teams, slot) == TeamInSlot(db[idOf[target]].teams, slot)
  {
    AdvanceWritesOnlyItsSlots(db, idOf[m]);
    var bm, row := bms[m - 1], db[idOf[m]];
    assert row.wiring == WiringOf(bm, idOf);
    assert row.wiring.nextMatchId == Some(idOf[target]) ==> bm.nextMatchNumber == target;
    assert row.wiring.loserNextMatchId == Some(idOf[target]) ==> bm.loserNextMatchNumber == target;
  }

  /** Finish: a match ends somehow, with a winner only if it had both its teams.
      Advance: one call of AdvanceWinner. */
  datatype Step = Finish(m: int, status: MatchStatus, result: ResultColumns) | Advance(m: int)

  predicate IsEnabled(idOf: map<int, int>, db: map<int, MatchRow>, step: Step) {
    && step.m in idOf && idOf[step.m] in db
    && (step.Finish? && step.result.winnerTeamId.Some? ==>
      db[idOf[step.m]].teams.team1Id.Some? && db[idOf[step.m]].teams.team2Id.Some?)
  }

  function Do(idOf: map<int, int>, db: map<int, MatchRow>, step: Step): map<int, MatchRow> {
    if step.m !in idOf || idOf[step.m] !in db then db
    else match step
      case Finish(m, status, result) => db[idOf[m] := db[idOf[m]].(status := status, result := result)]
      case Advance(m) => match Advanced(db, idOf[m]) { case Ok(after) => after case Err(_) => db }
  }

  predicate IsRun(idOf: map<int, int>, db: map<int, MatchRow>, steps: seq<Step>)
    decreases |steps|
  {
    steps == [] || (IsEnabled(idOf, db, steps[0]) && IsRun(idOf, Do(idOf, db, steps[0]), steps[1..]))
  }

  function DoAll(idOf: map<int, int>, db: map<int, MatchRow>, steps: seq<Step>): map<int, MatchRow>
    decreases |steps|
  {
    if steps == [] then db else DoAll(idOf, Do(idOf, db, steps[0]), steps[1..])
  }

  /** A slot of a match is empty. */
  predicate IsEmpty(idOf: map<int, int>, db: map<int, MatchRow>, m: int, slot: int) {
    m in idOf && idOf[m] in db && TeamInSlot(db[idOf[m]].teams, slot) == None
  }

  predicate IsUnwon(idOf: map<int, int>, db: map<int, MatchRow>, m: int) {
    m in idOf && idOf[m] in db && db[idOf[m]].result.winnerTeamId == None
  }

  /** A table wired as generated in which the last losers match waits for its missing team, and the
      grand finals for its winner. */
  ghost predicate IsStuck(e: nat, ranked: seq<SeedEntry>, bms: seq<BracketMatch>, idOf: map<int, int>,
        db: map<int, MatchRow>)
    requires e >= 1
  {
    && IsDoubleBracket(e, ranked, bms) && IsWiredAs(bms, idOf, db)
    && IsEmpty(idOf, db, GrandFinalsMatch(e), 2) && IsUnwon(idOf, db, GrandFinalsMatch(e))
    && (e >= 2 ==>
      IsEmpty(idOf, db, LastLosersMatch(e), MissingSlot(e)) && IsUnwon(idOf, db, LastLosersMatch(e)))
  }

  lemma {:induction false} FinishKeepsStuck(e: nat, ranked: seq<SeedEntry>, bms: seq<BracketMatch>,
        idOf: map<int, int>, db: map<int, MatchRow>, step: Step)
    requires e >= 1 && IsStuck(e, ranked, bms, idOf, db) && IsEnabled(idOf, db, step) && step.Finish?
    ensures IsStuck(e, ranked, bms, idOf, Do(idOf, db, step))
  {
  }

  lemma {:induction false} AdvanceKeepsWiring(bms: seq<BracketMatch>, idOf: map<int, int>, db: map<int, MatchRow>,
        m: int)
    requires IsWiredAs(bms, idOf, db) && m in idOf && Advanced(db, idOf[m]).Ok?
    ensures IsWiredAs(bms, idOf, Advanced(db, idOf[m]).value)
    ensures forall k :: k in idOf ==> Advanced(db, idOf[m]).value[idOf[k]].result == db[idOf[k]].result
  {
    AdvanceWritesOnlyItsSlots(db, idOf[m]);
  }

  /** A match that is won sends nobody to the missing slot, nor to slot 2 of the grand finals. */
  lemma {:induction false} WonMatchesMissBoth(e: nat, ranked: seq<SeedEntry>, bms: seq<BracketMatch>, m: int)
    requires e >= 1 && IsDoubleBracket(e, ranked, bms) && 1 <= m <= |bms| && (e >= 2 ==> m != LastLosersMatch(e))
    ensures !SendsTo(bms[m - 1], GrandFinalsMatch(e), 2)
    ensures e >= 2 ==> !SendsTo(bms[m - 1], LastLosersMatch(e), MissingSlot(e))
  {
    assert bms[m - 1] == DoubleMatchAt(e, ranked, m);
    SendsOnlyWhatFeeds(e, ranked, m, GrandFinalsMatch(e), 2);
    GrandFinalsFeeders(e, ranked, m, false, 2);
    GrandFinalsFeeders(e, ranked, m, true, 2);
    if e >= 2 {
      SendsOnlyWhatFeeds(e, ranked, m, LastLosersMatch(e), MissingSlot(e));
      LastLosersMatchIsShort(e, ranked, m, false);
      LastLosersMatchIsShort(e, ranked, m, true);
    }
  }

  lemma {:induction false} AdvanceKeepsStuck(e: nat, ranked: seq<SeedEntry>, bms: seq<BracketMatch>,
        idOf: map<int, int>, db: map<int, MatchRow>, m: int)
    requires e >= 1 && IsStuck(e, ranked, bms, idOf, db) && m in idOf && idOf[m] in db
    ensures IsStuck(e, ranked, bms, idOf, Do(idOf, db, Advance(m)))
  {
    if Advanced(db, idOf[m]).Ok? {
      AdvanceKeepsWiring(bms, idOf, db, m);
      WonMatchesMissBoth(e, ranked, bms, m);
      OtherSlotsStay(bms, idOf, db, m, GrandFinalsMatch(e), 2);
      if e >= 2 {
        OtherSlotsStay(bms, idOf, db, m, LastLosersMatch(e), MissingSlot(e));
      }
    }
  }

  lemma {:induction false} RunsStayStuck(e: nat, ranked: seq<SeedEntry>, bms: seq<BracketMatch>,
        idOf: map<int, int>, db: map<int, MatchRow>, steps: seq<Step>)
    requires e >= 1 && IsStuck(e, ranked, bms, idOf, db) && IsRun(idOf, db, steps)
    ensures IsStuck(e, ranked, bms, idOf, DoAll(idOf, db, steps))
    decreases |steps|
  {
    if steps != [] {
      match steps[0] {
        case Finish(_, _, _) => FinishKeepsStuck(e, ranked, bms, idOf, db, steps[0]);
        case Advance(m) => AdvanceKeepsStuck(e, ranked, bms, idOf, db, m);
      }
      RunsStayStuck(e, ranked, bms, idOf, Do(idOf, db, steps[0]), steps[1..]);
    }
  }

  /** The third pass leaves alone every slot no BYE match sends to, and every result but a BYE's. */
  lemma {:induction false} ByePassKeepsSlot(bms: seq<BracketMatch>, rows: seq<MatchRow>, n: nat, target: int, slot: int)
    requires n <= |bms| == |rows| && 1 <= target <= |rows|
    requires forall i :: 0 <= i < n && bms[i].isBye ==> !SendsTo(bms[i], target, slot)
    requires target <= n ==> !bms[target - 1].isBye
    ensures TeamInSlot(ByePass(rows, bms, n)[target - 1].teams, slot) == TeamInSlot(rows[target - 1].teams, slot)
    ensures ByePass(rows, bms, n)[target - 1].result == rows[target - 1].result
    decreases n
  {
    if n > 0 {
      ByePassKeepsSlot(bms, rows, n - 1, target, slot);
    }
  }

  lemma {:induction false} OnlyWinnersMatchesAreByes(e: nat, ranked: seq<SeedEntry>, bms: seq<BracketMatch>, i: nat)
    requires e >= 1 && IsDoubleBracket(e, ranked, bms) && i < |bms| && bms[i].isBye
    ensures i < Pow2(e) - 1
  {
    assert bms[i + 1 - 1] == DoubleMatchAt(e, ranked, i + 1);
  }

  lemma {:induction false} SlotStartsEmpty(e: nat, ranked: seq<SeedEntry>, bms: seq<BracketMatch>,
        idOf: map<int, int>, db: map<int, MatchRow>, target: int, slot: int)
    requires e >= 1 && IsDoubleBracket(e, ranked, bms)
    requires BracketService.Holds(db, idOf, ByePass(WiredRows(bms, idOf), bms, |bms|))
    requires Pow2(e) <= target <= |bms| && (slot == 1 || slot == 2)
    requires forall i :: 0 <= i < Pow2(e) - 1 ==> !SendsTo(bms[i], target, slot)
    ensures IsEmpty(idOf, db, target, slot) && IsUnwon(idOf, db, target)
  {
    forall i | 0 <= i < |bms| && bms[i].isBye ensures !SendsTo(bms[i], target, slot) {
      OnlyWinnersMatchesAreByes(e, ranked, bms, i);
    }
    if bms[target - 1].isBye {
      OnlyWinnersMatchesAreByes(e, ranked, bms, target - 1);
    }
    assert bms[target - 1] == DoubleMatchAt(e, ranked, target);
    assert WiredRows(bms, idOf)[target - 1] == WiredRow(bms[target - 1], idOf);
    ByePassKeepsSlot(bms, WiredRows(bms, idOf), |bms|, target, slot);
  }

  lemma {:induction false} PersistedBracketIsStuck(e: nat, ranked: seq<SeedEntry>, bms: seq<BracketMatch>,
        idOf: map<int, int>, db: map<int, MatchRow>)
    requires e >= 1 && IsDoubleBracket(e, ranked, bms)
    requires BracketService.Holds(db, idOf, ByePass(WiredRows(bms, idOf), bms, |bms|))
    ensures IsStuck(e, ranked, bms, idOf, db)
  {
    PersistedBracketIsWired(e, ranked, bms, idOf, db);
    if e >= 2 {
      assert Pow2(e) == 4 * Pow2(e - 2);
    }
    forall i | 0 <= i < Pow2(e) - 1
      ensures !SendsTo(bms[i], GrandFinalsMatch(e), 2)
      ensures e >= 2 ==> !SendsTo(bms[i], LastLosersMatch(e), MissingSlot(e))
    {
      WonMatchesMissBoth(e, ranked, bms, i + 1);
    }
    SlotStartsEmpty(e, ranked, bms, idOf, db, GrandFinalsMatch(e), 2);
    if e >= 2 {
      SlotStartsEmpty(e, ranked, bms, idOf, db, LastLosersMatch(e), MissingSlot(e));
    }
  }

  /** No double-elimination bracket that GenerateBracket persists can be played to its end: as long as
      matches are won only when both their teams are there, no run ever fills slot 2 of the grand
      finals, whatever the size and the results. */
  lemma {:induction false} GrandFinalsAreNeverFilled(e: nat, ranked: seq<SeedEntry>, bms: seq<BracketMatch>,
        idOf: map<int, int>, db: map<int, MatchRow>, steps: seq<Step>)
    requires e >= 1 && IsDoubleBracket(e, ranked, bms)
    requires BracketService.Holds(db, idOf, ByePass(WiredRows(bms, idOf), bms, |bms|))
    requires IsRun(idOf, db, steps)
    ensures IsEmpty(idOf, DoAll(idOf, db, steps), GrandFinalsMatch(e), 2)
    ensures IsUnwon(idOf, DoAll(idOf, db, steps), GrandFinalsMatch(e))
  {
    PersistedBracketIsStuck(e, ranked, bms, idOf, db);
    RunsStayStuck(e, ranked, bms, idOf, db, steps);
  }
}
