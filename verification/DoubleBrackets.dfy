/** The double-elimination brackets GenerateBracket persists: how their rows are wired, by match number,
    and what AdvanceWinner makes of that. */
module DoubleBrackets {
  import opened Wrappers
  import opened PowersOfTwo
  import opened Brackets
  import opened Scoring
  import opened MatchTable
  import opened BracketTree
  import opened SingleElimination
  import opened DoubleElimination
  import opened BracketService
  import opened ByePlacement
  import opened RowLocks
  import opened AdvanceRuns
  import PersistedBrackets

  /** The table holds the bracket as the three passes leave it. */
  ghost predicate IsPersisted(e: nat, ranked: seq<SeedEntry>, bms: seq<BracketMatch>, idOf: map<int, int>, db: Table) {
    && IsSeeded(e, ranked) && IsDoubleBracket(e, ranked, bms)
    && BracketService.Holds(db, idOf, ByePass(WiredRows(bms, idOf), bms, |bms|))
  }

  /** The bracket's rows are all there, wired as generated; their statuses, teams and results are those
      of any moment of play. */
  ghost predicate IsInPlay(e: nat, ranked: seq<SeedEntry>, bms: seq<BracketMatch>, idOf: map<int, int>, db: Table) {
    && e >= 1 && IsDoubleBracket(e, ranked, bms) && IsWiredAs(bms, idOf, db)
    && forall k :: k in idOf <==> 1 <= k <= |bms|
  }

  lemma {:induction false} PersistedIsInPlay(e: nat, ranked: seq<SeedEntry>, bms: seq<BracketMatch>,
        idOf: map<int, int>, db: Table)
    requires IsPersisted(e, ranked, bms, idOf, db)
    ensures IsInPlay(e, ranked, bms, idOf, db)
  {
    PersistedBracketIsWired(e, ranked, bms, idOf, db);
  }

  function SideOf(n: int): int {
    if n % 2 == 1 then 1 else 2
  }

  predicate LeadsNowhere(row: MatchRow) {
    row.wiring.nextMatchId == None && row.wiring.nextMatchSlot == None
  }

  predicate DropsNowhere(row: MatchRow) {
    row.wiring.loserNextMatchId == None && row.wiring.loserNextMatchSlot == None
  }

  predicate LeadsTo(row: MatchRow, idOf: map<int, int>, k: int, slot: int) {
    k in idOf && row.wiring.nextMatchId == Some(idOf[k]) && row.wiring.nextMatchSlot == Some(slot)
  }

  predicate DropsTo(row: MatchRow, idOf: map<int, int>, k: int, slot: int) {
    k in idOf && row.wiring.loserNextMatchId == Some(idOf[k]) && row.wiring.loserNextMatchSlot == Some(slot)
  }

  lemma {:induction false} RowIsWired(e: nat, ranked: seq<SeedEntry>, bms: seq<BracketMatch>, idOf: map<int, int>,
        db: Table, k: int)
    requires IsInPlay(e, ranked, bms, idOf, db) && 1 <= k <= |bms|
    ensures k in idOf && idOf[k] in db
    ensures var (row, bm) := (At(db, idOf, k), DoubleMatchAt(e, ranked, k));
      && (bm.nextMatchNumber in idOf ==> LeadsTo(row, idOf, bm.nextMatchNumber, bm.nextMatchSlot))
      && (bm.nextMatchNumber == 0 ==> LeadsNowhere(row))
      && (bm.loserNextMatchNumber in idOf ==> DropsTo(row, idOf, bm.loserNextMatchNumber, bm.loserNextMatchSlot))
      && (bm.loserNextMatchNumber == 0 ==> DropsNowhere(row))
  {
    assert bms[k - 1] == DoubleMatchAt(e, ranked, k);
    assert k in idOf && db[idOf[k]].wiring == WiringOf(bms[k - 1], idOf);
  }

  /** Where the stored rows send their winners: in the winners bracket as in single elimination, with
      the grand finals behind its final. */
  lemma {:induction false} WinnersLeadOn(e: nat, ranked: seq<SeedEntry>, bms: seq<BracketMatch>,
        idOf: map<int, int>, db: Table, k: int)
    requires IsInPlay(e, ranked, bms, idOf, db) && 1 <= k < Pow2(e)
    ensures k in idOf && idOf[k] in db
    ensures k < Pow2(e) - 1 ==> LeadsTo(At(db, idOf, k), idOf, Pow2(e - 1) + (k + 1) / 2, SideOf(k))
    ensures k == Pow2(e) - 1 ==> LeadsTo(At(db, idOf, k), idOf, 2 * Pow2(e) - 2, 1)
  {
    RowIsWired(e, ranked, bms, idOf, db, k);
    NextIsOneRoundOn(e, k);
  }

  lemma {:induction false} LosersNext(e: nat, ranked: seq<SeedEntry>, j: nat)
    requires e >= 1 && Pow2(e) + j <= 2 * Pow2(e) - 2
    ensures var (bm, last) := (DoubleMatchAt(e, ranked, Pow2(e) + j), Pow2(e) - 3);
      && bm.nextMatchNumber ==
        (if j + j / 2 + 1 <= last then Pow2(e) + j + j / 2 + 1 else if j == last then 2 * Pow2(e) - 2 else 0)
      && (bm.nextMatchNumber > 0 ==> bm.nextMatchSlot == if j == last then 2 else SideOf(j + 1))
  {
    assert (j + 1) % 2 == 1 <==> j % 2 == 0;
  }

  /** In the losers bracket the winner of index j goes to index j + j / 2 + 1, and nowhere where there is
      no such match; that of the last one goes to the grand finals, which lead nowhere. */
  lemma {:induction false} LosersLeadOn(e: nat, ranked: seq<SeedEntry>, bms: seq<BracketMatch>,
        idOf: map<int, int>, db: Table, j: nat)
    requires IsInPlay(e, ranked, bms, idOf, db) && Pow2(e) + j <= 2 * Pow2(e) - 2
    ensures Pow2(e) + j in idOf && idOf[Pow2(e) + j] in db
    ensures var row, last := At(db, idOf, Pow2(e) + j), Pow2(e) - 3;
      && (j + j / 2 + 1 <= last ==> LeadsTo(row, idOf, Pow2(e) + j + j / 2 + 1, SideOf(j + 1)))
      && (j < last < j + j / 2 + 1 ==> LeadsNowhere(row))
      && (j == last ==> LeadsTo(row, idOf, 2 * Pow2(e) - 2, 2))
      && (j > last ==> LeadsNowhere(row))
  {
    RowIsWired(e, ranked, bms, idOf, db, Pow2(e) + j);
    LosersNext(e, ranked, j);
  }

  /** Where the stored rows send their losers: those of the first round drop in pairs into the first
      losers matches, from size 4 on; no other loser goes anywhere. */
  lemma {:induction false} LosersDrop(e: nat, ranked: seq<SeedEntry>, bms: seq<BracketMatch>,
        idOf: map<int, int>, db: Table, k: int)
    requires IsInPlay(e, ranked, bms, idOf, db) && 1 <= k <= |bms|
    ensures k in idOf && idOf[k] in db
    ensures e >= 2 && k <= Pow2(e - 1) ==> DropsTo(At(db, idOf, k), idOf, Pow2(e) + (k - 1) / 2, SideOf(k))
    ensures e == 1 || k > Pow2(e - 1) ==> DropsNowhere(At(db, idOf, k))
  {
    RowIsWired(e, ranked, bms, idOf, db, k);
    if e >= 2 {
      assert Pow2(e) == 4 * Pow2(e - 2);
    }
  }

  /** At any moment of play AdvanceWinner accepts every finished match that has a winner. */
  lemma {:induction false} EveryWinnerAdvances(e: nat, ranked: seq<SeedEntry>, bms: seq<BracketMatch>,
        idOf: map<int, int>, db: Table, k: int)
    requires IsInPlay(e, ranked, bms, idOf, db) && 1 <= k <= |bms|
    ensures k in idOf && idOf[k] in db
    ensures Advanced(db, idOf[k]).Ok? <==>
      && (At(db, idOf, k).status == Completed || At(db, idOf, k).status == Forfeited)
      && At(db, idOf, k).result.winnerTeamId.Some?
  {
    AdvanceIsAccepted(db, idOf[k]);
    assert k in idOf && db[idOf[k]].wiring == WiringOf(bms[k - 1], idOf);
  }

  /** A played first-round match of size 4 or more: the loser stands in its losers match, the winner one
      round on, and no other slot of any row has changed. */
  lemma {:induction false} FirstRoundAdvance(e: nat, ranked: seq<SeedEntry>, bms: seq<BracketMatch>,
        idOf: map<int, int>, db: Table, k: int)
    requires IsInPlay(e, ranked, bms, idOf, db) && e >= 2 && 1 <= k <= Pow2(e - 1)
    requires k in idOf && idOf[k] in db && Advanced(db, idOf[k]).Ok? && At(db, idOf, k).result.loserTeamId.Some?
    ensures Pow2(e - 1) + (k + 1) / 2 in idOf && Pow2(e) + (k - 1) / 2 in idOf
    ensures var (row, after) := (At(db, idOf, k), Advanced(db, idOf[k]).value);
      var (next, drop) := (idOf[Pow2(e - 1) + (k + 1) / 2], idOf[Pow2(e) + (k - 1) / 2]);
      && after.Keys == db.Keys && next in db && drop in db
      && forall id, slot :: id in db && 1 <= slot <= 2 ==>
        TeamInSlot(after[id].teams, slot) ==
          if id == drop && slot == SideOf(k) then row.result.loserTeamId
          else if id == next && slot == SideOf(k) then row.result.winnerTeamId
          else TeamInSlot(db[id].teams, slot)
  {
    AdvanceWritesOnlyItsSlots(db, idOf[k]);
    WinnersLeadOn(e, ranked, bms, idOf, db, k);
    LosersDrop(e, ranked, bms, idOf, db, k);
    assert Pow2(e) == 4 * Pow2(e - 2);
  }

  lemma {:induction false} WinnersMatchIsSingle(e: nat, ranked: seq<SeedEntry>, k: int)
    requires IsMatchNumber(e, k)
    ensures var (double, single) := (DoubleMatchAt(e, ranked, k), BracketMatchAt(e, ranked, k));
      double == single.(
        nextMatchNumber := double.nextMatchNumber, nextMatchSlot := double.nextMatchSlot,
        loserNextMatchNumber := double.loserNextMatchNumber, loserNextMatchSlot := double.loserNextMatchSlot)
      && (k < Pow2(e) - 1 ==>
        double.nextMatchNumber == single.nextMatchNumber && double.nextMatchSlot == single.nextMatchSlot)
  {
  }

  /** The rows of a double bracket at a moment of the third pass: in the winners bracket those of the
      single one, but for the wiring; the others as the second pass left them. */
  ghost predicate AreDoubleRows(bms: seq<BracketMatch>, idOf: map<int, int>, single: seq<MatchRow>,
        double: seq<MatchRow>)
  {
    && |single| <= |double| == |bms|
    && (forall i :: 0 <= i < |single| ==> double[i] == single[i].(wiring := double[i].wiring))
    && (forall i :: |single| <= i < |double| ==> double[i] == WiredRow(bms[i], idOf))
  }

  /** A step of the third pass does not look at the way of the loser. */
  lemma {:induction false} ByeStepIgnoresLosers(bms: seq<BracketMatch>, idOf: map<int, int>, single: seq<MatchRow>,
        double: seq<MatchRow>, bm: BracketMatch, bm': BracketMatch, n: nat)
    requires n < |single| && AreDoubleRows(bms, idOf, single, double)
    requires bm'.isBye == bm.isBye && ByeWinner(bm') == ByeWinner(bm) && bm'.byeWinnerSeed == bm.byeWinnerSeed
    requires bm.isBye ==>
      && 1 <= bm.nextMatchNumber <= |single|
      && bm'.nextMatchNumber == bm.nextMatchNumber && bm'.nextMatchSlot == bm.nextMatchSlot
    ensures AreDoubleRows(bms, idOf, ByeStep(single, bm, n), ByeStep(double, bm', n))
  {
  }

  lemma {:induction false} DoubleByeStep(e: nat, ranked: seq<SeedEntry>, bms: seq<BracketMatch>, idOf: map<int, int>,
        single: seq<MatchRow>, double: seq<MatchRow>, n: nat)
    requires IsSeeded(e, ranked) && n < Pow2(e) - 1 == |single| && AreDoubleRows(bms, idOf, single, double)
    ensures AreDoubleRows(bms, idOf, ByeStep(single, BracketMatchAt(e, ranked, n + 1), n),
      ByeStep(double, DoubleMatchAt(e, ranked, n + 1), n))
  {
    ByeMatchFacts(e, ranked, n + 1);
    WinnersMatchIsSingle(e, ranked, n + 1);
    ByeStepIgnoresLosers(bms, idOf, single, double, BracketMatchAt(e, ranked, n + 1),
      DoubleMatchAt(e, ranked, n + 1), n);
  }

  lemma {:induction false} DoubleRowsBeforePass(e: nat, ranked: seq<SeedEntry>, bms: seq<BracketMatch>,
        single: seq<BracketMatch>, idOf: map<int, int>)
    requires IsSeeded(e, ranked) && IsDoubleBracket(e, ranked, bms) && IsBracket(e, ranked, single)
    ensures AreDoubleRows(bms, idOf, WiredRows(single, idOf), WiredRows(bms, idOf))
  {
    forall i | 0 <= i < |single|
      ensures WiredRows(bms, idOf)[i] == WiredRows(single, idOf)[i].(wiring := WiredRows(bms, idOf)[i].wiring)
    {
      BracketMatchOf(e, ranked, single, i);
      assert bms[i + 1 - 1] == DoubleMatchAt(e, ranked, i + 1);
      WinnersMatchIsSingle(e, ranked, i + 1);
    }
  }

  lemma {:induction false} LosersMatchIsNoBye(e: nat, ranked: seq<SeedEntry>, k: int)
    requires e >= 1 && Pow2(e) <= k <= 2 * Pow2(e) - 2
    ensures !DoubleMatchAt(e, ranked, k).isBye
  {
  }

  lemma {:induction false} DoubleByePass(e: nat, ranked: seq<SeedEntry>, bms: seq<BracketMatch>,
        single: seq<BracketMatch>, idOf: map<int, int>, n: nat)
    requires IsSeeded(e, ranked) && IsDoubleBracket(e, ranked, bms) && IsBracket(e, ranked, single) && n <= |bms|
    ensures AreDoubleRows(bms, idOf,
      ByePass(WiredRows(single, idOf), single, if n < |single| then n else |single|),
      ByePass(WiredRows(bms, idOf), bms, n))
    decreases n
  {
    if n == 0 {
      DoubleRowsBeforePass(e, ranked, bms, single, idOf);
    } else {
      DoubleByePass(e, ranked, bms, single, idOf, n - 1);
      assert bms[n - 1] == DoubleMatchAt(e, ranked, n);
      if n <= |single| {
        BracketMatchOf(e, ranked, single, n - 1);
        DoubleByeStep(e, ranked, bms, idOf, ByePass(WiredRows(single, idOf), single, n - 1),
          ByePass(WiredRows(bms, idOf), bms, n - 1), n - 1);
      } else {
        LosersMatchIsNoBye(e, ranked, n);
      }
    }
  }

  /** The winners bracket of a persisted double elimination is the persisted single elimination of the
      same registrations, BYEs and all, but for the wiring; losers bracket and grand finals are empty. */
  lemma {:induction false} WinnersBracketIsSingle(e: nat, ranked: seq<SeedEntry>, bms: seq<BracketMatch>,
        single: seq<BracketMatch>, idOf: map<int, int>, db: Table, k: int)
    requires IsPersisted(e, ranked, bms, idOf, db) && IsBracket(e, ranked, single) && 1 <= k <= |bms|
    ensures k in idOf && idOf[k] in db
    ensures k < Pow2(e) ==>
      var row := At(db, idOf, k);
      row == ByePass(WiredRows(single, idOf), single, |single|)[k - 1].(wiring := row.wiring)
    ensures k >= Pow2(e) ==>
      var row := At(db, idOf, k);
      row.status == Scheduled && row.teams == TeamColumns(None, None, None, None) && row.result == UNDECIDED
  {
    DoubleByePass(e, ranked, bms, single, idOf, |bms|);
    assert k in idOf && At(db, idOf, k) == ByePass(WiredRows(bms, idOf), bms, |bms|)[k - 1];
    assert bms[k - 1] == DoubleMatchAt(e, ranked, k);
  }

  lemma {:induction false} ByePassKeepsNumber(bms: seq<BracketMatch>, idOf: map<int, int>, n: nat, i: nat)
    requires n <= |bms| && i < |bms|
    ensures ByePass(WiredRows(bms, idOf), bms, n)[i].matchNumber == Some(bms[i].matchNumber)
    decreases n
  {
    if n > 0 {
      ByePassKeepsNumber(bms, idOf, n - 1, i);
    }
  }

  lemma {:induction false} SlotsByParity(e: nat, ranked: seq<SeedEntry>, k: int)
    requires e >= 1 && 1 <= k <= 2 * Pow2(e) - 2 && DoubleMatchAt(e, ranked, k).nextMatchNumber > 0
    ensures k < Pow2(e) ==> DoubleMatchAt(e, ranked, k).nextMatchSlot == DetermineSlotInNextMatch(k)
    ensures Pow2(e) <= k < 2 * Pow2(e) - 3 ==>
      DoubleMatchAt(e, ranked, k).nextMatchSlot == 3 - DetermineSlotInNextMatch(k)
  {
    assert Pow2(e) == 2 * Pow2(e - 1);
    if k >= Pow2(e) {
      LosersNext(e, ranked, k - Pow2(e));
      EvenOffset(Pow2(e - 1), k - Pow2(e));
    }
  }

  lemma {:induction false} EvenOffset(half: nat, j: nat)
    ensures (2 * half + j) % 2 == j % 2 && SideOf(j + 1) == 3 - SideOf(j)
  {
  }

  /** Where the wired slot of a stored row is missing, AdvanceWinner falls back on the parity of the
      match number: that is the wired slot in the winners bracket, and the other one for every losers
      match before the last. */
  lemma {:induction false} FallbackSlots(e: nat, ranked: seq<SeedEntry>, bms: seq<BracketMatch>,
        idOf: map<int, int>, db: Table, k: int)
    requires IsPersisted(e, ranked, bms, idOf, db) && 1 <= k <= |bms|
    ensures k in idOf && idOf[k] in db
    ensures var row := At(db, idOf, k);
      var bare := row.(wiring := row.wiring.(nextMatchSlot := None));
      row.wiring.nextMatchSlot.Some? ==>
        && (k < Pow2(e) ==> NextSlot(bare) == NextSlot(row))
        && (Pow2(e) <= k < 2 * Pow2(e) - 3 ==> NextSlot(bare) == 3 - NextSlot(row))
  {
    PersistedIsInPlay(e, ranked, bms, idOf, db);
    RowIsWired(e, ranked, bms, idOf, db, k);
    ByePassKeepsNumber(bms, idOf, |bms|, k - 1);
    EdgesIncrease(e, ranked, k);
    if DoubleMatchAt(e, ranked, k).nextMatchNumber > 0 {
      SlotsByParity(e, ranked, k);
    }
  }

  /** Generating a double-elimination bracket from registrations leaves such a table. */
  method GenerateDouble(service: Service, existingCount: nat, regs: seq<Registration>)
    returns (r: Result<map<int, int>, GenerateError>, ghost bms: seq<BracketMatch>, ghost e: nat,
      ghost ranked: seq<SeedEntry>)
    requires service.Valid()
    modifies service
    ensures r.Ok? <==> existingCount == 0 && |regs| >= 2
    ensures r.Ok? ==> IsPersisted(e, ranked, bms, r.value, service.matches)
    ensures r.Ok? ==> IsInPlay(e, ranked, bms, r.value, service.matches) && |ranked| == |regs|
  {
    ghost var entries;
    r, bms, entries, e, ranked := service.GenerateBracket(existingCount, DoubleEliminationFormat, regs);
    if r.Ok? {
      PersistedBrackets.RankedRegistrations(e, regs, entries, ranked);
      PersistedIsInPlay(e, ranked, bms, r.value, service.matches);
    }
  }
}
