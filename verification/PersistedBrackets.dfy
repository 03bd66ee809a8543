/** The single-elimination brackets GenerateBracket persists, as brackets to be played: for any
    registrations they can be played safely, and to a champion exactly when all have a team. */
module PersistedBrackets {
  import opened Wrappers
  import opened PowersOfTwo
  import opened SeedOrder
  import opened Brackets
  import opened Scoring
  import opened MatchTable
  import opened BracketTree
  import opened SingleElimination
  import opened BracketService
  import opened ByePlacement
  import opened AdvanceRuns

  /** The table holds the bracket as the three passes leave it. */
  ghost predicate IsPersisted(e: nat, ranked: seq<SeedEntry>, bms: seq<BracketMatch>, idOf: map<int, int>, db: Table) {
    && IsSeeded(e, ranked) && IsBracket(e, ranked, bms)
    && Holds(db, idOf, ByePass(WiredRows(bms, idOf), bms, |bms|))
  }

  lemma {:induction false} PersistedFirstRound(e: nat, ranked: seq<SeedEntry>, bms: seq<BracketMatch>,
        idOf: map<int, int>, db: Table, m: int)
    requires IsPersisted(e, ranked, bms, idOf, db) && 1 <= m <= Pow2(e - 1)
    ensures m in idOf && idOf[m] in db
    ensures var (row, top) := (At(db, idOf, m), TopEntrant(e, ranked, m));
      && row.teams.team1Id == Positive(top.teamId)
      && (if IsByeMatch(e, ranked, m) then
            row.status == Completed && row.teams.team2Id == None && row.result.winnerTeamId == Positive(top.teamId)
          else
            && row.status == Scheduled && row.result == UNDECIDED
            && row.teams.team2Id == Positive(Entrant(ranked, SeedAt(e, 2 * (m - 1) + 1)).teamId))
  {
    FirstRoundAfterByes(e, ranked, bms, idOf, m);
    assert m in idOf && At(db, idOf, m) == ByePass(WiredRows(bms, idOf), bms, |bms|)[m - 1];
  }

  lemma {:induction false} PersistedLaterRound(e: nat, ranked: seq<SeedEntry>, bms: seq<BracketMatch>,
        idOf: map<int, int>, db: Table, m: int)
    requires IsPersisted(e, ranked, bms, idOf, db) && m in idOf && m > Pow2(e - 1)
    ensures idOf[m] in db && At(db, idOf, m).status == Scheduled && At(db, idOf, m).result == UNDECIDED
  {
    LaterRoundsAfterByes(e, ranked, bms, idOf, m, 1);
  }

  /** Whatever was registered, the table satisfies the invariant of all runs. */
  lemma {:induction false} PersistedBracketIsSafe(e: nat, ranked: seq<SeedEntry>, bms: seq<BracketMatch>,
        idOf: map<int, int>, db: Table)
    requires IsPersisted(e, ranked, bms, idOf, db)
    ensures Invariant(e, idOf, db)
  {
    assert forall m :: m in idOf <==> IsMatchNumber(e, m);
    forall m | m in idOf
      ensures At(db, idOf, m).wiring == BracketWiring(e, idOf, m) && IsRightlyDecided(At(db, idOf, m))
      ensures forall slot :: m > Pow2(e - 1) && 1 <= slot <= 2 ==> HoldsFeederWinner(e, idOf, db, m, slot)
    {
      PersistedWiring(e, ranked, bms, idOf, m);
      if m <= Pow2(e - 1) {
        PersistedFirstRound(e, ranked, bms, idOf, db, m);
      } else {
        PersistedLaterRound(e, ranked, bms, idOf, db, m);
        PersistedSlot(e, ranked, bms, idOf, db, m, 1);
        PersistedSlot(e, ranked, bms, idOf, db, m, 2);
      }
    }
  }

  lemma {:induction false} PersistedWiring(e: nat, ranked: seq<SeedEntry>, bms: seq<BracketMatch>,
        idOf: map<int, int>, m: int)
    requires IsSeeded(e, ranked) && IsBracket(e, ranked, bms) && IsMatchNumber(e, m)
    requires forall k :: k in idOf <==> IsMatchNumber(e, k)
    ensures ByePass(WiredRows(bms, idOf), bms, |bms|)[m - 1].wiring == BracketWiring(e, idOf, m)
  {
    var row := ByePass(WiredRows(bms, idOf), bms, |bms|)[m - 1];
    assert row == RowAfter(e, ranked, idOf, |bms|, m) by {
      ByePassRows(e, ranked, bms, idOf, |bms|);
    }
    RowAfterWiring(e, ranked, idOf, |bms|, m);
    WiringOfBracket(e, ranked, idOf, m);
  }

  lemma {:induction false} RowAfterWiring(e: nat, ranked: seq<SeedEntry>, idOf: map<int, int>, n: nat, m: int)
    requires IsMatchNumber(e, m)
    ensures RowAfter(e, ranked, idOf, n, m).wiring == WiringOf(BracketMatchAt(e, ranked, m), idOf)
  {
  }

  lemma {:induction false} WiringOfBracket(e: nat, ranked: seq<SeedEntry>, idOf: map<int, int>, m: int)
    requires IsMatchNumber(e, m)
    requires forall k :: k in idOf <==> IsMatchNumber(e, k)
    ensures WiringOf(BracketMatchAt(e, ranked, m), idOf) == BracketWiring(e, idOf, m)
  {
  }

  lemma {:induction false} PersistedSlot(e: nat, ranked: seq<SeedEntry>, bms: seq<BracketMatch>, idOf: map<int, int>,
        db: Table, m: int, slot: int)
    requires IsPersisted(e, ranked, bms, idOf, db)
    requires m in idOf && m > Pow2(e - 1) && 1 <= slot <= 2
    ensures HoldsFeederWinner(e, idOf, db, m, slot)
  {
    LaterRoundsAfterByes(e, ranked, bms, idOf, m, slot);
    FeederFeeds(e, m, slot);
    var feeder := Feeder(e, m, slot);
    if IsByeMatch(e, ranked, feeder) {
      PersistedFirstRound(e, ranked, bms, idOf, db, feeder);
    }
  }

  /** The first-round match of a rank. */
  function FirstMatch(e: nat, rank: int): int
    requires 1 <= rank <= Pow2(e)
  {
    Position(e, rank) / 2 + 1
  }

  /** A rank stands in one of the slots of its first match: a rank with a BYE in slot 1 of a BYE
      match. */
  lemma {:induction false} RankInFirstMatch(e: nat, ranked: seq<SeedEntry>, rank: int)
    requires IsSeeded(e, ranked) && 1 <= rank <= |ranked|
    ensures var m := FirstMatch(e, rank);
      && 1 <= m <= Pow2(e - 1) && IsMatchNumber(e, m)
      && (SeedAt(e, 2 * (m - 1)) == rank || (SeedAt(e, 2 * (m - 1) + 1) == rank && !IsByeMatch(e, ranked, m)))
      && (rank <= Pow2(e) - |ranked| <==> SeedAt(e, 2 * (m - 1)) == rank && IsByeMatch(e, ranked, m))
  {
    SeedAtPosition(e, rank);
    PairSum(e, Position(e, rank) / 2);
  }

  /** A match of the first round is ready if it has a winner or both its teams; one with an entrant
      without a team is not. */
  lemma {:induction false} ReadyFirstMatch(e: nat, ranked: seq<SeedEntry>, bms: seq<BracketMatch>,
        idOf: map<int, int>, db: Table, rank: int)
    requires IsPersisted(e, ranked, bms, idOf, db) && 1 <= rank <= |ranked| && ranked[rank - 1].teamId <= 0
    ensures FirstMatch(e, rank) in idOf && idOf[FirstMatch(e, rank)] in db && 1 <= FirstMatch(e, rank) <= Pow2(e - 1)
    ensures var row := At(db, idOf, FirstMatch(e, rank));
      && !HasWinner(row) && !BothSlotsFilled(row)
      && (rank <= Pow2(e) - |ranked| ==> IsFinished(row))
  {
    RankInFirstMatch(e, ranked, rank);
    PersistedFirstRound(e, ranked, bms, idOf, db, FirstMatch(e, rank));
  }

  /** Every ended match of the table has a winner exactly when every entrant with a BYE has a team. */
  lemma {:induction false} EndsAreWonIffByesHaveTeams(e: nat, ranked: seq<SeedEntry>, bms: seq<BracketMatch>,
        idOf: map<int, int>, db: Table)
    requires IsPersisted(e, ranked, bms, idOf, db)
    ensures EveryEndHasAWinner(idOf, db) <==> forall k :: 0 <= k < Pow2(e) - |ranked| ==> ranked[k].teamId > 0
  {
    if forall k :: 0 <= k < Pow2(e) - |ranked| ==> ranked[k].teamId > 0 {
      forall m | m in idOf && IsFinished(At(db, idOf, m)) ensures HasWinner(At(db, idOf, m)) {
        if m <= Pow2(e - 1) {
          PersistedFirstRound(e, ranked, bms, idOf, db, m);
        } else {
          PersistedLaterRound(e, ranked, bms, idOf, db, m);
        }
      }
    } else {
      var k :| 0 <= k < Pow2(e) - |ranked| && ranked[k].teamId <= 0;
      ReadyFirstMatch(e, ranked, bms, idOf, db, k + 1);
    }
  }

  /** The first round can be played exactly when every entrant has a team. */
  lemma {:induction false} FirstRoundIsFilledIffField(e: nat, ranked: seq<SeedEntry>, bms: seq<BracketMatch>,
        idOf: map<int, int>, db: Table)
    requires IsPersisted(e, ranked, bms, idOf, db)
    ensures FirstRoundIsFilled(e, idOf, db) <==> IsField(e, ranked)
  {
    if IsField(e, ranked) {
      forall m | 1 <= m <= Pow2(e - 1)
        ensures m in idOf && idOf[m] in db && (HasWinner(At(db, idOf, m)) || BothSlotsFilled(At(db, idOf, m)))
      {
        PersistedFirstRound(e, ranked, bms, idOf, db, m);
        PairSum(e, m - 1);
      }
    } else {
      var k :| 0 <= k < |ranked| && ranked[k].teamId <= 0;
      ReadyFirstMatch(e, ranked, bms, idOf, db, k + 1);
    }
  }

  /** With teams throughout, the table is a bracket ready to be played, its BYE matches won. */
  lemma {:induction false} PersistedBracketIsReady(e: nat, ranked: seq<SeedEntry>, bms: seq<BracketMatch>,
        idOf: map<int, int>, db: Table)
    requires IsPersisted(e, ranked, bms, idOf, db)
    ensures Invariant(e, idOf, db)
    ensures FirstRoundIsFilled(e, idOf, db) && EveryEndHasAWinner(idOf, db) <==> IsField(e, ranked)
  {
    PersistedBracketIsSafe(e, ranked, bms, idOf, db);
    FirstRoundIsFilledIffField(e, ranked, bms, idOf, db);
    EndsAreWonIffByesHaveTeams(e, ranked, bms, idOf, db);
  }

  /** A match of the first round without both its teams is never won. */
  lemma {:induction false} MissingTeamMeansNoWinner(e: nat, idOf: map<int, int>, db: Table, steps: seq<Step>, m: int)
    requires Invariant(e, idOf, db) && IsRun(e, idOf, db, steps) && 1 <= m <= Pow2(e - 1) && m in idOf
    requires !HasWinner(At(db, idOf, m)) && !BothSlotsFilled(At(db, idOf, m))
    ensures idOf[m] in DoAll(idOf, db, steps) && !HasWinner(At(DoAll(idOf, db, steps), idOf, m))
    decreases |steps|
  {
    if steps != [] {
      StepKeepsInvariant(e, idOf, db, steps[0]);
      StepKeepsFirstRoundTeams(e, idOf, db, steps[0], m);
      if steps[0].Advance? {
        AdvanceKeepsDecision(e, idOf, db, steps[0].m, m);
      }
      MissingTeamMeansNoWinner(e, idOf, Do(idOf, db, steps[0]), steps[1..], m);
    }
  }

  /** No step touches the teams of the first round. */
  lemma {:induction false} StepKeepsFirstRoundTeams(e: nat, idOf: map<int, int>, db: Table, step: Step, m: int)
    requires Invariant(e, idOf, db) && IsEnabled(e, idOf, db, step) && 1 <= m <= Pow2(e - 1) && m in idOf
    ensures idOf[m] in Do(idOf, db, step) && At(Do(idOf, db, step), idOf, m).teams == At(db, idOf, m).teams
  {
    if step.Advance? {
      AdvanceKeepsDecision(e, idOf, db, step.m, m);
      NextIsOneRoundOn(e, step.m);
    }
  }

  /** Played to rest from what GenerateBracket persists, a bracket has a champion exactly when every
      entrant had a team and no match was closed without a winner. */
  lemma {:induction false} ChampionIffFieldAndNoneClosed(e: nat, ranked: seq<SeedEntry>, bms: seq<BracketMatch>,
        idOf: map<int, int>, db: Table, steps: seq<Step>)
    requires IsPersisted(e, ranked, bms, idOf, db)
    requires IsRun(e, idOf, db, steps) && IsQuiet(e, idOf, DoAll(idOf, db, steps))
    ensures Pow2(e) - 1 in idOf && idOf[Pow2(e) - 1] in DoAll(idOf, db, steps)
    ensures HasWinner(At(DoAll(idOf, db, steps), idOf, Pow2(e) - 1)) <==> IsField(e, ranked) && !Closes(steps)
  {
    PersistedBracketIsReady(e, ranked, bms, idOf, db);
    if IsField(e, ranked) {
      ChampionIffNoneClosed(e, idOf, db, steps);
    } else {
      NoFieldNoChampion(e, ranked, bms, idOf, db, steps);
    }
  }

  lemma {:induction false} NoFieldNoChampion(e: nat, ranked: seq<SeedEntry>, bms: seq<BracketMatch>,
        idOf: map<int, int>, db: Table, steps: seq<Step>)
    requires IsPersisted(e, ranked, bms, idOf, db) && IsRun(e, idOf, db, steps) && !IsField(e, ranked)
    ensures Pow2(e) - 1 in idOf && idOf[Pow2(e) - 1] in DoAll(idOf, db, steps)
    ensures !HasWinner(At(DoAll(idOf, db, steps), idOf, Pow2(e) - 1))
  {
    PersistedBracketIsSafe(e, ranked, bms, idOf, db);
    RunsAreSafe(e, idOf, db, steps);
    assert IsMatchNumber(e, Pow2(e) - 1);
    var m := MatchWithoutWinner(e, ranked, bms, idOf, db, steps);
    if HasWinner(At(DoAll(idOf, db, steps), idOf, Pow2(e) - 1)) {
      ChampionNeedsAllWinners(e, idOf, DoAll(idOf, db, steps), m);
    }
  }

  lemma {:induction false} UnreadyMatch(e: nat, ranked: seq<SeedEntry>, bms: seq<BracketMatch>,
        idOf: map<int, int>, db: Table)
    returns (m: int)
    requires IsPersisted(e, ranked, bms, idOf, db) && !IsField(e, ranked)
    ensures 1 <= m <= Pow2(e - 1) && m in idOf && idOf[m] in db
    ensures !HasWinner(At(db, idOf, m)) && !BothSlotsFilled(At(db, idOf, m))
  {
    var k :| 0 <= k < |ranked| && ranked[k].teamId <= 0;
    m := FirstMatch(e, k + 1);
    ReadyFirstMatch(e, ranked, bms, idOf, db, k + 1);
  }

  lemma {:induction false} MatchWithoutWinner(e: nat, ranked: seq<SeedEntry>, bms: seq<BracketMatch>,
        idOf: map<int, int>, db: Table, steps: seq<Step>)
    returns (m: int)
    requires IsPersisted(e, ranked, bms, idOf, db) && IsRun(e, idOf, db, steps) && !IsField(e, ranked)
    ensures m in idOf && idOf[m] in DoAll(idOf, db, steps) && !HasWinner(At(DoAll(idOf, db, steps), idOf, m))
  {
    m := UnreadyMatch(e, ranked, bms, idOf, db);
    PersistedBracketIsSafe(e, ranked, bms, idOf, db);
    MissingTeamMeansNoWinner(e, idOf, db, steps, m);
  }

  predicate AllHaveTeams(regs: seq<Registration>) {
    forall i :: 0 <= i < |regs| ==> regs[i].teamId.Some? && regs[i].teamId.value > 0
  }

  /** The entries of registrations, ranked by seed: seeds are positive, and teams are if and only if
      every registration has one. */
  lemma {:induction false} RankedRegistrations(e: nat, regs: seq<Registration>, entries: seq<SeedEntry>,
        ranked: seq<SeedEntry>)
    requires e >= 1 && Pow2(e - 1) < |entries| <= Pow2(e) && |entries| == |regs| && IsRanking(entries, ranked)
    requires forall i :: 0 <= i < |entries| ==> IsEntryOf(entries[i], regs[i], i + 1)
    ensures IsSeeded(e, ranked)
    ensures IsField(e, ranked) <==> AllHaveTeams(regs)
  {
    forall x ensures x in ranked <==> x in entries {
      assert x in multiset(ranked) <==> x in multiset(entries);
    }
    forall i | 0 <= i < |ranked| ensures ranked[i].seed > 0 {
      assert ranked[i] in entries;
    }
    if AllHaveTeams(regs) {
      forall i | 0 <= i < |ranked| ensures ranked[i].teamId > 0 {
        assert ranked[i] in entries;
      }
    }
    if IsField(e, ranked) {
      forall i | 0 <= i < |regs| ensures regs[i].teamId.Some? && regs[i].teamId.value > 0 {
        assert entries[i] in ranked;
      }
    }
  }

  /** Generating a single-elimination bracket from registrations leaves a table that all runs keep
      safe, and that is ready to be played to a champion exactly when all registrations have a team. */
  method GenerateReady(service: Service, existingCount: nat, regs: seq<Registration>)
    returns (r: Result<map<int, int>, GenerateError>, ghost bms: seq<BracketMatch>, ghost e: nat,
      ghost ranked: seq<SeedEntry>)
    requires service.Valid()
    modifies service
    ensures r.Ok? <==> existingCount == 0 && |regs| >= 2
    ensures r.Ok? ==> IsPersisted(e, ranked, bms, r.value, service.matches) && Invariant(e, r.value, service.matches)
    ensures r.Ok? ==> (IsField(e, ranked) <==> AllHaveTeams(regs))
    ensures r.Ok? ==>
      var db := service.matches;
      FirstRoundIsFilled(e, r.value, db) && EveryEndHasAWinner(r.value, db) <==> AllHaveTeams(regs)
  {
    ghost var entries;
    r, bms, entries, e, ranked := service.GenerateBracket(existingCount, SingleEliminationFormat, regs);
    if r.Ok? {
      RankedRegistrations(e, regs, entries, ranked);
      PersistedBracketIsReady(e, ranked, bms, r.value, service.matches);
    }
  }
}
