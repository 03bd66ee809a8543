/** The round robins GenerateBracket persists: as many rows as there are pairs, one for every pair of
    teams, none of them wired. */
module RoundRobinRows {
  import opened Wrappers
  import opened Brackets
  import opened Scoring
  import opened MatchTable
  import opened RoundRobin
  import opened BracketService

  /** The table holds the schedule of these registrations as the three passes leave it. */
  ghost predicate IsPersisted(regs: seq<Registration>, entries: seq<SeedEntry>, bms: seq<BracketMatch>,
        idOf: map<int, int>, db: map<int, MatchRow>)
  {
    && |regs| == |entries| >= 2
    && (forall i :: 0 <= i < |entries| ==> IsEntryOf(entries[i], regs[i], i + 1))
    && AreMatchesOfGames(Participants(entries), bms, Schedule(entries))
    && BracketService.Holds(db, idOf, ByePass(WiredRows(bms, idOf), bms, |bms|))
  }

  /** Without BYE matches the third pass does nothing. */
  lemma {:induction false} NoByesNoPass(bms: seq<BracketMatch>, rows: seq<MatchRow>, n: nat)
    requires n <= |bms| == |rows| && forall i :: 0 <= i < |bms| ==> !bms[i].isBye
    ensures ByePass(rows, bms, n) == rows
    decreases n
  {
    if n > 0 {
      NoByesNoPass(bms, rows, n - 1);
    }
  }

  /** The team of a registration, if it has one. */
  function TeamOf(reg: Registration): Option<int> {
    match reg.teamId
    case Some(id) => Positive(id)
    case None => None
  }

  /** Its positive seed, or its place in the list. */
  function SeedOf(regs: seq<Registration>, i: nat): int
    requires i < |regs|
  {
    match regs[i].seed
    case Some(seed) => if seed > 0 then seed else i + 1
    case None => i + 1
  }

  lemma {:induction false} MatchOfGame(regs: seq<Registration>, entries: seq<SeedEntry>, bms: seq<BracketMatch>, k: nat)
    requires |regs| == |entries| >= 2 && k < |bms|
    requires forall i :: 0 <= i < |entries| ==> IsEntryOf(entries[i], regs[i], i + 1)
    requires AreMatchesOfGames(Participants(entries), bms, Schedule(entries))
    ensures var (bm, g) := (bms[k], Schedule(entries)[k]);
      && 0 <= g.home < |regs| && 0 <= g.away < |regs|
      && CreatedRow(bm).teams == TeamColumns(TeamOf(regs[g.home]), TeamOf(regs[g.away]),
        Some(SeedOf(regs, g.home)), Some(SeedOf(regs, g.away)))
      && bm.matchNumber == k + 1 && !bm.isBye && bm.nextMatchNumber == 0 && bm.loserNextMatchNumber == 0
  {
    NobodyPlaysTwiceInARound(entries, k, k);
    var g := Schedule(entries)[k];
    assert IsEntryOf(entries[g.home], regs[g.home], g.home + 1) && IsEntryOf(entries[g.away], regs[g.away], g.away + 1);
  }

  /** Row k is that of the k-th game, waiting to be played and leading nowhere: the first team is that of
      the registration at home, the second that of the other, with their seeds. */
  lemma {:induction false} RowOfGame(regs: seq<Registration>, entries: seq<SeedEntry>, bms: seq<BracketMatch>,
        idOf: map<int, int>, db: map<int, MatchRow>, k: int)
    requires IsPersisted(regs, entries, bms, idOf, db) && 1 <= k <= |bms|
    ensures k in idOf && idOf[k] in db && |bms| == |Schedule(entries)|
    ensures var (row, g) := (db[idOf[k]], Schedule(entries)[k - 1]);
      && 0 <= g.home < |regs| && 0 <= g.away < |regs|
      && row.teams == TeamColumns(TeamOf(regs[g.home]), TeamOf(regs[g.away]),
        Some(SeedOf(regs, g.home)), Some(SeedOf(regs, g.away)))
      && row.matchNumber == Some(k) && row.status == Scheduled && row.wiring == UNWIRED && row.result == UNDECIDED
  {
    NoByesNoPass(bms, WiredRows(bms, idOf), |bms|);
    assert k in idOf && db[idOf[k]] == WiredRow(bms[k - 1], idOf);
    MatchOfGame(regs, entries, bms, k - 1);
  }

  /** Every team is registered once. */
  predicate HaveDistinctTeams(regs: seq<Registration>) {
    forall i, j :: 0 <= i < j < |regs| && regs[i].teamId.Some? ==> regs[i].teamId != regs[j].teamId
  }

  predicate Meet(row: MatchRow, team: int, team': int) {
    || (row.teams.team1Id == Some(team) && row.teams.team2Id == Some(team'))
    || (row.teams.team1Id == Some(team') && row.teams.team2Id == Some(team))
  }

  /** In the stored rows every two registered teams meet in exactly one match, whatever their seeds and
      the other registrations. */
  lemma {:induction false} EveryTwoTeamsMeetOnce(regs: seq<Registration>, entries: seq<SeedEntry>,
        bms: seq<BracketMatch>, idOf: map<int, int>, db: map<int, MatchRow>, x: nat, y: nat)
    returns (k: int)
    requires IsPersisted(regs, entries, bms, idOf, db) && HaveDistinctTeams(regs)
    requires x < y < |regs| && regs[x].teamId.Some? && regs[x].teamId.value > 0
    requires regs[y].teamId.Some? && regs[y].teamId.value > 0
    ensures 1 <= k <= |bms| && k in idOf && idOf[k] in db
    ensures Meet(db[idOf[k]], regs[x].teamId.value, regs[y].teamId.value)
    ensures forall j :: j in idOf && j != k ==>
      idOf[j] in db && !Meet(db[idOf[j]], regs[x].teamId.value, regs[y].teamId.value)
  {
    var g := EveryPairPlaysOnce(entries, x, y);
    k := g + 1;
    RowOfGame(regs, entries, bms, idOf, db, k);
    forall j | j in idOf && j != k
      ensures idOf[j] in db && !Meet(db[idOf[j]], regs[x].teamId.value, regs[y].teamId.value)
    {
      RowOfGame(regs, entries, bms, idOf, db, j);
      var other := Schedule(entries)[j - 1];
      OnlyRegistrationOfTeam(regs, x, other.home);
      OnlyRegistrationOfTeam(regs, x, other.away);
      OnlyRegistrationOfTeam(regs, y, other.home);
      OnlyRegistrationOfTeam(regs, y, other.away);
      assert Meet(db[idOf[j]], regs[x].teamId.value, regs[y].teamId.value) ==> Joins(other, x, y);
    }
  }

  lemma {:induction false} OnlyRegistrationOfTeam(regs: seq<Registration>, x: nat, i: nat)
    requires HaveDistinctTeams(regs) && x < |regs| && i < |regs|
    requires regs[x].teamId.Some? && regs[x].teamId.value > 0
    ensures TeamOf(regs[i]) == regs[x].teamId <==> i == x
  {
  }

  /** There are n * (n - 1) / 2 rows for n registrations. */
  lemma {:induction false} RowsAreCounted(regs: seq<Registration>, entries: seq<SeedEntry>, bms: seq<BracketMatch>,
        idOf: map<int, int>, db: map<int, MatchRow>)
    requires IsPersisted(regs, entries, bms, idOf, db)
    ensures 2 * |bms| == |regs| * (|regs| - 1) && forall k :: k in idOf <==> 1 <= k <= |bms|
  {
    GamesAreCounted(entries);
  }

  /** Generating a round robin from registrations leaves such a table. */
  method GenerateSchedule(service: Service, existingCount: nat, regs: seq<Registration>)
    returns (r: Result<map<int, int>, GenerateError>, ghost bms: seq<BracketMatch>, ghost entries: seq<SeedEntry>)
    requires service.Valid()
    modifies service
    ensures r.Ok? <==> existingCount == 0 && |regs| >= 2
    ensures r.Ok? ==> IsPersisted(regs, entries, bms, r.value, service.matches)
    ensures r.Ok? ==> 2 * |bms| == |regs| * (|regs| - 1)
  {
    ghost var e, ranked;
    r, bms, entries, e, ranked := service.GenerateBracket(existingCount, RoundRobinFormat, regs);
    if r.Ok? {
      RowsAreCounted(regs, entries, bms, r.value, service.matches);
    }
  }
}
