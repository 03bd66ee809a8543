/** The bracket service: persisting a generated bracket in three passes, and AdvanceWinner. */
module BracketService {
  import opened Wrappers
  import opened PowersOfTwo
  import opened Brackets
  import opened Scoring
  import opened MatchTable
  import opened BracketTree
  import opened SingleElimination
  import DoubleElimination
  import RoundRobin

  datatype Format =
    | SingleEliminationFormat
    | DoubleEliminationFormat
    | RoundRobinFormat
    | UnsupportedFormat(name: string)

  datatype Registration = Registration(seed: Option<int>, teamId: Option<int>)

  datatype GenerateError = AlreadyGenerated | TooFewTeams | Unsupported(name: string)

  datatype AdvanceError = MatchNotFound | NotFinished | NoWinner | NextMatchMissing

  function Positive(x: int): Option<int> {
    if x > 0 then Some(x) else None
  }

  /** The row the first pass creates: teams and seeds where known, no wiring yet. */
  function CreatedRow(bm: BracketMatch): MatchRow {
    MatchRow(
      Some(bm.matchNumber),
      Scheduled,
      ScoringColumns(0, 0, 1, 1, None, None, Games([])),
      RuleColumns(false, 11, 2, None, 1, 1, None),
      TeamColumns(Positive(bm.team1TeamId), Positive(bm.team2TeamId), Positive(bm.team1Seed), Positive(bm.team2Seed)),
      UNWIRED,
      UNDECIDED)
  }

  function Lookup(idOf: map<int, int>, number: int): Option<int> {
    if number > 0 && number in idOf then Some(idOf[number]) else None
  }

  function WiringOf(bm: BracketMatch, idOf: map<int, int>): WiringColumns {
    var next, loserNext := Lookup(idOf, bm.nextMatchNumber), Lookup(idOf, bm.loserNextMatchNumber);
    WiringColumns(
      next, if next.Some? then Some(bm.nextMatchSlot) else None,
      loserNext, if loserNext.Some? then Some(bm.loserNextMatchSlot) else None)
  }

  /** The row after the second pass. */
  function WiredRow(bm: BracketMatch, idOf: map<int, int>): MatchRow {
    CreatedRow(bm).(wiring := WiringOf(bm, idOf))
  }

  function FillSlot(teams: TeamColumns, slot: int, teamId: int): TeamColumns {
    if slot == 1 then teams.(team1Id := Some(teamId)) else teams.(team2Id := Some(teamId))
  }

  function FillSlotAndSeed(teams: TeamColumns, slot: int, teamId: int, seed: int): TeamColumns {
    if slot == 1 then teams.(team1Id := Some(teamId), team1Seed := Some(seed))
    else teams.(team2Id := Some(teamId), team2Seed := Some(seed))
  }

  function TeamInSlot(teams: TeamColumns, slot: int): Option<int> {
    if slot == 1 then teams.team1Id else teams.team2Id
  }

  /** Who waits in a BYE match; 0 for nobody. */
  function ByeWinner(bm: BracketMatch): int {
    if bm.team1TeamId > 0 && bm.team2Seed == 0 then bm.team1TeamId
    else if bm.team2TeamId > 0 && bm.team1Seed == 0 then bm.team2TeamId
    else 0
  }

  /** The generated matches are numbered in list order, as every generator does. */
  ghost predicate IsNumbered(bms: seq<BracketMatch>) {
    forall i :: 0 <= i < |bms| ==> bms[i].matchNumber == i + 1
  }

  /** The database holds exactly these rows for the bracket, row i under the id of match i + 1. */
  ghost predicate Holds(db: map<int, MatchRow>, idOf: map<int, int>, rows: seq<MatchRow>) {
    && (forall m :: m in idOf <==> 1 <= m <= |rows|)
    && (forall m, m' :: m in idOf && m' in idOf && m != m' ==> idOf[m] != idOf[m'])
    && (forall m :: m in idOf ==> idOf[m] in db && db[idOf[m]] == rows[m - 1])
  }

  lemma {:induction false} HoldsUpdated(db: map<int, MatchRow>, idOf: map<int, int>, rows: seq<MatchRow>, i: nat,
        row: MatchRow)
    requires Holds(db, idOf, rows) && i < |rows|
    ensures i + 1 in idOf && Holds(db[idOf[i + 1] := row], idOf, rows[i := row])
  {
  }

  lemma {:induction false} HoldsAppended(db: map<int, MatchRow>, idOf: map<int, int>, rows: seq<MatchRow>, id: int,
        row: MatchRow)
    requires Holds(db, idOf, rows) && id !in db
    ensures Holds(db[id := row], idOf[|rows| + 1 := id], rows + [row])
  {
  }

  ghost predicate IsBracketId(idOf: map<int, int>, id: int) {
    exists m :: m in idOf && idOf[m] == id
  }

  /** The third pass on one match: a BYE match with a next match is completed; if somebody waits
      in it, that team wins it and takes its slot of the next match, seed included. */
  function ByeStep(rows: seq<MatchRow>, bm: BracketMatch, i: nat): (after: seq<MatchRow>)
    requires i < |rows|
    ensures |after| == |rows|
  {
    if !bm.isBye || bm.nextMatchNumber == 0 then rows
    else
      var completed := rows[i := rows[i].(status := Completed)];
      if !(1 <= bm.nextMatchNumber <= |rows|) || ByeWinner(bm) == 0 then completed
      else ByeWon(completed, bm, i)
  }

  /** The waiting team wins the BYE match i and takes its slot of the next match, seed included. */
  function ByeWon(rows: seq<MatchRow>, bm: BracketMatch, i: nat): (after: seq<MatchRow>)
    requires i < |rows| && 1 <= bm.nextMatchNumber <= |rows|
    ensures |after| == |rows|
  {
    var next, winner := bm.nextMatchNumber - 1, ByeWinner(bm);
    var won := rows[i := WithResult(rows[i], Some(winner), None, ByBye)];
    won[next := won[next].(teams := FillSlotAndSeed(won[next].teams, bm.nextMatchSlot, winner, bm.byeWinnerSeed))]
  }

  function ByePass(rows: seq<MatchRow>, bms: seq<BracketMatch>, n: nat): (after: seq<MatchRow>)
    requires n <= |bms| == |rows|
    ensures |after| == |rows|
  {
    if n == 0 then rows else ByeStep(ByePass(rows, bms, n - 1), bms[n - 1], n - 1)
  }

  function WiredRows(bms: seq<BracketMatch>, idOf: map<int, int>): seq<MatchRow> {
    seq(|bms|, i requires 0 <= i < |bms| => WiredRow(bms[i], idOf))
  }

  /** The rows when the second pass has wired the first n of them. */
  function HalfWired(bms: seq<BracketMatch>, idOf: map<int, int>, n: nat): seq<MatchRow> {
    seq(|bms|, i requires 0 <= i < |bms| => if i < n then WiredRow(bms[i], idOf) else CreatedRow(bms[i]))
  }

  /** One AdvanceWinner transaction on the whole table: the winner goes to its slot of the next
      match, then the loser to its slot of the losers match; any error leaves the table alone. */
  function Advanced(db: map<int, MatchRow>, matchId: int): Result<map<int, MatchRow>, AdvanceError> {
    if matchId !in db then Err(MatchNotFound)
    else
      var row := db[matchId];
      if row.status != Completed && row.status != Forfeited then Err(NotFinished)
      else if row.result.winnerTeamId.None? then Err(NoWinner)
      else if row.wiring.nextMatchId.Some? && row.wiring.nextMatchId.value !in db then Err(NextMatchMissing)
      else
        var db1 :=
          if row.wiring.nextMatchId.None? then db
          else
            var next := row.wiring.nextMatchId.value;
            db[next := db[next].(teams := FillSlot(db[next].teams, NextSlot(row), row.result.winnerTeamId.value))];
        if row.wiring.loserNextMatchId.None? || row.result.loserTeamId.None? then Ok(db1)
        else
          var next := row.wiring.loserNextMatchId.value;
          if next !in db1 then Err(NextMatchMissing)
          else
            Ok(db1[next := db1[next].(
              teams := FillSlot(db1[next].teams, LoserSlot(row), row.result.loserTeamId.value))])
  }

  /** The wired slot, or the parity of the match number where none is wired. */
  function NextSlot(row: MatchRow): int {
    match row.wiring.nextMatchSlot
    case Some(slot) => slot
    case None => match row.matchNumber { case Some(number) => DetermineSlotInNextMatch(number) case None => 1 }
  }

  /** AdvanceWinner accepts a finished match with a winner, whether it is wired or not, as long as the
      rows it sends to exist; a loser needs a row only if there is one to send. */
  lemma {:induction false} AdvanceIsAccepted(db: map<int, MatchRow>, matchId: int)
    ensures Advanced(db, matchId).Ok? <==>
      && matchId in db && (db[matchId].status == Completed || db[matchId].status == Forfeited)
      && db[matchId].result.winnerTeamId.Some?
      && (db[matchId].wiring.nextMatchId.Some? ==> db[matchId].wiring.nextMatchId.value in db)
      && (db[matchId].wiring.loserNextMatchId.Some? && db[matchId].result.loserTeamId.Some? ==>
        db[matchId].wiring.loserNextMatchId.value in db)
    ensures Advanced(db, matchId) == Err(MatchNotFound) <==> matchId !in db
    ensures Advanced(db, matchId) == Err(NotFinished) <==>
      matchId in db && db[matchId].status != Completed && db[matchId].status != Forfeited
    ensures Advanced(db, matchId) == Err(NoWinner) <==>
      && matchId in db && (db[matchId].status == Completed || db[matchId].status == Forfeited)
      && db[matchId].result.winnerTeamId.None?
  {
  }

  /** The slot a loser goes to; slot 1 if none is wired. */
  function LoserSlot(row: MatchRow): int {
    match row.wiring.loserNextMatchSlot { case Some(slot) => slot case None => 1 }
  }

  /** Is slot 1 wired, or no slot where slot 1 is the fallback? */
  predicate IsFirstSlot(slot: Option<int>, fallback: bool) {
    slot == Some(1) || (slot.None? && fallback)
  }

  /** Does a match send its winner to a slot of a row? Any slot number but 1 means slot 2; without one
      the winners of odd matches, and of matches without a number, go to slot 1. */
  predicate SendsWinner(row: MatchRow, id: int, slot: int) {
    var isOdd := row.matchNumber.None? || (row.matchNumber.value > 0 && row.matchNumber.value % 2 == 1);
    row.wiring.nextMatchId == Some(id) && (IsFirstSlot(row.wiring.nextMatchSlot, isOdd) <==> slot == 1)
  }

  /** Does it send its loser there? Losers without a slot go to slot 1. */
  predicate SendsLoser(row: MatchRow, id: int, slot: int) {
    && row.wiring.loserNextMatchId == Some(id) && row.result.loserTeamId.Some?
    && (IsFirstSlot(row.wiring.loserNextMatchSlot, true) <==> slot == 1)
  }

  ghost predicate SendsTeamTo(row: MatchRow, id: int) {
    exists slot :: 1 <= slot <= 2 && (SendsWinner(row, id, slot) || SendsLoser(row, id, slot))
  }

  /** A committed AdvanceWinner writes at most one slot of at most two rows: the winner into its slot of
      the next match, the loser into its slot of the losers match, if both go to one slot the loser.
      Everything else, seeds and a sibling's slot included, stays as it is. */
  lemma {:induction false} AdvanceWritesOnlyItsSlots(db: map<int, MatchRow>, matchId: int)
    requires Advanced(db, matchId).Ok?
    ensures matchId in db && db[matchId].result.winnerTeamId.Some?
    ensures var (row, after) := (db[matchId], Advanced(db, matchId).value);
      && after.Keys == db.Keys
      && (forall id :: id in db ==> after[id] == db[id].(
        teams := db[id].teams.(team1Id := after[id].teams.team1Id, team2Id := after[id].teams.team2Id)))
      && (forall id, slot :: id in db && 1 <= slot <= 2 ==>
        TeamInSlot(after[id].teams, slot) ==
          if SendsLoser(row, id, slot) then row.result.loserTeamId
          else if SendsWinner(row, id, slot) then row.result.winnerTeamId
          else TeamInSlot(db[id].teams, slot))
  {
  }

  /** The rows AdvanceWinner locks, in order. */
  function LocksOf(row: MatchRow, matchId: int): seq<int> {
    [matchId]
    + (match row.wiring.nextMatchId { case Some(next) => [next] case None => [] })
    + (if row.wiring.loserNextMatchId.Some? && row.result.loserTeamId.Some?
       then [row.wiring.loserNextMatchId.value] else [])
  }

  /** The locked rows are the match itself and the rows it sends to; no other row is ever changed. */
  lemma {:induction false} ChangedRowsAreLocked(db: map<int, MatchRow>, matchId: int, id: int)
    requires Advanced(db, matchId).Ok? && id in db
    ensures matchId in db && id in Advanced(db, matchId).value
    ensures id in LocksOf(db[matchId], matchId) <==> id == matchId || SendsTeamTo(db[matchId], id)
    ensures Advanced(db, matchId).value[id] != db[id] ==> id in LocksOf(db[matchId], matchId)
  {
    var row := db[matchId];
    AdvanceWritesOnlyItsSlots(db, matchId);
    var (a, b) := (if NextSlot(row) == 1 then 1 else 2, if LoserSlot(row) == 1 then 1 else 2);
    assert row.wiring.nextMatchId == Some(id) <==> SendsWinner(row, id, a);
    assert row.wiring.loserNextMatchId == Some(id) && row.result.loserTeamId.Some? <==> SendsLoser(row, id, b);
  }

  /** The match with its slots exchanged. */
  function Mirrored(bm: BracketMatch): BracketMatch {
    bm.(team1Seed := bm.team2Seed, team2Seed := bm.team1Seed,
        team1TeamId := bm.team2TeamId, team2TeamId := bm.team1TeamId)
  }

  /** A BYE match is won from either slot alike: by a team, if nobody is seeded in the other slot. */
  lemma {:induction false} ByeWinnerIsEitherSide(bm: BracketMatch)
    ensures ByeWinner(bm) >= 0
    ensures ByeWinner(bm) > 0 <==>
      (bm.team1TeamId > 0 && bm.team2Seed == 0) || (bm.team2TeamId > 0 && bm.team1Seed == 0)
    ensures bm.team1TeamId > 0 && bm.team2Seed == 0 ==> ByeWinner(bm) == bm.team1TeamId
    ensures bm.team1Seed != 0 || bm.team2Seed != 0 ==> ByeWinner(Mirrored(bm)) == ByeWinner(bm)
  {
  }

  /** An entry keeps its registration's positive seed, or else is seeded by its place in the list;
      it keeps the team. */
  predicate IsEntryOf(entry: SeedEntry, reg: Registration, place: int) {
    && entry.seed == (if reg.seed.Some? && reg.seed.value > 0 then reg.seed.value else place)
    && entry.teamId == match reg.teamId { case Some(id) => id case None => 0 }
  }

  class Service {
    var matches: map<int, MatchRow>
    var nextId: int

    ghost predicate Valid()
      reads this
    {
      nextId > 0 && forall id :: id in matches ==> id < nextId
    }

    constructor ()
      ensures Valid() && matches == map[]
    {
      matches := map[];
      nextId := 1;
    }

    /** CreateMatch: a new row under a fresh id. */
    method CreateMatch(row: MatchRow) returns (id: int)
      requires Valid()
      modifies this
      ensures Valid() && id !in old(matches) && matches == old(matches)[id := row]
    {
      id := nextId;
      matches := matches[id := row];
      nextId := nextId + 1;
    }

    /** First pass: create all matches, without wiring. */
    method CreateMatches(bms: seq<BracketMatch>) returns (idOf: map<int, int>)
      requires Valid() && IsNumbered(bms)
      modifies this
      ensures Valid()
      ensures Holds(matches, idOf, seq(|bms|, i requires 0 <= i < |bms| => CreatedRow(bms[i])))
      ensures forall id :: id in old(matches) ==> id in matches && matches[id] == old(matches)[id]
      ensures forall m :: m in idOf ==> idOf[m] !in old(matches)
    {
      idOf := map[];
      for i := 0 to |bms|
        invariant Valid()
        invariant Holds(matches, idOf, seq(i, k requires 0 <= k < i => CreatedRow(bms[k])))
        invariant forall id :: id in old(matches) ==> id in matches && matches[id] == old(matches)[id]
        invariant forall m :: m in idOf ==> idOf[m] !in old(matches)
      {
        ghost var before, created := matches, seq(i, k requires 0 <= k < i => CreatedRow(bms[k]));
        var id := CreateMatch(CreatedRow(bms[i]));
        HoldsAppended(before, idOf, created, id, CreatedRow(bms[i]));
        idOf := idOf[bms[i].matchNumber := id];
        assert seq(i + 1, k requires 0 <= k < i + 1 => CreatedRow(bms[k])) == created + [CreatedRow(bms[i])];
      }
    }

    /** Second pass: wire next and loser-next matches by their ids. */
    method WireMatches(bms: seq<BracketMatch>, idOf: map<int, int>)
      requires Valid() && IsNumbered(bms)
      requires Holds(matches, idOf, seq(|bms|, i requires 0 <= i < |bms| => CreatedRow(bms[i])))
      modifies this`matches
      ensures Valid() && Holds(matches, idOf, WiredRows(bms, idOf))
      ensures matches.Keys == old(matches.Keys)
      ensures forall id :: id in old(matches) && !IsBracketId(idOf, id) ==> matches[id] == old(matches)[id]
    {
      for i := 0 to |bms|
        invariant Valid() && matches.Keys == old(matches.Keys)
        invariant Holds(matches, idOf, HalfWired(bms, idOf, i))
        invariant forall id :: id in old(matches) && !IsBracketId(idOf, id) ==> matches[id] == old(matches)[id]
      {
        WireMatch(bms[i], idOf, i, HalfWired(bms, idOf, i));
        assert HalfWired(bms, idOf, i + 1) == HalfWired(bms, idOf, i)[i := WiredRow(bms[i], idOf)];
      }
      assert HalfWired(bms, idOf, |bms|) == WiredRows(bms, idOf);
    }

    /** One update query on the row of a match of the bracket. */
    method UpdateMatch(idOf: map<int, int>, matchNumber: int, row: MatchRow, ghost rows: seq<MatchRow>)
      requires Valid() && matchNumber in idOf && Holds(matches, idOf, rows)
      modifies this`matches
      ensures Valid() && 1 <= matchNumber <= |rows| && Holds(matches, idOf, rows[matchNumber - 1 := row])
      ensures matches == old(matches)[idOf[matchNumber] := row] && matches.Keys == old(matches.Keys)
      ensures forall id :: id in old(matches) && !IsBracketId(idOf, id) ==> matches[id] == old(matches)[id]
    {
      HoldsUpdated(matches, idOf, rows, matchNumber - 1, row);
      matches := matches[idOf[matchNumber] := row];
    }

    method WireMatch(bm: BracketMatch, idOf: map<int, int>, ghost i: nat, ghost rows: seq<MatchRow>)
      requires Valid() && i < |rows| && bm.matchNumber == i + 1 && rows[i] == CreatedRow(bm)
        && Holds(matches, idOf, rows)
      modifies this`matches
      ensures Valid() && Holds(matches, idOf, rows[i := WiredRow(bm, idOf)])
      ensures matches.Keys == old(matches.Keys)
      ensures forall id :: id in old(matches) && !IsBracketId(idOf, id) ==> matches[id] == old(matches)[id]
    {
      var row := matches[idOf[bm.matchNumber]];
      var wiring := UNWIRED;
      var needsUpdate := false;
      if bm.nextMatchNumber > 0 && bm.nextMatchNumber in idOf {
        wiring := wiring.(nextMatchId := Some(idOf[bm.nextMatchNumber]), nextMatchSlot := Some(bm.nextMatchSlot));
        needsUpdate := true;
      }
      if bm.loserNextMatchNumber > 0 && bm.loserNextMatchNumber in idOf {
        wiring := wiring.(loserNextMatchId := Some(idOf[bm.loserNextMatchNumber]),
                          loserNextMatchSlot := Some(bm.loserNextMatchSlot));
        needsUpdate := true;
      }
      assert row.(wiring := wiring) == WiredRow(bm, idOf);
      if needsUpdate {
        UpdateMatch(idOf, bm.matchNumber, row.(wiring := wiring), rows);
      } else {
        assert rows[i := WiredRow(bm, idOf)] == rows;
      }
    }

    /** Third pass: complete the BYE matches and move the waiting teams on. */
    method AdvanceByes(bms: seq<BracketMatch>, idOf: map<int, int>, ghost wired: seq<MatchRow>)
      requires Valid() && IsNumbered(bms) && |wired| == |bms| && Holds(matches, idOf, wired)
      modifies this`matches
      ensures Valid() && Holds(matches, idOf, ByePass(wired, bms, |bms|))
      ensures matches.Keys == old(matches.Keys)
      ensures forall id :: id in old(matches) && !IsBracketId(idOf, id) ==> matches[id] == old(matches)[id]
    {
      for i := 0 to |bms|
        invariant Valid() && matches.Keys == old(matches.Keys)
        invariant Holds(matches, idOf, ByePass(wired, bms, i))
        invariant forall id :: id in old(matches) && !IsBracketId(idOf, id) ==> matches[id] == old(matches)[id]
      {
        AdvanceBye(bms[i], idOf, i, ByePass(wired, bms, i));
      }
    }

    method AdvanceBye(bm: BracketMatch, idOf: map<int, int>, ghost i: nat, ghost rows: seq<MatchRow>)
      requires Valid() && i < |rows| && bm.matchNumber == i + 1 && Holds(matches, idOf, rows)
      modifies this`matches
      ensures Valid() && Holds(matches, idOf, ByeStep(rows, bm, i))
      ensures matches.Keys == old(matches.Keys)
      ensures forall id :: id in old(matches) && !IsBracketId(idOf, id) ==> matches[id] == old(matches)[id]
    {
      if !bm.isBye || bm.nextMatchNumber == 0 {
        return;
      }
      var byeMatch := matches[idOf[bm.matchNumber]].(status := Completed);
      UpdateMatch(idOf, bm.matchNumber, byeMatch, rows);
      if bm.nextMatchNumber in idOf && ByeWinner(bm) > 0 {
        MoveByeWinner(bm, idOf, i, rows[i := byeMatch]);
      }
    }

    /** Sets the winner of a BYE match and places it into the next match. */
    method MoveByeWinner(bm: BracketMatch, idOf: map<int, int>, ghost i: nat, ghost rows: seq<MatchRow>)
      requires Valid() && i < |rows| && bm.matchNumber == i + 1 && Holds(matches, idOf, rows)
      requires 1 <= bm.nextMatchNumber <= |rows|
      modifies this`matches
      ensures Valid() && Holds(matches, idOf, ByeWon(rows, bm, i))
      ensures matches.Keys == old(matches.Keys)
      ensures forall id :: id in old(matches) && !IsBracketId(idOf, id) ==> matches[id] == old(matches)[id]
    {
      var winnerTeamId := ByeWinner(bm);
      var byeMatch := WithResult(matches[idOf[bm.matchNumber]], Some(winnerTeamId), None, ByBye);
      UpdateMatch(idOf, bm.matchNumber, byeMatch, rows);
      var nextMatch := matches[idOf[bm.nextMatchNumber]];
      var teams := FillSlotAndSeed(nextMatch.teams, bm.nextMatchSlot, winnerTeamId, bm.byeWinnerSeed);
      UpdateMatch(idOf, bm.nextMatchNumber, nextMatch.(teams := teams), rows[i := byeMatch]);
    }

    /** The entries of a division's registrations; a missing or non-positive seed becomes the
        registration's place in the list. */
    static method BuildEntries(regs: seq<Registration>) returns (entries: seq<SeedEntry>)
      ensures |entries| == |regs|
      ensures forall i :: 0 <= i < |entries| ==> IsEntryOf(entries[i], regs[i], i + 1)
    {
      entries := [];
      for i := 0 to |regs|
        invariant |entries| == i
        invariant forall k :: 0 <= k < i ==> IsEntryOf(entries[k], regs[k], k + 1)
      {
        var seed := if regs[i].seed.Some? && regs[i].seed.value > 0 then regs[i].seed.value else i + 1;
        entries := entries + [SeedEntry(seed, match regs[i].teamId { case Some(id) => id case None => 0 })];
      }
    }

    /** GenerateBracket: generate by format, then persist in three passes. The rows of other
        divisions stay as they are, and a refused request changes nothing. */
    method GenerateBracket(existingCount: nat, format: Format, regs: seq<Registration>)
      returns (r: Result<map<int, int>, GenerateError>, ghost bms: seq<BracketMatch>, ghost entries: seq<SeedEntry>,
               ghost e: nat, ghost ranked: seq<SeedEntry>)
      requires Valid()
      modifies this
      ensures Valid()
      ensures existingCount > 0 ==> r == Err(AlreadyGenerated)
      ensures r.Ok? <==> existingCount == 0 && |regs| >= 2 && !format.UnsupportedFormat?
      ensures r.Err? ==> matches == old(matches)
      ensures r.Ok? ==>
        && |entries| == |regs| && (forall i :: 0 <= i < |entries| ==> IsEntryOf(entries[i], regs[i], i + 1))
        && IsNumbered(bms)
        && Holds(matches, r.value, ByePass(WiredRows(bms, r.value), bms, |bms|))
        && (forall id :: id in old(matches) ==> id in matches && matches[id] == old(matches)[id])
      ensures r.Ok? && format.SingleEliminationFormat? ==>
        e >= 1 && Pow2(e - 1) < |entries| <= Pow2(e) && IsRanking(entries, ranked) && IsBracket(e, ranked, bms)
      ensures r.Ok? && format.DoubleEliminationFormat? ==>
        e >= 1 && Pow2(e - 1) < |entries| <= Pow2(e) && IsRanking(entries, ranked)
        && DoubleElimination.IsDoubleBracket(e, ranked, bms)
      ensures r.Ok? && format.RoundRobinFormat? ==>
        RoundRobin.AreMatchesOfGames(RoundRobin.Participants(entries), bms, RoundRobin.Schedule(entries))
    {
      bms, entries, e, ranked := [], [], 0, [];
      if existingCount > 0 {
        return Err(AlreadyGenerated), bms, entries, e, ranked;
      }
      if |regs| < 2 {
        return Err(TooFewTeams), bms, entries, e, ranked;
      }
      var seeded := BuildEntries(regs);
      entries := seeded;
      var generated: Result<seq<BracketMatch>, BracketError>;
      match format {
        case SingleEliminationFormat =>
          generated, e, ranked := GenerateSingleElimination(seeded);
          SingleIsNumbered(e, ranked, generated.value);
        case DoubleEliminationFormat =>
          generated, e, ranked := DoubleElimination.GenerateDoubleElimination(seeded);
          DoubleIsNumbered(e, ranked, generated.value);
        case RoundRobinFormat =>
          generated := RoundRobin.GenerateRoundRobin(seeded);
          RoundRobinIsNumbered(seeded, generated.value);
        case UnsupportedFormat(name) =>
          return Err(Unsupported(name)), bms, entries, e, ranked;
      }
      bms := generated.value;
      var idOf := CreateMatches(generated.value);
      WireMatches(generated.value, idOf);
      AdvanceByes(generated.value, idOf, WiredRows(bms, idOf));
      r := Ok(idOf);
    }

    /** AdvanceWinner, under row locks: one transaction, all or nothing. */
    method AdvanceWinner(matchId: int) returns (r: Result<(), AdvanceError>, ghost locks: seq<int>)
      modifies this`matches
      ensures r.Ok? <==> Advanced(old(matches), matchId).Ok?
      ensures r.Err? ==> matches == old(matches) && r.error == Advanced(old(matches), matchId).error
      ensures r.Ok? ==> matches == Advanced(old(matches), matchId).value
      ensures r.Ok? ==> matchId in old(matches) && locks == LocksOf(old(matches)[matchId], matchId)
    {
      locks := [matchId];
      if matchId !in matches {
        return Err(MatchNotFound), locks;
      }
      var tx := matches;
      var row := tx[matchId];
      if row.status != Completed && row.status != Forfeited {
        return Err(NotFinished), locks;
      }
      if row.result.winnerTeamId.None? {
        return Err(NoWinner), locks;
      }
      if row.wiring.nextMatchId.Some? {
        var next := row.wiring.nextMatchId.value;
        locks := locks + [next];
        if next !in tx {
          return Err(NextMatchMissing), locks;
        }
        var slot := 1;
        if row.wiring.nextMatchSlot.Some? {
          slot := row.wiring.nextMatchSlot.value;
        } else if row.matchNumber.Some? {
          slot := DetermineSlotInNextMatch(row.matchNumber.value);
        }
        tx := tx[next := tx[next].(teams := FillSlot(tx[next].teams, slot, row.result.winnerTeamId.value))];
      }
      if row.wiring.loserNextMatchId.Some? && row.result.loserTeamId.Some? {
        var next := row.wiring.loserNextMatchId.value;
        locks := locks + [next];
        if next !in tx {
          return Err(NextMatchMissing), locks;
        }
        var slot := if row.wiring.loserNextMatchSlot.Some? then row.wiring.loserNextMatchSlot.value else 1;
        tx := tx[next := tx[next].(teams := FillSlot(tx[next].teams, slot, row.result.loserTeamId.value))];
      }
      matches := tx;
      r := Ok(());
    }
  }

  lemma {:induction false} SingleIsNumbered(e: nat, ranked: seq<SeedEntry>, bms: seq<BracketMatch>)
    requires e >= 1 && IsBracket(e, ranked, bms)
    ensures IsNumbered(bms)
  {
    forall i | 0 <= i < |bms| ensures bms[i].matchNumber == i + 1 {
      assert bms[i + 1 - 1] == BracketMatchAt(e, ranked, i + 1);
    }
  }

  lemma {:induction false} RoundRobinIsNumbered(entries: seq<SeedEntry>, bms: seq<BracketMatch>)
    requires |entries| >= 1
    requires RoundRobin.AreMatchesOfGames(RoundRobin.Participants(entries), bms, RoundRobin.Schedule(entries))
    ensures IsNumbered(bms)
  {
  }

  lemma {:induction false} DoubleIsNumbered(e: nat, ranked: seq<SeedEntry>, bms: seq<BracketMatch>)
    requires e >= 1 && DoubleElimination.IsDoubleBracket(e, ranked, bms)
    ensures IsNumbered(bms)
  {
    forall i | 0 <= i < |bms| ensures bms[i].matchNumber == i + 1 {
      assert bms[i + 1 - 1] == DoubleElimination.DoubleMatchAt(e, ranked, i + 1);
      DoubleElimination.EdgesIncrease(e, ranked, i + 1);
    }
  }
}
