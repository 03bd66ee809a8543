/** RecomputeStandings: statistics per registered team, ordering and ranks, and what the sums
    over all teams conserve. */
module Standings {
  import opened Wrappers
  import opened Scoring
  import opened MatchTable
  import opened Sorting

  datatype StandingsConfig = StandingsConfig(winPoints: int, lossPoints: int, drawPoints: int)

  /** In every method a win is worth more than a draw, and a loss nothing. */
  function DefaultStandingsConfig(standingsMethod: string): (cfg: StandingsConfig)
    ensures cfg.winPoints > cfg.drawPoints >= cfg.lossPoints == 0
    ensures cfg.drawPoints == 0 <==> standingsMethod == "win_loss"
    ensures cfg.drawPoints <= 1
    ensures standingsMethod == "win_loss" ==> cfg.winPoints == 1
    ensures standingsMethod == "match_points" ==> cfg.winPoints == 3
    ensures standingsMethod != "win_loss" && standingsMethod != "match_points" ==> cfg.winPoints == 2
  {
    if standingsMethod == "win_loss" then StandingsConfig(1, 0, 0)
    else if standingsMethod == "match_points" then StandingsConfig(3, 0, 1)
    else StandingsConfig(2, 0, 1)
  }

  datatype Stats = Stats(
    wins: int,
    losses: int,
    draws: int,
    pointsFor: int,
    pointsAgainst: int,
    matchesPlayed: int,
    standingPoints: int)
  {
    function Plus(s: Stats): Stats {
      Stats(wins + s.wins, losses + s.losses, draws + s.draws, pointsFor + s.pointsFor,
            pointsAgainst + s.pointsAgainst, matchesPlayed + s.matchesPlayed, standingPoints + s.standingPoints)
    }

    function Differential(): int { pointsFor - pointsAgainst }
  }

  const ZERO := Stats(0, 0, 0, 0, 0, 0, 0)

  datatype TeamStats = TeamStats(teamId: int, stats: Stats)

  /** Admin columns (override, withdrawal) are not touched by a recompute. */
  datatype AdminColumns = AdminColumns(overridePoints: Option<int>, isWithdrawn: bool)

  datatype StandingsEntry = StandingsEntry(stats: Stats, pointDifferential: int, rank: int, admin: AdminColumns)

  predicate Involves(row: MatchRow, team: int) {
    row.teams.team1Id == Some(team) || row.teams.team2Id == Some(team)
  }

  /** What one match adds to a team's statistics. */
  function Contribution(cfg: StandingsConfig, team: int, row: MatchRow): Stats {
    if row.status != Completed || !Involves(row, team) then ZERO
    else
      var (scored, conceded) := if row.teams.team1Id == Some(team)
        then (row.scoring.team1Score, row.scoring.team2Score)
        else (row.scoring.team2Score, row.scoring.team1Score);
      if row.result.winnerTeamId == Some(team) then Stats(1, 0, 0, scored, conceded, 1, cfg.winPoints)
      else if row.result.loserTeamId == Some(team) then Stats(0, 1, 0, scored, conceded, 1, cfg.lossPoints)
      else Stats(0, 0, 1, scored, conceded, 1, cfg.drawPoints)
  }

  function StatsOf(cfg: StandingsConfig, team: int, matches: seq<MatchRow>): Stats {
    if matches == [] then ZERO
    else StatsOf(cfg, team, matches[..|matches| - 1]).Plus(Contribution(cfg, team, matches[|matches| - 1]))
  }

  /** Wins, losses and draws make up the matches played, and give the standing points. */
  ghost predicate AddsUp(cfg: StandingsConfig, s: Stats) {
    && s.wins >= 0 && s.losses >= 0 && s.draws >= 0 && s.wins + s.losses + s.draws == s.matchesPlayed
    && s.standingPoints == s.wins * cfg.winPoints + s.losses * cfg.lossPoints + s.draws * cfg.drawPoints
  }

  lemma {:induction false} MatchAddsUp(cfg: StandingsConfig, team: int, s: Stats, row: MatchRow)
    requires AddsUp(cfg, s)
    ensures AddsUp(cfg, s.Plus(Contribution(cfg, team, row)))
  {
  }

  lemma {:induction false} StatsAddUp(cfg: StandingsConfig, team: int, matches: seq<MatchRow>)
    ensures AddsUp(cfg, StatsOf(cfg, team, matches))
  {
    if matches != [] {
      StatsAddUp(cfg, team, matches[..|matches| - 1]);
      MatchAddsUp(cfg, team, StatsOf(cfg, team, matches[..|matches| - 1]), matches[|matches| - 1]);
    }
  }

  /** The inner loop's body. */
  method AddMatch(cfg: StandingsConfig, team: int, before: Stats, m: MatchRow) returns (stats: Stats)
    ensures stats == before.Plus(Contribution(cfg, team, m))
  {
    stats := before;
    if !Involves(m, team) || m.status != Completed {
      return;
    }
    stats := stats.(matchesPlayed := stats.matchesPlayed + 1);
    if m.teams.team1Id == Some(team) {
      stats := stats.(
        pointsFor := stats.pointsFor + m.scoring.team1Score,
        pointsAgainst := stats.pointsAgainst + m.scoring.team2Score);
    } else {
      stats := stats.(
        pointsFor := stats.pointsFor + m.scoring.team2Score,
        pointsAgainst := stats.pointsAgainst + m.scoring.team1Score);
    }
    if m.result.winnerTeamId == Some(team) {
      stats := stats.(wins := stats.wins + 1, standingPoints := stats.standingPoints + cfg.winPoints);
    } else if m.result.loserTeamId == Some(team) {
      stats := stats.(losses := stats.losses + 1, standingPoints := stats.standingPoints + cfg.lossPoints);
    } else {
      stats := stats.(draws := stats.draws + 1, standingPoints := stats.standingPoints + cfg.drawPoints);
    }
  }

  /** ListMatchesByTeamInDivision and the inner loop: one team's statistics. */
  method ComputeTeamStats(cfg: StandingsConfig, team: int, matches: seq<MatchRow>) returns (stats: Stats)
    ensures stats == StatsOf(cfg, team, matches)
  {
    stats := ZERO;
    for i := 0 to |matches|
      invariant stats == StatsOf(cfg, team, matches[..i])
    {
      stats := AddMatch(cfg, team, stats, matches[i]);
      assert matches[..i + 1][..i] == matches[..i];
    }
    assert matches[..|matches|] == matches;
  }

  /** Standing points first, then point differential, then wins. */
  predicate RanksAhead(a: TeamStats, b: TeamStats) {
    if a.stats.standingPoints != b.stats.standingPoints then a.stats.standingPoints > b.stats.standingPoints
    else if a.stats.Differential() != b.stats.Differential() then a.stats.Differential() > b.stats.Differential()
    else a.stats.wins > b.stats.wins
  }

  /** One result per registered team, with its statistics, ranked 1..n in list order. */
  ghost predicate IsRanked(cfg: StandingsConfig, teams: set<int>, matches: seq<MatchRow>, order: seq<int>) {
    && |order| == |teams|
    && (forall t :: t in order <==> t in teams)
    && (forall i, j :: 0 <= i < j < |order| ==> order[i] != order[j])
    && (forall i, j :: 0 <= i < j < |order| ==>
      !RanksAhead(TeamStats(order[j], StatsOf(cfg, order[j], matches)),
        TeamStats(order[i], StatsOf(cfg, order[i], matches))))
  }

  /** Standing points decide first, then the differential, then wins. */
  lemma {:induction false} RankingRespects(cfg: StandingsConfig, teams: set<int>, matches: seq<MatchRow>,
        order: seq<int>, i: nat, j: nat)
    requires IsRanked(cfg, teams, matches, order) && i < j < |order|
    ensures var (a, b) := (StatsOf(cfg, order[i], matches), StatsOf(cfg, order[j], matches));
      && a.standingPoints >= b.standingPoints
      && (a.standingPoints == b.standingPoints ==> a.Differential() >= b.Differential())
      && (a.standingPoints == b.standingPoints && a.Differential() == b.Differential() ==> a.wins >= b.wins)
  {
  }

  /** Completed matches of a team that name it as winner, or only as loser. */
  function MatchesWon(team: int, matches: seq<MatchRow>): nat {
    if matches == [] then 0
    else
      var m := matches[|matches| - 1];
      MatchesWon(team, matches[..|matches| - 1])
        + if m.status == Completed && Involves(m, team) && m.result.winnerTeamId == Some(team) then 1 else 0
  }

  function MatchesLost(team: int, matches: seq<MatchRow>): nat {
    if matches == [] then 0
    else
      var m := matches[|matches| - 1];
      MatchesLost(team, matches[..|matches| - 1])
        + if m.status == Completed && Involves(m, team) && m.result.winnerTeamId != Some(team)
             && m.result.loserTeamId == Some(team) then 1 else 0
  }

  /** Wins and losses count exactly the completed matches won and lost. */
  lemma {:induction false} WinsAreMatchesWon(cfg: StandingsConfig, team: int, matches: seq<MatchRow>)
    ensures StatsOf(cfg, team, matches).wins == MatchesWon(team, matches)
    ensures StatsOf(cfg, team, matches).losses == MatchesLost(team, matches)
  {
    if matches != [] {
      WinsAreMatchesWon(cfg, team, matches[..|matches| - 1]);
    }
  }

  class StandingsTable {
    var entries: map<int, StandingsEntry>

    constructor ()
      ensures entries == map[]
    {
      entries := map[];
    }

    /** UpsertStandingsEntry: admin columns of an existing entry are kept. */
    method Upsert(team: int, stats: Stats, rank: int) returns (entry: StandingsEntry)
      modifies this
      ensures entries == old(entries)[team := entry]
      ensures IsRankedEntry(entry, old(entries), team, stats, rank)
    {
      var admin := if team in entries then entries[team].admin else AdminColumns(None, false);
      entry := StandingsEntry(stats, stats.pointsFor - stats.pointsAgainst, rank, admin);
      entries := entries[team := entry];
    }

    /** RecomputeStandings over the registered teams, visited in any order, and the division's
        matches. Entries of teams that are no longer registered stay as they are. */
    method RecomputeStandings(cfg: StandingsConfig, teams: set<int>, matches: seq<MatchRow>) returns (order: seq<int>)
      modifies this
      ensures IsRanked(cfg, teams, matches, order)
      ensures entries.Keys == old(entries.Keys) + teams
      ensures forall i :: 0 <= i < |order| ==>
        order[i] in entries
        && IsRankedEntry(entries[order[i]], old(entries), order[i], StatsOf(cfg, order[i], matches), i + 1)
      ensures forall t :: t in old(entries) && t !in teams ==> t in entries && entries[t] == old(entries)[t]
    {
      var collected := CollectStats(cfg, teams, matches);
      var allStats := new TeamStats[|collected|](i requires 0 <= i < |collected| => collected[i]);
      assert allStats[..] == collected;
      SortSlice(allStats, RanksAhead);
      ghost var sorted := allStats[..];
      SortedStatsAreRanked(cfg, teams, matches, collected, sorted);
      order := UpsertRanks(allStats, teams);
    }

    /** Upserts one entry per team in ranking order. */
    method UpsertRanks(allStats: array<TeamStats>, ghost teams: set<int>) returns (order: seq<int>)
      requires forall i, j :: 0 <= i < j < allStats.Length ==> allStats[i].teamId != allStats[j].teamId
      requires forall i :: 0 <= i < allStats.Length ==> allStats[i].teamId in teams
      requires forall t :: t in teams ==> exists i :: 0 <= i < allStats.Length && allStats[i].teamId == t
      modifies this
      ensures order == TeamIds(allStats[..])
      ensures entries.Keys == old(entries.Keys) + teams
      ensures forall i :: 0 <= i < allStats.Length ==>
        allStats[i].teamId in entries
        && IsRankedEntry(entries[allStats[i].teamId], old(entries), allStats[i].teamId, allStats[i].stats, i + 1)
      ensures forall t :: t in old(entries) && t !in teams ==> t in entries && entries[t] == old(entries)[t]
    {
      order := [];
      for idx := 0 to allStats.Length
        invariant order == TeamIds(allStats[..idx])
        invariant forall i :: 0 <= i < idx ==>
          allStats[i].teamId in entries
          && IsRankedEntry(entries[allStats[i].teamId], old(entries), allStats[i].teamId, allStats[i].stats, i + 1)
        invariant forall i :: idx <= i < allStats.Length ==>
          (allStats[i].teamId in entries <==> allStats[i].teamId in old(entries))
          && (allStats[i].teamId in entries ==> entries[allStats[i].teamId] == old(entries)[allStats[i].teamId])
        invariant forall t :: t in old(entries) ==> t in entries && (t !in teams ==> entries[t] == old(entries)[t])
        invariant forall t :: t in entries ==> t in old(entries) || t in teams
      {
        var s := allStats[idx];
        var _ := Upsert(s.teamId, s.stats, idx + 1);
        assert allStats[..idx + 1] == allStats[..idx] + [s];
        order := order + [s.teamId];
      }
      assert allStats[..allStats.Length] == allStats[..];
      forall t ensures t in entries <==> t in old(entries) || t in teams {
        if t in teams {
          var i :| 0 <= i < allStats.Length && allStats[i].teamId == t;
        }
      }
    }
  }

  function TeamIds(all: seq<TeamStats>): seq<int> {
    seq(|all|, i requires 0 <= i < |all| => all[i].teamId)
  }

  /** An entry with these statistics and this rank; an existing entry's admin columns are kept. */
  predicate IsRankedEntry(entry: StandingsEntry, before: map<int, StandingsEntry>, team: int, stats: Stats, rank: int) {
    && entry.stats == stats && entry.rank == rank && entry.pointDifferential == stats.pointsFor - stats.pointsAgainst
    && entry.admin == if team in before then before[team].admin else AdminColumns(None, false)
  }

  lemma {:induction false} EmptyIffNoElement(s: set<int>)
    ensures s == {} <==> !exists t :: t in s
  {
    if forall t :: t !in s {
      assert s == {};
    }
  }

  /** The statistics of all registered teams; the teams come in any order. */
  method CollectStats(cfg: StandingsConfig, teams: set<int>, matches: seq<MatchRow>) returns (all: seq<TeamStats>)
    ensures AreStatsOf(cfg, teams, matches, all)
  {
    all := [];
    var rest := teams;
    while rest != {}
      invariant rest <= teams
      invariant AreStatsOf(cfg, teams - rest, matches, all)
      decreases rest
    {
      EmptyIffNoElement(rest);
      var team :| team in rest;
      var stats := ComputeTeamStats(cfg, team, matches);
      all := all + [TeamStats(team, stats)];
      rest := rest - {team};
    }
    assert teams - rest == teams;
  }

  ghost predicate AreStatsOf(cfg: StandingsConfig, teams: set<int>, matches: seq<MatchRow>, all: seq<TeamStats>) {
    && |all| == |teams|
    && (forall i :: 0 <= i < |all| ==> all[i].teamId in teams && all[i].stats == StatsOf(cfg, all[i].teamId, matches))
    && (forall t :: t in teams ==> TeamStats(t, StatsOf(cfg, t, matches)) in all)
    && (forall i, j :: 0 <= i < j < |all| ==> all[i].teamId != all[j].teamId)
  }

  lemma {:induction false} SortedStatsAreRanked(cfg: StandingsConfig, teams: set<int>, matches: seq<MatchRow>,
                                               collected: seq<TeamStats>, sorted: seq<TeamStats>)
    requires AreStatsOf(cfg, teams, matches, collected)
    requires multiset(sorted) == multiset(collected) && Sorted(sorted, RanksAhead)
    ensures AreStatsOf(cfg, teams, matches, sorted)
    ensures IsRanked(cfg, teams, matches, TeamIds(sorted))
    ensures forall t :: t in teams ==> exists i :: 0 <= i < |sorted| && sorted[i].teamId == t
  {
    PermutedStats(cfg, teams, matches, collected, sorted);
    StatsAreRanked(cfg, teams, matches, sorted);
  }

  lemma {:induction false} PermutedStats(cfg: StandingsConfig, teams: set<int>, matches: seq<MatchRow>,
                                        collected: seq<TeamStats>, sorted: seq<TeamStats>)
    requires AreStatsOf(cfg, teams, matches, collected) && multiset(sorted) == multiset(collected)
    ensures AreStatsOf(cfg, teams, matches, sorted)
  {
    assert |sorted| == |multiset(sorted)| == |collected|;
    forall x ensures x in sorted <==> x in collected {
      assert x in multiset(sorted) <==> x in multiset(collected);
    }
    forall i | 0 <= i < |sorted|
      ensures sorted[i].teamId in teams && sorted[i].stats == StatsOf(cfg, sorted[i].teamId, matches)
    {
      assert sorted[i] in collected;
    }
    SameElementsDistinct(collected, sorted);
  }

  lemma {:induction false} StatsAreRanked(cfg: StandingsConfig, teams: set<int>, matches: seq<MatchRow>,
        sorted: seq<TeamStats>)
    requires AreStatsOf(cfg, teams, matches, sorted) && Sorted(sorted, RanksAhead)
    ensures IsRanked(cfg, teams, matches, TeamIds(sorted))
    ensures forall t :: t in teams ==> exists i :: 0 <= i < |sorted| && sorted[i].teamId == t
  {
    EveryTeamIsListed(cfg, teams, matches, sorted);
    var order := TeamIds(sorted);
    forall i, j | 0 <= i < j < |order|
      ensures !RanksAhead(TeamStats(order[j], StatsOf(cfg, order[j], matches)),
        TeamStats(order[i], StatsOf(cfg, order[i], matches)))
    {
      SortedPair(cfg, teams, matches, sorted, i, j);
    }
  }

  lemma {:induction false} EveryTeamIsListed(cfg: StandingsConfig, teams: set<int>, matches: seq<MatchRow>,
        sorted: seq<TeamStats>)
    requires AreStatsOf(cfg, teams, matches, sorted)
    ensures forall t :: t in TeamIds(sorted) <==> t in teams
    ensures forall t :: t in teams ==> exists i :: 0 <= i < |sorted| && sorted[i].teamId == t
  {
    forall t | t in teams ensures t in TeamIds(sorted) && exists i :: 0 <= i < |sorted| && sorted[i].teamId == t {
      var i :| 0 <= i < |sorted| && sorted[i] == TeamStats(t, StatsOf(cfg, t, matches));
      assert TeamIds(sorted)[i] == t && sorted[i].teamId == t;
    }
  }

  lemma {:induction false} SortedPair(cfg: StandingsConfig, teams: set<int>, matches: seq<MatchRow>,
        sorted: seq<TeamStats>, i: nat, j: nat)
    requires AreStatsOf(cfg, teams, matches, sorted) && Sorted(sorted, RanksAhead) && i < j < |sorted|
    ensures !RanksAhead(TeamStats(sorted[j].teamId, StatsOf(cfg, sorted[j].teamId, matches)),
                        TeamStats(sorted[i].teamId, StatsOf(cfg, sorted[i].teamId, matches)))
  {
  }

  lemma {:induction false} SameElementsDistinct(a: seq<TeamStats>, b: seq<TeamStats>)
    requires multiset(a) == multiset(b)
    requires forall i, j :: 0 <= i < j < |a| ==> a[i].teamId != a[j].teamId
    ensures forall i, j :: 0 <= i < j < |b| ==> b[i].teamId != b[j].teamId
  {
    forall i, j | 0 <= i < j < |b| ensures b[i].teamId != b[j].teamId {
      if b[i].teamId == b[j].teamId {
        assert b[i] in multiset(a) && b[j] in multiset(a);
        var p :| 0 <= p < |a| && a[p] == b[i];
        var q :| 0 <= q < |a| && a[q] == b[j];
        TwiceInSequence(b, i, j);
        OnceInSequence(a, p);
      }
    }
  }

  lemma {:induction false} TwiceInSequence(s: seq<TeamStats>, i: nat, j: nat)
    requires i < j < |s| && s[i] == s[j]
    ensures multiset(s)[s[i]] >= 2
  {
    assert s == s[..i] + [s[i]] + s[i + 1..j] + [s[j]] + s[j + 1..];
  }

  lemma {:induction false} OnceInSequence(s: seq<TeamStats>, p: nat)
    requires p < |s| && forall i, j :: 0 <= i < j < |s| ==> s[i].teamId != s[j].teamId
    ensures multiset(s)[s[p]] == 1
  {
    assert s == s[..p] + [s[p]] + s[p + 1..];
    assert s[p] !in s[..p] && s[p] !in s[p + 1..];
  }

  /** The sum of all teams' statistics. */
  function Total(cfg: StandingsConfig, order: seq<int>, matches: seq<MatchRow>): Stats {
    if order == [] then ZERO
    else Total(cfg, order[..|order| - 1], matches).Plus(StatsOf(cfg, order[|order| - 1], matches))
  }

  /** What a match adds to the sum: the share of each of its registered sides. */
  function MatchShare(cfg: StandingsConfig, registered: set<int>, row: MatchRow): Stats {
    var (one, two) := (row.teams.team1Id, row.teams.team2Id);
    var first := if one.Some? && one.value in registered then Contribution(cfg, one.value, row) else ZERO;
    var second :=
      if two.Some? && two.value in registered && two != one then Contribution(cfg, two.value, row) else ZERO;
    first.Plus(second)
  }

  function SumOfShares(cfg: StandingsConfig, registered: set<int>, matches: seq<MatchRow>): Stats {
    if matches == [] then ZERO
    else
      SumOfShares(cfg, registered, matches[..|matches| - 1])
        .Plus(MatchShare(cfg, registered, matches[|matches| - 1]))
  }

  /** The teams of a list without repetitions. */
  predicate Lists(order: seq<int>, registered: set<int>) {
    if order == [] then registered == {}
    else order[|order| - 1] in registered && Lists(order[..|order| - 1], registered - {order[|order| - 1]})
  }

  /** The ranking of RecomputeStandings is such a list. */
  lemma {:induction false} RankingListsTeams(order: seq<int>, registered: set<int>)
    requires forall t :: t in order <==> t in registered
    requires forall i, j :: 0 <= i < j < |order| ==> order[i] != order[j]
    ensures Lists(order, registered)
    decreases |order|
  {
    if order == [] {
      forall t ensures t !in registered {
        assert t in registered <==> t in order;
      }
    } else {
      var front, last := order[..|order| - 1], order[|order| - 1];
      assert last in order;
      forall t ensures t in front <==> t in registered - {last} {
        assert t in order <==> t in front || t == last;
      }
      RankingListsTeams(front, registered - {last});
    }
  }

  /** The sum over teams of one match's contributions. */
  function Spread(cfg: StandingsConfig, order: seq<int>, row: MatchRow): Stats {
    if order == [] then ZERO
    else Spread(cfg, order[..|order| - 1], row).Plus(Contribution(cfg, order[|order| - 1], row))
  }

  lemma {:induction false} ShareWithTeam(cfg: StandingsConfig, registered: set<int>, team: int, row: MatchRow)
    requires team in registered
    ensures MatchShare(cfg, registered, row)
      == MatchShare(cfg, registered - {team}, row).Plus(Contribution(cfg, team, row))
  {
  }

  lemma {:induction false} SpreadIsShare(cfg: StandingsConfig, order: seq<int>, registered: set<int>, row: MatchRow)
    requires Lists(order, registered)
    ensures Spread(cfg, order, row) == MatchShare(cfg, registered, row)
    decreases |order|
  {
    if order != [] {
      var last := order[|order| - 1];
      SpreadIsShare(cfg, order[..|order| - 1], registered - {last}, row);
      ShareWithTeam(cfg, registered, last, row);
    }
  }

  lemma {:induction false} PlusExchange(a: Stats, b: Stats, c: Stats, d: Stats)
    ensures a.Plus(b).Plus(c.Plus(d)) == a.Plus(c).Plus(b.Plus(d))
  {
  }

  lemma {:induction false} TotalWithMatch(cfg: StandingsConfig, order: seq<int>, matches: seq<MatchRow>)
    requires matches != []
    ensures Total(cfg, order, matches)
      == Total(cfg, order, matches[..|matches| - 1]).Plus(Spread(cfg, order, matches[|matches| - 1]))
    decreases |order|
  {
    if order != [] {
      var front, team := order[..|order| - 1], order[|order| - 1];
      var before, m := matches[..|matches| - 1], matches[|matches| - 1];
      TotalWithMatch(cfg, front, matches);
      PlusExchange(Total(cfg, front, before), Spread(cfg, front, m), StatsOf(cfg, team, before),
        Contribution(cfg, team, m));
    }
  }

  lemma {:induction false} TotalWithoutMatches(cfg: StandingsConfig, order: seq<int>)
    ensures Total(cfg, order, []) == ZERO
    decreases |order|
  {
    if order != [] {
      TotalWithoutMatches(cfg, order[..|order| - 1]);
    }
  }

  /** For any matches at all, the totals over the registered teams are the sum, match by match, of
      what its registered sides take from it. */
  lemma {:induction false} TotalsByMatch(cfg: StandingsConfig, order: seq<int>, registered: set<int>,
        matches: seq<MatchRow>)
    requires Lists(order, registered)
    ensures Total(cfg, order, matches) == SumOfShares(cfg, registered, matches)
    decreases |matches|
  {
    if matches == [] {
      TotalWithoutMatches(cfg, order);
    } else {
      TotalWithMatch(cfg, order, matches);
      SpreadIsShare(cfg, order, registered, matches[|matches| - 1]);
      TotalsByMatch(cfg, order, registered, matches[..|matches| - 1]);
    }
  }

  /** A completed match between two different registered teams, decided between them or drawn. */
  predicate IsSettled(registered: set<int>, row: MatchRow) {
    row.status == Completed ==>
      && row.teams.team1Id.Some? && row.teams.team1Id.value in registered
      && row.teams.team2Id.Some? && row.teams.team2Id.value in registered
      && row.teams.team1Id != row.teams.team2Id
      && var (one, two, r) := (row.teams.team1Id, row.teams.team2Id, row.result);
        || (r.winnerTeamId == None && r.loserTeamId == None)
        || (r.winnerTeamId == one && r.loserTeamId == two)
        || (r.winnerTeamId == two && r.loserTeamId == one)
  }

  function CompletedMatches(matches: seq<MatchRow>): nat {
    if matches == [] then 0
    else CompletedMatches(matches[..|matches| - 1]) + if matches[|matches| - 1].status == Completed then 1 else 0
  }

  predicate IsBalanced(total: Stats, completed: nat) {
    total.wins == total.losses && total.pointsFor == total.pointsAgainst && total.matchesPlayed == 2 * completed
  }

  /** Standings conserve: over all teams wins equal losses, points for equal points against, and
      every completed match is counted for two teams. */
  lemma {:induction false} StandingsConserve(cfg: StandingsConfig, teams: set<int>, order: seq<int>,
        matches: seq<MatchRow>)
    requires IsRanked(cfg, teams, matches, order)
    requires forall i :: 0 <= i < |matches| ==> IsSettled(teams, matches[i])
    ensures IsBalanced(Total(cfg, order, matches), CompletedMatches(matches))
  {
    RankingListsTeams(order, teams);
    TotalsByMatch(cfg, order, teams, matches);
    SharesConserve(cfg, teams, matches);
  }

  /** Is the win, or the loss, of a completed match counted for a registered side? */
  predicate CountsWin(registered: set<int>, row: MatchRow) {
    var winner := row.result.winnerTeamId;
    row.status == Completed && winner.Some? && winner.value in registered && Involves(row, winner.value)
  }

  predicate CountsLoss(registered: set<int>, row: MatchRow) {
    var loser := row.result.loserTeamId;
    && row.status == Completed && loser.Some? && loser.value in registered && Involves(row, loser.value)
    && row.result.winnerTeamId != loser
  }

  lemma {:induction false} ShareOfWins(cfg: StandingsConfig, registered: set<int>, row: MatchRow)
    ensures MatchShare(cfg, registered, row).wins == (if CountsWin(registered, row) then 1 else 0)
    ensures MatchShare(cfg, registered, row).losses == (if CountsLoss(registered, row) then 1 else 0)
  {
  }

  /** Matches that count a win and no loss, as a BYE match does. */
  function LoneWins(registered: set<int>, matches: seq<MatchRow>): nat {
    if matches == [] then 0
    else
      var m := matches[|matches| - 1];
      LoneWins(registered, matches[..|matches| - 1])
        + if CountsWin(registered, m) && !CountsLoss(registered, m) then 1 else 0
  }

  /** Matches that count a loss and no win. */
  function LoneLosses(registered: set<int>, matches: seq<MatchRow>): nat {
    if matches == [] then 0
    else
      var m := matches[|matches| - 1];
      LoneLosses(registered, matches[..|matches| - 1])
        + if CountsLoss(registered, m) && !CountsWin(registered, m) then 1 else 0
  }

  lemma {:induction false} SharesOfWins(cfg: StandingsConfig, registered: set<int>, matches: seq<MatchRow>)
    ensures SumOfShares(cfg, registered, matches).wins - SumOfShares(cfg, registered, matches).losses
      == LoneWins(registered, matches) - LoneLosses(registered, matches)
    decreases |matches|
  {
    if matches != [] {
      SharesOfWins(cfg, registered, matches[..|matches| - 1]);
      ShareOfWins(cfg, registered, matches[|matches| - 1]);
    }
  }

  /** For any matches at all, summed wins equal summed losses exactly when as many matches count a
      win alone as count a loss alone. */
  lemma {:induction false} WinsEqualLossesIff(cfg: StandingsConfig, teams: set<int>, order: seq<int>,
        matches: seq<MatchRow>)
    requires IsRanked(cfg, teams, matches, order)
    ensures Total(cfg, order, matches).wins == Total(cfg, order, matches).losses
      <==> LoneWins(teams, matches) == LoneLosses(teams, matches)
  {
    RankingListsTeams(order, teams);
    TotalsByMatch(cfg, order, teams, matches);
    SharesOfWins(cfg, teams, matches);
  }

  lemma {:induction false} ShareConserves(cfg: StandingsConfig, registered: set<int>, row: MatchRow)
    requires IsSettled(registered, row)
    ensures IsBalanced(MatchShare(cfg, registered, row), if row.status == Completed then 1 else 0)
  {
  }

  lemma {:induction false} BalancesAdd(a: Stats, n: nat, b: Stats, k: nat)
    requires IsBalanced(a, n) && IsBalanced(b, k)
    ensures IsBalanced(a.Plus(b), n + k)
  {
  }

  lemma {:induction false} SharesConserve(cfg: StandingsConfig, registered: set<int>, matches: seq<MatchRow>)
    requires forall i :: 0 <= i < |matches| ==> IsSettled(registered, matches[i])
    ensures IsBalanced(SumOfShares(cfg, registered, matches), CompletedMatches(matches))
    decreases |matches|
  {
    if matches != [] {
      var front, last := matches[..|matches| - 1], matches[|matches| - 1];
      SharesConserve(cfg, registered, front);
      ShareConserves(cfg, registered, last);
      BalancesAdd(SumOfShares(cfg, registered, front), CompletedMatches(front), MatchShare(cfg, registered, last),
        if last.status == Completed then 1 else 0);
    }
  }

  /** A completed match with one registered side moves the balance of points by exactly its score
      difference: conservation needs both sides registered, or a level score. */
  lemma {:induction false} OneSidedMatchShifts(cfg: StandingsConfig, registered: set<int>, row: MatchRow)
    requires row.status == Completed && row.teams.team1Id.Some? && row.teams.team2Id.Some?
    requires row.teams.team1Id.value in registered && row.teams.team2Id.value !in registered
    ensures MatchShare(cfg, registered, row).Differential() == row.scoring.team1Score - row.scoring.team2Score
  {
  }
}
