/** The points of the standings: each team's own and its opponents' scores, and their sums. */
module StandingsPoints {
  import opened Wrappers
  import opened Scoring
  import opened MatchTable
  import opened Standings

  /** What the side of a team scores in a completed match of the team, and what the other side does. A
      team in both slots counts as the first side. */
  function OwnPoints(row: MatchRow, team: int): int {
    if row.status != Completed then 0
    else if row.teams.team1Id == Some(team) then row.scoring.team1Score
    else if row.teams.team2Id == Some(team) then row.scoring.team2Score
    else 0
  }

  function OtherPoints(row: MatchRow, team: int): int {
    if row.status != Completed || !Involves(row, team) then 0
    else row.scoring.team1Score + row.scoring.team2Score - OwnPoints(row, team)
  }

  function PointsScored(team: int, matches: seq<MatchRow>): int {
    if matches == [] then 0
    else PointsScored(team, matches[..|matches| - 1]) + OwnPoints(matches[|matches| - 1], team)
  }

  function PointsConceded(team: int, matches: seq<MatchRow>): int {
    if matches == [] then 0
    else PointsConceded(team, matches[..|matches| - 1]) + OtherPoints(matches[|matches| - 1], team)
  }

  lemma {:induction false} MatchAddsPoints(cfg: StandingsConfig, team: int, s: Stats, row: MatchRow)
    ensures s.Plus(Contribution(cfg, team, row)).pointsFor == s.pointsFor + OwnPoints(row, team)
    ensures s.Plus(Contribution(cfg, team, row)).pointsAgainst == s.pointsAgainst + OtherPoints(row, team)
  {
  }

  /** Points for a team are the scores of its own side over its completed matches, points against
      those of its opponents. */
  lemma {:induction false} PointsAreScores(cfg: StandingsConfig, team: int, matches: seq<MatchRow>)
    ensures StatsOf(cfg, team, matches).pointsFor == PointsScored(team, matches)
    ensures StatsOf(cfg, team, matches).pointsAgainst == PointsConceded(team, matches)
    decreases |matches|
  {
    if matches != [] {
      var front := matches[..|matches| - 1];
      PointsAreScores(cfg, team, front);
      MatchAddsPoints(cfg, team, StatsOf(cfg, team, front), matches[|matches| - 1]);
    }
  }

  /** A match is drawn for a team that it names neither as winner nor as loser. */
  function MatchesDrawn(team: int, matches: seq<MatchRow>): nat {
    if matches == [] then 0
    else
      var m := matches[|matches| - 1];
      MatchesDrawn(team, matches[..|matches| - 1])
        + if m.status == Completed && Involves(m, team) && m.result.winnerTeamId != Some(team)
             && m.result.loserTeamId != Some(team) then 1 else 0
  }

  lemma {:induction false} DrawsAreMatchesDrawn(cfg: StandingsConfig, team: int, matches: seq<MatchRow>)
    ensures StatsOf(cfg, team, matches).draws == MatchesDrawn(team, matches)
    decreases |matches|
  {
    if matches != [] {
      DrawsAreMatchesDrawn(cfg, team, matches[..|matches| - 1]);
    }
  }

  function PointsOf(row: MatchRow): int {
    if row.status == Completed then row.scoring.team1Score + row.scoring.team2Score else 0
  }

  /** All points of the completed matches. */
  function AllPoints(matches: seq<MatchRow>): int {
    if matches == [] then 0
    else AllPoints(matches[..|matches| - 1]) + PointsOf(matches[|matches| - 1])
  }

  lemma {:induction false} ShareOfPoints(cfg: StandingsConfig, registered: set<int>, sum: Stats, row: MatchRow)
    requires IsSettled(registered, row)
    ensures sum.Plus(MatchShare(cfg, registered, row)).pointsFor == sum.pointsFor + PointsOf(row)
    ensures sum.Plus(MatchShare(cfg, registered, row)).pointsAgainst == sum.pointsAgainst + PointsOf(row)
  {
  }

  lemma {:induction false} SharesOfPoints(cfg: StandingsConfig, registered: set<int>, matches: seq<MatchRow>)
    requires forall i :: 0 <= i < |matches| ==> IsSettled(registered, matches[i])
    ensures SumOfShares(cfg, registered, matches).pointsFor == AllPoints(matches)
    ensures SumOfShares(cfg, registered, matches).pointsAgainst == AllPoints(matches)
    decreases |matches|
  {
    if matches != [] {
      var front, last := matches[..|matches| - 1], matches[|matches| - 1];
      SharesOfPoints(cfg, registered, front);
      ShareOfPoints(cfg, registered, SumOfShares(cfg, registered, front), last);
    }
  }

  /** Over all teams the points for, and the points against, are exactly the points of the completed
      matches. */
  lemma {:induction false} EveryPointIsCounted(cfg: StandingsConfig, teams: set<int>, order: seq<int>,
        matches: seq<MatchRow>)
    requires IsRanked(cfg, teams, matches, order)
    requires forall i :: 0 <= i < |matches| ==> IsSettled(teams, matches[i])
    ensures Total(cfg, order, matches).pointsFor == AllPoints(matches)
    ensures Total(cfg, order, matches).pointsAgainst == AllPoints(matches)
  {
    RankingListsTeams(order, teams);
    TotalsByMatch(cfg, order, teams, matches);
    SharesOfPoints(cfg, teams, matches);
  }
}
