/** The values a bracket generator takes and returns. */
module Brackets {

  /** teamId 0 stands for a BYE or a registration without a team. */
  datatype SeedEntry = SeedEntry(seed: int, teamId: int)

  const BYE := SeedEntry(0, 0)

  datatype RoundName = Finals | Semifinals | Quarterfinals | Round(n: int) | LosersRound(n: int) | GrandFinals

  /** Seeds, team ids and next-match numbers are 0 where there is none. */
  datatype BracketMatch = BracketMatch(
    matchNumber: int,
    round: int,
    roundName: RoundName,
    team1Seed: int,
    team2Seed: int,
    team1TeamId: int,
    team2TeamId: int,
    isBye: bool,
    byeWinnerSeed: int,
    nextMatchNumber: int,
    nextMatchSlot: int,
    loserNextMatchNumber: int,
    loserNextMatchSlot: int
  )

  datatype BracketError = TooFewEntries(got: int)

  /** A match before its teams and wiring are filled in. */
  function BlankMatch(matchNumber: int, round: int, roundName: RoundName): BracketMatch {
    BracketMatch(matchNumber, round, roundName, 0, 0, 0, 0, false, 0, 0, 0, 0, 0)
  }

  function NameOfRound(round: int, totalRounds: int): RoundName {
    match totalRounds - round
    case 0 => Finals
    case 1 => Semifinals
    case 2 => Quarterfinals
    case _ => Round(round)
  }
}
