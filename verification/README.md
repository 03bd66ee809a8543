# Verified model of the tournament core

This project models the core of a tournament backend written in Go and proves properties of it: how
brackets are drawn, persisted and played, how matches are scored and stored, how series and standings
are kept, and how the API limits its callers. Every statement below holds for all inputs, all runs or
all reachable states.

## What is modelled

**Brackets** (`PowersOfTwo`, `SeedOrder`, `BracketTree`, `SingleElimination`, `DoubleElimination`,
`RoundRobin`, `Sorting`). The three generators are loops over arrays and lists, as in the source,
each proved against a closed form by match number. A bracket of size 2^e after its first
round is the bracket of size 2^(e-1), shifted; most proofs about the tree follow that recursion. The
round robin is proved to be a one-factorisation by halving modulo the odd number n-1.

**Bracket service** (`BracketService`, `ByePlacement`, `AdvanceRuns`, `PersistedBrackets`,
`Favourites`, `RowLocks`, `DoubleBrackets`, `DoubleRuns`, `RoundRobinRows`). The match table is a map
from id to row. GenerateBracket's three passes and AdvanceWinner are methods on it; a transaction
that holds its row locks is one atomic step. `AdvanceRuns` lets matches be decided in any order, each
once both its slots are filled, or closed without a winner at any time, with AdvanceWinner calls
interleaved freely, late or repeated. `Favourites` joins generation, persistence and play: it takes
the seeding theorem about the tree to the rows of a bracket played to its end.

**Scoring** (`Scoring`, `DisciplinedRuns`, `WinnableMatches`, `MatchLength`, `EndChanges`,
`EngineAnswers`, `EngineLaws`). Engine actions are functions from state to result, as in the source.
The engine accepts a further point after it has detected a win, so the theorems about runs are about
disciplined ones: after a detected game the next scoring step confirms it, after a detected match
the next one confirms the match, and while a game is being played no accepted removal takes a point
back where that exposes a win of the opponent. Without the last condition the property is false
(`TakingAPointBackCanSpoilAGame`); `TakingAPointBackIsExact` shows for all scores that it is neither
too strict nor too lax.

**Stored matches** (`MatchTable`, `MatchService`, `RowRefinement`, `EventLog`). Each service call
loads the row, asks the engine and stores the answer; this refines the pure engine. RecordEvent and
Undo work under the row lock, so any number of clients make one sequence of steps. The set_scores
JSON is a list of game results, or unreadable.

**Series and standings** (`Series`, `Standings`, `StandingsPoints`). A series is a state machine of
first-to-G counters. A recompute of the standings visits the registered teams in any order, sorts in
place and upserts.

**Rate limiter** (`RateLimit`, `LimiterRuns`, `LimiterGrants`). A class over a map of visitor
objects, with both clock readings of a call. Time is an integer number of nanoseconds; cleanup
rounds happen at arbitrary moments and read the clock anew for every visitor.

The methods are proved equal to functions on their old state, and the theorems are lemmas about those
functions. The functions that transcribe code without a contract of their own (for instance
`Scoring.Point`, `BracketService.Advanced`, `Series.Recorded`, `RateLimit.Served`) are specified by
the lemmas listed here.

## Where the code and its documentation disagree

The model follows the code.

- ConfirmMatchOver says it rejects a tie instead of committing a completed row without a winner
  (api/service/match.go:1794-1796), but the completed row is committed before the check.
  `RowRefinement.ConfirmationCanLoseItsWinner` gives the exact condition.
- A forfeit declared with both teams does not stay forfeited, because setting the result completes
  the row (`RowRefinement.ForfeitStatus`).
- IsEndChange is said to trigger exactly once (api/engine/config.go:103). It triggers again for every
  point of the team behind while the leader stands at the midpoint, and by nothing else as long as
  no point is taken back (`EndChanges.SignalsAreCounted`, `SignalledOnceIff`); a point taken back and
  scored again triggers it again (`EndChanges.EndChangeAfterRemoval`).
- Undo says it reverts the last event, but engine actions log the state after the action, so undoing
  one changes nothing; `EventLog.UndoAfterEngineAction` says for which actions that happens to be
  the state before.
- RemovePoint says it removes the last point; it restores the state only for a point that did not end
  a game (`EngineLaws.RemovePointUndoesPoint`), and as the service calls it only if the serve was
  already where the point put it (`EngineLaws.ServiceUndoesPoint`).
- A side_out event passes the serve to the other team at once, the engine's SideOut only from the
  second server (`EngineLaws.SideOutsAgree`); point events differ as well (`EngineLaws.PointEventsAgree`).
- DetermineSlotInNextMatch is meant as a fallback where no slot is stored (api/bracket/progression.go:7-8),
  but in the losers bracket it gives the other slot (`DoubleBrackets.FallbackSlots`).
- The losers bracket wiring feeds one slot from two matches from size 8 on
  (`DoubleElimination.LosersWiringClashes`), and leaves the last losers match short of a team at every
  size, so that the grand finals are never filled (`DoubleRuns.GrandFinalsAreNeverFilled`).
- GenerateBracket accepts registrations without a team and completes their BYE matches without a
  winner; such a bracket never has a champion (`PersistedBrackets.ChampionIffFieldAndNoneClosed`).
- RecordMatchResult does not look at the child match it is given.
- Cleanup is invisible exactly when a bucket refills within ten minutes and one nanosecond, the
  shortest idle time after which a visitor can be evicted; ten minutes are sufficient.

## Model

| member | source | states |
|---|---|---|
| `PowersOfTwo.NextPowerOfTwoIsLeast` | api/bracket/generator.go:37-42 | nextPowerOfTwo gives a power of two that is at least n, no smaller power of two is, and its logarithm is exact |
| `SeedOrder.BracketSeedOrder` | api/bracket/generator.go:372-388 | the recursive filling of a fresh slice produces the seeding order SeedAt, position by position, for every power of two |
| `SeedOrder.PairSum` | api/bracket/generator.go:383-386 | every first-round pair joins a seed of the upper half with one of the lower half, the two sum to size+1, and the upper one is the seed of the half-size order |
| `SeedOrder.OrderIsPermutation` | api/bracket/generator.go:372-388 | the order holds every seed 1..size exactly once |
| `SeedOrder.BlockHeads` | api/bracket/generator.go:380-387 | cut into 2^k aligned blocks, a position holds one of the top 2^k seeds if and only if it heads its block, and the heads read in order are the seeding order of size 2^k |
| `SeedOrder.TopSeedsApart` | api/bracket/generator.go:369-388 | for every k the top 2^k seeds stand in different aligned blocks of length size/2^k |
| `SeedOrder.EveryBlockHasATopSeed` | api/bracket/generator.go:369-388 | each of those 2^k blocks holds one of the top 2^k seeds |
| `BracketTree.RoundInterval` | api/bracket/generator.go:95-102 | a match is in round r exactly if its number lies in the r-th interval of size/2^r consecutive numbers |
| `BracketTree.NextIsOneRoundOn` | api/bracket/generator.go:144-157 | the winner of every match goes to a later match exactly one round on; only the final, alone in the last round, has no next match |
| `BracketTree.Feeders` | api/bracket/generator.go:130-157 | complete binary tree: a match after round 1 has exactly two feeders, one for slot 1 and one for slot 2, and a first-round match has none |
| `BracketTree.HopsToFinal` | api/bracket/generator.go:144-157 | following the wiring, a match of round r is at the final after exactly numRounds-r hops and not before |
| `BracketTree.PathByHops` | api/bracket/generator.go:108-118 | the hops from a first-round position run through the match that covers its aligned block in each round |
| `BracketTree.TopSeedsMeetLate` | api/bracket/generator.go:369-388 | no two of the top 2^k seeds share a match in any round before only 2^k entrants remain |
| `BracketTree.BetterRankMeetings` | api/bracket/generator.go:73-157 | if the better rank always advances along the wiring, the two ranks of every match of round r are different and sum to size/2^(r-1)+1 |
| `BracketTree.BetterRankFinal` | api/bracket/generator.go:73-157 | in that case the final is rank 1 against rank 2 |
| `SingleElimination.SortBySeed` | api/bracket/generator.go:56-61 | the sorted copy is a permutation of the entries in ascending seed order, ties in any order |
| `SingleElimination.PlaceEntrants` | api/bracket/generator.go:65-83 | position p holds the entrant of the rank the seeding order puts there, or a BYE for a rank without an entry |
| `SingleElimination.MatchOfRound` | api/bracket/generator.go:144-157 | numbers counted round by round agree with the closed forms: round, next match and slot by parity |
| `SingleElimination.GenerateSingleElimination` | api/bracket/generator.go:47-167 | fewer than two entries are refused with their number; otherwise exactly size-1 matches come out, match m being the closed form of the complete binary tree, and the size is the least power of two that holds all entries |
| `SingleElimination.ByesGoToTopRanks` | api/bracket/generator.go:63-71 | the BYE matches are exactly the first-round matches of ranks 1..size-n; the entrant is in slot 1, slot 2 is empty, the recorded BYE winner is that entrant, and no match has two BYEs |
| `SingleElimination.ByeMatchesAreCounted` | api/bracket/generator.go:120-128 | there are exactly size-n BYE matches |
| `SingleElimination.MakeMatch` | api/bracket/generator.go:100-157 | one turn of the inner loop, with its counters and offset sum, builds the match of the closed form |
| `SingleElimination.RoundsFollowTheWiring` | api/bracket/generator.go:95-157 | rounds count from 1 in the matches with entrants to numRounds in the final, one more with every advance; only the last match is named the final, the semifinals are exactly the matches that lead to it, the quarterfinals exactly those that lead to the semifinals |
| `DoubleElimination.GenerateDoubleElimination` | api/bracket/generator.go:171-303 | exactly 2*size-2 matches come out, and each is the winners, losers or grand-finals match of the closed form, wiring included |
| `DoubleElimination.LosersTotal` | api/bracket/generator.go:186-241 | the losers bracket has size-2 matches for every size |
| `DoubleElimination.LoserRoundSizes` | api/bracket/generator.go:203-224 | losers round 1 has a quarter of the size, every even round as many matches as the one before it, every later odd round half as many |
| `DoubleElimination.MinimumOneNeverApplies` | api/bracket/generator.go:215-221 | halving an even losers round leaves at least one match, so the minimum of one never changes a count |
| `DoubleElimination.CreateLosersMatches` | api/bracket/generator.go:201-241 | the round-by-round creation numbers the losers matches without gaps and puts each in its losers round |
| `DoubleElimination.WireLosersMatches` | api/bracket/generator.go:243-259 | the sequential internal wiring is the closed form: match j of the losers bracket feeds match j + j/2 + 1 while there is one |
| `DoubleElimination.EdgesIncrease` | api/bracket/generator.go:243-295 | every winner edge and loser edge leads to a larger match number, and the loser edge beyond the winner edge |
| `DoubleElimination.RoundsAreCountedThrough` | api/bracket/generator.go:186-285 | winners rounds are counted and named as in single elimination, every losers match is in the round its index falls into, counted on from the winners rounds, and the grand finals are one round beyond them |
| `DoubleElimination.AdvancePathsEnd` | api/bracket/generator.go:243-295 | every chain of winner or loser advances climbs in match numbers and is no longer than the bracket |
| `DoubleElimination.FirstRoundLosersGetOwnSlots` | api/bracket/generator.go:261-274 | from size 4 on, and only then, every first-round loser drops into a match of losers round 1, in a slot no other first-round loser gets |
| `DoubleElimination.LosersWiringClashes` | api/bracket/generator.go:243-274 | some slot is fed by two different edges if and only if the bracket size is at least 8 |
| `DoubleRuns.LastLosersMatchIsShort` | api/bracket/generator.go:243-274 | from size 4 on one slot of the last losers match is fed by no match at all |
| `DoubleRuns.GrandFinalsFeeders` | api/bracket/generator.go:276-295 | the grand finals are fed by exactly the winners final, in slot 1, and from size 4 on the last losers match, in slot 2 |
| `DoubleRuns.GrandFinalsAreNeverFilled` | api/service/bracket.go:173-380 | no double-elimination bracket GenerateBracket persists can be played to its end: as long as matches are won only with both their teams there, no run of results and advances fills slot 2 of the grand finals, at any size |
| `RoundRobin.CircleIsPermutation` | api/bracket/generator.go:328-363 | in every round the circle is a permutation of the participants with position 0 fixed |
| `RoundRobin.CircleMovesUp` | api/bracket/generator.go:328-363 | everybody starts at his own place; with every round all but the first participant move up one place, from the last back to place 1 |
| `RoundRobin.Rotate` | api/bracket/generator.go:360-363 | the overlapping in-place copy takes the circle of one round to the circle of the next |
| `RoundRobin.GenerateRoundRobin` | api/bracket/generator.go:308-367 | the generated matches are, one for one and numbered from 1, the games of the circle schedule; fewer than two entries are refused |
| `RoundRobin.OppositeOnlyInMeetingRound` | api/bracket/generator.go:334-340 | two participants stand at opposite places of the circle in exactly one round (halving modulo the odd number n-1) |
| `RoundRobin.EveryPairPlaysOnce` | api/bracket/generator.go:305-367 | every unordered pair of entries with non-zero seeds has exactly one game in the whole schedule, for any number of entries |
| `RoundRobin.NobodyPlaysTwiceInARound` | api/bracket/generator.go:334-358 | no two games of a round share a participant, and nobody plays himself or a BYE |
| `RoundRobin.EveryTwoSeedsFaceEachOtherOnce` | api/bracket/generator.go:347-357 | in the generated matches themselves, every two of distinct non-zero seeds face each other in exactly one match |
| `RoundRobin.NoSeedPlaysTwiceInARound` | api/bracket/generator.go:334-358 | in the generated matches no seed plays twice in a round; rounds are numbered from 1, in match order, and named by their numbers |
| `RoundRobin.LowerPlaceIsHome` | api/bracket/generator.go:334-340 | the home participant of a game stands at the lower of its two opposite places, so the first entry is always at home |
| `RoundRobin.GamesAreCounted` | api/bracket/generator.go:305-367 | n entries of non-zero seed play exactly n*(n-1)/2 games |
| `RoundRobinRows.RowOfGame` | api/service/bracket.go:79-201 | row k of the stored round robin is that of the k-th game: the team and the seed of the home registration first, those of the other second, waiting to be played and leading nowhere |
| `RoundRobinRows.EveryTwoTeamsMeetOnce` | api/service/bracket.go:79-201 | in the stored rows every two registered teams meet in exactly one match, whatever their seeds and the other registrations |
| `RoundRobinRows.GenerateSchedule` | api/service/bracket.go:36-288 | generating from two or more registrations leaves such a table of n*(n-1)/2 rows |
| `Scoring.ParseScoringConfig` | api/engine/config.go:28-58 | only the two scoring types (or none) are accepted, the result is always playable (positive targets, at least one game to win), and each setting is kept if positive and replaced by its default otherwise |
| `Scoring.CountWins` | api/engine/scoring.go:285-295 | the loop counts the recorded games of each team |
| `Scoring.ScoringConfig.GamesToWin` | api/engine/config.go:60-64 | half the games of a set, rounded up |
| `Scoring.ScoringConfig.Midpoint` | api/engine/config.go:97 | half the target score, rounded up |
| `DisciplinedRuns.OpenScores` | api/engine/config.go:66-79 | neither team has won if and only if both are short of the target or within the margin of each other, and both are short of the cap if there is one |
| `DisciplinedRuns.PointFromSafeScore` | api/engine/config.go:67-79 | from a safe score a point never makes the opponent win, and a winning score is PointsToWin with at least the margin, above it with exactly the margin, or exactly max(PointsToWin, MaxPoints) |
| `DisciplinedRuns.WinningPoint` | api/engine/scoring.go:75-137 | from a safe score, a point that ends a game appends one game, rightly won by the team that just scored; any other point leaves the score open |
| `DisciplinedRuns.SafeScoresGoWell` | api/engine/scoring.go:75-159 | a score is safe if and only if, after every play of points and side-outs from it, the game that ends is rightly won by the team that scored last, in both scoring types |
| `DisciplinedRuns.TakingAPointBack` | api/engine/scoring.go:164-187 | an accepted removal leaves a safe score safe if and only if it does not expose the opponent: the opponent at the target would be ahead by the margin, or by more where the opponent is one point short of the cap |
| `DisciplinedRuns.TakingAPointBackIsExact` | api/engine/scoring.go:75-187 | after an accepted removal every play goes well if and only if it did not expose the opponent, which the caller sees from the two scores beforehand |
| `DisciplinedRuns.TakingAPointBackCanSpoilAGame` | api/engine/scoring.go:161-187 | an input that goes wrong: from 10-11, to 11 by 2 without a cap, one removal and one point record a game that was not rightly won |
| `DisciplinedRuns.StepKeepsInvariant` | api/engine/scoring.go:75-272 | every engine action, accepted or refused, keeps the run invariant when it is disciplined |
| `DisciplinedRuns.DisciplinedRunIsSound` | api/engine/scoring.go:75-219 | on every disciplined run games are numbered 1, 2, 3, ... and rightly won, both win counts stay below GamesToWin until the match is detected as over, then exactly one team has exactly GamesToWin, and at most 2*GamesToWin-1 games are ever recorded |
| `DisciplinedRuns.NoGameEndsUndetected` | api/engine/scoring.go:191-203 | while a game is being played the engine refuses to confirm its end and changes nothing |
| `DisciplinedRuns.LoserServesFirst` | api/engine/scoring.go:114-219 | from the winning point of a game through its confirmation: the game is on record, the next one starts at love, and the team that lost serves first from the first server |
| `MatchLength.CappedMatchesEnd` | api/engine/scoring.go:75-219 | with a cap, no disciplined run without taking points back scores more than (2*GamesToWin-1) games of twice the cap less one point each |
| `MatchLength.ProgressIsBounded` | api/engine/scoring.go:75-219 | the longest possible games on record plus the points of the open game never exceed that bound |
| `DisciplinedRuns.RecordedGamesStayInRuns` | api/engine/scoring.go:75-272 | under any actions at all, disciplined or not, recorded games are a prefix of every later record |
| `WinnableMatches.EitherTeamCanStillWin` | api/engine/scoring.go:75-219 | whatever the score, from every disciplined state before a win of the match is detected either team can still win the match, by points, side-outs and confirmed games in disciplined play |
| `WinnableMatches.RunsStayWinnable` | api/engine/scoring.go:75-260 | after every disciplined run that has not ended the match, a paused one included, some disciplined continuation lets either team win |
| `EngineAnswers.PointIsAccepted` | api/engine/scoring.go:75-83 | a point is refused if and only if the match is not in progress or, in side-out scoring, the team is not serving |
| `EngineAnswers.ActionIsAccepted` | api/engine/scoring.go:139-272 | every other action is accepted if and only if it has the right status, a team of the match where it names one, a point to take where it takes one, and the current game on record where it ends one |
| `EngineAnswers.RefusalsChangeNothing` | api/engine/scoring.go:67-73 | a refusal changes and signals nothing; a wrong status is its first reason |
| `EngineAnswers.ReasonsToRefuse` | api/engine/scoring.go:75-272 | with the right status the reason names the serve, the missing or other game, the team without points or the invalid team |
| `EngineAnswers.SideOutPassesTheServe` | api/engine/scoring.go:139-159 | from any serve, legal or not, the second server follows the first and otherwise the first server of the other side comes up; nothing else moves |
| `EngineAnswers.RemovalIsUndone` | api/engine/scoring.go:161-187 | in any state, giving the point and the serve back undoes a removal |
| `EngineAnswers.NextGameStarts` | api/engine/scoring.go:189-219 | ending a game, in any state that allows it, starts the next at love with the first server of the loser, and the game cannot be ended again |
| `EngineAnswers.StatusMoves` | api/engine/scoring.go:221-272 | the accepted actions on the match as a whole move its status and the pause flag and nothing else, and no other action moves these; only points signal |
| `EndChanges.EndChangeAtMidpoint` | api/engine/config.go:86-105 | with both teams below the midpoint, a point signals the end change if and only if it is the deciding game and the scoring team reaches the midpoint |
| `EndChanges.EndChangeRepeats` | api/engine/config.go:97-104 | once a team has reached the midpoint, a point signals the end change again if and only if it is the deciding game, the leader still stands at the midpoint and the scoring team was below it |
| `EndChanges.SignalsAreCounted` | api/engine/config.go:103-104 | a play of points and side-outs in the deciding game signals once for reaching the midpoint and once more for every point of the team behind while the leader stands there |
| `EndChanges.SignalledOnceIff` | api/engine/config.go:103-104 | from below the midpoint a play signals at most once if and only if the team behind never scores while the leader stands at the midpoint |
| `EndChanges.EndChangeAfterRemoval` | api/engine/config.go:103-104 | a point from below the midpoint that is taken back, which exposes nobody, and scored again signals again if it signalled before |
| `EngineLaws.RemovePointUndoesPoint` | api/engine/scoring.go:161-187 | taking back a point with the serve from before restores the whole state if and only if the point did not end a game |
| `EngineLaws.ServiceUndoesPoint` | api/service/match.go:1691-1692 | taking back a point as the service does, with the serve as it is, restores the state if and only if the point ended no game and, in rally scoring, the first server of the scoring team was up before it |
| `EngineLaws.SideOutCycle` | api/engine/scoring.go:139-159 | two side-outs pass the serve to the other team at the same server number, four restore the state, fewer do not |
| `EngineLaws.ResumeUndoesPause` | api/engine/scoring.go:242-260 | resuming gives a paused match back as it was |
| `EngineLaws.StatusLifecycle` | api/engine/scoring.go:189-272 | a match changes its status only by confirming, pausing, resuming or forfeiting it, each only from the right status |
| `EngineLaws.FinishedIsFinal` | api/engine/scoring.go:75-272 | completed, forfeited and cancelled matches are unchanged by every run of actions |
| `EngineLaws.LoggedTypesDiffer` | api/service/match.go:1624-1631 | the logged event types tell engine actions apart |
| `EngineLaws.SideOutsAgree` | api/service/match.go:1099-1110 | a recorded side_out event does what the engine's SideOut does if and only if the server number is stored and the serving column is stored exactly when the second server is up |
| `EngineLaws.PointEventsAgree` | api/service/match.go:1088-1098 | a recorded point event does what the engine's Point does if and only if the new score is no win, and the scoring team is serving or, in rally scoring, the first server is up |
| `EngineLaws.ServeStaysLegal` | api/db/migrations/00018_create_matches.sql:43-44 | every action of the service keeps the serving columns in the range the database admits, except exactly a rally point for a team that is neither 1 nor 2 |
| `EngineLaws.ScoresBalance` | api/engine/scoring.go:75-187 | under any actions, as long as the game number stands, each score is its start value plus the accepted points less the points taken back |
| `MatchService.LoadConfig` | api/service/match.go:1475-1492 | whatever the stored rules, the loaded configuration is playable; each positive rule carries over, any other is the default, and a cap is the stored one |
| `MatchService.AppendedIsLatest` | api/db/queries/match_events.sql:15-47 | an event numbered by GetNextSequenceID becomes the one GetLatestMatchEvent returns, whatever the log held |
| `MatchService.Service.ApplyEngineResult` | api/service/match.go:1500-1607 | stores the state, keeps the set scores when no game is recorded, and appends one event with the next sequence id and the state after the action; other rows and logs are untouched |
| `MatchService.Service.Perform` | api/service/match.go:1610-1740 | a missing match or a refusal by the engine changes nothing; otherwise row and log become those of the stored engine answer |
| `MatchService.Service.ConfirmMatchOver` | api/service/match.go:1742-1826 | the engine step is committed before the winner is settled, so a tie is refused with the row already completed |
| `MatchService.Service.DeclareForfeit` | api/service/match.go:1923-1972 | a forfeit goes through the engine, and a result is set only when both teams are given |
| `MatchService.Service.RecordEvent` | api/service/match.go:1031-1132 | only a match in progress takes events; the log gains the state before the event, and only the scoring columns change |
| `MatchService.Service.Undo` | api/service/match.go:1136-1219 | only a match in progress with a log can be undone; the latest event's snapshot is restored and the log gains the state before the undo and what was undone |
| `RowRefinement.CallEngine` | api/service/match.go:1610-1644 | a service call replaces its own row by the row step, leaves all other rows alone, and succeeds exactly when the engine accepts |
| `RowRefinement.LoadAfterStore` | api/service/match.go:1443-1607 | loading the row just stored gives back the engine's state with the pause flag settled by the status, under unchanged rules, teams, wiring and result |
| `RowRefinement.RoundTripIsExact` | api/service/match.go:1443-1607 | the round trip is exact for every successful action except forfeiting a paused match, and fails for that one |
| `RowRefinement.StoreAfterLoad` | api/service/match.go:1443-1607 | storing a loaded row changes nothing but a serve not stored yet, which becomes the first server of team 1; games that cannot be read stay as they are |
| `RowRefinement.SettlingCommutes` | api/engine/scoring.go:75-272 | no engine action depends on the pause flag |
| `RowRefinement.RunRefines` | api/service/match.go:1443-1607 | any single-writer run of service calls through the stored row refines the run of the pure engine, and touches neither teams nor result |
| `WinnableMatches.StartedMatchesCanBePlayedOut` | api/service/match.go:1610-1740 | every started match can be played out through the service, to a win of either team |
| `RowRefinement.ConfirmedResult` | api/service/match.go:1765-1820 | for every record and every input: two named teams win and lose as named; if none is named, the team with more games wins; in every other case the result stays as it was |
| `RowRefinement.TiesAreRefused` | api/service/match.go:1794-1800 | a confirmation is refused as tied if and only if no team is named and both have as many games |
| `RowRefinement.PlayedOutMatchGetsItsWinner` | api/service/match.go:1765-1792 | after a disciplined match, confirming without naming a winner is never refused as tied and names the team with GamesToWin wins as winner and the other as loser |
| `RowRefinement.ConfirmationCanLoseItsWinner` | api/service/match.go:1794-1820 | a confirmed row is left completed without a winner exactly when the games are tied, a team is missing, or only one usable team was named |
| `RowRefinement.ForfeitStatus` | api/service/match.go:1951-1972 | a declared forfeit ends as forfeited, with the result as it was, if and only if a team is missing; otherwise it ends as completed, won and lost by the teams as named |
| `EventLog.CallService` | api/service/match.go:1031-1219 | RecordEvent and Undo on a match in progress are exactly the steps of the log model, and change only the scoring columns of that match |
| `EventLog.SnapshotsAreStatesBefore` | api/service/match.go:1063-1077 | in every run, on top of any log, every stored snapshot is the scoring state just before its event |
| `EventLog.UndoRestores` | api/service/match.go:1194-1204 | an undo right after a recorded event restores every scoring column |
| `EventLog.UndoSwaps` | api/service/match.go:1136-1219 | an undo exchanges the scoring columns with the latest snapshot |
| `EventLog.UndosToggle` | api/service/match.go:1136-1219 | n undos in a row leave the state as it was for even n (a second undo is a redo) and restore the latest snapshot for odd n; no chain of undos reaches further back |
| `EventLog.ScoresCountPoints` | api/service/match.go:1082-1122 | without undos each score is its start value plus the number of its point events, and the log grows by one per event |
| `EventLog.NoPointIsLost` | api/service/match.go:1040-1132 | every interleaving of two clients adds up the points of both |
| `EventLog.RecordedServe` | api/service/match.go:1082-1122 | a rally point gives the serve to its team, a side_out passes team and server number on, and an event that is neither changes no column |
| `EventLog.ServeFollowsSideOuts` | api/service/match.go:1099-1110 | without undos in side-out scoring, team and server number have changed exactly as often as side_outs were recorded, so a second server never follows the first of its team |
| `EventLog.LogsStayConsecutive` | api/service/match.go:1031-1219 | sequence ids stay 1, 2, 3, ... without gaps, whether events are recorded, undone or logged by the engine |
| `EventLog.UnchangedScoring` | api/service/match.go:1545-1554 | an engine action leaves every scoring column as it was if and only if it ends, pauses, resumes or forfeits the match or calls a timeout, and the serve is stored |
| `EventLog.UndoAfterEngineAction` | api/service/match.go:1571-1594 | an undo right after an engine action keeps the state of that action; an undo that is not refused brings back the columns from before it exactly for a timeout or a resumption with the serve stored |
| `BracketService.Service.BuildEntries` | api/service/bracket.go:79-94 | one entry per registration, with its team and its positive seed, or else its place in the list |
| `BracketService.Service.CreateMatches` | api/service/bracket.go:130-171 | the bracket's rows are created under distinct ids that were not in use; other rows stay |
| `RowRefinement.CreatedMatchIsFresh` | api/service/bracket.go:132-148 | a created row is loaded by the match service as a fresh match under the default scoring rules, undecided |
| `BracketService.Service.WireMatches` | api/service/bracket.go:173-201 | every row is wired to the ids of its next matches and nothing else changes |
| `BracketService.Service.AdvanceByes` | api/service/bracket.go:203-270 | the database ends as the pass over the rows says, rows of other brackets untouched |
| `BracketService.Service.GenerateBracket` | api/service/bracket.go:36-288 | a refused request changes nothing; otherwise the stored rows are those of the generated bracket of the format, wired, with the BYEs advanced, beside untouched rows of other divisions |
| `BracketService.Service.AdvanceWinner` | api/service/bracket.go:293-387 | one transaction, all or nothing, that takes the row locks of the match, its next match and its loser's next match in this order |
| `BracketService.AdvanceWritesOnlyItsSlots` | api/service/bracket.go:315-380 | a committed advance writes the winner into its slot of the next match and the loser into its slot of the losers match, fallback slots included, and leaves every other slot, seed and row alone |
| `BracketService.AdvanceIsAccepted` | api/service/bracket.go:296-380 | an advance is accepted if and only if the match exists, is finished, has a winner and the rows it sends to exist, with the reason for each refusal |
| `BracketService.ChangedRowsAreLocked` | api/service/bracket.go:296-372 | the locked rows are exactly the match and the rows it sends to, and no other row changes |
| `BracketService.ByeWinnerIsEitherSide` | api/service/bracket.go:212-220 | a BYE match is won from either slot alike, by a team opposite an unseeded slot |
| `DoubleBrackets.WinnersLeadOn` | api/service/bracket.go:173-201 | in the stored rows of a double elimination every winners match leads to match size/2 + (k+1)/2, in the slot of its parity, and the winners final to slot 1 of the grand finals |
| `DoubleBrackets.LosersLeadOn` | api/service/bracket.go:173-201 | in the stored rows the losers match of index j leads to index j + j/2 + 1 if there is one, the last one to slot 2 of the grand finals, and any other nowhere |
| `DoubleBrackets.LosersDrop` | api/service/bracket.go:185-189 | in the stored rows, from size 4 on, the loser of first-round match k drops to match size + (k-1)/2, in the slot of its parity; no other loser goes anywhere |
| `DoubleBrackets.EveryWinnerAdvances` | api/service/bracket.go:293-380 | at any moment of a double elimination every finished match with a winner is advanced, and no other |
| `DoubleBrackets.FirstRoundAdvance` | api/service/bracket.go:315-380 | after a first-round advance the loser stands in its losers match and the winner one round on, and no other slot of any row has changed |
| `DoubleBrackets.WinnersBracketIsSingle` | api/service/bracket.go:116-274 | the stored winners bracket is that of a single elimination of the same registrations, BYEs included, but for the wiring; losers bracket and grand finals start empty |
| `DoubleBrackets.FallbackSlots` | api/bracket/progression.go:3-14 | the fallback slot by parity is the wired one in the winners bracket and the wrong one for every losers match before the last |
| `DoubleBrackets.GenerateDouble` | api/service/bracket.go:36-288 | generating from two or more registrations leaves a table to which these statements apply |
| `ByePlacement.ByePassRows` | api/service/bracket.go:203-270 | after any number of matches of the third pass, every row is in the closed form RowAfter |
| `ByePlacement.FirstRoundAfterByes` | api/service/bracket.go:209-239 | for any registrations: a BYE match is completed with nobody in slot 2, and won by the entrant in slot 1 if and only if that registration has a team; every other first-round match waits to be played, a slot being empty exactly where no team is registered |
| `ByePlacement.LaterRoundsAfterByes` | api/service/bracket.go:241-268 | for any registrations: a slot after round 1 holds the entrant and the seed of its feeder if that is a BYE match whose entrant has a team, and is empty otherwise |
| `ByePlacement.ByesFillDifferentSlots` | api/service/bracket.go:247-268 | two BYE matches never fill the same slot |
| `AdvanceRuns.AdvanceEffect` | api/service/bracket.go:293-348 | in a single-elimination bracket an advance does nothing for a match without a winner and for the final, and otherwise fills exactly the wired slot |
| `AdvanceRuns.AdvanceKeepsDecision` | api/service/bracket.go:293-348 | an advance, late or repeated, never disturbs a decided match or a slot already filled |
| `AdvanceRuns.StepKeepsInvariant` | api/service/bracket.go:290-387 | every completion, with or without a winner, and every advance keeps: a filled slot holds the winner of its unique feeder, only a finished match has a winner, and it comes from one of its slots |
| `AdvanceRuns.RunsAreSafe` | api/service/bracket.go:290-387 | in every run, completions and advances interleaved in any order, that invariant holds and no written slot or result is ever lost or overwritten |
| `AdvanceRuns.WinnersWonTheirWay` | api/service/bracket.go:317-348 | the winner of any finished match has won one match in every round before it, along the wiring |
| `AdvanceRuns.QuietMeansDecided` | api/service/bracket.go:293-348 | a bracket in which nothing is left to do, and no match with both teams ended without a winner, has a winner in every match |
| `AdvanceRuns.EveryRunEndsWithAChampion` | api/service/bracket.go:293-348 | every run that has come to rest without closing a match ends with a champion who won every match of one path from the first round to the final |
| `AdvanceRuns.ChampionIffNoneClosed` | api/service/bracket.go:307-313 | a bracket at rest has a champion if and only if no match of the run was closed without a winner, since AdvanceWinner refuses such a match |
| `AdvanceRuns.RunsComeToRest` | api/service/bracket.go:293-348 | at most three steps per match of any run can change anything |
| `PersistedBrackets.PersistedBracketIsSafe` | api/service/bracket.go:116-274 | the table GenerateBracket leaves satisfies the invariant of these runs for any registrations, with or without teams |
| `PersistedBrackets.EndsAreWonIffByesHaveTeams` | api/service/bracket.go:222-239 | every ended match of that table has a winner if and only if every entrant with a BYE has a team |
| `PersistedBrackets.PersistedBracketIsReady` | api/service/bracket.go:116-274 | the first round can be played and every ended match is won if and only if every entrant has a team |
| `PersistedBrackets.ChampionIffFieldAndNoneClosed` | api/service/bracket.go:36-348 | played to rest by any run from that table, a bracket has a champion if and only if every entrant has a team and no match was closed without a winner |
| `PersistedBrackets.RankedRegistrations` | api/service/bracket.go:79-94 | ranked entries of registrations have positive seeds, and positive teams if and only if every registration has a team |
| `PersistedBrackets.GenerateReady` | api/service/bracket.go:36-288 | generating from two or more registrations leaves a table all runs keep safe, and one ready to be played to a champion if and only if all registrations have a team |
| `Favourites.FavouritesMeet` | api/service/bracket.go:130-348 | when the better rank wins every match of a persisted bracket of teams, the two ranks of every match of round r sum to size/2^(r-1)+1, an empty BYE slot standing for the missing rank |
| `Favourites.FavouriteWinsTheFinal` | api/service/bracket.go:130-348 | in that case the final is rank 1 against rank 2 and rank 1 is the champion |
| `Favourites.SeedingKeepsFavouritesApart` | api/service/bracket.go:36-387 | when every entrant has a team: from the persisted bracket through every run played to rest in which the better rank wins, the final is rank 1 against rank 2, won by rank 1 |
| `RowLocks.LocksIncrease` | api/service/bracket.go:302-357 | AdvanceWinner locks its rows in strictly increasing match-number order, whatever the state of the row |
| `RowLocks.NoDeadlock` | api/service/bracket.go:290-357 | transactions that take increasing locks never wait for each other in a circle |
| `RowLocks.AdvancesNeverDeadlock` | api/service/bracket.go:293-357 | no AdvanceWinner transactions on one wired bracket, for any of its matches and each holding any number of its locks, ever wait for each other in a circle |
| `RowLocks.PersistedBracketIsWired` | api/service/bracket.go:116-274 | the brackets GenerateBracket persists in the two elimination formats are wired that way |
| `Standings.AddMatch` | api/service/standings.go:192-221 | a match adds to a team exactly its contribution: side, score, and win, loss or draw |
| `Standings.StatsAddUp` | api/service/standings.go:181-225 | for every list of matches, wins, losses and draws make up the matches played and determine the standing points |
| `Standings.WinsAreMatchesWon` | api/service/standings.go:210-221 | wins and losses count exactly the completed matches that name the team as winner, or only as loser |
| `Standings.StandingsTable.RecomputeStandings` | api/service/standings.go:178-268 | each registered team gets exactly one entry with its statistics, ranks are 1..n in an order that respects the comparison, admin columns are kept, and entries of unregistered teams stay |
| `Standings.RankingRespects` | api/service/standings.go:227-238 | the ranking respects standing points, then differential, then wins |
| `Standings.TotalsByMatch` | api/service/standings.go:178-225 | for any matches at all, the totals over the registered teams are the sum over matches of what their registered sides take |
| `Standings.StandingsConserve` | api/service/standings.go:178-268 | when every completed match is between two different registered teams and is decided between them or drawn, summed wins equal summed losses, points for equal points against, and every match counts twice |
| `Standings.WinsEqualLossesIff` | api/service/standings.go:209-221 | for any matches at all, summed wins equal summed losses if and only if as many matches count a win alone, as a BYE match does, as count a loss alone |
| `Standings.OneSidedMatchShifts` | api/service/standings.go:197-208 | a completed match with one registered side shifts the balance of points by exactly its score difference |
| `StandingsPoints.PointsAreScores` | api/service/standings.go:197-208 | points for a team are the sum of its own scores over its completed matches, points against that of its opponents |
| `StandingsPoints.DrawsAreMatchesDrawn` | api/service/standings.go:210-221 | draws count exactly the completed matches that name the team neither as winner nor as loser |
| `StandingsPoints.EveryPointIsCounted` | api/service/standings.go:178-268 | when every completed match is between two different registered teams, summed points for and summed points against are each the points of all completed matches |
| `Standings.DefaultStandingsConfig` | api/service/standings.go:92-102 | a win is worth 1, 3 or 2 points by method, more than a draw; a draw is worth nothing only under win_loss, and a loss nothing |
| `Sorting.SortSlice` | api/service/standings.go:227-238 | the in-place sort leaves a permutation in which no later element is less than an earlier one |
| `Series.SeriesService.StartSeries` | api/service/match_series.go:298-394 | only a pending series starts; the child matches are numbered from 1, one per match type or 2*games_to_win-1 |
| `Series.SeriesService.RecordMatchResult` | api/service/match_series.go:398-496 | only a series in progress takes results, only of its own teams; reaching games_to_win completes it and cancels what is still scheduled |
| `Series.SeriesService.ForfeitSeries` | api/service/match_series.go:500-550 | a pending or running series is lost by the team that forfeits, which must be one of its teams |
| `Series.SeriesService.CancelSeries` | api/service/match_series.go:554-591 | a pending or running series can be cancelled, its scheduled matches with it |
| `Series.StepKeepsInvariant` | api/service/match_series.go:298-591 | every call keeps: counters below games_to_win unless completed, completed only with an exact winner and a loser with fewer |
| `Series.TerminalIsFinal` | api/service/match_series.go:298-591 | a completed, forfeited or cancelled series refuses every call and never changes |
| `Series.CallIsAccepted` | api/service/match_series.go:298-591 | each call is accepted if and only if the status allows it and the team it names is one of the series, with the reason for each refusal |
| `Series.EitherTeamCanStillWin` | api/service/match_series.go:398-496 | from any score of a series in progress either team wins it by as many results in a row as it is short of games_to_win, and not by fewer |
| `Series.OtherCallsKeepTheScore` | api/service/match_series.go:298-591 | starting, forfeiting and cancelling leave the score alone, and only a forfeit decides the series, against the team that forfeits |
| `Series.RunsKeepTheScore` | api/service/match_series.go:398-496 | in every run the invariant holds and at most 2*games_to_win-1 results are recorded |
| `Series.ChildrenCoverResults` | api/service/match_series.go:340-377 | the child matches cover the results of every run if and only if there are no match types or at least 2*games_to_win-1 of them |
| `Series.EndingClearsTheSchedule` | api/service/match_series.go:483-488 | the call that ends a series leaves no child match scheduled or warming up |
| `Series.CancellingSparesTheOthers` | api/service/match_series.go:483-488 | only child matches that are scheduled or warming up are cancelled; the others stay as they are |
| `Series.StartAddsChildren` | api/service/match_series.go:340-377 | a start adds one scheduled child match per match type, or 2*games_to_win-1, numbered from 1 |
| `Series.CallsFavourTheRightTeam` | api/service/match_series.go:416-426 | a result counts for its winner only, and whoever forfeits loses |
| `Series.ChildrenAreNumbered` | api/service/match_series.go:351-377 | child matches are numbered 1..n |
| `RateLimit.RateLimiter.Allow` | api/middleware/rate_limit.go:65-89 | answers and updates the visitor's bucket as the token-bucket function says, for an unknown and a known key, other visitors untouched |
| `RateLimit.RateLimiter.Cleanup` | api/middleware/rate_limit.go:45-62 | whatever the order of the keys, exactly the visitors idle for more than ten minutes go |
| `LimiterRuns.RunInBounds` | api/middleware/rate_limit.go:65-89 | in every run, with cleanup or without, tokens stay between 0 and burst |
| `LimiterRuns.WindowBound` | api/middleware/rate_limit.go:65-89 | between two requests of a key at times s and t, anywhere in a run, at most burst + rate*floor((t-s)/interval) requests are allowed |
| `LimiterRuns.WindowBoundNeedsBurst` | api/middleware/rate_limit.go:69-73 | for a single first request that bound holds if and only if burst is at least 1 |
| `LimiterRuns.WindowBoundSurvivesCleanup` | api/middleware/rate_limit.go:45-89 | with cleanup at arbitrary moments the window bound holds on every run if and only if a bucket refills completely within ten minutes and a nanosecond and burst is at least 1 |
| `LimiterRuns.RefusedOnlyWhenSpent` | api/middleware/rate_limit.go:75-88 | a request is refused exactly when no token is left and none has been earned since the last visit |
| `LimiterRuns.EvictionIsInvisible` | api/middleware/rate_limit.go:45-89 | every run of requests and cleanup rounds gets the same answers as from a limiter that never deletes if and only if a bucket refills completely within ten minutes and a nanosecond and burst is at least 1 |
| `LimiterRuns.InstalledLimiterHidesEviction` | api/router/router.go:393 | the installed limits (60 a minute, burst 60) satisfy that condition |
| `LimiterRuns.BurstSpendsBudget` | api/middleware/rate_limit.go:75-88 | of requests at one moment exactly as many are allowed as the bucket can spend, the first ones |
| `LimiterGrants.CallBalance` | api/middleware/rate_limit.go:65-89 | an allowed request is charged one token and a refused one none: what it takes and what it leaves are together the tokens before plus the refill, up to the burst |
| `LimiterGrants.WindowGrantsBudget` | api/middleware/rate_limit.go:65-89 | the lower counterpart of the window bound: wherever a window stands in a run, with cleanup or without, the first requests of the key in it are all allowed, as many as the key had budget at the first one |
| `LimiterGrants.IdleTimeEarnsBudget` | api/middleware/rate_limit.go:75-80 | that budget is the whole burst for a new or evicted key, and otherwise at least the rate for every whole interval since the last request, up to the burst |
| `LimiterGrants.FirstBurstIsAllowed` | api/middleware/rate_limit.go:65-89 | on every timeline the first burst requests of a new key are all allowed, whatever the clock readings, other keys and cleanup rounds between them |
| `LimiterGrants.NoBurstAllowsOne` | api/middleware/rate_limit.go:69-88 | without a positive burst and cleanup exactly the first request of a key is ever allowed |
| `LimiterGrants.RefillIsOdd` | api/middleware/rate_limit.go:76-77 | intervals are counted toward zero, so a clock set back takes what it would have brought |
| `LimiterGrants.CleanupKeepsTheRecent` | api/middleware/rate_limit.go:45-60 | after any run a cleanup round leaves exactly the visitors whose last request is at most ten minutes old |

## Left out

- Integer widths: scores, counters, ids and times are mathematical integers; 32-bit and 64-bit wrap-around is not modelled.
- Database constraints: foreign keys and CHECK clauses are not modelled. An engine call or event with a team other than 1 or 2, or with an unlisted event type, is stored by the model where the database would refuse it and roll back; `EngineLaws.ServeStaysLegal` says when the serving columns are affected. Connection and commit errors are left out too.
- Concurrent engine calls: ScorePoint and the other engine actions read the row before they lock it, so the refinement is claimed for a single writer only.
- Logs that mix engine actions with RecordEvent and Undo: beyond `EventLog.UndoAfterEngineAction` and the fact that every snapshot written by RecordEvent or Undo is the state before it, nothing is claimed.
- AdvanceRuns.RunsAreSafe: a match is decided for a team in one of its slots, or closed without a winner; the service also accepts explicit winner ids that are in neither slot, and these runs do not include that.
- AdvanceRuns.ChampionIffNoneClosed: ConfirmMatchOver and DeclareForfeit commit the ended row first and write the winner in a second transaction, so a row can stand closed for a while and then get its winner. These runs make ending a match with a winner one step, and a match closed without one stays so.
- DisciplinedRuns.DisciplinedRunIsSound: taking a point back during a game is restricted as described above, because the property is false without it, by the exact condition of `TakingAPointBackIsExact`.
- DoubleElimination.WireLosersMatches: states what the sequential wiring does, not that it plays a correct losers bracket, which it does at no size; losers of later winners rounds are unwired in the source too.
- Series.SeriesService.RecordMatchResult: the child match id is ignored, as in the source; its existence and status are not checked.
- Standings.StandingsTable.RecomputeStandings: the season lookup, the JSON override of the weights and the registration queries are parameters (the weights and the set of teams).
- BracketService.Service.GenerateBracket: the lookup of the division and its registrations are parameters; the response is left out, and with it the rows it shows from before the BYE winners moved.
- RateLimit.RateLimiter.Cleanup: one cleanup round is one step under the mutex; the ticker and the shutdown channel are not modelled.
- RateLimit.RateLimiter.constructor: the rate is non-negative and the interval positive, which the division needs; starting the cleanup goroutine is left out.
- Sorting.SortSlice: an insertion sort with the contract of sort.Slice; the library's own algorithm is not modelled.
- Slice capacity: lists are values, so the sharing of a backing array by append is not modelled.
- Floating-point logarithms and powers are exact powers of two.
- Stored rows: the columns for division, tournament, creator, match type, timeouts, round and round name are left out; rounds and round names are proved of the generated matches.
- Texts: round names, statuses, event types and errors are datatypes; event payloads other than Undo's, score calls and error messages are left out.
- The sets-to-win and freeze-at settings are stored but unused by the engine, as in the source.
- StartMatch, OverrideScore, UpdateStatus, CompleteMatch, creation of series and single child matches: lookups and field copies that would add only easy members.
- HTTP handlers, sessions, WebSocket and Redis publication, response enrichment, overlays and the web client.
- Capacity and waiting lists of registrations, and the status tables of leagues, seasons, tournaments and divisions.
