/** GenerateRoundRobin: the circle method is a one-factorisation. */
module RoundRobin {
  import opened Wrappers
  import opened Brackets

  /** The participant at position p of the circle after t rotations (0 <= t < n rounds):
      position 0 stays, the others move up one place per rotation, around n - 1 places. */
  function IndexAt(n: nat, t: nat, p: nat): int {
    if p == 0 then 0 else if p > t then p - t else p - t + n - 1
  }

  /** Where a participant stands after t rotations. */
  function PositionAt(n: nat, t: nat, x: nat): int {
    if x == 0 then 0 else if x + t < n then x + t else x + t - (n - 1)
  }

  /** The circle is a permutation of the participants in every round, with 0 fixed. */
  lemma {:induction false} CircleIsPermutation(n: nat, t: nat, x: nat)
    requires t < n && x < n
    ensures 0 <= IndexAt(n, t, x) < n && 0 <= PositionAt(n, t, x) < n
    ensures PositionAt(n, t, IndexAt(n, t, x)) == x && IndexAt(n, t, PositionAt(n, t, x)) == x
    ensures IndexAt(n, t, x) == 0 <==> x == 0
  {
  }

  /** Everybody starts at his own place; with every round all but the first participant move up one
      place, from the last back to place 1. */
  lemma {:induction false} CircleMovesUp(n: nat, t: nat, x: nat)
    requires t + 1 < n && x < n
    ensures PositionAt(n, 0, x) == x
    ensures PositionAt(n, t + 1, x) ==
      if x == 0 then 0 else if PositionAt(n, t, x) == n - 1 then 1 else PositionAt(n, t, x) + 1
  {
  }

  /** The in-place rotation: indices[0] stays, the last element moves to place 1 and the others
      up one place; copy moves the overlapping stretch as a whole. */
  method Rotate(indices: array<int>, ghost n: nat, ghost t: nat)
    requires indices.Length == n >= 2 && t + 1 < n
    requires forall p :: 0 <= p < n ==> indices[p] == IndexAt(n, t, p)
    modifies indices
    ensures forall p :: 0 <= p < n ==> indices[p] == IndexAt(n, t + 1, p)
  {
    var last := indices[indices.Length - 1];
    forall k | 2 <= k < indices.Length {
      indices[k] := indices[k - 1];
    }
    indices[1] := last;
  }

  /** The two participants at opposite places `place` and n-1-`place` of the circle in a round. */
  datatype Game = Game(round: nat, place: nat, home: int, away: int)

  function GameAt(n: nat, t: nat, place: nat): Game {
    Game(t + 1, place, IndexAt(n, t, place), IndexAt(n, t, if place < n then n - 1 - place else 0))
  }

  predicate Plays(participants: seq<SeedEntry>, x: int) {
    0 <= x < |participants| && participants[x].seed != 0
  }

  /** A game of the round after t rotations between two participants who both play. */
  predicate IsGame(participants: seq<SeedEntry>, t: nat, g: Game) {
    g == GameAt(|participants|, t, g.place) && Plays(participants, g.home) && Plays(participants, g.away)
  }

  function Participants(entries: seq<SeedEntry>): seq<SeedEntry> {
    if |entries| % 2 != 0 then entries + [BYE] else entries
  }

  /** The games of the first t rounds, then those at the first places of the next round, the
      games of a BYE left out. */
  function Games(participants: seq<SeedEntry>, t: nat, places: nat): seq<Game>
    decreases t, places
  {
    if places > 0 then
      var g := GameAt(|participants|, t, places - 1);
      if IsGame(participants, t, g)
        then Games(participants, t, places - 1) + [g]
        else Games(participants, t, places - 1)
    else if t > 0 then Games(participants, t - 1, |participants| / 2)
    else []
  }

  /** The whole schedule, as games between entries. */
  function Schedule(entries: seq<SeedEntry>): seq<Game>
    requires |entries| >= 1
  {
    Games(Participants(entries), |Participants(entries)| - 1, 0)
  }

  predicate IsMatchOfGame(participants: seq<SeedEntry>, bm: BracketMatch, g: Game, matchNumber: int) {
    && Plays(participants, g.home) && Plays(participants, g.away)
    && var (home, away) := (participants[g.home], participants[g.away]);
      bm == BlankMatch(matchNumber, g.round, Round(g.round)).(
        team1Seed := home.seed, team2Seed := away.seed, team1TeamId := home.teamId, team2TeamId := away.teamId)
  }

  ghost predicate AreMatchesOfGames(participants: seq<SeedEntry>, matches: seq<BracketMatch>, games: seq<Game>) {
    && |matches| == |games|
    && forall k :: 0 <= k < |matches| ==> IsMatchOfGame(participants, matches[k], games[k], k + 1)
  }

  /** The generator's inner loop: the matches of one round, BYEs skipped. */
  method AppendRound(matches: seq<BracketMatch>, participants: seq<SeedEntry>, indices: array<int>, round: nat)
    returns (extended: seq<BracketMatch>)
    requires |participants| >= 2 && |participants| % 2 == 0 && 1 <= round < |participants| == indices.Length
    requires forall p :: 0 <= p < indices.Length ==> indices[p] == IndexAt(indices.Length, round - 1, p)
    requires AreMatchesOfGames(participants, matches, Games(participants, round - 1, 0))
    ensures AreMatchesOfGames(participants, extended, Games(participants, round, 0))
  {
    extended := matches;
    var n := |participants|;
    for place := 0 to n / 2
      invariant AreMatchesOfGames(participants, extended, Games(participants, round - 1, place))
    {
      extended := AppendGame(extended, participants, round, place, indices[place], indices[n - 1 - place]);
    }
  }

  /** One turn of the inner loop: the game at a place, unless a BYE stands there. */
  method AppendGame(matches: seq<BracketMatch>, participants: seq<SeedEntry>, round: nat, place: nat, home: int,
        away: int)
    returns (extended: seq<BracketMatch>)
    requires 1 <= round < |participants| && place < |participants|
    requires GameAt(|participants|, round - 1, place) == Game(round, place, home, away)
    requires AreMatchesOfGames(participants, matches, Games(participants, round - 1, place))
    ensures AreMatchesOfGames(participants, extended, Games(participants, round - 1, place + 1))
  {
    CircleIsPermutation(|participants|, round - 1, place);
    CircleIsPermutation(|participants|, round - 1, |participants| - 1 - place);
    var p1, p2 := participants[home], participants[away];
    if p1.seed == 0 || p2.seed == 0 {
      return matches;
    }
    var bm := BlankMatch(|matches| + 1, round, Round(round)).(
      team1Seed := p1.seed, team2Seed := p2.seed, team1TeamId := p1.teamId, team2TeamId := p2.teamId);
    extended := matches + [bm];
  }

  method GenerateRoundRobin(entries: seq<SeedEntry>) returns (result: Result<seq<BracketMatch>, BracketError>)
    ensures |entries| < 2 ==> result == Err(TooFewEntries(|entries|))
    ensures |entries| >= 2 ==>
      result.Ok? && AreMatchesOfGames(Participants(entries), result.value, Schedule(entries))
  {
    var n := |entries|;
    if n < 2 {
      return Err(TooFewEntries(n));
    }
    var participants := entries;
    if n % 2 != 0 {
      participants := participants + [BYE];
      n := |participants|;
    }
    var matches := ScheduleRounds(participants);
    result := Ok(matches);
  }

  /** The rounds of the circle method, for an even number of participants. */
  method ScheduleRounds(participants: seq<SeedEntry>) returns (matches: seq<BracketMatch>)
    requires |participants| >= 2 && |participants| % 2 == 0
    ensures AreMatchesOfGames(participants, matches, Games(participants, |participants| - 1, 0))
  {
    var n := |participants|;
    var numRounds := n - 1;
    matches := [];
    var indices := new int[n](i => i);
    for round := 1 to numRounds + 1
      invariant forall p :: 0 <= p < n ==> indices[p] == IndexAt(n, round - 1, p)
      invariant AreMatchesOfGames(participants, matches, Games(participants, round - 1, 0))
    {
      matches := AppendRound(matches, participants, indices, round);
      Rotate(indices, n, round - 1);
    }
  }

  /** The only round in which x and y can meet: on a circle of n - 1 places (an odd number) the
      round is found by halving, and position 0 is handled apart. */
  function MeetingRound(n: nat, x: nat, y: nat): int
    requires x < y < n
  {
    var c := if x + y <= n - 1 then n - 1 - (x + y) else 2 * (n - 1) - (x + y);
    if x == 0 then n - 1 - y
    else if c % 2 == 0 then c / 2
    else (c + n - 1) / 2
  }

  /** Two participants stand at opposite places exactly in their meeting round. */
  lemma {:induction false} OppositeOnlyInMeetingRound(n: nat, x: nat, y: nat, t: nat)
    requires n % 2 == 0 && x < y < n && t < n - 1
    ensures 0 <= MeetingRound(n, x, y) < n - 1
    ensures PositionAt(n, t, x) + PositionAt(n, t, y) == n - 1 <==> t == MeetingRound(n, x, y)
  {
    var h, r := n / 2, MeetingRound(n, x, y);
    assert n == 2 * h;
    if x > 0 {
      assert x + y + 2 * r == n - 1 || x + y + 2 * r == 2 * (n - 1) || x + y + 2 * r == 3 * (n - 1) by {
        MeetingRoundSum(h, x, y);
      }
    }
  }

  lemma {:induction false} MeetingRoundSum(h: nat, x: nat, y: nat)
    requires 0 < x < y < 2 * h
    ensures var r := MeetingRound(2 * h, x, y);
      && 0 <= r < 2 * h - 1
      && (x + y + 2 * r == 2 * h - 1 || x + y + 2 * r == 2 * (2 * h - 1) || x + y + 2 * r == 3 * (2 * h - 1))
  {
    Halve(if x + y <= 2 * h - 1 then 2 * h - 1 - (x + y) else 2 * (2 * h - 1) - (x + y), h);
  }

  /** Halving modulo the odd number 2h - 1. */
  lemma {:induction false} Halve(c: nat, h: nat)
    requires c < 2 * h - 1
    ensures var r := if c % 2 == 0 then c / 2 else (c + 2 * h - 1) / 2;
      0 <= r < 2 * h - 1 && (2 * r == c || 2 * r == c + 2 * h - 1)
  {
  }

  predicate Joins(g: Game, x: int, y: int) {
    (g.home == x && g.away == y) || (g.home == y && g.away == x)
  }

  /** The one place of the meeting round where x and y meet. */
  function MeetingPlace(n: nat, x: nat, y: nat): int
    requires x < y < n
  {
    var t := MeetingRound(n, x, y);
    if t < 0 then 0 else
    var (px, py) := (PositionAt(n, t, x), PositionAt(n, t, y));
    if px < py then px else py
  }

  /** A game joins the two participants who stand at its two places. */
  lemma {:induction false} JoinsByPosition(n: nat, x: nat, y: nat, t: nat, place: nat)
    requires n % 2 == 0 && x < y < n && t < n - 1 && place < n / 2
    ensures Joins(GameAt(n, t, place), x, y) <==>
      || (PositionAt(n, t, x) == place && PositionAt(n, t, y) == n - 1 - place)
      || (PositionAt(n, t, y) == place && PositionAt(n, t, x) == n - 1 - place)
  {
  }

  lemma {:induction false} GamesJoinOnlyAtMeetingPlace(n: nat, x: nat, y: nat, t: nat, place: nat)
    requires n % 2 == 0 && x < y < n && t < n - 1 && place < n / 2
    ensures 0 <= MeetingRound(n, x, y) < n - 1 && 0 <= MeetingPlace(n, x, y) < n / 2
    ensures Joins(GameAt(n, t, place), x, y) <==> t == MeetingRound(n, x, y) && place == MeetingPlace(n, x, y)
  {
    var r := MeetingRound(n, x, y);
    OppositeOnlyInMeetingRound(n, x, y, t);
    OppositeOnlyInMeetingRound(n, x, y, r);
    JoinsByPosition(n, x, y, t, place);
    CircleIsPermutation(n, r, x);
    CircleIsPermutation(n, r, y);
  }

  /** A game of the first t rounds, or of the first places of the next one. */
  predicate IsListed(participants: seq<SeedEntry>, t: int, places: int, g: Game) {
    && g.round >= 1 && IsGame(participants, g.round - 1, g)
    && ((g.round <= t && g.place < |participants| / 2) || (g.round == t + 1 && g.place < places))
  }

  lemma {:induction false} InExtended(games: seq<Game>, last: Game, g: Game)
    ensures g in games + [last] <==> g in games || g == last
  {
  }

  lemma {:induction false} GamesMembers(participants: seq<SeedEntry>, t: nat, places: nat, g: Game)
    ensures g in Games(participants, t, places) <==> IsListed(participants, t, places, g)
    decreases t, places
  {
    if places > 0 {
      GamesMembers(participants, t, places - 1, g);
      InExtended(Games(participants, t, places - 1), GameAt(|participants|, t, places - 1), g);
    } else if t > 0 {
      GamesMembers(participants, t - 1, |participants| / 2, g);
    }
  }

  predicate Precedes(g: Game, h: Game) {
    g.round < h.round || (g.round == h.round && g.place < h.place)
  }

  ghost predicate AreInOrder(games: seq<Game>) {
    forall j, k :: 0 <= j < k < |games| ==> Precedes(games[j], games[k])
  }

  lemma {:induction false} ExtendedInOrder(games: seq<Game>, last: Game)
    requires AreInOrder(games) && forall g :: g in games ==> Precedes(g, last)
    ensures AreInOrder(games + [last])
  {
  }

  lemma {:induction false} GamesInOrder(participants: seq<SeedEntry>, t: nat, places: nat)
    ensures AreInOrder(Games(participants, t, places))
    decreases t, places
  {
    if places > 0 {
      var games, last := Games(participants, t, places - 1), GameAt(|participants|, t, places - 1);
      GamesInOrder(participants, t, places - 1);
      forall g | g in games ensures Precedes(g, last) {
        GamesMembers(participants, t, places - 1, g);
      }
      ExtendedInOrder(games, last);
    } else if t > 0 {
      GamesInOrder(participants, t - 1, |participants| / 2);
    }
  }

  /** A game of the n - 1 rounds between two participants who both play. */
  predicate IsScheduled(participants: seq<SeedEntry>, g: Game) {
    1 <= g.round < |participants| && g.place < |participants| / 2 && IsGame(participants, g.round - 1, g)
  }

  /** The schedule lists exactly these games ... */
  lemma {:induction false} ScheduleMembers(entries: seq<SeedEntry>, g: Game)
    requires |entries| >= 1
    ensures g in Schedule(entries) <==> IsScheduled(Participants(entries), g)
  {
    GamesMembers(Participants(entries), |Participants(entries)| - 1, 0, g);
  }

  /** ... round by round and place by place, hence each once. */
  lemma {:induction false} ScheduleInOrder(entries: seq<SeedEntry>)
    requires |entries| >= 1
    ensures AreInOrder(Schedule(entries))
  {
    GamesInOrder(Participants(entries), |Participants(entries)| - 1, 0);
  }

  /** Every unordered pair of entries with non-zero seeds plays exactly once over all rounds,
      for any number of entries. */
  lemma {:induction false} EveryPairPlaysOnce(entries: seq<SeedEntry>, x: nat, y: nat) returns (k: nat)
    requires x < y < |entries| && entries[x].seed != 0 && entries[y].seed != 0
    ensures k < |Schedule(entries)| && Joins(Schedule(entries)[k], x, y)
    ensures forall j :: 0 <= j < |Schedule(entries)| && Joins(Schedule(entries)[j], x, y) ==> j == k
  {
    var games, n := Schedule(entries), |Participants(entries)|;
    var g := GameOfPair(entries, x, y);
    k :| 0 <= k < |games| && games[k] == g;
    ScheduleInOrder(entries);
    forall j | 0 <= j < |games| && Joins(games[j], x, y) ensures j == k {
      OnlyGameOfPair(entries, x, y, games[j]);
    }
  }

  lemma {:induction false} GameOfPair(entries: seq<SeedEntry>, x: nat, y: nat) returns (g: Game)
    requires x < y < |entries| && entries[x].seed != 0 && entries[y].seed != 0
    ensures var n := |Participants(entries)|;
      && MeetingRound(n, x, y) >= 0 && MeetingPlace(n, x, y) >= 0
      && g == GameAt(n, MeetingRound(n, x, y), MeetingPlace(n, x, y))
    ensures g in Schedule(entries) && Joins(g, x, y)
  {
    var n := |Participants(entries)|;
    GamesJoinOnlyAtMeetingPlace(n, x, y, 0, 0);
    g := GameAt(n, MeetingRound(n, x, y), MeetingPlace(n, x, y));
    GamesJoinOnlyAtMeetingPlace(n, x, y, g.round - 1, g.place);
    ScheduleMembers(entries, g);
  }

  lemma {:induction false} OnlyGameOfPair(entries: seq<SeedEntry>, x: nat, y: nat, g: Game)
    requires x < y < |entries| && g in Schedule(entries) && Joins(g, x, y)
    ensures var n := |Participants(entries)|;
      && MeetingRound(n, x, y) >= 0 && MeetingPlace(n, x, y) >= 0
      && g == GameAt(n, MeetingRound(n, x, y), MeetingPlace(n, x, y))
  {
    ScheduleMembers(entries, g);
    GamesJoinOnlyAtMeetingPlace(|Participants(entries)|, x, y, g.round - 1, g.place);
  }

  /** Two different games of a round have no participant in common. */
  lemma {:induction false} GamesOfRoundAreDisjoint(n: nat, t: nat, p: nat, q: nat)
    requires n % 2 == 0 && t < n - 1 && p < n / 2 && q < n / 2
    ensures var (g, h) := (GameAt(n, t, p), GameAt(n, t, q));
      && g.home != g.away
      && (p != q ==> g.home != h.home && g.home != h.away && g.away != h.home && g.away != h.away)
  {
  }

  /** Games join two different entries of non-zero seed, in rounds 1 to n - 1 (n for an odd n),
      and no entry appears in two games of a round. */
  lemma {:induction false} NobodyPlaysTwiceInARound(entries: seq<SeedEntry>, j: nat, k: nat)
    requires |entries| >= 1 && j < |Schedule(entries)| && k < |Schedule(entries)|
    ensures var (g, h) := (Schedule(entries)[j], Schedule(entries)[k]);
      && 1 <= g.round < |Participants(entries)|
      && Plays(entries, g.home) && Plays(entries, g.away) && g.home != g.away
      && (j != k && g.round == h.round ==>
        g.home != h.home && g.home != h.away && g.away != h.home && g.away != h.away)
  {
    var participants, g, h := Participants(entries), Schedule(entries)[j], Schedule(entries)[k];
    ScheduleMembers(entries, g);
    ScheduleMembers(entries, h);
    PlayableGamesAreDisjoint(participants, g, h);
    ScheduleInOrder(entries);
  }

  lemma {:induction false} PlayableGamesAreDisjoint(participants: seq<SeedEntry>, g: Game, h: Game)
    requires |participants| % 2 == 0 && IsScheduled(participants, g) && IsScheduled(participants, h)
    ensures g.home != g.away && Plays(participants, g.home) && Plays(participants, g.away)
    ensures g != h && g.round == h.round ==>
      g.home != h.home && g.home != h.away && g.away != h.home && g.away != h.away
  {
    GamesOfRoundAreDisjoint(|participants|, g.round - 1, g.place, g.place);
    if g.round == h.round {
      GamesOfRoundAreDisjoint(|participants|, g.round - 1, g.place, h.place);
    }
  }

  /** The place of a round at which the last participant stands. */
  function LastPlace(n: nat, t: nat): int
    requires n >= 2
  {
    var p := PositionAt(n, t, n - 1);
    if p < n / 2 then p else n - 1 - p
  }

  lemma {:induction false} LastPlaysThere(n: nat, t: nat, place: nat)
    requires n % 2 == 0 && n >= 2 && t < n - 1 && place < n / 2
    ensures 0 <= LastPlace(n, t) < n / 2
    ensures var g := GameAt(n, t, place);
      && 0 <= g.home < n && 0 <= g.away < n
      && (g.home == n - 1 || g.away == n - 1 <==> place == LastPlace(n, t))
  {
    var opposite := n - 1 - place;
    CircleIsPermutation(n, t, place);
    CircleIsPermutation(n, t, opposite);
    CircleIsPermutation(n, t, n - 1);
  }

  /** Everybody plays, but for the last participant if he is a BYE. */
  predicate AllPlayBut(participants: seq<SeedEntry>, bye: bool) {
    forall i :: 0 <= i < |participants| ==> (participants[i].seed != 0 <==> !bye || i < |participants| - 1)
  }

  lemma {:induction false} PlayedUnlessLast(participants: seq<SeedEntry>, bye: bool, t: nat, place: nat)
    requires |participants| % 2 == 0 && |participants| >= 2 && AllPlayBut(participants, bye)
    requires t < |participants| - 1 && place < |participants| / 2
    ensures IsGame(participants, t, GameAt(|participants|, t, place))
      <==> !bye || place != LastPlace(|participants|, t)
  {
    LastPlaysThere(|participants|, t, place);
  }

  lemma {:induction false} PlacesCount(participants: seq<SeedEntry>, bye: bool, t: nat, places: nat)
    requires |participants| % 2 == 0 && |participants| >= 2 && AllPlayBut(participants, bye)
    requires t < |participants| - 1 && places <= |participants| / 2
    ensures |Games(participants, t, places)| == |Games(participants, t, 0)| + places
      - (if bye && LastPlace(|participants|, t) < places then 1 else 0)
    decreases places
  {
    if places > 0 {
      PlacesCount(participants, bye, t, places - 1);
      PlayedUnlessLast(participants, bye, t, places - 1);
    }
    LastPlaysThere(|participants|, t, 0);
  }

  lemma {:induction false} RoundCount(participants: seq<SeedEntry>, bye: bool, t: nat)
    requires |participants| % 2 == 0 && |participants| >= 2 && AllPlayBut(participants, bye)
    requires t < |participants| - 1
    ensures |Games(participants, t + 1, 0)|
      == |Games(participants, t, 0)| + |participants| / 2 - (if bye then 1 else 0)
  {
    PlacesCount(participants, bye, t, |participants| / 2);
    LastPlaysThere(|participants|, t, 0);
  }

  lemma {:induction false} RoundsCount(participants: seq<SeedEntry>, bye: bool, t: nat)
    requires |participants| % 2 == 0 && |participants| >= 2 && AllPlayBut(participants, bye) && t < |participants|
    ensures |Games(participants, t, 0)| == t * (|participants| / 2 - (if bye then 1 else 0))
    decreases t
  {
    if t > 0 {
      RoundsCount(participants, bye, t - 1);
      RoundCount(participants, bye, t - 1);
      OneMoreRound(t - 1, |participants| / 2 - (if bye then 1 else 0));
    }
  }

  lemma {:induction false} OneMoreRound(t: nat, perRound: int)
    ensures (t + 1) * perRound == t * perRound + perRound
  {
  }

  /** n entries of non-zero seed play n * (n - 1) / 2 games. */
  lemma {:induction false} GamesAreCounted(entries: seq<SeedEntry>)
    requires |entries| >= 2 && forall i :: 0 <= i < |entries| ==> entries[i].seed != 0
    ensures 2 * |Schedule(entries)| == |entries| * (|entries| - 1)
  {
    var participants, bye := Participants(entries), |entries| % 2 != 0;
    var n, h := |participants|, |participants| / 2;
    assert n == 2 * h;
    RoundsCount(participants, bye, n - 1);
    DoubleProduct(n - 1, if bye then h - 1 else h);
  }

  lemma {:induction false} DoubleProduct(a: int, b: int)
    ensures 2 * (a * b) == a * (2 * b)
  {
  }

  /** In every game the participant at the lower place of the circle is at home, so that the first entry
      plays all its games at home. */
  lemma {:induction false} LowerPlaceIsHome(entries: seq<SeedEntry>, g: Game)
    requires |entries| >= 2 && g in Schedule(entries)
    ensures var n := |Participants(entries)|;
      && 0 <= g.home && 0 <= g.away && 1 <= g.round
      && PositionAt(n, g.round - 1, g.home) == g.place < n / 2
      && PositionAt(n, g.round - 1, g.away) == n - 1 - g.place
      && g.away != 0
  {
    var n := |Participants(entries)|;
    ScheduleMembers(entries, g);
    CircleIsPermutation(n, g.round - 1, g.place);
    CircleIsPermutation(n, g.round - 1, n - 1 - g.place);
  }

  predicate Faces(bm: BracketMatch, seed: int, seed': int) {
    (bm.team1Seed == seed && bm.team2Seed == seed') || (bm.team1Seed == seed' && bm.team2Seed == seed)
  }

  /** In the generated matches themselves: when the seeds are non-zero and distinct, every two
      seeds face each other in exactly one match. */
  lemma {:induction false} EveryTwoSeedsFaceEachOtherOnce(entries: seq<SeedEntry>, matches: seq<BracketMatch>,
        x: nat, y: nat)
    returns (k: nat)
    requires x < y < |entries|
    requires forall i :: 0 <= i < |entries| ==> entries[i].seed != 0
    requires forall i, j :: 0 <= i < j < |entries| ==> entries[i].seed != entries[j].seed
    requires AreMatchesOfGames(Participants(entries), matches, Schedule(entries))
    ensures k < |matches| && Faces(matches[k], entries[x].seed, entries[y].seed)
    ensures forall j :: 0 <= j < |matches| && Faces(matches[j], entries[x].seed, entries[y].seed) ==> j == k
  {
    k := EveryPairPlaysOnce(entries, x, y);
    var games := Schedule(entries);
    forall j | 0 <= j < |matches| && Faces(matches[j], entries[x].seed, entries[y].seed) ensures j == k {
      NobodyPlaysTwiceInARound(entries, j, j);
      assert matches[j].team1Seed == entries[games[j].home].seed;
      assert matches[j].team2Seed == entries[games[j].away].seed;
      assert Joins(games[j], x, y);
    }
  }

  predicate IsSeedOf(bm: BracketMatch, seed: int) {
    bm.team1Seed == seed || bm.team2Seed == seed
  }

  /** In the generated matches no seed plays twice in a round; rounds are numbered from 1 to n - 1 (to n
      for an odd n), in the order of the matches, and named by their numbers. */
  lemma {:induction false} NoSeedPlaysTwiceInARound(entries: seq<SeedEntry>, matches: seq<BracketMatch>, j: nat,
        k: nat, seed: int)
    requires |entries| >= 1 && j < k < |matches|
    requires forall x, y :: 0 <= x < y < |entries| ==> entries[x].seed != entries[y].seed
    requires AreMatchesOfGames(Participants(entries), matches, Schedule(entries))
    ensures 1 <= matches[j].round <= matches[k].round < |Participants(entries)|
    ensures matches[j].roundName == Round(matches[j].round) && matches[k].roundName == Round(matches[k].round)
    ensures matches[j].round == matches[k].round ==> !(IsSeedOf(matches[j], seed) && IsSeedOf(matches[k], seed))
  {
    NobodyPlaysTwiceInARound(entries, j, k);
    NobodyPlaysTwiceInARound(entries, k, j);
    ScheduleInOrder(entries);
    var (g, h) := (Schedule(entries)[j], Schedule(entries)[k]);
    assert Precedes(g, h);
    assert matches[j].team1Seed == entries[g.home].seed && matches[j].team2Seed == entries[g.away].seed;
    assert matches[k].team1Seed == entries[h.home].seed && matches[k].team2Seed == entries[h.away].seed;
  }
}
