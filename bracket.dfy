/** The finals bracket: from the two final group tables to the fixed
    cross-seeded semis, placing games and final. */
module Bracket {
  import opened Types

  const SemiOneLabel := "Semi-final 1 (1st A vs 2nd B)"
  const SemiTwoLabel := "Semi-final 2 (1st B vs 2nd A)"
  const FinalLabel := "Grand Final (Winner SF1 vs Winner SF2)"
  // Each placing label starts with the marker the placement resolver
  // looks for.
  const FifthLabel := "5th/6th" + " Playoff (3rd A vs 3rd B)"
  const SeventhLabel := "7th/8th" + " Playoff (4th A vs 4th B)"
  const ThirdLabel := "3rd/4th" + " Playoff (Loser SF1 vs Loser SF2)"

  /** A new bracket game: still to be played, 0-0, no group. */
  function Fixture(id: int, round: int, court: int, stage: Stage, teamA: Option<int>, teamB: Option<int>,
                   description: string, sourceA: string, sourceB: string): Game
  {
    Game(id, round, court, stage, None, teamA, teamB, 0, 0, Scheduled, description, Some(sourceA), Some(sourceB))
  }

  /** Game `k` (0..5) of a bracket is scheduled 0-0, outside any group, with
      id `lastId + 1 + k`. */
  predicate Fresh(g: Game, lastId: int, k: int) {
    && g.id == lastId + 1 + k
    && g.scoreA == 0 && g.scoreB == 0
    && g.status == Scheduled
    && g.group == None
  }

  /** Every game of `gs` is fresh, numbered on from `lastId`. */
  predicate FreshFrom(gs: seq<Game>, lastId: int) {
    forall k :: 0 <= k < |gs| ==> Fresh(gs[k], lastId, k)
  }

  /** Where and at what stage the six bracket games are played:
      | game | round | court | stage   |
      | SF1  | 7     | 1     | semi    |
      | SF2  | 7     | 2     | semi    |
      | 5/6  | 8     | 1     | placing |
      | 7/8  | 8     | 2     | placing |
      | F    | 9     | 1     | final   |
      | 3/4  | 9     | 2     | placing | */
  predicate Layout(gs: seq<Game>)
    requires |gs| == 6
  {
    && gs[0].roundNumber == 7 && gs[0].courtId == 1 && gs[0].stage == Semi
    && gs[1].roundNumber == 7 && gs[1].courtId == 2 && gs[1].stage == Semi
    && gs[2].roundNumber == 8 && gs[2].courtId == 1 && gs[2].stage == Placing
    && gs[3].roundNumber == 8 && gs[3].courtId == 2 && gs[3].stage == Placing
    && gs[4].roundNumber == 9 && gs[4].courtId == 1 && gs[4].stage == Final
    && gs[5].roundNumber == 9 && gs[5].courtId == 2 && gs[5].stage == Placing
  }

  /** Who plays in the six games: the semis cross the groups (1st A v 2nd
      B, 1st B v 2nd A), the 3rd and the 4th of both groups meet, and the
      final and the 3rd/4th place game wait for the semis. */
  predicate SeededTeams(gs: seq<Game>, sa: seq<Standing>, sb: seq<Standing>)
    requires |gs| == 6 && |sa| >= 4 && |sb| >= 4
  {
    && gs[0].teamAId == Some(sa[0].teamId) && gs[0].teamBId == Some(sb[1].teamId)
    && gs[1].teamAId == Some(sb[0].teamId) && gs[1].teamBId == Some(sa[1].teamId)
    && gs[2].teamAId == Some(sa[2].teamId) && gs[2].teamBId == Some(sb[2].teamId)
    && gs[3].teamAId == Some(sa[3].teamId) && gs[3].teamBId == Some(sb[3].teamId)
    && gs[4].teamAId == None && gs[4].teamBId == None
    && gs[5].teamAId == None && gs[5].teamBId == None
  }

  /** The descriptions and slot sources shown for the six games. */
  predicate Described(gs: seq<Game>)
    requires |gs| == 6
  {
    && gs[0].description == SemiOneLabel
    && gs[0].sourceA == Some("1st Group A") && gs[0].sourceB == Some("2nd Group B")
    && gs[1].description == SemiTwoLabel
    && gs[1].sourceA == Some("1st Group B") && gs[1].sourceB == Some("2nd Group A")
    && gs[2].description == FifthLabel
    && gs[2].sourceA == Some("3rd Group A") && gs[2].sourceB == Some("3rd Group B")
    && gs[3].description == SeventhLabel
    && gs[3].sourceA == Some("4th Group A") && gs[3].sourceB == Some("4th Group B")
    && gs[4].description == FinalLabel
    && gs[4].sourceA == Some("Winner SF1") && gs[4].sourceB == Some("Winner SF2")
    && gs[5].description == ThirdLabel
    && gs[5].sourceA == Some("Loser SF1") && gs[5].sourceB == Some("Loser SF2")
  }

  /** `gs` is the bracket seeded from the group tables `sa` and `sb`, its
      games numbered on from `lastId`. */
  predicate Seeded(gs: seq<Game>, sa: seq<Standing>, sb: seq<Standing>, lastId: int)
    requires |sa| >= 4 && |sb| >= 4
  {
    && |gs| == 6
    && FreshFrom(gs, lastId)
    && Layout(gs)
    && SeededTeams(gs, sa, sb)
    && Described(gs)
  }

  /** Push the six bracket games, numbering them on from `lastGameId`.
      Reading a seed that a table does not have is a TypeError in the
      source: the result is then `None`. */
  method GenerateFinalsFixtures(standingsA: seq<Standing>, standingsB: seq<Standing>, lastGameId: int)
    returns (r: Option<seq<Game>>)
    ensures r.Some? <==> |standingsA| >= 4 && |standingsB| >= 4
    ensures r.Some? ==> Seeded(r.value, standingsA, standingsB, lastGameId)
  {
    if |standingsA| < 4 || |standingsB| < 4 {
      return None;
    }
    var games: seq<Game> := [];
    var nextId := lastGameId + 1;

    // Round 7: the semi-finals
    games := games + [Fixture(nextId, 7, 1, Semi, Some(standingsA[0].teamId), Some(standingsB[1].teamId),
                              SemiOneLabel, "1st Group A", "2nd Group B")];
    nextId := nextId + 1;
    games := games + [Fixture(nextId, 7, 2, Semi, Some(standingsB[0].teamId), Some(standingsA[1].teamId),
                              SemiTwoLabel, "1st Group B", "2nd Group A")];
    nextId := nextId + 1;

    // Round 8: the placing games for 5th to 8th
    games := games + [Fixture(nextId, 8, 1, Placing, Some(standingsA[2].teamId), Some(standingsB[2].teamId),
                              FifthLabel, "3rd Group A", "3rd Group B")];
    nextId := nextId + 1;
    games := games + [Fixture(nextId, 8, 2, Placing, Some(standingsA[3].teamId), Some(standingsB[3].teamId),
                              SeventhLabel, "4th Group A", "4th Group B")];
    nextId := nextId + 1;

    // Round 9: the final and the 3rd place game, both still to be decided
    games := games + [Fixture(nextId, 9, 1, Final, None, None, FinalLabel, "Winner SF1", "Winner SF2")];
    nextId := nextId + 1;
    games := games + [Fixture(nextId, 9, 2, Placing, None, None, ThirdLabel, "Loser SF1", "Loser SF2")];

    r := Some(games);
  }

  /** Slot values of a game that name a team. */
  function Slots(g: Game): set<int> {
    (if g.teamAId.Some? then {g.teamAId.value} else {}) + (if g.teamBId.Some? then {g.teamBId.value} else {})
  }

  /** The ids of the first four rows of the two tables. */
  function Seeds(sa: seq<Standing>, sb: seq<Standing>): seq<int>
    requires |sa| >= 4 && |sb| >= 4
  {
    [sa[0].teamId, sa[1].teamId, sa[2].teamId, sa[3].teamId,
     sb[0].teamId, sb[1].teamId, sb[2].teamId, sb[3].teamId]
  }

  /** A seeded bracket never puts two games of a round on one court, gives
      each game a fresh id above `lastId`, and, when the eight seeds are
      different teams, never puts a team in two games of one round. */
  lemma SeededWellFormed(gs: seq<Game>, sa: seq<Standing>, sb: seq<Standing>, lastId: int)
    requires |sa| >= 4 && |sb| >= 4
    requires Seeded(gs, sa, sb, lastId)
    ensures forall i, j :: 0 <= i < j < 6 && gs[i].roundNumber == gs[j].roundNumber ==>
      gs[i].courtId != gs[j].courtId
    ensures forall i, j :: 0 <= i < j < 6 ==> lastId < gs[i].id < gs[j].id
    ensures (forall i, j :: 0 <= i < j < 8 ==> Seeds(sa, sb)[i] != Seeds(sa, sb)[j]) ==>
      forall i, j :: 0 <= i < j < 6 && gs[i].roundNumber == gs[j].roundNumber ==>
        Slots(gs[i]) !! Slots(gs[j])
  {
    assert Fresh(gs[0], lastId, 0) && Fresh(gs[1], lastId, 1) && Fresh(gs[2], lastId, 2);
    assert Fresh(gs[3], lastId, 3) && Fresh(gs[4], lastId, 4) && Fresh(gs[5], lastId, 5);
    var seeds := Seeds(sa, sb);
    if forall i, j :: 0 <= i < j < 8 ==> seeds[i] != seeds[j] {
      assert seeds[0] != seeds[5] && seeds[0] != seeds[4] && seeds[1] != seeds[5] && seeds[1] != seeds[4];
      assert seeds[2] != seeds[3] && seeds[2] != seeds[7] && seeds[6] != seeds[3] && seeds[6] != seeds[7];
      assert Slots(gs[0]) == {seeds[0], seeds[5]} && Slots(gs[1]) == {seeds[4], seeds[1]};
      assert Slots(gs[2]) == {seeds[2], seeds[6]} && Slots(gs[3]) == {seeds[3], seeds[7]};
      assert Slots(gs[4]) == {} && Slots(gs[5]) == {};
    }
  }

  /** The concrete seeding from the two tables of 1st to 4th place. */
  lemma SeedingExample(gs: seq<Game>, sa: seq<Standing>, sb: seq<Standing>)
    requires |sa| == 4 && |sb| == 4
    requires forall k :: 0 <= k < 4 ==> sa[k].teamId == k + 1 && sb[k].teamId == k + 5
    requires Seeded(gs, sa, sb, 12)
    ensures gs[0].teamAId == Some(1) && gs[0].teamBId == Some(6)
    ensures gs[1].teamAId == Some(5) && gs[1].teamBId == Some(2)
    ensures gs[2].teamAId == Some(3) && gs[2].teamBId == Some(7)
    ensures gs[3].teamAId == Some(4) && gs[3].teamBId == Some(8)
    ensures gs[4].teamAId == None && gs[4].teamBId == None
    ensures gs[5].teamAId == None && gs[5].teamBId == None
    ensures [gs[0].id, gs[1].id, gs[2].id, gs[3].id, gs[4].id, gs[5].id] == [13, 14, 15, 16, 17, 18]
  {
    assert Fresh(gs[0], 12, 0) && Fresh(gs[1], 12, 1) && Fresh(gs[2], 12, 2);
    assert Fresh(gs[3], 12, 3) && Fresh(gs[4], 12, 4) && Fresh(gs[5], 12, 5);
  }
}
