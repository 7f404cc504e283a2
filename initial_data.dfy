/** The fixed eight teams and the twelve group games every grouped
    tournament starts from. */
module InitialData {
  import opened Types

  const InitialTeams: seq<Team> := [
    Team(1, "Team 1", A), Team(2, "Team 2", A), Team(3, "Team 3", A), Team(4, "Team 4", A),
    Team(5, "Team 5", B), Team(6, "Team 6", B), Team(7, "Team 7", B), Team(8, "Team 8", B)
  ]

  /** A group game as the schedule lists it: not yet played, 0-0. */
  function GroupGame(id: int, round: int, court: int, group: GroupName, teamA: int, teamB: int): Game {
    Game(id, round, court, GroupStage, Some(group), Some(teamA), Some(teamB), 0, 0, Scheduled,
         if group == A then "Group A Match" else "Group B Match", None, None)
  }

  /** Six rounds; group A on court 1 and group B on court 2 in each. */
  const InitialGames: seq<Game> := [
    GroupGame(1, 1, 1, A, 1, 2), GroupGame(2, 1, 2, B, 5, 6),
    GroupGame(3, 2, 1, A, 3, 4), GroupGame(4, 2, 2, B, 7, 8),
    GroupGame(5, 3, 1, A, 1, 3), GroupGame(6, 3, 2, B, 5, 7),
    GroupGame(7, 4, 1, A, 2, 4), GroupGame(8, 4, 2, B, 6, 8),
    GroupGame(9, 5, 1, A, 1, 4), GroupGame(10, 5, 2, B, 5, 8),
    GroupGame(11, 6, 1, A, 2, 3), GroupGame(12, 6, 2, B, 6, 7)
  ]

  /** The group a team of the initial eight plays in. */
  function GroupOf(t: int): GroupName
    requires 1 <= t <= 8
  {
    InitialTeams[t - 1].group
  }

  /** Team `t` plays in game `k`. */
  predicate Plays(k: int, t: int)
    requires 0 <= k < 12
  {
    InitialGames[k].teamAId == Some(t) || InitialGames[k].teamBId == Some(t)
  }

  /** Team ids 1 to 8 with distinct names, groups A (1-4) and B (5-8). */
  lemma InitialTeamsShape()
    ensures |InitialTeams| == 8
    ensures forall i :: 0 <= i < 8 ==> InitialTeams[i].id == i + 1
    ensures forall i :: 0 <= i < 8 ==> InitialTeams[i].group == (if i < 4 then A else B)
    ensures forall i, j :: 0 <= i < j < 8 ==> InitialTeams[i].name != InitialTeams[j].name
  {
  }

  /** Game `k` has id `k + 1`, is played in round `k / 2 + 1`, on court 1
      for group A when `k` is even and on court 2 for group B when odd, and
      has not been played yet. */
  lemma InitialGamesShape()
    ensures |InitialGames| == 12
    ensures forall k :: 0 <= k < 12 ==>
      && InitialGames[k].id == k + 1
      && InitialGames[k].roundNumber == k / 2 + 1
      && InitialGames[k].courtId == k % 2 + 1
      && InitialGames[k].group == Some(if k % 2 == 0 then A else B)
      && InitialGames[k].stage == GroupStage
      && InitialGames[k].status == Scheduled
      && InitialGames[k].scoreA == 0 && InitialGames[k].scoreB == 0
  {
  }

  /** Both sides of every game are two different teams of the game's own
      group, listed lower id first. */
  lemma InitialGamesInGroup()
    ensures forall k :: 0 <= k < 12 ==>
      && InitialGames[k].teamAId.Some? && InitialGames[k].teamBId.Some?
      && 1 <= InitialGames[k].teamAId.value < InitialGames[k].teamBId.value <= 8
      && Some(GroupOf(InitialGames[k].teamAId.value)) == InitialGames[k].group
      && Some(GroupOf(InitialGames[k].teamBId.value)) == InitialGames[k].group
  {
  }

  /** No team has two games in one round. */
  lemma NoTeamTwiceInRound()
    ensures forall j, k, t :: 0 <= j < k < 12 && InitialGames[j].roundNumber == InitialGames[k].roundNumber ==>
      !(Plays(j, t) && Plays(k, t))
  {
    InitialGamesShape();
    InitialGamesInGroup();
  }

  lemma GroupOfFirstFour(t: int)
    requires 1 <= t <= 8
    ensures GroupOf(t) == if t <= 4 then A else B
  {
    InitialTeamsShape();
  }

  /** Every pair of teams of one group meets in some game. */
  lemma EveryPairMeets()
    ensures forall t, u :: 1 <= t < u <= 8 && GroupOf(t) == GroupOf(u) ==>
      exists k :: 0 <= k < 12 && InitialGames[k].teamAId == Some(t) && InitialGames[k].teamBId == Some(u)
  {
    forall t, u | 1 <= t < u <= 8 && GroupOf(t) == GroupOf(u)
      ensures exists k :: 0 <= k < 12 && InitialGames[k].teamAId == Some(t) && InitialGames[k].teamBId == Some(u)
    {
      GroupOfFirstFour(t);
      GroupOfFirstFour(u);
      var k :=
        if t == 1 && u == 2 then 0 else if t == 5 && u == 6 then 1
        else if t == 3 && u == 4 then 2 else if t == 7 && u == 8 then 3
        else if t == 1 && u == 3 then 4 else if t == 5 && u == 7 then 5
        else if t == 2 && u == 4 then 6 else if t == 6 && u == 8 then 7
        else if t == 1 && u == 4 then 8 else if t == 5 && u == 8 then 9
        else if t == 2 && u == 3 then 10 else 11;
      assert InitialGames[k].teamAId == Some(t) && InitialGames[k].teamBId == Some(u);
    }
  }

  /** No pairing is scheduled twice. */
  lemma NoPairTwice()
    ensures forall j, k :: 0 <= j < k < 12 ==>
      (InitialGames[j].teamAId, InitialGames[j].teamBId) != (InitialGames[k].teamAId, InitialGames[k].teamBId)
  {
  }

  /** The group games are no finals, and their descriptions carry none of
      the placing markers' '/'. */
  lemma InitialGamesUnmarked()
    ensures forall k :: 0 <= k < 12 ==>
      InitialGames[k].roundNumber < 7 && InitialGames[k].stage != Final && '/' !in InitialGames[k].description
  {
    assert '/' !in "Group A Match" && '/' !in "Group B Match";
  }
}
