/** The tournament page: the score editors, the lookups the page shows,
    and the round advance that runs the tournament from the first group
    round to the celebration. */
module Page {
  import opened Types
  import Standings
  import Bracket
  import InitialData
  import Placings

  // ---------------------------------------------------------------------
  // Score editing
  // ---------------------------------------------------------------------

  /** The side of a game a score edit is for. */
  datatype Side = SideA | SideB

  function Other(side: Side): Side {
    if side == SideA then SideB else SideA
  }

  function ScoreOf(g: Game, side: Side): int {
    if side == SideA then g.scoreA else g.scoreB
  }

  /** `Math.max(0, n)`. */
  function ClampScore(n: int): (r: int)
    ensures r >= 0
    ensures n >= 0 ==> r == n
    ensures n < 0 ==> r == 0
  {
    if n < 0 then 0 else n
  }

  /** `g` and `h` are the same fixture: they differ at most in their scores
      and status. */
  predicate SameFixture(g: Game, h: Game) {
    g.(scoreA := 0, scoreB := 0, status := Scheduled) == h.(scoreA := 0, scoreB := 0, status := Scheduled)
  }

  /** `g` with `side`'s score replaced and the game marked finished. */
  function WithScore(g: Game, side: Side, score: int): (r: Game)
    ensures SameFixture(r, g) && r.status == Finished
    ensures ScoreOf(r, side) == score && ScoreOf(r, Other(side)) == ScoreOf(g, Other(side))
  {
    if side == SideA then g.(scoreA := score, status := Finished) else g.(scoreB := score, status := Finished)
  }

  /** The `+`/`-` buttons: every game with id `gameId` gets `delta` added
      to `side`'s score, never going below 0, and becomes finished. */
  function WithScoreDelta(games: seq<Game>, gameId: int, side: Side, delta: int): (r: seq<Game>)
    ensures |r| == |games|
    ensures forall i :: 0 <= i < |games| && games[i].id != gameId ==> r[i] == games[i]
    ensures forall i :: 0 <= i < |games| && games[i].id == gameId ==>
      && SameFixture(r[i], games[i]) && r[i].status == Finished
      && ScoreOf(r[i], side) == ClampScore(ScoreOf(games[i], side) + delta)
      && ScoreOf(r[i], Other(side)) == ScoreOf(games[i], Other(side))
  {
    if games == [] then []
    else
      var g := games[0];
      var rest := WithScoreDelta(games[1..], gameId, side, delta);
      assert forall i :: 1 <= i < |games| ==> games[i] == games[1..][i - 1];
      [if g.id != gameId then g else WithScore(g, side, ClampScore(ScoreOf(g, side) + delta))] + rest
  }

  /** The score inputs: a value that does not parse (`None`) changes
      nothing; a number `n` sets `side`'s score of every game with id
      `gameId` to `max(0, n)` and marks it finished. */
  function WithScoreEdit(games: seq<Game>, gameId: int, side: Side, value: Option<int>): (r: seq<Game>)
    ensures value.None? ==> r == games
    ensures |r| == |games|
    ensures forall i :: 0 <= i < |games| && games[i].id != gameId ==> r[i] == games[i]
    ensures value.Some? ==> forall i :: 0 <= i < |games| && games[i].id == gameId ==>
      && SameFixture(r[i], games[i]) && r[i].status == Finished
      && ScoreOf(r[i], side) == ClampScore(value.value)
      && ScoreOf(r[i], Other(side)) == ScoreOf(games[i], Other(side))
  {
    if value.None? || games == [] then games
    else
      var g := games[0];
      var rest := WithScoreEdit(games[1..], gameId, side, value);
      assert forall i :: 1 <= i < |games| ==> games[i] == games[1..][i - 1];
      [if g.id != gameId then g else WithScore(g, side, ClampScore(value.value))] + rest
  }

  /** Typing the same value twice is the same as typing it once. */
  lemma ScoreEditIdempotent(games: seq<Game>, gameId: int, side: Side, value: Option<int>)
    ensures WithScoreEdit(WithScoreEdit(games, gameId, side, value), gameId, side, value)
         == WithScoreEdit(games, gameId, side, value)
  {
    var once := WithScoreEdit(games, gameId, side, value);
    var twice := WithScoreEdit(once, gameId, side, value);
    if value.Some? {
      forall i | 0 <= i < |games| ensures twice[i] == once[i] {
        if games[i].id == gameId {
          assert ScoreOf(twice[i], side) == ScoreOf(once[i], side);
          assert ScoreOf(twice[i], Other(side)) == ScoreOf(once[i], Other(side));
          assert side == SideA || side == SideB;
        }
      }
    }
  }

  /** When `gameId` names exactly one game, a button press is the same as
      typing that game's new score. */
  lemma ScoreDeltaIsEdit(games: seq<Game>, gameId: int, side: Side, delta: int, k: int)
    requires 0 <= k < |games| && games[k].id == gameId
    requires forall i :: 0 <= i < |games| && i != k ==> games[i].id != gameId
    ensures WithScoreDelta(games, gameId, side, delta)
         == WithScoreEdit(games, gameId, side, Some(ScoreOf(games[k], side) + delta))
  {
    var d := WithScoreDelta(games, gameId, side, delta);
    var e := WithScoreEdit(games, gameId, side, Some(ScoreOf(games[k], side) + delta));
    forall i | 0 <= i < |games| ensures d[i] == e[i] {
      if i == k {
        assert side == SideA || side == SideB;
      }
    }
  }

  /** A `+` followed by a `-` by the same amount restores the score, as
      long as the score could not be clamped at 0. */
  lemma ScoreDeltaUndo(games: seq<Game>, gameId: int, side: Side, delta: int)
    requires delta >= 0
    requires forall i :: 0 <= i < |games| && games[i].id == gameId ==> ScoreOf(games[i], side) >= 0
    ensures var back := WithScoreDelta(WithScoreDelta(games, gameId, side, delta), gameId, side, -delta);
      forall i :: 0 <= i < |games| ==> ScoreOf(back[i], side) == ScoreOf(games[i], side)
  {
  }

  // ---------------------------------------------------------------------
  // Lookups
  // ---------------------------------------------------------------------

  /** The first team with id `id`, as `teams.find` returns it. */
  function FindTeam(teams: seq<Team>, id: int): (r: Option<Team>)
    ensures r.None? <==> forall i :: 0 <= i < |teams| ==> teams[i].id != id
    ensures r.Some? ==> exists i :: 0 <= i < |teams| && teams[i] == r.value && r.value.id == id && (forall j :: 0 <= j < i ==> teams[j].id != id)
  {
    if teams == [] then None
    else if teams[0].id == id then Some(teams[0])
    else
      var r := FindTeam(teams[1..], id);
      assert forall i :: 1 <= i < |teams| ==> teams[i] == teams[1..][i - 1];
      r
  }

  /** The name shown for a team slot: "TBD" for an open slot, "Unknown"
      when no team has the id or the first one that does has an empty
      name, and otherwise that team's name. */
  function TeamName(teams: seq<Team>, id: Option<int>): (r: string)
    ensures r != ""
    ensures id.None? ==> r == "TBD"
    ensures id.Some? && (forall i :: 0 <= i < |teams| ==> teams[i].id != id.value) ==> r == "Unknown"
    ensures id.Some? && r != "Unknown" ==> exists i :: 0 <= i < |teams| && teams[i].id == id.value && teams[i].name == r && (forall j :: 0 <= j < i ==> teams[j].id != id.value)
  {
    if id.None? then "TBD"
    else
      var found := FindTeam(teams, id.value);
      if found.None? || found.value.name == "" then "Unknown" else found.value.name
  }

  /** With distinct ids, a team with a non-empty name is shown by its name. */
  lemma TeamNameOfMember(teams: seq<Team>, k: int)
    requires 0 <= k < |teams| && teams[k].name != ""
    requires forall i, j :: 0 <= i < j < |teams| ==> teams[i].id != teams[j].id
    ensures TeamName(teams, Some(teams[k].id)) == teams[k].name
  {
    var found := FindTeam(teams, teams[k].id);
    var i :| 0 <= i < |teams| && teams[i] == found.value && found.value.id == teams[k].id && (forall j :: 0 <= j < i ==> teams[j].id != teams[k].id);
    assert i == k;
  }

  /** The games of one court. */
  function CourtQueue(games: seq<Game>, court: int): (r: seq<Game>)
    ensures forall g :: g in r <==> g in games && g.courtId == court
  {
    if games == [] then []
    else
      var rest := CourtQueue(games[1..], court);
      assert forall g :: g in games <==> g == games[0] || g in games[1..];
      (if games[0].courtId == court then [games[0]] else []) + rest
  }

  /** Insert `g` before the first game of `s` that is not in an earlier
      round: a later-inserted game stays in front of games of its own round
      that came after it, which makes the sort below stable. */
  function InsertByRound(g: Game, s: seq<Game>): (r: seq<Game>)
    ensures multiset(r) == multiset(s) + multiset{g}
  {
    if s == [] || g.roundNumber <= s[0].roundNumber then [g] + s
    else
      assert s == [s[0]] + s[1..];
      [s[0]] + InsertByRound(g, s[1..])
  }

  /** A stable sort by round, as `Array.prototype.sort` with the
      comparator `a.roundNumber - b.roundNumber`. */
  function SortByRound(s: seq<Game>): (r: seq<Game>)
    ensures multiset(r) == multiset(s)
  {
    if s == [] then []
    else
      assert s == [s[0]] + s[1..];
      InsertByRound(s[0], SortByRound(s[1..]))
  }

  predicate RoundSorted(s: seq<Game>) {
    forall i, j :: 0 <= i < j < |s| ==> s[i].roundNumber <= s[j].roundNumber
  }

  /** The games of `s` in round `round`, in order. */
  function InRound(s: seq<Game>, round: int): seq<Game> {
    if s == [] then [] else (if s[0].roundNumber == round then [s[0]] else []) + InRound(s[1..], round)
  }

  lemma {:induction false} InsertByRoundSorted(g: Game, s: seq<Game>)
    requires RoundSorted(s)
    ensures RoundSorted(InsertByRound(g, s))
  {
    if s != [] && g.roundNumber > s[0].roundNumber {
      InsertByRoundSorted(g, s[1..]);
      var r := InsertByRound(g, s);
      var tail := InsertByRound(g, s[1..]);
      assert r == [s[0]] + tail;
      forall x | x in tail ensures s[0].roundNumber <= x.roundNumber {
        assert x in multiset(tail);
        assert x in multiset(s[1..]) + multiset{g};
        if x in multiset(s[1..]) {
          var j :| 0 <= j < |s[1..]| && s[1..][j] == x;
          assert s[j + 1] == x;
        }
      }
    }
  }

  lemma {:induction false} SortByRoundSorted(s: seq<Game>)
    ensures RoundSorted(SortByRound(s))
  {
    if s != [] {
      SortByRoundSorted(s[1..]);
      InsertByRoundSorted(s[0], SortByRound(s[1..]));
    }
  }

  lemma {:induction false} InRoundConcat(s: seq<Game>, t: seq<Game>, round: int)
    ensures InRound(s + t, round) == InRound(s, round) + InRound(t, round)
  {
    if s == [] {
      assert s + t == t;
    } else {
      var st := s + t;
      assert st[0] == s[0] && st[1..] == s[1..] + t;
      InRoundConcat(s[1..], t, round);
      var h := if s[0].roundNumber == round then [s[0]] else [];
      var a, b := InRound(s[1..], round), InRound(t, round);
      assert InRound(st, round) == h + (a + b);
      assert InRound(s, round) == h + a;
      assert h + (a + b) == (h + a) + b;
    }
  }

  lemma InRoundSingle(g: Game, round: int)
    ensures InRound([g], round) == if g.roundNumber == round then [g] else []
  {
    assert [g][1..] == [];
  }

  lemma {:induction false} InRoundInsert(g: Game, s: seq<Game>, round: int)
    ensures InRound(InsertByRound(g, s), round)
         == (if g.roundNumber == round then [g] else []) + InRound(s, round)
  {
    if s == [] || g.roundNumber <= s[0].roundNumber {
      assert InsertByRound(g, s) == [g] + s;
      InRoundSingle(g, round);
      InRoundConcat([g], s, round);
    } else {
      InRoundInsert(g, s[1..], round);
      assert InsertByRound(g, s) == [s[0]] + InsertByRound(g, s[1..]);
      InRoundPastHead(g, s, InsertByRound(g, s[1..]), round);
    }
  }

  /** The step of `InRoundInsert` where `g` goes after the head of `s`. */
  lemma InRoundPastHead(g: Game, s: seq<Game>, rest: seq<Game>, round: int)
    requires s != [] && g.roundNumber > s[0].roundNumber
    requires InRound(rest, round) == (if g.roundNumber == round then [g] else []) + InRound(s[1..], round)
    ensures InRound([s[0]] + rest, round) == (if g.roundNumber == round then [g] else []) + InRound(s, round)
  {
    InRoundConcat([s[0]], rest, round);
    InRoundConcat([s[0]], s[1..], round);
    InRoundSingle(s[0], round);
    assert s == [s[0]] + s[1..];
    var h, a := InRound([s[0]], round), InRound(s[1..], round);
    var gg := if g.roundNumber == round then [g] else [];
    assert h == [] || gg == [];
    assert h + (gg + a) == gg + (h + a);
  }

  /** Sorting by round keeps the games of every round in their order. */
  lemma {:induction false} SortByRoundStable(s: seq<Game>, round: int)
    ensures InRound(SortByRound(s), round) == InRound(s, round)
  {
    if s != [] {
      SortByRoundStable(s[1..], round);
      InRoundInsert(s[0], SortByRound(s[1..]), round);
    }
  }

  /** The first game of `s` in round `round`. */
  function FindRound(s: seq<Game>, round: int): Option<Game> {
    if s == [] then None
    else if s[0].roundNumber == round then Some(s[0])
    else FindRound(s[1..], round)
  }

  lemma {:induction false} FindRoundFirst(s: seq<Game>, round: int)
    ensures FindRound(s, round) == (if InRound(s, round) == [] then None else Some(InRound(s, round)[0]))
  {
    if s != [] && s[0].roundNumber != round {
      FindRoundFirst(s[1..], round);
    }
  }

  /** "Up next" on a court: in the court's queue sorted by round, the first
      game of the round after the current one. */
  function UpNext(games: seq<Game>, currentRound: int, court: int): Option<Game> {
    FindRound(SortByRound(CourtQueue(games, court)), currentRound + 1)
  }

  /** The first game on `court` in round `round`, in schedule order. */
  function FirstOnCourt(games: seq<Game>, round: int, court: int): (r: Option<Game>)
    ensures r.None? <==> forall i :: 0 <= i < |games| ==> !(games[i].roundNumber == round && games[i].courtId == court)
    ensures r.Some? ==> exists i :: 0 <= i < |games| && games[i] == r.value && r.value.roundNumber == round && r.value.courtId == court && (forall j :: 0 <= j < i ==> !(games[j].roundNumber == round && games[j].courtId == court))
  {
    if games == [] then None
    else if games[0].roundNumber == round && games[0].courtId == court then Some(games[0])
    else
      var r := FirstOnCourt(games[1..], round, court);
      assert forall i :: 1 <= i < |games| ==> games[i] == games[1..][i - 1];
      r
  }

  lemma {:induction false} FindRoundOfQueue(games: seq<Game>, round: int, court: int)
    ensures FindRound(CourtQueue(games, court), round) == FirstOnCourt(games, round, court)
  {
    if games != [] {
      FindRoundOfQueue(games[1..], round, court);
      if games[0].courtId == court {
        assert CourtQueue(games, court) == [games[0]] + CourtQueue(games[1..], court);
      } else {
        assert CourtQueue(games, court) == CourtQueue(games[1..], court);
      }
    }
  }

  /** The court queue's sort does not change which game is up next: it is
      the first game of the court's next round in schedule order, and none
      when the court has no game in that round. */
  lemma UpNextIsFirstOnCourt(games: seq<Game>, currentRound: int, court: int)
    ensures UpNext(games, currentRound, court) == FirstOnCourt(games, currentRound + 1, court)
  {
    var q := CourtQueue(games, court);
    FindRoundFirst(SortByRound(q), currentRound + 1);
    FindRoundFirst(q, currentRound + 1);
    SortByRoundStable(q, currentRound + 1);
    FindRoundOfQueue(games, currentRound + 1, court);
  }

  // ---------------------------------------------------------------------
  // Advancing a round
  // ---------------------------------------------------------------------

  /** Every game of round `round` is marked finished; nothing else changes. */
  function FinishRound(games: seq<Game>, round: int): (r: seq<Game>)
    ensures |r| == |games|
    ensures forall i :: 0 <= i < |games| ==>
      r[i].status == (if games[i].roundNumber == round then Finished else games[i].status)
    ensures forall i :: 0 <= i < |games| ==> SameFixture(r[i], games[i])
    ensures forall i :: 0 <= i < |games| ==> r[i].scoreA == games[i].scoreA && r[i].scoreB == games[i].scoreB
  {
    seq(|games|, i requires 0 <= i < |games| =>
      if games[i].roundNumber == round then games[i].(status := Finished) else games[i])
  }

  lemma FinishRoundIdempotent(games: seq<Game>, round: int)
    ensures FinishRound(FinishRound(games, round), round) == FinishRound(games, round)
  {
    var once := FinishRound(games, round);
    var twice := FinishRound(once, round);
    forall i | 0 <= i < |games| ensures twice[i] == once[i] {
    }
  }

  /** The ids of `games`. */
  function Ids(games: seq<Game>): set<int> {
    set i | 0 <= i < |games| :: games[i].id
  }

  predicate DistinctGameIds(games: seq<Game>) {
    forall i, j :: 0 <= i < j < |games| ==> games[i].id != games[j].id
  }

  /** The largest of a non-empty list of numbers. */
  function MaxOf(xs: seq<int>): (m: int)
    requires |xs| > 0
    ensures forall i :: 0 <= i < |xs| ==> xs[i] <= m
    ensures m in xs
  {
    if |xs| == 1 then xs[0]
    else
      var rest := MaxOf(xs[1..]);
      assert forall i :: 1 <= i < |xs| ==> xs[i] == xs[1..][i - 1];
      if xs[0] > rest then xs[0] else rest
  }

  /** `Math.max` of the game ids. */
  function MaxId(games: seq<Game>): (m: int)
    requires |games| > 0
    ensures forall i :: 0 <= i < |games| ==> games[i].id <= m
    ensures exists i :: 0 <= i < |games| && games[i].id == m
  {
    var ids := seq(|games|, i requires 0 <= i < |games| => games[i].id);
    assert forall i :: 0 <= i < |games| ==> ids[i] == games[i].id;
    MaxOf(ids)
  }

  /** The teams of one group, in order. */
  function GroupTeams(teams: seq<Team>, group: GroupName): (r: seq<Team>)
    ensures forall t :: t in r <==> t in teams && t.group == group
    ensures |r| <= |teams|
  {
    if teams == [] then []
    else
      var rest := GroupTeams(teams[1..], group);
      assert forall t :: t in teams <==> t == teams[0] || t in teams[1..];
      (if teams[0].group == group then [teams[0]] else []) + rest
  }

  /** A semi-final's winner: team A only with a strictly higher score, so a
      drawn semi sends team B through. */
  function SemiWinner(g: Game): (r: Option<int>)
    ensures g.scoreA > g.scoreB ==> r == g.teamAId
    ensures g.scoreA <= g.scoreB ==> r == g.teamBId
  {
    if g.scoreA > g.scoreB then g.teamAId else g.teamBId
  }

  /** A semi-final's loser: the side that is not its winner. */
  function SemiLoser(g: Game): (r: Option<int>)
    ensures g.scoreA > g.scoreB ==> r == g.teamBId
    ensures g.scoreA <= g.scoreB ==> r == g.teamAId
  {
    if g.scoreA > g.scoreB then g.teamBId else g.teamAId
  }

  /** Winner and loser of a semi are its two sides. */
  lemma SemiSides(g: Game)
    ensures multiset{SemiWinner(g), SemiLoser(g)} == multiset{g.teamAId, g.teamBId}
  {
  }

  /** Round 9 is filled in: the final with the two winners, a placing game
      with the two losers; every other game is kept. */
  function FillFinals(games: seq<Game>, winner1: Option<int>, winner2: Option<int>,
                      loser1: Option<int>, loser2: Option<int>): (r: seq<Game>)
    ensures |r| == |games|
    ensures forall i :: 0 <= i < |games| ==>
      r[i] == (if games[i].roundNumber == 9 && games[i].stage == Final then games[i].(teamAId := winner1, teamBId := winner2)
               else if games[i].roundNumber == 9 && games[i].stage == Placing then games[i].(teamAId := loser1, teamBId := loser2)
               else games[i])
  {
    if games == [] then []
    else
      var g := games[0];
      var rest := FillFinals(games[1..], winner1, winner2, loser1, loser2);
      assert forall i :: 1 <= i < |games| ==> games[i] == games[1..][i - 1];
      [if g.roundNumber != 9 then g
       else if g.stage == Final then g.(teamAId := winner1, teamBId := winner2)
       else if g.stage == Placing then g.(teamAId := loser1, teamBId := loser2)
       else g] + rest
  }

  /** How many rounds a format plays before the celebration. */
  function MaxRounds(format: Format): int {
    if format == Groups then 9 else 14
  }

  /** The round after `round`: one more, except that finishing the last
      round (or any later one) lands on the celebration round `max + 1`. */
  function NextRound(format: Format, round: int): (r: int)
    ensures round < MaxRounds(format) ==> r == round + 1
    ensures round >= MaxRounds(format) ==> r == MaxRounds(format) + 1
  {
    if round >= MaxRounds(format) then MaxRounds(format) + 1 else round + 1
  }

  /** The round pointer never goes back, stays within 1 to `max + 1`, and
      rests at `max + 1` once it gets there. */
  lemma NextRoundBounds(format: Format, round: int)
    requires 1 <= round <= MaxRounds(format) + 1
    ensures round <= NextRound(format, round) <= MaxRounds(format) + 1
    ensures round < NextRound(format, round) <==> round <= MaxRounds(format)
    ensures NextRound(format, MaxRounds(format) + 1) == MaxRounds(format) + 1
  {
  }

  lemma NextRoundMonotone(format: Format, r1: int, r2: int)
    requires r1 <= r2
    ensures NextRound(format, r1) <= NextRound(format, r2)
  {
  }

  /** The round pointer after `n` advances from `round`. */
  function AfterAdvances(format: Format, round: int, n: nat): int
    decreases n
  {
    if n == 0 then round else AfterAdvances(format, NextRound(format, round), n - 1)
  }

  /** Starting at round 1, `max` advances reach the celebration round. */
  lemma {:induction false} AdvancesReachEnd(format: Format, round: int)
    requires 1 <= round <= MaxRounds(format) + 1
    ensures AfterAdvances(format, round, (MaxRounds(format) + 1 - round) as nat) == MaxRounds(format) + 1
    decreases MaxRounds(format) + 1 - round
  {
    if round <= MaxRounds(format) {
      AdvancesReachEnd(format, round + 1);
    }
  }

  /** The two ways the page decides a drawn knockout game disagree: the
      round advance sends team B of a drawn semi-final through, while the
      placement resolver declares team A the winner of a drawn game. */
  lemma SemiTieRulesDisagree(g: Game)
    requires g.scoreA == g.scoreB
    ensures SemiWinner(g) == g.teamBId
    ensures SemiLoser(g) == g.teamAId
    ensures Placings.GetResult(g).winner == g.teamAId
    ensures g.teamAId != g.teamBId ==> SemiWinner(g) != Placings.GetResult(g).winner
  {
  }

  lemma {:induction false} FirstOnCourtAppend(u: seq<Game>, t: seq<Game>, round: int, court: int)
    requires forall i :: 0 <= i < |u| ==> u[i].roundNumber != round
    ensures FirstOnCourt(u + t, round, court) == FirstOnCourt(t, round, court)
  {
    if u != [] {
      assert (u + t)[0] == u[0] && (u + t)[1..] == u[1..] + t;
      FirstOnCourtAppend(u[1..], t, round, court);
    } else {
      assert u + t == t;
    }
  }

  lemma FillFinalsAppend(u: seq<Game>, t: seq<Game>, w1: Option<int>, w2: Option<int>, l1: Option<int>, l2: Option<int>)
    requires forall i :: 0 <= i < |u| ==> u[i].roundNumber != 9
    ensures FillFinals(u + t, w1, w2, l1, l2) == u + FillFinals(t, w1, w2, l1, l2)
  {
    var f := FillFinals(u + t, w1, w2, l1, l2);
    var ft := FillFinals(t, w1, w2, l1, l2);
    forall i | 0 <= i < |u + t| ensures f[i] == (u + ft)[i] {
      if i >= |u| {
        assert (u + t)[i] == t[i - |u|];
      }
    }
  }

  /** The semis are the first round-7 games on courts 1 and 2. */
  lemma SeededSemis(gs: seq<Game>)
    requires |gs| == 6 && Bracket.Layout(gs)
    ensures FirstOnCourt(gs, 7, 1) == Some(gs[0])
    ensures FirstOnCourt(gs, 7, 2) == Some(gs[1])
  {
    assert gs[1..][0] == gs[1];
  }

  /** The round-9 fill changes exactly the final and the 3rd/4th place game. */
  lemma SeededFill(gs: seq<Game>, w1: Option<int>, w2: Option<int>, l1: Option<int>, l2: Option<int>)
    requires |gs| == 6 && Bracket.Layout(gs)
    ensures FillFinals(gs, w1, w2, l1, l2)
         == gs[4 := gs[4].(teamAId := w1, teamBId := w2)][5 := gs[5].(teamAId := l1, teamBId := l2)]
  {
    var f := FillFinals(gs, w1, w2, l1, l2);
    var e := gs[4 := gs[4].(teamAId := w1, teamBId := w2)][5 := gs[5].(teamAId := l1, teamBId := l2)];
    forall i | 0 <= i < 6 ensures f[i] == e[i] {
    }
  }

  /** On a seeded bracket appended after games of earlier rounds, the semi
      lookups find the two semis and the round-9 fill touches exactly the
      final and the 3rd/4th place game. */
  lemma BracketLookups(u: seq<Game>, gs: seq<Game>, sa: seq<Standing>, sb: seq<Standing>, lastId: int,
                       w1: Option<int>, w2: Option<int>, l1: Option<int>, l2: Option<int>)
    requires |sa| >= 4 && |sb| >= 4 && Bracket.Seeded(gs, sa, sb, lastId)
    requires forall i :: 0 <= i < |u| ==> u[i].roundNumber < 7
    ensures FirstOnCourt(u + gs, 7, 1) == Some(gs[0])
    ensures FirstOnCourt(u + gs, 7, 2) == Some(gs[1])
    ensures FillFinals(u + gs, w1, w2, l1, l2)
         == u + gs[4 := gs[4].(teamAId := w1, teamBId := w2)][5 := gs[5].(teamAId := l1, teamBId := l2)]
  {
    FirstOnCourtAppend(u, gs, 7, 1);
    FirstOnCourtAppend(u, gs, 7, 2);
    FillFinalsAppend(u, gs, w1, w2, l1, l2);
    SeededSemis(gs);
    SeededFill(gs, w1, w2, l1, l2);
  }

  /** Once the semis are decided and the round-9 slots filled, the final
      placement resolver reads positions 1 and 2 off the filled final, 3
      and 4 off the filled 3rd/4th place game, and 5 to 8 off the two
      round-8 games, provided the games before the bracket are no finals
      and have no '/' in their descriptions (as the group games). */
  lemma FilledBracketPlaced(u: seq<Game>, gs: seq<Game>, sa: seq<Standing>, sb: seq<Standing>, lastId: int,
                            w1: Option<int>, w2: Option<int>, l1: Option<int>, l2: Option<int>)
    requires |sa| >= 4 && |sb| >= 4 && Bracket.Seeded(gs, sa, sb, lastId)
    requires forall i :: 0 <= i < |u| ==> u[i].roundNumber < 7 && u[i].stage != Final && '/' !in u[i].description
    ensures Placings.Find(FillFinals(u + gs, w1, w2, l1, l2), Placings.KeyFor(1)) == Some(gs[4].(teamAId := w1, teamBId := w2))
    ensures Placings.Find(FillFinals(u + gs, w1, w2, l1, l2), Placings.KeyFor(2)) == Some(gs[5].(teamAId := l1, teamBId := l2))
    ensures Placings.Find(FillFinals(u + gs, w1, w2, l1, l2), Placings.KeyFor(3)) == Some(gs[2])
    ensures Placings.Find(FillFinals(u + gs, w1, w2, l1, l2), Placings.KeyFor(4)) == Some(gs[3])
  {
    BracketLookups(u, gs, sa, sb, lastId, w1, w2, l1, l2);
    var filled := gs[4 := gs[4].(teamAId := w1, teamBId := w2)][5 := gs[5].(teamAId := l1, teamBId := l2)];
    assert Bracket.Layout(filled) && Bracket.Described(filled);
    Placings.BracketDecides(u, filled);
  }

  /** `a` and `b` list the same ids in the same order. */
  predicate SameIds(a: seq<Game>, b: seq<Game>) {
    |a| == |b| && forall i :: 0 <= i < |a| ==> a[i].id == b[i].id
  }

  lemma SameIdsDistinct(a: seq<Game>, b: seq<Game>)
    requires SameIds(a, b) && DistinctGameIds(a)
    ensures DistinctGameIds(b)
  {
  }

  lemma FinishRoundIds(games: seq<Game>, round: int)
    ensures SameIds(games, FinishRound(games, round))
  {
    var r := FinishRound(games, round);
    forall i | 0 <= i < |games| ensures games[i].id == r[i].id {
      assert SameFixture(r[i], games[i]);
      assert r[i].(scoreA := 0, scoreB := 0, status := Scheduled).id == r[i].id;
    }
  }

  lemma FillFinalsIds(games: seq<Game>, w1: Option<int>, w2: Option<int>, l1: Option<int>, l2: Option<int>)
    ensures SameIds(games, FillFinals(games, w1, w2, l1, l2))
  {
  }

  /** Games numbered on from `m`, appended after games whose ids are all at
      most `m`, keep the ids distinct. */
  lemma AppendFreshDistinct(u: seq<Game>, t: seq<Game>, m: int)
    requires DistinctGameIds(u)
    requires forall i :: 0 <= i < |u| ==> u[i].id <= m
    requires forall j :: 0 <= j < |t| ==> t[j].id == m + 1 + j
    ensures DistinctGameIds(u + t)
  {
    var all := u + t;
    forall i, j | 0 <= i < j < |all| ensures all[i].id != all[j].id {
      if j >= |u| {
        assert all[j] == t[j - |u|];
        if i >= |u| {
          assert all[i] == t[i - |u|];
        }
      }
    }
  }

  lemma SeededIds(gs: seq<Game>, lastId: int)
    requires Bracket.FreshFrom(gs, lastId)
    ensures forall j :: 0 <= j < |gs| ==> gs[j].id == lastId + 1 + j
  {
    forall j | 0 <= j < |gs| ensures gs[j].id == lastId + 1 + j {
      assert Bracket.Fresh(gs[j], lastId, j);
    }
  }

  /** After the fresh bracket is appended to games with distinct ids, the
      ids are still distinct, and the bracket's ids are all above the old
      maximum. */
  lemma AppendBracketDistinct(u: seq<Game>, gs: seq<Game>, sa: seq<Standing>, sb: seq<Standing>)
    requires |u| > 0 && |sa| >= 4 && |sb| >= 4
    requires Bracket.Seeded(gs, sa, sb, MaxId(u)) && DistinctGameIds(u)
    ensures DistinctGameIds(u + gs)
    ensures forall i, j :: 0 <= i < |u| && 0 <= j < |gs| ==> u[i].id < gs[j].id
  {
    SeededIds(gs, MaxId(u));
    AppendFreshDistinct(u, gs, MaxId(u));
  }

  // ---------------------------------------------------------------------
  // The page's tournament state
  // ---------------------------------------------------------------------

  /** What one press of "next round" did. `Crashed` is the TypeError the
      finals generator raises when a group table has fewer than four
      rows: the page keeps its state. */
  datatype Outcome = Next | Completed | Crashed

  class Tournament {
    const format: Format
    const teams: seq<Team>
    var games: seq<Game>
    var currentRound: int

    /** The round pointer stays between 1 and the celebration round, and a
        grouped tournament always has games, with distinct ids. */
    ghost predicate Valid()
      reads this
    {
      && 1 <= currentRound <= MaxRounds(format) + 1
      && (format == Groups ==> |games| > 0 && DistinctGameIds(games))
    }

    /** Start a tournament: the fixed group schedule, or the round-robin
        schedule the generator produced, at round 1. */
    constructor Start(format: Format, teams: seq<Team>, roundRobinSchedule: seq<Game>)
      ensures Valid()
      ensures this.format == format && this.teams == teams
      ensures games == (if format == Groups then InitialData.InitialGames else roundRobinSchedule)
      ensures currentRound == 1
    {
      this.format := format;
      this.teams := teams;
      if format == Groups {
        InitialData.InitialGamesShape();
        games := InitialData.InitialGames;
      } else {
        games := roundRobinSchedule;
      }
      currentRound := 1;
    }

    /** A `+`/`-` button press. */
    method UpdateScore(gameId: int, side: Side, delta: int)
      requires Valid()
      modifies this`games
      ensures Valid()
      ensures games == WithScoreDelta(old(games), gameId, side, delta)
    {
      games := WithScoreDelta(games, gameId, side, delta);
    }

    /** A score typed into the table; `value` is the parsed input. */
    method HandleScoreEdit(gameId: int, side: Side, value: Option<int>)
      requires Valid()
      modifies this`games
      ensures Valid()
      ensures games == WithScoreEdit(old(games), gameId, side, value)
    {
      games := WithScoreEdit(games, gameId, side, value);
    }

    /** The bracket step after group round 6: both group tables are
        computed from the finished games, and the six bracket games are
        appended, numbered on from the highest id. `None` is the TypeError
        of a table with fewer than four rows. */
    method AppendFinals(updated: seq<Game>) returns (finalGames: Option<seq<Game>>)
      requires |updated| > 0 && DistinctGameIds(updated)
      ensures var sa := Standings.Standings(updated, GroupTeams(teams, A));
        var sb := Standings.Standings(updated, GroupTeams(teams, B));
        && (finalGames.None? <==> |sa| < 4 || |sb| < 4)
        && (finalGames.Some? ==>
              && |sa| >= 4 && |sb| >= 4
              && |finalGames.value| == |updated| + 6 && finalGames.value[..|updated|] == updated
              && Bracket.Seeded(finalGames.value[|updated|..], sa, sb, MaxId(updated))
              && DistinctGameIds(finalGames.value))
    {
      var standingsA := Standings.CalculateStandings(updated, GroupTeams(teams, A));
      var standingsB := Standings.CalculateStandings(updated, GroupTeams(teams, B));
      var lastId := MaxId(updated);
      var fixtures := Bracket.GenerateFinalsFixtures(standingsA, standingsB, lastId);
      if fixtures.None? {
        return None;
      }
      AppendBracketDistinct(updated, fixtures.value, standingsA, standingsB);
      var all := updated + fixtures.value;
      assert all[..|updated|] == updated && all[|updated|..] == fixtures.value;
      finalGames := Some(all);
    }

    /** "Next round": finish the current round; after group round 6 append
        the bracket seeded from the two group tables with ids above every
        existing one; after the semis (round 7) fill the final with the
        winners and the 3rd/4th place game with the losers; then move the
        round pointer on. */
    method Advance() returns (outcome: Outcome)
      requires Valid()
      modifies this
      ensures Valid()
      ensures var u := FinishRound(old(games), old(currentRound));
        && (outcome == Crashed <==>
              format == Groups && old(currentRound) == 6
              && (|Standings.Standings(u, GroupTeams(teams, A))| < 4 || |Standings.Standings(u, GroupTeams(teams, B))| < 4))
        && (outcome == Crashed ==> games == old(games) && currentRound == old(currentRound))
        && (outcome != Crashed ==> currentRound == NextRound(format, old(currentRound)))
        && (outcome == Completed <==> old(currentRound) >= MaxRounds(format))
        && (outcome != Crashed && (format != Groups || (old(currentRound) != 6 && old(currentRound) != 7)) ==>
              games == u)
        && (outcome != Crashed && format == Groups && old(currentRound) == 6 ==>
              var sa := Standings.Standings(u, GroupTeams(teams, A));
              var sb := Standings.Standings(u, GroupTeams(teams, B));
              && |sa| >= 4 && |sb| >= 4 && |u| > 0
              && |games| == |u| + 6 && games[..|u|] == u
              && Bracket.Seeded(games[|u|..], sa, sb, MaxId(u)))
        && (format == Groups && old(currentRound) == 7 ==>
              var sf1 := FirstOnCourt(u, 7, 1);
              var sf2 := FirstOnCourt(u, 7, 2);
              games == (if sf1.Some? && sf2.Some? then
                          FillFinals(u, SemiWinner(sf1.value), SemiWinner(sf2.value),
                                     SemiLoser(sf1.value), SemiLoser(sf2.value))
                        else u))
    {
      var r := currentRound;
      var updated := FinishRound(games, r);
      FinishRoundIds(games, r);
      var finalGames := updated;
      if format == Groups {
        SameIdsDistinct(games, updated);
        if r == 6 {
          var appended := AppendFinals(updated);
          if appended.None? {
            return Crashed;
          }
          finalGames := appended.value;
        }
        if r == 7 {
          var sf1 := FirstOnCourt(finalGames, 7, 1);
          var sf2 := FirstOnCourt(finalGames, 7, 2);
          if sf1.Some? && sf2.Some? {
            var winner1 := SemiWinner(sf1.value);
            var loser1 := SemiLoser(sf1.value);
            var winner2 := SemiWinner(sf2.value);
            var loser2 := SemiLoser(sf2.value);
            FillFinalsIds(finalGames, winner1, winner2, loser1, loser2);
            SameIdsDistinct(finalGames, FillFinals(finalGames, winner1, winner2, loser1, loser2));
            finalGames := FillFinals(finalGames, winner1, winner2, loser1, loser2);
          }
        }
      }
      games := finalGames;
      var maxRounds := MaxRounds(format);
      if r >= maxRounds {
        currentRound := maxRounds + 1;
        outcome := Completed;
      } else {
        currentRound := currentRound + 1;
        outcome := Next;
      }
    }
  }
}
