/** The standings calculator: a ranked win/draw/loss/goals/points table for
    any subset of the teams, built from the finished group games. */
module Standings {
  import opened Types

  // ---------------------------------------------------------------------
  // Which games count, and what one game does to one row
  // ---------------------------------------------------------------------

  /** A game feeds the table of the teams in `ids` when it is finished, is a
      group game, has both slots filled and both of its teams are in `ids`. */
  predicate Counted(g: Game, ids: set<int>) {
    && g.status == Finished
    && g.stage == GroupStage
    && Assigned(g.teamAId) && Assigned(g.teamBId)
    && g.teamAId.value in ids && g.teamBId.value in ids
  }

  /** The row a team starts with: all counters zero. */
  function ZeroRow(team: Team): Standing {
    Standing(team.id, team.name, team.group, 0, 0, 0, 0, 0, 0, 0, 0)
  }

  /** The row of a team after one game in which it scored `mine` and
      conceded `theirs`: played, goals, result, points, goal difference. */
  function CreditSide(s: Standing, mine: int, theirs: int): Standing {
    var s1 := s.(played := s.played + 1, gf := s.gf + mine, ga := s.ga + theirs);
    var s2 :=
      if mine > theirs then s1.(won := s1.won + 1, points := s1.points + 3)
      else if theirs > mine then s1.(lost := s1.lost + 1)
      else s1.(drawn := s1.drawn + 1, points := s1.points + 1);
    s2.(gd := s2.gf - s2.ga)
  }

  function CreditA(s: Standing, g: Game): Standing {
    CreditSide(s, g.scoreA, g.scoreB)
  }

  function CreditB(s: Standing, g: Game): Standing {
    CreditSide(s, g.scoreB, g.scoreA)
  }

  /** One game applied to the row of team `s.teamId`: side A's credit if the
      team is team A, then side B's credit if it is team B (both, when a
      team is entered on both sides, since the two sides then share a row). */
  function Credit(s: Standing, g: Game, ids: set<int>): Standing {
    if !Counted(g, ids) then s
    else
      var s1 := if g.teamAId.value == s.teamId then CreditA(s, g) else s;
      if g.teamBId.value == s.teamId then CreditB(s1, g) else s1
  }

  /** The row `base` stands for after every game of `games`, in order. */
  function RowOf(games: seq<Game>, ids: set<int>, base: Standing): (r: Standing)
    ensures r.teamId == base.teamId && r.teamName == base.teamName && r.group == base.group
  {
    if games == [] then base
    else Credit(RowOf(games[..|games| - 1], ids, base), games[|games| - 1], ids)
  }

  // ---------------------------------------------------------------------
  // The table: one row per distinct team id
  // ---------------------------------------------------------------------

  /** The distinct team ids in order of first appearance. */
  function DistinctIds(teams: seq<Team>): (ids: seq<int>)
    ensures forall i, j :: 0 <= i < j < |ids| ==> ids[i] != ids[j]
    ensures forall id :: id in ids <==> id in TeamIndex(teams)
  {
    if teams == [] then []
    else
      var rest := DistinctIds(teams[..|teams| - 1]);
      var id := teams[|teams| - 1].id;
      if id in rest then rest else rest + [id]
  }

  /** The zero rows the table starts from, one per distinct id. */
  function ZeroRows(teams: seq<Team>): (rows: seq<Standing>)
  {
    var index := TeamIndex(teams);
    var ids := DistinctIds(teams);
    seq(|ids|, k requires 0 <= k < |ids| => ZeroRow(index[ids[k]]))
  }

  /** Every row credited with one game. */
  function CreditAll(rows: seq<Standing>, g: Game, ids: set<int>): (r: seq<Standing>)
    ensures |r| == |rows|
    ensures forall k :: 0 <= k < |r| ==> r[k] == Credit(rows[k], g, ids)
  {
    if rows == [] then [] else [Credit(rows[0], g, ids)] + CreditAll(rows[1..], g, ids)
  }

  /** Every row credited with every game, in order. */
  function RowsOf(games: seq<Game>, ids: set<int>, bases: seq<Standing>): (r: seq<Standing>)
    ensures |r| == |bases|
  {
    if games == [] then bases
    else CreditAll(RowsOf(games[..|games| - 1], ids, bases), games[|games| - 1], ids)
  }

  /** The unsorted table, as the source's record of rows holds it. */
  function TableRows(games: seq<Game>, teams: seq<Team>): seq<Standing> {
    RowsOf(games, TeamIndex(teams).Keys, ZeroRows(teams))
  }

  /** The row of one team of the subset. */
  function RowFor(games: seq<Game>, teams: seq<Team>, id: int): Standing
    requires id in TeamIndex(teams)
  {
    RowOf(games, TeamIndex(teams).Keys, ZeroRow(TeamIndex(teams)[id]))
  }

  /** The standings: the table sorted into ranking order. */
  function Standings(games: seq<Game>, teams: seq<Team>): seq<Standing> {
    SortStandings(TableRows(games, teams))
  }

  // ---------------------------------------------------------------------
  // Ranking order
  // ---------------------------------------------------------------------

  /** Strict lexicographic order on strings, character by character. */
  predicate LexLess(s: string, t: string)
    decreases |s|
  {
    t != [] && (s == [] || s[0] < t[0] || (s[0] == t[0] && LexLess(s[1..], t[1..])))
  }

  lemma {:induction false} LexLessIrreflexive(s: string)
    ensures !LexLess(s, s)
    decreases |s|
  {
    if s != [] { LexLessIrreflexive(s[1..]); }
  }

  lemma {:induction false} LexLessTotal(s: string, t: string)
    ensures s == t || LexLess(s, t) || LexLess(t, s)
    decreases |s|
  {
    if s != [] && t != [] && s[0] == t[0] {
      LexLessTotal(s[1..], t[1..]);
      if s[1..] == t[1..] {
        assert s == [s[0]] + s[1..] && t == [t[0]] + t[1..];
      }
    }
  }

  lemma {:induction false} LexLessTransitive(s: string, t: string, u: string)
    requires LexLess(s, t) && LexLess(t, u)
    ensures LexLess(s, u)
    decreases |s|
  {
    if s != [] && s[0] == t[0] && t[0] == u[0] {
      LexLessTransitive(s[1..], t[1..], u[1..]);
    }
  }

  lemma {:induction false} LexLessAsymmetric(s: string, t: string)
    requires LexLess(s, t)
    ensures !LexLess(t, s)
    decreases |s|
  {
    if s != [] && s[0] == t[0] {
      LexLessAsymmetric(s[1..], t[1..]);
    }
  }

  /** `x` may be listed before `y`: more points, then better goal
      difference, then more goals scored, then the name first in
      lexicographic order, and among rows equal in all of these the lower
      team id (the order in which the source's record lists integer keys,
      which its stable sort keeps). */
  predicate Precedes(x: Standing, y: Standing) {
    if x.points != y.points then x.points > y.points
    else if x.gd != y.gd then x.gd > y.gd
    else if x.gf != y.gf then x.gf > y.gf
    else if x.teamName != y.teamName then LexLess(x.teamName, y.teamName)
    else x.teamId <= y.teamId
  }

  lemma PrecedesTotal(x: Standing, y: Standing)
    ensures Precedes(x, y) || Precedes(y, x)
  {
    LexLessTotal(x.teamName, y.teamName);
  }

  lemma PrecedesTransitive(x: Standing, y: Standing, z: Standing)
    requires Precedes(x, y) && Precedes(y, z)
    ensures Precedes(x, z)
  {
    if x.points == y.points == z.points && x.gd == y.gd == z.gd && x.gf == y.gf == z.gf {
      if x.teamName != y.teamName && y.teamName != z.teamName {
        LexLessTransitive(x.teamName, y.teamName, z.teamName);
        if x.teamName == z.teamName {
          LexLessAsymmetric(x.teamName, y.teamName);
        }
      }
    }
  }

  /** The ranking is strict between different teams: two rows with
      different team ids never tie, so no pair falls into an arbitrary order. */
  lemma PrecedesStrict(x: Standing, y: Standing)
    requires x.teamId != y.teamId
    ensures Precedes(x, y) != Precedes(y, x)
  {
    PrecedesTotal(x, y);
    if x.teamName != y.teamName && LexLess(x.teamName, y.teamName) {
      LexLessAsymmetric(x.teamName, y.teamName);
    }
  }

  predicate Sorted(rows: seq<Standing>) {
    forall i, j :: 0 <= i < j < |rows| ==> Precedes(rows[i], rows[j])
  }

  predicate UniqueIds(rows: seq<Standing>) {
    forall i, j :: 0 <= i < j < |rows| ==> rows[i].teamId != rows[j].teamId
  }

  /** Insertion into a ranked list, ahead of the first row it precedes. */
  function Insert(x: Standing, s: seq<Standing>): (r: seq<Standing>)
    ensures |r| == |s| + 1
    ensures multiset(r) == multiset(s) + multiset{x}
  {
    if s == [] then [x]
    else if Precedes(x, s[0]) then [x] + s
    else
      assert s == [s[0]] + s[1..];
      [s[0]] + Insert(x, s[1..])
  }

  /** The source's `sort` with the ranking comparator, as an insertion sort. */
  function SortStandings(s: seq<Standing>): (r: seq<Standing>)
    ensures |r| == |s|
    ensures multiset(r) == multiset(s)
  {
    if s == [] then []
    else
      assert s == [s[0]] + s[1..];
      Insert(s[0], SortStandings(s[1..]))
  }

  lemma {:induction false} InsertSorted(x: Standing, s: seq<Standing>)
    requires Sorted(s)
    ensures Sorted(Insert(x, s))
  {
    if s == [] {
    } else if Precedes(x, s[0]) {
      forall k | 0 <= k < |s| ensures Precedes(x, s[k]) {
        if k > 0 { PrecedesTransitive(x, s[0], s[k]); }
      }
    } else {
      PrecedesTotal(x, s[0]);
      var tail := Insert(x, s[1..]);
      InsertSorted(x, s[1..]);
      forall k | 0 <= k < |tail| ensures Precedes(s[0], tail[k]) {
        assert tail[k] in multiset(tail);
        if tail[k] != x {
          assert tail[k] in multiset(s[1..]);
          var j :| 0 <= j < |s[1..]| && s[1..][j] == tail[k];
          assert s[j + 1] == tail[k];
        }
      }
      assert Insert(x, s) == [s[0]] + tail;
    }
  }

  lemma {:induction false} InsertUnique(x: Standing, s: seq<Standing>)
    requires UniqueIds(s)
    requires forall k :: 0 <= k < |s| ==> s[k].teamId != x.teamId
    ensures UniqueIds(Insert(x, s))
  {
    if s != [] && !Precedes(x, s[0]) {
      var tail := Insert(x, s[1..]);
      InsertUnique(x, s[1..]);
      forall k | 0 <= k < |tail| ensures s[0].teamId != tail[k].teamId {
        assert tail[k] in multiset(tail);
        if tail[k] != x {
          assert tail[k] in multiset(s[1..]);
          var j :| 0 <= j < |s[1..]| && s[1..][j] == tail[k];
          assert s[j + 1] == tail[k];
        }
      }
      assert Insert(x, s) == [s[0]] + tail;
    }
  }

  /** The sort yields the rows in ranking order. */
  lemma {:induction false} SortSorted(s: seq<Standing>)
    ensures Sorted(SortStandings(s))
  {
    if s != [] {
      SortSorted(s[1..]);
      InsertSorted(s[0], SortStandings(s[1..]));
    }
  }

  /** The sort keeps team ids unique. */
  lemma {:induction false} SortUnique(s: seq<Standing>)
    requires UniqueIds(s)
    ensures UniqueIds(SortStandings(s))
  {
    if s != [] {
      var rest := SortStandings(s[1..]);
      SortUnique(s[1..]);
      forall k | 0 <= k < |rest| ensures rest[k].teamId != s[0].teamId {
        assert rest[k] in multiset(rest);
        assert rest[k] in multiset(s[1..]);
        var j :| 0 <= j < |s[1..]| && s[1..][j] == rest[k];
        assert s[j + 1] == rest[k];
      }
      InsertUnique(s[0], rest);
    }
  }

  // ---------------------------------------------------------------------
  // The imperative calculator
  // ---------------------------------------------------------------------

  /** Fill a record with a zero row per team, walk the games crediting the
      two rows each counted game touches, then sort the rows. */
  method CalculateStandings(games: seq<Game>, teams: seq<Team>) returns (r: seq<Standing>)
    ensures r == Standings(games, teams)
  {
    var table := InitialTable(teams);
    table := ProcessGames(table, games, TeamIndex(teams));
    var ids := DistinctIds(teams);
    var rows := seq(|ids|, k requires 0 <= k < |ids| => table[ids[k]]);
    TableListed(table, games, teams);
    r := SortStandings(rows);
  }

  /** The record after the team loop: a zero row for every id, taken from
      the last team with that id. */
  method InitialTable(teams: seq<Team>) returns (table: map<int, Standing>)
    ensures table.Keys == TeamIndex(teams).Keys
    ensures forall id :: id in table ==> table[id] == ZeroRow(TeamIndex(teams)[id])
  {
    table := map[];
    for i := 0 to |teams|
      invariant table.Keys == TeamIndex(teams[..i]).Keys
      invariant forall id :: id in table ==> table[id] == ZeroRow(TeamIndex(teams[..i])[id])
    {
      ZeroTableStep(table, teams, i);
      table := table[teams[i].id := ZeroRow(teams[i])];
    }
    assert teams[..|teams|] == teams;
  }

  /** The game loop: every counted game credits the rows of its two teams. */
  method ProcessGames(table0: map<int, Standing>, games: seq<Game>, ghost index: map<int, Team>)
    returns (table: map<int, Standing>)
    requires table0.Keys == index.Keys
    requires forall id :: id in index ==> index[id].id == id
    requires forall id :: id in table0 ==> table0[id] == ZeroRow(index[id])
    ensures table.Keys == index.Keys
    ensures forall id :: id in table ==> table[id] == RowOf(games, index.Keys, ZeroRow(index[id]))
  {
    table := table0;
    for j := 0 to |games|
      invariant table.Keys == index.Keys
      invariant forall id :: id in table ==> table[id] == RowOf(games[..j], index.Keys, ZeroRow(index[id]))
    {
      CreditTable(table, index, games, j);
      table := ApplyGame(table, games[j], index.Keys);
    }
    assert games[..|games|] == games;
  }

  /** The two rows of a counted game's teams, credited one after the
      other (the same row twice when a team plays itself). */
  function CreditBoth(table: map<int, Standing>, g: Game): map<int, Standing>
    requires g.teamAId.Some? && g.teamBId.Some?
    requires g.teamAId.value in table && g.teamBId.value in table
  {
    var a, b := g.teamAId.value, g.teamBId.value;
    var t1 := table[a := CreditA(table[a], g)];
    t1[b := CreditB(t1[b], g)]
  }

  /** The record after one game: a finished group game between two teams
      of the record credits both rows; any other game changes nothing. */
  function Applied(table: map<int, Standing>, g: Game, ids: set<int>): map<int, Standing>
    requires table.Keys == ids
  {
    if Counted(g, ids) then CreditBoth(table, g) else table
  }

  /** The loop body for one game. */
  method ApplyGame(table: map<int, Standing>, g: Game, ghost ids: set<int>) returns (t: map<int, Standing>)
    requires table.Keys == ids
    ensures t == Applied(table, g, ids)
  {
    t := table;
    if g.status == Finished && g.stage == GroupStage && Assigned(g.teamAId) && Assigned(g.teamBId) {
      var a, b := g.teamAId.value, g.teamBId.value;
      if a in t && b in t {
        t := t[a := CreditA(t[a], g)];
        t := t[b := CreditB(t[b], g)];
      }
    }
  }

  /** One pass of the team loop: the record gains the team's zero row,
      replacing any earlier team with the same id. */
  lemma ZeroTableStep(table: map<int, Standing>, teams: seq<Team>, i: nat)
    requires i < |teams|
    requires table.Keys == TeamIndex(teams[..i]).Keys
    requires forall id :: id in table ==> table[id] == ZeroRow(TeamIndex(teams[..i])[id])
    ensures var t := table[teams[i].id := ZeroRow(teams[i])];
      && t.Keys == TeamIndex(teams[..i + 1]).Keys
      && forall id :: id in t ==> t[id] == ZeroRow(TeamIndex(teams[..i + 1])[id])
  {
    assert teams[..i + 1][..i] == teams[..i];
  }

  /** Listing the finished record by distinct id gives the table. */
  lemma TableListed(table: map<int, Standing>, games: seq<Game>, teams: seq<Team>)
    requires table.Keys == TeamIndex(teams).Keys
    requires forall id :: id in table ==>
      table[id] == RowOf(games, TeamIndex(teams).Keys, ZeroRow(TeamIndex(teams)[id]))
    ensures var ids := DistinctIds(teams);
      seq(|ids|, k requires 0 <= k < |ids| => table[ids[k]]) == TableRows(games, teams)
  {
    TableRowsAt(games, teams);
  }

  /** One pass of the game loop: crediting the rows of a counted game's
      two teams, one after the other, extends every row by that game. */
  lemma CreditTable(table: map<int, Standing>, index: map<int, Team>, games: seq<Game>, j: nat)
    requires j < |games|
    requires table.Keys == index.Keys
    requires forall id :: id in index ==> index[id].id == id
    requires forall id :: id in table ==> table[id] == RowOf(games[..j], index.Keys, ZeroRow(index[id]))
    ensures Applied(table, games[j], index.Keys).Keys == index.Keys
    ensures forall id :: id in Applied(table, games[j], index.Keys) ==>
      Applied(table, games[j], index.Keys)[id] == RowOf(games[..j + 1], index.Keys, ZeroRow(index[id]))
  {
    assert games[..j + 1][..j] == games[..j];
  }

  // ---------------------------------------------------------------------
  // Properties of the table
  // ---------------------------------------------------------------------

  lemma {:induction false} RowsOfAt(games: seq<Game>, ids: set<int>, bases: seq<Standing>, k: nat)
    requires k < |bases|
    ensures RowsOf(games, ids, bases)[k] == RowOf(games, ids, bases[k])
  {
    if games != [] {
      RowsOfAt(games[..|games| - 1], ids, bases, k);
    }
  }

  /** The table lists, for each distinct id in order of first appearance,
      that team's row. */
  lemma TableRowsAt(games: seq<Game>, teams: seq<Team>)
    ensures var ids := DistinctIds(teams); var t := TableRows(games, teams);
      |t| == |ids| && forall k :: 0 <= k < |ids| ==> t[k] == RowFor(games, teams, ids[k])
  {
    var ids := DistinctIds(teams);
    forall k | 0 <= k < |ids|
      ensures TableRows(games, teams)[k] == RowFor(games, teams, ids[k])
    {
      RowsOfAt(games, TeamIndex(teams).Keys, ZeroRows(teams), k);
    }
  }

  /** Every row of the standings is the own row of a team of the subset. */
  lemma StandingsRows(games: seq<Game>, teams: seq<Team>)
    ensures var r := Standings(games, teams);
      forall i :: 0 <= i < |r| ==> r[i].teamId in TeamIndex(teams) && r[i] == RowFor(games, teams, r[i].teamId)
  {
    var t := TableRows(games, teams);
    var r := Standings(games, teams);
    var ids := DistinctIds(teams);
    TableRowsAt(games, teams);
    forall i | 0 <= i < |r|
      ensures r[i].teamId in TeamIndex(teams) && r[i] == RowFor(games, teams, r[i].teamId)
    {
      assert r[i] in multiset(t);
      var k :| 0 <= k < |t| && t[k] == r[i];
      assert t[k] == RowFor(games, teams, ids[k]);
    }
  }

  /** Every team of the subset has a row in the standings. */
  lemma StandingsCover(games: seq<Game>, teams: seq<Team>)
    ensures var r := Standings(games, teams);
      forall id :: id in TeamIndex(teams) ==> exists i :: 0 <= i < |r| && r[i].teamId == id
  {
    var t := TableRows(games, teams);
    var r := Standings(games, teams);
    var ids := DistinctIds(teams);
    TableRowsAt(games, teams);
    forall id | id in TeamIndex(teams)
      ensures exists i :: 0 <= i < |r| && r[i].teamId == id
    {
      var k :| 0 <= k < |ids| && ids[k] == id;
      assert t[k] == RowFor(games, teams, ids[k]);
      assert t[k] in multiset(r);
      var i :| 0 <= i < |r| && r[i] == t[k];
    }
  }

  /** No two rows of the standings belong to the same team. */
  lemma StandingsUnique(games: seq<Game>, teams: seq<Team>)
    ensures UniqueIds(Standings(games, teams))
  {
    var t := TableRows(games, teams);
    var ids := DistinctIds(teams);
    TableRowsAt(games, teams);
    assert forall k :: 0 <= k < |t| ==> t[k].teamId == ids[k];
    SortUnique(t);
  }

  /** The standings hold exactly one row per distinct team id of the
      subset, that team's own row, in ranking order. */
  lemma StandingsShape(games: seq<Game>, teams: seq<Team>)
    ensures var r := Standings(games, teams); var index := TeamIndex(teams);
      && |r| == |DistinctIds(teams)|
      && (forall i :: 0 <= i < |r| ==> r[i].teamId in index && r[i] == RowFor(games, teams, r[i].teamId))
      && (forall id :: id in index ==> exists i :: 0 <= i < |r| && r[i].teamId == id)
      && UniqueIds(r)
      && Sorted(r)
  {
    TableRowsAt(games, teams);
    StandingsRows(games, teams);
    StandingsCover(games, teams);
    StandingsUnique(games, teams);
    SortSorted(TableRows(games, teams));
  }

  /** The counters of a row agree with each other. */
  predicate Consistent(s: Standing) {
    && s.gd == s.gf - s.ga
    && s.points == 3 * s.won + s.drawn
    && s.played == s.won + s.drawn + s.lost
    && s.won >= 0 && s.drawn >= 0 && s.lost >= 0
  }

  lemma {:induction false} RowOfConsistent(games: seq<Game>, ids: set<int>, base: Standing)
    requires Consistent(base)
    ensures Consistent(RowOf(games, ids, base))
  {
    if games != [] {
      RowOfConsistent(games[..|games| - 1], ids, base);
    }
  }

  /** Every row of the standings has gd = gf - ga, points = 3 * won + drawn
      and played = won + drawn + lost. */
  lemma StandingsConsistent(games: seq<Game>, teams: seq<Team>)
    ensures forall s :: s in Standings(games, teams) ==> Consistent(s)
  {
    StandingsShape(games, teams);
    var r := Standings(games, teams);
    forall i | 0 <= i < |r| ensures Consistent(r[i]) {
      var index := TeamIndex(teams);
      RowOfConsistent(games, index.Keys, ZeroRow(index[r[i].teamId]));
    }
  }

  /** The counted games of `games`, in order. */
  function CountedGames(games: seq<Game>, ids: set<int>): (c: seq<Game>)
    ensures forall g :: g in c ==> g in games && Counted(g, ids)
  {
    if games == [] then []
    else
      var rest := CountedGames(games[..|games| - 1], ids);
      var g := games[|games| - 1];
      if Counted(g, ids) then rest + [g] else rest
  }

  /** Games that do not count are skipped entirely: a row is the same when
      computed from the counted games alone. */
  lemma {:induction false} OnlyCountedGames(games: seq<Game>, ids: set<int>, base: Standing)
    ensures RowOf(games, ids, base) == RowOf(CountedGames(games, ids), ids, base)
  {
    if games != [] {
      var init := games[..|games| - 1];
      var g := games[|games| - 1];
      OnlyCountedGames(init, ids, base);
      if Counted(g, ids) {
        var c := CountedGames(init, ids) + [g];
        assert c[..|c| - 1] == CountedGames(init, ids);
      }
    }
  }

  /** With no games every row is the team's zero row. */
  lemma ZeroInitialised(teams: seq<Team>)
    ensures forall s :: s in Standings([], teams) ==>
      s.teamId in TeamIndex(teams) && s == ZeroRow(TeamIndex(teams)[s.teamId])
  {
    StandingsShape([], teams);
  }

  // ---------------------------------------------------------------------
  // Conservation of goals and points
  // ---------------------------------------------------------------------

  datatype Field = GoalsFor | GoalsAgainst | Points

  function Get(s: Standing, f: Field): int {
    match f
    case GoalsFor => s.gf
    case GoalsAgainst => s.ga
    case Points => s.points
  }

  /** The sum of one column. */
  function Total(rows: seq<Standing>, f: Field): int {
    if rows == [] then 0 else Get(rows[0], f) + Total(rows[1..], f)
  }

  /** The points a side earns from a result. */
  function PointsFor(mine: int, theirs: int): int {
    if mine > theirs then 3 else if theirs > mine then 0 else 1
  }

  /** What one side of a game adds to a column. */
  function Gain(mine: int, theirs: int, f: Field): int {
    match f
    case GoalsFor => mine
    case GoalsAgainst => theirs
    case Points => PointsFor(mine, theirs)
  }

  lemma CreditGain(s: Standing, g: Game, ids: set<int>, f: Field)
    requires Counted(g, ids)
    ensures Get(Credit(s, g, ids), f) == Get(s, f)
      + (if g.teamAId.value == s.teamId then Gain(g.scoreA, g.scoreB, f) else 0)
      + (if g.teamBId.value == s.teamId then Gain(g.scoreB, g.scoreA, f) else 0)
  {
  }

  predicate HasId(rows: seq<Standing>, id: int) {
    exists k :: 0 <= k < |rows| && rows[k].teamId == id
  }

  /** The ids of a non-empty list: its head's, then those of its tail,
      which in a list of unique ids do not include the head's. */
  lemma HasIdCons(rows: seq<Standing>)
    requires rows != [] && UniqueIds(rows)
    ensures forall id :: HasId(rows, id) <==> rows[0].teamId == id || HasId(rows[1..], id)
    ensures !HasId(rows[1..], rows[0].teamId)
  {
    var rest := rows[1..];
    forall id ensures HasId(rows, id) <==> rows[0].teamId == id || HasId(rest, id) {
      if HasId(rows, id) {
        var k :| 0 <= k < |rows| && rows[k].teamId == id;
        if k > 0 { assert rest[k - 1].teamId == id; }
      }
      if HasId(rest, id) {
        var k :| 0 <= k < |rest| && rest[k].teamId == id;
        assert rows[k + 1].teamId == id;
      }
    }
    forall k | 0 <= k < |rest| ensures rest[k].teamId != rows[0].teamId {
      assert rest[k] == rows[k + 1];
    }
  }

  lemma {:induction false} CreditAllTotal(rows: seq<Standing>, g: Game, ids: set<int>, f: Field)
    requires Counted(g, ids)
    requires UniqueIds(rows)
    ensures Total(CreditAll(rows, g, ids), f) == Total(rows, f)
      + (if HasId(rows, g.teamAId.value) then Gain(g.scoreA, g.scoreB, f) else 0)
      + (if HasId(rows, g.teamBId.value) then Gain(g.scoreB, g.scoreA, f) else 0)
  {
    if rows != [] {
      var rest := rows[1..];
      assert UniqueIds(rest);
      CreditAllTotal(rest, g, ids, f);
      CreditGain(rows[0], g, ids, f);
      assert CreditAll(rows, g, ids)[1..] == CreditAll(rest, g, ids);
      HasIdCons(rows);
    }
  }

  /** What one game adds to a column over all rows, given that both its
      teams have a row. */
  function GameGain(g: Game, f: Field): int {
    Gain(g.scoreA, g.scoreB, f) + Gain(g.scoreB, g.scoreA, f)
  }

  /** A column summed over the counted games. */
  function GamesTotal(games: seq<Game>, ids: set<int>, f: Field): int {
    if games == [] then 0
    else
      var g := games[|games| - 1];
      GamesTotal(games[..|games| - 1], ids, f) + (if Counted(g, ids) then GameGain(g, f) else 0)
  }

  lemma CreditAllIds(rows: seq<Standing>, g: Game, ids: set<int>)
    ensures forall k :: 0 <= k < |rows| ==> CreditAll(rows, g, ids)[k].teamId == rows[k].teamId
  {
  }

  lemma {:induction false} RowsOfIds(games: seq<Game>, ids: set<int>, bases: seq<Standing>)
    ensures forall k :: 0 <= k < |bases| ==> RowsOf(games, ids, bases)[k].teamId == bases[k].teamId
  {
    if games != [] {
      RowsOfIds(games[..|games| - 1], ids, bases);
      CreditAllIds(RowsOf(games[..|games| - 1], ids, bases), games[|games| - 1], ids);
    }
  }

  lemma {:induction false} RowsOfTotal(games: seq<Game>, ids: set<int>, bases: seq<Standing>, f: Field)
    requires UniqueIds(bases)
    requires forall id :: id in ids ==> HasId(bases, id)
    ensures Total(RowsOf(games, ids, bases), f) == Total(bases, f) + GamesTotal(games, ids, f)
  {
    if games != [] {
      var init := games[..|games| - 1];
      var g := games[|games| - 1];
      var before := RowsOf(init, ids, bases);
      RowsOfTotal(init, ids, bases, f);
      RowsOfIds(init, ids, bases);
      if Counted(g, ids) {
        assert UniqueIds(before);
        assert HasId(before, g.teamAId.value) by {
          var k :| 0 <= k < |bases| && bases[k].teamId == g.teamAId.value;
          assert before[k].teamId == g.teamAId.value;
        }
        assert HasId(before, g.teamBId.value) by {
          var k :| 0 <= k < |bases| && bases[k].teamId == g.teamBId.value;
          assert before[k].teamId == g.teamBId.value;
        }
        CreditAllTotal(before, g, ids, f);
      } else {
        assert CreditAll(before, g, ids) == before;
      }
    }
  }

  lemma {:induction false} SortTotal(s: seq<Standing>, f: Field)
    ensures Total(SortStandings(s), f) == Total(s, f)
  {
    if s != [] {
      SortTotal(s[1..], f);
      InsertTotal(s[0], SortStandings(s[1..]), f);
    }
  }

  lemma {:induction false} InsertTotal(x: Standing, s: seq<Standing>, f: Field)
    ensures Total(Insert(x, s), f) == Get(x, f) + Total(s, f)
  {
    if s != [] && !Precedes(x, s[0]) {
      InsertTotal(x, s[1..], f);
      assert Insert(x, s)[1..] == Insert(x, s[1..]);
    }
  }

  lemma {:induction false} ZeroTotal(rows: seq<Standing>, f: Field)
    requires forall k :: 0 <= k < |rows| ==> rows[k].gf == 0 && rows[k].ga == 0 && rows[k].points == 0
    ensures Total(rows, f) == 0
  {
    if rows != [] { ZeroTotal(rows[1..], f); }
  }

  /** A column over the standings equals the same column over the counted games. */
  lemma StandingsTotal(games: seq<Game>, teams: seq<Team>, f: Field)
    ensures Total(Standings(games, teams), f) == GamesTotal(games, TeamIndex(teams).Keys, f)
  {
    var bases := ZeroRows(teams);
    var ids := DistinctIds(teams);
    var index := TeamIndex(teams);
    assert UniqueIds(bases);
    forall id | id in index.Keys ensures HasId(bases, id) {
      var k :| 0 <= k < |ids| && ids[k] == id;
      assert bases[k].teamId == id;
    }
    ZeroTotal(bases, f);
    RowsOfTotal(games, index.Keys, bases, f);
    SortTotal(TableRows(games, teams), f);
  }

  /** Summing the goal columns over the counted games gives the two teams'
      goals each time, so goals for and goals against always balance. */
  lemma {:induction false} GoalsBalance(games: seq<Game>, ids: set<int>)
    ensures GamesTotal(games, ids, GoalsFor) == GamesTotal(games, ids, GoalsAgainst)
  {
    if games != [] { GoalsBalance(games[..|games| - 1], ids); }
  }

  /** The counted games that had a winner, and those that were drawn. */
  function Decisive(games: seq<Game>, ids: set<int>): nat {
    if games == [] then 0
    else
      var g := games[|games| - 1];
      Decisive(games[..|games| - 1], ids) + (if Counted(g, ids) && g.scoreA != g.scoreB then 1 else 0)
  }

  function Drawn(games: seq<Game>, ids: set<int>): nat {
    if games == [] then 0
    else
      var g := games[|games| - 1];
      Drawn(games[..|games| - 1], ids) + (if Counted(g, ids) && g.scoreA == g.scoreB then 1 else 0)
  }

  lemma {:induction false} PointsPerGame(games: seq<Game>, ids: set<int>)
    ensures GamesTotal(games, ids, Points) == 3 * Decisive(games, ids) + 2 * Drawn(games, ids)
  {
    if games != [] { PointsPerGame(games[..|games| - 1], ids); }
  }

  /** Conservation over the subset: the goals scored equal the goals
      conceded, and the points handed out are 3 per decided counted game
      and 2 per drawn one. */
  lemma Conservation(games: seq<Game>, teams: seq<Team>)
    ensures var r := Standings(games, teams); var ids := TeamIndex(teams).Keys;
      && Total(r, GoalsFor) == Total(r, GoalsAgainst)
      && Total(r, Points) == 3 * Decisive(games, ids) + 2 * Drawn(games, ids)
  {
    var ids := TeamIndex(teams).Keys;
    StandingsTotal(games, teams, GoalsFor);
    StandingsTotal(games, teams, GoalsAgainst);
    StandingsTotal(games, teams, Points);
    GoalsBalance(games, ids);
    PointsPerGame(games, ids);
  }
}
