/** The final placement resolver: positions 1 to 8 read off the winners
    and losers of the final and the three placing games. */
module Placings {
  import opened Types
  import Bracket

  datatype Result = Result(winner: Option<int>, loser: Option<int>)

  /** The winner and loser of a bracket game: the strictly higher score
      wins, and a drawn game goes to team A. */
  function GetResult(g: Game): (r: Result)
    ensures g.scoreB > g.scoreA ==> r.winner == g.teamBId && r.loser == g.teamAId
    ensures g.scoreB <= g.scoreA ==> r.winner == g.teamAId && r.loser == g.teamBId
  {
    if g.scoreA > g.scoreB then Result(g.teamAId, g.teamBId)
    else if g.scoreB > g.scoreA then Result(g.teamBId, g.teamAId)
    else Result(g.teamAId, g.teamBId)
  }

  /** How each of the four deciding games is looked up. */
  datatype Key = GrandFinal | Labelled(marker: string)

  predicate Matches(g: Game, key: Key) {
    match key
    case GrandFinal => g.stage == Final && g.roundNumber == 9
    case Labelled(marker) => Contains(g.description, marker)
  }

  /** The game that decides positions `2 * pair - 1` and `2 * pair`. */
  function KeyFor(pair: int): Key {
    if pair == 1 then GrandFinal
    else if pair == 2 then Labelled("3rd/4th")
    else if pair == 3 then Labelled("5th/6th")
    else Labelled("7th/8th")
  }

  /** The first game matching `key`, as `Array.prototype.find` returns it. */
  function Find(games: seq<Game>, key: Key): (r: Option<Game>)
    ensures r.None? <==> forall i :: 0 <= i < |games| ==> !Matches(games[i], key)
    ensures r.Some? ==> exists i :: 0 <= i < |games| && games[i] == r.value && Matches(r.value, key) && (forall j :: 0 <= j < i ==> !Matches(games[j], key))
  {
    if games == [] then None
    else if Matches(games[0], key) then Some(games[0])
    else
      var r := Find(games[1..], key);
      assert forall i :: 1 <= i < |games| ==> games[i] == games[1..][i - 1];
      r
  }

  function PathFor(position: int): string {
    if position == 1 then "Winner Grand Final"
    else if position == 2 then "Runner-up Grand Final"
    else if position == 3 then "Winner 3rd Place Playoff"
    else if position == 4 then "Loser 3rd Place Playoff"
    else if position == 5 then "Winner 5th/6th Playoff"
    else if position == 6 then "Loser 5th/6th Playoff"
    else if position == 7 then "Winner 7th/8th Playoff"
    else "Loser 7th/8th Playoff"
  }

  /** The placing one deciding game gives to `position`: its winner at an
      odd position, its loser at an even one; nothing when the game is
      missing, has an open slot, or the team is not in the team map. */
  function Outcome(found: Option<Game>, teamMap: map<int, Team>, position: int): Option<FinalPlacing> {
    if found.None? || !Assigned(found.value.teamAId) || !Assigned(found.value.teamBId) then None
    else
      var res := GetResult(found.value);
      var id := if position % 2 == 1 then res.winner else res.loser;
      if Assigned(id) && id.value in teamMap then
        Some(FinalPlacing(position, id.value, teamMap[id.value].name, teamMap[id.value].group, PathFor(position)))
      else None
  }

  /** What the resolver places at `position`. */
  function PlacingAt(games: seq<Game>, teams: seq<Team>, position: int): Option<FinalPlacing> {
    Outcome(Find(games, KeyFor((position + 1) / 2)), TeamIndex(teams), position)
  }

  function AsSeq(p: Option<FinalPlacing>): seq<FinalPlacing> {
    if p.Some? then [p.value] else []
  }

  /** What the resolver can place at positions 1 to 8, one entry each. */
  function Candidates(games: seq<Game>, teams: seq<Team>): (cs: seq<Option<FinalPlacing>>)
    ensures |cs| == 8
    ensures forall k :: 0 <= k < 8 ==> cs[k] == PlacingAt(games, teams, k + 1)
  {
    seq(8, k requires 0 <= k < 8 => PlacingAt(games, teams, k + 1))
  }

  /** The present entries of `cs`, in order. */
  function Flatten(cs: seq<Option<FinalPlacing>>): seq<FinalPlacing> {
    if cs == [] then [] else Flatten(cs[..|cs| - 1]) + AsSeq(cs[|cs| - 1])
  }

  predicate Ascending(placings: seq<FinalPlacing>) {
    forall i, j :: 0 <= i < j < |placings| ==> placings[i].position < placings[j].position
  }

  /** Entry `k` of `cs`, when present, is for position `k + 1`. */
  predicate PositionedFromOne(cs: seq<Option<FinalPlacing>>) {
    forall k :: 0 <= k < |cs| && cs[k].Some? ==> cs[k].value.position == k + 1
  }

  lemma PlacingPosition(games: seq<Game>, teams: seq<Team>, position: int)
    ensures PlacingAt(games, teams, position).Some? ==> PlacingAt(games, teams, position).value.position == position
  {
  }

  lemma CandidatesPositioned(games: seq<Game>, teams: seq<Team>)
    ensures PositionedFromOne(Candidates(games, teams))
  {
    var cs := Candidates(games, teams);
    forall k | 0 <= k < 8 && cs[k].Some? ensures cs[k].value.position == k + 1 {
      PlacingPosition(games, teams, k + 1);
    }
  }

  lemma FlattenSnoc(cs: seq<Option<FinalPlacing>>, n: nat)
    requires n < |cs|
    ensures Flatten(cs[..n + 1]) == Flatten(cs[..n]) + AsSeq(cs[n])
  {
    assert cs[..n + 1][..n] == cs[..n];
  }

  lemma FlattenPrefix(cs: seq<Option<FinalPlacing>>)
    requires PositionedFromOne(cs)
    requires cs != []
    ensures PositionedFromOne(cs[..|cs| - 1])
  {
    var init := cs[..|cs| - 1];
    forall k | 0 <= k < |init| && init[k].Some? ensures init[k].value.position == k + 1 {
      assert init[k] == cs[k];
    }
  }

  /** Flattening keeps the entries at their positions. */
  lemma {:induction false} FlattenPositions(cs: seq<Option<FinalPlacing>>)
    requires PositionedFromOne(cs)
    ensures forall i :: 0 <= i < |Flatten(cs)| ==>
      1 <= Flatten(cs)[i].position <= |cs| && cs[Flatten(cs)[i].position - 1] == Some(Flatten(cs)[i])
  {
    if cs != [] {
      var init := cs[..|cs| - 1];
      FlattenPrefix(cs);
      FlattenPositions(init);
      var prev := Flatten(init);
      var l := Flatten(cs);
      assert l == prev + AsSeq(cs[|cs| - 1]);
      forall i | 0 <= i < |l| ensures 1 <= l[i].position <= |cs| && cs[l[i].position - 1] == Some(l[i]) {
        if i < |prev| {
          assert l[i] == prev[i];
          assert 1 <= prev[i].position <= |init|;
          assert init[prev[i].position - 1] == cs[prev[i].position - 1];
        } else {
          assert l[i] == cs[|cs| - 1].value;
        }
      }
    }
  }

  /** Flattening lists the entries in ascending position. */
  lemma {:induction false} FlattenAscending(cs: seq<Option<FinalPlacing>>)
    requires PositionedFromOne(cs)
    ensures Ascending(Flatten(cs))
  {
    if cs != [] {
      var init := cs[..|cs| - 1];
      FlattenPrefix(cs);
      FlattenAscending(init);
      FlattenPositions(init);
      var prev := Flatten(init);
      var l := Flatten(cs);
      assert l == prev + AsSeq(cs[|cs| - 1]);
      forall i, j | 0 <= i < j < |l| ensures l[i].position < l[j].position {
        assert l[i] == prev[i];
        assert 1 <= prev[i].position <= |init|;
        if j < |prev| {
          assert l[j] == prev[j];
        } else {
          assert l[j] == cs[|cs| - 1].value;
        }
      }
    }
  }

  /** Flattening drops no present entry. */
  lemma {:induction false} FlattenComplete(cs: seq<Option<FinalPlacing>>)
    ensures forall k :: 0 <= k < |cs| && cs[k].Some? ==> cs[k].value in Flatten(cs)
  {
    if cs != [] {
      var init := cs[..|cs| - 1];
      FlattenComplete(init);
      assert Flatten(cs) == Flatten(init) + AsSeq(cs[|cs| - 1]);
      forall k | 0 <= k < |init| ensures init[k] == cs[k] { }
    }
  }

  /** After the pushes for game `pair`, the list is the flattened
      candidates for positions 1 to `2 * pair`. */
  lemma PairStep(cs: seq<Option<FinalPlacing>>, games: seq<Game>, teams: seq<Team>, pair: int,
                 before: seq<FinalPlacing>, after: seq<FinalPlacing>)
    requires 1 <= pair <= 4 && cs == Candidates(games, teams)
    requires before == Flatten(cs[..2 * pair - 2])
    requires after == before + AsSeq(Outcome(Find(games, KeyFor(pair)), TeamIndex(teams), 2 * pair - 1))
      + AsSeq(Outcome(Find(games, KeyFor(pair)), TeamIndex(teams), 2 * pair))
    ensures after == Flatten(cs[..2 * pair])
  {
    FlattenSnoc(cs, 2 * pair - 2);
    FlattenSnoc(cs, 2 * pair - 1);
    assert (2 * pair - 1 + 1) / 2 == pair && (2 * pair + 1) / 2 == pair;
  }

  /** The flattened candidates are what the resolver promises. */
  lemma FlattenedCandidates(games: seq<Game>, teams: seq<Team>)
    ensures var placings := Flatten(Candidates(games, teams));
      && Ascending(placings)
      && (forall i :: 0 <= i < |placings| ==>
            1 <= placings[i].position <= 8 && PlacingAt(games, teams, placings[i].position) == Some(placings[i]))
      && (forall p :: 1 <= p <= 8 && PlacingAt(games, teams, p).Some? ==>
            exists i :: 0 <= i < |placings| && placings[i].position == p)
  {
    var cs := Candidates(games, teams);
    var placings := Flatten(cs);
    CandidatesPositioned(games, teams);
    FlattenPositions(cs);
    FlattenAscending(cs);
    FlattenComplete(cs);
    forall i | 0 <= i < |placings|
      ensures 1 <= placings[i].position <= 8 && PlacingAt(games, teams, placings[i].position) == Some(placings[i])
    {
      assert cs[placings[i].position - 1] == Some(placings[i]);
    }
    forall p | 1 <= p <= 8 && PlacingAt(games, teams, p).Some?
      ensures exists i :: 0 <= i < |placings| && placings[i].position == p
    {
      PlacingPosition(games, teams, p);
      assert cs[p - 1].value in placings;
    }
  }

  /** Push the two placings one deciding game yields (the source repeats
      this block once per game). */
  method PushResult(placings: seq<FinalPlacing>, found: Option<Game>, teamMap: map<int, Team>, first: int)
    returns (r: seq<FinalPlacing>)
    requires first % 2 == 1
    ensures r == placings + AsSeq(Outcome(found, teamMap, first)) + AsSeq(Outcome(found, teamMap, first + 1))
  {
    r := placings;
    if found.Some? && Assigned(found.value.teamAId) && Assigned(found.value.teamBId) {
      var res := GetResult(found.value);
      if Assigned(res.winner) && res.winner.value in teamMap {
        var team := teamMap[res.winner.value];
        r := r + [FinalPlacing(first, res.winner.value, team.name, team.group, PathFor(first))];
      }
      if Assigned(res.loser) && res.loser.value in teamMap {
        var team := teamMap[res.loser.value];
        r := r + [FinalPlacing(first + 1, res.loser.value, team.name, team.group, PathFor(first + 1))];
      }
    }
  }

  /** Positions 1 to 8: winner and loser of the grand final, then of the
      3rd/4th, 5th/6th and 7th/8th games. They are pushed in position
      order already, so the source's final sort by position leaves the
      list as it is. */
  method CalculateFinalPlacings(games: seq<Game>, teams: seq<Team>) returns (placings: seq<FinalPlacing>)
    ensures Ascending(placings)
    ensures forall i :: 0 <= i < |placings| ==>
      1 <= placings[i].position <= 8 && PlacingAt(games, teams, placings[i].position) == Some(placings[i])
    ensures forall p :: 1 <= p <= 8 && PlacingAt(games, teams, p).Some? ==>
      exists i :: 0 <= i < |placings| && placings[i].position == p
  {
    ghost var cs := Candidates(games, teams);
    var teamMap := TeamIndex(teams);
    placings := [];
    assert placings == Flatten(cs[..0]);
    ghost var before := placings;
    var grandFinal := Find(games, GrandFinal);
    placings := PushResult(placings, grandFinal, teamMap, 1);
    PairStep(cs, games, teams, 1, before, placings);
    before := placings;
    var thirdPlaceGame := Find(games, Labelled("3rd/4th"));
    placings := PushResult(placings, thirdPlaceGame, teamMap, 3);
    PairStep(cs, games, teams, 2, before, placings);
    before := placings;
    var fifthPlaceGame := Find(games, Labelled("5th/6th"));
    placings := PushResult(placings, fifthPlaceGame, teamMap, 5);
    PairStep(cs, games, teams, 3, before, placings);
    before := placings;
    var seventhPlaceGame := Find(games, Labelled("7th/8th"));
    placings := PushResult(placings, seventhPlaceGame, teamMap, 7);
    PairStep(cs, games, teams, 4, before, placings);
    assert cs[..8] == cs;
    FlattenedCandidates(games, teams);
  }

  /** A deciding game with both slots filled by teams of the map places
      both of them, next to each other: the winner (team A unless team B
      scored strictly more) at the odd position and the other at the even
      one. */
  lemma PairPlaced(games: seq<Game>, teams: seq<Team>, pair: int)
    requires 1 <= pair <= 4
    requires var found := Find(games, KeyFor(pair));
      found.Some? && Assigned(found.value.teamAId) && Assigned(found.value.teamBId)
      && found.value.teamAId.value in TeamIndex(teams) && found.value.teamBId.value in TeamIndex(teams)
    ensures var g := Find(games, KeyFor(pair)).value;
      var w := PlacingAt(games, teams, 2 * pair - 1);
      var l := PlacingAt(games, teams, 2 * pair);
      && w.Some? && l.Some?
      && (if g.scoreB > g.scoreA then
            w.value.teamId == g.teamBId.value && l.value.teamId == g.teamAId.value
          else
            w.value.teamId == g.teamAId.value && l.value.teamId == g.teamBId.value)
  {
    assert (2 * pair - 1 + 1) / 2 == pair && (2 * pair + 1) / 2 == pair;
    assert (2 * pair - 1) % 2 == 1 && (2 * pair) % 2 == 0;
  }

  /** The game at `i` matches `key` and none before it does. */
  lemma FindAt(games: seq<Game>, key: Key, i: int)
    requires 0 <= i < |games| && Matches(games[i], key)
    requires forall j :: 0 <= j < i ==> !Matches(games[j], key)
    ensures Find(games, key) == Some(games[i])
  {
    var r := Find(games, key);
    var i' :| 0 <= i' < |games| && games[i'] == r.value && Matches(r.value, key)
      && (forall j :: 0 <= j < i' ==> !Matches(games[j], key));
    assert i' == i;
  }

  /** `find` passes over a prefix none of whose games match. */
  lemma {:induction false} FindSkips(u: seq<Game>, v: seq<Game>, key: Key)
    requires forall i :: 0 <= i < |u| ==> !Matches(u[i], key)
    ensures Find(u + v, key) == Find(v, key)
  {
    if u == [] {
      assert u + v == v;
    } else {
      assert (u + v)[0] == u[0];
      assert (u + v)[1..] == u[1..] + v;
      FindSkips(u[1..], v, key);
    }
  }

  /** No game whose description has no '/' carries a placing marker. */
  lemma Unlabelled(u: seq<Game>, marker: string)
    requires '/' in marker
    requires forall i :: 0 <= i < |u| ==> '/' !in u[i].description
    ensures forall i :: 0 <= i < |u| ==> !Matches(u[i], Labelled(marker))
  {
    forall i | 0 <= i < |u| ensures !Matches(u[i], Labelled(marker)) {
      MissingChar(u[i].description, marker, '/');
    }
  }

  /** The labelled lookup finds game `k` of a block appended after
      unlabelled games when game `k` is the first of the block to carry the
      marker. */
  lemma FindLabelled(u: seq<Game>, gs: seq<Game>, marker: string, k: int)
    requires '/' in marker
    requires forall i :: 0 <= i < |u| ==> '/' !in u[i].description
    requires 0 <= k < |gs| && Contains(gs[k].description, marker)
    requires forall j :: 0 <= j < k ==> !Contains(gs[j].description, marker)
    ensures Find(u + gs, Labelled(marker)) == Some(gs[k])
  {
    Unlabelled(u, marker);
    FindSkips(u, gs, Labelled(marker));
    FindAt(gs, Labelled(marker), k);
  }

  /** On a bracket laid out and described as the finals generator makes
      it, appended after games that are not finals and whose descriptions
      have no '/', the resolver reads the grand final as the final, the
      3rd/4th game as the round-9 game of court 2, and the 5th/6th and
      7th/8th games as the two round-8 games. */
  lemma BracketDecides(u: seq<Game>, gs: seq<Game>)
    requires |gs| == 6 && Bracket.Layout(gs) && Bracket.Described(gs)
    requires forall i :: 0 <= i < |u| ==> u[i].stage != Final && '/' !in u[i].description
    ensures Find(u + gs, KeyFor(1)) == Some(gs[4])
    ensures Find(u + gs, KeyFor(2)) == Some(gs[5])
    ensures Find(u + gs, KeyFor(3)) == Some(gs[2])
    ensures Find(u + gs, KeyFor(4)) == Some(gs[3])
  {
    FindSkips(u, gs, GrandFinal);
    FindAt(gs, GrandFinal, 4);
    LabelChars(gs);
    DecidedByMarkers(u, gs);
  }

  /** The characters that tell the six bracket descriptions apart. */
  lemma LabelChars(gs: seq<Game>)
    requires |gs| == 6 && Bracket.Described(gs)
    ensures '/' !in gs[0].description && '/' !in gs[1].description && '/' !in gs[4].description
    ensures '4' !in gs[2].description && '7' !in gs[2].description && '3' !in gs[3].description
    ensures IsPrefix("5th/6th", gs[2].description) && IsPrefix("7th/8th", gs[3].description)
    ensures IsPrefix("3rd/4th", gs[5].description)
  {
    SemiChars(gs[0].description, gs[1].description);
    FinalChars(gs[4].description);
    FifthChars(gs[2].description);
    FifthPrefix(gs[2].description);
    SeventhChars(gs[3].description);
    SeventhPrefix(gs[3].description);
    ThirdChars(gs[5].description);
  }

  lemma SemiChars(sf1: string, sf2: string)
    requires sf1 == Bracket.SemiOneLabel && sf2 == Bracket.SemiTwoLabel
    ensures '/' !in sf1 && '/' !in sf2
  {
  }

  lemma FinalChars(d: string)
    requires d == Bracket.FinalLabel
    ensures '/' !in d
  {
  }

  lemma FifthChars(d: string)
    requires d == Bracket.FifthLabel
    ensures '4' !in d && '7' !in d
  {
  }

  lemma FifthPrefix(d: string)
    requires d == Bracket.FifthLabel
    ensures IsPrefix("5th/6th", d)
  {
  }

  lemma SeventhChars(d: string)
    requires d == Bracket.SeventhLabel
    ensures '3' !in d
  {
  }

  lemma SeventhPrefix(d: string)
    requires d == Bracket.SeventhLabel
    ensures IsPrefix("7th/8th", d)
  {
  }

  lemma ThirdChars(d: string)
    requires d == Bracket.ThirdLabel
    ensures IsPrefix("3rd/4th", d)
  {
  }

  lemma DecidedByMarkers(u: seq<Game>, gs: seq<Game>)
    requires |gs| == 6
    requires forall i :: 0 <= i < |u| ==> '/' !in u[i].description
    requires '/' !in gs[0].description && '/' !in gs[1].description && '/' !in gs[4].description
    requires '4' !in gs[2].description && '7' !in gs[2].description && '3' !in gs[3].description
    requires IsPrefix("5th/6th", gs[2].description) && IsPrefix("7th/8th", gs[3].description)
    requires IsPrefix("3rd/4th", gs[5].description)
    ensures Find(u + gs, Labelled("3rd/4th")) == Some(gs[5])
    ensures Find(u + gs, Labelled("5th/6th")) == Some(gs[2])
    ensures Find(u + gs, Labelled("7th/8th")) == Some(gs[3])
  {
    ThirdFound(u, gs);
    FifthFound(u, gs);
    SeventhFound(u, gs);
  }

  lemma ThirdFound(u: seq<Game>, gs: seq<Game>)
    requires |gs| == 6
    requires forall i :: 0 <= i < |u| ==> '/' !in u[i].description
    requires '/' !in gs[0].description && '/' !in gs[1].description && '/' !in gs[4].description
    requires '4' !in gs[2].description && '3' !in gs[3].description
    requires IsPrefix("3rd/4th", gs[5].description)
    ensures Find(u + gs, Labelled("3rd/4th")) == Some(gs[5])
  {
    var m := "3rd/4th";
    assert '/' == m[3] && '4' == m[4] && '3' == m[0];
    forall j | 0 <= j < 5 ensures !Contains(gs[j].description, m) {
      var c := if j == 2 then '4' else if j == 3 then '3' else '/';
      MissingChar(gs[j].description, m, c);
    }
    PrefixContained(gs[5].description, m);
    FindLabelled(u, gs, m, 5);
  }

  lemma FifthFound(u: seq<Game>, gs: seq<Game>)
    requires |gs| == 6
    requires forall i :: 0 <= i < |u| ==> '/' !in u[i].description
    requires '/' !in gs[0].description && '/' !in gs[1].description
    requires IsPrefix("5th/6th", gs[2].description)
    ensures Find(u + gs, Labelled("5th/6th")) == Some(gs[2])
  {
    var m := "5th/6th";
    assert '/' == m[3];
    forall j | 0 <= j < 2 ensures !Contains(gs[j].description, m) {
      MissingChar(gs[j].description, m, '/');
    }
    PrefixContained(gs[2].description, m);
    FindLabelled(u, gs, m, 2);
  }

  lemma SeventhFound(u: seq<Game>, gs: seq<Game>)
    requires |gs| == 6
    requires forall i :: 0 <= i < |u| ==> '/' !in u[i].description
    requires '/' !in gs[0].description && '/' !in gs[1].description && '7' !in gs[2].description
    requires IsPrefix("7th/8th", gs[3].description)
    ensures Find(u + gs, Labelled("7th/8th")) == Some(gs[3])
  {
    var m := "7th/8th";
    assert '/' == m[3] && '7' == m[0];
    forall j | 0 <= j < 3 ensures !Contains(gs[j].description, m) {
      MissingChar(gs[j].description, m, if j == 2 then '7' else '/');
    }
    PrefixContained(gs[3].description, m);
    FindLabelled(u, gs, m, 3);
  }
}
