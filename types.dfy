/** The records the tournament engine works on, and the small lookups that
    every part of the engine shares. */
module Types {

  datatype Option<T> = None | Some(value: T)

  datatype GroupName = A | B

  datatype Status = Scheduled | Active | Finished

  /** The stages a game can be in. `League` is the stage of round-robin
      games: the page displays it, but no declared game type lists it,
      and the standings calculator never counts it. */
  datatype Stage = GroupStage | Semi | Final | Placing | League

  /** The two tournament formats the page offers. */
  datatype Format = Groups | RoundRobin

  datatype Team = Team(id: int, name: string, group: GroupName)

  /** A fixture. A team slot is `None` while it is still to be decided. */
  datatype Game = Game(
    id: int,
    roundNumber: int,
    courtId: int,
    stage: Stage,
    group: Option<GroupName>,
    teamAId: Option<int>,
    teamBId: Option<int>,
    scoreA: int,
    scoreB: int,
    status: Status,
    description: string,
    sourceA: Option<string>,
    sourceB: Option<string>)

  datatype Standing = Standing(
    teamId: int,
    teamName: string,
    group: GroupName,
    played: int,
    won: int,
    drawn: int,
    lost: int,
    gf: int,
    ga: int,
    gd: int,
    points: int)

  datatype FinalPlacing = FinalPlacing(
    position: int,
    teamId: int,
    teamName: string,
    group: GroupName,
    path: string)

  /** A team slot counts as filled when it is truthy in the source's sense:
      not null and not the number 0. */
  predicate Assigned(slot: Option<int>) {
    slot.Some? && slot.value != 0
  }

  /** The teams keyed by id, as a JavaScript `Map` or record built by
      walking `teams` in order: a later team with the same id replaces an
      earlier one. */
  function TeamIndex(teams: seq<Team>): (m: map<int, Team>)
    ensures forall i :: 0 <= i < |teams| ==> teams[i].id in m
    ensures forall id :: id in m ==> m[id].id == id
  {
    if teams == [] then map[]
    else
      var last := teams[|teams| - 1];
      TeamIndex(teams[..|teams| - 1])[last.id := last]
  }

  /** The team an index lookup yields is the last one in `teams` with that id. */
  lemma {:induction false} TeamIndexIsLast(teams: seq<Team>, i: nat)
    requires i < |teams|
    requires forall j :: i < j < |teams| ==> teams[j].id != teams[i].id
    ensures TeamIndex(teams)[teams[i].id] == teams[i]
  {
    if i < |teams| - 1 {
      TeamIndexIsLast(teams[..|teams| - 1], i);
    }
  }

  /** `s` starts with `p`. */
  predicate IsPrefix(p: string, s: string) {
    |p| <= |s| && s[..|p|] == p
  }

  /** `s` contains `p` somewhere, as `String.prototype.includes` asks. */
  predicate Contains(s: string, p: string)
    decreases |s|
  {
    IsPrefix(p, s) || (s != [] && Contains(s[1..], p))
  }

  lemma PrefixContained(s: string, p: string)
    requires IsPrefix(p, s)
    ensures Contains(s, p)
  {
  }

  /** Every character of `p` occurs in a string that contains `p`. */
  lemma {:induction false} ContainedChars(s: string, p: string)
    requires Contains(s, p)
    ensures forall x :: x in p ==> x in s
    decreases |s|
  {
    if IsPrefix(p, s) {
      forall x | x in p ensures x in s {
        var i :| 0 <= i < |p| && p[i] == x;
        assert s[..|p|][i] == x;
      }
    } else {
      ContainedChars(s[1..], p);
      forall x | x in s[1..] ensures x in s {
        var i :| 0 <= i < |s[1..]| && s[1..][i] == x;
        assert s[i + 1] == x;
      }
    }
  }

  /** A string lacking one of the characters of `p` does not contain `p`. */
  lemma MissingChar(s: string, p: string, c: char)
    requires c in p && c !in s
    ensures !Contains(s, p)
  {
    if Contains(s, p) {
      ContainedChars(s, p);
    }
  }
}
