# Tournament engine

A model of the scheduling and scoring core of a small two-court tournament
page for eight teams. Two formats are offered:

- **Groups.** Two groups of four play six group rounds, followed by a
  cross-seeded knockout bracket (semi-finals in round 7, placing games in
  round 8, the final and the 3rd/4th place game in round 9), and then a
  celebration.
- **Round robin.** The page plays a generated 14-round schedule.

The model covers:

- the standings calculator;
- the finals-bracket generator;
- the final-placement resolver;
- the fixed group schedule and team list;
- what the page does with the game list: score buttons and score inputs,
  team-name and "up next" lookups, and the round advance that finishes a
  round, seeds the bracket after round 6 and fills the final after the
  semis.

Modules (one file each):

- `Types` (types.dfy): the records and the shared lookups. `TeamIndex` is
  the id-keyed record or `Map`, where the last team with an id wins.
  `Assigned` is JavaScript truthiness of a team slot. `Contains` is
  `String.prototype.includes`.
- `Standings` (standings.dfy): `calculateStandings`. The imperative
  calculator (`CalculateStandings`, with its team loop and game loop) is
  proved equal to a functional specification (`Standings`). Its
  properties are then proved about that specification.
- `Bracket` (bracket.dfy): `generateFinalsFixtures`, a method of six
  pushes, proved to build the seeded bracket described by `Seeded`.
- `Placings` (placings.dfy): `calculateFinalPlacings` with its `getResult`
  helper. The four find-and-push steps are proved to yield, in position
  order, exactly the placings of a per-position specification.
- `InitialData` (initial_data.dfy): `INITIAL_TEAMS` and `INITIAL_GAMES`,
  with lemmas about the schedule.
- `Page` (page.dfy): the page's pure transforms as functions. The page
  state becomes the class `Page.Tournament`, whose fields are the format,
  the teams, the game list and the round pointer. Its methods are the
  start, the two score editors and the round advance.

Some behaviour of the code is kept as written:

- **A team slot is "filled" when it is truthy.** An id of `0` counts as
  empty, as `game.teamAId && game.teamBId` treats it.
- **A team entered on both sides of a group game shares one row.** That
  row is credited first as side A and then as side B, because the two
  JavaScript object references alias.
- **Standings are ranked by points, then goal difference, then goals
  scored, then name.** Names compare lexicographically by character.
  Rows equal in all four stay in ascending team-id order. That is the
  order `Object.values` lists integer keys in, and the sort is stable.
- **A table with fewer than four rows crashes the advance.** Generating
  the bracket from such a table reads a missing seed and throws a
  `TypeError`. The advance then stops before it stores anything. The
  model returns `Crashed` and leaves the state unchanged.
- **Drawn knockout games are decided two different ways.**
  - A drawn semi-final sends team B through: the round advance only picks
    team A when `scoreA > scoreB`.
  - The placement resolver's `getResult` gives a drawn game to team A.

  Both rules are modelled as the code has them. `Page.SemiTieRulesDisagree`
  states the difference.
- **The resolver finds the 3rd/4th, 5th/6th and 7th/8th games by their
  descriptions.** It finds the final by stage and round.
  `Placings.BracketDecides` proves that on a generated bracket these
  lookups pick the intended games.

## Model

| member | source | states |
|---|---|---|
| Types.TeamIndexIsLast | client/src/lib/tournament-logic.ts:111-125 | building the id-keyed record, a team that no later team shares an id with is the one stored under its id (a later duplicate replaces an earlier one) |
| Standings.CalculateStandings | client/src/lib/tournament-logic.ts:107-168 | the imperative calculator returns exactly the standings specification: the table of the subset sorted by the ranking |
| Standings.InitialTable | client/src/lib/tournament-logic.ts:111-125 | after the team loop the record has exactly the ids of the subset, each mapped to the zero row of the last team with that id |
| Standings.ProcessGames | client/src/lib/tournament-logic.ts:128-160 | after the game loop every row is its zero row credited in order with each counted game (finished, group stage, both slots truthy, both teams in the record); the key set is unchanged |
| Standings.StandingsShape | client/src/lib/tournament-logic.ts:107-168 | the standings hold one row per distinct team id of the subset, each the team's own credited row, every team of the subset appears, no id twice, and the rows are in ranking order |
| Standings.OnlyCountedGames | client/src/lib/tournament-logic.ts:129-133 | games that are unfinished, not group games, have an open slot or a team outside the subset leave every row as if they were absent |
| Standings.ZeroInitialised | client/src/lib/tournament-logic.ts:111-125 | with no games every row is the team's all-zero row |
| Standings.StandingsConsistent | client/src/lib/tournament-logic.ts:135-158 | every row has gd = gf - ga, points = 3 * won + drawn and played = won + drawn + lost, with non-negative result counters |
| Standings.StandingsTotal | client/src/lib/tournament-logic.ts:135-155 | the goals-for, goals-against and points columns summed over the table equal the same quantities summed over the counted games |
| Standings.Conservation | client/src/lib/tournament-logic.ts:135-155 | over a subset, total goals scored equal total goals conceded, and the total points are 3 per decided counted game plus 2 per drawn one |
| Standings.SortSorted | client/src/lib/tournament-logic.ts:162-167 | the ranking sort puts every row ahead of all rows it precedes: better points, then goal difference, then goals for, then name, then lower id |
| Standings.PrecedesStrict | client/src/lib/tournament-logic.ts:162-167 | between rows of two different teams exactly one precedes the other, so the ranking leaves no pair in an arbitrary order |
| Standings.PrecedesTransitive | client/src/lib/tournament-logic.ts:162-167 | the comparator's order is transitive |
| Standings.PrecedesTotal | client/src/lib/tournament-logic.ts:162-167 | of any two rows, one may be listed before the other |
| Standings.LexLessTotal | client/src/lib/tournament-logic.ts:166 | two different names are always ordered one way or the other by the name comparison |
| Standings.SortUnique | client/src/lib/tournament-logic.ts:162 | the sort neither duplicates nor drops a team id |
| Bracket.GenerateFinalsFixtures | client/src/lib/tournament-logic.ts:170-276 | succeeds exactly when both tables have at least four rows, and then returns the six bracket games: ids lastGameId+1 to +6, 0-0 and scheduled, SF1 (1st A v 2nd B) and SF2 (1st B v 2nd A) in round 7, 3rd v 3rd and 4th v 4th in round 8, the final and the 3rd/4th game with open slots in round 9, with their descriptions and slot sources |
| Bracket.SeededWellFormed | client/src/lib/tournament-logic.ts:170-276 | in a seeded bracket no two games of a round share a court, the ids increase above lastGameId, and when the eight seeds are different teams no team plays twice in a round |
| Bracket.SeedingExample | client/src/lib/tournament-logic.ts:176-240 | with tables 1-4 and 5-8 in order after game 12, the bracket is 1 v 6 and 5 v 2, then 3 v 7 and 4 v 8, then two open games, with ids 13 to 18 |
| Placings.GetResult | client/src/lib/tournament-logic.ts:283-291 | team B wins only with a strictly higher score; otherwise, a draw included, team A wins; the loser is the other side |
| Placings.Find | client/src/lib/tournament-logic.ts:319 | the lookup yields nothing exactly when no game matches, and otherwise the first matching game |
| Placings.PushResult | client/src/lib/tournament-logic.ts:295-315 | one deciding game adds at most its winner at the odd position and its loser at the next one, each only when both slots are filled and that team is in the team map |
| Placings.CalculateFinalPlacings | client/src/lib/tournament-logic.ts:278-391 | the placings are in strictly ascending position, each in 1 to 8 and equal to what the deciding game of its position yields, and no position that has a placing is missing |
| Placings.PairPlaced | client/src/lib/tournament-logic.ts:293-340 | a deciding game whose slots hold two teams of the map places both at positions 2p-1 and 2p: team B first if it scored strictly more, team A first otherwise |
| Placings.BracketDecides | client/src/lib/tournament-logic.ts:293-367 | after games that are no finals and whose descriptions have no '/', a generated bracket's final is found as the grand final, its round-9 court-2 game as the 3rd/4th game and its two round-8 games as the 5th/6th and 7th/8th games |
| InitialData.InitialTeamsShape | client/src/lib/tournament-logic.ts:63-72 | eight teams with ids 1 to 8 and distinct names; 1-4 in group A, 5-8 in group B |
| InitialData.GroupOfFirstFour | client/src/lib/tournament-logic.ts:63-72 | team t of the eight is in group A exactly when t <= 4 |
| InitialData.InitialGamesShape | client/src/lib/tournament-logic.ts:85-104 | twelve games; game k has id k+1, is in round k/2+1 on court k%2+1, group A on court 1 and group B on court 2, a scheduled 0-0 group game |
| InitialData.InitialGamesInGroup | client/src/lib/tournament-logic.ts:85-104 | both slots of every group game hold two different teams of the game's own group, lower id on side A |
| InitialData.NoTeamTwiceInRound | client/src/lib/tournament-logic.ts:85-104 | no team has two games in one round |
| InitialData.EveryPairMeets | client/src/lib/tournament-logic.ts:79-104 | every two teams of one group meet in some group game |
| InitialData.NoPairTwice | client/src/lib/tournament-logic.ts:85-104 | no pairing is scheduled twice |
| InitialData.InitialGamesUnmarked | client/src/lib/tournament-logic.ts:85-104 | the group games are before round 7, are no finals, and their descriptions contain no '/' |
| Page.ClampScore | client/src/pages/tournament.tsx:218 | the stored score is never negative and equals the requested one when that is not negative |
| Page.WithScore | client/src/pages/tournament.tsx:220-224 | the edited game keeps its fixture, is finished, has the new score on the edited side and the old one on the other |
| Page.WithScoreDelta | client/src/pages/tournament.tsx:215-226 | a button press leaves every other game as it was; each game with the id gets the side's score plus delta clamped at 0, the other side's score unchanged, and becomes finished |
| Page.WithScoreEdit | client/src/pages/tournament.tsx:229-242 | an input that does not parse changes nothing; a number n sets the side's score of each game with the id to max(0, n) and marks it finished, nothing else changes |
| Page.ScoreEditIdempotent | client/src/pages/tournament.tsx:229-242 | typing the same value twice gives the same games as typing it once |
| Page.ScoreDeltaIsEdit | client/src/pages/tournament.tsx:215-242 | when exactly one game has the id, a press by delta equals typing that game's current score plus delta |
| Page.ScoreDeltaUndo | client/src/pages/tournament.tsx:215-226 | + then - by the same amount restores every non-negative score |
| Page.FindTeam | client/src/pages/tournament.tsx:360 | the team lookup yields nothing exactly when no team has the id, and otherwise the first team with it |
| Page.TeamName | client/src/pages/tournament.tsx:358-361 | the shown name is never empty; an open slot shows "TBD", an id no team has shows "Unknown", and any other result is the name of the first team with that id |
| Page.TeamNameOfMember | client/src/pages/tournament.tsx:358-361 | with distinct ids, a team with a non-empty name is shown by its name |
| Page.CourtQueue | client/src/pages/tournament.tsx:365 | the queue holds exactly the games of the court |
| Page.SortByRoundSorted | client/src/pages/tournament.tsx:365 | the queue sort orders the games by round |
| Page.SortByRoundStable | client/src/pages/tournament.tsx:365 | the queue sort keeps the games of each round in their original order |
| Page.SortByRound | client/src/pages/tournament.tsx:365 | the queue sort is a permutation of the queue |
| Page.UpNextIsFirstOnCourt | client/src/pages/tournament.tsx:364-368 | "up next" on a court is the first game of the court's next round in schedule order, and nothing when the court has no game in that round |
| Page.FirstOnCourt | client/src/pages/tournament.tsx:271-272 | the semi lookup yields nothing exactly when no game is in that round on that court, and otherwise the first such game |
| Page.FinishRound | client/src/pages/tournament.tsx:254-256 | the games of the current round become finished; every game keeps its fixture and scores, and games of other rounds keep their status |
| Page.FinishRoundIdempotent | client/src/pages/tournament.tsx:254-256 | finishing a round twice is the same as finishing it once |
| Page.MaxId | client/src/pages/tournament.tsx:265 | the last id is at least every game's id and is the id of some game |
| Page.GroupTeams | client/src/pages/tournament.tsx:263-264 | the group filter keeps exactly the teams of the group |
| Page.SemiWinner | client/src/pages/tournament.tsx:275-277 | a semi's winner is team A with a strictly higher score and team B otherwise |
| Page.SemiLoser | client/src/pages/tournament.tsx:276-278 | a semi's loser is team B when team A scored strictly more and team A otherwise |
| Page.SemiSides | client/src/pages/tournament.tsx:275-278 | winner and loser of a semi are its two slots |
| Page.SemiTieRulesDisagree | client/src/pages/tournament.tsx:275-278 | a drawn semi sends team B through and drops team A, unlike the resolver's rule for drawn games |
| Page.FillFinals | client/src/pages/tournament.tsx:280-289 | every round-9 final gets the two winners, every round-9 placing game the two losers, and every other game is kept |
| Page.BracketLookups | client/src/pages/tournament.tsx:270-289 | after games of rounds before 7, the semi lookups find the bracket's two semis and the fill changes only the final and the 3rd/4th game |
| Page.FilledBracketPlaced | client/src/lib/tournament-logic.ts:293-367 | once round 9 is filled, the resolver reads positions 1-2 off the filled final, 3-4 off the filled 3rd/4th game and 5-8 off the two round-8 games |
| Page.AppendBracketDistinct | client/src/pages/tournament.tsx:265-267 | appending the bracket numbered on from the highest id keeps all game ids distinct, with the new ids above the old ones |
| Page.NextRound | client/src/pages/tournament.tsx:297-304 | before the last round the pointer moves on by one; from the last round on it lands on the celebration round max+1 |
| Page.NextRoundBounds | client/src/pages/tournament.tsx:297-304 | the pointer never goes back, stays within 1 to max+1, moves exactly while it is at most max, and rests at max+1 |
| Page.NextRoundMonotone | client/src/pages/tournament.tsx:297-304 | a later round never advances to an earlier one |
| Page.AdvancesReachEnd | client/src/pages/tournament.tsx:297-304 | from any round r, max+1-r advances reach the celebration round |
| Page.Tournament.Start | client/src/pages/tournament.tsx:320-329 | a started tournament holds the group schedule (groups) or the given round-robin schedule, at round 1, and satisfies the invariant |
| Page.Tournament.UpdateScore | client/src/pages/tournament.tsx:215-226 | the game list becomes the button-press transform of the old one; the invariant is kept |
| Page.Tournament.HandleScoreEdit | client/src/pages/tournament.tsx:229-242 | the game list becomes the score-input transform of the old one; the invariant is kept |
| Page.Tournament.AppendFinals | client/src/pages/tournament.tsx:262-268 | fails exactly when a group table has fewer than four rows; otherwise keeps the finished games as a prefix and appends the bracket seeded from the two tables after the highest id, with all ids distinct |
| Page.Tournament.Advance | client/src/pages/tournament.tsx:250-318 | finishes the current round; crashes (changing nothing) exactly when after round 6 a group table has under four rows; after round 6 appends the seeded bracket, after round 7 fills round 9 from the semis, otherwise keeps the finished list; moves the pointer to the next round; completes exactly from the last round on; keeps the invariant (pointer in range, distinct ids) |

## Left out

- Timers, audio, confetti, the theme, the modal dialogs, the setup screen and all rendering are left out. They do not affect the game list or the round pointer.
- The automatic advance on timer expiry and the half-second restart of the timer are left out. They are clock-driven; `Advance` models the round change they trigger.
- `executeNextRound` reads the game list and the round through refs that effects keep in sync with the state. The model assumes the refs hold the current state, so it does not model a stale-ref race.
- `cn` is a styling helper and is not part of this model.
- `generateRoundRobinSchedule` is not part of this model. Its schedule is a parameter of `Page.Tournament.Start`.
- `resetTournament` is not modelled. It returns to setup mode, which amounts to a new `Page.Tournament.Start`. Its `confirm` dialog is I/O.
- `handleRevealResults` only changes UI flags. The page's choice to compute final placings only from round 10 on (groups) is display logic. Only `calculateFinalPlacings` itself is modelled.
- `activeGames` and the on-screen standings are not modelled. They are display filters over the game list.
- `parseInt` is not modelled. `Page.WithScoreEdit` takes the parsed value: `None` stands for `NaN`.
- `Math.max` over an empty id list (giving `-Infinity`) cannot happen in the model. The `Valid` invariant keeps a grouped tournament's game list non-empty.
- `Standings.Precedes`: `localeCompare` is modelled as lexicographic comparison of characters. Locale collation (case, accents) is not modelled.
- `Standings.Precedes`: the final tie-break by ascending id matches `Object.values` for non-negative integer ids only. Negative or non-integer ids would be listed in insertion order.
- Scores and ids are unbounded integers. Floating-point numbers (fractional or non-finite scores) are not modelled.
- The teams and the format are constant fields of `Page.Tournament`. The page changes them only in setup mode, outside the modelled core.
- The `'league'` stage exists only in the round-robin schedule, which is outside the model. The standings calculator never counts a league game. `Stage.League` keeps that case visible.
