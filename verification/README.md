# Brazilian Football Manager: a verified model of the league engine

This Dafny project models the engine of a small text-mode football manager
(`game.py`). The engine keeps a roster of Brazilian clubs in three divisions:
Série A (1), Série B (2) and Série C (3). A season has three stages:

- every division plays a single round robin;
- each division's standings are computed;
- the bottom two of Série A and B go down a division and the top two of
  Série B and C go up.

Modules, one per concern of the engine:

- `MatchSim` (`match.dfy`) scores one match. Each of up to five scoring
  trials gives each side a goal when its draw from 0..100 falls below its
  threshold. The first side's threshold is `50 + strength difference`, the
  second side's is `100` minus that, and neither is clamped. The random
  source is made explicit: a match is given the trials drawn for it. Every
  result is therefore a function of the roster and the draws, and so it is
  reproducible.
- `Teams` (`team.dfy`) holds the club record and the bookkeeping of one
  result: goals both ways, then three points for a win, one each for a draw
  and none for a loss.
- `Fixtures` (`fixtures.dfy`) groups roster positions by division, in
  roster order. It builds each group's round robin in the order the nested
  loops play it. Team `i` of the group meets every later team `j`.
- `Ranking` (`standings.dfy`) holds the standings of a division. They are
  ordered by points, then goal difference, both descending. Because the
  sort is stable, ties keep roster order.
- `Season` (`season.dfy`) is the season's matches as a value. The fixtures
  are replayed in order, fixture `k` on the `k`-th entry of the draws.
- `Promotion` (`promotion.dfy`) is the end-of-season step as a value.
- `Game` (`game.dfy`) is the manager as a class.
  Its roster field is updated in place by `PlayMatch`, by the season loop
  and by the promotion and relegation visits. Each method is proved against
  the value-level functions above.

Teams are named by their position in the roster. The source's object
references become indices into `teams`, so "the same `Team` object" is
"the same position".

How the promotion and relegation step actually behaves: divisions 1, 2 and
3 are visited in that order. Each visit recomputes its division's members
and standings from the roster as the earlier visits left it. A club
relegated from Série A is therefore ranked again in Série B's visit, with
its Série A points, and can be sent straight back up. `Promotion.BounceBack`
exhibits a six-club roster on which all four clubs of divisions 1 and 2 move
down and come straight back. Deciding every move on standings taken before
any move would end differently on that roster, with both Série A clubs in
Série B; the code does not do that, and neither does the model.

The other behaviour of the code that the model keeps concerns small
divisions. A visit of a division with fewer than two clubs reads past the
end of its standings and raises an index error. The moves already made in
that visit are kept, and the later divisions are not visited.

## Model

| member | source | states |
|---|---|---|
| Teams.NewTeam | game.py:6-16 | A new club has the given name, division, strength and budget, no games, no points and no goals, and its points equal three per win plus one per draw |
| Teams.Credit | game.py:68-85 | One club's record after a match: identity kept, one more game played, goal difference changed by scored minus conceded, and 3, 1 or 0 points added for a win, draw or loss; points stay three per win plus one per draw |
| Teams.Record | game.py:68-85 | Both clubs' records after a match: together they gain 3 points, or 2 for a draw, and their goal differences still sum to the same total |
| Teams.RecordEffect | game.py:68-85 | After a result each club keeps its identity, gains its goals for and against, and plays one more game. Each side gains 3, 1 or 0 points as it wins, draws or loses. No counter decreases and exactly one of win, draw and loss grows, by one, the win going to the side that scored more. Points stay three per win plus one per draw |
| Teams.RecordSymmetric | game.py:68-85 | Recording a result does not depend on which club is named first |
| MatchSim.Hits | game.py:57-61 | A side's goals never exceed the number of trials; its partner `MatchSim.HitsCount` gives the count independently |
| MatchSim.HitsCount | game.py:57-61 | A side's goals are exactly the size of the set of trials whose draw for that side falls below its threshold |
| MatchSim.HitsAll | game.py:57-61 | When every draw is below the threshold, every trial is a goal |
| MatchSim.HitsNone | game.py:57-61 | When no draw is below the threshold, there is no goal |
| MatchSim.HitsMonotonic | game.py:57-61 | A higher threshold never gives fewer goals on the same draws |
| MatchSim.MatchScore | game.py:51-61 | Each side's score is at most the number of trials; its properties are stated by `MatchSim.Saturation`, `MatchSim.ScoreSymmetric` and `MatchSim.StrengthMonotonic` |
| MatchSim.SimulateMatch | game.py:50-63 | The scoring loop returns, for each side, the number of trials whose draw falls below that side's threshold (`50 + difference` and `100 - (50 + difference)`); both scores are at most the trial count, which is at most 5 |
| MatchSim.Saturation | game.py:51-61 | With the threshold unclamped, a strength gap of 51 or more makes the stronger side score on every trial and the weaker side never; a threshold of 0 or less means the first side never scores |
| MatchSim.ScoreSymmetric | game.py:51-61 | Exchanging the two clubs and each trial's two draws exchanges the two scores |
| MatchSim.StrengthMonotonic | game.py:51-61 | On the same draws a stronger first side never scores fewer goals and never concedes more |
| Fixtures.Members | game.py:105-108 | A division's group is no longer than the roster; `Fixtures.MembersSpec` states what it holds. The same grouping is recomputed at game.py:125 and game.py:143 |
| Fixtures.MembersSpec | game.py:105-108 | A division's group lists, once each and in roster order, exactly the roster positions whose division is that division |
| Fixtures.MembersByDivision | game.py:143 | Group membership depends on the teams' division fields alone |
| Fixtures.RoundRobinCount | game.py:113-115 | The round robin of a group of k teams, as the nested loops play it (`Fixtures.RoundRobin`), has k(k - 1)/2 matches |
| Fixtures.RoundRobinGames | game.py:113-115 | In the round robin of a group of k teams each member plays k - 1 matches and a non-member plays none |
| Fixtures.RoundRobinPairs | game.py:113-115 | In the round robin of a group two distinct members meet exactly once, in either order, and two teams that are not both members never meet |
| Ranking.Standings | game.py:125-128 | The standings of a division list exactly its teams, once each. A team comes before another when it has more points, or equal points and a better goal difference, or an equal key and an earlier roster position |
| Ranking.StandingsUnique | game.py:126-128 | Any listing of the division's teams in that order is the standings, so the stable sort's result is fully determined by the key and the roster order |
| Ranking.StandingsOrder | game.py:126-128 | Pairwise, a team listed above another has at least as many points; on equal points at least the same goal difference; on an equal key an earlier roster position |
| Season.SeasonFixtures | game.py:105-117 | Every fixture of the season pairs two different teams of the roster |
| Season.PlayFixture | game.py:65-85 | Playing one fixture keeps the roster's length; `Game.FootballManager.PlayMatch` is proved to produce exactly this roster, and `Season.ReplayEffect` states what it changes |
| Season.Replay | game.py:110-117 | Playing fixtures in order keeps the roster's length; its effect on each club is stated by `Season.ReplayEffect` and `Season.ReplaySound` |
| Season.ReplayEffect | game.py:65-85 | Playing any list of fixtures leaves every club's identity unchanged. Each club plays one more game per fixture it is in, and a club whose points were three per win plus one per draw keeps that |
| Season.ReplaySound | game.py:65-85 | Playing fixtures keeps every record consistent and every division in 1..3 |
| Season.SeasonGames | game.py:110-117 | Over a season each team of a division of k teams plays exactly k - 1 games, keeps its identity and keeps points equal to three per win plus one per draw |
| Season.SeasonPairs | game.py:110-117 | Over a season two distinct teams meet exactly once if they share a division and never otherwise |
| Promotion.Relegate | game.py:148-150 | Relegation keeps the roster's length; `Promotion.RelegateEffect` and `Promotion.ShortStandingsFail` state its moves and its error |
| Promotion.Promote | game.py:152-154 | Promotion keeps the roster's length; `Promotion.PromoteEffect` and `Promotion.ShortStandingsFail` state its moves and its error |
| Promotion.ShortStandingsFail | game.py:148-154 | Relegation and promotion each raise the index error exactly when the standings list fewer than two teams |
| Promotion.Pass | game.py:143-154 | A division's visit keeps the roster's length; `Promotion.PassExact`, `Promotion.PassFails` and `Promotion.PassOnlyDivision` state its effect |
| Promotion.Passes | game.py:142-154 | The visits of divisions 1 .. d keep the roster's length; `Promotion.ErrorSticks` and `Promotion.PassesInRange` state how they end |
| Promotion.PromoteRelegate | game.py:140-154 | The whole step keeps the roster's length; `Promotion.PassesInRange` keeps divisions in 1..3 and `Promotion.BounceBack` shows its sequential behaviour |
| Promotion.RelegateEffect | game.py:148-150 | With distinct last two standings entries, relegation succeeds and moves exactly those two teams one division down |
| Promotion.PromoteEffect | game.py:152-154 | With distinct first two standings entries, promotion succeeds and moves exactly those two teams one division up |
| Promotion.PassExact | game.py:143-154 | A visit of a division with at least two teams succeeds. Each team's division changes by +1 if it is in the bottom two of division 1 or 2, and by -1 if it is in the top two of division 2 or 3. Nothing else about any team changes |
| Promotion.PassFails | game.py:148-154 | A visit ends in an index error exactly when its division has fewer than two teams |
| Promotion.PassOnlyDivision | game.py:143-154 | A visit never changes a team outside the visited division, whether it succeeds or not |
| Promotion.PassKeepsRecords | game.py:148-154 | A visit changes division fields only |
| Promotion.TopNeverPromoted | game.py:152-154 | Division 1's visit never moves any team up |
| Promotion.BottomNeverRelegated | game.py:148-150 | Division 3's visit never moves any team down |
| Promotion.PassFourOrMore | game.py:143-154 | In a division of four or more teams, the bottom two of division 1 or 2 go to d + 1. The top two of division 2 or 3 go to d - 1. Every other team stays |
| Promotion.TwoTeamsCancel | game.py:148-154 | In a Série B of exactly two teams, each is relegated and then promoted, and the roster is unchanged |
| Promotion.PassInRange | game.py:143-154 | A visit keeps every division in 1..3, also when it stops with an index error |
| Promotion.PassesInRange | game.py:142-154 | The whole step keeps every division in 1..3, however it ends |
| Promotion.PassSound | game.py:143-154 | A visit keeps records consistent and divisions in 1..3 |
| Promotion.ErrorSticks | game.py:142-154 | Once a visit raises the index error, no later division is visited |
| Promotion.RelegatedIsRankedAgain | game.py:142-146 | A team relegated from division 1 is in division 2's standings when division 2 is visited |
| Promotion.BounceBack | game.py:142-154 | On a concrete roster a team relegated from division 1 is promoted straight back, and the whole step returns the roster it started from |
| Game.LoadTeams | game.py:24-48 | The built-in roster has 13 clubs: positions 0-4 in division 1, 5-8 in division 2 and 9-12 in division 3, all with empty records |
| Game.DefaultGroups | game.py:105-108 | Grouping the built-in roster gives the positions 0-4, 5-8 and 9-12 |
| Game.FootballManager.constructor | game.py:19-22 | A new manager holds the built-in roster and is valid |
| Game.FootballManager.PlayMatch | game.py:65-87 | Updates both clubs' records in place to the result of the match on the given trials, changes no other club, keeps the roster valid, and reports both names and the score |
| Game.FootballManager.GroupByDivision | game.py:105-108 | The loop returns, for each division 1..3, exactly the group of its roster positions in roster order |
| Game.FootballManager.PlayRow | game.py:114-115 | The inner loop leaves the roster as the replay of the fixtures played so far followed by team i's row |
| Game.FootballManager.PlayRoundRobin | game.py:113-115 | The nested loops leave the roster as the replay of the fixtures played so far followed by the group's round robin |
| Game.FootballManager.PlaySeasonMatches | game.py:105-117 | The season's matches leave the roster as the replay of all divisions' round robins in division order, and keep it valid |
| Game.FootballManager.RelegateBottomTwo | game.py:148-150 | Moves the last and then the second-last team of the standings down, reporting whether the standings ran out first |
| Game.FootballManager.PromoteTopTwo | game.py:152-154 | Moves the first and then the second team of the standings up, reporting whether the standings ran out first |
| Game.FootballManager.VisitDivision | game.py:143-154 | A visit on freshly computed standings equals the value-level visit, error case included, and keeps the roster valid |
| Game.FootballManager.HandlePromotionsRelegations | game.py:140-154 | The loop over divisions 1, 2, 3 equals the sequential value-level step, error included, and keeps the roster valid |
| Game.FootballManager.PlaySeason | game.py:102-120 | A season is the matches followed by promotion and relegation on the resulting roster |

## Left out

- Console input and output are not modelled. This covers the team-choice
  menu in `start_game`, the chosen `player_team`, and the printing of
  results and of the standings table. `show_standings` prints only, so the
  model keeps its ordering (`Ranking.Standings`) and not the table.
- `current_season` is never read by the engine, and `budget` is carried but
  never used by it.
- The `json` and `datetime` imports are never used.
- The random number generator is replaced by explicit draws: the list of
  trials per match, each trial a pair of draws.
- MatchSim.SimulateMatch: the number of trials is the length of the given
  list. Its bound of five is required, not drawn.
- The statistical claim that a stronger side scores more often is not
  modelled as a probability. `MatchSim.StrengthMonotonic` states its
  draw-by-draw counterpart.
- Game.FootballManager.PlayMatch: the source returns a formatted string.
  The model returns the string's parts (`MatchReport`), not its text layout.
- Game.FootballManager.HandlePromotionsRelegations: the source raises an
  `IndexError` that leaves the program. The model returns `false` and keeps
  the moves made before the error, as the source does.
- Game.FootballManager.PlaySeasonMatches: a division outside 1..3 makes the
  source's grouping raise a `KeyError`. The model requires every division
  to be in 1..3 (`Valid`), which every operation keeps.
- Ranking.Standings: Python's built-in stable sort is modelled by a stable
  insertion sort. `Ranking.StandingsUnique` shows that any stable sort on
  the same key gives the same list.
- Object identity is modelled by roster position. No two positions share a
  record, just as no two `Team` objects of the roster are the same object.
