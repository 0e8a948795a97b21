# Manchester United dashboard: progressive passes and event statistics

This project models the logic of a Streamlit dashboard that reads a football
club's match events and shows one player's season as pitch maps. The
dashboard's logic has two parts, and both are modelled here.

- **The progressive-pass rule.** A pass from `(x, y)` to `(end_x, end_y)` on
  the 0..100 pitch is progressive when all three of these hold:
  - it starts beyond one third of the pitch (`x > 100/3`);
  - it moves towards the goal line (`end_x > x`);
  - it ends at most 0.75 times as far from the goal mouth as it started.

  Each end of the pass is measured to its own nearest point on the goal mouth
  (`y` clamped into `[46.34, 53.66]` on the line `x = 100`).
- **The event pipeline.** The dashboard selects the player's rows by type
  (the received-pass table is selected by recipient instead). For take-ons,
  passes, progressive and forward passes, aerials and tackles it splits the
  table into Successful and Unsuccessful rows, counts each part and shows a
  success rate. The clearance, recovery and interception maps count only the
  Successful rows. The received-pass map shows only the table's length. The
  rate is `success / (success + fail) * 100`, or 0 when there is nothing to
  divide by. The shot map first drops penalty-shootout events and events with
  `x < 50`, then counts goals, saved shots and missed shots. The forward-pass
  map keeps passes with `end_x > x + 1`. The player picker lists the
  names of the distinct complete `(player_name, player_id)` pairs, sorted by
  name; a name that comes with two ids appears twice.

Modules:

- `ProgressivePass` (progressive.dfy): the geometry. It holds the constants,
  the clamp onto the goal mouth, the squared distance to the goal, and the
  rule itself. Dafny has no square root, so the rule compares squared
  distances against `0.75² = 0.5625`. `ProgressiveIffDistancesClose` proves
  that this gives the same answer as the Euclidean rule.
- `Events` (events.dfy): the event row (nullable columns are `Option`s) and
  the row masks the dashboard builds (`Mask`, `Holds`). `Select` keeps the
  rows where a mask holds, in order. The lemmas about it cover order,
  composition, commutation and counting.
- `Tables` (tables.dfy): the per-player tables and the progressive-pass and
  forward-pass tables. They are written once, parameterised by the event
  kind.
- `Stats` (stats.dfy): the percentage with its zero guard, the outcome
  summary of a table, the shot map's numbers, and `PlayerReport`. That
  function gathers every count the dashboard shows for one player.
- `PlayerList` (players.dfy): the picker's list, built by dropping duplicate
  pairs and incomplete pairs and then sorting by name.

Where the source's comments and its code differ, the model follows the
code:

- The attacking-third threshold is exactly `100/3`, not the `33.33` that the
  comment at dashboard/dashboard.py:12 gives. `AttackingStartValue` shows
  that it lies strictly between 33.33 and 33.34.
- The comment at dashboard/dashboard.py:8 speaks of completed open-play
  passes, but the code filters neither by outcome nor by period. So failed
  passes can be progressive (`ProgressiveIgnoresOutcome`).

Two further points follow the code's behaviour on edge cases:

- A row with an empty `end_x` or `end_y` is not rejected, and the source's
  comparisons with NaN are false. A pass with no `end_x` is neither
  progressive nor forward (`PassWithoutEndPoint`). A pass with an `end_x` but
  no `end_y` is not progressive, but it is still forward when
  `end_x > x + 1`, because the forward rule reads `end_x` alone
  (`PassWithoutEndY`).
- The received-pass table keeps every row whose `pass_recipient_name` is the
  player, whatever its type and whoever made it.

## Model

| member | source | states |
|---|---|---|
| `ProgressivePass.IsProgressive` | dashboard/dashboard.py:9-24 | a progressive pass ends strictly nearer the goal mouth than it starts |
| `ProgressivePass.SqDistanceToGoal` | dashboard/dashboard.py:19-20 | the squared distance to the goal mouth is never negative, and is zero exactly for a point on the mouth (x = 100, y within the posts) |
| `ProgressivePass.ClosestYOnGoal` | dashboard/dashboard.py:15-16 | the clamped height lies in the goal mouth and is y itself when y is already inside it |
| `ProgressivePass.GoalMouthBounds` | dashboard/dashboard.py:10-16 | the mouth spans exactly [46.34, 53.66] |
| `ProgressivePass.AttackingStartValue` | dashboard/dashboard.py:12 | the attacking-third threshold is one third of the pitch length, strictly between 33.33 and 33.34 |
| `ProgressivePass.ClosestYIsNearest` | dashboard/dashboard.py:14-16 | the clamped height is at least as near to y as any other height in the mouth |
| `ProgressivePass.GoalDistanceIsMinimal` | dashboard/dashboard.py:18-20 | the measured distance is the least distance from the point to any point of the goal mouth |
| `ProgressivePass.ScaledDistanceTest` | dashboard/dashboard.py:24 | for non-negative distances, final <= 0.75 * initial holds exactly when final² <= 0.5625 * initial² |
| `ProgressivePass.ProgressiveIffDistancesClose` | dashboard/dashboard.py:19-24 | given the Euclidean start and end distances, a pass is progressive exactly when x > 100/3, end_x > x and final <= 0.75 * initial (inclusive) |
| `ProgressivePass.NotProgressiveFromFirstThird` | dashboard/dashboard.py:22 | a pass starting at x <= 100/3 is never progressive, whatever its end |
| `ProgressivePass.NotProgressiveUnlessForward` | dashboard/dashboard.py:23 | a pass with end_x <= x is never progressive |
| `ProgressivePass.CentralPassExamples` | dashboard/dashboard.py:9-24 | passes along y = 50 from x = 40: to 90, 60 and 55 are progressive (55 is the inclusive boundary 45 = 0.75 * 60); to 54.5 and to 35 they are not |
| `ProgressivePass.FlankPassExample` | dashboard/dashboard.py:15-24 | a touchline pass from x = 40 to 65 is not progressive but one to 80 is, because each end is measured to its own nearest point of the mouth |
| `Events.IsProgressiveEvent` | dashboard/dashboard.py:275 | a row missing end_x or end_y is never progressive; a progressive row starts past 100/3, moves forward and ends strictly nearer the goal mouth |
| `Events.EmptyCellComparisons` | dashboard/dashboard.py:417-425 | the masks (`Holds`) treat an empty cell as NaN: the player, recipient and outcome tests, the end_x test and the progressive test fail on it, and the period "is not" test succeeds |
| `Events.Select` | dashboard/dashboard.py:417-425 | a selection is no longer than its table and holds exactly the table's rows on which the mask holds |
| `Events.SelectCounts` | dashboard/dashboard.py:417-425 | a selection holds each matching row exactly as many times as the table does and no other row, so its length (the `len(...)` each map shows) is the number of matching rows |
| `Events.DuplicateRowsCounted` | dashboard/dashboard.py:70-74 | two equal matching rows both count: selecting from `[e, e]` gives two rows |
| `Events.SelectIsSubsequence` | dashboard/dashboard.py:417-425 | a selection keeps the rows in their table order |
| `Events.SelectTwice` | dashboard/dashboard.py:28-32 | selecting from a selection is selecting once with both masks |
| `Events.SelectCommutes` | dashboard/dashboard.py:275-278 | the order of two selections does not matter |
| `Events.SelectNarrowed` | dashboard/dashboard.py:276-281 | narrowing a table first never adds rows to a later selection |
| `Events.SelectNone` | dashboard/dashboard.py:417-425 | a mask that holds on no row gives an empty table |
| `Events.OutcomeCountsBounded` | dashboard/dashboard.py:70-74 | the counts of two different outcomes add up to at most the table's length |
| `Events.TypeCountsBounded` | dashboard/dashboard.py:30-38 | the counts of three different types add up to at most the table's length |
| `Tables.PlayerEvents` | dashboard/dashboard.py:422 | the player's table holds exactly the rows whose player_name is the player, in order |
| `Tables.KindEvents` | dashboard/dashboard.py:417-425 | a kind's table holds exactly the player's rows of that type, in order |
| `Tables.ReceivedPasses` | dashboard/dashboard.py:421 | the received-pass table holds exactly the rows whose recipient is the player, in order |
| `Tables.ProgressivePasses` | dashboard/dashboard.py:275-276 | the progressive table is a subsequence of the given passes, holds exactly the progressive ones, and each of them starts past 100/3 and moves forward |
| `Tables.ForwardPasses` | dashboard/dashboard.py:317 | the forward table is a subsequence of the given passes and holds exactly those with end_x > x + 1 |
| `Tables.KindEventsArePlayerEventsOfType` | dashboard/dashboard.py:417-425 | a kind's table equals the player's events narrowed to that type |
| `Tables.KindTablesDisjoint` | dashboard/dashboard.py:417-425 | no row lies in the tables of two different kinds |
| `Tables.ProgressivePassesArePlayerPasses` | dashboard/dashboard.py:275-276 | every progressive pass is one of the player's own Pass rows |
| `Tables.ForwardPassExamples` | dashboard/dashboard.py:317 | from x = 50, passes to 50.5 and to 51 are not forward and a pass to 51.1 is |
| `Tables.PassWithoutEndPoint` | dashboard/dashboard.py:19-23 | a pass with no end_x is neither forward nor progressive |
| `Tables.PassWithoutEndY` | dashboard/dashboard.py:275-317 | a pass with no end_y is not progressive, yet it is forward when end_x > x + 1 |
| `Tables.ProgressiveIgnoresOutcome` | dashboard/dashboard.py:275-278 | whether a pass is progressive does not depend on its outcome, so failed passes can be progressive |
| `Tables.ForwardAndProgressiveIndependent` | dashboard/dashboard.py:317 | some progressive passes are not forward, and some forward passes are not progressive |
| `Stats.Percent` | dashboard/dashboard.py:39-42 | the percentage is 0 when the whole is 0, otherwise it times the whole is 100 times the part; it lies in [0, 100] when part <= whole |
| `Stats.SuccessRate` | dashboard/dashboard.py:75-78 | the rate lies in [0, 100], is 0 when there are no attempts, is otherwise success * 100 / (success + fail), is 0 exactly when nothing succeeded, and is 100 exactly when something succeeded and nothing failed |
| `Stats.PercentExtremes` | dashboard/dashboard.py:153-156 | the percentage is 0 exactly when the part or the whole is 0, and 100 exactly when the part is the whole and is positive |
| `Stats.PercentMonotone` | dashboard/dashboard.py:186-189 | more successes out of the same attempts never lower the rate |
| `Stats.Summarize` | dashboard/dashboard.py:70-78 | the successes and failures are exactly the table's Successful and Unsuccessful rows, in order, and their counts add up to at most the table's length; the rate is their success rate |
| `Stats.SummarizeCounts` | dashboard/dashboard.py:70-74 | each Successful row is counted among the successes as often as it occurs in the table, each Unsuccessful row among the failures, and no other row |
| `Stats.ShotMapCounts` | dashboard/dashboard.py:28-37 | each goal, saved shot and missed shot outside the penalty shootout with x >= 50 is counted as often as it occurs among the player's events, and no other row is counted |
| `Stats.ShotCandidates` | dashboard/dashboard.py:28 | exactly the player's rows outside the PenaltyShootout period with x >= 50 |
| `Stats.ShotMap` | dashboard/dashboard.py:28-42 | goals, saved and missed are exactly the eligible rows of each type; the total is their sum and at most the player's row count; the conversion rate lies in [0, 100], is 0 when there are no shots, and is goals as a percentage of the total |
| `Stats.PlayerReport` | dashboard/dashboard.py:455-465 | every rate and the shot conversion lie in [0, 100]; the progressive and forward success and failure counts never exceed the player's pass success and failure counts |
| `Stats.NarrowedSplitBounded` | dashboard/dashboard.py:276-319 | the outcome split of a narrowed pass table has no more successes and no more failures than the split of the whole table |
| `Stats.NoEventsNoCounts` | dashboard/dashboard.py:410-426 | a player with no rows gets zero counts and zero rates on every map except the received-pass one |
| `PlayerList.NameLeTotal` | dashboard/dashboard.py:391 | any two names are ordered one way or the other |
| `PlayerList.NameLeTransitive` | dashboard/dashboard.py:391 | the name order is transitive |
| `PlayerList.Dedup` | dashboard/dashboard.py:391 | without duplicates, the same values as its input |
| `PlayerList.DropNulls` | dashboard/dashboard.py:391 | exactly the pairs with both a name and an id; no duplicates if the input had none |
| `PlayerList.SortByName` | dashboard/dashboard.py:391 | the sorted list is in name order and is a permutation of its input |
| `PlayerList.SortByNameDistinct` | dashboard/dashboard.py:391 | sorting a duplicate-free list gives a duplicate-free list |
| `PlayerList.PlayerOptions` | dashboard/dashboard.py:390-391 | the picker's list is in name order, holds no pair twice, and holds exactly the complete pairs of the two columns |
| `PlayerList.PlayerOptionsCorrect` | dashboard/dashboard.py:390-391 | the picker's list holds exactly the pairs some event row has with both name and id present |
| `PlayerList.DedupExample` | dashboard/dashboard.py:391 | a repeated pair keeps only its first position |
| `PlayerList.PlayerOptionsExample` | dashboard/dashboard.py:390-391 | duplicated rows and rows with no name are dropped, and the rest come out sorted by name |

## Left out

- The Streamlit page: the title, the season and player pickers, the tables
  and the figure output (dashboard/dashboard.py:387-465). This is UI
  framework I/O. The chosen season's event table and the chosen player name
  are parameters of the model.
- The two copies of the per-season branch (dashboard/dashboard.py:410-443).
  They are identical apart from the table they read, so the model has one
  set of table functions that take the season's events as a parameter.
- The player-statistics table and the selection of its row for the player
  (dashboard/dashboard.py:392, 396, 426, 443). That table is reference data
  whose columns are not part of this model.
- CSV loading with `pd.read_csv`. This is file I/O.
- All drawing with mplsoccer and matplotlib: pitches, markers, arrows,
  legends, titles, text positions, colours and the scaling factor. These are
  rendering calls into foreign libraries.
- The received-pass heatmap: 25×25 binning and Gaussian smoothing
  (dashboard/dashboard.py:365-366). These are library numerics on floats.
  Only the received count (:364) is modelled.
- Rounding rates to two decimals for display. Rates are exact reals.
- Floating point. Coordinates, 7.32 / 2 and 100 / 3 are exact reals, not
  IEEE doubles. The rule's square roots are replaced by the squared
  comparison, which `ProgressiveIffDistancesClose` shows to be equivalent.
- Display quirks with no logic of their own. One is the aerial map's
  "Total" label, which shows only the success count (dashboard/dashboard.py:93).
- PlayerList.SortByName: the order among entries with the same name is not
  promised. The source's sort does not fix it, so the contract states only
  name order and permutation. The model's `Insert` puts an element before
  the first entry whose name is not smaller, so entries with equal names
  keep their input order.
- Stats.PlayerReport: for a player with no Pass rows, the source's
  progressive-pass map most likely raises an error instead of drawing an
  empty map. This covers a player with events but no passes, and also a
  player with no rows at all, the case of `Stats.NoEventsNoCounts`. pandas'
  `apply` on an empty frame returns an empty non-boolean Series
  (dashboard/dashboard.py:275). Indexing with it at :276 then selects no
  columns, and the `outcome_type_display_name` lookup at :277 fails. The
  page script stops at that uncaught error, so the maps drawn after it
  (dashboard/dashboard.py:460-465: forward passes, aerials, clearances,
  recoveries, interceptions, tackles) are not shown either. The model gives
  the intended result for every map instead: zero progressive counts and a
  zero rate, and the other maps' own numbers. This reading of pandas is not
  modelled in Dafny.
- Start coordinates: an event's `x` and `y` are always present in the model
  (plain reals). Only the end coordinates may be empty. The source would
  treat an empty `x` as NaN, which fails both the shot filter's `x >= 50`
  (dashboard/dashboard.py:28) and the progressive test's `x > 100/3` (:22).
