# Basketball play-by-play scorekeeper: a Dafny model

This project models the core of a single-page basketball scorekeeping app. The operator
picks a player on one of the two team boxes and taps an action from the catalog (made
and missed shots, assists, rebounds, fouls…). The page then appends a timestamped play
to the play-by-play log and adds the action's points to that side's score. Every change
to the log can be undone and redone, because a snapshot of plays and scores is pushed
on a stack. A play can be edited or deleted. Players can be added and dragged into a
new order. The log can be downloaded as CSV, spreadsheet or plain text. The statistics
sheet derives box-score lines, team totals, shooting percentages and three top-five
lists from the log.

Modules:

- `Types`: players, jerseys, timestamps and plays.
- `Strings`: the JavaScript string operations the code relies on (`includes`, `join`,
  `split`, number rendering) and their round trips.
- `Actions`: the fifteen-action catalog, the offensive/defensive filters and the
  label lookup used when a play is edited.
- `PlayLog`: the page's state machine as pure transitions over a `SessionState` value.
  It also defines the consistency invariant: the scores equal the per-side sums of the
  log, play ids are unique, and every stacked snapshot is consistent too.
- `Page`: the page component as a `Session` class whose fields are the page's state
  variables. Each handler is a method proved to perform the matching `PlayLog`
  transition and to keep the invariant.
- `Roster`: the team box's drag handler. It works on arrays the way `splice` does,
  then renumbers positions. The module also covers the position sort used for display
  and the bench divider after the fifth card.
- `Stats`: the statistics sheet. Plays are classified by substring, each player's line
  is built in a map, and the lines are rolled up into team totals and percentages.
- `Sorting`: a stable insertion sort standing in for `Array.prototype.sort`.
- `Leaderboard`: the three top-five lists.
- `Crosscheck`: what the statistics sheet makes of each catalog label, and how score
  and statistics relate.
- `Export`: export rows, CSV and text content, their read-back, and the download name.

The statistics sheet classifies a play by looking for the substrings "FT Made",
"FT Miss", "O Rebound" and "D Rebound". The catalog's labels are "Free Throw Made",
"Free Throw Missed", "Offensive Rebound" and "Defensive Rebound", which contain none of
them. `Crosscheck` proves the consequences:

- Free throws and rebounds recorded from the catalog never appear on the statistics sheet.
- "Tech" and "Flagrant" are not counted as fouls.
- A made free throw raises the scoreboard but not the sheet's points.

These lemmas state what the code does. The model keeps this behaviour rather than
correcting it.

Two details of the code that the model keeps as written:

- Deleting a play subtracts its points whenever they are non-zero: `if (playToDelete.points)`
  tests the value's truthiness, so negative points would be subtracted too.
- A team's total points on the statistics sheet is the scoreboard score passed to the
  sheet, not the sum of its players' points.

## Model

| member | source | states |
|---|---|---|
| `Page.SampleRosters` | src/app/page.tsx:15-33 | the two starting rosters have seven players each, all on their own side, with positions 0-6 in listed order |
| `Page.Session.constructor` | src/app/page.tsx:35-42 | a new page has empty log and stacks, zero scores and no selection, and satisfies the consistency invariant |
| `Page.Session.CanUndo` | src/app/page.tsx:308 | undo is enabled exactly when the undo transition would change the state (the undo stack is non-empty) |
| `Page.Session.CanRedo` | src/app/page.tsx:309 | redo is enabled exactly when the redo transition would change the state |
| `Page.Session.SelectPlayer` | src/app/page.tsx:46-48 | selecting a player changes only the selection |
| `Page.Session.ActionClick` | src/app/page.tsx:50-78 | the fields become the `RecordAction` transition; from a consistent state with a fresh play id the state stays consistent |
| `Page.Session.Undo` | src/app/page.tsx:80-88 | the fields become the `Undo` transition; consistency is preserved |
| `Page.Session.Redo` | src/app/page.tsx:90-98 | the fields become the `Redo` transition; consistency is preserved |
| `Page.Session.EditPlay` | src/app/page.tsx:100-139 | the fields become the `EditPlay` transition, with points looked up from the new label; consistency is preserved |
| `Page.Session.EditPlayCrediting` | src/app/page.tsx:100-139 | the same edit with the credited points given explicitly; consistency is preserved |
| `Page.Session.DeletePlay` | src/app/page.tsx:141-159 | the fields become the `DeletePlay` transition; consistency is preserved |
| `Page.Session.AddPlayer` | src/app/page.tsx:247-267 | the fields become the `AddPlayer` transition; the log, scores and stacks do not change |
| `Page.Session.DragPlayer` | src/app/page.tsx:239-245 | a drop on the same card changes nothing; otherwise the side's roster becomes the drag handler's result and is numbered 0..n-1; log and scores are untouched |
| `PlayLog.Initial` | src/app/page.tsx:35-42 | the starting state is consistent |
| `PlayLog.RecordAction` | src/app/page.tsx:50-78 | with no selection nothing changes; otherwise the pre-action snapshot is pushed, the redo stack is cleared, one play for the selected player is put at the head of the log, the selection is cleared, and the action's points go to that player's side only |
| `PlayLog.Undo` | src/app/page.tsx:80-88 | an empty undo stack changes nothing; otherwise the top snapshot is restored and the current one is pushed on the redo stack; the rosters are untouched |
| `PlayLog.Redo` | src/app/page.tsx:90-98 | an empty redo stack changes nothing; otherwise the top redo snapshot is restored and the current one is pushed on the undo stack; the rosters are untouched |
| `PlayLog.EditPlays` | src/app/page.tsx:105-119 | same length; plays with another id are untouched; a play with the id keeps its id, player id, team and time and takes the new name, label and points |
| `PlayLog.Edited` | src/app/page.tsx:110-116 | an edited play keeps id, player id, team and timestamp and carries the new name, label and points |
| `PlayLog.EditPlayCrediting` | src/app/page.tsx:100-139 | the log is edited, both scores are recomputed as the per-side sums of the new log, the old snapshot is pushed and redo is cleared; the rosters are untouched |
| `PlayLog.FindById` | src/app/page.tsx:146 | `find` by id: none exactly when no play has the id, otherwise the first play of the log with that id |
| `PlayLog.WithoutId` | src/app/page.tsx:147 | the filter keeps exactly the plays whose id differs; an absent id keeps the log |
| `PlayLog.DeletePlay` | src/app/page.tsx:141-159 | the log loses every play with the id, the old snapshot is pushed, redo is cleared; the first play with the id has its points taken off its own side's score (the other side keeps its score), and an absent id leaves both scores; the rosters are untouched |
| `PlayLog.AddPlayer` | src/app/page.tsx:247-267 | the new player is appended to the chosen side only, with position equal to the old roster length; log, scores and stacks unchanged |
| `PlayLog.RecalculateScores` | src/app/page.tsx:124-135 | the loop's two totals are the per-side sums of the log, and together they are the sum of all points |
| `PlayLog.SideTotalAppend` | src/app/page.tsx:124-135 | a side's total over two logs joined is the sum of its totals |
| `PlayLog.SidesCoverAllPoints` | src/app/page.tsx:124-135 | home and away totals add up to all points of the log |
| `PlayLog.RecordKeepsConsistent` | src/app/page.tsx:50-78 | recording with a fresh id keeps scores equal to the log's side sums, ids unique and stacked snapshots consistent |
| `PlayLog.UndoKeepsConsistent` | src/app/page.tsx:80-88 | undo keeps the invariant |
| `PlayLog.RedoKeepsConsistent` | src/app/page.tsx:90-98 | redo keeps the invariant |
| `PlayLog.EditKeepsConsistent` | src/app/page.tsx:100-139 | editing keeps the invariant whatever points are credited |
| `PlayLog.WithoutIdTotal` | src/app/page.tsx:151-158 | with unique ids, removing a play lowers its side's total by exactly its points, which is the incremental update delete performs |
| `PlayLog.WithoutIdAppend` | src/app/page.tsx:147 | the filter keeps log order: filtering two joined logs is the join of the filtered logs |
| `PlayLog.WithoutIdOne` | src/app/page.tsx:147 | a single play is kept exactly when its id differs |
| `PlayLog.WithoutIdUnique` | src/app/page.tsx:147 | filtering keeps ids unique |
| `PlayLog.DeleteKeepsConsistent` | src/app/page.tsx:141-159 | delete keeps the invariant |
| `PlayLog.DeleteSnapshotOk` | src/app/page.tsx:146-158 | the plays and scores left by a delete are consistent when those before it were |
| `PlayLog.DeleteWithSharedIdLeavesStaleScore` | src/app/page.tsx:141-159 | without unique ids the incremental update goes wrong: two plays sharing an id are both removed but only one play's points are subtracted |
| `PlayLog.EditPlaysTotal` | src/app/page.tsx:124-135 | with unique ids, an edit changes its side's total by the new points minus the old |
| `PlayLog.EditAbsentId` | src/app/page.tsx:100-139 | editing an id that is not in the log leaves plays and scores alone but still pushes an undo snapshot |
| `PlayLog.EditMadeToMissed` | src/app/page.tsx:100-139 | relabelling a made two as a non-scoring action takes two points off that play's side |
| `PlayLog.FindByIdUnique` | src/app/page.tsx:146 | with unique ids, `find` by a play's id returns that play |
| `PlayLog.UndoThenRedo` | src/app/page.tsx:80-98 | redo after undo restores the state |
| `PlayLog.RedoThenUndo` | src/app/page.tsx:80-98 | undo after redo restores the state |
| `PlayLog.UndoTimesDependsOnUndoSide` | src/app/page.tsx:80-88 | repeated undo depends only on the current snapshot and the undo stack |
| `PlayLog.RecordsThenUndos` | src/app/page.tsx:50-88 | after any sequence of action clicks, as many undos bring plays and scores and the undo stack back to where they were |
| `PlayLog.RecordClearsRedo` | src/app/page.tsx:54-55 | a recorded action after any number of undos leaves nothing to redo |
| `PlayLog.EditPlayUncredited` | src/app/page.tsx:108-109 | a label outside the three scoring labels is credited zero points |
| `PlayLog.OnlyPlayZeroed` | src/app/page.tsx:124-135 | a one-play log edited to zero points leaves home with zero |
| `PlayLog.RelabelOnlyPlayAsMiss` | src/app/page.tsx:100-139 | relabelling the only home play as a non-scoring action sets the home score to zero |
| `PlayLog.ExampleScenario` | src/app/page.tsx:46-139 | a concrete run: a home player makes a three (3-0), the play is relabelled as a miss (0-0), undo brings it back (3-0), deleting it empties the log (0-0) |
| `PlayLog.RecordThree` | src/app/page.tsx:50-78 | recording the catalog's made three for the only selected home player gives a one-play log and a 3-0 score |
| `PlayLog.DeleteOnlyPlay` | src/app/page.tsx:141-159 | deleting the only play of the log empties it and takes that play's points off its own side |
| `Actions.OfCategoryMembers` | src/data/actions.ts:24-25 | the filter keeps exactly the actions of the category |
| `Actions.OfCategoryPartition` | src/data/actions.ts:24-25 | the offensive and defensive lists together are the catalog's actions, as multisets |
| `Actions.OfCategoryAppend` | src/data/actions.ts:24-25 | filtering distributes over concatenation |
| `Actions.OfCategoryAll` | src/data/actions.ts:24-25 | filtering a list all of one category keeps it whole |
| `Actions.OfCategoryNone` | src/data/actions.ts:24-25 | filtering a list with none of a category gives nothing |
| `Actions.CatalogCategories` | src/data/actions.ts:3-22 | fifteen actions, the first nine offensive and the last six defensive |
| `Actions.CatalogSplit` | src/data/actions.ts:24-25 | the offensive list is the first nine entries and the defensive list the last six, in catalog order |
| `Actions.SplitAt` | src/data/actions.ts:24-25 | a list with all offensive entries before all defensive ones filters into its two halves |
| `Actions.KeepsPrefix` | src/data/actions.ts:24 | a filter keeps exactly the first entries when only those are of its category |
| `Actions.KeepsSuffix` | src/data/actions.ts:25 | a filter keeps exactly the last entries when only those are of its category |
| `Actions.CatalogLabelsDistinct` | src/data/actions.ts:3-22 | no two catalog actions share a label |
| `Actions.CatalogPoints` | src/data/actions.ts:3-22 | exactly the made two, made three and made free throw carry points: 2, 3 and 1 |
| `Actions.FindByLabel` | src/app/page.tsx:108 | `find` by label: none exactly when no action has it, otherwise the first action with that label |
| `Actions.PointsForLabelTable` | src/app/page.tsx:108-109 | an edited play is credited 2, 3 or 1 for the three scoring labels and 0 for any other text |
| `Actions.CatalogCredit` | src/app/page.tsx:108-109 | the points looked up by label are the catalog entry's points, or 0 |
| `Actions.FindFirst` | src/app/page.tsx:108 | `find` returns the first entry with the label |
| `Actions.NoneScoring` | src/app/page.tsx:108-109 | when no entry with the label scores, the edit credits nothing |
| `Strings.Split` | src/app/page.tsx:212 | `split` yields at least one piece and no piece holds the separator |
| `Strings.SplitJoin` | src/app/page.tsx:193-199 | splitting a join of separator-free pieces gives the pieces back |
| `Strings.NatToStringRoundTrip` | src/app/page.tsx:202 | the decimal rendering of a number reads back to that number |
| `Roster.FindIndex` | src/components/TeamBox.tsx:39-40 | `findIndex`: -1 exactly when no player has the id, otherwise the first index with it |
| `Roster.SpliceStart` | src/components/TeamBox.tsx:42-43 | `splice`'s start: an index in range is kept, -1 counts from the end |
| `Roster.RemoveAt` | src/components/TeamBox.tsx:42 | removing index i shifts the later players down by one |
| `Roster.InsertAt` | src/components/TeamBox.tsx:43 | inserting at j puts the player at j and shifts later players up by one |
| `Roster.MoveIsPermutation` | src/components/TeamBox.tsx:41-43 | moving a player is a permutation that puts it at the target index and keeps the others' order |
| `Roster.MoveKeepsPlayers` | src/components/TeamBox.tsx:41-43 | moving a card keeps the same players, as a multiset |
| `Roster.Renumber` | src/components/TeamBox.tsx:44-47 | same players in the same order, positions set to 0..n-1 |
| `Roster.Dragged` | src/components/TeamBox.tsx:39-47 | the list stored after a drop has the roster's length and positions 0..n-1 |
| `Roster.RenumberNumbered` | src/components/TeamBox.tsx:44-47 | renumbering a numbered roster changes nothing |
| `Roster.HandleDragEnd` | src/components/TeamBox.tsx:36-51 | a drop on the dragged card gives no update; otherwise the result is the list with the dragged player moved to the target's index and renumbered |
| `Roster.Copy` | src/components/TeamBox.tsx:41 | a fresh array holding the list |
| `Roster.SpliceOut` | src/components/TeamBox.tsx:42 | the array method returns the removed player and leaves the rest in order |
| `Roster.SpliceIn` | src/components/TeamBox.tsx:43 | the array method inserts the player at the index |
| `Roster.MoveInPlace` | src/components/TeamBox.tsx:41-43 | the two splices on one array leave it holding the list with the card moved from `from` to `to` |
| `Roster.DragLandsOnTarget` | src/components/TeamBox.tsx:36-51 | after a drop onto another card the dragged player sits at the target's old index, the others keep their order, the roster is a permutation, and renumbering keeps the dragged player at that index |
| `Roster.DisplayOrderSorted` | src/components/TeamBox.tsx:54 | the displayed order is sorted by position and a permutation of the roster; a numbered roster is shown as stored |
| `Roster.DividerRule` | src/components/TeamBox.tsx:55 | the bench divider appears exactly when there are more than five players, and only after the fifth card |
| `Sorting.InsertBy` | src/components/StatsBottomSheet.tsx:243-245 | insertion adds exactly the element |
| `Sorting.InsertBySorted` | src/components/StatsBottomSheet.tsx:243-245 | inserting into a sorted list keeps it sorted |
| `Sorting.SortBy` | src/components/StatsBottomSheet.tsx:243-245 | the sort is a permutation and sorted by the key |
| `Sorting.InsertByWithKey` | src/components/StatsBottomSheet.tsx:243-245 | insertion places an element ahead of the equal-key elements already there, and leaves the elements of every other key as they were |
| `Sorting.SortByStable` | src/components/StatsBottomSheet.tsx:243-245 | the sort is stable: elements with equal keys keep their input order |
| `Sorting.SortBySorted` | src/components/TeamBox.tsx:54 | sorting a list already in order returns it unchanged |
| `Stats.TallyOf` | src/components/StatsBottomSheet.tsx:115-153 | folding the log over a line keeps the line's player |
| `Stats.TallyCounts` | src/components/StatsBottomSheet.tsx:115-153 | a player's line over a log equals the counts of their plays by category: points 2/3/1 per made shot, attempts include makes, threes count as field goals |
| `Stats.CountStep` | src/components/StatsBottomSheet.tsx:115-153 | counting one more play updates the line to the counts over the longer log |
| `Stats.ApplyCounts` | src/components/StatsBottomSheet.tsx:119-152 | the counter increments of a category are those of one more play of that category in the counts |
| `Stats.TallyWellFormed` | src/components/StatsBottomSheet.tsx:119-152 | every line has non-negative counters, makes within attempts, threes within field goals, and points equal to 2 per field goal plus 1 per three and per free throw |
| `Stats.DistinctIds` | src/components/StatsBottomSheet.tsx:91-112 | the map's keys are exactly the rostered ids, each once |
| `Stats.LastWith` | src/components/StatsBottomSheet.tsx:91-112 | the player a key holds is a rostered player with that id |
| `Stats.LinesFor` | src/components/StatsBottomSheet.tsx:155 | one line per key |
| `Stats.CalculatePlayerStats` | src/components/StatsBottomSheet.tsx:90-156 | the method's result is the specification function: one tallied line per distinct rostered id, in first-insertion order |
| `Stats.ReadLines` | src/components/StatsBottomSheet.tsx:155 | reading the map's values in key order gives the line of each key, in order |
| `Stats.InitialLines` | src/components/StatsBottomSheet.tsx:91-112 | the initial map holds a zero line for exactly the rostered ids, the later player winning a duplicated id |
| `Stats.TallyPlays` | src/components/StatsBottomSheet.tsx:115-153 | after the play loop every line is its player's tally over the log and the keys are unchanged |
| `Stats.LinesForAt` | src/components/StatsBottomSheet.tsx:155 | the i-th line is the tally for the i-th key |
| `Stats.PlayerStatsCounts` | src/components/StatsBottomSheet.tsx:90-156 | every line of the sheet equals the category counts of its player's plays |
| `Stats.DistinctIdsOfDistinct` | src/components/StatsBottomSheet.tsx:91-112 | with distinct ids the keys are the roster's ids in order |
| `Stats.LastWithDistinct` | src/components/StatsBottomSheet.tsx:91-112 | with distinct ids each key holds its own player |
| `Stats.OneLinePerPlayer` | src/components/StatsBottomSheet.tsx:90-156 | with distinct ids the sheet has one line per rostered player, home first, each the counts over the log |
| `Stats.CountsPrepend` | src/components/StatsBottomSheet.tsx:115-153 | a play counts for its own player and category only, wherever it sits in the log |
| `Stats.BumpedCommute` | src/components/StatsBottomSheet.tsx:115-153 | the counts do not depend on the order two plays are counted in |
| `Stats.UncountedPlayIgnored` | src/components/StatsBottomSheet.tsx:116-117 | a play by an unrostered player, or one no branch recognises, leaves the sheet unchanged |
| `Stats.CalculateTeamStats` | src/components/StatsBottomSheet.tsx:159-237 | the two team lines are the scores passed in plus each side's summed counters and percentages over the player lines |
| `Stats.RolledUpSnoc` | src/components/StatsBottomSheet.tsx:192-208 | one more line adds its counters to its own side's totals and leaves the other side unchanged |
| `Stats.PercentageBounds` | src/components/StatsBottomSheet.tsx:211-234 | a percentage with makes within attempts lies in 0..100, is 0 with no attempts and 100 when every attempt is made |
| `Stats.SideSumLe` | src/components/StatsBottomSheet.tsx:192-208 | summing counters preserves a per-line bound between them |
| `Stats.TeamPercentagesInRange` | src/components/StatsBottomSheet.tsx:211-234 | all three team percentages over the sheet lie in 0..100 |
| `Leaderboard.Top` | src/components/StatsBottomSheet.tsx:243-245 | a top list has five lines or all of them, drawn from the sheet, highest counter first |
| `Leaderboard.TakeSorted` | src/components/StatsBottomSheet.tsx:243-245 | a prefix of a sorted list is sorted and drawn from it |
| `Leaderboard.DescendingOrder` | src/components/StatsBottomSheet.tsx:243-245 | sorting with `b.x - a.x` orders the counter from highest to lowest |
| `Leaderboard.TopSelects` | src/components/StatsBottomSheet.tsx:243-245 | the list and the lines left out make up the sheet, and no line left out beats a line shown |
| `Leaderboard.TopLeads` | src/components/StatsBottomSheet.tsx:243-245 | the first line of a list holds the sheet's maximum |
| `Leaderboard.WithKeyTake` | src/components/StatsBottomSheet.tsx:243-245 | cutting a list keeps a prefix of each key's elements |
| `Leaderboard.SortTakeKeepsTies` | src/components/StatsBottomSheet.tsx:243-245 | a cut stable sort lists equal keys as a prefix of their input order |
| `Leaderboard.TopKeepsTieOrder` | src/components/StatsBottomSheet.tsx:243-245 | tied lines appear in sheet order, the earliest ones first |
| `Leaderboard.TopIsSortPrefix` | src/components/StatsBottomSheet.tsx:243-245 | a top list is the first five lines of the sorted sheet |
| `Crosscheck.ClassifyTwoPtMade` | src/data/actions.ts:5 | "2PT Made" counts as a made two-pointer |
| `Crosscheck.ClassifyTwoPtMissed` | src/data/actions.ts:6 | "2PT Missed" counts as a missed two-pointer |
| `Crosscheck.ClassifyThreePtMade` | src/data/actions.ts:7 | "3PT Made" counts as a made three-pointer |
| `Crosscheck.ClassifyThreePtMissed` | src/data/actions.ts:8 | "3PT Missed" counts as a missed three-pointer |
| `Crosscheck.ClassifyFreeThrowMade` | src/data/actions.ts:9 | "Free Throw Made" matches no branch and is not counted |
| `Crosscheck.ClassifyFreeThrowMissed` | src/data/actions.ts:10 | "Free Throw Missed" matches no branch and is not counted |
| `Crosscheck.ClassifyAssist` | src/data/actions.ts:11 | "Assist" counts as an assist |
| `Crosscheck.ClassifyTurnover` | src/data/actions.ts:12 | "Turnover" counts as a turnover |
| `Crosscheck.ClassifyOffensiveRebound` | src/data/actions.ts:13 | "Offensive Rebound" matches no branch and is not counted |
| `Crosscheck.ClassifyDefensiveRebound` | src/data/actions.ts:16 | "Defensive Rebound" matches no branch and is not counted |
| `Crosscheck.ClassifySteal` | src/data/actions.ts:17 | "Steal" counts as a steal |
| `Crosscheck.ClassifyBlock` | src/data/actions.ts:18 | "Block" counts as a block |
| `Crosscheck.ClassifyFoul` | src/data/actions.ts:19 | "Foul" counts as a foul |
| `Crosscheck.ClassifyTechnicalFoul` | src/data/actions.ts:20 | "Tech" matches no branch and is not counted |
| `Crosscheck.ClassifyFlagrantFoul` | src/data/actions.ts:21 | "Flagrant" matches no branch and is not counted |
| `Crosscheck.ClassifyCatalog` | src/components/StatsBottomSheet.tsx:119-152 | each catalog entry is classified as the category its kind maps to |
| `Crosscheck.ClassifyFieldGoals` | src/components/StatsBottomSheet.tsx:119-136 | the classification of the four field-goal entries |
| `Crosscheck.ClassifyOffensive` | src/components/StatsBottomSheet.tsx:129-148 | the classification of the other offensive entries |
| `Crosscheck.ClassifyDefensive` | src/components/StatsBottomSheet.tsx:142-152 | the classification of the defensive entries |
| `Crosscheck.FreeThrowMadeScoresWithoutStats` | src/app/page.tsx:69-75 | a made free throw from the catalog adds one to the scorer's side and the total but leaves every sheet line unchanged |
| `Crosscheck.FreeThrowMadeTeamSheet` | src/components/StatsBottomSheet.tsx:159-163 | after a made free throw the team line differs only by one more total point |
| `Crosscheck.EditKeepsAttribution` | src/app/page.tsx:110-116 | editing never moves a play to another player's line, because the player id is kept |
| `Export.FindQuote` | src/app/page.tsx:196-197 | the first double quote of a string, if any |
| `Export.FindQuoteAfter` | src/app/page.tsx:196-197 | the first quote after a quote-free value is the closing one |
| `Export.ReadQuoted` | src/app/page.tsx:196-197 | a quoted value reads back, alone or followed by a comma and more |
| `Export.ReadCsvLine` | src/app/page.tsx:196-197 | a CSV line of quote-free values reads back to the values |
| `Export.CsvLineNoBreak` | src/app/page.tsx:196-197 | a CSV line of values without line breaks holds no line break |
| `Export.CsvReadsBack` | src/app/page.tsx:193-199 | the CSV splits into a header line naming the six columns and one line per play that reads back to its date, time, player, action, team and points |
| `Export.HeaderLine` | src/app/page.tsx:193-195 | the header line holds no line break and splits back into the six column names |
| `Export.CsvSplitsIntoLines` | src/app/page.tsx:193-199 | the CSV content splits into the header line followed by the data lines |
| `Export.NoSepInJoin` | src/app/page.tsx:193-199 | joining pieces without a character gives a string without it |
| `Export.TextLineNoBreak` | src/app/page.tsx:202 | a text line of values without line breaks holds no line break |
| `Export.TextReadsBack` | src/app/page.tsx:201-203 | the text splits into exactly one line per play, each that play's line |
| `Export.TextLineSuffix` | src/app/page.tsx:202 | a line ends in the points in decimal when they are positive and otherwise stops after the action |
| `Export.ExportShape` | src/app/page.tsx:161-226 | an empty log downloads nothing; otherwise the file is `playbyplay_<date>` with the format's extension, and the spreadsheet holds the CSV content |

## Left out

- Rendering, styling, modals, the Escape key, scrolling, timers and alerts are left out; only the state they display is modelled.
- The display-only components (scoreboard, play-by-play list, settings bar, action box, player card) are not part of this model.
- The unused `Game` type is not part of this model.
- Clock reads (`Date.now()`, `new Date()`, locale date and time strings) become parameters: play and player ids, timestamps and the ISO time are passed in.
- `Page.Session.ActionClick`: consistency is proved only for a fresh play id. The code takes the id from the clock, so two plays in the same millisecond would share one.
- The Blob, object URL and anchor click of a download are left out; the model stops at content, file name and MIME type.
- The spreadsheet format is the CSV content under another extension, as in the code; no workbook encoding is modelled.
- Numbers are unbounded integers. JavaScript's floating point and the `|| 0` guards against `undefined` are modelled as plain integers with absent points as 0.
- Percentages are exact rationals. `toFixed` and percentage formatting are display concerns and are left out.
- React's batching of state updates is left out; each handler is one atomic transition.
- `Export.CsvReadsBack`: stated only for values free of double quotes and line breaks, because the code does not escape them, so other values do not read back.
- `Export.TextReadsBack`: stated for a log of at least one play, since an empty log is never exported.
- `Export.HeaderLine`: states that the header line splits into the six names, not the literal header string.
- `Roster.HandleDragEnd`: requires the dragged id to be on the roster, since the dragged card is always one of the list's cards. A drop outside any card (no target) is modelled as a target id not on the roster, which `splice` treats as -1.
- `Page.Session.DragPlayer`: carries the same requirement as `Roster.HandleDragEnd`.
- `Stats.OneLinePerPlayer`: assumes distinct player ids. `Stats.CalculatePlayerStats` itself also covers duplicated ids, where the later player wins the key.
- `PlayLog.WithoutIdTotal`: assumes unique play ids. `PlayLog.DeleteWithSharedIdLeavesStaleScore` shows what happens without them.
- `PlayLog.EditPlay`: the lemmas about edits mostly take the credited points as a parameter (`EditPlayCrediting`). `Actions.PointsForLabelTable` ties those points to the label.
