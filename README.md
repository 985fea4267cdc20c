# Skill tracker core (vevo), modelled in Dafny

vevo is a single-page skill tracker. A teacher or student keeps a list of
tasks ("opgaver") and competencies ("kompetencer"). Each task gives each
competency a score from 1 to 10. A radar chart then shows every
competency's level: the mean of the positive scores it received, rounded
to one decimal. Clicking a spoke of the chart opens a panel that lists the
tasks that scored that competency, highest score first.

This project models the core of `app.js`. The modules are:

- `SkillModel` (`model.dfy`): the entities (`Task`, `Competency`) and the sparse score map `scores[taskId][competencyId]`.
  - `GetPoint` reads a score, and `ClampScore` bounds a score into [1, 10].
  - `NormalizeScoreInput` normalises a score input.
  - Three functions specify the store's score updates: `WithScore`, `WithoutScore` and `WithoutColumn`.
  - The module also covers record lookup by id and `String.prototype.trim`.
- `Aggregation` (`aggregation.dfy`): the per-competency level (getNiveauPerKompetence), kept in tenths. A level of 5.8 is the integer 58.
- `SkillStore` (`store.dfy`): the module-level state as a class `Store`.
  - The state is the two lists, the score map and the two id counters.
  - Its invariant says the ids are unique and below their counters, no score refers to a missing entity, and every score lies in [1, 10].
  - Its methods are the event handlers that change state: add and delete, with cascades, plus score set and remove.
  - The level computation is imperative, with loops proved against `LevelsOf`.
- `Demo` (`demo.dfy`): the demo data set and its chart, plus a short worked example.
- `Radar` (`radar.dfy`): hitTestKompetence and the step in onCanvasClick that turns a sector index into a competency id. It also holds the sector correction described under Findings.
- `Detail` (`detail.dfy`): the competency detail panel (visKompetenceDetalje) with its stable sort by score, and the full canvas click.

## Model

| member | source | states |
|---|---|---|
| SkillModel.GetPoint | app.js:72-75 | the stored score when that task has a row holding the competency, and 0 otherwise |
| SkillModel.PositivePointIffStored | app.js:72-75 | when every stored score is in [1, 10], a read is positive exactly when an entry is stored |
| SkillModel.ClampScore | app.js:76-79 | the stored value lies in [1, 10], equals the input inside that range, and is 1 below it and 10 above it |
| SkillModel.NormalizeScoreInput | app.js:138-139 | the normalised input lies in [0, 10]; it is 0 exactly for NaN or a value ≤ 0; it is the value itself in 1..10 and 10 above 10 |
| SkillModel.WithScorePoints | app.js:76-79 | after setting, the set cell reads the clamped value and every other cell reads as before |
| SkillModel.WithoutScorePoints | app.js:160-161 | after removing, the cell reads 0 and every other cell reads as before |
| SkillModel.WithoutRowPoints | app.js:194-195 | deleting a task's row zeroes that task's cells only |
| SkillModel.WithoutColumnPoints | app.js:213-216 | deleting a competency's column zeroes that competency's cells only |
| SkillModel.UpdatesKeepScoresInRange | app.js:76-79 | set, remove and both deletes keep every stored score in [1, 10] |
| SkillModel.UpdatesKeepNoOrphans | app.js:192-216 | set on present ids keeps every score attached to a present task and competency, and so do remove and the two cascading deletes |
| SkillModel.Filter | app.js:194 | Array.prototype.filter: the result is no longer than the input, holds exactly the kept elements, and is the input when all are kept |
| SkillModel.FilterAppend | app.js:194 | filtering a concatenation filters each part in turn, so the kept elements stay in input order, each occurrence once |
| SkillModel.FilterSnoc | app.js:194 | one more element at the end is kept, after all earlier kept elements, exactly when it passes the test |
| SkillModel.FilterKeepsUniqueKeys | app.js:213 | filtering a list with unique ids leaves the ids unique |
| SkillModel.Find | app.js:65-70 | Array.prototype.find by id: a found element is in the list and has the id; nothing is found exactly when no element has the id |
| SkillModel.FindUnique | app.js:65-70 | with unique ids, the lookup of an element's id returns that element |
| SkillModel.FindTask | app.js:65-67 | getOpgave: finds a task with the id, and finds none exactly when the id is absent |
| SkillModel.FindCompetency | app.js:68-70 | getKompetence: finds a competency with the id, and finds none exactly when the id is absent |
| SkillModel.TrimStart | app.js:227 | the result is a suffix of the input that starts with a non-blank character (or is empty), and only blanks were dropped |
| SkillModel.TrimEnd | app.js:227 | the result is a prefix of the input that ends with a non-blank character (or is empty), and only blanks were dropped |
| SkillModel.TrimEmptyIffBlank | app.js:227-229 | a name is rejected exactly when every character is ECMAScript whitespace |
| SkillModel.TrimIdempotent | app.js:227-228 | trimming twice is trimming once, and a non-empty trimmed name has no outer whitespace |
| Aggregation.RoundedMeanTenths | app.js:98-102 | 0 when nothing is counted; otherwise the t with 2·count·t ≤ 20·sum + count < 2·count·(t + 1) |
| Aggregation.RoundHalfUpCharacterization | app.js:101 | those bounds single out Math.round(10 · sum / count), taken on the exact quotient |
| Aggregation.RoundedMeanIsRound | app.js:100-101 | the level in tenths equals Math.round(mean · 10) |
| Aggregation.LevelIsRoundedMean | app.js:98-102 | a scored competency's level is Math.round(10 × the exact mean of its positive points) |
| Aggregation.LevelsOf | app.js:82-103 | one level per competency, in list order; each one is that competency's rounded mean |
| Aggregation.LevelsMatchCompetencies | app.js:98-102 | each level carries its competency's id and name, position by position |
| Aggregation.ScoreStep | app.js:89-97 | taking one more task in list order adds exactly that task's positive point to the sum and the count |
| Aggregation.SumBetweenCountAndTenfold | app.js:89-97 | when scores are in [1, 10], count ≤ sum ≤ 10 · count |
| Aggregation.RoundedMeanBounds | app.js:98-102 | a rounded mean of points in [1, 10] lies between 1.0 and 10.0 |
| Aggregation.LevelInRange | app.js:82-103 | every level lies in [0.0, 10.0]; it is 0 exactly when no current task scores the competency, and at least 1.0 otherwise |
| Aggregation.ScoreSumAppend | app.js:89-97 | sums and counts add up over a split task list |
| Aggregation.RowsOfAbsentTasksIgnored | app.js:89-97 | the score row of a task that is not in the list has no effect on any level |
| Demo.DemoIdsUnique | app.js:496-515 | the demo ids are unique and are exactly 1..9 for tasks and 1..4 for competencies |
| Demo.DemoScoresWellFormed | app.js:517-527 | every demo score names tasks 1..9 and competencies 1..4 and lies in [1, 10] |
| Demo.DemoIsConsistent | app.js:495-528 | the demo data meets the store invariant with counters 10 and 5 |
| Demo.DemoSums | app.js:517-527 | every competency is scored by all nine tasks, with totals 52, 50, 35 and 46 |
| Demo.DemoLevels | app.js:495-528 | the demo chart shows Reception 5.8, Production 5.6, Interaction 3.9 and Mediation 5.1 |
| Demo.WorkedExample | app.js:76-103 | one competency and two tasks scored 8 and 4 give level 6.0; deleting the competency leaves no competencies and only empty rows |
| SkillStore.Store.constructor | app.js:7-11 | the initial state: no entities, no scores, both counters at 1, and the invariant holds |
| SkillStore.Store.LoadDemo | app.js:495-528 | loadDemo installs the demo lists, scores and counters, and the invariant holds |
| SkillStore.Store.AddTask | app.js:225-230 | a name that is blank after trimming changes nothing; otherwise a task with the counter's id and the trimmed name and description is appended, and the counter advances; everything else is unchanged and the invariant is kept |
| SkillStore.Store.AddCompetency | app.js:239-243 | the same rule for competencies |
| SkillStore.Store.DeleteTask | app.js:192-195 | that task is filtered out and its score row deleted; the counters and competencies are unchanged and the invariant is kept |
| SkillStore.Store.DeleteCompetency | app.js:211-216 | the competency is filtered out and its entry removed from every row; the invariant is kept |
| SkillStore.Store.DeleteColumn | app.js:214-216 | the loop over the score rows removes the competency's entry from each row and from nothing else |
| SkillStore.Store.SetPoint | app.js:76-79 | creates the row if it is missing and stores the clamped value; the cell then reads the clamped value |
| SkillStore.Store.RemoveScore | app.js:160-161 | deletes the one entry if that task has a row; the cell then reads 0 |
| SkillStore.Store.ChangeScore | app.js:137-150 | stores the normalised input when it is positive and removes the entry otherwise; either way the cell then reads the normalised input |
| SkillStore.Store.ZeroTotals | app.js:85-88 | the first loop gives every competency id a zero sum and a zero count |
| SkillStore.Store.AddTaskTotals | app.js:89-97 | one pass of the inner loop advances every competency's totals from the first i tasks to the first i + 1 |
| SkillStore.Store.Levels | app.js:82-103 | the nested loops and the final map compute exactly `LevelsOf` of the current state |
| Radar.MaxDist | app.js:370-372 | the outer bound is radius + 28 + 40, so it is at least 68 |
| Radar.NormalizedAngle | app.js:377 | the remainder lies in [0, 2π), and equals θ + π/2, or θ + π/2 + 2π when θ < −π/2 |
| Radar.SectorPosition | app.js:378 | angle / (2π/n), the angle in sector widths: an angle in [0, 2π) lies at a position in [0, n) |
| Radar.AxisAtPosition | app.js:282-284 | axis i, drawn at angleForIndex(i) = 2πi/n − π/2 and turned by the quarter turn of app.js:377, lies at position i: at the start of floor sector i and inside centred sector i |
| Radar.SectorIndex | app.js:378 | the index i is below n, and the angle's position lies in [i, i + 1), that is, the angle lies in [2πi/n, 2π(i+1)/n) |
| Radar.SectorsDisjoint | app.js:378 | no angle lies in two sectors |
| Radar.HitTest | app.js:361-380 | a hit exactly when there are competencies and the squared distance lies in [15², maxDist²]; a hit's index is below n and its sector holds the angle |
| Radar.HitTestSelectsContainingSector | app.js:376-378 | conversely, any click in the ring selects exactly the sector that holds its angle |
| Radar.SquaredComparisonIsDistanceComparison | app.js:375-376 | comparing squared distances is the source's test on the square root |
| Radar.ClickedCompetencyAsWritten | app.js:422-425 | as written: a competency id exactly when there are competencies and the click is in the ring; the id is that of the level whose sector [2πi/n, 2π(i+1)/n) holds the angle |
| Radar.SingleCompetencyClicks | app.js:361-380 | with one competency, a click on the centre selects nothing and a click on its label selects it, both as written and with the correction |
| Radar.DiagonalClickSelectsFartherAxis | app.js:377-378 | the counterexample under Findings: the upper-left diagonal with three competencies selects the axis 5/8 of a sector (75°) away, more than half a sector, rather than the one 3/8 of a sector (45°) away |
| Radar.CenteredSectorIndex | app.js:282-284 | the corrected index is below n, its centred sector holds the angle, and its axis lies within half a sector of the angle, going the shorter way round |
| Radar.CenteredHitTest | app.js:361-380 | the corrected hit test hits under the same conditions, and hits an axis within half a sector of the click |
| Radar.DiagonalClickCentered | app.js:377-378 | on the counterexample, the corrected hit test selects the nearer axis |
| Radar.CenteredSectorSelects | app.js:378 | conversely, an angle in the centred sector of axis i gives index i |
| Radar.CenteredHitTestSelectsNearestAxis | app.js:376-378 | any click in the ring selects the axis whose centred sector holds its angle |
| Radar.ClickedCompetency | app.js:422-425 | a competency id exactly when the hit test hits; the id is that of the level whose centred sector holds the angle |
| Detail.ScoredItems | app.js:387-390 | the panel lines: every line has a positive score; a task that scored the competency has its line; and every line comes from such a task |
| Detail.ScoredTasksCount | app.js:387 | the filter keeps as many tasks as the competency's level counts |
| Detail.ScoredItemsCount | app.js:387-390 | one line per scored task: as many lines as the level's count, duplicates included |
| Detail.ScoredItemsAppend | app.js:387-390 | the lines for two task lists in a row are the first list's lines followed by the second's, so lines follow task order |
| Detail.ScoredItemsSingle | app.js:387-390 | a single task gives its one line when it scored the competency, and no line otherwise |
| Detail.InsertByPointsPermutes | app.js:391 | inserting adds the item and keeps every other item |
| Detail.InsertByPointsSorted | app.js:391 | inserting into a list sorted highest first keeps it sorted |
| Detail.InsertByPointsStable | app.js:391 | an inserted item goes after the items with its own score, and no other score's items move |
| Detail.SortByPointsSortsAndPermutes | app.js:391 | the sort gives a list sorted by score, highest first, that is a permutation of its input |
| Detail.SortByPointsStable | app.js:391 | the sort is stable: the items with any one score keep their original order |
| Detail.SortByPointsKeepsSorted | app.js:391 | a list already sorted highest first is left as it is |
| Detail.ShowDetail | app.js:382-402 | no panel exactly when the id is unknown; otherwise the lines are sorted highest first and are a permutation of the scored tasks' lines |
| Detail.DetailShowsCompetencyLevel | app.js:383-394 | when ids are unique, the panel shows the competency's own name and the level the chart gives it |
| Detail.DetailListsScoredTasks | app.js:387-390 | a task of the list appears in the panel exactly when it scored the competency |
| Detail.OnCanvasClickAsWritten | app.js:417-427 | as written: a panel opens exactly when there are competencies and the click lies in the ring, and it is the panel of a competency whose sector [2πi/n, 2π(i+1)/n) holds the click's angle |
| Detail.ClickOpensSectorCompetencyAsWritten | app.js:422-426 | as written, a click in the ring whose angle lies in competency i's sector opens competency i's panel |
| Detail.OnCanvasClick | app.js:417-427 | with the corrected sectors: a panel opens exactly when there are competencies and the click lies in the ring, and it is the panel of a competency whose centred sector holds the click's angle |
| Detail.ClickOpensSectorCompetency | app.js:422-426 | with the corrected sectors, a click in the ring whose angle lies in competency i's centred sector opens competency i's panel |
| Detail.DiagonalClickOpensDifferentPanels | app.js:377-378 | for any three competencies, the upper-left diagonal click opens the third one's panel as written and the first one's with the correction |

## Left out

- Drawing the radar chart (tegnGraph), resizeCanvas, the resize handle, the lists, the selects and every other piece of HTML building. These are rendering. Axis placement (app.js:282-284) is used only to state the sector correction.
- Storage: saveToStorage, loadFromStorage and the snapshot format (localStorage and JSON). A consequence not captured: the add-competency handler (app.js:239-248) never calls saveToStorage, so a new competency is not persisted until some later change saves.
- Math.atan2 and Math.sqrt. The click's angle θ is an input in [−π, π], and distances are compared squared.
- Floating point. Levels, angles and distances are exact rationals. The model does not capture double rounding in `sum / n * 10`, in `Math.PI` or in the angle arithmetic.
- The mapping from mouse coordinates to logical canvas coordinates in onCanvasClick (app.js:418-421). It depends on the bounding box and devicePixelRatio. The model starts from logical coordinates.
- parseInt of the score input's text. The change handler receives the parsed value, with None standing for NaN.
- The panel's open/closed state and the remembered competency id (valgtKompetenceId, skjulKompetenceDetalje, opdaterForklaringHvisSynlig). These are UI state. The panel's content is modelled by `Detail.ShowDetail`.
- SkillStore.Store.SetPoint: requires both ids to belong to present entities. The source would also create a row for an unknown id, but its only callers pass the ids of the current task select and the current competency list. The requirement is what keeps the no-orphans invariant.
- SkillStore.Store.ChangeScore: requires present ids, for the same reason as SetPoint.
- Radar.ClickedCompetency: uses the corrected, centred sectors described under Findings. The source's floor sectors are `Radar.ClickedCompetencyAsWritten`.
- Detail.OnCanvasClick: opens the panel chosen by the corrected, centred sectors. The source's floor sectors are `Detail.OnCanvasClickAsWritten`.
- Detail.ClickOpensSectorCompetency: states the click for the corrected, centred sectors. `Detail.ClickOpensSectorCompetencyAsWritten` states it for the source's floor sectors.
- Detail.ShowDetail: the level shown is the chart's level found by id, with 0 when it is missing. The source shows the string '0' there; the two agree on the value.
- On deleting a competency, the source empties the competency's entry from each task's score row but keeps the rows themselves, even when they become empty (`Demo.WorkedExample`). A row with no entries reads like a missing row, so no level or panel can tell the difference.

## Findings

| source | as written | input that shows it | evidently intended | confidence | as-written member | corrected member |
|---|---|---|---|---|---|---|
| app.js:377-378 | Competency i gets the sector [2πi/n, 2π(i+1)/n). Its axis, which is drawn at angle 2πi/n from the top (app.js:282-284), lies on the sector's counter-clockwise edge, so a click just counter-clockwise of an axis, such as on the left half of its label, selects the neighbouring competency | three competencies on a 400 × 400 canvas, click at (100, 100), where atan2 gives −3π/4: the third competency (axis 75° away) is selected instead of the first (axis 45° away) | each competency owns the sector centred on its axis: index `floor(angle / (2π/n) + 1/2) % n`, so the selected axis is never more than half a sector from the click | medium; not executed | Radar.DiagonalClickSelectsFartherAxis, Detail.OnCanvasClickAsWritten | Radar.CenteredHitTest (used by Radar.ClickedCompetency and Detail.OnCanvasClick) |
