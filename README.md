# Task-plan viewer and planning backends, modelled in Dafny

The system turns a pasted task plan into a rendered, navigable dependency diagram. A plan is
CSV or TSV text with one task per row: its estimate, start and end dates, status, assignees and
successors. Lines starting with `%` declare teams and other settings. The repository has three parts.

- **The browser viewer** (`frontend/static/script.js`, class `SVGViewer`). It is a small state
  machine. A processing guard stops overlapping operations. Paste and copy events go to the
  server, and a notification table collects the diagnostics. Module `Viewer` (viewer.dfy) models
  it as a class. Each remote call is split in two: a method that starts the request, and a method
  that settles it with an outcome passed in. Timers are a queue of pending label restores.
- **The original backend** (`backend/`). CSV rows become dictionaries and a name registry
  (`csv_parser.py`, `types.py`). A schema check follows (`schema.py`), then DAG metrics
  (`graph.py`) and the `get_people` team grammar (`scheduler.py`). A per-day calendar and two
  schedulers come next: an assigning one and a greedy levelling one. Two-pass date propagation
  over the graph (`schedule_graph`) and a MILP wrapper (`milp_solve.py`) follow. The last steps
  are the DOT generator (`dot.py`) and the request handler's parse fallback chain (`app.py`).
  Modules `OrigCsvParser`, `OrigTypes`, `OrigSchema`, `OrigGraph`, `OrigPeople`,
  `OrigCalendar`, `OrigSchedulers`, `OrigScheduleGraph`, `OrigMilp`, `OrigDot` and `OrigApp`.
- **The rewrite** (`backend_rewrite/`). CSV rows become typed `InputTask` records
  (`parse_csv.py`, `metadata.py`, `types.py`), and the assignees are checked (`verify.py`). The
  tasks go into a graph (`graph.py`). Parallelizable and per-person tasks are expanded into
  copies (`expand.py`). The scheduler then prepares dense ids, assignee pools and date offsets
  and applies the solver's answer (`scheduler.py`). A per-day assignment calendar
  (`calendar.py`) and the DOT styling rules (`dot.py`) follow. The handlers in `app.py` cover
  the plan export, descendant lookup, selection clearing and the retry loop over date offsets.
  Modules `RwParseCsv`, `RwMetadata`, `RwTypes`, `RwVerify`, `RwGraph`, `RwExpand`,
  `RwScheduler`, `RwCalendar`, `RwDot` and `RwApp`.

Shared modules:

- `Wrappers`: Option, Result and outcome types.
- `Exceptions`: the `Exc` datatype. Every Python exception the code can raise is one
  constructor, carrying its message arguments.
- `Dates`: business-day ordinals.
- `Text`: strip, split, join, lower-case and digit handling on `seq<char>`.

Modelling choices:

- **Dates.** A date is an integer business-day ordinal. So `busdays_offset(d, k)`
  (`backend_rewrite/dateutil.py:13-14`) is `d + k`, and `busdays_between(a, b)` is `b - a`.
  Weekends and holidays are not modelled. `backend/dateutil.py` defines only `busdays_between`
  and `compare_busdays`, and its `busdays_between` first parses both arguments as `%Y-%m-%d`
  strings (lines 4-7). The original backend's callers are modelled on already parsed ordinals,
  with the `busdays_offset` of the rewrite. Parsing a date string is a function passed in as a
  parameter.
- **Tasks.** Tasks are values, and a stage returns the updated sequence. The rewrite's
  `InputTask` is the union of the fields its readers use: name, description, specific
  assignments, assignees, next, parallelizable, estimate, start, end, status, input row index
  and scheduler fields. The class in `backend_rewrite/types.py:43-54` defines only eight of
  them; the four others are added here (see below).
- **Graphs.** A graph is node and edge data. Reachability (`nx.descendants`) and topological
  order are inputs, with the properties the code relies on stated as preconditions. `G.edges`
  is modelled as networkx lists it: node by node in node order, and each node's out-edges in the
  order they were added (`RwGraph.EdgeView`).
- **Mutated objects.** Objects the source changes in place are classes with `modifies`
  clauses: the viewer, the two task calendars, the schedulers, both `Metadata` registries, the
  rewrite's `ValidTasks` cursor and the per-user session. Loops are methods with invariants,
  each proved against a function that specifies it.
- **Unbounded loops.** Where the source may loop without end, the model takes a bound: the
  greedy levelling passes and the recursion depth of `compute_dag_metrics`.

Several code paths do not do what their names suggest. Where such a path runs, the model follows
the code as written and proves each consequence as a lemma:

- `script.js` reads `this.elementss` in `clearNotifications` (script.js:530). A paste over a
  non-empty table therefore throws before its request, leaving the guard set for good.
- `script.js` tests `navigator.clipbard` (script.js:411), so the copy always takes the textarea
  fallback.
- `backend/types.py:79` starts the name set as `set("Anon")`, which holds the letters
  'A', 'n' and 'o'.
- `backend/csv_parser.py:46` calls `add_person` with two arguments, so any `%TEAM` row ends in
  `try_csv`'s error path.
- `backend/csv_parser.py` imports `parse_date` from `backend/dateutil.py`, which does not
  define it; the parser is a parameter here.
- `backend/app.py`: `try_json` always returns a pair, so the CSV and TSV fallbacks are never
  reached.
- `backend/schema.py` reports through `Severity.FATAL`, which is not defined. Its failure path
  therefore raises.
- `backend/milp_solve.py:149` records the subtask id, so the skip at line 141 never fires. An
  integer end date of 0 is falsy, so it gives no latest end.
- `backend_rewrite/expand.py:83` looks a name up in a map keyed by task objects. The lookup
  always misses, so no `next` list is rewired.
- `backend_rewrite/dot.py` compares a `Status` with strings, so the status colour is always
  white. It uses `SOON_THRESHOLD` and `Decoration`, which `backend_rewrite/types.py` does not
  define. The model takes the threshold 3 of `backend_rewrite/graph_metrics.py:20`.
- `backend_rewrite/calendar.py` tests its loop condition once per round of assignees. A walk can
  therefore overrun the end date or the estimate by up to one day less than the number of
  assignees.
- `backend_rewrite/scheduler.py:240` sums the estimates and raises when one is missing.
- `backend_rewrite/app.py:129-138` clears the selected tasks of the stored graph in place, but
  the stored decorations are a separate deep copy keyed by the tasks as they were. `InputTask`
  hashes by name and compares every field, so re-rendering raises KeyError whenever a selected
  task had a date or an assignee (`RwApp.ClearingScheduledFails`).
- `backend_rewrite/app.py`:
  - it imports functions that no file defines;
  - it calls the one-parameter `expand_parallelizable_tasks` with two arguments (line 107), so
    every call of `build_graph_and_schedule` with a positive step raises a type error
    (`RwApp.BuildAndScheduleAlwaysRaises`);
  - it calls `csv_string_to_task_list` with three (line 152), so `process` always answers 500.

These are followed as written rather than reported as separate findings, because they are the
behaviour the code has.

Some modules cannot run as written at all: they fail on import, or read fields that no class
defines. For these, the model takes the shape the surrounding code evidently expects, and
"## Left out" names each member concerned:

- `backend/scheduler.py:9` imports `busdays_offset`, which `backend/dateutil.py` does not define.
- `backend/milp_solve.py:7` imports `parse_date` and `busdays_offset` from `backend/dateutil.py`,
  which defines neither.
- `backend/app.py:5` imports `find_cycle`, `find_bad_start_end_dates`, `find_unstarted_items` and
  `compute_graph_metrics`. `backend/graph.py` defines only `compute_dag_metrics`.
- `backend/scheduler.py:109` reads `task.assigned`, and lines 123 and 163 append to
  `task.assignees`. `Task` in `backend/types.py` has neither field.
- `backend_rewrite/scheduler.py:180-185` and `:237` read `metadata.people_allocations` and
  `task.specific_assignments`, build `Person(p)` without an allocation, and index `teams` by name.
  The rewrite's `Metadata` (`backend_rewrite/types.py:80-92`) has no `people_allocations`, and
  its `teams` is a list. The model uses the registry shape that
  `backend_rewrite/scheduler_test.py:18-19` builds: a `people_allocations` map and a `teams`
  dictionary.
- `backend_rewrite/scheduler.py:15` annotates a parameter with `SchedulerFields`, and lines 54
  and 166 use `SchedulerAssignment`. No file defines either, and the module has no
  `from __future__ import annotations`, so importing it raises NameError.
- `InputTask` (`backend_rewrite/types.py:43-54`) has eight fields: name, assignees, next,
  estimate, start, end, status and input row index. It has no `description`,
  `specific_assignments`, `parallelizable` or `scheduler_fields`, yet `backend_rewrite/dot.py:40`,
  `backend_rewrite/expand.py:13` and `:58` and `backend_rewrite/scheduler.py:71`, `:181` and `:267`
  read them. `backend_rewrite/parse_csv.py:56` builds the eight-field record. The model's
  `InputTask` carries all twelve fields, and the parser fills the four extra ones with `""`,
  `false`, `false` and no scheduler fields.

## Model

| member | source | states |
|---|---|---|
| OrigApp.TryJsonOf | backend/json_parser.py:5-11 | try_json always returns a pair: the decoded value with a fresh Metadata and no new notification, or `(None, None)` with one "Invalid JSON" ERROR appended |
| OrigApp.CsvAttempt | backend/app.py:25-33 | a CSV attempt is always a pair: the kept rows with a Metadata exactly when try_csv completed, `(None, None)` otherwise, with try_csv's notifications |
| OrigApp.JsonAlwaysAnswers | backend/app.py:19-35 | since a 2-tuple is always truthy, parse_to_python returns the JSON attempt's result whatever the text is, never consulting the CSV reader; a decoder failure gives `(None, None)` |
| OrigApp.HeaderOnlyCsvIgnored | backend/app.py:19-35 | for the text `Task,next` (not JSON, a valid CSV header) the function as written answers `(None, None)` with the JSON error, while testing for produced content would have answered the empty task list |
| OrigApp.FallbackOrder | backend/app.py:19-35 | with the produced-content test: JSON when it decodes to something, else comma-separated CSV when it completes, else tab-separated, each answer with its own notifications; otherwise no parse and the three attempts' notifications in order |
| OrigApp.FallbackNotes | backend/app.py:35 | on total failure the notifications are at most one JSON error followed by exactly one ERROR per CSV attempt |
| OrigApp.Dicts | backend/app.py:52 | one dictionary per notification, in order, holding the severity's name and the message |
| OrigApp.SeverityNamesDistinct | backend/notification.py:4-7 | distinct severities serialise to distinct names |
| OrigApp.ItemsOf | backend/schema.py:7 | iterating a parse result visits the two members of the pair; iterating None raises TypeError |
| OrigApp.RespondSucceeds | backend/app.py:46-57 | `RespondOf`: the reply never escapes the try; it is the 200 body with the rendered image and the notifications the metrics left exactly when the result is a pair whose two members pass the schema check and neither metrics nor rendering raise; a schema failure gives the 500 body with the parser's notifications |
| OrigApp.SecondMemberFails | backend/schema.py:7-13 | a pair whose second member is Metadata or None fails the schema check, with the AttributeError of the undefined severity or one of its two TypeErrors |
| OrigApp.ParsesArePairs | backend/app.py:19-35 | every parse result is a pair whose second member is Metadata or None (or, with the fallback, no parse at all) |
| OrigApp.ProcessAlwaysFails | backend/app.py:38-57 | `ProcessOf` gives every request with content the 500 reply with exactly the parser's notifications and the message of the AttributeError or TypeError that verify_schema raises on the pair, whatever JSON value (object, string, number, list of strings, null) was decoded |
| OrigApp.FallbackStillFails | backend/app.py:44-57 | with the produced-content test the reply is still a 500 carrying the parser's notifications |
| OrigCalendar.Put | backend/scheduler.py:30-31 | `assign` appends the task to that date and person's list, changes no other list, and adds only that key |
| OrigCalendar.FreeDays | backend/scheduler.py:21-28 | the free-day count never exceeds the number of days in the range |
| OrigCalendar.FreeDaysAfterPut | backend/scheduler.py:21-31 | assigning a person a day in the range on which they were free takes exactly one free day away; any other assignment leaves the count alone |
| OrigCalendar.PutEntries | backend/scheduler.py:18-31 | after `assign` every key still holds a task and the person is busy that day |
| OrigCalendar.FreeDaysOfIdle | backend/scheduler.py:21-28 | a person never assigned is free on every day of the range |
| OrigCalendar.TaskCalendar.constructor | backend/scheduler.py:14-16 | a new calendar is empty |
| OrigCalendar.TaskCalendar.FreeDaysIn | backend/scheduler.py:21-28 | the day-by-day loop counts exactly the days of [start, end) on which the person is not busy |
| OrigCalendar.TaskCalendar.Assign | backend/scheduler.py:30-31 | performs exactly the append of `assign` |
| OrigCalendar.TaskCalendar.Add | backend/scheduler.py:33-37 | every date and person's list becomes the old list followed by the other calendar's list, and filled keys stay filled |
| OrigCalendar.TaskCalendar.AssignAll | backend/scheduler.py:36-37 | the innermost loop appends one date and person's tasks in order |
| OrigCalendar.AddBusy | backend/scheduler.py:18-37 | after `add`, a person is busy on a day exactly when either calendar had them busy |
| OrigCsvParser.IndexOf | backend/csv_parser.py:26 | `headers.index('next')` is the first position holding `next` |
| OrigCsvParser.StrippedCells | backend/csv_parser.py:62 | each value of the row dictionary is its cell with white space stripped |
| OrigCsvParser.Zip | backend/csv_parser.py:62 | every header among the zipped pairs becomes a key |
| OrigCsvParser.ZipLastWins | backend/csv_parser.py:62 | a repeated header takes the value of its last column |
| OrigCsvParser.NextCells | backend/csv_parser.py:64 | the `next` list holds only non-blank stripped cells |
| OrigCsvParser.RowDict | backend/csv_parser.py:62-64 | every header left of `next` (within the row) is a key, and `next` holds the list of non-blank stripped cells from the `next` column on |
| OrigCsvParser.TeamRow | backend/csv_parser.py:43-47 | a `%TEAM` row shorter than 3 cells raises; otherwise it raises exactly when a member cell is non-blank, since `add_person` is called with two of its three arguments; without members the row is skipped |
| OrigCsvParser.SettingRow | backend/csv_parser.py:48-59 | a `%START`, `%END` or `%MINSLACK` row without a value cell raises; on success it sets the corresponding setting |
| OrigCsvParser.ScanNamesTasks | backend/csv_parser.py:67-69 | every kept row names a task that is neither blank nor "Task" |
| OrigCsvParser.ScanFailureStays | backend/csv_parser.py:31-69 | an exception in one row is the loop's exception, whatever later rows hold |
| OrigCsvParser.ScanErrStep | backend/csv_parser.py:31 | the row after a failed prefix keeps the failure |
| OrigCsvParser.CsvToDataOf | backend/csv_parser.py:7-71 | no rows gives None and "CSV appears empty"; a header row without `Task` or without `next` gives None and the delimiter notice naming that column; a completed parse adds no notification |
| OrigCsvParser.TryCsvOf | backend/csv_parser.py:73-78 | an exception of the parse becomes None and one "Invalid CSV" ERROR appended to the notifications; otherwise the parse's result and notices pass through |
| OrigCsvParser.TryCsvNotifies | backend/csv_parser.py:73-78 | a completed parse leaves the notifications alone; every other outcome appends exactly one ERROR after the existing ones |
| OrigCsvParser.TeamRowFails | backend/csv_parser.py:43-47 | any reached `%TEAM` row naming a member ends the whole parse with the TypeError |
| OrigCsvParser.ScanFailsAt | backend/csv_parser.py:31-69 | a row that raises ends the whole parse with its exception |
| OrigCsvParser.KeptRowCells | backend/csv_parser.py:62 | each header before `next` maps to its own stripped cell when no later column repeats it |
| OrigCsvParser.CsvStringToData | backend/csv_parser.py:7-71 | the row loop fails, returns None or completes exactly as the parse function says; on completion the rows are the kept dictionaries, a fresh Metadata carries the dates and slack of the declarations and its registry is still empty |
| OrigCsvParser.TryCsv | backend/csv_parser.py:73-78 | returns the rows and a fresh metadata object exactly when the parse completes, with the notifications try_csv produces |
| OrigCsvParser.TaskRowFilter | backend/csv_parser.py:61-69 | a non-declaration row is skipped exactly when its stripped Task cell is blank or "Task", and kept as its dictionary otherwise |
| OrigCsvParser.EmptyRowSkipped | backend/csv_parser.py:33-34 | an empty row is skipped |
| OrigCsvParser.EmptyCsvReported | backend/csv_parser.py:13-15 | an empty input yields None and one "CSV appears empty" ERROR |
| OrigDot.NodeName | backend/dot.py:27-35 | `replace(' ', '_')` keeps the length and every other character and leaves no blank |
| OrigDot.DescriptionColor | backend/dot.py:29 | the description cell is red exactly for a row whose Status is "blocked", lightblue otherwise |
| OrigDot.TextOr | backend/dot.py:31-32 | `item.get(key, '')` gives the empty string for a missing key and the cell's text otherwise |
| OrigDot.EdgeSeq | backend/dot.py:34-36 | one black edge statement per target, in order, to the target's blank-free name |
| OrigDot.BlockFails | backend/dot.py:27-36 | a row's pass fails exactly when its Description is missing or a list, or its StartDate, EndDate or Assignee is missing, with the error of the first such read; otherwise it is the node statement followed by the edge statements |
| OrigDot.BodyFails | backend/dot.py:25-36 | the loop completes exactly when every pass does; otherwise it stops with the first failing pass's error |
| OrigDot.BodyFailureStays | backend/dot.py:25 | passes after a failure change nothing |
| OrigDot.BodyConcat | backend/dot.py:25-36 | completed passes concatenate their statements in row order |
| OrigDot.FlattenCount | backend/dot.py:25-36 | the statements number one per row plus one per target |
| OrigDot.BlockIsStatements | backend/dot.py:33-36 | a complete row's pass is its node statement and then its edges |
| OrigDot.BodyIsStatements | backend/dot.py:25-36 | a completed loop emits one node statement per row, in row order, each followed by one edge per target |
| OrigDot.DotFileSucceeds | backend/dot.py:10-38 | generate_dot_file produces text exactly when every row has a string Task and the five cells its node reads; when names are fine, a failure is the node error of some faulty row |
| OrigDot.DotFileShape | backend/dot.py:22-38 | a produced file is the three header lines, one node per row with its edges, and the closing brace |
| OrigDot.AppendEdges | backend/dot.py:34-36 | the inner loop appends exactly the row's edge statements |
| OrigDot.RowBlock | backend/dot.py:27-36 | one pass of the row loop yields the row's block |
| OrigDot.AppendRows | backend/dot.py:25-36 | the row loop appends the concatenated passes, or returns the first failure |
| OrigDot.AppendRow | backend/dot.py:25-36 | one iteration extends the text by row k's pass or returns its failure |
| OrigDot.GenerateDotFile | backend/dot.py:10-38 | the imperative generator returns exactly `DotFileOf`, the file text or error described above |
| OrigDot.RowStatements | backend/dot.py:25-36 | one complete row gives its node statement and one edge statement per target |
| OrigDot.Blocks | backend/dot.py:25-36 | one pass (or error) per row, in row order |
| OrigDot.Parts | backend/dot.py:25-36 | the statements of every complete row, in row order |
| OrigGraph.NameOf | backend/graph.py:3 | a task's name key exists exactly when it has a string `Task` cell, and is that string |
| OrigGraph.TaskDictOf | backend/graph.py:3 | the dictionary comprehension succeeds exactly when every task has a hashable name |
| OrigGraph.TaskDictLastWins | backend/graph.py:3 | each name maps to the last task that carries it |
| OrigGraph.EstimateOf | backend/graph.py:16 | a task without an Estimate key raises KeyError |
| OrigGraph.TotalWorkSplit | backend/graph.py:20 | the total work is additive over any split of the task list |
| OrigGraph.MaxPathIsMax | backend/graph.py:17 | `MaxPath`, the `max` over successors, is at least every successor's `LongestPath` and equals one of them |
| OrigGraph.LongestPathDepth | backend/graph.py:7-17 | a `LongestPath` result other than RecursionError does not depend on the recursion budget |
| OrigGraph.MaxPathDepth | backend/graph.py:17 | the same for `MaxPath`, the `max` over successors |
| OrigGraph.SelfLoopExhausts | backend/graph.py:7-17 | a task listed as its own successor recurses until RecursionError, whatever the budget |
| OrigGraph.SinkIsZero | backend/graph.py:13-14 | a task with an empty `next` has path length 0; its own estimate is not counted |
| OrigGraph.LongestOf | backend/graph.py:22 | `max` over no tasks raises |
| OrigGraph.LongestOfIsMax | backend/graph.py:22 | the longest path is at least every task's own longest path and equals one of them |
| OrigGraph.DagMetricsOf | backend/graph.py:1-24 | on success the first value is the total work and the second the longest path over the name dictionary; an empty task list raises from `max` |
| OrigGraph.TotalWorkFront | backend/graph.py:20 | the total work of a list is its first estimate plus the total of the rest |
| OrigMilp.ExpandMembers | backend/milp_solve.py:171-173 | a name is in a task's pool exactly when it is a member of one of the team names assigned so far |
| OrigMilp.ExpandEmpty | backend/milp_solve.py:171-181 | the pool is empty exactly when no team name assigned so far lists anyone |
| OrigMilp.MixedAtTheRaise | backend/milp_solve.py:177-178 | the exception is raised exactly at a direct name that follows a team listing someone; a direct name before every such team passes |
| OrigMilp.AllDirect | backend/milp_solve.py:170-184 | a task naming only direct people is accepted as named, its `scheduler_assigned` becoming the same list as `user_assigned`, and its pool is empty |
| OrigMilp.PoolIn | backend/milp_solve.py:170-178 | the inner loop raises for the task exactly when its names mix teams and people that way, and otherwise builds the pool of every listed team's members, in order |
| OrigMilp.BuildPools | backend/milp_solve.py:165-184 | the pool loop succeeds exactly when no task mixes names, then gives each task its pool (everyone when it names nobody); otherwise it reports the first task that mixes them |
| OrigMilp.Names | backend/milp_solve.py:191-193 | the graph's task names, in iteration order |
| OrigMilp.IndexedInverse | backend/milp_solve.py:188-193 | distinct people or tasks numbered by position map to their number and back |
| OrigMilp.DensePeople | backend/milp_solve.py:188-190 | `person_id_to_person` lists every person at their position and `person_to_person_id` maps each back |
| OrigMilp.DenseTasks | backend/milp_solve.py:191-193 | `id_to_task` lists every task at its position and `task_to_id` maps each name back |
| OrigMilp.LatestEnd | backend/milp_solve.py:197-204 | no latest end for a missing or zero end; an integer end as it is; a date end as the business days from today that lead to it |
| OrigMilp.SetLatestEnds | backend/milp_solve.py:197-204 | every task gets its latest end and nothing else changes |
| OrigMilp.Parts | backend/milp_solve.py:54-57 | the subtask ids `{id}_person_{i}` of one task, one per person already assigned, in order |
| OrigMilp.PartOwnersMembership | backend/milp_solve.py:58 | exactly a task's subtask ids map back to it |
| OrigMilp.OwnersMembership | backend/milp_solve.py:45-66 | exactly the subtask ids of split tasks are in `subtask_id_to_task_id`, each mapping to its own task |
| OrigMilp.KeysMembership | backend/milp_solve.py:45-66 | the start variables are the ids of unsplit tasks and the subtask ids of split ones |
| OrigMilp.KeysDistinct | backend/milp_solve.py:45-66 | no start variable id is registered twice |
| OrigMilp.SubtasksMembership | backend/milp_solve.py:47-66 | `task_to_subtasks` holds exactly the tasks with people already assigned, with their subtask ids |
| OrigMilp.RegisteredWellKeyed | backend/milp_solve.py:45-66 | the ids are distinct, and a split task's own id is not among them |
| OrigMilp.EffectiveId | backend/milp_solve.py:29-30 | a split task's first subtask id, the task's own id otherwise; an empty subtask list raises IndexError |
| OrigMilp.EffectiveIdMapsBack | backend/milp_solve.py:29-30 | every task's effective id is a start variable that maps back to the task |
| OrigMilp.SplitTask | backend/milp_solve.py:54-58 | the inner loop lists the task's subtask ids and registers each as owned by the task |
| OrigMilp.DirectUnregistered | backend/milp_solve.py:158-184 | a task naming only direct people, one of whom is not in the registry, leaves a name with no person id |
| OrigMilp.RegisterTasks | backend/milp_solve.py:45-66 | the registration loop raises KeyError exactly when some task's pool (nobody assigned yet) or assigned people hold a name with no person id; otherwise it builds exactly the start variable ids, `task_to_subtasks` and `subtask_id_to_task_id` that `KeysOf`, `SubtasksOf` and `OwnersOf` describe |
| OrigMilp.NeverSkips | backend/milp_solve.py:137-149 | with those maps the skip never fires, because the processed set records the subtask id rather than the original: every start variable yields one record, and a lookup that misses (`id_to_task`, `person_id_to_person`) raises KeyError |
| OrigMilp.CollectResults | backend/milp_solve.py:125-151 | an infeasible or failed solve gives `([], -1)`; a solved model the collected records and the makespan, or the collection's KeyError |
| OrigMilp.FailedStays | backend/milp_solve.py:138-149 | once collecting has raised, later ids change nothing |
| OrigMilp.ApplyFacts | backend/milp_solve.py:207-210 | after the loop each task carries every person the solver gave it, in result order, also in `scheduler_assigned` when that is the same list, and the dates of its last result; it raises KeyError exactly when a result names an id with no task |
| OrigMilp.AliasKept | backend/milp_solve.py:182-210 | a task whose `scheduler_assigned` is its `user_assigned` list still has the two equal after the results are appended |
| OrigMilp.ApplyLength | backend/milp_solve.py:207-210 | applying the results keeps the number of tasks |
| OrigMilp.ApplyResults | backend/milp_solve.py:207-210 | the loop computes `ApplyOf`, the results written back one at a time |
| OrigMilp.AppliedFacts | backend/milp_solve.py:207-210 | when every result names a task, writing them back succeeds and gives each task the solver's people, in both lists when they are one list, with pool and latest end unchanged |
| OrigMilp.PreparedAll | backend/milp_solve.py:165-204 | one prepared task per graph task, each with its pool and its latest end |
| OrigMilp.ApplyFailedStays | backend/milp_solve.py:207-210 | once applying has raised, later results change nothing |
| OrigMilp.MilpScheduleGraph | backend/milp_solve.py:153-211 | milp_schedule_graph raises for the first task that mixes names, and KeyError when a prepared task needs a person id the registry lacks; on success every prepared task is registered, each task has its pool, its latest end and its assigned people plus the solver's (`scheduler_assigned` too when it is the same list), the records number one per start variable, and a failed solve gives no records, makespan -1 and the prepared tasks |
| OrigPeople.TeamExprSound | backend/scheduler.py:40-52 | a full match of `([^(]+)\(([0-9]+)\)` splits the name into a non-empty team without '(' and a digit string, in that layout |
| OrigPeople.TeamExprComplete | backend/scheduler.py:40-52 | every name of that layout matches, with those two groups |
| OrigPeople.IndexOfKey | backend/scheduler.py:47 | the position of a dictionary key is its first occurrence, or the length when absent |
| OrigPeople.LookupSet | backend/scheduler.py:57-81 | `teams[k] = g` keeps keys distinct, makes `k` hold `g` and leaves every other key as it was |
| OrigPeople.LookupDel | backend/scheduler.py:79 | `del teams[k]` keeps keys distinct, removes `k` and leaves every other key as it was |
| OrigPeople.AddUnique | backend/scheduler.py:65 | `people.add(name)` holds the old members and the name, each once |
| OrigPeople.NameStepFacts | backend/scheduler.py:48-68 | one name raises exactly when it is neither a known team's `T(N)` with N at least 1, nor a team, nor a person; it adds to the people set only for a person name, and keeps each team entry holding its team's full member list |
| OrigPeople.CollectOk | backend/scheduler.py:48-68 | the first loop succeeds exactly when every name is acceptable |
| OrigPeople.CollectShaped | backend/scheduler.py:46-68 | the first loop lists registered people once each and keeps every team entry's members equal to the team's |
| OrigPeople.CollectPeople | backend/scheduler.py:61-66 | the people set holds exactly the assigned names that are persons (not team expressions, not teams) |
| OrigPeople.TeamExprEntry | backend/scheduler.py:50-57 | a known team's `T(N)` enters the team with all its members and N clamped to the team's size |
| OrigPeople.ZeroCountFails | backend/scheduler.py:55 | `T(0)` of a known team raises "Invalid team expression" |
| OrigPeople.RemoveFirst | backend/scheduler.py:77 | `list.remove(p)` takes away one occurrence of `p` and nothing else |
| OrigPeople.PersonStepByTeam | backend/scheduler.py:72-81 | a person's step changes only their own team's entry: one fewer, without them, or deleted at zero |
| OrigPeople.ReduceByTeam | backend/scheduler.py:72-81 | after the second loop each team's entry is the effect of its own people on it, one after another |
| OrigPeople.RemoveAll | backend/scheduler.py:77 | removing several people takes away exactly one occurrence of each |
| OrigPeople.TeamAfterClosed | backend/scheduler.py:72-81 | a team with count c assigned alongside k of its distinct members ends deleted when c is between 1 and k, and otherwise holds c - k with those members removed |
| OrigPeople.StillThere | backend/scheduler.py:77 | a member not yet removed is still in the pool |
| OrigPeople.Unsorted | backend/scheduler.py:85-88 | one group per person and per team entry, or the single Anon group when there are none |
| OrigPeople.StrLeTotal | backend/scheduler.py:89 | Python string comparison is total |
| OrigPeople.ListLeTotal | backend/scheduler.py:89 | Python list-of-strings comparison is total |
| OrigPeople.GroupLeTotal | backend/scheduler.py:89 | the `(N, people)` tuple order is total |
| OrigPeople.Insert | backend/scheduler.py:89 | one insertion keeps the groups sorted and adds exactly the new group |
| OrigPeople.SortGroups | backend/scheduler.py:89 | `output.sort()` returns the same groups, sorted |
| OrigPeople.NobodyMeansAnon | backend/scheduler.py:88 | no assigned names yields exactly one group: one of ["Anon"] |
| OrigPeople.MineFacts | backend/scheduler.py:72-74 | the people the second loop meets for one team are distinct members of that team |
| OrigPeople.ReduceNeverFails | backend/scheduler.py:72-81 | in a registry add_person built, the second loop never raises |
| OrigPeople.NextPersonFits | backend/scheduler.py:73-77 | the next person can always be removed from their team's entry |
| OrigPeople.SlotStaysOk | backend/scheduler.py:75-77 | a team entry, after some of its other members, still holds the next one |
| OrigPeople.TeamAfterAbsent | backend/scheduler.py:74 | a team that is not assigned is left alone by the second loop |
| OrigPeople.GetPeopleFails | backend/scheduler.py:45-90 | in a well-formed registry, get_people raises exactly when some name is neither a known team's `T(N)` with N at least 1, nor a team, nor a person |
| OrigPeople.GetPeople | backend/scheduler.py:45-90 | the two loops and the sort return exactly get_people's groups or its exception |
| OrigPeople.CollectFailureStays | backend/scheduler.py:48-68 | after the first bad name, later names change nothing |
| OrigPeople.ReduceFailureStays | backend/scheduler.py:72-81 | after the first failing person, later people change nothing |
| OrigPeople.ParenFrom | backend/scheduler.py:40 | the first '(' from a position on, or the end when there is none |
| OrigPeople.MemberOfOwnTeam | backend/types.py:83-101 | in a registry add_person built, every person is a member of the team recorded for them |
| OrigScheduleGraph.PushStart | backend/scheduler.py:250-253 | a successor ends up with a start; a generated one no earlier than the bound; a set start never moves earlier and keeps its flag; no other field changes |
| OrigScheduleGraph.PushEnd | backend/scheduler.py:226-229 | a predecessor ends up with an end; a generated one no later than the bound; a set end never moves later and keeps its flag; no other field changes |
| OrigScheduleGraph.PushStartTwice | backend/scheduler.py:250-253 | pushing a successor's start to the same bound twice is the same as once |
| OrigScheduleGraph.PushEndTwice | backend/scheduler.py:226-229 | pushing a predecessor's end to the same bound twice is the same as once |
| OrigScheduleGraph.PushSuccs | backend/scheduler.py:249-253 | the loop over successors pushes the start of exactly the listed tasks and leaves the others alone |
| OrigScheduleGraph.PushPreds | backend/scheduler.py:225-229 | the loop over predecessors pushes the end of exactly the listed tasks and leaves the others alone |
| OrigScheduleGraph.FirstPass | backend/scheduler.py:192-194 | the fixed-date loop schedules, backwards, exactly the tasks with both dates, which only slide; the others are left alone |
| OrigScheduleGraph.FillBackward | backend/scheduler.py:205-217 | a task with an end (its own or the project's) becomes dated; a set end and its flag stay; a missing start becomes the end less the estimate |
| OrigScheduleGraph.BackwardSkip | backend/scheduler.py:205-207 | a task with no end date anywhere is skipped and what the earlier turns established still holds |
| OrigScheduleGraph.BackwardStep | backend/scheduler.py:205-229 | one scheduled turn of the backward pass keeps names, estimates and set dates, and establishes the slack along the edges into the task |
| OrigScheduleGraph.BackwardPass | backend/scheduler.py:200-229 | after the backward pass dates once set stay set; with a project end date every task is dated; along every edge into a task with an end, a generated predecessor end lies at least `min_slack` business days before the task starts |
| OrigScheduleGraph.BackwardFinal | backend/scheduler.py:200-229 | after the last backward turn every task has had its turn, with the guarantees BackwardPass states |
| OrigScheduleGraph.FillForward | backend/scheduler.py:239-244 | every task becomes dated; a set start and its flag stay; a missing end becomes start plus estimate |
| OrigScheduleGraph.ForwardStep | backend/scheduler.py:235-253 | one forward turn keeps names and estimates, dates the task and establishes the slack along the edges out of it |
| OrigScheduleGraph.ForwardFinal | backend/scheduler.py:235-253 | after the last forward turn every task is dated and every edge keeps the slack |
| OrigScheduleGraph.ForwardPass | backend/scheduler.py:234-253 | after the forward pass every task is dated; a task without an end ends `estimate` business days after its start; along every edge a generated successor start lies at least `min_slack` business days after its predecessor's end |
| OrigScheduleGraph.ScheduleGraph | backend/scheduler.py:188-253 | schedule_graph either raises or returns every task dated, with its name and estimate, with the slack kept along every edge whose successor start was generated |
| OrigSchedulers.Times | backend/scheduler.py:110-122 | `range(n)` turns n times for positive n and never otherwise |
| OrigSchedulers.AheadOfDay | backend/scheduler.py:118-125 | the d-th day of a walk (`busdays_offset(date, d * step)`) lies d steps ahead of the initial date |
| OrigSchedulers.AssignDaysEntry | backend/scheduler.py:124-125 | booking `estimate` consecutive days adds the task once to each of those days, for that person only |
| OrigSchedulers.Repeat | backend/scheduler.py:124-125 | a task repeated n times is a list of length n |
| OrigSchedulers.BookedOne | backend/scheduler.py:121-125 | taking one more person keeps every person's list equal to the old one plus the task once per time they were taken, on each walk day |
| OrigSchedulers.TakeFirstFacts | backend/scheduler.py:121-123 | taking the first i of a group raises IndexError exactly when it lists fewer than i people, and otherwise appends those i to the assignees |
| OrigSchedulers.TakeFirstBooks | backend/scheduler.py:121-125 | each person taken from a group is booked once on each of the walk's days and nowhere else |
| OrigSchedulers.TakeGroupsFacts | backend/scheduler.py:117-125 | the assigning scheduler raises IndexError exactly when some group asks for more people than it lists; otherwise the assignees gain the first N of each group |
| OrigSchedulers.TakeGroupsBooks | backend/scheduler.py:117-125 | over several groups, each taken person gains the task once per time taken on each of the `estimate` walk days, and nothing elsewhere |
| OrigSchedulers.AssignEntries | backend/scheduler.py:117-125 | after a successful assigning run, person q's list on day x is the old one plus the task once per time q was taken when x is one of the `estimate` days from the initial date, and unchanged otherwise |
| OrigSchedulers.InsertRank | backend/scheduler.py:162 | inserting one more index into a descending, stable ranking keeps it ranked and holds the old indices and the new one |
| OrigSchedulers.RankOf | backend/scheduler.py:162 | `reversed(np.argsort(free, kind='stable'))` lists every index once, ordered by descending free days |
| OrigSchedulers.Reach | backend/scheduler.py:176-182 | a person has no calendar entry at or beyond this step of the walk |
| OrigSchedulers.ReachClear | backend/scheduler.py:176-182 | from that step on, the person is free on every day of the walk |
| OrigSchedulers.Horizon | backend/scheduler.py:176-182 | there is a step from which the person is free for good, so the `while days > 0` walk ends |
| OrigSchedulers.PutClear | backend/scheduler.py:179-180 | booking the current walk day keeps the days beyond it free |
| OrigSchedulers.WalkStep | backend/scheduler.py:176-182 | one turn of the walk books the day when the person is free on it and counts it, and skips it otherwise |
| OrigSchedulers.WalkEntry | backend/scheduler.py:176-182 | the walk adds the task only once, only to the walking person, and only on days they were free |
| OrigSchedulers.FreeOf | backend/scheduler.py:144 | one free-day count per person of a group, each from `free_days` over the task's dates |
| OrigSchedulers.FreeLists | backend/scheduler.py:143-145 | one free-day list per group |
| OrigSchedulers.Shift | backend/scheduler.py:188-189 | sliding a dated task one business day keeps it dated |
| OrigSchedulers.LevelFacts | backend/scheduler.py:138-189 | a leveling run that returns has slid the task without changing its length, and stopped at dates on which the pass settles; with a user-given date it keeps the first pass's dates; a run that raises reports IndexError or a run that never settled |
| OrigSchedulers.PickGroupsFails | backend/scheduler.py:158-169 | picking people only ever raises IndexError |
| OrigSchedulers.RankedFirst | backend/scheduler.py:162-164 | the people a leveling pass takes from a group number N |
| OrigSchedulers.PickFacts | backend/scheduler.py:162-166 | picking N people from a group raises IndexError exactly when it lists fewer than N, and otherwise appends its first N by descending free days, with equal free-day counts taken in reverse listed order (the reversed stable argsort) |
| OrigSchedulers.EnoughAtMost | backend/scheduler.py:146 | the number of people with enough free days is at most the group's size |
| OrigSchedulers.LevelNeverSettles | backend/scheduler.py:140-189 | the `while True` loop does not end for a task with both dates generated and a group asking for more people than it lists |
| OrigSchedulers.FreeDaysTop | backend/scheduler.py:21-28 | the free days of a range are those of the range without its last day, plus one when the person is free on it |
| OrigSchedulers.WalkForwardWithin | backend/scheduler.py:176-182 | a forward walk with enough free days before the end date books nothing outside [start, end) |
| OrigSchedulers.WalkBackwardWithin | backend/scheduler.py:176-182 | a backward walk with enough free days after the start date books nothing outside [start, end) |
| OrigSchedulers.BookWithin | backend/scheduler.py:173-182 | a person picked with at least `estimate` free days in the task's range is booked only inside that range |
| OrigSchedulers.TakeFirstStays | backend/scheduler.py:121-122 | once taking from a group has raised, later turns change nothing |
| OrigSchedulers.TakeGroupsStays | backend/scheduler.py:120-122 | once the assigning scheduler has raised, later groups change nothing |
| OrigSchedulers.PickStays | backend/scheduler.py:164-165 | once picking from a group has raised, later turns change nothing |
| OrigSchedulers.PickGroupsStays | backend/scheduler.py:159-165 | once picking has raised, later groups change nothing |
| OrigSchedulers.AssignDaysIn | backend/scheduler.py:124-125 | the `for d in range(estimate)` loop leaves the calendar as consecutive booking describes |
| OrigSchedulers.WalkDayIn | backend/scheduler.py:177-182 | one turn of the `while days > 0` loop advances d, keeps the rest of the walk equal to what remains to book, and counts a day or moves towards the free horizon |
| OrigSchedulers.WalkIn | backend/scheduler.py:175-182 | the `while days > 0` loop ends and leaves the calendar as the walk describes |
| OrigSchedulers.TakeFirstIn | backend/scheduler.py:121-125 | the loop over one group returns what taking its first N describes, and the calendar holds that booking |
| OrigSchedulers.AssignSchedule | backend/scheduler.py:117-125 | `AssigningScheduler._schedule` raises exactly when the assigning specification does, with its error, and otherwise leaves its calendar and the task's appended assignees |
| OrigSchedulers.FreeListsIn | backend/scheduler.py:142-145 | the free-day lists of a pass, each from `free_days` |
| OrigSchedulers.PickStep | backend/scheduler.py:163-182 | picking one more person books the next ranked person by the rule their free days select |
| OrigSchedulers.PickIn | backend/scheduler.py:163-182 | the loop over one group returns what picking its ranked first N describes, and the calendar holds that booking |
| OrigSchedulers.PickGroupsIn | backend/scheduler.py:158-182 | the allocation of a settled pass books the ranked people of every group |
| OrigSchedulers.LevelSettles | backend/scheduler.py:151-184 | a pass that settles ends the run with the picked people or the picking's error |
| OrigSchedulers.LevelSlides | backend/scheduler.py:186-189 | a pass that does not settle slides both dates one business day and tries again |
| OrigSchedulers.LevelSchedule | backend/scheduler.py:138-189 | `GreedyLevelingScheduler._schedule` raises exactly when the leveling specification does, with its error, and otherwise leaves its calendar and the slid task it describes |
| OrigSchedulers.Scheduler.constructor | backend/scheduler.py:99-102 | a new scheduler has scheduled nothing and two empty calendars |
| OrigSchedulers.Scheduler.Call | backend/scheduler.py:104-115 | zero-estimate and already scheduled tasks leave everything alone; a get_people error leaves everything alone; otherwise only the calendar of the pass direction changes, as the chosen scheduler specifies, and the task is recorded once that succeeds; a returned task has only slid |
| OrigSchedulers.Scheduler.GetCalendar | backend/scheduler.py:127-131 | the merged calendar lists, per person and day, the backward entries and then the forward ones |
| OrigSchema.Contains | backend/schema.py:9 | `key in task` on a row dictionary tests its keys, on a string tests for a substring, on a list of strings tests its elements, on a list of rows is always false, and on a number, None or a Metadata object raises TypeError |
| OrigSchema.ItemCheckPasses | backend/schema.py:8-14 | the inner loop passes exactly while the item holds every expected key checked so far and, once Status is reached, only for a row with an allowed Status; a failure is the AttributeError of the undefined FATAL severity on a missing key or bad Status, TypeError for an item `in` cannot search, and TypeError for a string or list holding every key, which `task["Status"]` cannot index |
| OrigSchema.SchemaPasses | backend/schema.py:6-15 | verify_schema passes exactly when every item is a row with all six expected keys and a Status among the five allowed values; it can only fail with the AttributeError or one of the two TypeErrors |
| OrigSchema.SchemaFailureStays | backend/schema.py:7-11 | after the first failing item, later items never change the outcome |
| OrigSchema.ItemFailureStays | backend/schema.py:8-11 | after the first failing key, later keys never change the outcome |
| OrigSchema.RowsFailFatal | backend/schema.py:9-14 | on row dictionaries alone every failure is the AttributeError of `Severity.FATAL` |
| OrigSchema.FirstFailure | backend/schema.py:7-11 | a failure is the failure of one particular item's own check |
| OrigSchema.VerifySchema | backend/schema.py:6-15 | the nested loops return True exactly when the schema passes, otherwise raise that failure; the notification list comes back unchanged since each append raises first |
| OrigTypes.Elements | backend/graph.py:17 | iterating a list cell visits its entries; iterating a string cell visits its one-character strings, one per character |
| OrigTypes.ElementsTruthy | backend/graph.py:13 | a cell is truthy exactly when iterating it visits something |
| OrigTypes.ParseInt | backend/csv_parser.py:58 | `int()` succeeds only on a string with something left after stripping white space |
| OrigTypes.ParseIntMeaning | backend/csv_parser.py:58 | `int()` succeeds exactly when the stripped text is an optional sign before a numeral (digits, single underscores between digits); its magnitude is the numeral's value, negative after '-' |
| OrigTypes.NumeralExample | backend/csv_parser.py:58 | "1_000" is a numeral worth 1000 |
| OrigTypes.ParseIntUnderscore | backend/csv_parser.py:58 | `int("1_000")` is 1000 |
| OrigTypes.ParseIntRejectsUnderscores | backend/csv_parser.py:58 | a doubled, leading or trailing underscore makes `int()` fail |
| OrigTypes.DigitsAreNumeral | backend/graph.py:16 | a plain digit string is a numeral whose value is read from all its digits |
| OrigTypes.Show | backend/dot.py:33 | the f-string of a cell: a string as it is, a list as `[` + the entries' reprs joined by ", " + `]` |
| OrigTypes.Repr | backend/dot.py:33 | `repr` of a list entry is quoted at both ends with the quote Python picks, and unescaping its inside gives the entry back |
| OrigTypes.EscapeRoundTrip | backend/dot.py:33 | unescaping undoes `repr`'s escaping of backslashes, the quote, newline, carriage return and tab |
| OrigTypes.ReprOfPlain | backend/dot.py:33 | an entry without quotes, backslashes or those controls is shown between single quotes unchanged |
| OrigTypes.ParseIntRoundTrip | backend/graph.py:16 | `int(str(i)) == i` for every integer |
| OrigTypes.IntOf | backend/graph.py:16 | `int(cell)` raises TypeError on a list and succeeds on a string exactly when the string parses as an integer |
| OrigTypes.IdCounter.constructor | backend/types.py:18 | the class counter starts at 1 |
| OrigTypes.NewTask | backend/types.py:20-22 | a new task takes the counter's current value as its id and the counter moves up by one |
| OrigTypes.NewTasks | backend/types.py:18-22 | tasks built one after another get consecutive ids, hence strictly increasing ones, and the counter moves up by their number |
| OrigTypes.SameTaskIgnoresId | backend/types.py:51-57 | equality looks only at the name (a different id does not matter) and equal tasks hash alike |
| OrigTypes.AnonIsNotReserved | backend/types.py:71-79 | `set(self.ANON)` reserves the letters "A", "n", "o", not the name "Anon" |
| OrigTypes.AddPersonOf | backend/types.py:83-101 | add_person raises for a team named like the person and for a new team whose name is taken; it succeeds exactly when the person's name is free too, and then appends the person to the team, records the reverse index, the allocation and both names; a failure leaves teams and people unchanged |
| OrigTypes.AddPersonWellFormed | backend/types.py:83-101 | add_person keeps the registry well formed: every person listed once, in the team recorded for them, all names registered, no name both a team and a person |
| OrigTypes.AddPersonKeepsShape | backend/types.py:83-101 | the same, for any registry that was well formed before |
| OrigTypes.FailedAddReservesTeam | backend/types.py:89-97 | a person-name clash under a brand-new team still registers the team name, so the next add_person for that team fails with the team-name error |
| OrigTypes.Metadata.constructor | backend/types.py:73-81 | no dates, slack 0, no teams or people, only the letters of "Anon" registered, a well-formed registry |
| OrigTypes.Metadata.AddPerson | backend/types.py:83-101 | performs exactly add_person's update and outcome, leaves dates and slack alone and keeps the registry well formed |
| RwApp.NodeWithId | backend_rewrite/app.py:53-57 | the first node from a position whose scheduler id matches, or none when no later node has it |
| RwApp.FindNode | backend_rewrite/app.py:54-57 | the scan stops at the first node with the target id, or finds none |
| RwApp.IdsOf | backend_rewrite/app.py:65-66 | one scheduler id per descendant reported |
| RwApp.DescendantsOf | backend_rewrite/app.py:43-70 | a 404 with no descendants exactly when the node text is not digits, the user has no graph, or no node has that id; otherwise a 200 listing the target id and then its descendants' ids, remembered as the last selection |
| RwApp.NodeIndexDistinct | backend_rewrite/app.py:65-66 | different node names sit at different positions |
| RwApp.DescendantsDistinct | backend_rewrite/app.py:63-66 | the reply lists no id twice |
| RwApp.DescendantsListed | backend_rewrite/app.py:63-66 | a node's id follows the first place of the reply exactly when the node descends from the target |
| RwApp.DescendantAt | backend_rewrite/app.py:65-66 | a node's id is listed exactly when the node is a descendant |
| RwApp.RowIndices | backend_rewrite/app.py:80-82 | the name-to-row map holds every task name |
| RwApp.RowIndicesOwn | backend_rewrite/app.py:80-82 | with distinct names each task's entry is its own row index |
| RwApp.MaxRowIdx | backend_rewrite/app.py:84 | the largest row index of the tasks, reached by one of them |
| RwApp.PyIndex | backend_rewrite/app.py:88 | Python list indexing: an index in range is itself, a negative one counts from the end, others raise |
| RwApp.Fill | backend_rewrite/app.py:85-88 | storing tasks' lines keeps the list's length |
| RwApp.Blank | backend_rewrite/app.py:84 | `[None] * n` is n empty slots |
| RwApp.FillFailureStays | backend_rewrite/app.py:85-88 | once a store fails the rest of the fill fails with the same error |
| RwApp.FillSlots | backend_rewrite/app.py:85-88 | with every row index in range the fill never fails, and each slot holds the last task aimed at it |
| RwApp.SlotAtBlank | backend_rewrite/app.py:84-88 | a slot stays empty exactly when no task aims at it |
| RwApp.SlotAtOwn | backend_rewrite/app.py:86-88 | with distinct row indices the slot a task aims at holds that task's start, end and assignees |
| RwApp.PlanPlacesTasks | backend_rewrite/app.py:79-90 | for distinct names and distinct non-negative row indices the plan has `2 * max + 1` slots, each task's line at its row index, and every other slot empty |
| RwApp.CollectRowIndices | backend_rewrite/app.py:80-82 | the first loop builds the name-to-row map |
| RwApp.FillPlan | backend_rewrite/app.py:85-88 | the second loop, in place on the preallocated array, succeeds or fails as the fill does and leaves the filled list |
| RwApp.BuildPlan | backend_rewrite/app.py:79-90 | `build_plan` computes `PlanOf`: the plan or the error of an empty graph or an out-of-range row index |
| RwApp.CopyLines | backend_rewrite/app.py:75 | one copy line per plan slot |
| RwApp.CopyLineTabs | backend_rewrite/app.py:75 | a task's line has two tabs but an empty slot's has three, so an empty slot reads as one more column; neither holds a newline |
| RwApp.CopyTextLines | backend_rewrite/app.py:75 | splitting the copy text at newlines gives back one line per slot |
| RwApp.ClearedNodes | backend_rewrite/app.py:129-133 | clearing keeps the number of tasks |
| RwApp.ClearResetsSelected | backend_rewrite/app.py:129-133 | clearing resets exactly the selected tasks' start, end and assignees; other fields and unselected tasks are unchanged |
| RwApp.ClearIdempotent | backend_rewrite/app.py:129-133 | clearing the same selection twice changes nothing more |
| RwApp.ClearKeepsIndex | backend_rewrite/app.py:129-133 | clearing keeps names, so lookups by name find the same positions |
| RwApp.ClearNodes | backend_rewrite/app.py:129-133 | the clearing loop computes the cleared graph |
| RwApp.Session.constructor | backend_rewrite/app.py:28-35 | a new user id has no stored graph and no selection |
| RwApp.Session.Remember | backend_rewrite/app.py:159-160 | storing the graph and its separately copied decorations, keyed by the tasks as they were, keeps the selection |
| RwApp.Session.GetDescendants | backend_rewrite/app.py:43-70 | the reply is the descendants reply; only a 200 replaces the remembered selection; the stored plan is untouched |
| RwApp.Session.CopyText | backend_rewrite/app.py:73-76 | with no stored graph the lookup raises KeyError; otherwise the lines of `PlanOf` joined by newlines, or its error |
| RwApp.Session.ClearLastSelected | backend_rewrite/app.py:125-141 | without a remembered selection or a stored graph the lookup raises KeyError and nothing changes; otherwise the selected tasks of the stored graph are cleared in place (kept even when rendering fails), the stored decorations and the selection stay, and the reply is `DotFileOf` of the cleared graph |
| RwApp.ClearedWellFormed | backend_rewrite/app.py:129-133 | the cleared graph keeps every node's ids and every edge's endpoints |
| RwApp.ClearingScheduledFails | backend_rewrite/app.py:129-138 | when a selected task had a date or an assignee, re-rendering the cleared graph with the stored decorations raises KeyError |
| RwApp.Offsets | backend_rewrite/app.py:98 | `range(from, 80, step)`: starts at from, rises by step, stays below 80, and stops at the first value that would not |
| RwApp.SuccessAfterFailure | backend_rewrite/app.py:98-121 | an attempt without a truthy makespan does not end the loop: a first success after it, with the notifications gathered up to it, is the first success of the loop from that attempt on |
| RwApp.RaiseAfterFailure | backend_rewrite/app.py:98-121 | an attempt without a truthy makespan does not end the loop: the first exception after it is the first exception of the loop from that attempt on |
| RwApp.RetryOutcome | backend_rewrite/app.py:98-122 | the retry loop stops at the first attempt with a truthy makespan or the first that raises; when every attempt fails it reports no makespan, the last offset and the last attempt's graph; the notifications appended by every attempt that ran are kept, in order |
| RwApp.FirstAttemptRaises | backend_rewrite/app.py:98-108 | an exception in the first attempt (offset 0) propagates out of `build_graph_and_schedule` unchanged; no later offset is tried |
| RwApp.AttemptAsWritten | backend_rewrite/app.py:99-107 | one attempt as written never completes: it raises in its own steps up to the expansions, or else at line 107, where the one-parameter `expand_parallelizable_tasks` (backend_rewrite/expand.py:5) is called with two arguments |
| RwApp.BuildAndScheduleAlwaysRaises | backend_rewrite/app.py:98-107 | as written, `build_graph_and_schedule` with a positive step always raises: the first attempt's own exception, or the type error of line 107 |
| RwApp.ZeroMakespanRetries | backend_rewrite/app.py:116-122 | a makespan of zero counts as failure: if every attempt reports zero, none is accepted, and a warning naming the last offset follows the notifications of every attempt |
| RwApp.BuildGraphAndSchedule | backend_rewrite/app.py:92-122 | the retry loop, gathering each attempt's notifications, computes `BuildAndScheduleOf`, the retry specification that `RetryOutcome`, `ZeroMakespanRetries` and `BuildAndScheduleAlwaysRaises` characterise |
| RwApp.Process | backend_rewrite/app.py:143-171 | `process` always answers status 500: with the metadata error, or with the type error of calling the two-parameter task-list parser with three arguments |
| RwCalendar.TaskCalendar.constructor | backend_rewrite/calendar.py:12-16 | a new calendar is empty and has no date range |
| RwCalendar.TaskCalendar.Assign | backend_rewrite/calendar.py:32-33 | `assign` appends the task to that person's list for that date, keeping what was there, and leaves the range alone |
| RwCalendar.TaskCalendar.Add | backend_rewrite/calendar.py:35-39 | `add` appends every entry of the other calendar after this one's, per date and person, duplicates kept |
| RwCalendar.TaskCalendar.AssignAll | backend_rewrite/calendar.py:38-39 | the innermost loop of `add` appends one person's tasks for one date, in order |
| RwCalendar.TaskCalendar.PlaceTaskAt | backend_rewrite/calendar.py:21-29 | one turn of `from_graph` fails exactly when placing the task raises, with its TypeError, and otherwise leaves the calendar and range placing describes |
| RwCalendar.TaskCalendar.WalkTask | backend_rewrite/calendar.py:24-28 | the `while` loop leaves the calendar and the stopping date the walk describes |
| RwCalendar.TaskCalendar.AssignRound | backend_rewrite/calendar.py:25-28 | the inner `for` loop gives each assignee in turn the next business day |
| RwCalendar.TaskCalendar.FromGraph | backend_rewrite/calendar.py:18-30 | `from_graph` returns a new calendar holding `FromGraphOf`: every task's walk placed in graph order, or the first task's placing error |
| RwCalendar.PlaceFailureStays | backend_rewrite/calendar.py:20-29 | once placing a task has raised, later tasks change nothing |
| RwCalendar.WalkEndIs | backend_rewrite/calendar.py:24-28 | the date a walk stops at depends only on the task, not on the calendar |
| RwCalendar.WalkOverrun | backend_rewrite/calendar.py:24-28 | the loop test is made once per round, so the walk covers at least min(end - start, estimate) days and fewer than that plus the number of assignees |
| RwCalendar.Turn | backend_rewrite/calendar.py:25-27 | whose turn a day is in the rotation: an index below the number of assignees |
| RwCalendar.RoundEntries | backend_rewrite/calendar.py:25-28 | a round from day d gives day d + i to the i-th assignee and touches nothing else |
| RwCalendar.WalkEntries | backend_rewrite/calendar.py:24-28 | a walk appends the task once to each day before its stopping date, for the assignee whose turn it is, and nothing else |
| RwCalendar.PlacedWhenOk | backend_rewrite/calendar.py:18-30 | `from_graph` returns only when every task has a start, an end and, when it has days to fill, an estimate |
| RwCalendar.CalendarEntries | backend_rewrite/calendar.py:18-30 | the list for day x and person p holds exactly the tasks whose walk gives them that day, in graph order |
| RwCalendar.CalendarRange | backend_rewrite/calendar.py:22-29 | `min_date` is the earliest task start and `max_date` the latest date a walk reached |
| RwDot.TitleWrapsText | backend_rewrite/dot.py:13-14 | the title is the font-size tag, the text, and the closing tag, and the text can be read back between them |
| RwDot.StyleNesting | backend_rewrite/dot.py:16-24 | no style leaves the text alone; italic wraps it in `<i>`; bold wraps it in `<b>`, outside the italic when both are set |
| RwDot.BorderOf | backend_rewrite/dot.py:52-68 | red for an overdue task or a started one not in progress, light green for a started one in progress, light yellow for one starting within the soon threshold, black otherwise; width 2 only for black, 4 for every other colour |
| RwDot.SoonIsAhead | backend_rewrite/dot.py:59-66 | a light yellow border marks a start that lies ahead by one to `SOON_THRESHOLD` business days |
| RwDot.StatusColor | backend_rewrite/dot.py:103 | the three-column status colour is always white, because an enum status never equals the strings it is compared with |
| RwDot.LayoutOf | backend_rewrite/dot.py:75-111 | a zero estimate gives the milestone table whatever the status; otherwise Completed gives the done table, NotStarted the two-column table, and every other status the three-column one |
| RwDot.NodeStatementFrame | backend_rewrite/dot.py:77-81 | a node statement starts with the task's id and the label opening, and ends with the statement close |
| RwDot.MilestoneIgnoresStatus | backend_rewrite/dot.py:75-82 | a milestone's statement does not depend on the status |
| RwDot.EdgeStyleOf | backend_rewrite/dot.py:127-137 | red exactly for negative slack, black for a critical edge otherwise, gray for the rest; width 4 exactly for critical edges; no label for zero slack, `+Nd` ahead, `late Nd` behind |
| RwDot.EdgeStatements | backend_rewrite/dot.py:126-138 | one statement per entry of the `G.edges` view (`RwGraph.EdgeView`), which lists the edges grouped by source node in node order |
| RwDot.FirstUndecorated | backend_rewrite/dot.py:123 | the first node that no decoration key equals in every field, or none when every node is found |
| RwDot.NodeStatements | backend_rewrite/dot.py:123 | one statement per node, in node order |
| RwDot.DotFileFails | backend_rewrite/dot.py:123 | `DotFileOf` raises KeyError for exactly the first node that equals no decoration key in every field |
| RwDot.Framed | backend_rewrite/dot.py:115-140 | a text built of four parts begins with the first and ends with the last |
| RwDot.DotFileFrame | backend_rewrite/dot.py:115-140 | a file `DotFileOf` generates begins with the graph header and ends with the closing-brace line |
| RwDot.DotTextFrame | backend_rewrite/dot.py:115-140 | the text of a fully decorated graph begins with the graph header and ends with the closing-brace line |
| RwDot.AppendAll | backend_rewrite/dot.py:126-138 | the edge loop appends its statements in order |
| RwDot.GenerateDotFile | backend_rewrite/dot.py:113-141 | `generate_dot_file` computes `DotFileOf`: the header, the node statements joined by newlines, the edge statements in `G.edges` order and the closing brace, or the KeyError of the first node whose decoration lookup fails |
| RwExpand.Copies | backend_rewrite/expand.py:27-37 | a task of estimate e gains e - 1 copies, the i-th being link i of its chain |
| RwExpand.UnitEstimates | backend_rewrite/expand.py:22-30 | tasks of estimate 1 each add up to their number |
| RwExpand.LinkFields | backend_rewrite/expand.py:28-40 | every link has estimate 1, a numbered name and no start; it points at the next link, except the last, which gets the original `next` and end date |
| RwExpand.ChainLinks | backend_rewrite/expand.py:21-40 | a chain has `estimate` links: the task itself first, then the numbered copies |
| RwExpand.ChainEstimates | backend_rewrite/expand.py:16-37 | the chain's unit estimates add up to the original estimate |
| RwExpand.ChainWiring | backend_rewrite/expand.py:21-40 | each link's `next` names the following link and has no end date; the last link has the original `next` and end date |
| RwExpand.ChainNaming | backend_rewrite/expand.py:20-31 | the first link keeps the task's name and start; the copies are numbered `_chain_i` and have no start |
| RwExpand.ChainNamesDistinct | backend_rewrite/expand.py:29 | different link numbers give different names, none equal to the original |
| RwExpand.ParallelFoldShape | backend_rewrite/expand.py:12-41 | the loop keeps each task in place, parallelizable ones as their chain's head, collects the copies, and fails exactly when a parallelizable task has no estimate of at least 2 |
| RwExpand.ExpandParallelizableShape | backend_rewrite/expand.py:5-43 | non-parallelizable tasks come back unchanged and in place, each split task as its chain's head, the copies after all inputs; the assertion fails exactly for a parallelizable task without an estimate of at least 2 |
| RwExpand.SplitTask | backend_rewrite/expand.py:17-40 | building one chain, rewiring the previous link at each step, gives the chain's head and copies |
| RwExpand.ExpandParallelizableTasks | backend_rewrite/expand.py:5-43 | `expand_parallelizable_tasks` computes `ExpandParallelizable`, the fold over the tasks |
| RwExpand.ParallelFailureStays | backend_rewrite/expand.py:16 | once the assertion has failed, later tasks change nothing |
| RwExpand.SpecificCopies | backend_rewrite/expand.py:67-75 | one copy per assignee after the first, named `_specific_i`, holding only that assignee |
| RwExpand.NameLookupMisses | backend_rewrite/expand.py:83 | the subtask map is keyed by tasks, so a lookup by a successor's name finds nothing |
| RwExpand.SpecificFoldShape | backend_rewrite/expand.py:56-76 | tasks stay in place, a split one keeping only its first assignee; the map lists exactly the split tasks with their copies |
| RwExpand.Rewire | backend_rewrite/expand.py:81-84 | the rewiring loop leaves every task as it was, since its lookups all miss |
| RwExpand.ExpandSpecificTasks | backend_rewrite/expand.py:48-86 | `expand_specific_tasks` computes `ExpandSpecific`, the fold over the tasks: the tasks, their copies after them, and the map |
| RwGraph.NamesAreKeys | backend_rewrite/graph.py:12-13 | the dictionary's key order lists each key once |
| RwGraph.KeysAreTaskNames | backend_rewrite/graph.py:12-13 | a name is a key exactly when some task carries it |
| RwGraph.LatestIsLast | backend_rewrite/graph.py:13 | the task stored under a name is the last task with that name |
| RwGraph.NextPairsMembers | backend_rewrite/graph.py:14-15 | one task's pairs are its name with each entry of its `next` |
| RwGraph.PairsMembers | backend_rewrite/graph.py:12-15 | the collected pairs are exactly `(t.name, s)` for each task t and each s in its `next` |
| RwGraph.LinkedEdges | backend_rewrite/graph.py:21-30 | an edge joins two names exactly when some pair links them and both are defined; each carries the source's estimate, slack 0 and no critical mark; no two edges join the same names |
| RwGraph.GraphNodes | backend_rewrite/graph.py:9-20 | one node per distinct task name, and a name's node is the last task listed under it |
| RwGraph.NodesForNames | backend_rewrite/graph.py:19-20 | the nodes are the dictionary's values in key order, each under its own name |
| RwGraph.LatestNamed | backend_rewrite/graph.py:13 | every stored task is stored under its own name |
| RwGraph.GraphEdges | backend_rewrite/graph.py:9-32 | `u -> v` is an edge exactly when some task named u lists v in `next` and both names are defined; dangling references are dropped |
| RwGraph.CollectTasks | backend_rewrite/graph.py:10-15 | the first loop builds the name dictionary, its key order and the pair list |
| RwGraph.AddNodes | backend_rewrite/graph.py:19-20 | the node loop adds the dictionary's values in key order |
| RwGraph.AddEdges | backend_rewrite/graph.py:21-30 | the edge loop adds an edge per pair of defined names, an existing edge kept once |
| RwGraph.BuildGraph | backend_rewrite/graph.py:9-32 | `build_graph` computes the graph the specification functions describe |
| RwGraph.EdgesFrom | backend_rewrite/dot.py:126 | the edges out of one node are exactly the graph's edges with that source, in insertion order |
| RwGraph.EdgeView | backend_rewrite/dot.py:126 | `G.edges` lists only edges of the graph |
| RwGraph.EdgeViewMembers | backend_rewrite/dot.py:126 | an edge is listed exactly when it is an edge of the graph whose source is one of the nodes walked |
| RwGraph.EdgeViewGrouped | backend_rewrite/dot.py:126 | with distinct node names, no edge out of a later node is listed before an edge out of an earlier one |
| RwMetadata.RowContainsMetadata | backend_rewrite/metadata.py:6-7 | an empty row raises IndexError; otherwise true exactly when its first cell starts with '%' |
| RwMetadata.NonEmptyStripped | backend_rewrite/metadata.py:12 | the stripped member cells that are not empty, each already stripped |
| RwMetadata.ParsePeople | backend_rewrite/metadata.py:12 | each member text parsed as a person, in order, or the error of one that fails |
| RwMetadata.ParseTeam | backend_rewrite/metadata.py:9-17 | a parsed team is named by the stripped second cell and lists every later non-empty cell as a member; a declaration with no member raises |
| RwMetadata.Declarations | backend_rewrite/metadata.py:25-28 | one declaration per row |
| RwMetadata.OtherRowsIgnored | backend_rewrite/metadata.py:26-28 | rows that are not team declarations change nothing |
| RwMetadata.NonTeamRowsIgnored | backend_rewrite/metadata.py:25-28 | non-empty rows whose first cell is not `%TEAM` leave the registry unchanged |
| RwMetadata.FailureStopsScan | backend_rewrite/metadata.py:25-28 | once a row raises, later rows are not looked at |
| RwMetadata.DeclaredTeamsAreParsed | backend_rewrite/metadata.py:27-28 | every registered team is a successfully parsed declaration, in row order |
| RwMetadata.TeamsComeFromRows | backend_rewrite/metadata.py:25-28 | each registered team comes from a `%TEAM` row that parses to it |
| RwMetadata.AllMembersAppend | backend_rewrite/types.py:87-91 | adding a team adds its members to the people |
| RwMetadata.PeopleStep | backend_rewrite/types.py:87-91 | the people after one more team are the earlier people and all teams' members |
| RwMetadata.Register | backend_rewrite/metadata.py:25-28 | the loop registers the declared teams in row order and stops at the first failing row, the teams before it staying registered |
| RwMetadata.ExtractMetadata | backend_rewrite/metadata.py:20-30 | every `%TEAM` row after the header row is folded into the registry, whose people are all members, until a row fails |
| RwParseCsv.ParseDatesAndEstimates | backend_rewrite/parse_csv.py:9-17 | empty estimate and date cells give none; a present estimate must be all digits and reads as its value, and otherwise raises once both dates parse |
| RwParseCsv.ReadDate | backend_rewrite/parse_csv.py:10-11 | a date cell reads exactly when the date parser accepts it |
| RwParseCsv.MissingHeader | backend_rewrite/parse_csv.py:29-32 | no column is reported exactly when the header has every expected column; a reported one is expected and absent |
| RwParseCsv.IndexOf | backend_rewrite/parse_csv.py:36 | `headers.index('next')` is the first position of the column |
| RwParseCsv.RowDict | backend_rewrite/parse_csv.py:47 | the row dictionary's keys are exactly the header cells before the cut |
| RwParseCsv.RowDictLastWins | backend_rewrite/parse_csv.py:47 | the value under a key is the stripped cell of its last occurrence among the zipped pairs |
| RwParseCsv.Lookup | backend_rewrite/parse_csv.py:48-55 | a dictionary lookup succeeds exactly when the key is present, and otherwise raises KeyError naming it |
| RwParseCsv.TaskCellsOf | backend_rewrite/parse_csv.py:48-54 | the Task, Assignee, Estimate, StartDate and EndDate cells are read exactly when all five are in the row dictionary; otherwise the error names one of them |
| RwParseCsv.RowCells | backend_rewrite/parse_csv.py:41-49 | empty and metadata rows are skipped; a kept row's named cells come from its dictionary and its Task cell is not empty |
| RwParseCsv.TaskFromCells | backend_rewrite/parse_csv.py:52-56 | a date or estimate error is reported before the Status cell is looked up; a task keeps the Task cell as its name, the given `next`, the non-empty stripped comma-separated assignees, the parsed Status cell and the row index |
| RwParseCsv.MissingStatusOutcome | backend_rewrite/parse_csv.py:54-55 | a kept row with no Status cell fails with its date or estimate error if it has one, and with the missing Status key only otherwise |
| RwParseCsv.ParseRow | backend_rewrite/parse_csv.py:40-56 | one row after the header: skipped when empty or metadata; otherwise a task built from its dictionary, its trailing `next` cells, its assignees, its status and its row index |
| RwParseCsv.RowResults | backend_rewrite/parse_csv.py:39-59 | one result per row after the header, each parsed on its own with its index |
| RwParseCsv.CollectedTasks | backend_rewrite/parse_csv.py:38-59 | a successful loop holds exactly the tasks of the kept rows, in input order, skipping nothing else |
| RwParseCsv.CollectFails | backend_rewrite/parse_csv.py:39-59 | the loop raises the first failing row's error |
| RwParseCsv.CollectSucceeds | backend_rewrite/parse_csv.py:39-59 | with no failing row the loop succeeds |
| RwParseCsv.ParsedRowIndexes | backend_rewrite/parse_csv.py:39-56 | each task's row index is its row's index among the rows after the header, skipped rows counted |
| RwParseCsv.TaskList | backend_rewrite/parse_csv.py:24-32 | no rows raises "No data"; a header missing an expected column raises naming the first one missing |
| RwParseCsv.CsvStringToTaskList | backend_rewrite/parse_csv.py:19-61 | `csv_string_to_task_list`, given the parsed rows, computes the task list or the first error |
| RwParseCsv.CheckHeaders | backend_rewrite/parse_csv.py:30-32 | the header check reports the first expected column missing, in order |
| RwParseCsv.ParseRowLoop | backend_rewrite/parse_csv.py:38-59 | the row loop gives one task per kept row, or the first row's failure |
| RwParseCsv.CollectFailsAfter | backend_rewrite/parse_csv.py:39-59 | a failure after a clean prefix is the failure of the whole loop |
| RwParseCsv.CollectOkPrefix | backend_rewrite/parse_csv.py:39-59 | every row before the end of a successful loop succeeded |
| RwParseCsv.MissingIsFirst | backend_rewrite/parse_csv.py:30-32 | the column reported is the first one, in expected order, that the header lacks |
| RwScheduler.NextStop | backend_rewrite/scheduler.py:46-49 | the iterator skips exactly the excluded tasks before the first task that is not excluded or has no scheduler fields |
| RwScheduler.ValidTasks.constructor | backend_rewrite/scheduler.py:35-37 | a new iterator holds the tasks and no underlying iterator |
| RwScheduler.ValidTasks.Iter | backend_rewrite/scheduler.py:39-41 | `__iter__` restarts at the first task |
| RwScheduler.ValidTasks.Next | backend_rewrite/scheduler.py:43-49 | without `__iter__` the assertion fails; otherwise the next task not excluded, StopIteration at the end, or an AttributeError for a task without scheduler fields |
| RwScheduler.CollectValid | backend_rewrite/scheduler.py:39-49 | a `for` loop over `ValidTasks` visits what the iterator specification describes |
| RwScheduler.ValidPositions | backend_rewrite/scheduler.py:46-49 | the positions the iterator yields lie in range and rise strictly |
| RwScheduler.ValidTasksYield | backend_rewrite/scheduler.py:43-49 | when every task has scheduler fields, the loop visits the tasks at those positions, in order |
| RwScheduler.ValidPositionsIncluded | backend_rewrite/scheduler.py:47 | the positions visited are exactly those of the tasks not excluded |
| RwScheduler.PersonId | backend_rewrite/scheduler.py:236-239 | a person's id is a position holding them, or none when they are not listed |
| RwScheduler.PersonIdIsPosition | backend_rewrite/scheduler.py:236-239 | with distinct keys a person's id is their position |
| RwScheduler.SpecificIds | backend_rewrite/scheduler.py:182 | the ids of the named people in order, or KeyError for one that is not registered |
| RwScheduler.AddMembersDistinct | backend_rewrite/scheduler.py:183-186 | the pool is a set: no id enters it twice |
| RwScheduler.AddMembersIds | backend_rewrite/scheduler.py:185-186 | the pool grows by the ids of the team's members and by nothing else |
| RwScheduler.TeamPoolDistinct | backend_rewrite/scheduler.py:183-188 | the union of team pools holds each id once |
| RwScheduler.TeamPoolMembers | backend_rewrite/scheduler.py:183-188 | the pool is exactly the ids of the named teams' members |
| RwScheduler.GetAssignees | backend_rewrite/scheduler.py:177-188 | no assignees gives everyone as the pool; specific assignments give the named ids, one per assignee, and no pool; otherwise no specific ids and the teams' pool |
| RwScheduler.EndedTasksDropped | backend_rewrite/scheduler.py:198-199 | a task that ended before today is dropped, whatever else it has |
| RwScheduler.DerivedEstimate | backend_rewrite/scheduler.py:205-208 | with both dates and no estimate, the window runs from the later of today and the start to the end, and the work left fills it exactly |
| RwScheduler.MissingEstimateNeedsBothDates | backend_rewrite/scheduler.py:210-222 | without an estimate both dates are needed: no date raises "no way to infer estimate", one date raises "unexpected date layout" |
| RwScheduler.EstimatedWindow | backend_rewrite/scheduler.py:215-220 | with an estimate a missing end means the horizon and a missing start means today; the work left is the estimate less the days since the start, so a future start adds to it |
| RwScheduler.Horizon | backend_rewrite/scheduler.py:240 | the sum of estimates raises exactly when some task has none |
| RwScheduler.AllOkValues | backend_rewrite/scheduler.py:249-270 | a loop over tasks succeeds exactly when every step does, keeping every value in order; a failure is the first one met |
| RwScheduler.AllOkFailureStays | backend_rewrite/scheduler.py:249-257 | once a step has raised, later tasks change nothing |
| RwScheduler.AllOkStep | backend_rewrite/scheduler.py:249-257 | a step that succeeds appends its task |
| RwScheduler.AllOkStops | backend_rewrite/scheduler.py:249-257 | a failing step ends the loop with its error |
| RwScheduler.Prepared | backend_rewrite/scheduler.py:249-257 | one prepared task per graph task, under its position as id |
| RwScheduler.PreparedHaveFields | backend_rewrite/scheduler.py:249-257 | after the first loop every task carries scheduler fields whose id is its position |
| RwScheduler.PrepareFields | backend_rewrite/scheduler.py:250-255 | a task is excluded exactly when `densify_dates` drops it, and then its window is the whole horizon with no work; otherwise its window and work are what `densify_dates` gives; its assignee lists are `get_assignees`'s, and nothing else of it changes |
| RwScheduler.PreparedAt | backend_rewrite/scheduler.py:249-257 | the i-th task after the first loop is the i-th task prepared under id i |
| RwScheduler.HorizonIsTotal | backend_rewrite/scheduler.py:240 | the horizon is the total of the estimates |
| RwScheduler.NodeIndex | backend_rewrite/scheduler.py:102 | the position of the node with a given name, or none |
| RwScheduler.SuccessorCheck | backend_rewrite/scheduler.py:102-104 | a task's successors pass exactly when none is excluded; otherwise the first excluded one is reported |
| RwScheduler.DependencyCheck | backend_rewrite/scheduler.py:100-104 | scheduling passes the check exactly when no valid task depends on an excluded one, and otherwise raises for such a pair |
| RwScheduler.CheckSuccessors | backend_rewrite/scheduler.py:102-104 | the inner loop computes the successor check |
| RwScheduler.CheckDependencies | backend_rewrite/scheduler.py:101-104 | the outer loop over the valid tasks computes the dependency check |
| RwScheduler.Applied | backend_rewrite/scheduler.py:264-270 | valid tasks get the answer applied, excluded ones stay as they are |
| RwScheduler.ApplyFields | backend_rewrite/scheduler.py:265-270 | with an answer a valid task ends where the solver put it, starts there unless it is parallelizable with a start of its own, and is assigned the one chosen person |
| RwScheduler.AppliedAt | backend_rewrite/scheduler.py:264-270 | the i-th task after the second loop is the answer applied if it is valid, and unchanged otherwise |
| RwScheduler.MissingAnswerFails | backend_rewrite/scheduler.py:265 | a valid task the solver gave no answer for makes the lookup raise KeyError |
| RwScheduler.NoAnswerNoSolution | backend_rewrite/scheduler.py:260-274 | an empty answer gives no makespan, though every task got its fields and the edges stay |
| RwScheduler.DependencyOnDoneFails | backend_rewrite/scheduler.py:100-104 | a valid task that depends on an excluded one stops `find_solution` whatever the solver says |
| RwScheduler.PrepareTasks | backend_rewrite/scheduler.py:246-257 | the first loop numbers the tasks in graph order and gives each its scheduler fields with the offsets `DensifyDates` computes, or the first error |
| RwScheduler.ApplyAnswer | backend_rewrite/scheduler.py:264-270 | the second loop applies the answer to the valid tasks |
| RwScheduler.FindSolution | backend_rewrite/scheduler.py:230-274 | `find_solution`, given the solver's answer, computes `FindSolutionOf`: the graph with its tasks updated and the makespan, or none when the solver found nothing, or the first error |
| RwTypes.FindAt | backend_rewrite/types.py:26-41 | a key listed in the normalisation table finds that entry's status |
| RwTypes.FindAbsent | backend_rewrite/types.py:41 | a key not listed finds nothing |
| RwTypes.ParseStatus | backend_rewrite/types.py:40-41 | a status that is neither a listed spelling nor a member name raises a lookup error naming it |
| RwTypes.SpellingsLowerCase | backend_rewrite/types.py:26-38 | every listed spelling is empty or starts with a lower-case letter |
| RwTypes.CapitalisedNotSpelled | backend_rewrite/types.py:26-38 | a capitalised word is never a listed spelling |
| RwTypes.ParseStatusName | backend_rewrite/types.py:19-41 | every member name (`InProgress` ...) parses back to its member |
| RwTypes.ParseStatusUnknown | backend_rewrite/types.py:41 | a string that is neither a spelling nor a member name is rejected |
| RwTypes.ParseStatusSpelling | backend_rewrite/types.py:26-41 | each listed spelling, such as 'on hold', gives the status the table lists for it |
| RwTypes.Pow10 | backend_rewrite/types.py:60 | a power of ten is at least one |
| RwTypes.ValidateAndConvertFloat | backend_rewrite/types.py:59-64 | an accepted allocation is the number the text denotes and lies on [0, 1]; otherwise the text is not a number or is out of range |
| RwTypes.ValidateWholeNumber | backend_rewrite/types.py:59-64 | a whole number is accepted exactly when it is 0 or 1 |
| RwTypes.ParseDecimalDigits | backend_rewrite/types.py:60 | a plain digit string reads as its value |
| RwTypes.DigitsHaveNo | backend_rewrite/types.py:67 | a digit string contains no separator |
| RwTypes.ParsePerson | backend_rewrite/types.py:66-73 | a parsed person's name has no ':' and an allocation on [0, 1] |
| RwTypes.ParsePersonPlain | backend_rewrite/types.py:67-69 | without ':' the stripped text is the name and the allocation is 1 |
| RwTypes.ParsePersonRejects | backend_rewrite/types.py:70-73 | two or more ':' are always rejected, and so is one ':' when allocations are not allowed |
| RwTypes.PlainSpecification | backend_rewrite/types.py:67 | a `name:allocation` text with no surrounding space strips to itself |
| RwTypes.SplitSpecification | backend_rewrite/types.py:67 | splitting `name:allocation` at its one ':' gives the two parts |
| RwTypes.ParsePersonWithAllocation | backend_rewrite/types.py:70-71 | `name:allocation` gives that name with the validated allocation, or the validation's error |
| RwTypes.MemberSet | backend_rewrite/types.py:89-90 | the set of a team's members holds exactly the listed members |
| RwTypes.AllMembers | backend_rewrite/types.py:88-91 | every member of every team is among the people |
| RwTypes.Metadata.constructor | backend_rewrite/types.py:80-82 | a new registry has no teams and no people |
| RwTypes.Metadata.AddPerson | backend_rewrite/types.py:84-86 | adding a person to the set is a no-op when an equal person is present; teams are unchanged |
| RwTypes.Metadata.AddTeam | backend_rewrite/types.py:88-91 | registers every member, then appends a team with the same name and members |
| RwVerify.Judge | backend_rewrite/verify.py:6-8 | one assignee passes exactly when it parses to a registered person; a parse error is raised as it is; an unknown person raises naming the task and the person |
| RwVerify.FirstFailure | backend_rewrite/verify.py:4-8 | the first failing check, after only passing ones, or a pass when every check passes |
| RwVerify.TaskChecks | backend_rewrite/verify.py:5-8 | one check per assignee of the task, in order |
| RwVerify.TaskOutcomes | backend_rewrite/verify.py:4-8 | one outcome per task: the first failure among its assignees |
| RwVerify.VerifyPasses | backend_rewrite/verify.py:3-8 | `verify` passes exactly when every assignee of every task parses to a registered person |
| RwVerify.VerifyFailure | backend_rewrite/verify.py:3-8 | a failure is the check of some assignee that is not a registered person |
| RwVerify.UnassignedTasksPass | backend_rewrite/verify.py:4-5 | tasks that name nobody never make `verify` raise |
| RwVerify.AllocationMustMatch | backend_rewrite/verify.py:6-7 | membership compares the allocation too, so `name:alloc` with an allocation other than 1 is unknown when `name` is registered with allocation 1 |
| Text.Strip | backend_rewrite/parse_csv.py:47 | `str.strip()` leaves no white space at either end and never lengthens the text |
| Text.StripLeftSuffix | backend_rewrite/parse_csv.py:47 | what stripping the left end leaves is a suffix of the text |
| Text.StripRightPrefix | backend_rewrite/parse_csv.py:47 | what stripping the right end leaves is a prefix of the text |
| Text.StripSlice | backend_rewrite/parse_csv.py:47 | `Strip(s)` is the slice of `s` between a white-space prefix and a white-space suffix; with its own ends not white space (Text.Strip), it is the longest such slice |
| Text.StripOfPlain | backend_rewrite/types.py:67 | text without white space at either end strips to itself |
| Text.StripIdempotent | backend/csv_parser.py:62 | stripping twice is stripping once |
| Text.Join | backend_rewrite/dot.py:123 | `sep.join` of nothing is empty, and of one part is that part |
| Text.Split | backend_rewrite/parse_csv.py:53 | `s.split(c)` gives at least one piece and no piece holds the separator |
| Text.JoinSplit | backend_rewrite/app.py:75 | joining the pieces of a split with the same separator gives the text back |
| Text.SplitJoin | backend_rewrite/app.py:75 | splitting a join of separator-free parts gives the parts back |
| Text.SplitCount | backend_rewrite/types.py:67-68 | a split gives one piece more than the separator occurs |
| Text.SplitWithout | backend_rewrite/types.py:67-69 | splitting text without the separator gives the text alone |
| Text.SplitAfter | backend_rewrite/types.py:67 | splitting at the first separator peels off the text before it |
| Text.NatToString | backend_rewrite/dot.py:134 | `str(n)` of a natural number is a digit string |
| Text.NatToStringRoundTrip | backend_rewrite/parse_csv.py:16 | printing a number and reading it back gives the number |
| Text.Lower | frontend/static/script.js:539 | `toLowerCase()` on ASCII letters: upper-case letters become lower-case, everything else stays |
| Text.ReplaceChar | backend/dot.py:27-35 | `replace(' ', '_')` swaps every space for an underscore and changes nothing else |
| Viewer.Initial | frontend/static/script.js:3-26 | the page after construction and init: guard clear, no pan/zoom handle, empty table, paste prompt shown, copy button hidden with label "Copy Plan"; it satisfies the guard discipline and is not stuck |
| Viewer.RowsFor | frontend/static/script.js:486-490 | one row per notification, in array order, each the row addNotification builds |
| Viewer.AddNotification | frontend/static/script.js:534-543 | exactly one row is appended after the existing ones, carrying the severity text, the class `severity-cell severity-<lower-cased severity>` and the message; nothing else changes |
| Viewer.GuardMakesHandlersNoOps | frontend/static/script.js:403-404 | while `isProcessing` is set, both a paste and a copy click leave the whole state unchanged |
| Viewer.PasteSetsGuardFirst | frontend/static/script.js:447-458 | an unguarded paste sets the guard and shows the spinner before anything else; it throws exactly when the table already has rows, and otherwise hides the paste area and posts the pasted text |
| Viewer.PasteOverRowsSticks | frontend/static/script.js:528-532 | because of the misspelt `elementss`, a paste over a non-empty table leaves the guard set with nothing in flight (stuck), still within the guard discipline |
| Viewer.SettleClearsGuard | frontend/static/script.js:479-482 | whatever the /process outcome, the `finally` hides the spinner, clears the guard and leaves nothing in flight, preserving the guard discipline |
| Viewer.SuccessShowsEverything | frontend/static/script.js:485-513 | a 2xx body appends its notifications in order, shows the markup, the panel and the copy button and sets hasPastedContent; with an svg it creates a fresh pan/zoom handle with the configured options and resizes, fits and centres it on the container size |
| Viewer.RejectionShowsPasteArea | frontend/static/script.js:465-526 | a non-2xx body brings back the paste area with "Failed to load the image: " and its message, appends its notifications only when it has an array (then showing the panel), shows the copy button and leaves the diagram alone |
| Viewer.TransportFailureMessage | frontend/static/script.js:515-526 | a failure without a message appends nothing and reads "Failed to load the image: Unknown error" |
| Viewer.UndecodableImageKeepsRows | frontend/static/script.js:485-526 | when `atob` throws, the body's notifications stay in the table but the panel keeps its previous visibility and the paste area shows the exception's message |
| Viewer.CopyUsesFallback | frontend/static/script.js:403-435 | because `navigator.clipbard` is undefined the textarea fallback always runs: the text reaches the clipboard, the body keeps its nodes, the label reads "Copied!" with a restore of the old label pending, and the guard is released |
| Viewer.FeedbackReverts | frontend/static/script.js:438-445 | one feedback flash followed by its timer leaves the label as it was |
| Viewer.OverlappingFeedbackKeepsFirstMessage | frontend/static/script.js:438-445 | two flashes inside 2000 ms: the second saves the first message, so after both timers the label is the first message, not "Copy Plan" |
| Viewer.ResizeOrder | frontend/static/script.js:386-401 | without an svg resizing changes nothing; with one it records the container size and, with a handle, calls resize, fit, center on it in that order; guard and page are untouched |
| Viewer.StepPreservesValid | frontend/static/script.js:403-483 | every event, applied by `Step`, keeps the guard discipline (no request in flight and no spinner unless the guard is set) |
| Viewer.RunPreservesValid | frontend/static/script.js:403-483 | `Run` of any sequence of events from a valid state keeps the guard discipline |
| Viewer.StuckForever | frontend/static/script.js:447-532 | once the guard is set with nothing in flight, no sequence of events clears it or changes the table |
| Viewer.PastesIgnored | frontend/static/script.js:447-451 | pastes while the guard is set change nothing |
| Viewer.OnlyFirstPasteDispatched | frontend/static/script.js:447-464 | from an idle page with an empty table, a burst of pastes dispatches only the first text |
| Viewer.SVGViewer.constructor | frontend/static/script.js:3-26 | the object's fields are the initial page, which satisfies the guard discipline |
| Viewer.SVGViewer.ResizeHandler | frontend/static/script.js:386-401 | performs exactly the resize transition |
| Viewer.SVGViewer.AppendNotification | frontend/static/script.js:534-543 | appends exactly the row addNotification builds |
| Viewer.SVGViewer.AddAll | frontend/static/script.js:486-490 | the forEach loop appends the rows of all notifications in order and changes nothing else |
| Viewer.SVGViewer.ClearNotifications | frontend/static/script.js:528-532 | throws exactly when the table body has a first row, removing nothing |
| Viewer.SVGViewer.HandlePaste | frontend/static/script.js:447-483 | performs the paste transition, reporting whether the handler threw |
| Viewer.SVGViewer.HandleErrorResponse | frontend/static/script.js:515-526 | performs the error transition |
| Viewer.SVGViewer.HandleSuccessResponse | frontend/static/script.js:485-513 | appends the notifications, then either reports the decoding exception having changed nothing else or performs the markup transition |
| Viewer.SVGViewer.SettlePaste | frontend/static/script.js:465-483 | performs the whole /process continuation, `.catch` and `.finally` included |
| Viewer.SVGViewer.HandleCopyClick | frontend/static/script.js:403-408 | performs the copy-click transition |
| Viewer.SVGViewer.ShowButtonFeedback | frontend/static/script.js:438-445 | sets the label and queues a restore of the previous label |
| Viewer.SVGViewer.SettleCopy | frontend/static/script.js:409-435 | performs the /get-copy-text continuation |
| Viewer.SVGViewer.FireFeedbackTimer | frontend/static/script.js:442-444 | the oldest pending timer restores the label it saved |
| Viewer.SecondPasteScenario | frontend/static/script.js:447-532 | a first paste rejected with notifications shows the paste area again, yet the second paste dispatches nothing and leaves the guard set, so a following copy click is ignored too |

## Left out

- The constraint model and solve of the CP-SAT `schedule()` (backend_rewrite/scheduler.py:52-174) and of `milp_solve` (backend/milp_solve.py:32-114): the solver's answer is an input. Only the deterministic checks before the solve and the collection of results are modelled. One deterministic failure inside the model building is not modelled: a valid task with no assignees and no eligible assignees gets no person variable, because `assign_people_to_task` registers nothing for an empty list (backend_rewrite/scheduler.py:15-21), so as soon as one person is registered the loop at backend_rewrite/scheduler.py:121 raises KeyError; `RwScheduler.FindSolutionOf` takes the solver's answer for that case as well.
- RwApp.BuildGraphAndSchedule: one attempt (backend_rewrite/app.py:99-119) is a parameter, `RwApp.AttemptAsWritten` being the attempt as written; as written every call with a positive step raises (`RwApp.BuildAndScheduleAlwaysRaises`), so the behaviour after a completed attempt is modelled for the evidently intended attempt. An attempt that raises loses the notifications it appended, and the date read from the clock at line 97 is folded into the attempt parameter.
- The numpy business-day calendar: dates are business-day ordinals, so weekends and holidays are not modelled.
- `parse_date` and the date-string formats: a date parser is a parameter.
- `csv.reader` and `json.loads`: rows arrive as sequences of cells, and the JSON result is an input.
- The databases (`database.py`, `database_postgres.py`, `database_sqlite3.py`): SQL storage outside the planning logic.
- Flask routes, request parsing, cookies and the per-user global dictionaries: only the logic inside the handlers is modelled, with the session as an object.
- `generate_svg_graph` in both dot.py files (subprocess, temporary files, base64) and the Graphviz layout itself.
- `textwrap.wrap` and `html.escape`: the description wrapping is a function passed in.
- networkx internals: `nx.descendants` and the topological order are inputs; `backend_rewrite/graph_metrics.py` (longest path, float parallelism ratio) is not part of this model apart from its threshold constant.
- Floating point: allocations are exact reals read by a small decimal parser. Only the [0, 1] check is modelled, not the allocation/makespan inequality.
- Browser internals: CSS text and DOM construction (`applyStyles`, `restructureDOM`, `createPasteArea`), `fetch`, `svgPanZoom`, `atob`, the clipboard API and real timers. Their results are outcome parameters, and a timer is a queue entry.
- The client code for descendant highlighting and clearing a selection: it is not in `script.js`. Only its server side is modelled (RwApp).
- Notification and error records (`notification.py`, `error.py`): plain datatypes here.
- Aliasing: tasks are values, so two references to one mutated task object are not modelled. If an exception is raised halfway through a loop, the source may leave some task objects already updated; the model returns only the error.
- Set and dictionary iteration order: where Python iterates a set (people pools in `get_people` and `milp_solve`), the model fixes one order.
- The never-written cache of `backend/graph.py`: results do not depend on it.
- The unused graph and estimate dictionaries built by `backend/dot.py`.
- OrigGraph.DagMetricsOf: recursion depth is a fuel parameter. Running out of fuel stands for Python's recursion limit on cyclic or very deep graphs.
- OrigSchedulers.LevelSchedule: the `while True` of the greedy levelling scheduler runs for at most `passes` passes. A run that has not settled within the bound ends in the `NeverSettles` error instead of diverging.
- OrigSchedulers.Scheduler.Call: requires both task dates to be set. Every call site in `schedule_graph` sets them before calling.
- OrigScheduleGraph.ScheduleGraph: passes the levelling bound through, and takes the topological order as an input.
- OrigCalendar.TaskCalendar.Add: requires the other calendar to be a different object; `add(self)` is not modelled.
- RwCalendar.TaskCalendar.Add: requires the other calendar to be a different object; `add(self)` is not modelled.
- RwCalendar.TaskCalendar.FromGraph: requires that every task's walk ends. The source loops forever on a task whose walk starts with a positive estimate but no assignees.
- RwTypes.Metadata.constructor: models the first `Metadata()`. The source's class-level `teams` and `people` are shared by later instances, which the model represents as the one registry object passed along.
- RwScheduler.PersonId: the registry is `SchedMetadata`, the shape `backend_rewrite/scheduler_test.py:18-19` builds: the keys of a `people_allocations` dictionary and a name-keyed `teams` dictionary. The rewrite's `Metadata` (`backend_rewrite/types.py:80-92`) has neither, so as written `backend_rewrite/scheduler.py:180` and `:237` raise AttributeError.
- RwScheduler.SpecificIds: looks people up by name, where `backend_rewrite/scheduler.py:182` builds `Person(p)` without the allocation its dataclass requires, a TypeError as written. `specific_assignments` is one of the fields the model's `InputTask` adds.
- RwScheduler.TeamPoolDistinct: reads teams from the name-keyed dictionary of `backend_rewrite/scheduler_test.py:19`. As written, `backend_rewrite/scheduler.py:185` indexes the `teams` list of `backend_rewrite/types.py:81` with a string and raises TypeError.
- RwScheduler.TeamPoolMembers: reads teams from the same name-keyed dictionary, not the list `backend_rewrite/scheduler.py:185` indexes as written.
- RwScheduler.GetAssignees: uses the registry shape of `backend_rewrite/scheduler_test.py:18-19` for all three branches; as written each branch raises before returning.
- RwScheduler.FindSolution: numbers the people of `SchedMetadata`, standing in for `people_allocations` (`backend_rewrite/scheduler.py:237`), which the rewrite's `Metadata` does not define.
- OrigSchedulers.TakeFirstFacts: the fields `named` and `assignees` of `SchedTask` stand in for `task.assigned` and `task.assignees`, which `Task` in `backend/types.py` does not define. As written, the first append at `backend/scheduler.py:123` raises AttributeError.
- OrigSchedulers.TakeGroupsFacts: uses the stand-in `named` and `assignees` fields. As written, `backend/scheduler.py:109` and `:123` raise AttributeError before any person is taken.
- OrigSchedulers.PickFacts: uses the stand-in `assignees` field. As written, the append at `backend/scheduler.py:163` raises AttributeError.
- OrigSchedulers.AssignSchedule: uses the stand-in `named` and `assignees` fields in place of the `Task` fields `backend/scheduler.py:109-125` reads but `backend/types.py` does not define.
- OrigSchedulers.LevelSchedule: also uses the stand-in `named` and `assignees` fields (`backend/scheduler.py:109`, `:163`).
- OrigSchedulers.Scheduler.Call: also reads the stand-in `named` field for `task.assigned` (`backend/scheduler.py:109`). Like every member of `backend/scheduler.py`, it assumes the module loads, although its import of `busdays_offset` (line 9) fails.
- OrigMilp.MilpScheduleGraph: assumes `backend/milp_solve.py` loads, although its import of `parse_date` and `busdays_offset` (line 7) fails.
- OrigApp.ProcessAlwaysFails: assumes `backend/app.py` loads, although its import at line 5 names four functions `backend/graph.py` does not define.
- Text.Lower: lower-cases ASCII letters only, where JavaScript's `toLowerCase` maps all of Unicode. Severity names are ASCII.
- OrigTypes.ParseInt: reads ASCII digits only. Python's `int()` also accepts the other Unicode decimal digits (for example Arabic-Indic digits).
- OrigSchema.Contains: JSON values are a row dictionary of string or string-list cells, a string, a number or boolean, a list of strings, or null. A list mixing strings with other values, a list of numbers, nested objects and object cells that are numbers are not modelled; none of them changes a failing check into a passing one.
- OrigApp.ProcessAlwaysFails: proved for the JSON values `OrigSchema.Item` covers (see OrigSchema.Contains above); for the others the second member of the pair still fails the check, but this is not proved.
- OrigTypes.Repr: escapes backslashes, the quote, newline, carriage return and tab. The `\x..` and `\u....` escapes Python uses for other non-printable characters are not modelled.
- RwScheduler.FindSolution: also assumes `backend_rewrite/scheduler.py` loads, although its annotations name `SchedulerFields` and `SchedulerAssignment`, which no file defines (NameError on import). The same holds for every member of the RwScheduler module.
- RwExpand.ExpandParallelizableTasks: reads `parallelizable`, which `InputTask` in `backend_rewrite/types.py:43-54` does not define; as written `backend_rewrite/expand.py:13` raises AttributeError.
- RwExpand.ExpandSpecificTasks: reads `specific_assignments`, which `InputTask` does not define; as written `backend_rewrite/expand.py:58` raises AttributeError.
- RwDot.GenerateDotFile: reads `description`, which `InputTask` does not define; as written `backend_rewrite/dot.py:40` raises AttributeError.
- RwParseCsv.TaskFromCells: builds the model's twelve-field `InputTask`, filling `description`, `specific_assignments`, `parallelizable` and `scheduler_fields` with defaults, where `backend_rewrite/parse_csv.py:56` builds the eight-field record of `backend_rewrite/types.py:43-54`.
- Text.IsDigits: accepts only ASCII digits, a subset of what Python's `str.isdigit` accepts.
- RwTypes.ValidateAndConvertFloat: its decimal reader accepts an optional sign and digits with at most one decimal point. It rejects other forms Python's `float` accepts, such as `1e-1`, `inf` or `1_0`.
- The diagnostic `print`s of `backend_rewrite/expand.py:14` and `backend_rewrite/app.py:134-136`: console output only.
