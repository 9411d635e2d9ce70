# Plex music timestamp fixer — verified model

The tool repairs the `added_at` and `created_at` timestamps of music tracks in a
Plex library database. It takes each track's earliest file creation time and
writes it back through the Plex SQLite command. It has two modes:

- **single** (`fix_single`) fixes one track, chosen by id, and its album;
- **bulk** (`fix_bulk_future`) fixes every track dated in the future. Each album
  gets the earliest time among its fixed tracks.

This project models the decision and batching logic of
`update_plex_timestamp.py` in Dafny and proves what it promises. The database
reads, the filesystem, the clock and the operator's answers are inputs.

Modules:

- `Wrappers`: `Option`, standing for Python's `None`.
- `Text`: `str.strip()`, `upper()`, `isdigit()`, `int(s)` and `str(n)`, as far as the tool uses them.
- `Prompts`: the three operator gates (mode menu, numeric id, Y/N confirmation).
- `Resolver`: `get_creation_ts_for_track`. It is a method with the source's loop, proved equal to the function `Resolve`.
- `Planner`: the library rows, the bulk query's row filter, and the bulk planning loop (`PlanBulk`, proved equal to `PlanOf`). Python's insertion-ordered `parent_min_ts` is modelled as a map plus its key order. Also the single-mode plan.
- `Statements`: the `UPDATE` f-string and the `BEGIN; …; COMMIT;` batch. It also has readers (`ParseUpdate`, `DecodeScript`, `ReadScript`) that take the SQL text apart again, so that what a batch does can be stated as a round trip.
- `Tool`: `fix_single`, `fix_bulk_future` and the menu dispatch of `main`. Each returns an `Outcome`, which is either how the operation stopped or the SQL text it submits.
- `Scenarios`: worked examples on small libraries.

Modelling choices:

- The filesystem is a `map<Path, Timestamp>`. A path is a key exactly when `os.path.exists` is true, and its value is `os.path.getctime` in whole seconds.
- The media-parts query becomes a map from item id to its list of paths. An item with no entry has no parts.
- The `metadata_items` table becomes a sequence of rows, in table order.

Behaviour worth noting:

- Single mode writes the parent only when `parent_id` is set **and** the parent row was read with a non-null title (lines 126 and 145). A parent row that exists but has a `NULL` title is not written.
- The code emits the track statements in row order, then the parent statements in the dictionary's first-insertion order. The model keeps that order (`ParentOrder`).

## Model

| member | source | states |
|---|---|---|
| Text.Strip | update_plex_timestamp.py:74 | `strip()` leaves no whitespace at either end of its result |
| Text.StripPadded | update_plex_timestamp.py:74 | stripping text padded with whitespace on both sides gives back exactly the text |
| Text.NatToString | update_plex_timestamp.py:143 | `str(n)` is a non-empty digit string with no leading zero |
| Text.IntToString | update_plex_timestamp.py:143 | `str(i)` is non-empty and made of digits and `-` only (so it holds no `;`) |
| Text.NatToStringRoundTrip | update_plex_timestamp.py:78 | `int(str(n)) == n` |
| Prompts.ChooseMode | update_plex_timestamp.py:242-249 | mode 1 exactly when the stripped input is "1", mode 2 exactly when it is "2", and an invalid choice otherwise |
| Prompts.ParseTrackId | update_plex_timestamp.py:74-78 | an id is produced exactly when the stripped input passes `isdigit()` |
| Prompts.ParseTrackIdRoundTrip | update_plex_timestamp.py:74-78 | any decimal id, with any whitespace padding, is read back as that id |
| Prompts.ParseTrackIdRejects | update_plex_timestamp.py:75-77 | input with a non-digit inside its stripped part is rejected |
| Prompts.ConfirmedIff | update_plex_timestamp.py:137-138 | `strip().upper() == "Y"` holds exactly when the stripped answer is "y" or "Y" |
| Resolver.Min | update_plex_timestamp.py:48 | `min` returns an element of the list that is no greater than any element |
| Resolver.EarliestCharacterization | update_plex_timestamp.py:40-48 | the earliest time is absent exactly when no listed path exists; otherwise it is the creation time of a listed existing path and no later than any other listed existing path's |
| Resolver.MinOfCreationTimes | update_plex_timestamp.py:40-48 | the collected list is empty exactly when no listed path exists, and otherwise its `min` is the earliest existing creation time |
| Resolver.ResolveCharacterization | update_plex_timestamp.py:36-48 | no paths give `(None, [])`; `None` comes exactly when no listed path exists; otherwise the time is that of an existing path and no later than any existing path's; the full path list is always returned |
| Resolver.ResolveOrderIndependent | update_plex_timestamp.py:40-48 | two path lists with the same members resolve to the same time, whatever their order |
| Resolver.ResolveCreationTime | update_plex_timestamp.py:26-48 | the collecting loop followed by `min` returns exactly `Resolve` of the paths, whose meaning `ResolveCharacterization` states |
| Planner.FutureTracks | update_plex_timestamp.py:166-176 | a row is selected exactly when it is a track (type 10) whose `added_at` is set and later than `now` |
| Planner.FutureTracksAppend | update_plex_timestamp.py:166-176 | selection keeps the rows' relative order |
| Planner.ResolvedRowsMembers | update_plex_timestamp.py:187-193 | a row is kept, with timestamp t, exactly when it is an input row whose files resolve to t |
| Planner.ResolvedRowsAppend | update_plex_timestamp.py:187-193 | the kept rows stay in input row order |
| Planner.ParentMinimumsCorrect | update_plex_timestamp.py:195-197 | the running minimum gives a key exactly for the parents of resolved rows; each value is one child's timestamp and no later than any resolved child's |
| Planner.ParentMinimumUnique | update_plex_timestamp.py:185-197 | at most one map meets that description, so the loop's result is the only correct aggregate |
| Planner.ParentOrderWellFormed | update_plex_timestamp.py:195-197 | the dictionary's key order lists each key of `parent_min_ts` exactly once |
| Planner.PlanOfWellFormed | update_plex_timestamp.py:184-197 | every bulk plan's key order matches its parent map |
| Planner.BulkTracks | update_plex_timestamp.py:187-193 | `tracks_to_fix` holds exactly the resolving input rows, each with its own timestamp; unresolved rows are absent |
| Planner.BulkTracksInOrder | update_plex_timestamp.py:187-193 | planning a concatenation of rows concatenates the track lists, so `tracks_to_fix` keeps row order |
| Planner.BulkParents | update_plex_timestamp.py:185-197 | a parent gets a timestamp exactly when one of its rows resolves; that timestamp is the minimum over its resolved rows; unresolved or parentless rows contribute nothing |
| Planner.PlanBulk | update_plex_timestamp.py:184-197 | the planning loop computes `PlanOf` of the rows; its parent map is the per-parent minimum and its key order is well formed |
| Planner.FindItem | update_plex_timestamp.py:80-88 | the lookup returns a row with the requested id, and returns nothing exactly when no row has it |
| Planner.SingleUpdates | update_plex_timestamp.py:142-148 | single mode plans the track first; it adds the parent, with the same timestamp, exactly when the parent id is set and its row was found with a title |
| Statements.UpdateStatement | update_plex_timestamp.py:143 | an `UPDATE` statement contains no `;`, so it cannot break the batch apart |
| Statements.Script | update_plex_timestamp.py:150 | the batch starts with `BEGIN; ` and ends with `; COMMIT;` |
| Statements.ReadIntRoundTrip | update_plex_timestamp.py:143 | an interpolated integer followed by a non-digit is read back as that integer |
| Statements.UpdateStatementRoundTrip | update_plex_timestamp.py:142-148 | each statement sets both `added_at` and `created_at` to the planned timestamp, for the planned id and no other |
| Statements.SplitJoin | update_plex_timestamp.py:150 | splitting the `"; "`-join of `;`-free statements gives the statements back |
| Statements.ScriptRoundTrip | update_plex_timestamp.py:150 | a non-empty batch decodes to exactly the statements it was built from |
| Statements.ScriptPerformsPlan | update_plex_timestamp.py:215-225 | the submitted SQL of a non-empty plan performs exactly one assignment per planned pair, in plan order, each setting both fields to the pair's timestamp |
| Statements.PlannedUpdatesCount | update_plex_timestamp.py:215-223 | a bulk batch has `len(tracks_to_fix) + len(parent_min_ts)` statements |
| Statements.StatementsForSnoc | update_plex_timestamp.py:215-223 | appending a pair appends its statement, so the loops build the statements in plan order |
| Statements.BulkStatements | update_plex_timestamp.py:215-223 | the two loops emit one statement per track in order, then one per parent in key order; the count is tracks plus parent keys |
| Tool.SingleScript | update_plex_timestamp.py:142-151 | the single-mode batch sets both fields of the track to its time and, exactly when the parent row was found with a title, then those of the parent |
| Tool.FixSingle | update_plex_timestamp.py:70-157 | invalid id, missing row, unresolvable files and a declined confirmation each stop without SQL; otherwise the submitted batch sets the track, then the parent if its row was found with a non-null title, to the resolved time |
| Tool.FixBulkFuture | update_plex_timestamp.py:160-233 | no future rows, no resolving row and a declined confirmation each stop without SQL; otherwise the batch performs exactly the planned track and parent assignments, one per planned pair |
| Tool.Run | update_plex_timestamp.py:236-249 | an invalid mode does nothing; modes 1 and 2 behave as single and bulk mode; SQL is only ever submitted after a "Y" confirmation |
| Scenarios.AlbumTracksResolve | update_plex_timestamp.py:187-193 | both example tracks resolve to their files' creation times |
| Scenarios.AlbumPlan | update_plex_timestamp.py:184-197 | tracks 10 and 11 of album 99, with times 2000000000 and 1999999999, plan both tracks and album 99 at 1999999999 |
| Scenarios.OneMissingPart | update_plex_timestamp.py:36-48 | of two parts, one missing from disk, the existing one's time is used and both paths are reported |
| Scenarios.LoneTrackInput | update_plex_timestamp.py:74-78 | the id typed with padding as " 500\n" reads as 500, and a lower-case "y" confirms |
| Scenarios.LoneTrackPlan | update_plex_timestamp.py:80-148 | track 500 is found, its one file resolves to 1000000000, and having no parent it plans only its own pair |
| Scenarios.SingleTrackFix | update_plex_timestamp.py:70-157 | single mode on track 500, confirmed, submits a batch that sets both columns of track 500 to 1000000000 and writes nothing else |
| Scenarios.AlbumBulkPlan | update_plex_timestamp.py:166-223 | with the clock at 3000000000 both album rows are selected, and the writes are track 10, track 11, then album 99 at the earlier time |
| Scenarios.AlbumBulkFix | update_plex_timestamp.py:160-233 | bulk mode on the album, confirmed, submits a batch that sets tracks 10 and 11 to their own times and then album 99 to 1999999999 |

## Left out

- The `sqlite3` queries and connections (lines 27-35, 71, 80-100, 162-176). They are given as rows, a media-parts map and a filesystem map. The bulk query has no `ORDER BY`, so its row order is the store's; the model uses table order.
- `run_plex_sql` and `subprocess.run` (lines 51-67), with the exit-code handling and `sys.exit`. The model stops at the SQL text handed over (`Outcome.Submitted`). Whether BEGIN/COMMIT is atomic, and whether applying the batch twice changes nothing more, are properties of the store, not of this code.
- `ensure_paths` (lines 17-23): this only checks that the external binary and the database file exist.
- Floating-point creation times and their `int()` truncation (line 48). Creation times are integers here.
- `time.time()` (line 161): the current time is the parameter `now`.
- `human`, `time.ctime`, every `print`, and the 500-character display truncation (line 227). They affect only what is shown.
- The diagnostic re-listing of paths in single mode (lines 103-110) is left out; it calls `exists`/`getctime` a second time for display only.
- Text.Upper: folds ASCII letters only. Python upper-cases all of Unicode, but no other character upper-cases to "Y", so the confirmation gate is the same.
- Text.IsDigits and Prompts.ParseTrackId: only the ASCII digits 0-9 count as digits. Python's `isdigit()` (line 75) and `int()` (line 78) also accept every other Unicode decimal digit. For input such as "１２" (fullwidth digits) or "٣" (Arabic-Indic three), the source sets `track_id` to 12 or 3 and goes on to look up and update that track, while the model returns `InvalidId`. Digit characters that `isdigit()` accepts but that are not decimal digits, such as "²", pass line 75 and then make `int()` raise; that exception path is not modelled either. The Prompts.ParseTrackId row's "passes `isdigit()`" means this ASCII version.
- Prompts.ParseTrackId: ids are unbounded naturals. On Python 3.11 and later, `int()` at line 78 raises `ValueError` for a stripped digit string longer than 4300 characters; the model produces an id for it instead.
- Tool.FixSingle: no 64-bit bound on the id. For an id of 2^63 or more, such as 9223372036854775808, `sqlite3` raises `OverflowError` when it binds `track_id` at lines 80-83, and the tool stops with a traceback. The model looks the id up as usual and returns `NotFound` (or, for an over-long digit string, whatever the lookup gives). No SQL is written on these crash paths in either the source or the model.
