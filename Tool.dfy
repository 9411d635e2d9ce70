/**
 * The two operations of the tool and the menu that chooses between them:
 * `fix_single`, `fix_bulk_future` and `main`. Operator input, the library
 * rows, the media-part paths, the filesystem and the clock are parameters;
 * the result says what the operation ends with, and for a write the SQL text
 * handed to the administrative command.
 */
module Tool {
  import opened Wrappers
  import opened Text
  import opened Prompts
  import opened Resolver
  import opened Planner
  import opened Statements

  datatype Outcome =
    | InvalidChoice                          // the menu answer was neither 1 nor 2
    | InvalidId                              // the id failed `isdigit()`
    | NotFound(id: ItemId)                   // no `metadata_items` row with that id
    | NoUsableCreationTime(paths: seq<Path>) // none of the track's files exists
    | NoFutureTracks                         // the bulk query returned no rows
    | NothingToUpdate                        // no bulk row resolved
    | Cancelled                              // the confirmation was not Y
    | Submitted(sql: string)                 // the batch passed to the administrative command

  /** What `fix_single` ends with, case by case. */
  ghost predicate SingleOutcome(idInput: string, answer: string, items: seq<LibraryItem>,
                                parts: MediaParts, fs: FileSystem, o: Outcome) {
    match ParseTrackId(idInput)
    case None => o == InvalidId
    case Some(id) =>
      match FindItem(items, id)
      case None => o == NotFound(id)
      case Some(track) =>
        var res := Resolve(PathsOf(parts, id), fs);
        if res.ts.None? then o == NoUsableCreationTime(res.paths)
        else if !Confirmed(answer) then o == Cancelled
        else o == Submitted(Script(StatementsFor(SingleUpdates(items, track, res.ts.value))))
  }

  /** What `fix_bulk_future` ends with, case by case. */
  ghost predicate BulkOutcome(now: Timestamp, answer: string, items: seq<LibraryItem>,
                              parts: MediaParts, fs: FileSystem, o: Outcome) {
    var rows := FutureTracks(items, now);
    var plan := PlanOf(rows, parts, fs);
    PlanOfWellFormed(rows, parts, fs);
    if rows == [] then o == NoFutureTracks
    else if plan.tracks == [] then o == NothingToUpdate
    else if !Confirmed(answer) then o == Cancelled
    else o == Submitted(Script(StatementsFor(PlannedUpdates(plan))))
  }

  /** The single-mode batch sets the track, then the parent if its row was found, to one timestamp. */
  lemma SingleScript(items: seq<LibraryItem>, track: LibraryItem, ts: Timestamp)
    ensures ReadScript(Script(StatementsFor(SingleUpdates(items, track, ts)))) ==
      Some([Assignment(ts, ts, track.id)] +
        if HasParentRow(items, track) then [Assignment(ts, ts, track.parentId.value)] else [])
  {
    var updates := SingleUpdates(items, track, ts);
    ScriptPerformsPlan(updates);
    assert IntendedAll(updates) == [Assignment(ts, ts, track.id)] +
      if HasParentRow(items, track) then [Assignment(ts, ts, track.parentId.value)] else [];
  }

  /**
   * `fix_single`: read the id, look up the track and its parent, resolve the
   * track's timestamp, ask for confirmation, and submit the track's update
   * followed by the parent's.
   */
  method FixSingle(idInput: string, answer: string, items: seq<LibraryItem>,
                   parts: MediaParts, fs: FileSystem) returns (o: Outcome)
    ensures SingleOutcome(idInput, answer, items, parts, fs, o)
    ensures o.Submitted? ==> Confirmed(answer) && ParseTrackId(idInput).Some?
    ensures o.Submitted? ==>
      var id := ParseTrackId(idInput).value;
      var track := FindItem(items, id).value;
      var ts := Resolve(PathsOf(parts, id), fs).ts.value;
      ReadScript(o.sql) == Some([Assignment(ts, ts, id)] +
        if HasParentRow(items, track) then [Assignment(ts, ts, track.parentId.value)] else [])
  {
    var parsed := ParseTrackId(idInput);
    if parsed.None? {
      return InvalidId;
    }
    var trackId := parsed.value;
    var row := FindItem(items, trackId);
    if row.None? {
      return NotFound(trackId);
    }
    var track := row.value;
    var r := ResolveCreationTime(PathsOf(parts, trackId), fs);
    if r.ts.None? {
      return NoUsableCreationTime(r.paths);
    }
    if !Confirmed(answer) {
      return Cancelled;
    }
    var updates := SingleUpdates(items, track, r.ts.value);
    SingleScript(items, track, r.ts.value);
    return Submitted(Script(StatementsFor(updates)));
  }

  /**
   * `fix_bulk_future`: select the future-dated tracks, plan the track and
   * parent writes, ask for confirmation, and submit every write in one batch.
   */
  method FixBulkFuture(now: Timestamp, answer: string, items: seq<LibraryItem>,
                       parts: MediaParts, fs: FileSystem) returns (o: Outcome)
    ensures BulkOutcome(now, answer, items, parts, fs, o)
    ensures o.Submitted? ==> Confirmed(answer)
    ensures o.Submitted? ==>
      var plan := PlanOf(FutureTracks(items, now), parts, fs);
      && plan.tracks != []
      && WellFormed(plan)
      && ReadScript(o.sql) == Some(IntendedAll(PlannedUpdates(plan)))
      && |IntendedAll(PlannedUpdates(plan))| == |plan.tracks| + |plan.parentMin|
  {
    var rows := FutureTracks(items, now);
    if rows == [] {
      return NoFutureTracks;
    }
    var plan := PlanBulk(rows, parts, fs);
    if plan.tracks == [] {
      return NothingToUpdate;
    }
    if !Confirmed(answer) {
      return Cancelled;
    }
    var statements := BulkStatements(plan);
    ScriptPerformsPlan(PlannedUpdates(plan));
    PlannedUpdatesCount(plan);
    return Submitted(Script(statements));
  }

  /** `main` after the environment check: the mode menu, then the chosen operation. */
  method Run(modeInput: string, idInput: string, answer: string, now: Timestamp,
             items: seq<LibraryItem>, parts: MediaParts, fs: FileSystem) returns (o: Outcome)
    ensures ChooseMode(modeInput) == None ==> o == InvalidChoice
    ensures ChooseMode(modeInput) == Some(SingleTrack) ==> SingleOutcome(idInput, answer, items, parts, fs, o)
    ensures ChooseMode(modeInput) == Some(BulkFuture) ==> BulkOutcome(now, answer, items, parts, fs, o)
    ensures o.Submitted? ==> Confirmed(answer)
  {
    match ChooseMode(modeInput)
    case None =>
      o := InvalidChoice;
    case Some(SingleTrack) =>
      o := FixSingle(idInput, answer, items, parts, fs);
    case Some(BulkFuture) =>
      o := FixBulkFuture(now, answer, items, parts, fs);
  }
}
