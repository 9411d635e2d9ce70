/** Worked examples of the resolver, the bulk planner and both operations on concrete libraries. */
module Scenarios {
  import opened Wrappers
  import opened Resolver
  import opened Planner
  import opened Text
  import opened Prompts
  import opened Statements
  import opened Tool

  /** Tracks 10 and 11 of album 99, both dated in the future. */
  const AlbumRows: seq<LibraryItem> := [
    LibraryItem(10, Some("A"), Some(4000000000), None, Some(99), TrackType),
    LibraryItem(11, Some("B"), Some(4000000000), None, Some(99), TrackType)]
  const AlbumParts: MediaParts := map[10 := ["/music/10.flac"], 11 := ["/music/11.flac"]]
  const AlbumFiles: FileSystem := map["/music/10.flac" := 2000000000, "/music/11.flac" := 1999999999]

  lemma AlbumTracksResolve()
    ensures ResolvedRows(AlbumRows, AlbumParts, AlbumFiles)
         == [Resolved(AlbumRows[0], 2000000000), Resolved(AlbumRows[1], 1999999999)]
  {
    assert ["/music/10.flac"][..0] == [];
    assert ["/music/11.flac"][..0] == [];
    assert TrackTime(AlbumParts, AlbumFiles, 10) == Some(2000000000);
    assert TrackTime(AlbumParts, AlbumFiles, 11) == Some(1999999999);
    assert AlbumRows[..1] == [AlbumRows[0]];
    assert AlbumRows[..1][..0] == [];
    assert ResolvedRows(AlbumRows[..1], AlbumParts, AlbumFiles) == [Resolved(AlbumRows[0], 2000000000)];
  }

  /** Both tracks keep their own times; the album takes the earlier one. */
  lemma AlbumPlan()
    ensures PlanOf(AlbumRows, AlbumParts, AlbumFiles)
         == BulkPlan([Update(10, 2000000000), Update(11, 1999999999)], [99], map[99 := 1999999999])
  {
    AlbumTracksResolve();
    var resolved := [Resolved(AlbumRows[0], 2000000000), Resolved(AlbumRows[1], 1999999999)];
    assert resolved[..1] == [resolved[0]];
    assert resolved[..1][..0] == [];
    assert ParentMinimums(resolved[..1]) == map[99 := 2000000000];
    assert ParentOrder(resolved[..1]) == [99];
    assert TrackUpdates(resolved) == [Update(10, 2000000000), Update(11, 1999999999)];
  }

  /** Two parts, one missing from disk: the remaining one decides. */
  lemma OneMissingPart()
    ensures Resolve(["/music/a.flac", "/music/b.flac"], map["/music/b.flac" := 1500000000])
         == Resolution(Some(1500000000), ["/music/a.flac", "/music/b.flac"])
  {
    var paths := ["/music/a.flac", "/music/b.flac"];
    var fs := map["/music/b.flac" := 1500000000];
    assert paths[..1] == ["/music/a.flac"];
    assert paths[..1][..0] == [];
    assert Earliest(paths[..1], fs) == None;
  }

  /** Track 500 has no parent and one file; the operator types its id with padding and confirms. */
  const LoneTrack := LibraryItem(500, Some("T"), Some(4000000000), None, None, TrackType)
  const LoneParts: MediaParts := map[500 := ["/music/500.flac"]]
  const LoneFiles: FileSystem := map["/music/500.flac" := 1000000000]

  /** The id as typed, with padding: " 500\n". */
  const LoneInput := " " + NatToString(500) + "\n"

  /** The padded id reads back as 500, and a lower-case "y" confirms. */
  lemma LoneTrackInput()
    ensures ParseTrackId(LoneInput) == Some(500)
    ensures Confirmed("y")
  {
    ParseTrackIdRoundTrip(" ", 500, "\n");
    StripPadded("", "y", "");
    assert "" + "y" + "" == "y";
    ConfirmedIff("y");
  }

  /** Track 500 is found, its file resolves, and its plan is the one pair. */
  lemma LoneTrackPlan()
    ensures FindItem([LoneTrack], 500) == Some(LoneTrack)
    ensures Resolve(PathsOf(LoneParts, 500), LoneFiles).ts == Some(1000000000)
    ensures SingleUpdates([LoneTrack], LoneTrack, 1000000000) == [Update(500, 1000000000)]
  {
    assert ["/music/500.flac"][..0] == [];
  }

  /** The single pair's batch sets both columns of track 500 and nothing else. */
  lemma LoneTrackScript()
    ensures ReadScript(Script(StatementsFor([Update(500, 1000000000)]))) == Some([Assignment(1000000000, 1000000000, 500)])
  {
    ScriptPerformsPlan([Update(500, 1000000000)]);
    assert IntendedAll([Update(500, 1000000000)]) == [Assignment(1000000000, 1000000000, 500)];
  }

  /** Single mode on track 500, confirmed, submits one batch that sets only track 500, to its file's time. */
  method SingleTrackFix() returns (o: Outcome)
    ensures o.Submitted?
    ensures ReadScript(o.sql) == Some([Assignment(1000000000, 1000000000, 500)])
  {
    LoneTrackInput();
    LoneTrackPlan();
    LoneTrackScript();
    o := FixSingle(LoneInput, "y", [LoneTrack], LoneParts, LoneFiles);
  }

  /** Both album tracks are dated after this clock reading. */
  const AlbumNow: Timestamp := 3000000000

  /** The bulk query returns both album rows, and the plan writes both tracks and then the album. */
  lemma AlbumBulkPlan()
    ensures FutureTracks(AlbumRows, AlbumNow) == AlbumRows
    ensures WellFormed(PlanOf(AlbumRows, AlbumParts, AlbumFiles))
    ensures PlannedUpdates(PlanOf(AlbumRows, AlbumParts, AlbumFiles))
         == [Update(10, 2000000000), Update(11, 1999999999), Update(99, 1999999999)]
  {
    assert IsFutureTrack(AlbumRows[0], AlbumNow) && IsFutureTrack(AlbumRows[1], AlbumNow);
    assert AlbumRows[1..] == [AlbumRows[1]] && AlbumRows[1..][1..] == [];
    assert FutureTracks(AlbumRows[1..], AlbumNow) == [AlbumRows[1]];
    assert AlbumRows == [AlbumRows[0]] + AlbumRows[1..];
    AlbumPlan();
    PlanOfWellFormed(AlbumRows, AlbumParts, AlbumFiles);
  }

  /** The album batch sets tracks 10 and 11 to their own times, then album 99 to the earlier one. */
  lemma AlbumScript()
    ensures ReadScript(Script(StatementsFor([Update(10, 2000000000), Update(11, 1999999999), Update(99, 1999999999)])))
         == Some([Assignment(2000000000, 2000000000, 10), Assignment(1999999999, 1999999999, 11),
                  Assignment(1999999999, 1999999999, 99)])
  {
    var us := [Update(10, 2000000000), Update(11, 1999999999), Update(99, 1999999999)];
    ScriptPerformsPlan(us);
    assert IntendedAll(us) == [Assignment(2000000000, 2000000000, 10), Assignment(1999999999, 1999999999, 11),
                               Assignment(1999999999, 1999999999, 99)];
  }

  /** Bulk mode on the album, confirmed, submits one batch with the three writes in that order. */
  method AlbumBulkFix() returns (o: Outcome)
    ensures o.Submitted?
    ensures ReadScript(o.sql)
         == Some([Assignment(2000000000, 2000000000, 10), Assignment(1999999999, 1999999999, 11),
                  Assignment(1999999999, 1999999999, 99)])
  {
    LoneTrackInput();
    AlbumBulkPlan();
    AlbumScript();
    o := FixBulkFuture(AlbumNow, "y", AlbumRows, AlbumParts, AlbumFiles);
  }
}
