/**
 * The update planner of `fix_single` and `fix_bulk_future`: which
 * `(id, timestamp)` pairs are written. The library queries are replaced by
 * the rows they return and by the path list of each track's media parts.
 */
module Planner {
  import opened Wrappers
  import opened Resolver

  type ItemId = int

  /** `metadata_type` of a track. */
  const TrackType: int := 10

  /** A `metadata_items` row, with the columns the tool reads. */
  datatype LibraryItem = LibraryItem(
    id: ItemId,
    title: Option<string>,
    addedAt: Option<Timestamp>,
    createdAt: Option<Timestamp>,
    parentId: Option<ItemId>,
    metadataType: int)

  /** The file paths of each item's media parts; an item without parts maps to nothing. */
  type MediaParts = map<ItemId, seq<Path>>

  /** One planned write: both `added_at` and `created_at` of `id` become `ts`. */
  datatype Update = Update(id: ItemId, ts: Timestamp)

  function PathsOf(parts: MediaParts, id: ItemId): seq<Path> {
    if id in parts then parts[id] else []
  }

  /** The resolved timestamp of a track, or None when it cannot be resolved. */
  function TrackTime(parts: MediaParts, fs: FileSystem, id: ItemId): Option<Timestamp> {
    Resolve(PathsOf(parts, id), fs).ts
  }

  // ---------------------------------------------------------------------------
  // Selecting the rows of bulk mode

  /** The WHERE clause of the bulk query: a track whose `added_at` is set and later than `now`. */
  predicate IsFutureTrack(item: LibraryItem, now: Timestamp) {
    item.metadataType == TrackType && item.addedAt.Some? && item.addedAt.value > now
  }

  /** The rows the bulk query returns, in table order. */
  function FutureTracks(items: seq<LibraryItem>, now: Timestamp): (rows: seq<LibraryItem>)
    ensures forall r :: r in rows <==> r in items && IsFutureTrack(r, now)
  {
    if items == [] then []
    else (if IsFutureTrack(items[0], now) then [items[0]] else []) + FutureTracks(items[1..], now)
  }

  /** Selection keeps the relative order of the rows. */
  lemma {:induction false} FutureTracksAppend(a: seq<LibraryItem>, b: seq<LibraryItem>, now: Timestamp)
    ensures FutureTracks(a + b, now) == FutureTracks(a, now) + FutureTracks(b, now)
  {
    if a == [] {
      assert a + b == b;
    } else {
      assert (a + b)[1..] == a[1..] + b;
      FutureTracksAppend(a[1..], b, now);
    }
  }

  // ---------------------------------------------------------------------------
  // Bulk plan

  /** A row whose files resolved, with its timestamp. */
  datatype Resolved = Resolved(row: LibraryItem, ts: Timestamp)

  /** The rows that survive the `[SKIP]` test, in row order, each with its timestamp. */
  function ResolvedRows(rows: seq<LibraryItem>, parts: MediaParts, fs: FileSystem): seq<Resolved> {
    if rows == [] then []
    else
      var row := rows[|rows| - 1];
      var earlier := ResolvedRows(rows[..|rows| - 1], parts, fs);
      match TrackTime(parts, fs, row.id)
      case None => earlier
      case Some(ts) => earlier + [Resolved(row, ts)]
  }

  /** `tracks_to_fix`: one `(track_id, new_ts)` per resolved row. */
  function TrackUpdates(resolved: seq<Resolved>): seq<Update> {
    seq(|resolved|, i requires 0 <= i < |resolved| => Update(resolved[i].row.id, resolved[i].ts))
  }

  /** `parent_min_ts`: the running minimum per parent over the resolved rows. */
  function ParentMinimums(resolved: seq<Resolved>): map<ItemId, Timestamp> {
    if resolved == [] then map[]
    else
      var e := resolved[|resolved| - 1];
      var m := ParentMinimums(resolved[..|resolved| - 1]);
      if e.row.parentId.Some? && (e.row.parentId.value !in m || e.ts < m[e.row.parentId.value])
      then m[e.row.parentId.value := e.ts]
      else m
  }

  /** The key order of `parent_min_ts`: a dict lists its keys in first-insertion order. */
  function ParentOrder(resolved: seq<Resolved>): seq<ItemId> {
    if resolved == [] then []
    else
      var e := resolved[|resolved| - 1];
      var earlier := resolved[..|resolved| - 1];
      if e.row.parentId.Some? && e.row.parentId.value !in ParentMinimums(earlier)
      then ParentOrder(earlier) + [e.row.parentId.value]
      else ParentOrder(earlier)
  }

  /** The two collections `fix_bulk_future` builds; `parentOrder` is the key order of `parentMin`. */
  datatype BulkPlan = BulkPlan(tracks: seq<Update>, parentOrder: seq<ItemId>, parentMin: map<ItemId, Timestamp>)

  function PlanOf(rows: seq<LibraryItem>, parts: MediaParts, fs: FileSystem): BulkPlan {
    var resolved := ResolvedRows(rows, parts, fs);
    BulkPlan(TrackUpdates(resolved), ParentOrder(resolved), ParentMinimums(resolved))
  }

  predicate Distinct<T(==)>(xs: seq<T>) {
    forall i, j :: 0 <= i < j < |xs| ==> xs[i] != xs[j]
  }

  /** An insertion-ordered dictionary: each key listed once, and the listed keys are exactly the keys. */
  ghost predicate WellFormed(plan: BulkPlan) {
    && Distinct(plan.parentOrder)
    && forall p :: p in plan.parentOrder <==> p in plan.parentMin
  }

  /** A resolved row that names `p` as its parent. */
  predicate ChildOf(e: Resolved, p: ItemId) {
    e.row.parentId == Some(p)
  }

  /**
   * The parent aggregate, stated without the loop: a parent is a key exactly
   * when some resolved row names it, and its value is the timestamp of one
   * such row and no later than that of any other.
   */
  ghost predicate IsParentMinimum(resolved: seq<Resolved>, m: map<ItemId, Timestamp>) {
    && (forall p :: p in m <==> exists e :: e in resolved && ChildOf(e, p))
    && (forall p :: p in m ==> exists e :: e in resolved && ChildOf(e, p) && e.ts == m[p])
    && (forall e, p :: e in resolved && ChildOf(e, p) ==> p in m && m[p] <= e.ts)
  }

  lemma {:induction false} ParentMinimumsCorrect(resolved: seq<Resolved>)
    ensures IsParentMinimum(resolved, ParentMinimums(resolved))
  {
    if resolved != [] {
      var earlier := resolved[..|resolved| - 1];
      var last := resolved[|resolved| - 1];
      assert resolved == earlier + [last];
      ParentMinimumsCorrect(earlier);
      var m0 := ParentMinimums(earlier);
      var m := ParentMinimums(resolved);
      forall p | p in m
        ensures exists e :: e in resolved && ChildOf(e, p) && e.ts == m[p]
      {
        if ChildOf(last, p) && last.ts == m[p] {
          assert last in resolved;
        } else {
          var e :| e in earlier && ChildOf(e, p) && e.ts == m0[p];
          assert e in resolved;
        }
      }
      forall p | exists e :: e in resolved && ChildOf(e, p)
        ensures p in m
      {
        var e :| e in resolved && ChildOf(e, p);
        if e != last {
          assert e in earlier;
        }
      }
      forall e, p | e in resolved && ChildOf(e, p)
        ensures p in m && m[p] <= e.ts
      {
        if e != last {
          assert e in earlier;
        }
      }
    }
  }

  /** The parent aggregate is determined: at most one map meets it. */
  lemma ParentMinimumUnique(resolved: seq<Resolved>, m1: map<ItemId, Timestamp>, m2: map<ItemId, Timestamp>)
    requires IsParentMinimum(resolved, m1) && IsParentMinimum(resolved, m2)
    ensures m1 == m2
  {
    forall p | p in m1
      ensures p in m2 && m1[p] == m2[p]
    {
      var e1 :| e1 in resolved && ChildOf(e1, p) && e1.ts == m1[p];
      var e2 :| e2 in resolved && ChildOf(e2, p) && e2.ts == m2[p];
    }
    forall p | p in m2
      ensures p in m1
    {
      var e2 :| e2 in resolved && ChildOf(e2, p) && e2.ts == m2[p];
    }
    assert m1.Keys == m2.Keys;
  }

  /** The key order lists every key of `parent_min_ts` once. */
  lemma {:induction false} ParentOrderWellFormed(resolved: seq<Resolved>)
    ensures Distinct(ParentOrder(resolved))
    ensures forall p :: p in ParentOrder(resolved) <==> p in ParentMinimums(resolved)
  {
    if resolved != [] {
      ParentOrderWellFormed(resolved[..|resolved| - 1]);
    }
  }

  /** The plan of any rows is a well-formed insertion-ordered dictionary. */
  lemma PlanOfWellFormed(rows: seq<LibraryItem>, parts: MediaParts, fs: FileSystem)
    ensures WellFormed(PlanOf(rows, parts, fs))
  {
    ParentOrderWellFormed(ResolvedRows(rows, parts, fs));
  }

  /** One more row extends the resolved rows by that row, when it resolves. */
  lemma ResolvedRowsStep(rows: seq<LibraryItem>, k: nat, parts: MediaParts, fs: FileSystem, ts: Option<Timestamp>)
    requires k < |rows| && ts == TrackTime(parts, fs, rows[k].id)
    ensures ResolvedRows(rows[..k + 1], parts, fs)
         == ResolvedRows(rows[..k], parts, fs) + if ts.Some? then [Resolved(rows[k], ts.value)] else []
  {
    assert rows[..k + 1][..k] == rows[..k];
  }

  /** One more resolved row extends each aggregate as one iteration of the loop does. */
  lemma PlanStep(resolved: seq<Resolved>, e: Resolved)
    ensures TrackUpdates(resolved + [e]) == TrackUpdates(resolved) + [Update(e.row.id, e.ts)]
    ensures var m := ParentMinimums(resolved);
            ParentMinimums(resolved + [e])
            == if e.row.parentId.Some? && (e.row.parentId.value !in m || e.ts < m[e.row.parentId.value])
               then m[e.row.parentId.value := e.ts] else m
    ensures ParentOrder(resolved + [e])
            == if e.row.parentId.Some? && e.row.parentId.value !in ParentMinimums(resolved)
               then ParentOrder(resolved) + [e.row.parentId.value] else ParentOrder(resolved)
  {
    assert (resolved + [e])[..|resolved|] == resolved;
  }

  /** A row is resolved exactly when it is one of the rows and its files give that timestamp. */
  lemma {:induction false} ResolvedRowsMembers(rows: seq<LibraryItem>, parts: MediaParts, fs: FileSystem, e: Resolved)
    ensures e in ResolvedRows(rows, parts, fs) <==> e.row in rows && TrackTime(parts, fs, e.row.id) == Some(e.ts)
  {
    if rows != [] {
      var earlier := rows[..|rows| - 1];
      var last := rows[|rows| - 1];
      assert rows == earlier + [last];
      ResolvedRowsMembers(earlier, parts, fs, e);
    }
  }

  /** Resolution keeps row order: resolving a concatenation concatenates the results. */
  lemma {:induction false} ResolvedRowsAppend(a: seq<LibraryItem>, b: seq<LibraryItem>, parts: MediaParts, fs: FileSystem)
    ensures ResolvedRows(a + b, parts, fs) == ResolvedRows(a, parts, fs) + ResolvedRows(b, parts, fs)
    decreases |b|
  {
    if b == [] {
      assert a + b == a;
    } else {
      var shorter := b[..|b| - 1];
      assert (a + b)[..|a + b| - 1] == a + shorter;
      assert (a + b)[|a + b| - 1] == b[|b| - 1];
      ResolvedRowsAppend(a, shorter, parts, fs);
    }
  }

  /**
   * `tracks_to_fix` in terms of the input rows: it lists exactly the rows that
   * resolve, each with its own timestamp; an unresolved row is absent.
   */
  lemma BulkTracks(rows: seq<LibraryItem>, parts: MediaParts, fs: FileSystem, u: Update)
    ensures u in PlanOf(rows, parts, fs).tracks <==>
            exists r :: r in rows && r.id == u.id && TrackTime(parts, fs, r.id) == Some(u.ts)
  {
    var resolved := ResolvedRows(rows, parts, fs);
    if u in TrackUpdates(resolved) {
      var i :| 0 <= i < |resolved| && TrackUpdates(resolved)[i] == u;
      ResolvedRowsMembers(rows, parts, fs, resolved[i]);
    }
    if exists r :: r in rows && r.id == u.id && TrackTime(parts, fs, r.id) == Some(u.ts) {
      var r :| r in rows && r.id == u.id && TrackTime(parts, fs, r.id) == Some(u.ts);
      ResolvedRowsMembers(rows, parts, fs, Resolved(r, u.ts));
      var i :| 0 <= i < |resolved| && resolved[i] == Resolved(r, u.ts);
      assert TrackUpdates(resolved)[i] == u;
    }
  }

  /** `tracks_to_fix` keeps row order: planning a concatenation concatenates the track lists. */
  lemma BulkTracksInOrder(rows: seq<LibraryItem>, more: seq<LibraryItem>, parts: MediaParts, fs: FileSystem)
    ensures PlanOf(rows + more, parts, fs).tracks == PlanOf(rows, parts, fs).tracks + PlanOf(more, parts, fs).tracks
  {
    ResolvedRowsAppend(rows, more, parts, fs);
    var a, b := ResolvedRows(rows, parts, fs), ResolvedRows(more, parts, fs);
    assert TrackUpdates(a + b) == TrackUpdates(a) + TrackUpdates(b);
  }

  /**
   * `parent_min_ts` in terms of the input rows: a parent is a key exactly when
   * one of its rows resolves; its value is the timestamp of one such row and
   * no later than that of any other. Rows without a parent, and rows that do
   * not resolve, contribute to no key.
   */
  lemma BulkParents(rows: seq<LibraryItem>, parts: MediaParts, fs: FileSystem, p: ItemId)
    ensures p in PlanOf(rows, parts, fs).parentMin <==>
            exists r :: r in rows && r.parentId == Some(p) && TrackTime(parts, fs, r.id).Some?
    ensures p in PlanOf(rows, parts, fs).parentMin ==>
            var ts := PlanOf(rows, parts, fs).parentMin[p];
            && (exists r :: r in rows && r.parentId == Some(p) && TrackTime(parts, fs, r.id) == Some(ts))
            && (forall r :: r in rows && r.parentId == Some(p) && TrackTime(parts, fs, r.id).Some? ==>
                  ts <= TrackTime(parts, fs, r.id).value)
  {
    var resolved := ResolvedRows(rows, parts, fs);
    var m := ParentMinimums(resolved);
    ParentMinimumsCorrect(resolved);
    if exists r :: r in rows && r.parentId == Some(p) && TrackTime(parts, fs, r.id).Some? {
      var r :| r in rows && r.parentId == Some(p) && TrackTime(parts, fs, r.id).Some?;
      ResolvedRowsMembers(rows, parts, fs, Resolved(r, TrackTime(parts, fs, r.id).value));
      assert ChildOf(Resolved(r, TrackTime(parts, fs, r.id).value), p);
    }
    if p in m {
      var e :| e in resolved && ChildOf(e, p) && e.ts == m[p];
      ResolvedRowsMembers(rows, parts, fs, e);
      forall r | r in rows && r.parentId == Some(p) && TrackTime(parts, fs, r.id).Some?
        ensures m[p] <= TrackTime(parts, fs, r.id).value
      {
        var e' := Resolved(r, TrackTime(parts, fs, r.id).value);
        ResolvedRowsMembers(rows, parts, fs, e');
        assert ChildOf(e', p);
      }
    }
  }

  /**
   * The bulk planning loop of `fix_bulk_future`: resolve each row, skip the
   * ones that do not resolve, append the others to `tracks_to_fix`, and keep
   * the running minimum per parent in `parent_min_ts`.
   */
  method PlanBulk(rows: seq<LibraryItem>, parts: MediaParts, fs: FileSystem) returns (plan: BulkPlan)
    ensures plan == PlanOf(rows, parts, fs)
    ensures IsParentMinimum(ResolvedRows(rows, parts, fs), plan.parentMin)
    ensures WellFormed(plan)
  {
    var tracksToFix: seq<Update> := [];
    var parentOrder: seq<ItemId> := [];
    var parentMinTs: map<ItemId, Timestamp> := map[];
    ghost var resolved: seq<Resolved> := [];
    var k := 0;
    while k < |rows|
      invariant 0 <= k <= |rows|
      invariant resolved == ResolvedRows(rows[..k], parts, fs)
      invariant tracksToFix == TrackUpdates(resolved)
      invariant parentMinTs == ParentMinimums(resolved)
      invariant parentOrder == ParentOrder(resolved)
    {
      var row := rows[k];
      var r := ResolveCreationTime(PathsOf(parts, row.id), fs);
      ResolvedRowsStep(rows, k, parts, fs, r.ts);
      if r.ts.Some? {
        var newTs := r.ts.value;
        PlanStep(resolved, Resolved(row, newTs));
        resolved := resolved + [Resolved(row, newTs)];
        tracksToFix := tracksToFix + [Update(row.id, newTs)];
        if row.parentId.Some? {
          var parent := row.parentId.value;
          if parent !in parentMinTs || newTs < parentMinTs[parent] {
            if parent !in parentMinTs {
              parentOrder := parentOrder + [parent];
            }
            parentMinTs := parentMinTs[parent := newTs];
          }
        }
      }
      k := k + 1;
    }
    assert rows[..k] == rows;
    plan := BulkPlan(tracksToFix, parentOrder, parentMinTs);
    ParentMinimumsCorrect(resolved);
    PlanOfWellFormed(rows, parts, fs);
  }

  // ---------------------------------------------------------------------------
  // Single-track plan

  /** The lookup of one item by id, keeping only the first matching row: the first row with that id. */
  function FindItem(items: seq<LibraryItem>, id: ItemId): (r: Option<LibraryItem>)
    ensures r.Some? ==> r.value in items && r.value.id == id
    ensures r.None? <==> forall it :: it in items ==> it.id != id
  {
    if items == [] then None
    else if items[0].id == id then Some(items[0])
    else FindItem(items[1..], id)
  }

  /** The parent is written only when `parent_id` is set and its row was read with a title. */
  predicate HasParentRow(items: seq<LibraryItem>, track: LibraryItem) {
    && track.parentId.Some?
    && var parent := FindItem(items, track.parentId.value);
    && parent.Some?
    && parent.value.title.Some?
  }

  /** The writes of `fix_single`: the track, then its parent with the same timestamp. */
  function SingleUpdates(items: seq<LibraryItem>, track: LibraryItem, ts: Timestamp): (us: seq<Update>)
    ensures 1 <= |us| <= 2 && us[0] == Update(track.id, ts)
    ensures |us| == 2 <==> HasParentRow(items, track)
    ensures |us| == 2 ==> us[1] == Update(track.parentId.value, ts)
  {
    [Update(track.id, ts)] + (if HasParentRow(items, track) then [Update(track.parentId.value, ts)] else [])
  }
}
