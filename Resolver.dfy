/**
 * The timestamp resolver, `get_creation_ts_for_track`: the earliest creation
 * time among the files of a track that still exist.
 *
 * The media-parts query is replaced by the list of paths it returns, and the
 * filesystem by a map: a path is a key exactly when `os.path.exists` holds,
 * and its value is what `os.path.getctime` returns, in whole seconds.
 */
module Resolver {
  import opened Wrappers

  type Path = string
  type Timestamp = int
  type FileSystem = map<Path, Timestamp>

  /** `(new_ts, paths)`: the resolved time, or None, and every path examined. */
  datatype Resolution = Resolution(ts: Option<Timestamp>, paths: seq<Path>)

  /** The earliest creation time among the existing paths, as a running minimum. */
  function Earliest(paths: seq<Path>, fs: FileSystem): Option<Timestamp> {
    if paths == [] then None
    else
      var p := paths[|paths| - 1];
      var earlier := Earliest(paths[..|paths| - 1], fs);
      if p !in fs then earlier
      else if earlier.None? || fs[p] < earlier.value then Some(fs[p])
      else earlier
  }

  /** What `get_creation_ts_for_track` returns for the given paths. */
  function Resolve(paths: seq<Path>, fs: FileSystem): Resolution {
    Resolution(Earliest(paths, fs), paths)
  }

  /** `t` is the creation time of an existing path and no existing path is older. */
  ghost predicate IsEarliest(paths: seq<Path>, fs: FileSystem, t: Timestamp) {
    && (exists p :: p in paths && p in fs && fs[p] == t)
    && (forall p :: p in paths && p in fs ==> t <= fs[p])
  }

  lemma {:induction false} EarliestCharacterization(paths: seq<Path>, fs: FileSystem)
    ensures Earliest(paths, fs).None? <==> forall p :: p in paths ==> p !in fs
    ensures Earliest(paths, fs).Some? ==> IsEarliest(paths, fs, Earliest(paths, fs).value)
  {
    if paths != [] {
      var earlier := paths[..|paths| - 1];
      var last := paths[|paths| - 1];
      assert paths == earlier + [last];
      EarliestCharacterization(earlier, fs);
      forall p | p in paths
        ensures p == last || p in earlier
      {
      }
      var e := Earliest(paths, fs);
      if e.Some? {
        if last in fs && e.value == fs[last] {
          assert last in paths;
        } else {
          var w :| w in earlier && w in fs && fs[w] == e.value;
          assert w in paths;
        }
      }
    }
  }

  /**
   * The three outcomes of resolution: no paths gives `(None, [])`; paths of
   * which none exists give `(None, paths)`; otherwise the earliest creation
   * time among the existing paths, with the full path list.
   */
  lemma ResolveCharacterization(paths: seq<Path>, fs: FileSystem)
    ensures paths == [] ==> Resolve(paths, fs) == Resolution(None, [])
    ensures Resolve(paths, fs).paths == paths
    ensures Resolve(paths, fs).ts.None? <==> forall p :: p in paths ==> p !in fs
    ensures Resolve(paths, fs).ts.Some? ==> IsEarliest(paths, fs, Resolve(paths, fs).ts.value)
  {
    EarliestCharacterization(paths, fs);
  }

  /** The resolved time depends only on which paths are listed, not on their order. */
  lemma ResolveOrderIndependent(paths1: seq<Path>, paths2: seq<Path>, fs: FileSystem)
    requires forall p :: p in paths1 <==> p in paths2
    ensures Resolve(paths1, fs).ts == Resolve(paths2, fs).ts
  {
    EarliestCharacterization(paths1, fs);
    EarliestCharacterization(paths2, fs);
    var r1, r2 := Earliest(paths1, fs), Earliest(paths2, fs);
    if r1.Some? && r2.Some? {
      var p1 :| p1 in paths1 && p1 in fs && fs[p1] == r1.value;
      var p2 :| p2 in paths2 && p2 in fs && fs[p2] == r2.value;
      assert r2.value <= fs[p1] && r1.value <= fs[p2];
    }
  }

  // ---------------------------------------------------------------------------
  // The source's computation: collect the times, then take `min`

  /** `creation_times`: the creation times of the existing paths, in path order. */
  function CreationTimes(paths: seq<Path>, fs: FileSystem): seq<Timestamp> {
    if paths == [] then []
    else
      var p := paths[|paths| - 1];
      var earlier := CreationTimes(paths[..|paths| - 1], fs);
      if p in fs then earlier + [fs[p]] else earlier
  }

  /** Python's `min` over a non-empty list. */
  function Min(xs: seq<int>): (m: int)
    requires xs != []
    ensures m in xs
    ensures forall x :: x in xs ==> m <= x
  {
    if |xs| == 1 then xs[0]
    else
      var rest := Min(xs[1..]);
      assert forall x :: x in xs ==> x == xs[0] || x in xs[1..];
      if xs[0] <= rest then xs[0] else rest
  }

  /** `min` of the collected list is the running minimum, and the list is empty exactly when that is None. */
  lemma {:induction false} MinOfCreationTimes(paths: seq<Path>, fs: FileSystem)
    ensures CreationTimes(paths, fs) == [] <==> Earliest(paths, fs).None?
    ensures CreationTimes(paths, fs) != [] ==> Min(CreationTimes(paths, fs)) == Earliest(paths, fs).value
  {
    if paths != [] {
      var earlier := paths[..|paths| - 1];
      var last := paths[|paths| - 1];
      MinOfCreationTimes(earlier, fs);
      var xs := CreationTimes(earlier, fs);
      if last in fs && xs != [] {
        var ys := xs + [fs[last]];
        var m := if fs[last] < Min(xs) then fs[last] else Min(xs);
        assert m in ys;
        forall y | y in ys
          ensures m <= y
        {
          if y != fs[last] {
            assert y in xs;
          }
        }
        assert Min(ys) <= m && m <= Min(ys);
      }
    }
  }

  /**
   * `get_creation_ts_for_track` after its query: collect the creation time of
   * every existing path in a loop, then take the minimum.
   */
  method ResolveCreationTime(paths: seq<Path>, fs: FileSystem) returns (r: Resolution)
    ensures r == Resolve(paths, fs)
  {
    if paths == [] {
      return Resolution(None, []);
    }
    var creationTimes: seq<Timestamp> := [];
    var i := 0;
    while i < |paths|
      invariant 0 <= i <= |paths|
      invariant creationTimes == CreationTimes(paths[..i], fs)
    {
      var p := paths[i];
      assert paths[..i + 1][..i] == paths[..i];
      if p in fs {
        creationTimes := creationTimes + [fs[p]];
      }
      i := i + 1;
    }
    assert paths[..i] == paths;
    MinOfCreationTimes(paths, fs);
    if creationTimes == [] {
      return Resolution(None, paths);
    }
    return Resolution(Some(Min(creationTimes)), paths);
  }
}
