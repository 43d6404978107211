/**
 The versioned layout on disk: the directories under releases/, the `current` link, the files an update replaces outside
 the install directory, the flat tree of an install that was never versioned, and the rollback snapshots.  Every
 file-system call is one step; the process may die before or after any of them, and half-way through a recursive delete.
 */
module ReleaseTree {
  import opened Outcomes

  /** A name under releases/: a release's own directory, or the staging directory an attempt builds in. */
  datatype DirName = ReleaseDir(version: string) | StagingDir(version: string, stamp: int)

  /** A directory: the JEN_VERSION inside it, whether it was built, validated and never cut into, and its markers. */
  datatype Tree = Tree(version: string, whole: bool, keep: bool, failed: bool, mtime: int)

  /** A rollback snapshot: what was copied aside, and its recovery marker. */
  datatype Snapshot = Snapshot(external: map<string, string>, flat: map<string, string>, keep: bool)

  /** The time in a snapshot's directory name. */
  datatype Stamp = Stamp(seconds: int)

  const DAY_S := 86400

  class FileSystem {
    var releases: map<DirName, Tree>
    var current: Option<string>
    var external: map<string, string>
    var flat: map<string, string>
    var rollbacks: map<Stamp, Snapshot>
    ghost var faults: nat  // deaths, errors, refusals and failed checks so far

    /** `current` names an existing release that was built, validated and never cut into. */
    ghost predicate Safe()
      reads this
    {
      current.Some? ==> Whole(releases, current.value)
    }

    /** The JEN_VERSION inside the live release is its directory name. */
    ghost predicate Labelled()
      reads this
    {
      current.Some? ==>
        ReleaseDir(current.value) in releases && releases[ReleaseDir(current.value)].version == current.value
    }

    /** JEN_VERSION on disk: the live release first, the flat tree second. */
    function Installed(): string
      reads this
    {
      if current.Some? && ReleaseDir(current.value) in releases then releases[ReleaseDir(current.value)].version
      else if "jen" in flat then flat["jen"]
      else "?"
    }

    // ── Steps ─────────────────────────────────────────────────────────────────────────────────────────────────

    /** A recursive delete.  It may refuse (Failed) before it touches anything or part-way, and what it is part-way
        through is cut into: markers may be gone, none appears. */
    method RemoveTree(name: DirName) returns (r: Step)
      requires name in releases
      modifies this`releases, this`faults
      ensures faults == old(faults) + if r.Ran? then 0 else 1
      ensures r.Ran? ==> releases == old(releases) - {name}
      ensures r.Failed? ==> name in releases && CutFrom(old(releases)[name], releases[name])
      ensures OnlyCutInto(old(releases), releases, name)
    {
      if * {
        faults := faults + 1;
        return Died;
      }
      if * {
        faults := faults + 1;
        return Failed;
      }
      var was := releases[name];
      var version: string, lostKeep: bool, lostFailed: bool, mtime: int := *, *, *, *;
      releases := releases[name := Tree(version, false, was.keep && !lostKeep, was.failed && !lostFailed, mtime)];
      if * {
        faults := faults + 1;
        return Died;
      }
      if * {
        faults := faults + 1;
        return Failed;
      }
      releases := releases - {name};
      if * {
        faults := faults + 1;
        return Died;
      }
      return Ran;
    }

    /** os.listdir: every name once, in whatever order the directory gives. */
    method ListReleases() returns (names: seq<DirName>)
      ensures NoRepeats(names)
      ensures forall n :: n in names <==> n in releases
    {
      names := [];
      var left := releases.Keys;
      while left != {}
        invariant left <= releases.Keys
        invariant forall n :: n in names <==> n in releases.Keys - left
        invariant NoRepeats(names)
        decreases |left|
      {
        var n :| n in left;
        assert n !in names;
        names, left := names + [n], left - {n};
      }
    }
  }

  predicate Whole(releases: map<DirName, Tree>, name: string) {
    ReleaseDir(name) in releases && releases[ReleaseDir(name)].whole
  }

  /** What a refused delete leaves of a directory: all of it, or a part with no marker it did not have. */
  predicate CutFrom(before: Tree, after: Tree) {
    after == before || (!after.whole && (after.keep ==> before.keep) && (after.failed ==> before.failed))
  }

  predicate NoRepeats<T(==)>(s: seq<T>) {
    forall i, j :: 0 <= i < j < |s| ==> s[i] != s[j]
  }

  /** Everything but `name` is as it was. */
  ghost predicate OnlyCutInto(before: map<DirName, Tree>, after: map<DirName, Tree>, name: DirName) {
    forall n :: n != name ==> (n in after <==> n in before) && (n in before ==> after[n] == before[n])
  }
}
