/**
 One run of the root updater in the versioned layout, from the first prune to the last: the release is built in a
 staging directory, renamed into place, reached by replacing the `current` link, judged, and rolled back when it fails.
 Network work, builds, restarts and health probes are nondeterministic; the process may die at any step.
 */
module Updater {
  import opened Outcomes
  import opened Text
  import opened Versions
  import opened ReleaseTree
  import opened Prune

  datatype Exit = Exited(code: int) | Raised | Killed

  datatype SwitchEnd = Switched | RolledBack(linkStuck: bool, healthy: bool) | RollbackRaised | Dead

  /** The run goes on to build and switch. */
  predicate Proceeds(installed: string, version: string) {
    installed != version && !IsDowngrade(installed, version)
  }

  /** The version on offer is another one than is installed, and not an older one. */
  ghost predicate WorthInstalling(installed: string, version: string) {
    installed != version && !Older(version, installed)
  }

  lemma ProceedsIff(installed: string, version: string)
    ensures Proceeds(installed, version) <==> WorthInstalling(installed, version)
  {
    DowngradeIff(installed, version);
  }

  /** `after` names a release whose version does not precede the one `before` spells; where `before` spells one that is
      not the lowest of all, so does `after`. */
  ghost predicate NotLower(before: string, after: Option<string>) {
    && after.Some?
    && (forall v, w :: Reads(before, v) && Reads(after.value, w) ==> !Precedes(w, v))
    && (forall v :: Reads(before, v) && v != UNREADABLE ==> exists w :: Reads(after.value, w))
  }

  lemma NotLowerIff(before: string, after: Option<string>)
    ensures NotLower(before, after) <==> after.Some? && !Older(after.value, before)
  {
    hide Reads, Precedes, ParseVersion;
    forall v, w | Reads(before, v) && Reads(before, w)
      ensures v == w
    {
      OneReading(before, v, w);
    }
    forall w
      ensures !Precedes(w, UNREADABLE)
    {
      NothingPrecedesTheUnreadable(w);
    }
    if after.Some? {
      forall v, w | Reads(after.value, v) && Reads(after.value, w)
        ensures v == w
      {
        OneReading(after.value, v, w);
      }
    }
  }

  lemma NotLowerIsNoDowngrade(before: string, after: string)
    ensures NotLower(before, Some(after)) <==> !IsDowngrade(before, after)
  {
    NotLowerIff(before, Some(after));
    DowngradeIff(before, after);
  }

  /** A release directory as it was, but for the recovery marker and the time the marker's creation leaves. */
  ghost predicate SameButMarked(before: Tree, after: Tree) {
    after == before.(keep := after.keep, mtime := after.mtime)
  }

  ghost predicate Restored(saved: map<string, string>, now: map<string, string>) {
    forall f :: f in saved ==> f in now && now[f] == saved[f]
  }

  /** What the run deleted as an earlier attempt is the live release. */
  predicate Hit(struck: Option<DirName>, current: Option<string>) {
    struck.Some? && current.Some? && struck.value == ReleaseDir(current.value)
  }

  // ── Steps ───────────────────────────────────────────────────────────────────────────────────────────────────

  /** os.symlink to a temporary name and os.replace over `current`: the link is the old one or the new one, never
      absent. */
  method SwitchCurrent(fs: FileSystem, target: string) returns (r: Step)
    modifies fs`current, fs`faults
    ensures fs.faults >= old(fs.faults) && (fs.faults == old(fs.faults) ==> r.Ran?)
    ensures r.Ran? ==> fs.current == Some(target)
    ensures r.Failed? ==> fs.current == old(fs.current)
    ensures fs.current == old(fs.current) || fs.current == Some(target)
  {
    if * {
      fs.faults := fs.faults + 1;
      return Died;
    }
    if * {
      fs.faults := fs.faults + 1;
      return Failed;
    }
    fs.current := Some(target);
    if * {
      fs.faults := fs.faults + 1;
      return Died;
    }
    return Ran;
  }

  /** Extract, install, compile and validate under a staging name; the result is whole only when every step
      succeeded. */
  method BuildStaging(fs: FileSystem, staging: DirName, jenVersion: string, now: int) returns (r: Step)
    requires staging.StagingDir?
    modifies fs`releases, fs`faults
    ensures fs.faults >= old(fs.faults) && (fs.faults == old(fs.faults) ==> r.Ran?)
    ensures staging in fs.releases || r.Died?
    ensures OnlyCutInto(old(fs.releases), fs.releases, staging)
    ensures r.Ran? ==> fs.releases[staging] == Tree(jenVersion, true, false, false, now)
  {
    if * {
      fs.faults := fs.faults + 1;
      return Died;
    }
    fs.releases := fs.releases[staging := Tree("", false, false, false, now)];
    if * {
      fs.faults := fs.faults + 1;
      return Died;
    }
    if * {
      fs.faults := fs.faults + 1;
      return Failed;
    }
    fs.releases := fs.releases[staging := Tree(jenVersion, true, false, false, now)];
    return Ran;
  }

  /** The files outside the install directory, and what there is of the flat tree, copied aside. */
  method SnapshotInstall(fs: FileSystem, stamp: Stamp) returns (r: Step)
    modifies fs`rollbacks, fs`faults
    ensures fs.faults >= old(fs.faults) && (fs.faults == old(fs.faults) ==> r.Ran?)
    ensures r.Ran? ==> stamp in fs.rollbacks
    ensures r.Ran? ==>
      Restored(fs.external, fs.rollbacks[stamp].external) && Restored(fs.flat, fs.rollbacks[stamp].flat)
  {
    var had := if stamp in fs.rollbacks then fs.rollbacks[stamp] else Snapshot(map[], map[], false);
    var partial: Snapshot := *;
    fs.rollbacks := fs.rollbacks[stamp := partial];
    if * {
      fs.faults := fs.faults + 1;
      return Died;
    }
    if * {
      fs.faults := fs.faults + 1;
      DropSnapshot(fs, stamp);
      return Failed;
    }
    fs.rollbacks := fs.rollbacks[stamp := Snapshot(had.external + fs.external, had.flat + fs.flat, had.keep)];
    return Ran;
  }

  /** A recursive delete that swallows its errors. */
  method DropSnapshot(fs: FileSystem, stamp: Stamp)
    modifies fs`rollbacks
  {
    var leftover: Snapshot := *;
    fs.rollbacks := fs.rollbacks[stamp := leftover];
    if * {
      fs.rollbacks := fs.rollbacks - {stamp};
    }
  }

  /** Creating an empty marker file in a release directory; an OSError is swallowed. */
  method Mark(fs: FileSystem, dir: DirName, keep: bool, failed: bool)
    modifies fs`releases, fs`faults
    ensures fs.faults >= old(fs.faults)
    ensures SameContents(old(fs.releases), fs.releases)
    ensures OnlyCutInto(old(fs.releases), fs.releases, dir)
    ensures dir in fs.releases <==> dir in old(fs.releases)
    ensures dir in fs.releases ==>
      var t, was := fs.releases[dir], old(fs.releases)[dir];
      && t == was.(keep := t.keep, failed := t.failed, mtime := t.mtime)
      && (!keep ==> t.keep == was.keep) && (!failed ==> t.failed == was.failed)
      && (fs.faults == old(fs.faults) ==> t.keep == (was.keep || keep) && t.failed == (was.failed || failed))
  {
    if dir in fs.releases {
      if * {
        fs.faults := fs.faults + 1;
        return;
      }
      var was := fs.releases[dir];
      var mtime: int := *;
      fs.releases := fs.releases[dir := was.(keep := was.keep || keep, failed := was.failed || failed, mtime := mtime)];
    }
  }

  /** Every saved file copied back over the live one; a copy may raise, or the process may die. */
  method CopyBack(saved: map<string, string>, live: map<string, string>) returns (r: Step, now: map<string, string>)
    ensures r.Ran? ==> Restored(saved, now)
    ensures r.Ran? ==> forall f :: f !in saved ==> (f in now <==> f in live) && (f in live ==> now[f] == live[f])
  {
    now := live;
    var left := saved.Keys;
    while left != {}
      invariant left <= saved.Keys
      invariant forall f :: f in saved && f !in left ==> f in now && now[f] == saved[f]
      invariant forall f :: f !in saved ==> (f in now <==> f in live) && (f in live ==> now[f] == live[f])
      decreases |left|
    {
      var f :| f in left;
      var torn: string := *;
      if * {
        return Died, now[f := torn];
      }
      if * {
        return Failed, now[f := torn];
      }
      now, left := now[f := saved[f]], left - {f};
    }
    r := Ran;
  }

  // ── The switch ──────────────────────────────────────────────────────────────────────────────────────────────

  /** The switch section.  `struck` is the directory of an earlier attempt at this version that the run deletes; only
      when that is the live release itself can the live release be lost. */
  method Switch(fs: FileSystem, version: string, staging: DirName, migrationRun: bool)
    returns (r: Step, struck: Option<DirName>)
    requires fs.Safe() && (migrationRun <==> fs.current.None?)
    requires staging.StagingDir? && staging in fs.releases && fs.releases[staging].whole
    modifies fs`releases, fs`current, fs`external, fs`flat, fs`faults
    ensures fs.faults >= old(fs.faults)
    ensures fs.faults == old(fs.faults) && old(fs.releases[staging]).version == version ==> r.Ran?
    ensures struck.Some? ==> struck.value == ReleaseDir(version)
    ensures old(fs.current).Some? ==> fs.flat == old(fs.flat)
    ensures r.Ran? ==>
      && staging !in fs.releases && ReleaseDir(version) in fs.releases
      && fs.releases[ReleaseDir(version)] == old(fs.releases[staging])
    ensures old(fs.current) == Some(version) ==> Hit(struck, old(fs.current))
    ensures !Hit(struck, old(fs.current)) ==>
      fs.Safe() && CurrentUntouched(old(fs.releases), fs.releases, old(fs.current))
    ensures !Hit(struck, old(fs.current)) && old(fs.Labelled()) && old(fs.releases[staging]).version == version ==>
      fs.Labelled()
    ensures fs.current == old(fs.current) || fs.current == Some(version)
    ensures r.Ran? ==> fs.current == Some(version) && fs.Safe() && fs.Labelled()
  {
    struck := None;
    if migrationRun {
      fs.flat := *;
      if * {
        fs.faults := fs.faults + 1;
        return Failed, struck;
      }
    }
    var dir := ReleaseDir(version);
    if dir in fs.releases {
      struck := Some(dir);
      r := fs.RemoveTree(dir);
      if !r.Ran? {
        return;
      }
    }
    if * {
      fs.faults := fs.faults + 1;
      return Failed, struck;
    }
    if * {
      fs.faults := fs.faults + 1;
      return Died, struck;
    }
    fs.releases := fs.releases[dir := fs.releases[staging]] - {staging};
    if * {
      fs.faults := fs.faults + 1;
      return Died, struck;
    }
    fs.external := *;
    if * {
      fs.faults := fs.faults + 1;
      return Failed, struck;
    }
    if * {
      fs.faults := fs.faults + 1;
      return Died, struck;
    }
    r := SwitchCurrent(fs, version);
    if !r.Ran? {
      return;
    }
    if * {
      fs.faults := fs.faults + 1;
      return Died, struck;
    }
    if * {
      // the restarted service is not healthy
      fs.faults := fs.faults + 1;
      return Failed, struck;
    }
    if fs.releases[dir].version != version {
      // the running process does not report the version that was installed
      return Failed, struck;
    }
    return Ran, struck;
  }

  /** Back to the previous release, or on a migration run to the flat tree; errors of the link itself are swallowed. */
  method RestorePointer(fs: FileSystem, prev: Option<string>, saved: map<string, string>) returns (r: Step, stuck: bool)
    modifies fs`current, fs`flat, fs`faults
    ensures fs.faults >= old(fs.faults) && (fs.faults == old(fs.faults) ==> r.Ran? && !stuck)
    ensures fs.current == old(fs.current) || fs.current == prev
    ensures prev.Some? ==> fs.flat == old(fs.flat)
    ensures r.Ran? && !stuck ==> fs.current == prev
    ensures r.Ran? && prev.None? ==> Restored(saved, fs.flat)
  {
    match prev
    case Some(name) =>
      r := SwitchCurrent(fs, name);
      stuck := r.Failed?;
      if stuck {
        r := Ran;
      }
    case None =>
      stuck := false;
      if * {
        fs.faults := fs.faults + 1;
        stuck := fs.current.Some?;
      } else {
        fs.current := None;
      }
      var now;
      r, now := CopyBack(saved, fs.flat);
      fs.flat := now;
      if !r.Ran? {
        fs.faults := fs.faults + 1;
      }
  }

  ghost predicate PreviousIntact(before: map<DirName, Tree>, after: map<DirName, Tree>, prev: string, healthy: bool) {
    var dir := ReleaseDir(prev);
    dir in before ==>
      dir in after && if healthy then after[dir] == before[dir] else SameButMarked(before[dir], after[dir])
  }

  /** A directory's contents are as they were; a marker may have been added. */
  ghost predicate SameContents(before: map<DirName, Tree>, after: map<DirName, Tree>) {
    forall n ::
      && (n in after <==> n in before)
      && (n in before ==> after[n].whole == before[n].whole && after[n].version == before[n].version)
  }

  lemma SameContentsTwice(a: map<DirName, Tree>, b: map<DirName, Tree>, c: map<DirName, Tree>)
    requires SameContents(a, b) && SameContents(b, c)
    ensures SameContents(a, c)
  {
  }

  method Rollback(fs: FileSystem, prev: Option<string>, version: string, stamp: Stamp) returns (e: SwitchEnd)
    requires stamp in fs.rollbacks
    modifies fs
    ensures fs.faults >= old(fs.faults)
    ensures !e.Switched?
    ensures prev.Some? ==> fs.flat == old(fs.flat)
    ensures SameContents(old(fs.releases), fs.releases)
    ensures fs.current == old(fs.current) || fs.current == prev
    ensures e.RolledBack? && !e.linkStuck ==> fs.current == prev
    ensures e.RolledBack? ==> Restored(old(fs.rollbacks)[stamp].external, fs.external)
    ensures e.RolledBack? && prev.None? ==> Restored(old(fs.rollbacks)[stamp].flat, fs.flat)
    ensures e.RolledBack? && prev.Some? && prev.value != version ==>
      PreviousIntact(old(fs.releases), fs.releases, prev.value, e.healthy)
    // unless a marker could not be made: the release that failed is marked so, and of an unhealthy end every recovery
    // artefact is marked to be kept
    ensures fs.faults == old(fs.faults) && e.RolledBack? && ReleaseDir(version) in fs.releases ==>
      fs.releases[ReleaseDir(version)].failed
    ensures fs.faults == old(fs.faults) && e.RolledBack? && !e.healthy ==>
      && stamp in fs.rollbacks && fs.rollbacks[stamp].keep
      && (prev.Some? && ReleaseDir(prev.value) in fs.releases ==> fs.releases[ReleaseDir(prev.value)].keep)
  {
    hide SameContents;
    ghost var before := fs.releases;
    var snapshot := fs.rollbacks[stamp];
    Mark(fs, ReleaseDir(version), false, true);
    ghost var marked := fs.releases;
    var r, stuck := RestorePointer(fs, prev, snapshot.flat);
    if r.Ran? {
      var now;
      r, now := CopyBack(snapshot.external, fs.external);
      fs.external := now;
      if !r.Ran? {
        fs.faults := fs.faults + 1;
      }
    }
    if r.Died? {
      return Dead;
    }
    if r.Failed? {
      return RollbackRaised;
    }
    var healthy: bool := *;
    if healthy {
      DropSnapshot(fs, stamp);
      return RolledBack(stuck, healthy);
    }
    KeepEvidence(fs, prev, stamp, snapshot);
    SameContentsTwice(before, marked, fs.releases);
    return RolledBack(stuck, healthy);
  }

  /** An unhealthy end: the snapshot and the previous release are marked to be kept. */
  method KeepEvidence(fs: FileSystem, prev: Option<string>, stamp: Stamp, snapshot: Snapshot)
    modifies fs`rollbacks, fs`releases, fs`faults
    ensures fs.faults >= old(fs.faults)
    ensures stamp in fs.rollbacks && fs.rollbacks[stamp].keep
    ensures SameContents(old(fs.releases), fs.releases)
    ensures fs.releases == old(fs.releases) ||
      (prev.Some? && ReleaseDir(prev.value) in old(fs.releases) &&
       var dir := ReleaseDir(prev.value);
       && dir in fs.releases && fs.releases == old(fs.releases)[dir := fs.releases[dir]]
       && SameButMarked(old(fs.releases)[dir], fs.releases[dir]))
    ensures fs.faults == old(fs.faults) && prev.Some? && ReleaseDir(prev.value) in fs.releases ==>
      fs.releases[ReleaseDir(prev.value)].keep
  {
    fs.rollbacks := fs.rollbacks[stamp := snapshot.(keep := true)];
    if prev.Some? {
      ghost var before := fs.releases;
      Mark(fs, ReleaseDir(prev.value), true, false);
      if ReleaseDir(prev.value) in fs.releases {
        assert fs.releases == before[ReleaseDir(prev.value) := fs.releases[ReleaseDir(prev.value)]];
      } else {
        assert fs.releases == before;
      }
    }
  }

  /** A failure anywhere in the switch section restores what was there before it. */
  method SwitchOrRollBack(fs: FileSystem, version: string, staging: DirName, stamp: Stamp)
    returns (e: SwitchEnd, struck: Option<DirName>)
    requires fs.Safe()
    requires staging.StagingDir? && staging in fs.releases && fs.releases[staging].whole
    requires stamp in fs.rollbacks
    requires Restored(fs.external, fs.rollbacks[stamp].external) && Restored(fs.flat, fs.rollbacks[stamp].flat)
    modifies fs
    ensures fs.faults >= old(fs.faults)
    ensures fs.faults == old(fs.faults) && old(fs.releases[staging]).version == version ==> e.Switched?
    ensures struck.Some? ==> struck.value == ReleaseDir(version)
    ensures old(fs.current).Some? ==> fs.flat == old(fs.flat)
    ensures !Hit(struck, old(fs.current)) || e.Switched? ==> fs.Safe()
    ensures !Hit(struck, old(fs.current)) && old(fs.Labelled()) && old(fs.releases[staging]).version == version ==>
      fs.Labelled()
    ensures fs.current == old(fs.current) || fs.current == Some(version)
    ensures e.Switched? ==> fs.current == Some(version) && fs.Labelled()
    ensures e.RolledBack? && !e.linkStuck ==> fs.current == old(fs.current)
    ensures e.RolledBack? ==> Restored(old(fs.external), fs.external)
    ensures e.RolledBack? && old(fs.current).None? ==> Restored(old(fs.flat), fs.flat)
    ensures e.RolledBack? && old(fs.current).Some? && !Hit(struck, old(fs.current)) ==>
      PreviousIntact(old(fs.releases), fs.releases, old(fs.current).value, e.healthy)
  {
    var prev := fs.current;
    var r;
    r, struck := Switch(fs, version, staging, prev.None?);
    match r
    case Ran => e := Switched;
    case Died => e := Dead;
    case Failed =>
      ghost var failed, link := fs.releases, fs.current;
      e := Rollback(fs, prev, version, stamp);
      if !Hit(struck, prev) {
        StillSafe(failed, fs.releases, link, prev, fs.current);
      }
  }

  /** With the same contents in every directory, a link that led to a whole one still does. */
  lemma StillSafe(before: map<DirName, Tree>, after: map<DirName, Tree>, link: Option<string>, prev: Option<string>,
                  now: Option<string>)
    requires SameContents(before, after) && (now == link || now == prev)
    requires link.Some? ==> Whole(before, link.value)
    requires prev.Some? ==> Whole(before, prev.value)
    ensures now.Some? ==> Whole(after, now.value)
  {
  }

  // ── One run ─────────────────────────────────────────────────────────────────────────────────────────────────

  /** Nothing of the run is left but markers: the files outside, the flat tree or the live release are as they were. */
  ghost predicate Undone(prev: Option<string>, before: map<DirName, Tree>, after: map<DirName, Tree>,
                         external: map<string, string>, externalNow: map<string, string>,
                         flat: map<string, string>, flatNow: map<string, string>)
  {
    && Restored(external, externalNow)
    && match prev
       case None => Restored(flat, flatNow)
       case Some(name) => PreviousIntact(before, after, name, false)
  }

  /** What an install that was never versioned leaves beside the new layout goes, but for what refuses. */
  method RemoveFlatLeftovers(fs: FileSystem)
    modifies fs`flat, fs`faults
    ensures fs.faults >= old(fs.faults) && (fs.faults == old(fs.faults) ==> fs.flat == map[])
    ensures forall f :: f in fs.flat ==> f in old(fs.flat) && fs.flat[f] == old(fs.flat)[f]
  {
    var refused: set<string> := *;
    fs.flat := map f | f in fs.flat && f in refused :: fs.flat[f];
    if fs.flat != map[] {
      fs.faults := fs.faults + 1;
    }
  }

  /** Build, probe, snapshot, switch: what happens between finding a newer release and the final cleanup. */
  method Install(fs: FileSystem, version: string, staging: DirName, jenVersion: string)
    returns (exit: Exit, linkStuck: bool, struck: Option<DirName>, ghost spare: Option<DirName>,
             ghost refused: set<DirName>)
    requires fs.Safe() && staging.StagingDir?
    modifies fs
    ensures fs.faults >= old(fs.faults)
    ensures fs.faults == old(fs.faults) && jenVersion == version ==> exit == Exited(0)
    ensures exit.Exited? ==> exit.code in {0, 1}
    ensures old(fs.current).Some? ==> fs.flat == old(fs.flat)
    ensures fs.faults == old(fs.faults) && jenVersion == version && old(fs.current).None? ==> fs.flat == map[]
    ensures struck.Some? ==> struck.value == ReleaseDir(version)
    ensures !Hit(struck, old(fs.current)) || exit == Exited(0) ==> fs.Safe()
    ensures !Hit(struck, old(fs.current)) && old(fs.Labelled()) && jenVersion == version ==> fs.Labelled()
    ensures !Hit(struck, old(fs.current)) && old(fs.Labelled()) && exit == Exited(1) && !linkStuck ==> fs.Labelled()
    ensures fs.current == old(fs.current) || fs.current == Some(version)
    ensures exit == Exited(0) ==> fs.current == Some(version) && fs.Labelled()
    ensures exit == Exited(0) ==>
      (OnlyTheSpare(fs.releases, fs.current, spare) <==> forall n :: n in refused ==> n.StagingDir?)
    ensures exit == Exited(1) && !linkStuck ==> fs.current == old(fs.current)
    ensures exit == Exited(1) && !Hit(struck, old(fs.current)) ==>
      Undone(old(fs.current), old(fs.releases), fs.releases, old(fs.external), fs.external, old(fs.flat), fs.flat)
  {
    hide OnlyTheSpare, Pruned, IsSpare;
    exit, linkStuck, struck, spare, refused := Killed, false, None, None, {};
    var now: int := *;
    var r := BuildStaging(fs, staging, jenVersion, now);
    if r.Died? {
      return;
    }
    if r.Failed? {
      exit := Exited(1);
      return;
    }
    if * {
      // the health probe cannot see the running Jen
      fs.faults := fs.faults + 1;
      exit := Exited(1);
      return;
    }
    var seconds: int := *;
    var stamp := Stamp(seconds);
    r := SnapshotInstall(fs, stamp);
    if r.Died? {
      return;
    }
    if r.Failed? {
      exit := Exited(1);
      return;
    }
    var migrationRun := fs.current.None?;
    var e;
    e, struck := SwitchOrRollBack(fs, version, staging, stamp);
    match e
    case Dead =>
    case RollbackRaised => exit := Raised;
    case RolledBack(stuck, _) => exit, linkStuck := Exited(1), stuck;
    case Switched =>
      if migrationRun {
        RemoveFlatLeftovers(fs);
      }
      DropSnapshot(fs, stamp);
      var at: int := *;
      var pruned, removed;
      ghost var before := fs.releases;
      ghost var snapshots;
      pruned, removed, spare, refused, snapshots := PruneOldReleases(fs, at);
      if pruned.Ran? {
        OneSpareWhenNoReleaseRefused(before, fs.releases, fs.current, spare, refused, at);
        exit := Exited(0);
      }
  }

  lemma UndoneSoFar(prev: Option<string>, before: map<DirName, Tree>, after: map<DirName, Tree>,
                    external: map<string, string>, flat: map<string, string>)
    requires CurrentUntouched(before, after, prev)
    ensures Undone(prev, before, after, external, external, flat, flat)
  {
  }

  /** What was undone since the prune was undone since the start. */
  lemma UndoneSinceTheStart(prev: Option<string>, start: map<DirName, Tree>, pruned: map<DirName, Tree>,
                            after: map<DirName, Tree>, external: map<string, string>,
                            externalNow: map<string, string>, flat: map<string, string>, flatNow: map<string, string>)
    requires CurrentUntouched(start, pruned, prev) && Undone(prev, pruned, after, external, externalNow, flat, flatNow)
    ensures Undone(prev, start, after, external, externalNow, flat, flatNow)
  {
  }

  /** Deleting a staging directory undoes nothing of it. */
  lemma StillUndone(prev: Option<string>, before: map<DirName, Tree>, here: map<DirName, Tree>,
                    after: map<DirName, Tree>, staging: DirName, external: map<string, string>,
                    externalNow: map<string, string>, flat: map<string, string>, flatNow: map<string, string>)
    requires Undone(prev, before, here, external, externalNow, flat, flatNow)
    requires OnlyCutInto(here, after, staging) && staging.StagingDir?
    ensures Undone(prev, before, after, external, externalNow, flat, flatNow)
  {
  }

  lemma StillTheSpare(before: map<DirName, Tree>, after: map<DirName, Tree>, staging: DirName, current: Option<string>,
                      spare: Option<DirName>)
    requires OnlyCutInto(before, after, staging) && staging.StagingDir?
    ensures OnlyTheSpare(after, current, spare) <==> OnlyTheSpare(before, current, spare)
  {
    assert forall name :: Spare(name, after, current) <==> Spare(name, before, current);
  }

  /** Download, install, and whatever happened no staging directory left behind but by a refused delete. */
  method Attempt(fs: FileSystem, version: string, jenVersion: string)
    returns (exit: Exit, linkStuck: bool, struck: Option<DirName>, ghost spare: Option<DirName>,
             ghost refused: set<DirName>)
    requires fs.Safe()
    modifies fs
    ensures fs.faults >= old(fs.faults)
    ensures fs.faults == old(fs.faults) && jenVersion == version ==> exit == Exited(0)
    ensures exit.Exited? ==> exit.code in {0, 1}
    ensures old(fs.current).Some? ==> fs.flat == old(fs.flat)
    ensures fs.faults == old(fs.faults) && jenVersion == version && old(fs.current).None? ==> fs.flat == map[]
    ensures struck.Some? ==> struck.value == ReleaseDir(version)
    ensures !Hit(struck, old(fs.current)) || exit == Exited(0) ==> fs.Safe()
    ensures !Hit(struck, old(fs.current)) && old(fs.Labelled()) && jenVersion == version ==> fs.Labelled()
    ensures !Hit(struck, old(fs.current)) && old(fs.Labelled()) && exit == Exited(1) && !linkStuck ==> fs.Labelled()
    ensures fs.current == old(fs.current) || fs.current == Some(version)
    ensures exit == Exited(0) ==> fs.current == Some(version) && fs.Labelled()
    ensures exit == Exited(0) ==>
      (OnlyTheSpare(fs.releases, fs.current, spare) <==> forall n :: n in refused ==> n.StagingDir?)
    ensures exit == Exited(1) && !linkStuck ==> fs.current == old(fs.current)
    ensures exit == Exited(1) && !Hit(struck, old(fs.current)) ==>
      Undone(old(fs.current), old(fs.releases), fs.releases, old(fs.external), fs.external, old(fs.flat), fs.flat)
  {
    hide OnlyTheSpare, Undone, PreviousIntact;
    exit, linkStuck, struck, spare, refused := Exited(1), false, None, None, {};
    UndoneSoFar(fs.current, fs.releases, fs.releases, fs.external, fs.flat);
    if * {
      // no asset, no signature, a bad checksum, a failed download
      fs.faults := fs.faults + 1;
      return;
    }
    var seconds: int := *;
    var staging := StagingDir(version, seconds);
    exit, linkStuck, struck, spare, refused := Install(fs, version, staging, jenVersion);
    ghost var here := fs.releases;
    if exit != Killed && staging in fs.releases {
      var r := fs.RemoveTree(staging);
      StillTheSpare(here, fs.releases, staging, fs.current, spare);
      if exit == Exited(1) && !Hit(struck, old(fs.current)) {
        StillUndone(old(fs.current), old(fs.releases), here, fs.releases, staging,
                    old(fs.external), fs.external, old(fs.flat), fs.flat);
      }
      if r.Died? {
        exit := Killed;
      }
    }
  }

  lemma ProceedingIsNotLower(installed: string, version: string)
    requires Proceeds(installed, version)
    ensures NotLower(installed, Some(version))
  {
    NotLowerIsNoDowngrade(installed, version);
    hide IsDowngrade, NotLower;
  }

  lemma PickedHasAName(listing: seq<Release>, channel: Channel, best: Release)
    requires exists i: nat, v :: Foremost(listing, channel, i, v) && best == listing[i]
    ensures StripV(best.tag) != ""
    ensures exists r, v :: r in listing && Offered(r, channel, v)
  {
    hide Reads, StripV;
    var i: nat, v :| Foremost(listing, channel, i, v) && best == listing[i];
    assert best in listing && Offered(best, channel, v);
    EmptyReadsAsNothing(v);
  }

  lemma EmptyReadsAsNothing(v: Version)
    ensures !Reads("", v)
  {
    ReadsIff("", v);
  }

  /** The picked version is live now, or it was installed already or is older. */
  ghost predicate UpToDate(installed: string, version: string, current: Option<string>) {
    current == Some(version) || !WorthInstalling(installed, version)
  }

  /** One run, whatever JEN_VERSION the release it downloads has inside.  `struck` is the directory it deletes as an
      earlier attempt at the version it installs. */
  method UpdateRun(fs: FileSystem, listing: seq<Release>, channel: Channel, shipped: string -> string, now: int)
    returns (exit: Exit, linkStuck: bool, struck: Option<DirName>,
             ghost picked: Option<string>, ghost spare: Option<DirName>, ghost refused: set<DirName>)
    requires fs.Safe()
    modifies fs
    // nothing goes wrong and the release is what its tag says: it ends well exactly when the channel offers one
    ensures fs.faults >= old(fs.faults)
    ensures fs.faults == old(fs.faults) && (picked.Some? ==> shipped(picked.value) == picked.value) ==>
      (exit == Exited(0) <==> exists r, v :: r in listing && Offered(r, channel, v))
    ensures picked.Some? ==>
      exists i: nat, v :: Foremost(listing, channel, i, v) && picked.value == StripV(listing[i].tag)
    // the flat tree of an install that was never versioned goes with its migration run, and is nobody's afterwards
    ensures old(fs.current).Some? ==> fs.flat == old(fs.flat)
    ensures old(fs.current).None? && fs.current.Some? && shipped(fs.current.value) == fs.current.value ==>
      fs.faults == old(fs.faults) ==> fs.flat == map[]
    // the run deletes the live directory exactly when that holds neither its own tag's version nor a newer one, and its
    // tag is picked
    ensures struck.Some? ==>
      picked.Some? && struck.value == ReleaseDir(picked.value) && WorthInstalling(old(fs.Installed()), picked.value)
    ensures struck.Some? && old(fs.current).Some? ==>
      (!Hit(struck, old(fs.current)) <==>
        || old(fs.Installed()) == old(fs.current).value || Older(old(fs.current).value, old(fs.Installed()))
        || picked != old(fs.current))
    ensures old(fs.Labelled()) ==> !Hit(struck, old(fs.current))
    // unless it does, the link leads to a whole release at every exit; a run that completes leaves a labelled one
    ensures !Hit(struck, old(fs.current)) || exit == Exited(0) ==> fs.Safe()
    ensures exit.Exited? && !linkStuck && old(fs.Labelled()) ==> fs.Labelled()
    ensures exit == Exited(0) ==> picked.Some? && UpToDate(old(fs.Installed()), picked.value, fs.current)
    ensures exit == Exited(0) && WorthInstalling(old(fs.Installed()), picked.value) ==> fs.Labelled()
    ensures old(fs.Labelled()) && (picked.Some? ==> shipped(picked.value) == picked.value) ==> fs.Labelled()
    // the link moves only to the picked version, which is not lower than what was installed, live or flat
    ensures fs.current != old(fs.current) ==>
      && picked.Some? && fs.current == picked && NotLower(old(fs.Installed()), fs.current)
      && (old(fs.current).Some? && ReleaseDir(old(fs.current).value) in old(fs.releases) ==>
            NotLower(old(fs.releases)[ReleaseDir(old(fs.current).value)].version, fs.current))
      && (old(fs.current).None? && "jen" in old(fs.flat) ==> NotLower(old(fs.flat)["jen"], fs.current))
    ensures exit == Exited(1) && !linkStuck ==> fs.current == old(fs.current)
    ensures exit == Exited(1) && !Hit(struck, old(fs.current)) ==>
      Undone(old(fs.current), old(fs.releases), fs.releases, old(fs.external), fs.external, old(fs.flat), fs.flat)
    ensures exit == Exited(0) ==>
      (OnlyTheSpare(fs.releases, fs.current, spare) <==> forall n :: n in refused ==> n.StagingDir?)
  {
    hide ParseVersion, StripV, Foremost, Offered, IsDowngrade, Older, NotLower, Pruned, PrunedExactly, IsSpare,
         SnapshotsPruned, OnlyTheSpare, KeyLess, Undone;
    exit, linkStuck, struck, picked, spare, refused := Killed, false, None, None, None, {};
    var pruned, removed;
    ghost var snapshots;
    pruned, removed, spare, refused, snapshots := PruneOldReleases(fs, now);
    if pruned.Died? {
      return;
    }
    OneSpareWhenNoReleaseRefused(old(fs.releases), fs.releases, fs.current, spare, refused, now);
    UndoneSoFar(fs.current, old(fs.releases), fs.releases, fs.external, fs.flat);
    ghost var afterPrune := fs.releases;
    var best := PickRelease(listing, channel);
    exit := Exited(1);
    if best.None? {
      return;
    }
    var version := StripV(best.value.tag);
    picked := Some(version);
    PickedHasAName(listing, channel, best.value);
    if version == "" {
      assert false;
    }
    var installed := fs.Installed();
    assert installed == old(fs.Installed());
    ProceedsIff(installed, version);
    if old(fs.current).Some? {
      DowngradeIff(installed, old(fs.current).value);
    }
    if !Proceeds(installed, version) {
      exit := Exited(0);
      return;
    }
    ProceedingIsNotLower(installed, version);
    exit, linkStuck, struck, spare, refused := Attempt(fs, version, shipped(version));
    if exit == Exited(1) && !Hit(struck, old(fs.current)) {
      UndoneSinceTheStart(old(fs.current), old(fs.releases), afterPrune, fs.releases,
                          old(fs.external), fs.external, old(fs.flat), fs.flat);
    }
  }

  /** A live version that has not gone down. */
  ghost predicate NeverDown(before: Option<string>, after: Option<string>) {
    before.Some? ==> NotLower(before.value, after)
  }

  /** Any number of runs, whatever GitHub lists, whatever the channel, each allowed to die anywhere; it ends early
      only when a run hits the live release, which takes a release whose JEN_VERSION is not its tag. */
  method RunRepeatedly(fs: FileSystem, runs: nat, shipped: string -> string) returns (hit: bool)
    requires fs.Safe()
    modifies fs
    ensures !hit ==> fs.Safe()
    ensures (forall v :: shipped(v) == v) && old(fs.Labelled()) ==>
      !hit && fs.Labelled() && NeverDown(old(fs.current), fs.current)
  {
    hide ParseVersion, StripV, Foremost, Offered, NotLower, Undone, OnlyTheSpare, IsDowngrade, Older;
    ghost var first, labelled := fs.current, fs.Labelled();
    NeverDownFromItself(first);
    hit := false;
    var i := 0;
    while i < runs && !hit
      invariant !hit ==> fs.Safe()
      invariant (forall v :: shipped(v) == v) && labelled ==> !hit && fs.Labelled() && NeverDown(first, fs.current)
    {
      var listing: seq<Release>, channel: Channel, now: int := *, *, *;
      var was := fs.current;
      var exit, stuck, struck;
      ghost var picked, spare, refused;
      exit, stuck, struck, picked, spare, refused := UpdateRun(fs, listing, channel, shipped, now);
      hit := Hit(struck, was);
      i := i + 1;
      if fs.current != was && NeverDown(first, was) && NeverDown(was, fs.current) {
        NeverDownTwice(first, was, fs.current);
      }
    }
  }

  lemma NeverDownFromItself(a: Option<string>)
    ensures NeverDown(a, a)
  {
    if a.Some? {
      NotLowerIsNoDowngrade(a.value, a.value);
      hide ParseVersion, NotLower;
    }
  }

  lemma NeverDownTwice(a: Option<string>, b: Option<string>, c: Option<string>)
    requires NeverDown(a, b) && NeverDown(b, c)
    ensures NeverDown(a, c)
  {
    hide Reads, Precedes, Older, IsDowngrade;
    if a.Some? {
      NotLowerIsNoDowngrade(a.value, b.value);
      NotLowerIsNoDowngrade(b.value, c.value);
      NotLowerIsNoDowngrade(a.value, c.value);
      hide NotLower;
      NoDowngradeTwice(a.value, b.value, c.value);
    }
  }

  lemma NoDowngradeTwice(a: string, b: string, c: string)
    requires !IsDowngrade(a, b) && !IsDowngrade(b, c)
    ensures !IsDowngrade(a, c)
  {
    hide ParseVersion;
  }

  // ── A mislabelled release ───────────────────────────────────────────────────────────────────────────────────

  /** A live release 1.0.0 with 0.9.0 inside: a run that picks 1.0.0 goes on to delete it, and a death in the delete
      leaves a link to a directory that was cut into. */
  lemma MislabelledLiveIsLost(fs: FileSystem) returns (lost: map<DirName, Tree>)
    requires fs.current == Some("1.0.0") && ReleaseDir("1.0.0") in fs.releases
    requires fs.releases[ReleaseDir("1.0.0")] == Tree("0.9.0", true, false, false, 0)
    ensures fs.Safe() && !fs.Labelled()
    ensures WorthInstalling(fs.Installed(), "1.0.0")
    ensures OnlyCutInto(fs.releases, lost, ReleaseDir("1.0.0")) && !Whole(lost, "1.0.0")
  {
    NineIsBelowTen();
    hide WorthInstalling;
    lost := fs.releases[ReleaseDir("1.0.0") := Tree("0.9.0", false, false, false, 0)];
  }

  lemma NineIsBelowTen()
    ensures WorthInstalling("0.9.0", "1.0.0")
  {
    Digits("0", 0);
    Digits("1", 1);
    Digits("9", 9);
    ReadsFinal("0.9.0", "0", "9", "0");
    ReadsFinal("1.0.0", "1", "0", "0");
    assert "0.9.0"[0] != "1.0.0"[0];
    hide Reads;
    if v :| Reads("0.9.0", v) && v != UNREADABLE && forall w :: Reads("1.0.0", w) ==> Precedes(w, v) {
      OneReading("0.9.0", v, Final(0, 9, 0));
      assert false;
    }
  }

  lemma Digits(s: string, n: nat)
    requires |s| == 1 && Digit(s[0]) && n == s[0] as int - '0' as int
    ensures Numeral(s) && ToNat(s) == n
  {
    assert s[..0] == "";
  }

  lemma ReadsFinal(s: string, a: string, b: string, c: string)
    requires Numeral(a) && Numeral(b) && Numeral(c) && s == a + ("." + (b + ("." + c)))
    ensures Reads(s, Final(ToNat(a), ToNat(b), ToNat(c)))
  {
    hide ToNat;
    assert s[0] == a[0] && s[|s| - 1] == c[|c| - 1];
    assert Around(s, "", s, "");
    assert Trims(s, s);
    assert SpelledBy(s, Final(ToNat(a), ToNat(b), ToNat(c)), a, b, c, "");
  }
}
