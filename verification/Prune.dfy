/** Pruning old releases, stale staging directories and old snapshots. */
module Prune {
  import opened Outcomes
  import opened ReleaseTree

  /** A release directory that is neither live nor marked for recovery nor marked failed. */
  predicate Candidate(n: DirName, releases: map<DirName, Tree>, current: Option<string>) {
    && n in releases && n.ReleaseDir? && current != Some(n.version)
    && !releases[n].keep && !releases[n].failed
  }

  /** The one other release kept for a rollback by hand: a newest candidate, and none only when there is none. */
  ghost predicate IsSpare(spare: Option<DirName>, releases: map<DirName, Tree>, current: Option<string>) {
    match spare
    case None => forall n :: !Candidate(n, releases, current)
    case Some(s) =>
      && Candidate(s, releases, current)
      && (forall n :: Candidate(n, releases, current) ==> releases[n].mtime <= releases[s].mtime)
  }

  predicate Survives(n: DirName, t: Tree, current: Option<string>, spare: Option<DirName>, now: int) {
    match n
    case StagingDir(_, _) => now - t.mtime <= DAY_S
    case ReleaseDir(v) => current == Some(v) || t.keep || spare == Some(n)
  }

  /** The survivors are left untouched, and so is what refused to be deleted, whole or in part; nothing else is left. */
  ghost predicate Pruned(before: map<DirName, Tree>, after: map<DirName, Tree>, current: Option<string>,
                         spare: Option<DirName>, refused: set<DirName>, now: int)
  {
    && (forall n :: n in refused ==> n in before && !Survives(n, before[n], current, spare, now))
    && (forall n :: n in after <==> n in before && (n in refused || Survives(n, before[n], current, spare, now)))
    && (forall n :: n in after ==> if n in refused then CutFrom(before[n], after[n]) else after[n] == before[n])
  }

  /** Exactly the survivors are left, untouched. */
  ghost predicate PrunedExactly(before: map<DirName, Tree>, after: map<DirName, Tree>, current: Option<string>,
                                spare: Option<DirName>, now: int)
  {
    && (forall n :: n in after <==> n in before && Survives(n, before[n], current, spare, now))
    && (forall n :: n in after ==> after[n] == before[n])
  }

  /** Neither the newest snapshot nor one marked for recovery. */
  ghost predicate Obsolete(k: Stamp, before: map<Stamp, Snapshot>) {
    k in before && !before[k].keep && exists j :: j in before && j.seconds > k.seconds
  }

  /** The snapshots that are not obsolete are left as they were, the obsolete ones only where the delete refused. */
  ghost predicate SnapshotsPruned(before: map<Stamp, Snapshot>, after: map<Stamp, Snapshot>, refused: set<Stamp>) {
    && (forall k :: k in refused ==> Obsolete(k, before))
    && (forall k :: k in after <==> k in before && (k in refused || !Obsolete(k, before)))
    && (forall k :: k in after && k !in refused ==> after[k] == before[k])
  }

  // ── Newest first ────────────────────────────────────────────────────────────────────────────────────────────

  predicate NewestFirst(names: seq<DirName>, releases: map<DirName, Tree>) {
    && (forall i :: 0 <= i < |names| ==> names[i] in releases)
    && (forall i, j :: 0 <= i < j < |names| ==> releases[names[j]].mtime <= releases[names[i]].mtime)
  }

  /** `n` put after every name at least as new, which keeps ties in listing order. */
  function Insert(n: DirName, names: seq<DirName>, releases: map<DirName, Tree>): (r: seq<DirName>)
    requires NewestFirst(names, releases) && NoRepeats(names) && n in releases && n !in names
    ensures NewestFirst(r, releases) && NoRepeats(r)
    ensures forall m :: m in r <==> m in names || m == n
  {
    if names == [] then [n]
    else if releases[n].mtime > releases[names[0]].mtime then [n] + names
    else
      var rest := Insert(n, names[1..], releases);
      assert forall m :: m in rest ==> m != names[0] && releases[m].mtime <= releases[names[0]].mtime;
      assert forall i :: 0 <= i < |rest| ==> rest[i] in rest;
      [names[0]] + rest
  }

  /** The release directories by age: list.sort(key=mtime, reverse=True). */
  function SortNewestFirst(names: seq<DirName>, releases: map<DirName, Tree>): (r: seq<DirName>)
    requires NoRepeats(names) && forall n :: n in names ==> n in releases
    ensures NewestFirst(r, releases) && NoRepeats(r)
    ensures forall m :: m in r <==> m in names
  {
    if names == [] then []
    else
      var k := |names| - 1;
      assert names == names[..k] + [names[k]];
      Insert(names[k], SortNewestFirst(names[..k], releases), releases)
  }

  // ── The pass ────────────────────────────────────────────────────────────────────────────────────────────────

  predicate Stale(n: DirName, t: Tree, now: int) {
    n.StagingDir? && now - t.mtime > DAY_S
  }

  /** After `done` names of the listing: the stale staging directories among them are gone, but for those that
      refused. */
  ghost predicate StagingPass(before: map<DirName, Tree>, after: map<DirName, Tree>, done: seq<DirName>,
                              refused: set<DirName>, now: int)
  {
    && (forall n :: n in refused ==> n in before && n in done && Stale(n, before[n], now))
    && (forall n :: n in after <==> n in before && (n in refused || !(n in done && Stale(n, before[n], now))))
    && (forall n :: n in after ==> if n in refused then CutFrom(before[n], after[n]) else after[n] == before[n])
  }

  lemma OneFewer<K, V>(m: map<K, V>, k: K)
    requires k in m
    ensures |m - {k}| == |m| - 1
  {
    assert (m - {k}).Keys == m.Keys - {k};
  }

  /** What one delete makes of the directories: gone, or refused and still there. */
  ghost predicate Deleted(here: map<DirName, Tree>, after: map<DirName, Tree>, name: DirName, gone: bool) {
    && name in here
    && (if gone then after == here - {name} else name in after && CutFrom(here[name], after[name]))
    && OnlyCutInto(here, after, name)
  }

  lemma DeletedOrRefused(here: map<DirName, Tree>, after: map<DirName, Tree>, name: DirName, r: Step)
    requires name in here && OnlyCutInto(here, after, name) && !r.Died?
    requires r.Ran? ==> after == here - {name}
    requires r.Failed? ==> name in after && CutFrom(here[name], after[name])
    ensures Deleted(here, after, name, r.Ran?)
  {
  }

  lemma DeletedCount(here: map<DirName, Tree>, after: map<DirName, Tree>, name: DirName, gone: bool)
    requires Deleted(here, after, name, gone)
    ensures |after| == if gone then |here| - 1 else |here|
  {
    if gone {
      OneFewer(here, name);
    } else {
      assert after.Keys == here.Keys;
      assert |after| == |after.Keys| && |here| == |here.Keys|;
    }
  }

  lemma StagingStep(before: map<DirName, Tree>, here: map<DirName, Tree>, done: seq<DirName>, refused: set<DirName>,
                    name: DirName, now: int)
    requires StagingPass(before, here, done, refused, now) && name in before && name !in done
    ensures name in here && here[name] == before[name] && name !in refused
    ensures !Stale(name, before[name], now) ==> StagingPass(before, here, done + [name], refused, now)
  {
  }

  lemma StagingDeleted(before: map<DirName, Tree>, here: map<DirName, Tree>, after: map<DirName, Tree>,
                       done: seq<DirName>, refused: set<DirName>, name: DirName, gone: bool, now: int)
    requires StagingPass(before, here, done, refused, now) && name in before && name !in done
    requires Stale(name, before[name], now) && Deleted(here, after, name, gone)
    ensures StagingPass(before, after, done + [name], if gone then refused else refused + {name}, now)
  {
  }

  lemma CutElsewhere(before: map<DirName, Tree>, here: map<DirName, Tree>, after: map<DirName, Tree>, name: DirName,
                     current: Option<string>)
    requires CurrentUntouched(before, here, current) && OnlyCutInto(here, after, name)
    requires current.Some? ==> name != ReleaseDir(current.value)
    ensures CurrentUntouched(before, after, current)
  {
  }

  method PruneStaging(fs: FileSystem, now: int)
    returns (r: Step, releaseDirs: seq<DirName>, removed: nat, ghost all: seq<DirName>, ghost refused: set<DirName>)
    modifies fs`releases, fs`faults
    ensures fs.faults >= old(fs.faults) && (fs.faults == old(fs.faults) ==> r.Ran? && refused == {})
    ensures !r.Failed?
    ensures CurrentUntouched(old(fs.releases), fs.releases, fs.current)
    ensures r.Ran? ==> forall n :: n in all <==> n in old(fs.releases)
    ensures r.Ran? ==> StagingPass(old(fs.releases), fs.releases, all, refused, now)
    ensures r.Ran? ==> NoRepeats(releaseDirs) && forall n :: n in releaseDirs <==> n in all && n.ReleaseDir?
    ensures r.Ran? ==> removed == |old(fs.releases)| - |fs.releases| + |refused|
  {
    hide StagingPass, CurrentUntouched, OnlyCutInto, Deleted, CutFrom;
    var names := fs.ListReleases();
    all := names;
    ghost var before := fs.releases;
    releaseDirs, removed, refused := [], 0, {};
    NothingStagedYet(before, fs.current, now);
    for i := 0 to |names|
      invariant fs.faults >= old(fs.faults) && (fs.faults == old(fs.faults) ==> refused == {})
      invariant StagingPass(before, fs.releases, names[..i], refused, now)
      invariant CurrentUntouched(before, fs.releases, fs.current)
      invariant NoRepeats(releaseDirs)
      invariant forall n :: n in releaseDirs <==> n in names[..i] && n.ReleaseDir?
      invariant removed == |before| - |fs.releases| + |refused|
    {
      var name := names[i];
      assert names[..i + 1] == names[..i] + [name];
      assert name !in names[..i];
      StagingStep(before, fs.releases, names[..i], refused, name, now);
      if name.StagingDir? {
        if now - fs.releases[name].mtime > DAY_S {
          ghost var here := fs.releases;
          r := fs.RemoveTree(name);
          CutElsewhere(before, here, fs.releases, name, fs.current);
          if r.Died? {
            return;
          }
          DeletedOrRefused(here, fs.releases, name, r);
          DeletedCount(here, fs.releases, name, r.Ran?);
          StagingDeleted(before, here, fs.releases, names[..i], refused, name, r.Ran?, now);
          refused := if r.Ran? then refused else refused + {name};
          removed := removed + 1;
        }
        continue;
      }
      releaseDirs := releaseDirs + [name];
    }
    assert names[..|names|] == names;
    r := Ran;
  }

  lemma NothingStagedYet(before: map<DirName, Tree>, current: Option<string>, now: int)
    ensures StagingPass(before, before, [], {}, now) && CurrentUntouched(before, before, current)
  {
  }

  ghost predicate CurrentUntouched(before: map<DirName, Tree>, after: map<DirName, Tree>, current: Option<string>) {
    current.Some? && ReleaseDir(current.value) in before ==>
      ReleaseDir(current.value) in after && after[ReleaseDir(current.value)] == before[ReleaseDir(current.value)]
  }

  predicate Kept(n: DirName, t: Tree, current: Option<string>, spare: Option<DirName>) {
    n.ReleaseDir? ==> current == Some(n.version) || t.keep || spare == Some(n)
  }

  /** Part-way through the release directories in order of age. */
  ghost predicate ReleasePass(before: map<DirName, Tree>, after: map<DirName, Tree>, done: seq<DirName>,
                              current: Option<string>, spare: Option<DirName>, refused: set<DirName>)
  {
    && (forall n :: n in refused ==> n in before && n in done && !Kept(n, before[n], current, spare))
    && (forall n :: n in after <==> n in before && (n in refused || n !in done || Kept(n, before[n], current, spare)))
    && (forall n :: n in after ==> if n in refused then CutFrom(before[n], after[n]) else after[n] == before[n])
  }

  lemma ReleaseStep(before: map<DirName, Tree>, here: map<DirName, Tree>, done: seq<DirName>, name: DirName,
                    current: Option<string>, spare: Option<DirName>, refused: set<DirName>)
    requires ReleasePass(before, here, done, current, spare, refused) && name in before && name !in done
    requires name.ReleaseDir?
    requires spare.Some? ==> spare.value in done
    ensures name in here && here[name] == before[name] && name !in refused
    ensures current == Some(name.version) || before[name].keep ==>
      ReleasePass(before, here, done + [name], current, spare, refused)
    ensures spare.None? ==> ReleasePass(before, here, done + [name], current, Some(name), refused)
  {
  }

  lemma ReleaseDeleted(before: map<DirName, Tree>, here: map<DirName, Tree>, after: map<DirName, Tree>,
                       done: seq<DirName>, name: DirName, current: Option<string>, spare: Option<DirName>,
                       refused: set<DirName>, gone: bool)
    requires ReleasePass(before, here, done, current, spare, refused) && name in before && name !in done
    requires name.ReleaseDir?
    requires spare.Some? ==> spare.value in done
    requires current != Some(name.version) && !before[name].keep && Deleted(here, after, name, gone)
    ensures ReleasePass(before, after, done + [name], current, spare, if gone then refused else refused + {name})
  {
  }

  lemma NewestLeftIsSpare(before: map<DirName, Tree>, names: seq<DirName>, i: nat, current: Option<string>)
    requires NewestFirst(names, before) && i < |names| && Candidate(names[i], before, current)
    requires forall n :: n in names <==> n in before && n.ReleaseDir?
    requires forall n :: n in names[..i] ==> !Candidate(n, before, current)
    ensures IsSpare(Some(names[i]), before, current)
  {
    forall n | Candidate(n, before, current)
      ensures before[n].mtime <= before[names[i]].mtime
    {
      assert n !in names[..i];
      assert forall m :: 0 <= m < i ==> names[m] == names[..i][m];
      var k :| 0 <= k < |names| && names[k] == n;
    }
  }

  method PruneReleases(fs: FileSystem, names: seq<DirName>)
    returns (r: Step, removed: nat, ghost spare: Option<DirName>, ghost refused: set<DirName>)
    requires NewestFirst(names, fs.releases) && NoRepeats(names)
    requires forall n :: n in names <==> n in fs.releases && n.ReleaseDir?
    modifies fs`releases, fs`faults
    ensures fs.faults >= old(fs.faults) && (fs.faults == old(fs.faults) ==> r.Ran? && refused == {})
    ensures !r.Failed?
    ensures CurrentUntouched(old(fs.releases), fs.releases, fs.current)
    ensures r.Ran? ==> IsSpare(spare, old(fs.releases), fs.current)
    ensures r.Ran? ==> ReleasePass(old(fs.releases), fs.releases, names, fs.current, spare, refused)
    ensures r.Ran? ==> removed == |old(fs.releases)| - |fs.releases| + |refused|
  {
    hide ReleasePass, CurrentUntouched, OnlyCutInto, NewestFirst, IsSpare, Deleted, CutFrom;
    ghost var before := fs.releases;
    var keptOneOther := false;
    removed, spare, refused := 0, None, {};
    NothingPrunedYet(before, fs.current);
    for i := 0 to |names|
      invariant fs.faults >= old(fs.faults) && (fs.faults == old(fs.faults) ==> refused == {})
      invariant ReleasePass(before, fs.releases, names[..i], fs.current, spare, refused)
      invariant CurrentUntouched(before, fs.releases, fs.current)
      invariant keptOneOther <==> spare.Some?
      invariant spare.None? ==> forall n :: n in names[..i] ==> !Candidate(n, before, fs.current)
      invariant spare.Some? ==> IsSpare(spare, before, fs.current) && spare.value in names[..i]
      invariant removed == |before| - |fs.releases| + |refused|
    {
      var name := names[i];
      assert names[..i + 1] == names[..i] + [name];
      assert name in names && name !in names[..i];
      ReleaseStep(before, fs.releases, names[..i], name, fs.current, spare, refused);
      if fs.current == Some(name.version) {
        continue;
      }
      if fs.releases[name].keep {
        continue;
      }
      if !fs.releases[name].failed && !keptOneOther {
        NewestLeftIsSpare(before, names, i, fs.current);
        keptOneOther, spare := true, Some(name);
        continue;
      }
      ghost var here := fs.releases;
      r := fs.RemoveTree(name);
      CutElsewhere(before, here, fs.releases, name, fs.current);
      if r.Died? {
        return;
      }
      DeletedOrRefused(here, fs.releases, name, r);
      DeletedCount(here, fs.releases, name, r.Ran?);
      ReleaseDeleted(before, here, fs.releases, names[..i], name, fs.current, spare, refused, r.Ran?);
      refused := if r.Ran? then refused else refused + {name};
      removed := removed + 1;
    }
    assert names[..|names|] == names;
    NoneLeftMeansNone(before, names, fs.current, spare);
    r := Ran;
  }

  lemma NothingPrunedYet(before: map<DirName, Tree>, current: Option<string>)
    ensures ReleasePass(before, before, [], current, None, {}) && CurrentUntouched(before, before, current)
  {
  }

  lemma NoneLeftMeansNone(before: map<DirName, Tree>, names: seq<DirName>, current: Option<string>,
                          spare: Option<DirName>)
    requires forall n :: n in names <==> n in before && n.ReleaseDir?
    requires spare.None? ==> forall n :: n in names ==> !Candidate(n, before, current)
    ensures spare.None? ==> IsSpare(spare, before, current)
  {
  }

  // ── Snapshots of the pre-versioned updater ──────────────────────────────────────────────────────────────────

  lemma {:induction false} HasNewest(s: set<Stamp>)
    requires s != {}
    ensures exists m :: IsNewest(m, s)
    decreases |s|
  {
    var k :| k in s;
    if s - {k} == {} {
      assert s == {k};
      assert IsNewest(k, s);
    } else {
      HasNewest(s - {k});
      var m :| IsNewest(m, s - {k});
      assert forall j :: j in s ==> j == k || j in s - {k};
      assert IsNewest(if k.seconds > m.seconds then k else m, s);
    }
  }

  predicate IsNewest(m: Stamp, s: set<Stamp>) {
    m in s && forall j :: j in s ==> j.seconds <= m.seconds
  }

  ghost predicate SnapshotPass(before: map<Stamp, Snapshot>, after: map<Stamp, Snapshot>, left: set<Stamp>,
                               newest: Stamp, refused: set<Stamp>)
  {
    && (forall k :: k in refused ==> k in before && k !in left && !before[k].keep && k != newest)
    && (forall k :: k in after <==> k in before && (k in refused || k in left || before[k].keep || k == newest))
    && (forall k :: k in after && k !in refused ==> after[k] == before[k])
  }

  lemma SnapshotStep(before: map<Stamp, Snapshot>, here: map<Stamp, Snapshot>, left: set<Stamp>, newest: Stamp,
                     refused: set<Stamp>, k: Stamp, part: Snapshot)
    requires SnapshotPass(before, here, left, newest, refused) && k in left && left <= before.Keys
    ensures k in here && here[k] == before[k] && k !in refused
    ensures k == newest || before[k].keep ==> SnapshotPass(before, here, left - {k}, newest, refused)
    ensures k != newest && !before[k].keep ==>
      && SnapshotPass(before, here - {k}, left - {k}, newest, refused)
      && SnapshotPass(before, here[k := part], left - {k}, newest, refused + {k})
  {
  }

  lemma SameCount(here: map<Stamp, Snapshot>, k: Stamp, part: Snapshot)
    requires k in here
    ensures |here[k := part]| == |here|
  {
    assert here[k := part].Keys == here.Keys;
    assert |here[k := part]| == |here[k := part].Keys| && |here| == |here.Keys|;
  }

  /** All but the newest go, unless marked for recovery; a delete that refuses is counted all the same. */
  method PruneSnapshots(fs: FileSystem) returns (r: Step, removed: nat, ghost refused: set<Stamp>)
    modifies fs`rollbacks, fs`faults
    ensures fs.faults >= old(fs.faults) && (fs.faults == old(fs.faults) ==> r.Ran? && refused == {})
    ensures !r.Failed?
    ensures r.Ran? ==> SnapshotsPruned(old(fs.rollbacks), fs.rollbacks, refused)
    ensures r.Ran? ==> removed == |old(fs.rollbacks)| - |fs.rollbacks| + |refused|
  {
    hide SnapshotPass, SnapshotsPruned, IsNewest;
    r, removed, refused := Ran, 0, {};
    ghost var before := fs.rollbacks;
    if |fs.rollbacks| == 0 {
      NothingToPrune(before);
      return;
    }
    var left := fs.rollbacks.Keys;
    assert left != {} by {
      assert |left| == |fs.rollbacks|;
    }
    HasNewest(left);
    var newest :| IsNewest(newest, left);
    NoSnapshotPrunedYet(before, newest);
    while left != {}
      invariant left <= before.Keys
      invariant fs.faults >= old(fs.faults) && (fs.faults == old(fs.faults) ==> refused == {})
      invariant SnapshotPass(before, fs.rollbacks, left, newest, refused)
      invariant removed == |before| - |fs.rollbacks| + |refused|
      decreases |left|
    {
      var k :| k in left;
      var part: Snapshot := *;
      SnapshotStep(before, fs.rollbacks, left, newest, refused, k, part);
      left := left - {k};
      if k != newest && !fs.rollbacks[k].keep {
        if * {
          fs.faults := fs.faults + 1;
          return Died, removed, refused;
        }
        OneFewer(fs.rollbacks, k);
        SameCount(fs.rollbacks, k, part);
        if * {
          fs.faults := fs.faults + 1;
          fs.rollbacks := fs.rollbacks[k := part];
          refused := refused + {k};
        } else {
          fs.rollbacks := fs.rollbacks - {k};
        }
        removed := removed + 1;
      }
    }
    AllSnapshotsPassed(before, fs.rollbacks, newest, refused);
  }

  lemma NothingToPrune(before: map<Stamp, Snapshot>)
    requires |before| == 0
    ensures SnapshotsPruned(before, before, {})
  {
    assert before == map[];
  }

  lemma NoSnapshotPrunedYet(before: map<Stamp, Snapshot>, newest: Stamp)
    requires IsNewest(newest, before.Keys)
    ensures SnapshotPass(before, before, before.Keys, newest, {})
  {
  }

  lemma AllSnapshotsPassed(before: map<Stamp, Snapshot>, after: map<Stamp, Snapshot>, newest: Stamp,
                           refused: set<Stamp>)
    requires IsNewest(newest, before.Keys) && SnapshotPass(before, after, {}, newest, refused)
    ensures SnapshotsPruned(before, after, refused)
  {
    NewestIsNotObsolete(before, newest);
  }

  lemma NewestIsNotObsolete(before: map<Stamp, Snapshot>, newest: Stamp)
    requires IsNewest(newest, before.Keys)
    ensures forall k :: k in before ==> (Obsolete(k, before) <==> !before[k].keep && k != newest)
  {
    forall k | k in before && k != newest
      ensures newest.seconds > k.seconds
    {
    }
  }

  // ── The whole prune ─────────────────────────────────────────────────────────────────────────────────────────

  lemma BothPasses(before: map<DirName, Tree>, mid: map<DirName, Tree>, after: map<DirName, Tree>, all: seq<DirName>,
                   names: seq<DirName>, current: Option<string>, spare: Option<DirName>,
                   stale: set<DirName>, aged: set<DirName>, now: int)
    requires (forall n :: n in all <==> n in before) && StagingPass(before, mid, all, stale, now)
    requires forall n :: n in names <==> n in mid && n.ReleaseDir?
    requires ReleasePass(mid, after, names, current, spare, aged) && IsSpare(spare, mid, current)
    ensures Pruned(before, after, current, spare, stale + aged, now) && IsSpare(spare, before, current)
    ensures stale !! aged
  {
    forall n
      ensures Candidate(n, mid, current) <==> Candidate(n, before, current)
    {
    }
    forall n
      ensures n in aged ==> n.ReleaseDir?
      ensures n in stale ==> n.StagingDir?
    {
    }
  }

  /** The prune, whatever refuses to go: `refused` are the directories and snapshots a delete left behind. */
  method PruneOldReleases(fs: FileSystem, now: int)
    returns (r: Step, removed: nat, ghost spare: Option<DirName>, ghost refused: set<DirName>,
             ghost refusedSnapshots: set<Stamp>)
    modifies fs`releases, fs`rollbacks, fs`faults
    ensures fs.faults >= old(fs.faults)
    ensures fs.faults == old(fs.faults) ==> r.Ran? && refused == {} && refusedSnapshots == {}
    ensures !r.Failed?
    ensures CurrentUntouched(old(fs.releases), fs.releases, fs.current)
    ensures r.Ran? ==> IsSpare(spare, old(fs.releases), fs.current)
    ensures r.Ran? ==> Pruned(old(fs.releases), fs.releases, fs.current, spare, refused, now)
    ensures r.Ran? ==> (PrunedExactly(old(fs.releases), fs.releases, fs.current, spare, now) <==> refused == {})
    ensures r.Ran? ==> SnapshotsPruned(old(fs.rollbacks), fs.rollbacks, refusedSnapshots)
    ensures r.Ran? ==>
      var gone := |old(fs.releases)| - |fs.releases| + |old(fs.rollbacks)| - |fs.rollbacks|;
      && removed == gone + |refused| + |refusedSnapshots|
      && (removed == gone <==> refused == {} && refusedSnapshots == {})
  {
    hide StagingPass, ReleasePass, Pruned, PrunedExactly, IsSpare, CurrentUntouched, SnapshotsPruned;
    ghost var before := fs.releases;
    spare, refused, refusedSnapshots := None, {}, {};
    var dirs, stale, aged, snaps;
    ghost var all, refusedStale, refusedAged;
    r, dirs, stale, all, refusedStale := PruneStaging(fs, now);
    removed := 0;
    if r.Died? {
      return;
    }
    ghost var mid := fs.releases;
    ReleaseDirsListed(before, mid, dirs, all, refusedStale, now);
    var names := SortNewestFirst(dirs, fs.releases);
    r, aged, spare, refusedAged := PruneReleases(fs, names);
    UntouchedTwice(before, mid, fs.releases, fs.current);
    if r.Died? {
      return;
    }
    refused := refusedStale + refusedAged;
    BothPasses(before, mid, fs.releases, all, names, fs.current, spare, refusedStale, refusedAged, now);
    ExactWhenNothingRefused(before, fs.releases, fs.current, spare, refused, now);
    assert |refused| == |refusedStale| + |refusedAged|;
    r, snaps, refusedSnapshots := PruneSnapshots(fs);
    if r.Died? {
      return;
    }
    removed := stale + aged + snaps;
  }

  lemma ReleaseDirsListed(before: map<DirName, Tree>, mid: map<DirName, Tree>, dirs: seq<DirName>, all: seq<DirName>,
                          refused: set<DirName>, now: int)
    requires (forall n :: n in all <==> n in before) && StagingPass(before, mid, all, refused, now)
    requires forall n :: n in dirs <==> n in all && n.ReleaseDir?
    ensures forall n :: n in dirs <==> n in mid && n.ReleaseDir?
  {
  }

  lemma UntouchedTwice(before: map<DirName, Tree>, mid: map<DirName, Tree>, after: map<DirName, Tree>,
                       current: Option<string>)
    requires CurrentUntouched(before, mid, current) && CurrentUntouched(mid, after, current)
    ensures CurrentUntouched(before, after, current)
  {
  }

  // ── Refused deletes ─────────────────────────────────────────────────────────────────────────────────────────

  /** Exactly the survivors are left if and only if no delete refused. */
  lemma ExactWhenNothingRefused(before: map<DirName, Tree>, after: map<DirName, Tree>, current: Option<string>,
                                spare: Option<DirName>, refused: set<DirName>, now: int)
    requires Pruned(before, after, current, spare, refused, now)
    ensures PrunedExactly(before, after, current, spare, now) <==> refused == {}
  {
    if refused != {} {
      var n :| n in refused;
      assert n in after && !Survives(n, before[n], current, spare, now);
    }
  }

  /** A release that is neither live nor marked for recovery. */
  predicate Spare(name: string, releases: map<DirName, Tree>, current: Option<string>) {
    ReleaseDir(name) in releases && !releases[ReleaseDir(name)].keep && current != Some(name)
  }

  /** No such release is left but the one kept for a rollback by hand. */
  ghost predicate OnlyTheSpare(releases: map<DirName, Tree>, current: Option<string>, spare: Option<DirName>) {
    forall name :: Spare(name, releases, current) ==> spare == Some(ReleaseDir(name))
  }

  /** That is so if and only if no release directory refused. */
  lemma OneSpareWhenNoReleaseRefused(before: map<DirName, Tree>, after: map<DirName, Tree>, current: Option<string>,
                                     spare: Option<DirName>, refused: set<DirName>, now: int)
    requires Pruned(before, after, current, spare, refused, now)
    ensures OnlyTheSpare(after, current, spare) <==> forall n :: n in refused ==> n.StagingDir?
  {
    forall name | Spare(name, after, current)
      ensures spare == Some(ReleaseDir(name)) || ReleaseDir(name) in refused
    {
      var n := ReleaseDir(name);
      assert n in refused || Survives(n, before[n], current, spare, now);
    }
    if n :| n in refused && n.ReleaseDir? {
      assert !Survives(n, before[n], current, spare, now);
      assert Spare(n.version, after, current);
    }
  }

  /** Why it matters: what a refused delete left behind is the newest directory, so the next prune keeps that half of
      a release as the spare and deletes the whole one. */
  lemma HalfDeletedReleaseBecomesTheSpare(before: map<DirName, Tree>, after: map<DirName, Tree>,
                                          current: Option<string>, spare: DirName, half: DirName, now: int)
    requires IsSpare(Some(spare), before, current) && Pruned(before, after, current, Some(spare), {half}, now)
    requires half.ReleaseDir? && !after[half].whole && !after[half].failed && after[half].mtime > before[spare].mtime
    requires before[spare].whole && spare.ReleaseDir?
    ensures IsSpare(Some(half), after, current)
    ensures !Survives(spare, after[spare], current, Some(half), now) && Candidate(spare, after, current)
  {
    assert !Survives(half, before[half], current, Some(spare), now);
    assert spare != half && Survives(spare, before[spare], current, Some(spare), now);
    forall n | Candidate(n, after, current)
      ensures after[n].mtime <= after[half].mtime
    {
      if n != half {
        assert Candidate(n, before, current);
      }
    }
  }
}
