/**
 The root-owned plugin directory: the two-rename swap of an install, removal, and the sweep that repairs what a crash
 left.  Any step may be the last one before the process dies; a delete may also refuse silently and leave part behind.
 */
module Plugins {
  import opened Outcomes
  import opened PluginNames

  /** A directory's contents; `verified` means extracted in full, checked, and never cut into. */
  datatype Copy = Copy(build: string, verified: bool)

  type Dirs = map<PluginName, Copy>

  // ── What a sweep makes of the directory ─────────────────────────────────────────────────────────────────────

  ghost predicate NewestOld(dirs: Dirs, id: string, ts: nat) {
    Leftover(id, Old, ts) in dirs && forall t: nat :: Leftover(id, Old, t) in dirs ==> t <= ts
  }

  ghost predicate HasOld(dirs: Dirs, id: string) {
    exists ts: nat :: Leftover(id, Old, ts) in dirs
  }

  /** The copy that is live once the sweep has run: the live one, else the newest one moved aside, never a staging
      one. */
  ghost function SweepTarget(dirs: Dirs, id: string): Option<Copy> {
    if Live(id) in dirs then Some(dirs[Live(id)])
    else if ts: nat :| NewestOld(dirs, id, ts) then Some(dirs[Leftover(id, Old, ts)])
    else None
  }

  /** `a` and `b` hold the same directories for `id`. */
  ghost predicate AgreeOn(a: Dirs, b: Dirs, id: string) {
    forall n: PluginName :: n.id == id ==> (n in a <==> n in b) && (n in a ==> a[n] == b[n])
  }

  /** Only directories of `id` differ. */
  ghost predicate OnlyTouches(a: Dirs, b: Dirs, id: string) {
    forall n: PluginName :: n.id != id ==> (n in a <==> n in b) && (n in a ==> a[n] == b[n])
  }

  lemma TouchesTwice(a: Dirs, b: Dirs, c: Dirs, id: string)
    requires OnlyTouches(a, b, id) && OnlyTouches(b, c, id)
    ensures OnlyTouches(a, c, id)
  {
  }

  lemma {:induction false} NewestOf(names: set<PluginName>, id: string)
    requires names != {} && forall n :: n in names ==> n.Leftover? && n.kind == Old && n.id == id
    ensures exists m :: m in names && forall n :: n in names ==> n.ts <= m.ts
    decreases |names|
  {
    var k :| k in names;
    if names - {k} == {} {
      assert names == {k};
    } else {
      NewestOf(names - {k}, id);
      var m :| m in names - {k} && forall n :: n in names - {k} ==> n.ts <= m.ts;
      var top := if k.ts > m.ts then k else m;
      forall n | n in names
        ensures n.ts <= top.ts
      {
        assert n == k || n in names - {k};
      }
    }
  }

  lemma SomeOldIsNewest(dirs: Dirs, id: string)
    requires HasOld(dirs, id)
    ensures exists ts: nat :: NewestOld(dirs, id, ts)
  {
    var olds := set n | n in dirs && n.Leftover? && n.kind == Old && n.id == id;
    var t: nat :| Leftover(id, Old, t) in dirs;
    assert Leftover(id, Old, t) in olds;
    NewestOf(olds, id);
    var m :| m in olds && forall n :: n in olds ==> n.ts <= m.ts;
    forall u: nat | Leftover(id, Old, u) in dirs
      ensures u <= m.ts
    {
      assert Leftover(id, Old, u) in olds;
    }
    assert NewestOld(dirs, id, m.ts);
  }

  lemma TargetIsNewestOld(dirs: Dirs, id: string, ts: nat)
    requires Live(id) !in dirs && NewestOld(dirs, id, ts)
    ensures SweepTarget(dirs, id) == Some(dirs[Leftover(id, Old, ts)])
  {
  }

  lemma TargetIsLocal(a: Dirs, b: Dirs, id: string)
    requires AgreeOn(a, b, id)
    ensures SweepTarget(a, id) == SweepTarget(b, id)
  {
    assert Live(id).id == id;
    assert forall t: nat :: Leftover(id, Old, t).id == id;
    assert forall ts: nat :: NewestOld(a, id, ts) <==> NewestOld(b, id, ts);
    if Live(id) !in a {
      if ts: nat :| NewestOld(a, id, ts) {
        TargetIsNewestOld(a, id, ts);
        TargetIsNewestOld(b, id, ts);
      }
    }
  }

  lemma OthersKeepTheirTargets(a: Dirs, b: Dirs, id: string)
    requires OnlyTouches(a, b, id)
    ensures forall other :: other != id ==> SweepTarget(a, other) == SweepTarget(b, other)
  {
    forall other: string | other != id
      ensures SweepTarget(a, other) == SweepTarget(b, other)
    {
      TargetIsLocal(a, b, other);
    }
  }

  /** A plugin is gone for good exactly when no copy moved aside is left for a sweep to restore. */
  lemma GoneForGoodIff(dirs: Dirs, id: string)
    ensures SweepTarget(dirs - {Live(id)}, id) == None <==> !HasOld(dirs, id)
  {
    var rest := dirs - {Live(id)};
    if HasOld(dirs, id) {
      var t: nat :| Leftover(id, Old, t) in dirs;
      assert Leftover(id, Old, t) in rest;
      SomeOldIsNewest(rest, id);
    }
  }

  ghost function Aside(dirs: Dirs, id: string, ts: nat): Dirs
    requires Live(id) in dirs
  {
    (dirs - {Live(id)})[Leftover(id, Old, ts) := dirs[Live(id)]]
  }

  /** The live copy, moved aside under stamp `ts`, is what a sweep brings back exactly when every older leftover is
      older. */
  lemma AsideIsRecoveredIff(dirs: Dirs, id: string, ts: nat)
    requires Live(id) in dirs && Leftover(id, Old, ts) !in dirs
    ensures NewestOld(Aside(dirs, id, ts), id, ts) <==> Past(dirs, id, ts)
  {
    var aside := Aside(dirs, id, ts);
    assert forall t: nat :: Leftover(id, Old, t) in aside <==> Leftover(id, Old, t) in dirs || t == ts;
  }

  lemma NothingToRestore(dirs: Dirs, id: string, olds: set<PluginName>)
    requires Live(id) !in dirs && olds == {}
    requires forall n :: n in olds <==> n in dirs && n.Leftover? && n.id == id && n.kind == Old
    ensures !HasOld(dirs, id) && SweepTarget(dirs, id) == None
  {
    assert forall t: nat :: Leftover(id, Old, t) !in olds;
  }

  lemma NewestIsNewest(dirs: Dirs, olds: set<PluginName>, newest: PluginName, id: string)
    requires Live(id) !in dirs
    requires forall n :: n in olds <==> n in dirs && n.Leftover? && n.id == id && n.kind == Old
    requires newest in olds && forall n :: n in olds ==> n.ts <= newest.ts
    ensures SweepTarget(dirs, id) == Some(dirs[newest])
  {
    assert forall t: nat :: Leftover(id, Old, t) in dirs <==> Leftover(id, Old, t) in olds;
    assert NewestOld(dirs, id, newest.ts);
  }

  lemma NoOldAppears(here: Dirs, after: Dirs, id: string)
    requires Live(id) !in after && !HasOld(here, id)
    requires forall n: PluginName :: n.Leftover? && n.kind == Old ==> (n in after <==> n in here)
    ensures SweepTarget(after, id) == None
  {
    assert forall t: nat :: Leftover(id, Old, t) !in after;
  }

  lemma OwnTargetIsLive(here: Dirs, after: Dirs, id: string)
    requires OnlyTouches(here, after, id) && SweepTarget(here, id) == SweepTarget(after, id)
    ensures forall other :: other != id ==> (Live(other) in here <==> Live(other) in after)
  {
  }

  lemma TargetOfLive(dirs: Dirs, id: string)
    requires Live(id) in dirs
    ensures SweepTarget(dirs, id) == Some(dirs[Live(id)])
  {
  }

  lemma SameOlds(a: Dirs, b: Dirs, id: string, ts: nat)
    requires forall n: PluginName :: n.Live? || n.kind == Old ==> (n in a <==> n in b) && (n in a ==> a[n] == b[n])
    ensures SweepTarget(a, id) == SweepTarget(b, id)
    ensures HasOld(a, id) <==> HasOld(b, id)
    ensures Past(a, id, ts) <==> Past(b, id, ts)
  {
    assert forall t: nat :: Leftover(id, Old, t) in a <==> Leftover(id, Old, t) in b;
    assert forall t: nat :: NewestOld(a, id, t) <==> NewestOld(b, id, t);
    if t: nat :| NewestOld(a, id, t) {
      assert Leftover(id, Old, t).kind == Old;
      if Live(id) !in a {
        TargetIsNewestOld(a, id, t);
        TargetIsNewestOld(b, id, t);
      }
    }
  }

  /** Before the new copy is in, the directory is as it was, or as it was with the live copy moved aside. */
  lemma StagingIsNoTarget(before: Dirs, after: Dirs, id: string, ts: nat, moved: bool)
    requires Live(id) !in after && (moved <==> Live(id) in before)
    requires after == if moved then Aside(before, id, ts) else before
    ensures !moved || Past(before, id, ts) ==> SweepTarget(after, id) == SweepTarget(before, id)
  {
    if moved && Past(before, id, ts) {
      AsideKeepsTheTarget(before, id, ts);
    }
  }

  /** The stamp is past that of every copy of the plugin moved aside. */
  ghost predicate Past(dirs: Dirs, id: string, ts: nat) {
    forall t: nat :: Leftover(id, Old, t) in dirs ==> t < ts
  }

  lemma AsideKeepsTheTarget(dirs: Dirs, id: string, ts: nat)
    requires Live(id) in dirs && Past(dirs, id, ts)
    ensures SweepTarget(Aside(dirs, id, ts), id) == SweepTarget(dirs, id)
  {
    var aside := Aside(dirs, id, ts);
    AsideIsRecoveredIff(dirs, id, ts);
    TargetIsNewestOld(aside, id, ts);
  }

  lemma OldsAfterSwap(before: Dirs, after: Dirs, id: string, ts: nat, clean: bool)
    requires forall t: nat :: Leftover(id, Old, t) in after ==> Leftover(id, Old, t) in before || (t == ts && !clean)
    ensures clean && !HasOld(before, id) ==> !HasOld(after, id)
  {
  }

  class PluginDir {
    var dirs: Dirs
    ghost var refusals: nat  // how many deletes have been refused
    ghost var faults: nat    // and how much else has gone wrong: deaths, errors, downloads and archives turned down

    // ── Steps ─────────────────────────────────────────────────────────────────────────────────────────────────

    /** shutil.rmtree with errors ignored: gone (Ran), refused part-way (Failed), or cut short by a crash (Died). */
    method RemoveTree(n: PluginName) returns (r: Step)
      requires n in dirs
      modifies this
      ensures faults >= old(faults) && (faults == old(faults) ==> r.Ran?)
      ensures refusals == old(refusals) + if r.Failed? then 1 else 0
      ensures OnlyTouches(old(dirs), dirs, n.id)
      ensures r.Ran? ==> dirs == old(dirs) - {n}
      ensures r.Failed? ==> n in dirs
      ensures n in dirs ==> dirs[n] == old(dirs)[n] || !dirs[n].verified
      ensures forall m :: m != n ==> (m in dirs <==> m in old(dirs)) && (m in dirs ==> dirs[m] == old(dirs)[m])
    {
      if * {
        faults := faults + 1;
        return Died;
      }
      var build: string := *;
      dirs := dirs[n := Copy(build, false)];
      if * {
        faults := faults + 1;
        return Died;
      }
      if * {
        faults := faults + 1;
        refusals := refusals + 1;
        return Failed;
      }
      dirs := dirs - {n};
      if * {
        faults := faults + 1;
        return Died;
      }
      return Ran;
    }

    /** os.rename onto a free name or an empty directory, in one step. */
    method Rename(from: PluginName, to: PluginName) returns (r: Step)
      requires from in dirs
      modifies this`dirs, this`faults
      ensures faults >= old(faults) && (faults == old(faults) ==> r.Ran?)
      ensures from.id == to.id ==> OnlyTouches(old(dirs), dirs, from.id)
      ensures r.Ran? ==> dirs == (old(dirs) - {from})[to := old(dirs)[from]]
      ensures r.Failed? ==> dirs == old(dirs)
      ensures r.Died? ==> dirs == old(dirs) || dirs == (old(dirs) - {from})[to := old(dirs)[from]]
    {
      if * {
        faults := faults + 1;
        return Died;
      }
      if * {
        faults := faults + 1;
        return Failed;
      }
      dirs := (dirs - {from})[to := dirs[from]];
      if * {
        faults := faults + 1;
        return Died;
      }
      return Ran;
    }

    // ── The sweep ─────────────────────────────────────────────────────────────────────────────────────────────

    /** Every leftover in `entries` deleted; the live copy is not among them.  Here and below `clean` says that no
        delete was refused; a crash does not clear it. */
    method Discard(id: string, entries: set<PluginName>) returns (r: Step, clean: bool)
      requires forall n :: n in entries ==> n in dirs && n.Leftover? && n.id == id
      modifies this
      ensures faults >= old(faults) && (faults == old(faults) ==> r.Ran? && clean)
      ensures refusals >= old(refusals) && (clean <==> refusals == old(refusals))
      ensures !r.Failed?
      ensures forall n :: n !in entries ==> (n in dirs <==> n in old(dirs)) && (n in dirs ==> dirs[n] == old(dirs)[n])
      ensures r.Ran? && clean ==> dirs == old(dirs) - entries
      ensures r.Ran? && !clean ==> exists n :: n in entries && n in dirs
    {
      r, clean := Ran, true;
      var left := entries;
      while left != {}
        invariant refusals >= old(refusals) && (clean <==> refusals == old(refusals))
        invariant left <= entries
        invariant faults >= old(faults) && (faults == old(faults) ==> clean)
        invariant forall n :: n in left ==> n in dirs
        invariant forall n :: n !in entries ==>
          (n in dirs <==> n in old(dirs)) && (n in dirs ==> dirs[n] == old(dirs)[n])
        invariant clean ==> dirs == old(dirs) - (entries - left)
        invariant !clean ==> exists n :: n in entries - left && n in dirs
        decreases |left|
      {
        var n :| n in left;
        r := RemoveTree(n);
        if r.Died? {
          return;
        }
        clean := clean && !r.Failed?;
        left := left - {n};
      }
      r := Ran;
    }

    method SweepOne(id: string) returns (r: Step, clean: bool)
      modifies this
      ensures faults >= old(faults) && (faults == old(faults) ==> r.Ran? && clean)
      ensures refusals >= old(refusals) && (clean <==> refusals == old(refusals))
      ensures OnlyTouches(old(dirs), dirs, id)
      ensures SweepTarget(dirs, id) == SweepTarget(old(dirs), id)
      ensures Live(id) in old(dirs) ==> Live(id) in dirs
      ensures r.Ran? && SweepTarget(dirs, id).Some? ==> Live(id) in dirs
      ensures r.Ran? ==> (clean <==> forall n :: n in dirs && n.id == id ==> n.Live?)
    {
      var entries := set n | n in dirs && n.Leftover? && n.id == id;
      clean := true;
      if Live(id) !in dirs {
        var olds := set n | n in entries && n.kind == Old;
        if olds == {} {
          NothingToRestore(dirs, id, olds);
        } else {
          NewestOf(olds, id);
          var newest :| newest in olds && forall n :: n in olds ==> n.ts <= newest.ts;
          NewestIsNewest(dirs, olds, newest, id);
          r := Rename(newest, Live(id));
          if !r.Ran? {
            return r, true;
          }
          entries := entries - {newest};
        }
      }
      ghost var here := dirs;
      r, clean := Discard(id, entries);
      if Live(id) !in here {
        NoOldAppears(here, dirs, id);
      }
    }

    /** The sweep at the start of every run of requests. */
    method Sweep() returns (r: Step, clean: bool)
      modifies this
      ensures faults >= old(faults) && (faults == old(faults) ==> r.Ran? && clean)
      ensures refusals >= old(refusals) && (clean <==> refusals == old(refusals))
      ensures forall id :: SweepTarget(dirs, id) == SweepTarget(old(dirs), id)
      ensures forall id :: Live(id) in old(dirs) ==> Live(id) in dirs
      ensures r.Ran? ==> forall id :: SweepTarget(dirs, id).Some? ==> Live(id) in dirs
      ensures r.Ran? ==> (clean <==> forall n :: n in dirs ==> n.Live?)
    {
      var ids := set n | n in dirs && n.Leftover? :: n.id;
      assert forall n :: n in dirs && n.Leftover? ==> n.id in ids;
      r, clean := Ran, true;
      var left := ids;
      forall id | id !in ids
        ensures SweepTarget(dirs, id).Some? ==> Live(id) in dirs
      {
        assert forall t: nat :: Leftover(id, Old, t).id == id;
      }
      while left != {}
        invariant faults >= old(faults) && (faults == old(faults) ==> clean)
        invariant refusals >= old(refusals) && (clean <==> refusals == old(refusals))
        invariant forall id :: SweepTarget(dirs, id) == SweepTarget(old(dirs), id)
        invariant forall id :: Live(id) in old(dirs) ==> Live(id) in dirs
        invariant forall id :: id !in left && SweepTarget(dirs, id).Some? ==> Live(id) in dirs
        invariant clean <==> forall n :: n in dirs && n.id !in left ==> n.Live?
        decreases |left|
      {
        hide SweepTarget, NewestOld;
        var id :| id in left;
        ghost var here := dirs;
        var tidy;
        r, tidy := SweepOne(id);
        OthersKeepTheirTargets(here, dirs, id);
        OwnTargetIsLive(here, dirs, id);
        clean := clean && tidy;
        if !r.Ran? {
          return;
        }
        left := left - {id};
      }
      r := Ran;
    }

    // ── Install and remove ────────────────────────────────────────────────────────────────────────────────────

    /** Build under a staging name, move the live copy aside, move the new one in.  Whatever the clock says, what a
        sweep would make live is kept unless the live copy was moved aside under a stamp that is not past every
        leftover's. */
    method InstallOne(id: string, stagedAt: nat, ts: nat, build: string) returns (r: Step, ok: bool, clean: bool)
      modifies this
      ensures faults >= old(faults) && (faults == old(faults) ==> r.Ran? && ok && clean)
      ensures refusals >= old(refusals) && (clean <==> refusals == old(refusals))
      ensures OnlyTouches(old(dirs), dirs, id)
      ensures Past(old(dirs), id, ts) || Live(id) !in old(dirs) || Live(id) in dirs ==>
        SweepTarget(dirs, id) == SweepTarget(old(dirs), id) || SweepTarget(dirs, id) == Some(Copy(build, true))
      ensures r.Ran? && ok ==> Live(id) in dirs && dirs[Live(id)] == Copy(build, true)
      ensures r.Ran? && !ok ==>
        AgreeOn(old(dirs), dirs - {Leftover(id, Staging, stagedAt)}, id) || Leftover(id, Staging, stagedAt) in old(dirs)
      ensures r.Ran? && clean && !HasOld(old(dirs), id) ==> !HasOld(dirs, id)
      ensures !clean ==> r.Ran? && (Leftover(id, Staging, stagedAt) in dirs || Leftover(id, Old, ts) in dirs)
    {
      hide SweepTarget, NewestOld, HasOld, Past;
      ghost var before := dirs;
      ok, clean := false, true;
      if * {
        // registry, pin or checksum refused
        faults := faults + 1;
        return Ran, false, true;
      }
      var staging := Leftover(id, Staging, stagedAt);
      var partial: string := *;
      dirs := dirs[staging := Copy(partial, false)];
      SameOlds(before, dirs, id, ts);
      if * {
        faults := faults + 1;
        return Died, false, true;
      }
      if * {
        // extraction, manifest or requires_jen refused
        faults := faults + 1;
        r := RemoveTree(staging);
        SameOlds(before, dirs, id, ts);
        if r.Died? {
          return r, false, true;
        }
        return Ran, false, r.Ran?;
      }
      dirs := dirs[staging := Copy(build, true)];
      SameOlds(before, dirs, id, ts);
      r, clean := SwapIn(id, staging, ts);
      ok := r.Ran?;
    }

    /** The live copy, if there is one, out of the way. */
    method MoveAside(id: string, ts: nat) returns (r: Step, moved: bool)
      modifies this`dirs, this`faults
      ensures faults >= old(faults) && (faults == old(faults) ==> r.Ran?)
      ensures OnlyTouches(old(dirs), dirs, id)
      ensures moved <==> Live(id) in old(dirs)
      ensures dirs == old(dirs) || (moved && dirs == Aside(old(dirs), id, ts))
      ensures r.Ran? && moved ==> dirs == Aside(old(dirs), id, ts)
    {
      r, moved := Ran, Live(id) in dirs;
      if moved {
        if Leftover(id, Old, ts) in dirs {
          // a rename onto a directory that is not empty refuses
          if * {
            faults := faults + 1;
            return Failed, moved;
          }
        }
        r := Rename(Live(id), Leftover(id, Old, ts));
      }
    }

    /** The two renames. */
    method SwapIn(id: string, staging: PluginName, ts: nat) returns (r: Step, clean: bool)
      requires staging in dirs && staging.Leftover? && staging.kind == Staging && staging.id == id
      modifies this
      ensures faults >= old(faults) && (faults == old(faults) ==> r.Ran? && clean)
      ensures refusals >= old(refusals) && (clean <==> refusals == old(refusals))
      ensures OnlyTouches(old(dirs), dirs, id)
      ensures Past(old(dirs), id, ts) || Live(id) !in old(dirs) || Live(id) in dirs ==>
        SweepTarget(dirs, id) == SweepTarget(old(dirs), id) || SweepTarget(dirs, id) == Some(old(dirs)[staging])
      ensures r.Ran? ==> Live(id) in dirs && dirs[Live(id)] == old(dirs)[staging]
      ensures r.Ran? && clean && !HasOld(old(dirs), id) ==> !HasOld(dirs, id)
      ensures !clean ==> r.Ran? && Leftover(id, Old, ts) in dirs
    {
      hide SweepTarget, NewestOld, HasOld, Past, OnlyTouches;
      ghost var before := dirs;
      var live, aside := Live(id), Leftover(id, Old, ts);
      clean := true;
      var moved;
      r, moved := MoveAside(id, ts);
      if moved && Past(before, id, ts) {
        AsideKeepsTheTarget(before, id, ts);
      }
      if !r.Ran? {
        return;
      }
      ghost var mid := dirs;
      r := Rename(staging, live);
      TouchesTwice(before, mid, dirs, id);
      if live in dirs {
        TargetOfLive(dirs, id);
      } else {
        StagingIsNoTarget(before, dirs, id, ts, moved);
      }
      if !r.Ran? {
        return;
      }
      if !moved {
        OldsAfterSwap(before, dirs, id, ts, clean);
        return;
      }
      ghost var swapped := dirs;
      r := RemoveTree(aside);
      TouchesTwice(before, swapped, dirs, id);
      clean := !r.Failed?;
      TargetOfLive(dirs, id);
      if !r.Died? {
        OldsAfterSwap(before, dirs, id, ts, clean);
        r := Ran;
      }
    }

    /** The live copy deleted.  A removal that dies leaves it whole, cut or gone; one whose delete is refused leaves
        it there; one that completes otherwise is final exactly when no copy moved aside is left. */
    method Remove(id: string) returns (r: Step, clean: bool)
      modifies this
      ensures faults >= old(faults) && (faults == old(faults) ==> r.Ran? && clean)
      ensures refusals >= old(refusals) && (clean <==> refusals == old(refusals))
      ensures !r.Failed?
      ensures forall n :: n != Live(id) ==> (n in dirs <==> n in old(dirs)) && (n in dirs ==> dirs[n] == old(dirs)[n])
      ensures Live(id) in dirs ==>
        Live(id) in old(dirs) && (dirs[Live(id)] == old(dirs)[Live(id)] || !dirs[Live(id)].verified)
      ensures if r.Ran? then clean <==> Live(id) !in dirs else clean
      ensures HasOld(dirs, id) <==> HasOld(old(dirs), id)
      ensures r.Ran? && clean ==> (SweepTarget(dirs, id) == None <==> !HasOld(old(dirs), id))
      ensures SweepTarget(old(dirs), id) == None ==> dirs == old(dirs)
    {
      r, clean := Ran, true;
      ghost var before := dirs;
      if Live(id) in dirs {
        r := RemoveTree(Live(id));
        clean := !r.Failed?;
        if r.Failed? {
          r := Ran;
        }
      }
      assert forall t: nat :: Leftover(id, Old, t) in dirs <==> Leftover(id, Old, t) in before;
      GoneForGoodIff(before, id);
      assert before - {Live(id)} == before || Live(id) in before;
      assert r.Ran? && clean ==> dirs == before - {Live(id)};
    }

    /** Any number of runs, each a sweep and an install under whatever the clock says, each allowed to die anywhere:
        the plugin keeps a verified copy to go live, and has it live after any sweep that completes.  `behind`: a run
        died with the live copy moved aside under a stamp no later than that of a copy an earlier delete had left. */
    method KeepInstalling(id: string, runs: nat) returns (swept: bool, ghost behind: bool)
      requires HasACopy(dirs, id)
      modifies this
      ensures !behind ==> HasACopy(dirs, id)
      ensures swept && !behind ==> Live(id) in dirs && dirs[Live(id)].verified
    {
      behind := false;
      for i := 0 to runs
        invariant !behind ==> HasACopy(dirs, id)
      {
        hide NewestOld, Past;
        var r, clean := Sweep();
        if r.Ran? {
          var stagedAt: nat, ts: nat :| stagedAt >= 0 && ts >= 0;
          var build: string := *;
          var ok;
          ghost var here := dirs;
          r, ok, clean := InstallOne(id, stagedAt, ts, build);
          behind := behind || (Live(id) in here && Live(id) !in dirs && !Past(here, id, ts));
        }
      }
      var r, clean := Sweep();
      swept := r.Ran?;
    }
  }

  ghost predicate HasACopy(dirs: Dirs, id: string) {
    SweepTarget(dirs, id).Some? && SweepTarget(dirs, id).value.verified
  }
}
