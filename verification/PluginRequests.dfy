/**
 Draining the plugin request markers.  What a run can promise depends on who else writes markers while it is going and
 on whether the markers it deletes do go; others write before a listing or before a request, never in the middle of one.
 */
module PluginRequests {
  import opened Outcomes
  import opened PluginNames
  import opened Plugins
  import opened PluginMarkers
  import opened PluginRemovals
  import opened PluginRuns

  const MAX_PASSES := 20

  class RequestDir {
    var markers: map<Marker, Shape>
    var results: map<Marker, string>
    const plugins: PluginDir

    constructor (plugins: PluginDir)
      ensures this.plugins == plugins
    {
      this.plugins := plugins;
      markers, results := map[], map[];
    }

    method ListMarkers() returns (s: seq<Marker>)
      ensures Sorted(s) && AllOf(s, markers)
    {
      s := [];
      var left := markers.Keys;
      while left != {}
        invariant left <= markers.Keys
        invariant Sorted(s) && forall m :: m in s <==> m in markers.Keys - left
        decreases |left|
      {
        var m :| m in left;
        s, left := Insert(m, s), left - {m};
      }
    }

    ghost function Now(): View
      reads this, plugins
    {
      View(markers, plugins.dirs)
    }

    /** www-data at work. */
    method Interfere(mode: Mode)
      modifies this`markers
      ensures Interfered(mode, old(markers), markers)
    {
      match mode
      case Adding(gone) =>
        var more: map<Marker, Shape> := *;
        markers := markers + map m | m in more && m !in markers && (m.action != Install || m.id !in gone) :: more[m];
      case Shared =>
        markers := *;
      case _ =>
    }

    /** os.remove with errors swallowed. */
    method Unlink(m: Marker, mode: Mode) returns (r: Step)
      modifies this`markers, plugins`faults
      ensures plugins.faults >= old(plugins.faults) && (plugins.faults == old(plugins.faults) ==> r.Ran?)
      ensures !r.Failed?
      ensures markers == old(markers) || (r.Ran? && markers == old(markers) - {m})
      ensures r.Ran? && (mode.Quiet? || mode.Adding?) ==> markers == old(markers) - {m}
    {
      if * {
        plugins.faults := plugins.faults + 1;
        return Died;
      }
      var refused: bool := *;
      if mode.Quiet? || mode.Adding? || !refused {
        markers := markers - {m};
      }
      return Ran;
    }

    method WriteResult(m: Marker, result: string, mode: Mode) returns (r: Step)
      modifies this`results, plugins`faults
      ensures plugins.faults >= old(plugins.faults) && (plugins.faults == old(plugins.faults) ==> r.Ran?)
      ensures !r.Failed?
      ensures results == old(results) || results == old(results) - {m} || results == old(results)[m := result]
      ensures mode.Quiet? && r.Ran? ==> results == old(results)[m := result]
    {
      results := results - {m};
      if * {
        plugins.faults := plugins.faults + 1;
        return Died;
      }
      if !mode.Quiet? {
        if * {
          return Ran;
        }
      }
      results := results[m := result];
      return Ran;
    }

    /** The action itself: an install, a dependency install, or a removal, and the line to report. */
    method Act(m: Marker) returns (r: Step, clean: bool, result: string, ghost behind: bool)
      modifies plugins
      ensures plugins.faults >= old(plugins.faults)
      ensures plugins.faults == old(plugins.faults) ==> r.Ran? && clean && (m.action != Deps ==> result == "ok")
      ensures plugins.refusals >= old(plugins.refusals)
      ensures clean <==> plugins.refusals == old(plugins.refusals)
      ensures OnlyTouches(old(plugins.dirs), plugins.dirs, m.id)
      ensures m.action != Remove && !behind ==> KeepsItsCopy(old(plugins.dirs), plugins.dirs, m.id)
      ensures !HasOld(old(plugins.dirs), m.id) ==> !behind
      ensures r.Ran? && clean && !HasOld(old(plugins.dirs), m.id) ==> !HasOld(plugins.dirs, m.id)
      ensures r.Ran? && clean && !HasOld(old(plugins.dirs), m.id) && m.action == Remove ==>
        SweepTarget(plugins.dirs, m.id) == None
      ensures m.action != Install && SweepTarget(old(plugins.dirs), m.id) == None ==>
        SweepTarget(plugins.dirs, m.id) == None
      ensures r.Ran? && m.action == Remove ==> result == "ok"
      ensures r.Ran? && m.action == Install && result == "ok" ==>
        Live(m.id) in plugins.dirs && plugins.dirs[Live(m.id)].verified
    {
      hide SweepTarget, NewestOld, HasOld, Past;
      behind := false;
      match m.action
      case Install =>
        var stagedAt: nat, ts: nat :| stagedAt >= 0 && ts >= 0;
        ghost var here := plugins.dirs;
        var build: string := *;
        var ok;
        r, ok, clean := plugins.InstallOne(m.id, stagedAt, ts, build);
        result := if ok then "ok" else "error";
        behind := !Past(here, m.id, ts);
        NothingLeftIsPast(here, m.id, ts);
      case Deps =>
        r, clean := Ran, true;
        result := *;
        if * {
          plugins.faults := plugins.faults + 1;
          r := Died;
        }
      case Remove =>
        r, clean := plugins.Remove(m.id);
        result := "ok";
    }

    /** One marker.  `finished`: the request was acted on, and the action did not die. */
    method ProcessOne(m: Marker, mode: Mode)
      returns (r: Step, clean: bool, acted: bool, finished: bool, ghost behind: bool)
      modifies this, plugins
      ensures plugins.faults >= old(plugins.faults) && (plugins.faults == old(plugins.faults) ==> r.Ran? && clean)
      ensures plugins.faults == old(plugins.faults) && acted && m.action == Install ==> HasACopy(plugins.dirs, m.id)
      ensures plugins.refusals >= old(plugins.refusals)
      ensures clean <==> plugins.refusals == old(plugins.refusals)
      ensures OneDone(mode, m, old(Now()), Now(), old(results), results, r.Ran?, acted, finished)
      ensures m.action != Remove && !behind ==> KeepsItsCopy(old(plugins.dirs), plugins.dirs, m.id)
      ensures !HasOld(old(plugins.dirs), m.id) ==> !behind
      ensures r.Ran? && clean && !HasOld(old(plugins.dirs), m.id) ==> !HasOld(plugins.dirs, m.id)
      ensures finished && clean && !HasOld(old(plugins.dirs), m.id) && m.action == Remove ==>
        SweepTarget(plugins.dirs, m.id) == None
      ensures r.Ran? && acted && mode.Quiet? && m.action == Remove ==> results[m] == "ok"
      ensures r.Ran? && acted && mode.Quiet? && m.action == Install && results[m] == "ok" ==>
        Live(m.id) in plugins.dirs && plugins.dirs[Live(m.id)].verified
    {
      hide SweepTarget, NewestOld, HasOld, HasACopy;
      r, clean, acted, finished, behind := Ran, true, false, false, false;
      ghost var goes := mode.Quiet? || mode.Adding?;
      if m !in markers {
        assert Cleared(markers, [m]) == markers;
        return;
      }
      if !markers[m].Regular? {
        if markers[m].Link? {
          r := Unlink(m, mode);
          assert goes && r.Ran? ==> markers == Cleared(old(markers), [m]);
        } else {
          assert Cleared(markers, [m]) == markers;
        }
        return;
      }
      if !ValidId(m.id) {
        r := Unlink(m, mode);
        assert goes && r.Ran? ==> markers == Cleared(old(markers), [m]);
        return;
      }
      acted := true;
      var result;
      r, clean, result, behind := Act(m);
      if !r.Ran? {
        return;
      }
      finished := true;
      if m.action == Install && result == "ok" {
        LiveIsACopy(plugins.dirs, m.id);
      }
      r := Unlink(m, mode);
      assert goes && r.Ran? ==> markers == Cleared(old(markers), [m]);
      if r.Died? {
        return;
      }
      r := WriteResult(m, result, mode);
    }

    /** One pass over a listing.  All of `acted` but possibly the last was finished. */
    method Pass(listing: seq<Marker>, mode: Mode)
      returns (r: Step, clean: bool, acted: seq<Marker>, finished: nat, ghost behind: bool)
      requires Sorted(listing) && AllOf(listing, markers)
      modifies this, plugins
      ensures plugins.faults >= old(plugins.faults) && (plugins.faults == old(plugins.faults) ==> r.Ran? && clean)
      ensures plugins.faults == old(plugins.faults) && NoOlds(old(plugins.dirs)) ==> Installed(acted, plugins.dirs)
      ensures plugins.refusals >= old(plugins.refusals)
      ensures clean <==> plugins.refusals == old(plugins.refusals)
      ensures if r.Ran? then finished == |acted| else finished <= |acted| <= finished + 1
      ensures forall m :: m in acted ==> m in listing
      ensures acted == [] ==> plugins.dirs == old(plugins.dirs)
      ensures !behind ==> CopiesKept(acted, old(plugins.dirs), plugins.dirs)
      ensures StaysGone(acted, old(plugins.dirs), plugins.dirs)
      // however it ends, as long as no delete was refused
      ensures clean && NoOlds(old(plugins.dirs)) ==> !behind && Gone(acted[..finished], plugins.dirs)
      ensures r.Ran? && clean && NoOlds(old(plugins.dirs)) ==> NoOlds(plugins.dirs)
      ensures
        var kept := clean && NoOlds(old(plugins.dirs));
        PassEnds(mode, listing, old(Now()), Now(), old(results), results, acted, r.Ran?, kept)
    {
      hide SweepTarget, HasOld, IsRequest, CopiesKept, Gone, StaysGone, NoOlds, AllOf, PassSoFar, PassEnds, Sorted,
           Interfered, OneDone, DirsSoFar, Installed, HasACopy, OnlyTouches;
      ghost var start, was := Now(), results;
      r, clean, acted, finished, behind := Ran, true, [], 0, false;
      ghost var kept := NoOlds(start.dirs);
      NothingDone(start.dirs, kept);
      NothingInstalled(start.dirs);
      PassStarts(mode, listing, start, was, kept);
      for i := 0 to |listing|
        invariant plugins.faults >= old(plugins.faults) && (plugins.faults == old(plugins.faults) ==> clean)
        invariant plugins.faults == old(plugins.faults) && kept ==> Installed(acted, plugins.dirs)
        invariant plugins.refusals >= old(plugins.refusals)
        invariant clean <==> plugins.refusals == old(plugins.refusals)
        invariant finished == |acted| && kept == (clean && NoOlds(start.dirs))
        invariant forall m :: m in acted ==> m in listing[..i]
        invariant DirsSoFar(start.dirs, plugins.dirs, acted, finished, true, behind, kept)
        invariant PassSoFar(mode, listing, i, start, Now(), was, results, acted, kept)
      {
        var m := listing[i];
        SortedPrefix(listing, i);
        ghost var earlier := Now();
        Interfere(mode);
        ghost var here, had := Now(), results;
        PassBesideOthers(mode, listing, i, start, earlier, here, was, had, acted, kept);
        NoneLeft(start.dirs, here.dirs, acted, behind, kept, m.id);
        var tidy, actedNow, done;
        ghost var late;
        r, tidy, actedNow, done, late := ProcessOne(m, mode);
        PassStep(mode, listing, i, start, here, Now(), was, had, results, acted, r.Ran?, actedNow, done, kept,
                 kept && tidy);
        DirsStep(mode, start, here, Now(), had, results, acted, m, r.Ran?, actedNow, done, behind, late, kept,
                 kept && tidy);
        if plugins.faults == old(plugins.faults) && kept {
          InstalledStep(here.dirs, plugins.dirs, acted, m, actedNow);
        }
        OneMore(acted, m);
        clean, behind, kept := clean && tidy, behind || late, kept && tidy;
        acted, finished := if actedNow then acted + [m] else acted, if done then finished + 1 else finished;
        if !r.Ran? {
          DirsEnd(start.dirs, plugins.dirs, acted, finished, false, behind, kept);
          return;
        }
      }
      r := Ran;
      DirsEnd(start.dirs, plugins.dirs, acted, finished, true, behind, kept);
      PassStops(mode, listing, start, Now(), was, results, acted, kept);
    }

    // ── The drain ─────────────────────────────────────────────────────────────────────────────────────────────

    /** One more pass of a drain begun in `start`. */
    method NextPass(mode: Mode, listings: nat, previous: Option<seq<Marker>>, names: seq<Marker>, acted: seq<Marker>,
                    ghost start: View, ghost was: map<Marker, string>, ghost behind: bool, ghost kept: bool)
      returns (r: Step, tidy: bool, more: seq<Marker>, done: nat, ghost late: bool)
      requires listings > 0 && Sorted(names) && AllOf(names, markers) && names != [] && previous != Some(names)
      requires DrainSoFar(mode, listings - 1, previous, start, Now(), was, results, acted, kept)
      requires !behind ==> CopiesKept(acted, start.dirs, plugins.dirs)
      requires kept ==> !behind && NoOlds(plugins.dirs) && LastRemovalsHold(acted, |acted|, plugins.dirs)
      modifies this, plugins
      ensures plugins.faults >= old(plugins.faults) && (plugins.faults == old(plugins.faults) ==> r.Ran? && tidy)
      ensures plugins.refusals >= old(plugins.refusals) && (tidy <==> plugins.refusals == old(plugins.refusals))
      ensures if r.Ran? then done == |more| else done <= |more| <= done + 1
      ensures !behind && !late ==> CopiesKept(acted + more, start.dirs, plugins.dirs)
      ensures kept && tidy ==>
        !late && LastRemovalsHold(acted + more, |acted| + done, plugins.dirs) && (r.Ran? ==> NoOlds(plugins.dirs))
      ensures plugins.faults == old(plugins.faults) && kept && Installed(acted, old(plugins.dirs)) ==>
        Installed(acted + more, plugins.dirs)
      ensures
        if r.Ran? then DrainSoFar(mode, listings, Some(names), start, Now(), was, results, acted + more, kept && tidy)
        else DrainEnds(mode, listings, start, Now(), was, results, acted + more, false, kept && tidy)
    {
      hide CopiesKept, Gone, LastRemovalsHold, StaysGone, NoOlds, AllOf, Sorted, DrainSoFar, DrainEnds, PassEnds,
           Installed;
      ghost var here, had := Now(), results;
      r, tidy, more, done, late := Pass(names, mode);
      PassKept(mode, names, here, Now(), had, results, more, r.Ran?, tidy && NoOlds(here.dirs), kept && tidy);
      DrainPass(mode, listings, previous, names, start, here, Now(), was, had, results, acted, more, r.Ran?, kept,
                kept && tidy);
      if !behind && !late {
        CopiesAcross(start.dirs, here.dirs, plugins.dirs, acted, more);
        InstalledAcross(here.dirs, plugins.dirs, acted, more);
      }
      if kept && tidy {
        LastRemovalsAcross(acted, more, done, here.dirs, plugins.dirs);
      }
    }

    /** Pass after pass until nothing is left, a listing repeats, or the cap is reached. */
    method DrainMarkers(mode: Mode)
      returns (r: Step, listings: nat, clean: bool, acted: seq<Marker>, finished: nat, ghost behind: bool)
      modifies this, plugins
      ensures plugins.faults >= old(plugins.faults) && (plugins.faults == old(plugins.faults) ==> r.Ran? && clean)
      ensures plugins.faults == old(plugins.faults) && NoOlds(old(plugins.dirs)) ==> Installed(acted, plugins.dirs)
      ensures plugins.refusals >= old(plugins.refusals)
      ensures clean <==> plugins.refusals == old(plugins.refusals)
      ensures listings <= MAX_PASSES
      ensures if r.Ran? then finished == |acted| else finished <= |acted| <= finished + 1
      ensures !behind ==> CopiesKept(acted, old(plugins.dirs), plugins.dirs)
      ensures clean && NoOlds(old(plugins.dirs)) ==> !behind && LastRemovalsHold(acted, finished, plugins.dirs)
      ensures
        var kept := clean && NoOlds(old(plugins.dirs));
        DrainEnds(mode, listings, old(Now()), Now(), old(results), results, acted, r.Ran?, kept)
    {
      hide CopiesKept, LastRemovalsHold, NoOlds, AllOf, Sorted, Interfered, DrainSoFar, DrainEnds, Installed;
      ghost var start, was := Now(), results;
      r, listings, clean, acted, finished, behind := Ran, 0, true, [], 0, false;
      var previous: Option<seq<Marker>>, stopped := None, false;
      NothingRemoved(plugins.dirs);
      NothingInstalled(plugins.dirs);
      DrainStarts(mode, start, was, NoOlds(start.dirs));
      while listings < MAX_PASSES
        invariant plugins.faults >= old(plugins.faults) && (plugins.faults == old(plugins.faults) ==> clean)
        invariant plugins.faults == old(plugins.faults) && NoOlds(start.dirs) ==> Installed(acted, plugins.dirs)
        invariant plugins.refusals >= old(plugins.refusals)
        invariant clean <==> plugins.refusals == old(plugins.refusals)
        invariant listings <= MAX_PASSES && finished == |acted| && r.Ran? && !stopped
        invariant !behind ==> CopiesKept(acted, start.dirs, plugins.dirs)
        invariant clean && NoOlds(start.dirs) ==>
          !behind && NoOlds(plugins.dirs) && LastRemovalsHold(acted, finished, plugins.dirs)
        invariant listings == 0 ==> previous == None
        invariant DrainSoFar(mode, listings, previous, start, Now(), was, results, acted, clean && NoOlds(start.dirs))
        decreases MAX_PASSES - listings
      {
        ghost var kept := clean && NoOlds(start.dirs);
        ghost var earlier := Now();
        Interfere(mode);
        DrainBesideOthers(mode, listings, previous, start, earlier, Now(), was, results, acted, kept);
        if * {
          plugins.faults := plugins.faults + 1;
          r := Died;
          break;
        }
        var names := ListMarkers();
        listings := listings + 1;
        DrainListing(mode, listings, previous, names, start, Now(), was, results, acted, kept);
        if names == [] || previous == Some(names) {
          stopped := true;
          break;
        }
        var tidy, more, done;
        ghost var late;
        r, tidy, more, done, late := NextPass(mode, listings, previous, names, acted, start, was, behind, kept);
        clean, behind, finished := clean && tidy, behind || late, |acted| + done;
        acted, previous := acted + more, Some(names);
        if !r.Ran? {
          break;
        }
      }
      if r.Ran? && !stopped {
        DrainStops(mode, listings, previous, start, Now(), was, results, acted, clean && NoOlds(start.dirs));
      }
    }

    /** A run of the updater for plugins: a sweep, then the drain. */
    method ProcessRequests(mode: Mode)
      returns (r: Step, listings: nat, clean: bool, acted: seq<Marker>, finished: nat, ghost behind: bool)
      modifies this, plugins
      // nothing goes wrong: it completes, and every plugin asked for and not removed has a verified copy
      ensures plugins.faults >= old(plugins.faults)
      ensures plugins.faults == old(plugins.faults) ==> r.Ran? && clean && Installed(acted, plugins.dirs)
      ensures plugins.refusals >= old(plugins.refusals)
      ensures clean <==> plugins.refusals == old(plugins.refusals)
      ensures listings <= MAX_PASSES
      ensures if r.Ran? then finished == |acted| else finished <= |acted| <= finished + 1
      ensures !behind ==> CopiesKept(acted, old(plugins.dirs), plugins.dirs)
      // however it ends, as long as no delete was refused
      ensures clean ==> !behind && LastRemovalsHold(acted, finished, plugins.dirs)
      ensures DrainEnds(mode, listings, old(Now()), Now(), old(results), results, acted, r.Ran?, clean)
      ensures r.Ran? && clean && mode.Quiet? ==> Gone(acted, plugins.dirs)
      // and by the pattern of the ids
      ensures r.Ran? && mode.Quiet? ==> AnsweredOnce(old(markers), old(results), results, acted)
    {
      hide SweepTarget, HasOld, HasACopy, CopiesKept, Gone, LastRemovalsHold, NoOlds, DrainEnds, Installed;
      ghost var start, was := Now(), results;
      listings, acted, finished, behind := 0, [], 0, false;
      r, clean := plugins.Sweep();
      ghost var swept := Now();
      SweepKeepsCopies(start.dirs, swept.dirs);
      NothingRemoved(swept.dirs);
      NothingDrained(mode, swept, was, clean);
      DrainAfterSweep(mode, 0, start, swept, swept, was, was, [], false, clean);
      if !r.Ran? {
        return;
      }
      if clean {
        SweptClean(swept.dirs);
      }
      var tidy;
      r, listings, tidy, acted, finished, behind := DrainMarkers(mode);
      DrainKept(mode, listings, swept, Now(), was, results, acted, r.Ran?, tidy && NoOlds(swept.dirs), clean && tidy);
      DrainAfterSweep(mode, listings, start, swept, Now(), was, results, acted, r.Ran?, clean && tidy);
      if !behind {
        CopiesAcross(start.dirs, swept.dirs, plugins.dirs, [], acted);
        assert [] + acted == acted;
      }
      clean := clean && tidy;
      if r.Ran? && mode.Quiet? {
        QuietAnswersOnce(listings, start, Now(), was, results, acted, clean);
      }
      if r.Ran? && clean && mode.Quiet? {
        QuietIsFinal(listings, start, Now(), was, results, acted, clean);
        SortedRemovalsHold(acted, plugins.dirs);
      }
    }

    /** Any number of runs, each allowed to die anywhere, while markers are added but no install of a plugin in
        `gone`.  As long as no delete is refused, a plugin whose removal was asked for is gone once one run has
        completed, and stays gone: there is nothing a sweep would bring back. */
    method DrainRepeatedly(gone: set<string>, runs: nat) returns (completed: bool, clean: bool)
      requires forall id :: id in gone ==> IsRequest(Marker(id, Remove), markers)
      modifies this, plugins
      ensures plugins.refusals >= old(plugins.refusals)
      ensures clean <==> plugins.refusals == old(plugins.refusals)
      ensures clean ==> forall id :: id in gone ==> Settling(id, Now())
      ensures clean && completed ==> forall id :: id in gone ==> SweepTarget(plugins.dirs, id) == None
    {
      completed, clean := false, true;
      for i := 0 to runs
        invariant plugins.refusals >= old(plugins.refusals)
        invariant clean <==> plugins.refusals == old(plugins.refusals)
        invariant clean ==> forall id :: id in gone ==> Settling(id, Now())
        invariant clean && completed ==> forall id :: id in gone ==> Settled(id, Now())
      {
        hide Settling, Settled, Onward, Added, SweepTarget, LastRemovalsHold;
        ghost var earlier := Now();
        Interfere(Adding(gone));
        AddedIsOnward(gone, earlier, Now());
        ghost var here := Now();
        var r, listings, tidy, acted, finished;
        ghost var behind;
        r, listings, tidy, acted, finished, behind := ProcessRequests(Adding(gone));
        if clean && tidy {
          OnwardMeans(gone, earlier, here);
          OnwardMeans(gone, here, Now());
        }
        completed, clean := completed || r.Ran?, clean && tidy;
      }
    }
  }
}
