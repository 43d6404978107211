/**
 What a run does to the plugins: no copy is lost but to a removal, and a removal is for good.  Both survive a death
 anywhere; a delete that is refused voids them.
 */
module PluginRemovals {
  import opened Outcomes
  import opened PluginNames
  import opened Plugins
  import opened PluginMarkers

  datatype View = View(markers: map<Marker, Shape>, dirs: Dirs)

  ghost predicate NoOlds(dirs: Dirs) {
    forall id :: !HasOld(dirs, id)
  }

  ghost predicate KeepsItsCopy(before: Dirs, after: Dirs, id: string) {
    HasACopy(before, id) ==> HasACopy(after, id)
  }

  /** Nothing loses its copy but to a removal. */
  ghost predicate CopiesKept(acted: seq<Marker>, before: Dirs, after: Dirs) {
    forall id :: Marker(id, Remove) !in acted ==> KeepsItsCopy(before, after, id)
  }

  /** Every plugin whose install was acted on, and no removal, has a verified copy to go live. */
  ghost predicate Installed(acted: seq<Marker>, dirs: Dirs) {
    forall id :: Marker(id, Install) in acted && Marker(id, Remove) !in acted ==> HasACopy(dirs, id)
  }

  /** Every removal among `done` is final. */
  ghost predicate Gone(done: seq<Marker>, dirs: Dirs) {
    forall id :: Marker(id, Remove) in done ==> SweepTarget(dirs, id) == None
  }

  /** Every removal among the first `finished` that no later install undid is final. */
  ghost predicate LastRemovalsHold(acted: seq<Marker>, finished: nat, dirs: Dirs)
    requires finished <= |acted|
  {
    forall i :: 0 <= i < finished && acted[i].action == Remove && Marker(acted[i].id, Install) !in acted[i + 1..] ==>
      SweepTarget(dirs, acted[i].id) == None
  }

  /** Nothing comes live that no install brought. */
  ghost predicate StaysGone(acted: seq<Marker>, before: Dirs, after: Dirs) {
    forall id :: SweepTarget(before, id) == None && Marker(id, Install) !in acted ==> SweepTarget(after, id) == None
  }

  /** What the handling of one marker leaves.  `finished`: it was acted on, and the action did not die. */
  ghost predicate OneDone(mode: Mode, m: Marker, before: View, after: View, was: map<Marker, string>,
                          results: map<Marker, string>, ran: bool, acted: bool, finished: bool)
  {
    && (acted <==> IsRequest(m, before.markers))
    && (if ran then finished == acted else finished ==> acted)
    && OnlyTouches(before.dirs, after.dirs, m.id)
    && (!acted ==> after.dirs == before.dirs && results == was)
    && (after.markers == before.markers || after.markers == before.markers - {m})
    && (acted ==> m in after.markers || finished)
    && (ran && (mode.Quiet? || mode.Adding?) ==> after.markers == Cleared(before.markers, [m]))
    && (ran && acted && mode.Quiet? ==> m in results && results == was[m := results[m]])
    && (m.action != Install && SweepTarget(before.dirs, m.id) == None ==> SweepTarget(after.dirs, m.id) == None)
  }

  // ── One request ────────────────────────────────────────────────────────────────────────────────────────────────────

  /** One request's part in what the pass has removed. */
  lemma GoneStep(before: Dirs, after: Dirs, acted: seq<Marker>, m: Marker, finished: bool)
    requires Gone(acted, before) && OnlyTouches(before, after, m.id)
    requires forall x :: x in acted && x.id == m.id ==> x.action != Remove
    requires finished && m.action == Remove ==> SweepTarget(after, m.id) == None
    ensures Gone(if finished then acted + [m] else acted, after)
  {
    hide SweepTarget;
    OthersKeepTheirTargets(before, after, m.id);
    var next := if finished then acted + [m] else acted;
    assert forall x :: x in next ==> x in acted || (finished && x == m);
  }

  lemma NoOldsStep(before: Dirs, after: Dirs, id: string)
    requires NoOlds(before) && OnlyTouches(before, after, id) && !HasOld(after, id)
    ensures NoOlds(after)
  {
    forall other
      ensures !HasOld(after, other)
    {
      assert !HasOld(before, other);
      assert forall t: nat :: Leftover(other, Old, t).id == other;
    }
  }

  lemma StaysGoneStep(acted: seq<Marker>, first: Dirs, before: Dirs, after: Dirs, m: Marker, actedNow: bool)
    requires StaysGone(acted, first, before) && OnlyTouches(before, after, m.id) && (!actedNow ==> after == before)
    requires m.action != Install && SweepTarget(before, m.id) == None ==> SweepTarget(after, m.id) == None
    ensures StaysGone(if actedNow then acted + [m] else acted, first, after)
  {
    hide SweepTarget;
    OthersKeepTheirTargets(before, after, m.id);
    if actedNow {
      assert forall x :: x in acted + [m] <==> x in acted || x == m;
    }
  }

  lemma CopiesStep(first: Dirs, before: Dirs, after: Dirs, acted: seq<Marker>, m: Marker, actedNow: bool)
    requires CopiesKept(acted, first, before)
    requires OnlyTouches(before, after, m.id) && (!actedNow ==> after == before)
    requires m.action != Remove ==> KeepsItsCopy(before, after, m.id)
    ensures CopiesKept(if actedNow then acted + [m] else acted, first, after)
  {
    hide SweepTarget;
    OthersKeepTheirTargets(before, after, m.id);
    forall id | Marker(id, Remove) !in (if actedNow then acted + [m] else acted)
      ensures KeepsItsCopy(first, after, id)
    {
      assert Marker(id, Remove) !in acted;
      if actedNow && id == m.id {
        assert m.action != Remove by {
          assert m in acted + [m];
        }
      }
    }
  }

  lemma LiveIsACopy(dirs: Dirs, id: string)
    requires Live(id) in dirs && dirs[Live(id)].verified
    ensures HasACopy(dirs, id)
  {
  }

  lemma NothingInstalled(dirs: Dirs)
    ensures Installed([], dirs)
  {
  }

  lemma InstalledStep(before: Dirs, after: Dirs, acted: seq<Marker>, m: Marker, actedNow: bool)
    requires Installed(acted, before) && OnlyTouches(before, after, m.id) && (!actedNow ==> after == before)
    requires m.action != Remove ==> KeepsItsCopy(before, after, m.id)
    requires actedNow && m.action == Install ==> HasACopy(after, m.id)
    ensures Installed(if actedNow then acted + [m] else acted, after)
  {
    hide SweepTarget;
    OthersKeepTheirTargets(before, after, m.id);
    if actedNow {
      assert forall x :: x in acted + [m] <==> x in acted || x == m;
    }
  }

  // ── A pass ─────────────────────────────────────────────────────────────────────────────────────────────────────────

  /** What a pass has made of the plugins, of whose requests `finished` are finished. */
  ghost predicate DirsSoFar(start: Dirs, now: Dirs, acted: seq<Marker>, finished: nat, ran: bool, behind: bool,
                            kept: bool) {
    && (acted == [] ==> now == start)
    && (!behind ==> CopiesKept(acted, start, now))
    && StaysGone(acted, start, now)
    && finished <= |acted|
    && (kept ==> !behind && Gone(acted[..finished], now) && (ran ==> NoOlds(now)))
  }

  lemma NothingDone(dirs: Dirs, kept: bool)
    requires kept ==> NoOlds(dirs)
    ensures DirsSoFar(dirs, dirs, [], 0, true, false, kept)
  {
  }

  lemma NoneLeft(start: Dirs, now: Dirs, acted: seq<Marker>, behind: bool, kept: bool, id: string)
    requires DirsSoFar(start, now, acted, |acted|, true, behind, kept)
    ensures kept ==> !HasOld(now, id)
  {
  }

  lemma DirsStep(mode: Mode, start: View, here: View, now: View, had: map<Marker, string>, results: map<Marker, string>,
                 acted: seq<Marker>, m: Marker, ran: bool, actedNow: bool, done: bool, behind: bool, late: bool,
                 kept: bool, still: bool)
    requires DirsSoFar(start.dirs, here.dirs, acted, |acted|, true, behind, kept)
    requires OneDone(mode, m, here, now, had, results, ran, actedNow, done)
    requires forall x :: x in acted && x.id == m.id ==> x.action != Remove
    requires m.action != Remove && !late ==> KeepsItsCopy(here.dirs, now.dirs, m.id)
    requires still ==> kept && !late && (ran ==> !HasOld(now.dirs, m.id))
    requires still && done && m.action == Remove ==> SweepTarget(now.dirs, m.id) == None
    ensures
      DirsSoFar(start.dirs, now.dirs, if actedNow then acted + [m] else acted, if done then |acted| + 1 else |acted|,
                ran, behind || late, still)
    ensures if ran then done == actedNow else done ==> actedNow
    ensures OnlyTouches(here.dirs, now.dirs, m.id) && (!actedNow ==> now.dirs == here.dirs)
  {
    hide SweepTarget, HasOld, OnlyTouches, KeepsItsCopy, CopiesKept, StaysGone, Gone, NoOlds, IsRequest;
    OneMore(acted, m);
    StaysGoneStep(acted, start.dirs, here.dirs, now.dirs, m, actedNow);
    if !behind && !late {
      CopiesStep(start.dirs, here.dirs, now.dirs, acted, m, actedNow);
    }
    if still {
      GoneStep(here.dirs, now.dirs, acted, m, done);
      if ran {
        NoOldsStep(here.dirs, now.dirs, m.id);
      }
    }
  }

  lemma DirsEnd(start: Dirs, now: Dirs, acted: seq<Marker>, finished: nat, ran: bool, behind: bool, kept: bool)
    requires DirsSoFar(start, now, acted, finished, ran, behind, kept)
    ensures acted == [] ==> now == start
    ensures !behind ==> CopiesKept(acted, start, now)
    ensures StaysGone(acted, start, now) && finished <= |acted|
    ensures kept ==> !behind && Gone(acted[..finished], now) && (ran ==> NoOlds(now))
  {
  }

  // ── Pass after pass ────────────────────────────────────────────────────────────────────────────────────────────────

  lemma CopiesAcross(first: Dirs, before: Dirs, after: Dirs, acted: seq<Marker>, more: seq<Marker>)
    requires CopiesKept(acted, first, before)
    requires CopiesKept(more, before, after)
    ensures CopiesKept(acted + more, first, after)
  {
    hide HasACopy;
  }

  lemma InstalledAcross(before: Dirs, after: Dirs, acted: seq<Marker>, more: seq<Marker>)
    requires CopiesKept(more, before, after)
    ensures Installed(acted, before) && Installed(more, after) ==> Installed(acted + more, after)
  {
    hide HasACopy;
  }

  /** A later pass undoes a removal only by an install. */
  lemma LastRemovalsAcross(acted: seq<Marker>, more: seq<Marker>, finished: nat, before: Dirs, after: Dirs)
    requires finished <= |more| && LastRemovalsHold(acted, |acted|, before)
    requires StaysGone(more, before, after) && Gone(more[..finished], after)
    ensures LastRemovalsHold(acted + more, |acted| + finished, after)
  {
    hide SweepTarget;
    var all := acted + more;
    forall i | 0 <= i < |acted| + finished && all[i].action == Remove && Marker(all[i].id, Install) !in all[i + 1..]
      ensures SweepTarget(after, all[i].id) == None
    {
      var install := Marker(all[i].id, Install);
      if i < |acted| {
        assert all[i + 1..] == acted[i + 1..] + more;
      } else {
        assert more[..finished][i - |acted|] == Marker(all[i].id, Remove);
      }
    }
  }

  /** Within sorted requests no install follows its removal. */
  lemma SortedRemovalsHold(acted: seq<Marker>, dirs: Dirs)
    requires Sorted(acted) && LastRemovalsHold(acted, |acted|, dirs)
    ensures Gone(acted, dirs)
  {
    hide SweepTarget, Before;
    forall id | Marker(id, Remove) in acted
      ensures SweepTarget(dirs, id) == None
    {
      var i :| 0 <= i < |acted| && acted[i] == Marker(id, Remove);
      NothingFollowsRemoval(id, Install);
      assert forall k :: i < k < |acted| ==> acted[k] != Marker(id, Install);
    }
  }

  lemma SweptClean(dirs: Dirs)
    requires forall n :: n in dirs ==> n.Live?
    ensures NoOlds(dirs)
  {
    assert forall id: string, t: nat :: Leftover(id, Old, t) !in dirs;
  }

  lemma SweepKeepsCopies(before: Dirs, after: Dirs)
    requires forall id :: SweepTarget(after, id) == SweepTarget(before, id)
    ensures CopiesKept([], before, after)
  {
  }

  lemma NothingLeftIsPast(dirs: Dirs, id: string, ts: nat)
    ensures !HasOld(dirs, id) ==> Past(dirs, id, ts)
  {
  }

  lemma NothingRemoved(dirs: Dirs)
    ensures LastRemovalsHold([], 0, dirs) && CopiesKept([], dirs, dirs)
  {
  }

  // ── A removal that is on its way ───────────────────────────────────────────────────────────────────────────────────

  /** Nothing of the plugin can come live any more, unless somebody asks for an install. */
  ghost predicate Settled(id: string, v: View) {
    SweepTarget(v.dirs, id) == None && !IsRequest(Marker(id, Install), v.markers)
  }

  /** The removal is still asked for, or has been made. */
  ghost predicate Settling(id: string, v: View) {
    IsRequest(Marker(id, Remove), v.markers) || Settled(id, v)
  }

  ghost predicate Onward(gone: set<string>, before: View, after: View) {
    forall id :: id in gone ==>
      (Settling(id, before) ==> Settling(id, after)) && (Settled(id, before) ==> Settled(id, after))
  }

  /** Every removal on its way has been made. */
  ghost predicate AllSettled(gone: set<string>, before: View, after: View) {
    forall id :: id in gone && Settling(id, before) ==> Settled(id, after)
  }

  lemma OnwardTwice(gone: set<string>, a: View, b: View, c: View)
    requires Onward(gone, a, b) && Onward(gone, b, c)
    ensures Onward(gone, a, c)
  {
    hide Settling, Settled;
  }

  lemma OnwardFromItself(gone: set<string>, v: View)
    ensures Onward(gone, v, v)
  {
  }

  lemma OnwardMeans(gone: set<string>, before: View, after: View)
    requires Onward(gone, before, after)
    ensures forall id :: id in gone && Settling(id, before) ==> Settling(id, after)
    ensures forall id :: id in gone && Settled(id, before) ==> Settled(id, after)
  {
    hide Settling, Settled;
  }

  lemma AddedIsOnward(gone: set<string>, before: View, after: View)
    requires Added(before.markers, after.markers, gone) && after.dirs == before.dirs
    ensures Onward(gone, before, after)
    ensures forall id :: id in gone && IsRequest(Marker(id, Install), after.markers) ==>
      IsRequest(Marker(id, Install), before.markers)
  {
    hide ValidId, SweepTarget;
  }

  /** A sweep and whatever else keeps every target keeps removals on their way. */
  lemma SameTargetsAreOnward(gone: set<string>, before: View, after: View)
    requires after.markers == before.markers
    requires forall id :: SweepTarget(after.dirs, id) == SweepTarget(before.dirs, id)
    ensures Onward(gone, before, after)
  {
    hide ValidId, SweepTarget;
  }

  /** One request, wherever it died: a removal is on its way as before, if no install of its plugin is waiting. */
  lemma OneIsOnward(gone: set<string>, before: View, after: View, m: Marker, acted: bool, finished: bool)
    requires OnlyTouches(before.dirs, after.dirs, m.id)
    requires after.markers == before.markers || after.markers == before.markers - {m}
    requires acted <==> IsRequest(m, before.markers)
    requires if acted then m in after.markers || finished else after.dirs == before.dirs
    requires finished && m.action == Remove ==> SweepTarget(after.dirs, m.id) == None
    requires m.action != Install && SweepTarget(before.dirs, m.id) == None ==> SweepTarget(after.dirs, m.id) == None
    requires m.action == Remove && m.id in gone ==> !IsRequest(Marker(m.id, Install), before.markers)
    ensures Onward(gone, before, after)
  {
    hide ValidId, SweepTarget;
    OthersKeepTheirTargets(before.dirs, after.dirs, m.id);
    forall id | id in gone
      ensures (Settling(id, before) ==> Settling(id, after)) && (Settled(id, before) ==> Settled(id, after))
    {
      assert forall a :: IsRequest(Marker(id, a), after.markers) ==> IsRequest(Marker(id, a), before.markers);
    }
  }

  /** Before the marker at `i`: removals passed are made, and every install still asked for comes later in the
      listing. */
  ghost predicate SettlingSoFar(gone: set<string>, listing: seq<Marker>, i: nat, before: View, now: View)
    requires i <= |listing|
  {
    && Onward(gone, before, now)
    && (forall id :: id in gone && IsRequest(Marker(id, Install), now.markers) ==> Marker(id, Install) in listing[i..])
    && (forall id :: id in gone && Marker(id, Remove) in listing[..i] && Settling(id, before) ==> Settled(id, now))
  }

  lemma SettlingStart(gone: set<string>, listing: seq<Marker>, before: View)
    requires AllOf(listing, before.markers)
    ensures SettlingSoFar(gone, listing, 0, before, before)
  {
    OnwardFromItself(gone, before);
  }

  lemma SettlingAdds(gone: set<string>, listing: seq<Marker>, i: nat, before: View, here: View, now: View)
    requires i <= |listing| && SettlingSoFar(gone, listing, i, before, here)
    requires Added(here.markers, now.markers, gone) && now.dirs == here.dirs
    ensures SettlingSoFar(gone, listing, i, before, now)
  {
    hide Settling, Settled, IsRequest;
    AddedIsOnward(gone, here, now);
    OnwardTwice(gone, before, here, now);
  }

  lemma NoInstallWaits(gone: set<string>, listing: seq<Marker>, i: nat, before: View, now: View)
    requires i < |listing| && Sorted(listing) && SettlingSoFar(gone, listing, i, before, now)
    requires listing[i].action == Remove && listing[i].id in gone
    ensures !IsRequest(Marker(listing[i].id, Install), now.markers)
  {
    hide Before, Settling, Settled, Onward, ValidId;
    var install := Marker(listing[i].id, Install);
    if IsRequest(install, now.markers) {
      assert install in listing[i..];
      assert exists k :: i < k < |listing| && listing[k] == install by {
        assert listing[i..] == [listing[i]] + listing[i + 1..];
      }
      NothingFollowsRemoval(install.id, Install);
      assert false;
    }
  }

  lemma SettlingFrom(gone: set<string>, listing: seq<Marker>, i: nat, start: View, here: View, now: View)
    requires i <= |listing| && SettlingSoFar(gone, listing, i, start, here) && Onward(gone, here, now)
    ensures Onward(gone, start, now)
  {
    hide Settling, Settled;
    OnwardTwice(gone, start, here, now);
  }

  lemma SettlingStep(gone: set<string>, listing: seq<Marker>, i: nat, before: View, here: View, now: View)
    requires i < |listing| && SettlingSoFar(gone, listing, i, before, here)
    requires Onward(gone, here, now) && now.markers == Cleared(here.markers, [listing[i]])
    ensures SettlingSoFar(gone, listing, i + 1, before, now)
  {
    hide ValidId, SweepTarget;
    OnwardTwice(gone, before, here, now);
    var m := listing[i];
    assert listing[i..] == [m] + listing[i + 1..];
    assert listing[..i + 1] == listing[..i] + [m];
    assert !IsRequest(m, now.markers);
    assert forall x :: IsRequest(x, now.markers) ==> IsRequest(x, here.markers) && x != m;
    forall id | id in gone && Marker(id, Remove) in listing[..i + 1] && Settling(id, before)
      ensures Settled(id, now)
    {
      assert Marker(id, Remove) in listing[..i] || Marker(id, Remove) == m;
    }
  }

  lemma SettlingDone(gone: set<string>, listing: seq<Marker>, before: View, now: View)
    requires AllOf(listing, before.markers) && SettlingSoFar(gone, listing, |listing|, before, now)
    ensures Onward(gone, before, now) && AllSettled(gone, before, now)
  {
    assert listing[..|listing|] == listing;
  }

  /** Removals are on their way, and made once there has been a pass. */
  ghost predicate GoneSoFar(gone: set<string>, listings: nat, start: View, now: View) {
    Onward(gone, start, now) && (listings > 0 ==> AllSettled(gone, start, now))
  }

  lemma GoneIsOnward(gone: set<string>, listings: nat, start: View, now: View)
    requires GoneSoFar(gone, listings, start, now)
    ensures Onward(gone, start, now) && (listings > 0 ==> AllSettled(gone, start, now))
  {
  }

  lemma GoneAdds(gone: set<string>, listings: nat, start: View, earlier: View, now: View)
    requires GoneSoFar(gone, listings, start, earlier)
    requires Added(earlier.markers, now.markers, gone) && now.dirs == earlier.dirs
    ensures GoneSoFar(gone, listings, start, now)
  {
    hide Settling, Settled;
    AddedIsOnward(gone, earlier, now);
    OnwardTwice(gone, start, earlier, now);
  }

  lemma GonePasses(gone: set<string>, listings: nat, start: View, here: View, now: View, ran: bool)
    requires GoneSoFar(gone, listings, start, here) && Onward(gone, here, now)
    requires ran ==> AllSettled(gone, here, now)
    ensures Onward(gone, start, now) && (ran ==> GoneSoFar(gone, listings + 1, start, now))
  {
    hide Settling, Settled;
    OnwardTwice(gone, start, here, now);
  }

  /** An empty listing leaves no removal waiting, and a repeated one follows a pass. */
  lemma GoneStops(gone: set<string>, listings: nat, names: seq<Marker>, start: View, now: View)
    requires GoneSoFar(gone, listings, start, now) && AllOf(names, now.markers)
    requires names == [] || listings > 0
    ensures AllSettled(gone, start, now)
  {
    hide Settled;
    if listings == 0 {
      assert forall m :: m !in now.markers;
    }
  }
}
