/**
 What a run promises, by who else is at the markers and whether the markers it deletes do go.
 */
module PluginRuns {
  import opened Outcomes
  import opened PluginNames
  import opened Plugins
  import opened PluginMarkers
  import opened PluginRemovals

  function DirectoriesOf(markers: map<Marker, Shape>): map<Marker, Shape> {
    map m | m in markers && markers[m].Directory? :: markers[m]
  }

  /** Only directories are left of the markers; every request was acted on once, in order, and has its result. */
  ghost predicate Final(before: map<Marker, Shape>, after: map<Marker, Shape>,
                        was: map<Marker, string>, results: map<Marker, string>, acted: seq<Marker>)
  {
    && after == DirectoriesOf(before)
    && Sorted(acted)
    && (forall m :: m in acted <==> IsRequest(m, before))
    && Reported(acted, was, results)
  }

  /** Where a pass stands before the marker at `i`.  `kept`: no delete was refused, and the pass began with no copy
      moved aside. */
  ghost predicate PassSoFar(mode: Mode, listing: seq<Marker>, i: nat, start: View, now: View,
                            was: map<Marker, string>, results: map<Marker, string>, acted: seq<Marker>, kept: bool)
    requires i <= |listing|
  {
    match mode
    case Quiet =>
      && now.markers == Cleared(start.markers, listing[..i])
      && ActedOn(start.markers, listing[..i], acted) && Reported(acted, was, results)
    case Adding(gone) => kept ==> SettlingSoFar(gone, listing, i, start, now)
    case Alone => AloneSoFar(start.markers, now.markers, listing[..i], acted)
    case Shared => true
  }

  /** What a pass leaves. */
  ghost predicate PassEnds(mode: Mode, listing: seq<Marker>, start: View, now: View,
                           was: map<Marker, string>, results: map<Marker, string>, acted: seq<Marker>, ran: bool,
                           kept: bool)
  {
    match mode
    case Quiet =>
      ran ==>
        && now.markers == Cleared(start.markers, listing)
        && ActedOn(start.markers, listing, acted) && Reported(acted, was, results)
    case Adding(gone) =>
      kept ==> Onward(gone, start, now) && (ran ==> AllSettled(gone, start, now))
    case Alone =>
      Shrunk(start.markers, now.markers) && (ran ==> ActedOn(start.markers, listing, acted))
    case Shared => true
  }

  /** Where a drain stands before its next listing. */
  ghost predicate DrainSoFar(mode: Mode, listings: nat, previous: Option<seq<Marker>>, start: View, now: View,
                             was: map<Marker, string>, results: map<Marker, string>, acted: seq<Marker>, kept: bool)
  {
    match mode
    case Quiet => QuietSoFar(listings, previous, start.markers, now.markers, was, results, acted)
    case Adding(gone) => kept ==> GoneSoFar(gone, listings, start, now)
    case Alone => AloneDrain(listings, previous, start.markers, now.markers, acted)
    case Shared => true
  }

  /** What a drain leaves.  With nobody else writing and deletes that go, at most three listings, nothing but
      directories, and every request acted on once, with its result.  Beside writers who only add, removals on their
      way, and made if it completes.  With nobody else writing and deletes that may be refused, one listing more than
      there were markers, and every request acted on. */
  ghost predicate DrainEnds(mode: Mode, listings: nat, start: View, now: View,
                            was: map<Marker, string>, results: map<Marker, string>, acted: seq<Marker>, ran: bool,
                            kept: bool)
  {
    match mode
    case Quiet =>
      ran ==> listings <= 3 && Final(start.markers, now.markers, was, results, acted)
    case Adding(gone) =>
      kept ==> Onward(gone, start, now) && (ran ==> AllSettled(gone, start, now))
    case Alone =>
      && listings <= |start.markers| + 1 && Shrunk(start.markers, now.markers)
      && (ran ==> forall m :: m in acted <==> IsRequest(m, start.markers))
    case Shared => true
  }

  // ── A quiet run ────────────────────────────────────────────────────────────────────────────────────────────────────

  /** Where a quiet run stands before its next listing. */
  ghost predicate QuietSoFar(listings: nat, previous: Option<seq<Marker>>, before: map<Marker, Shape>,
                             markers: map<Marker, Shape>, was: map<Marker, string>, results: map<Marker, string>,
                             acted: seq<Marker>)
  {
    if listings == 0 then previous == None && markers == before && results == was && acted == []
    else
      && listings <= 2
      && Final(before, markers, was, results, acted)
      && (listings == 2 ==> previous.Some? && Sorted(previous.value) && AllOf(previous.value, markers))
  }

  lemma QuietStart(before: map<Marker, Shape>, was: map<Marker, string>)
    ensures QuietSoFar(0, None, before, before, was, was, [])
  {
  }

  /** The listing that stops a quiet run finds it finished, and the third always stops it. */
  lemma QuietListing(listings: nat, previous: Option<seq<Marker>>, names: seq<Marker>, before: map<Marker, Shape>,
                     markers: map<Marker, Shape>, was: map<Marker, string>, results: map<Marker, string>,
                     acted: seq<Marker>)
    requires listings > 0 && QuietSoFar(listings - 1, previous, before, markers, was, results, acted)
    requires Sorted(names) && AllOf(names, markers)
    ensures listings <= 3
    ensures names == [] || previous == Some(names) ==> Final(before, markers, was, results, acted)
    ensures listings == 3 ==> previous == Some(names)
  {
    if listings == 1 && names == [] {
      assert markers == map[] by {
        assert forall m :: m in markers ==> m in names;
      }
    }
    if listings == 3 {
      SortedListsOfTheSameAreEqual(previous.value, names);
    }
  }

  lemma QuietPass(listings: nat, previous: Option<seq<Marker>>, names: seq<Marker>, before: map<Marker, Shape>,
                  here: map<Marker, Shape>, markers: map<Marker, Shape>,
                  was: map<Marker, string>, had: map<Marker, string>, results: map<Marker, string>,
                  acted: seq<Marker>, more: seq<Marker>)
    requires 0 < listings <= 2 && QuietSoFar(listings - 1, previous, before, here, was, had, acted)
    requires Sorted(names) && AllOf(names, here)
    requires markers == Cleared(here, names) && ActedOn(here, names, more) && Reported(more, had, results)
    ensures QuietSoFar(listings, Some(names), before, markers, was, results, acted + more)
    ensures acted == [] || more == []
  {
    assert markers == DirectoriesOf(here);
    if listings == 1 {
      assert acted + more == more;
    } else {
      assert forall m :: m in here ==> here[m].Directory?;
      assert markers == here;
      NoneActed(here, more);
      assert acted + more == acted && results == had;
    }
  }

  /** A pass over directories alone acts on nothing. */
  lemma NoneActed(here: map<Marker, Shape>, more: seq<Marker>)
    requires forall m :: m in more ==> IsRequest(m, here)
    requires forall m :: m in here ==> here[m].Directory?
    ensures more == []
  {
    if more != [] {
      HasAMember(more);
    }
  }

  lemma QuietStopsEarly(listings: nat, previous: Option<seq<Marker>>, before: map<Marker, Shape>,
                        markers: map<Marker, Shape>, was: map<Marker, string>, results: map<Marker, string>,
                        acted: seq<Marker>)
    requires QuietSoFar(listings, previous, before, markers, was, results, acted)
    ensures listings <= 2
  {
  }

  /** Every regular file whose name is an id of the pattern and an action is acted on once and has its result; no other
      result is new. */
  ghost predicate AnsweredOnce(before: map<Marker, Shape>, was: map<Marker, string>, results: map<Marker, string>,
                               acted: seq<Marker>)
  {
    forall m: Marker ::
      if m in before && before[m].Regular? && IdPattern(m.id) then m in results && multiset(acted)[m] == 1
      else multiset(acted)[m] == 0 && (m in results <==> m in was) && (m in was ==> results[m] == was[m])
  }

  lemma {:induction false} SortedListsEachOnce(s: seq<Marker>, m: Marker)
    requires Sorted(s)
    ensures multiset(s)[m] == if m in s then 1 else 0
  {
    hide Before;
    if s != [] {
      HeadIsNotRepeated(s);
      SortedListsEachOnce(s[1..], m);
      assert s == [s[0]] + s[1..];
    }
  }

  lemma QuietAnswersOnce(listings: nat, start: View, now: View, was: map<Marker, string>, results: map<Marker, string>,
                         acted: seq<Marker>, kept: bool)
    requires DrainEnds(Quiet, listings, start, now, was, results, acted, true, kept)
    ensures AnsweredOnce(start.markers, was, results, acted)
  {
    hide Sorted, ValidId, IdPattern;
    forall m: Marker
      ensures
        if m in start.markers && start.markers[m].Regular? && IdPattern(m.id) then
          m in results && multiset(acted)[m] == 1
        else multiset(acted)[m] == 0 && (m in results <==> m in was) && (m in was ==> results[m] == was[m])
    {
      ValidIdIsThePattern(m.id);
      SortedListsEachOnce(acted, m);
    }
  }

  lemma QuietIsFinal(listings: nat, start: View, now: View, was: map<Marker, string>, results: map<Marker, string>,
                     acted: seq<Marker>, kept: bool)
    requires DrainEnds(Quiet, listings, start, now, was, results, acted, true, kept)
    ensures Sorted(acted)
  {
  }

  // ── A run of its own whose deletes may be refused ──────────────────────────────────────────────────────────────────

  /** Where a pass in a run of its own stands: markers only go, and only those passed; the requests passed were acted
      on. */
  ghost predicate AloneSoFar(before: map<Marker, Shape>, now: map<Marker, Shape>, done: seq<Marker>,
                             acted: seq<Marker>) {
    && Shrunk(before, now)
    && (forall m :: m in before && m !in done ==> m in now)
    && ActedOn(before, done, acted)
  }

  lemma AloneStep(before: map<Marker, Shape>, here: map<Marker, Shape>, now: map<Marker, Shape>,
                  done: seq<Marker>, m: Marker, acted: seq<Marker>)
    requires AloneSoFar(before, here, done, acted) && m !in done && forall x :: x in done ==> Before(x, m)
    requires now == here || now == here - {m}
    ensures AloneSoFar(before, now, done + [m], if IsRequest(m, here) then acted + [m] else acted)
  {
    hide Before, IsRequest;
    ActedOnStep(before, here, done, m, acted);
    hide ActedOn;
  }

  lemma AloneShrinks(before: map<Marker, Shape>, now: map<Marker, Shape>, done: seq<Marker>, acted: seq<Marker>)
    requires AloneSoFar(before, now, done, acted)
    ensures Shrunk(before, now) && ActedOn(before, done, acted)
  {
  }

  /** Every continuing listing is smaller than the one before. */
  ghost predicate AloneDrain(listings: nat, previous: Option<seq<Marker>>, before: map<Marker, Shape>,
                             now: map<Marker, Shape>, acted: seq<Marker>)
  {
    && Shrunk(before, now)
    && if listings == 0 then previous == None && now == before && acted == []
       else
         && previous.Some? && previous.value != [] && Sorted(previous.value)
         && now.Keys <= Names(previous.value)
         && |Names(previous.value)| + listings <= |before| + 1
         && forall m :: m in acted <==> IsRequest(m, before)
  }

  function Names(listing: seq<Marker>): set<Marker> {
    set m | m in listing
  }

  lemma AloneStart(before: map<Marker, Shape>)
    ensures AloneDrain(0, None, before, before, [])
  {
  }

  lemma AloneStops(listings: nat, previous: Option<seq<Marker>>, before: map<Marker, Shape>, now: map<Marker, Shape>,
                   acted: seq<Marker>)
    requires AloneDrain(listings, previous, before, now, acted)
    ensures listings <= |before| + 1 && Shrunk(before, now)
    ensures listings > 0 ==> forall m :: m in acted <==> IsRequest(m, before)
  {
    hide Shrunk, IsRequest;
  }

  lemma FewerNames(fewer: set<Marker>, more: set<Marker>)
    requires fewer <= more
    ensures |fewer| <= |more| && (fewer != more ==> |fewer| < |more|)
  {
    assert more == fewer + (more - fewer);
  }

  lemma AloneListing(listings: nat, previous: Option<seq<Marker>>, names: seq<Marker>, before: map<Marker, Shape>,
                     now: map<Marker, Shape>, acted: seq<Marker>)
    requires listings > 0 && AloneDrain(listings - 1, previous, before, now, acted)
    requires Sorted(names) && AllOf(names, now)
    ensures Names(names) == now.Keys
    ensures listings <= |before| + 1 && Shrunk(before, now)
    ensures if names == [] || previous == Some(names) then forall m :: m in acted <==> IsRequest(m, before)
            else |Names(names)| + listings <= |before| + 1
  {
    hide IsRequest, Before;
    assert Names(names) == now.Keys;
    assert |now.Keys| == |now|;
    if listings == 1 {
      if names == [] {
        assert forall m :: m !in before;
        NoRequests(before);
      }
    } else {
      assert previous.value[0] in Names(previous.value);
      FewerNames(now.Keys, Names(previous.value));
      if Names(names) == Names(previous.value) {
        assert forall m :: m in names <==> m in Names(names);
        assert forall m :: m in previous.value <==> m in Names(previous.value);
        SortedListsOfTheSameAreEqual(names, previous.value);
      }
    }
  }

  lemma NoRequests(markers: map<Marker, Shape>)
    requires forall m :: m !in markers
    ensures forall m :: !IsRequest(m, markers)
  {
  }

  lemma AlonePass(listings: nat, previous: Option<seq<Marker>>, names: seq<Marker>, before: map<Marker, Shape>,
                  here: map<Marker, Shape>, now: map<Marker, Shape>, acted: seq<Marker>, more: seq<Marker>, ran: bool)
    requires listings > 0 && AloneDrain(listings - 1, previous, before, here, acted)
    requires Sorted(names) && AllOf(names, here) && names != []
    requires Names(names) == here.Keys && |Names(names)| + listings <= |before| + 1
    requires Shrunk(here, now) && (ran ==> ActedOn(here, names, more))
    ensures Shrunk(before, now)
    ensures ran ==> AloneDrain(listings, Some(names), before, now, acted + more)
  {
    hide ValidId, Before;
    assert forall m :: IsRequest(m, here) ==> IsRequest(m, before);
    assert now.Keys <= here.Keys;
    if ran {
      forall m
        ensures m in acted + more <==> IsRequest(m, before)
      {
        if listings == 1 {
          assert here == before && acted == [];
        }
      }
    }
  }

  // ── A pass ─────────────────────────────────────────────────────────────────────────────────────────────────────────

  lemma PassStarts(mode: Mode, listing: seq<Marker>, start: View, was: map<Marker, string>, kept: bool)
    requires AllOf(listing, start.markers)
    ensures PassSoFar(mode, listing, 0, start, start, was, was, [], kept)
  {
    hide SettlingSoFar;
    if mode.Adding? {
      SettlingStart(mode.gone, listing, start);
    }
  }

  lemma PassBesideOthers(mode: Mode, listing: seq<Marker>, i: nat, start: View, earlier: View, now: View,
                         was: map<Marker, string>, results: map<Marker, string>, acted: seq<Marker>, kept: bool)
    requires i <= |listing| && PassSoFar(mode, listing, i, start, earlier, was, results, acted, kept)
    requires Interfered(mode, earlier.markers, now.markers) && now.dirs == earlier.dirs
    ensures PassSoFar(mode, listing, i, start, now, was, results, acted, kept)
  {
    hide SettlingSoFar, Added, AloneSoFar;
    if mode.Adding? && kept {
      SettlingAdds(mode.gone, listing, i, start, earlier, now);
    }
  }

  lemma PassStep(mode: Mode, listing: seq<Marker>, i: nat, start: View, here: View, now: View,
                 was: map<Marker, string>, had: map<Marker, string>, results: map<Marker, string>,
                 acted: seq<Marker>, ran: bool, actedNow: bool, done: bool, kept: bool, still: bool)
    requires i < |listing| && Sorted(listing) && (still ==> kept)
    requires PassSoFar(mode, listing, i, start, here, was, had, acted, kept)
    requires OneDone(mode, listing[i], here, now, had, results, ran, actedNow, done)
    requires still ==> done && listing[i].action == Remove ==> SweepTarget(now.dirs, listing[i].id) == None
    ensures
      var next := if actedNow then acted + [listing[i]] else acted;
      if ran then PassSoFar(mode, listing, i + 1, start, now, was, results, next, still)
      else PassEnds(mode, listing, start, now, was, results, next, false, still)
  {
    hide SettlingSoFar, ActedOn, AloneSoFar, Onward, Sorted, Before, IsRequest, SweepTarget, OnlyTouches, Cleared,
         Reported, Shrunk;
    var m := listing[i];
    SortedPrefix(listing, i);
    match mode
    case Quiet =>
      if ran {
        ClearedStep(start.markers, here.markers, listing[..i], m);
        ActedOnStep(start.markers, here.markers, listing[..i], m, acted);
        if actedNow {
          ReportedStep(acted, m, was, had, results);
        }
      }
    case Adding(gone) =>
      if still {
        if m.action == Remove && m.id in gone {
          NoInstallWaits(gone, listing, i, start, here);
        }
        OneIsOnward(gone, here, now, m, actedNow, done);
        SettlingFrom(gone, listing, i, start, here, now);
        if ran {
          SettlingStep(gone, listing, i, start, here, now);
        }
      }
    case Alone =>
      AloneStep(start.markers, here.markers, now.markers, listing[..i], m, acted);
      AloneShrinks(start.markers, now.markers, listing[..i + 1], if actedNow then acted + [m] else acted);
    case Shared =>
  }

  lemma PassKept(mode: Mode, listing: seq<Marker>, start: View, now: View, was: map<Marker, string>,
                 results: map<Marker, string>, acted: seq<Marker>, ran: bool, kept: bool, fewer: bool)
    requires PassEnds(mode, listing, start, now, was, results, acted, ran, kept) && (fewer ==> kept)
    ensures PassEnds(mode, listing, start, now, was, results, acted, ran, fewer)
  {
  }

  lemma PassStops(mode: Mode, listing: seq<Marker>, start: View, now: View,
                  was: map<Marker, string>, results: map<Marker, string>, acted: seq<Marker>, kept: bool)
    requires AllOf(listing, start.markers)
    requires PassSoFar(mode, listing, |listing|, start, now, was, results, acted, kept)
    ensures PassEnds(mode, listing, start, now, was, results, acted, true, kept)
  {
    hide SettlingSoFar, ActedOn, Onward, Settling, Settled, Shrunk, AllOf, AloneSoFar;
    assert listing[..|listing|] == listing;
    match mode
    case Adding(gone) =>
      if kept {
        SettlingDone(gone, listing, start, now);
      }
    case Alone =>
      AloneShrinks(start.markers, now.markers, listing, acted);
    case _ =>
  }

  // ── A drain ────────────────────────────────────────────────────────────────────────────────────────────────────────

  lemma DrainStarts(mode: Mode, start: View, was: map<Marker, string>, kept: bool)
    ensures DrainSoFar(mode, 0, None, start, start, was, was, [], kept)
  {
    if mode.Adding? {
      OnwardFromItself(mode.gone, start);
    }
  }

  lemma DrainBesideOthers(mode: Mode, listings: nat, previous: Option<seq<Marker>>, start: View, earlier: View,
                          now: View, was: map<Marker, string>, results: map<Marker, string>, acted: seq<Marker>,
                          kept: bool)
    requires DrainSoFar(mode, listings, previous, start, earlier, was, results, acted, kept)
    requires Interfered(mode, earlier.markers, now.markers) && now.dirs == earlier.dirs
    ensures DrainSoFar(mode, listings, previous, start, now, was, results, acted, kept)
    ensures DrainEnds(mode, listings, start, now, was, results, acted, false, kept)
  {
    hide GoneSoFar, Added, QuietSoFar, AloneDrain, Onward, Shrunk;
    match mode
    case Adding(gone) =>
      if kept {
        GoneAdds(gone, listings, start, earlier, now);
        GoneIsOnward(gone, listings, start, now);
      }
    case Alone =>
      AloneStops(listings, previous, start.markers, now.markers, acted);
    case _ =>
  }

  /** What a drain has done when a listing stops it; and a listing that does not stop it leaves room for the next. */
  lemma DrainListing(mode: Mode, listings: nat, previous: Option<seq<Marker>>, names: seq<Marker>, start: View,
                     now: View, was: map<Marker, string>, results: map<Marker, string>, acted: seq<Marker>, kept: bool)
    requires listings > 0 && (listings == 1 ==> previous == None)
    requires DrainSoFar(mode, listings - 1, previous, start, now, was, results, acted, kept)
    requires Sorted(names) && AllOf(names, now.markers)
    ensures names == [] || previous == Some(names) ==>
      DrainEnds(mode, listings, start, now, was, results, acted, true, kept)
  {
    hide GoneSoFar, QuietSoFar, AloneDrain, Onward, Shrunk, AllOf, Sorted, Final, IsRequest;
    match mode
    case Quiet => QuietListing(listings, previous, names, start.markers, now.markers, was, results, acted);
    case Adding(gone) =>
      if kept && (names == [] || previous == Some(names)) {
        GoneIsOnward(gone, listings - 1, start, now);
        GoneStops(gone, listings - 1, names, start, now);
      }
    case Alone => AloneListing(listings, previous, names, start.markers, now.markers, acted);
    case Shared =>
  }

  lemma DrainPass(mode: Mode, listings: nat, previous: Option<seq<Marker>>, names: seq<Marker>, start: View, here: View,
                  now: View, was: map<Marker, string>, had: map<Marker, string>, results: map<Marker, string>,
                  acted: seq<Marker>, more: seq<Marker>, ran: bool, kept: bool, still: bool)
    requires listings > 0 && (still ==> kept)
    requires DrainSoFar(mode, listings - 1, previous, start, here, was, had, acted, kept)
    requires Sorted(names) && AllOf(names, here.markers) && names != [] && previous != Some(names)
    requires PassEnds(mode, names, here, now, had, results, more, ran, still)
    ensures
      if ran then DrainSoFar(mode, listings, Some(names), start, now, was, results, acted + more, still)
      else DrainEnds(mode, listings, start, now, was, results, acted + more, false, still)
  {
    hide GoneSoFar, QuietSoFar, AloneDrain, Onward, Shrunk, AllOf, Sorted, Final, IsRequest, Cleared, ActedOn, Reported;
    match mode
    case Quiet =>
      if ran {
        QuietListing(listings, previous, names, start.markers, here.markers, was, had, acted);
        QuietPass(listings, previous, names, start.markers, here.markers, now.markers, was, had, results, acted, more);
      }
    case Adding(gone) =>
      if still {
        GonePasses(gone, listings - 1, start, here, now, ran);
      }
    case Alone =>
      AloneListing(listings, previous, names, start.markers, here.markers, acted);
      AlonePass(listings, previous, names, start.markers, here.markers, now.markers, acted, more, ran);
    case Shared =>
  }

  lemma DrainKept(mode: Mode, listings: nat, start: View, now: View, was: map<Marker, string>,
                  results: map<Marker, string>, acted: seq<Marker>, ran: bool, kept: bool, fewer: bool)
    requires DrainEnds(mode, listings, start, now, was, results, acted, ran, kept) && (fewer ==> kept)
    ensures DrainEnds(mode, listings, start, now, was, results, acted, ran, fewer)
  {
  }

  lemma DrainStops(mode: Mode, listings: nat, previous: Option<seq<Marker>>, start: View, now: View,
                   was: map<Marker, string>, results: map<Marker, string>, acted: seq<Marker>, kept: bool)
    requires listings > 2 && DrainSoFar(mode, listings, previous, start, now, was, results, acted, kept)
    ensures DrainEnds(mode, listings, start, now, was, results, acted, true, kept)
  {
    hide GoneSoFar, QuietSoFar, AloneDrain, Onward, Shrunk, Final, AllSettled;
    match mode
    case Quiet =>
      QuietStopsEarly(listings, previous, start.markers, now.markers, was, results, acted);
      assert false;
    case Adding(gone) =>
      if kept {
        GoneIsOnward(gone, listings, start, now);
      }
    case Alone => AloneStops(listings, previous, start.markers, now.markers, acted);
    case Shared =>
  }

  lemma NothingDrained(mode: Mode, start: View, was: map<Marker, string>, kept: bool)
    ensures DrainEnds(mode, 0, start, start, was, was, [], false, kept)
  {
    if mode.Adding? {
      OnwardFromItself(mode.gone, start);
    }
  }

  /** A sweep before it changes none of this, and if the run ends with the sweep, nothing has been promised but that. */
  lemma DrainAfterSweep(mode: Mode, listings: nat, start: View, swept: View, now: View,
                        was: map<Marker, string>, results: map<Marker, string>, acted: seq<Marker>, ran: bool,
                        kept: bool)
    requires swept.markers == start.markers && forall id :: SweepTarget(swept.dirs, id) == SweepTarget(start.dirs, id)
    requires DrainEnds(mode, listings, swept, now, was, results, acted, ran, kept)
    ensures DrainEnds(mode, listings, start, now, was, results, acted, ran, kept)
  {
    hide Onward, Settled, Settling, Shrunk, Final, SweepTarget, IsRequest;
    if mode.Adding? && kept {
      SameTargetsAreOnward(mode.gone, start, swept);
      OnwardTwice(mode.gone, start, swept, now);
      OnwardMeans(mode.gone, start, swept);
    }
  }
}
