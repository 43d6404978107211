/**
 What a reader gets from the settings cache: a stale cache is reloaded, a reload answers what was committed when it read
 the table, and so a read begun after a write has returned answers that write.
 */
module SettingsReads {
  import opened Outcomes
  import opened SettingsCache

  // ── A read of its own ───────────────────────────────────────────────────────────────────────────────────────

  lemma Then(a: State, es: seq<Event>, s: State, e: Event) returns (longer: seq<Event>, t: State)
    requires After(a, es) == Some(s) && s.history != [] && Enabled(s, e)
    ensures longer == es + [e] && After(a, longer) == Some(t) && t == Next(s, e)
  {
    Snoc(a, es, s, e);
    longer, t := es + [e], Next(s, e);
  }

  /** Nothing is loading, the cache is older than it may be, and no failed reload has to be waited for. */
  predicate MayReload(s: State, r: nat) {
    ReaderOf(s, r).Idle? && s.lock.None? && s.wall - s.stamp > TTL && s.mono >= s.nextTry
  }

  lemma ToHolding(a: State, es: seq<Event>, s: State, r: nat) returns (longer: seq<Event>, t: State)
    requires After(a, es) == Some(s) && s.history != [] && MayReload(s, r)
    ensures longer == es + [ReadClock(r), OuterCheck(r), Acquire(r)] && After(a, longer) == Some(t)
    ensures t == s.(readers := t.readers, lock := Some(r)) && ReaderOf(t, r) == Holding
  {
    hide After;
    longer, t := Then(a, es, s, ReadClock(r));
    longer, t := Then(a, longer, t, OuterCheck(r));
    longer, t := Then(a, longer, t, Acquire(r));
  }

  lemma ToAttempting(a: State, es: seq<Event>, s: State, r: nat) returns (longer: seq<Event>, t: State)
    requires After(a, es) == Some(s) && s.history != [] && ReaderOf(s, r).Holding?
    requires s.wall - s.stamp > TTL && s.mono >= s.nextTry
    ensures longer == es + [ReadClockAgain(r), Recheck(r), RememberVersion(r)] && After(a, longer) == Some(t)
    ensures t == s.(readers := t.readers) && ReaderOf(t, r) == Attempting(s.wall, s.version)
  {
    hide After;
    longer, t := Then(a, es, s, ReadClockAgain(r));
    longer, t := Then(a, longer, t, Recheck(r));
    longer, t := Then(a, longer, t, RememberVersion(r));
  }

  lemma ToCompared(a: State, es: seq<Event>, s: State, r: nat) returns (longer: seq<Event>, t: State)
    requires After(a, es) == Some(s) && s.history != [] && ReaderOf(s, r) == Attempting(s.wall, s.version)
    ensures longer == es + [Select(r), Publish(r), Compare(r)] && After(a, longer) == Some(t)
    ensures t == s.(readers := t.readers, cached := Some(|s.history| - 1), late := false)
    ensures ReaderOf(t, r) == Compared(s.wall, false)
  {
    hide After;
    longer, t := Then(a, es, s, Select(r));
    longer, t := Then(a, longer, t, Publish(r));
    longer, t := Then(a, longer, t, Compare(r));
  }

  lemma ToReleasing(a: State, es: seq<Event>, s: State, r: nat) returns (longer: seq<Event>, t: State)
    requires After(a, es) == Some(s) && s.history != [] && ReaderOf(s, r) == Compared(s.wall, false)
    ensures longer == es + [Store(r), ClearRetry(r), MarkLoaded(r)] && After(a, longer) == Some(t)
    ensures
      t == s.(readers := t.readers, stamp := s.wall, late := false, nextTry := 0, failedAt := None, everLoaded := true)
    ensures ReaderOf(t, r) == Releasing
  {
    hide After;
    longer, t := Then(a, es, s, Store(r));
    longer, t := Then(a, longer, t, ClearRetry(r));
    longer, t := Then(a, longer, t, MarkLoaded(r));
  }

  /** The lines of a read that finds the cache stale and meets no failure. */
  function ReloadSteps(r: nat): seq<Event> {
    [ReadClock(r), OuterCheck(r), Acquire(r)] + [ReadClockAgain(r), Recheck(r), RememberVersion(r)] +
    [Select(r), Publish(r), Compare(r)] + [Store(r), ClearRetry(r), MarkLoaded(r)] + [Release(r)]
  }

  /** The reader is about to answer from an image of the last commit, which is fresh. */
  predicate AnswersTheLast(s: State, t: State, r: nat) {
    && ReaderOf(t, r).Answering? && t.history == s.history && t.cached == Some(|s.history| - 1)
    && t.stamp == t.wall == s.wall && !t.late && t.lock.None? && t.rowLock == s.rowLock
  }

  lemma ToAnswering(a: State, es: seq<Event>, s: State, r: nat) returns (longer: seq<Event>, t: State)
    requires After(a, es) == Some(s) && s.history != [] && ReaderOf(s, r) == Releasing
    ensures longer == es + [Release(r)] && After(a, longer) == Some(t)
    ensures t == s.(readers := t.readers, lock := None) && ReaderOf(t, r).Answering?
  {
    longer, t := Then(a, es, s, Release(r));
  }

  lemma OneAfterTheOther(es: seq<Event>, a: seq<Event>, b: seq<Event>, c: seq<Event>, d: seq<Event>, e: seq<Event>)
    ensures es + a + b + c + d + e == es + (a + b + c + d + e)
  {
  }

  lemma ReloadStepsReload(a: State, es: seq<Event>, s: State, r: nat)
    requires After(a, es) == Some(s) && s.history != [] && MayReload(s, r)
    ensures After(a, es + ReloadSteps(r)).Some? && AnswersTheLast(s, After(a, es + ReloadSteps(r)).value, r)
  {
    hide After, ReaderOf;
    var e1, s1 := ToHolding(a, es, s, r);
    var e2, s2 := ToAttempting(a, e1, s1, r);
    var e3, s3 := ToCompared(a, e2, s2, r);
    var e4, s4 := ToReleasing(a, e3, s3, r);
    var e5, s5 := ToAnswering(a, e4, s4, r);
    OneAfterTheOther(es, [ReadClock(r), OuterCheck(r), Acquire(r)], [ReadClockAgain(r), Recheck(r), RememberVersion(r)],
                     [Select(r), Publish(r), Compare(r)], [Store(r), ClearRetry(r), MarkLoaded(r)], [Release(r)]);
  }

  /** From every reachable state in which the cache is stale and nothing stands in the way, a read reloads it and
      answers what was committed last. */
  lemma AStaleCacheIsReloaded(table: Table, wall: int, mono: nat, before: seq<Event>, r: nat)
    requires wall > TTL && After(Initial(table, wall, mono), before).Some?
    ensures
      var start := Initial(table, wall, mono);
      var s := After(start, before).value;
      ReaderOf(s, r).Idle? && s.lock.None? && s.wall - s.stamp > TTL && s.mono >= s.nextTry ==>
        && After(start, before + ReloadSteps(r)).Some?
        && AnswersTheLast(s, After(start, before + ReloadSteps(r)).value, r)
  {
    hide Enabled, Next, AnswersTheLast;
    var start := Initial(table, wall, mono);
    StartsSound(table, wall, mono);
    EveryRunKeepsInv(start, before);
    var s := After(start, before).value;
    ReaderFacts(s, r);
    if MayReload(s, r) {
      ReloadStepsReload(start, before, s, r);
    }
  }

  /** The lines of a write. */
  function WriteSteps(w: nat, key: string, value: string): seq<Event> {
    [Set(w, key, value), Bump(w), Zero(w), Return(w)]
  }

  lemma ToInvalidating(a: State, es: seq<Event>, s: State, w: nat, key: string, value: string)
    returns (longer: seq<Event>, t: State)
    requires After(a, es) == Some(s) && s.history != [] && WriterOf(s, w).Resting? && key !in s.rowLock
    ensures longer == es + [Set(w, key, value), Bump(w)] && After(a, longer) == Some(t)
    ensures Commits(s, t, key, value) && WriterOf(t, w).Bumped?
    ensures t.readers == s.readers && t.lock == s.lock && t.wall == s.wall && t.mono == s.mono
  {
    SetCommitsTheValue(s, w, key, value);
    hide After, Commits;
    longer, t := Then(a, es, s, Set(w, key, value));
    ghost var u := t;
    longer, t := Then(a, longer, t, Bump(w));
    SameCommit(s, u, t, key, value);
  }

  lemma ToReturned(a: State, es: seq<Event>, s: State, w: nat) returns (longer: seq<Event>, t: State)
    requires After(a, es) == Some(s) && s.history != [] && s.lock.None? && WriterOf(s, w).Bumped?
    ensures longer == es + [Zero(w), Return(w)] && After(a, longer) == Some(t)
    ensures t.history == s.history && t.stamp == 0 && t.nextTry == 0
    ensures t.readers == s.readers && t.lock == s.lock && t.wall == s.wall && t.mono == s.mono
    ensures t.rowLock == s.rowLock
  {
    hide After;
    longer, t := Then(a, es, s, Zero(w));
    longer, t := Then(a, longer, t, Return(w));
  }

  lemma WriteStepsWrite(a: State, es: seq<Event>, s: State, w: nat, key: string, value: string)
    returns (longer: seq<Event>, t: State)
    requires After(a, es) == Some(s) && s.history != [] && s.lock.None? && WriterOf(s, w).Resting? && key !in s.rowLock
    ensures longer == es + WriteSteps(w, key, value) && After(a, longer) == Some(t)
    ensures Commits(s, t, key, value) && t.stamp == 0 && t.nextTry == 0
    ensures t.readers == s.readers && t.lock == s.lock && t.wall == s.wall && t.mono == s.mono
  {
    hide After, Commits, WriterOf;
    var e1, s1 := ToInvalidating(a, es, s, w, key, value);
    CommitsOne(s, s1, key, value);
    longer, t := ToReturned(a, e1, s1, w);
    SameCommit(s, s1, t, key, value);
    assert es + [Set(w, key, value), Bump(w)] + [Zero(w), Return(w)] == es + WriteSteps(w, key, value);
  }

  /** A read begun after a write has returned answers that write, and of every other key what was committed before
      it. */
  lemma AReadAnswersTheWriteBeforeIt(table: Table, wall: int, mono: nat, before: seq<Event>, w: nat, r: nat,
                                     key: string, value: string)
    requires wall > TTL && After(Initial(table, wall, mono), before).Some?
    ensures
      var start, es := Initial(table, wall, mono), before + WriteSteps(w, key, value) + ReloadSteps(r);
      var s := After(start, before).value;
      s.lock.None? && WriterOf(s, w).Resting? && key !in s.rowLock && ReaderOf(s, r).Idle? ==>
        && After(start, es).Some?
        && var t := After(start, es).value;
           && ReaderOf(t, r).Answering? && t.cached == Some(|s.history|)
           && Commits(s, t, key, value)
  {
    hide Enabled, Next, Commits;
    var start := Initial(table, wall, mono);
    StartsSound(table, wall, mono);
    EveryRunKeepsInv(start, before);
    var s := After(start, before).value;
    ReaderFacts(s, r);
    if s.lock.None? && WriterOf(s, w).Resting? && key !in s.rowLock && ReaderOf(s, r).Idle? {
      var longer, t := WriteStepsWrite(start, before, s, w, key, value);
      CommitsOne(s, t, key, value);
      ReloadStepsReload(start, longer, t, r);
      SameCommit(s, t, After(start, longer + ReloadSteps(r)).value, key, value);
    }
  }

  lemma CommitsOne(s: State, t: State, key: string, value: string)
    requires Commits(s, t, key, value)
    ensures t.history != [] && |t.history| == |s.history| + 1
  {
  }

  lemma SameCommit(s: State, t: State, u: State, key: string, value: string)
    requires Commits(s, t, key, value) && u.history == t.history
    ensures Commits(s, u, key, value)
  {
  }

  /** The lines of an update of a row, made first when it is not there, whose value `mutated` it is to be. */
  function UpdateSteps(w: nat, key: string, mutated: Option<string>): seq<Event> {
    [Create(w, key), LockRow(w)] + [Update(w, mutated), Bump(w)] + [Zero(w), Return(w)]
  }

  lemma ToLocked(a: State, es: seq<Event>, s: State, w: nat, key: string) returns (longer: seq<Event>, t: State)
    requires After(a, es) == Some(s) && s.history != [] && WriterOf(s, w).Resting? && key !in s.rowLock
    ensures longer == es + [Create(w, key), LockRow(w)] && After(a, longer) == Some(t)
    ensures WriterOf(t, w).Locked? && WriterOf(t, w).key == key && key in Now(t)
    ensures WriterOf(t, w).current == Now(t)[key] == if key in Now(s) then Now(s)[key] else ""
    ensures t.history != [] && forall k :: k != key ==>
      (k in Now(t) <==> k in Now(s)) && (k in Now(s) ==> Now(t)[k] == Now(s)[k])
    ensures t.rowLock == s.rowLock[key := w] && t.readers == s.readers && t.lock == s.lock
    ensures t.wall == s.wall && t.mono == s.mono
  {
    hide After;
    longer, t := Then(a, es, s, Create(w, key));
    longer, t := Then(a, longer, t, LockRow(w));
  }

  lemma OneUpdate(s: State, w: nat, mutated: Option<string>)
    requires s.history != [] && WriterOf(s, w).Locked? && WriterOf(s, w).key in Now(s)
    requires WriterOf(s, w).current == Now(s)[WriterOf(s, w).key]
    ensures Enabled(s, Update(w, mutated))
    ensures
      var t := Next(s, Update(w, mutated));
      && t.history != [] && WriterOf(t, w).Committed?
      && Now(t) == (match mutated case Some(v) => Now(s)[WriterOf(s, w).key := v] case None => Now(s))
      && t.rowLock == s.rowLock - {WriterOf(s, w).key} && t.readers == s.readers && t.lock == s.lock
      && t.wall == s.wall && t.mono == s.mono
  {
    hide ReaderStep, Value;
  }

  lemma ToUpdated(a: State, es: seq<Event>, s: State, w: nat, mutated: Option<string>)
    returns (longer: seq<Event>, t: State)
    requires After(a, es) == Some(s) && s.history != [] && WriterOf(s, w).Locked? && WriterOf(s, w).key in Now(s)
    requires WriterOf(s, w).current == Now(s)[WriterOf(s, w).key]
    ensures longer == es + [Update(w, mutated), Bump(w)] && After(a, longer) == Some(t) && WriterOf(t, w).Bumped?
    ensures t.history != []
    ensures Now(t) == match mutated case Some(v) => Now(s)[WriterOf(s, w).key := v] case None => Now(s)
    ensures t.rowLock == s.rowLock - {WriterOf(s, w).key} && t.readers == s.readers && t.lock == s.lock
    ensures t.wall == s.wall && t.mono == s.mono
  {
    hide After, Enabled, Next, WriterOf;
    OneUpdate(s, w, mutated);
    Snoc(a, es, s, Update(w, mutated));
    var u := Next(s, Update(w, mutated));
    ToBumpedAfter(a, es + [Update(w, mutated)], u, w);
    longer, t := es + [Update(w, mutated)] + [Bump(w)], Next(u, Bump(w));
    assert longer == es + [Update(w, mutated), Bump(w)];
  }

  lemma ToBumpedAfter(a: State, es: seq<Event>, s: State, w: nat)
    requires After(a, es) == Some(s) && s.history != [] && WriterOf(s, w).Committed?
    ensures Enabled(s, Bump(w)) && After(a, es + [Bump(w)]) == Some(Next(s, Bump(w)))
    ensures
      var t := Next(s, Bump(w));
      && WriterOf(t, w).Bumped? && t.history == s.history && t.rowLock == s.rowLock
      && t.readers == s.readers && t.lock == s.lock && t.wall == s.wall && t.mono == s.mono
  {
    Snoc(a, es, s, Bump(w));
  }

  /** What an update of `key` leaves of the table: the row holds what it asked for, or what it held, or nothing where
      there was no row; every other row is as it was. */
  ghost predicate UpdateLeaves(before: Table, after: Table, key: string, mutated: Option<string>) {
    && key in after
    && after[key] == (if mutated.Some? then mutated.value else if key in before then before[key] else "")
    && forall k :: k != key ==> (k in after <==> k in before) && (k in before ==> after[k] == before[k])
  }

  lemma UpdateStepsUpdate(a: State, es: seq<Event>, s: State, w: nat, key: string, mutated: Option<string>)
    returns (longer: seq<Event>, t: State)
    requires After(a, es) == Some(s) && s.history != [] && s.lock.None? && WriterOf(s, w).Resting? && key !in s.rowLock
    ensures longer == es + UpdateSteps(w, key, mutated) && After(a, longer) == Some(t)
    ensures t.history != [] && UpdateLeaves(Now(s), Now(t), key, mutated)
    ensures t.stamp == 0 && t.nextTry == 0 && key !in t.rowLock
    ensures t.readers == s.readers && t.lock == s.lock && t.wall == s.wall && t.mono == s.mono
  {
    hide After, Enabled, Next, UpdateLeaves, WriterOf;
    var e1, s1 := ToLocked(a, es, s, w, key);
    LeavesWhatItAsked(s, s1, w, key, mutated);
    var e2, s2 := ToUpdated(a, e1, s1, w, mutated);
    longer, t := ToReturned(a, e2, s2, w);
    assert longer == es + UpdateSteps(w, key, mutated);
  }

  /** A read begun after an update has returned answers what it left, and the row is free again. */
  lemma AReadAnswersTheUpdateBeforeIt(table: Table, wall: int, mono: nat, before: seq<Event>, w: nat, r: nat,
                                      key: string, mutated: Option<string>)
    requires wall > TTL && After(Initial(table, wall, mono), before).Some?
    ensures
      var start, es := Initial(table, wall, mono), before + UpdateSteps(w, key, mutated) + ReloadSteps(r);
      var s := After(start, before).value;
      s.lock.None? && WriterOf(s, w).Resting? && key !in s.rowLock && ReaderOf(s, r).Idle? ==>
        && s.history != [] && After(start, es).Some?
        && var t := After(start, es).value;
           && ReaderOf(t, r).Answering? && t.cached.Some? && t.cached.value < |t.history| && key !in t.rowLock
           && UpdateLeaves(s.history[|s.history| - 1], t.history[t.cached.value], key, mutated)
  {
    hide Enabled, Next, AnswersTheLast, UpdateLeaves, WriterOf, UpdateSteps, ReloadSteps;
    var start := Initial(table, wall, mono);
    StartsSound(table, wall, mono);
    EveryRunKeepsInv(start, before);
    var s := After(start, before).value;
    ReaderFacts(s, r);
    hide After, Inv;
    if s.lock.None? && WriterOf(s, w).Resting? && key !in s.rowLock && ReaderOf(s, r).Idle? {
      var longer, t := UpdateStepsUpdate(start, before, s, w, key, mutated);
      ReloadStepsReload(start, longer, t, r);
      AnsweredFrom(t, After(start, longer + ReloadSteps(r)).value, r);
    }
  }

  lemma LeavesWhatItAsked(s: State, t: State, w: nat, key: string, mutated: Option<string>)
    requires s.history != [] && t.history != [] && key in Now(t)
    requires Now(t)[key] == if key in Now(s) then Now(s)[key] else ""
    requires forall k :: k != key ==> (k in Now(t) <==> k in Now(s)) && (k in Now(s) ==> Now(t)[k] == Now(s)[k])
    ensures UpdateLeaves(Now(s), match mutated case Some(v) => Now(t)[key := v] case None => Now(t), key, mutated)
  {
  }

  lemma AnsweredFrom(s: State, t: State, r: nat)
    requires s.history != [] && AnswersTheLast(s, t, r)
    ensures ReaderOf(t, r).Answering? && t.cached == Some(|s.history| - 1) && t.history == s.history
    ensures t.rowLock == s.rowLock
  {
  }

  /** An update that fails, before its row is locked or after, commits no value and leaves the row free. */
  lemma AnAbortedUpdateLeavesTheRowFree(s: State, w: nat)
    requires Inv(s) && s.history != [] && (WriterOf(s, w).Created? || WriterOf(s, w).Locked?)
    ensures
      Enabled(s, Abort(w)) &&
      var t := Next(s, Abort(w));
      && t.history == s.history && WriterOf(t, w) == Resting
      && forall key :: key in t.rowLock <==> key in s.rowLock && !(WriterOf(s, w).Locked? && key == WriterOf(s, w).key)
  {
    hide Inv, ReaderStep;
  }

  /** A reload may fail at the connect or the SELECT, at the fetch, or at the close: its reader is then done with the
      lock, answers what is cached, and from now no other is due for RETRY_S. */
  lemma AFailedReloadAnswersWhatIsThere(s: State, r: nat)
    requires Inv(s) && s.history != []
    requires ReaderOf(s, r).Attempting? || ReaderOf(s, r).Selected? || ReaderOf(s, r).Published?
    ensures
      Enabled(s, Fail(r)) && Next(s, Fail(r)).history != [] && Enabled(Next(s, Fail(r)), Release(r)) &&
      var t := Next(Next(s, Fail(r)), Release(r));
      && ReaderOf(t, r).Answering? && t.lock == None && t.cached == s.cached && t.stamp == s.stamp
      && t.nextTry == s.mono + 5
  {
    hide Inv, WriterStep, Due;
  }

  // ── A reload among others ───────────────────────────────────────────────────────────────────────────────────

  /** What the reader read, or published, is commit `at` or a later one. */
  predicate Carries(s: State, r: nat, at: nat) {
    match ReaderOf(s, r)
    case Selected(_, _, read) => read == at
    case Published(_, _) => s.cached.Some? && s.cached.value >= at
    case Compared(_, _) => s.cached.Some? && s.cached.value >= at
    case Stamped => s.cached.Some? && s.cached.value >= at
    case Retryable => s.cached.Some? && s.cached.value >= at
    case Releasing => s.cached.Some? && s.cached.value >= at
    case Answering(_) => s.cached.Some? && s.cached.value >= at
    case _ => false
  }

  lemma OnlyPublishChangesTheImage(s: State, e: Event)
    requires s.history != [] && Enabled(s, e) && !e.Publish?
    ensures Next(s, e).cached == s.cached
  {
    if OfAReader(e) {
      hide WriterStep, Due, Enabled;
    } else {
      hide ReaderStep, Value, Enabled;
    }
  }

  lemma ImagesOnlyGetNewer(s: State, e: Event)
    requires Inv(s) && s.history != [] && Enabled(s, e)
    ensures s.cached.Some? ==> Next(s, e).cached.Some? && s.cached.value <= Next(s, e).cached.value
  {
    if e.Publish? {
      ReaderFacts(s, e.r);
    } else {
      OnlyPublishChangesTheImage(s, e);
      hide Next;
    }
    hide Inv, WriterStep, Due;
  }

  lemma OwnStepsCarryOn(s: State, e: Event, r: nat, at: nat)
    requires s.history != [] && Enabled(s, e) && Carries(s, r, at) && IsOf(e, r) && e != Fail(r) && e != Answer(r)
    ensures Carries(Next(s, e), r, at)
  {
    hide WriterStep, Due;
  }

  lemma OthersCarryOn(s: State, t: State, r: nat, at: nat)
    requires Carries(s, r, at) && SameButLate(ReaderOf(s, r), ReaderOf(t, r))
    requires s.cached.Some? ==> t.cached.Some? && s.cached.value <= t.cached.value
    ensures Carries(t, r, at)
  {
    hide ReaderOf;
  }

  lemma CarriesOn(s: State, e: Event, r: nat, at: nat)
    requires Inv(s) && s.history != [] && Enabled(s, e) && Carries(s, r, at) && e != Fail(r) && e != Answer(r)
    ensures Carries(Next(s, e), r, at)
  {
    hide Inv, Carries, Enabled;
    if IsOf(e, r) {
      OwnStepsCarryOn(s, e, r, at);
    } else {
      ImagesOnlyGetNewer(s, e);
      if OfAReader(e) {
        OtherReadersStand(s, e, r);
      } else {
        SameReaders(s, e);
      }
      hide Next;
      OthersCarryOn(s, Next(s, e), r, at);
    }
  }

  lemma OtherReadersStand(s: State, e: Event, r: nat)
    requires s.history != [] && Enabled(s, e) && OfAReader(e) && e.r != r
    ensures ReaderOf(Next(s, e), r) == ReaderOf(s, r)
  {
    hide WriterStep, Due, Enabled;
  }

  lemma {:induction false} CarriesThrough(s: State, es: seq<Event>, r: nat, at: nat)
    requires Inv(s) && Carries(s, r, at) && After(s, es).Some?
    requires forall i :: 0 <= i < |es| ==> es[i] != Fail(r) && es[i] != Answer(r)
    ensures Carries(After(s, es).value, r, at)
  {
    hide Inv, Enabled, Next, Carries;
    if es != [] {
      var k := |es| - 1;
      CarriesThrough(s, es[..k], r, at);
      EveryRunKeepsInv(s, es[..k]);
      ReaderFacts(After(s, es[..k]).value, r);
      CarriesOn(After(s, es[..k]).value, es[k], r, at);
    }
  }

  /** In every run: a reload that does not fail answers, whatever others do meanwhile, from an image no older than
      what was committed when it read the table. */
  lemma AReloadAnswersWhatItRead(table: Table, wall: int, mono: nat, before: seq<Event>, r: nat, since: seq<Event>)
    requires wall > TTL && After(Initial(table, wall, mono), before + [Select(r)] + since).Some?
    requires forall i :: 0 <= i < |since| ==> since[i] != Fail(r) && since[i] != Answer(r)
    ensures
      After(Initial(table, wall, mono), before).Some? &&
      var read := After(Initial(table, wall, mono), before).value;
      var s := After(Initial(table, wall, mono), before + [Select(r)] + since).value;
      ReaderOf(s, r).Answering? ==> s.cached.Some? && |read.history| - 1 <= s.cached.value
  {
    hide Enabled, Next, Inv, Carries;
    var start := Initial(table, wall, mono);
    AfterOneThenTheOther(start, before + [Select(r)], since);
    AfterOneThenTheOther(start, before, [Select(r)]);
    StartsSound(table, wall, mono);
    EveryRunKeepsInv(start, before);
    var read := After(start, before).value;
    OneStep(read, Select(r));
    StepKeepsInv(read, Select(r));
    SelectCarries(read, r);
    CarriesThrough(Next(read, Select(r)), since, r, |read.history| - 1);
    CarriedToTheAnswer(After(start, before + [Select(r)] + since).value, r, |read.history| - 1);
  }

  lemma SelectCarries(s: State, r: nat)
    requires s.history != [] && Enabled(s, Select(r))
    ensures Carries(Next(s, Select(r)), r, |s.history| - 1)
  {
    hide WriterStep;
  }

  lemma CarriedToTheAnswer(s: State, r: nat, at: nat)
    requires Carries(s, r, at)
    ensures ReaderOf(s, r).Answering? ==> s.cached.Some? && at <= s.cached.value
  {
  }

  // ── A late store ────────────────────────────────────────────────────────────────────────────────────────────

  const COLD := Initial(map[], 1000, 0)

  lemma ToTheWindow() returns (es: seq<Event>, t: State)
    ensures After(COLD, es) == Some(t)
    ensures t == COLD.(readers := t.readers, lock := Some(0), cached := Some(0))
    ensures ReaderOf(t, 0) == Compared(1000, false)
  {
    assert After(COLD, []) == Some(COLD);
    es, t := ToHolding(COLD, [], COLD, 0);
    es, t := ToAttempting(COLD, es, t, 0);
    es, t := ToCompared(COLD, es, t, 0);
  }

  lemma ToBumped() returns (es: seq<Event>, t: State)
    ensures After(COLD, es) == Some(t)
    ensures t.history != [] && t.wall == 1000 && t.cached == Some(0) && t.lock == Some(0)
    ensures ReaderOf(t, 0) == Compared(1000, false) && WriterOf(t, 1) == Bumped(1)
  {
    es, t := ToTheWindow();
    hide After;
    es, t := Then(COLD, es, t, Set(1, "k", "v"));
    es, t := Then(COLD, es, t, Bump(1));
  }

  lemma ToHidden() returns (es: seq<Event>, t: State)
    ensures After(COLD, es) == Some(t)
    ensures t.history != [] && t.wall == 1000 && t.cached == Some(0) && t.returned >= 1
    ensures ReaderOf(t, 0) == Compared(1000, true)
  {
    es, t := ToBumped();
    hide After;
    es, t := Then(COLD, es, t, Zero(1));
    es, t := Then(COLD, es, t, Return(1));
  }

  /** With an invalidation between the compare and the store, a returned write is hidden behind a fresh stamp. */
  lemma ALateStoreHidesAWrite() returns (es: seq<Event>)
    ensures After(COLD, es).Some?
    ensures
      var s := After(COLD, es).value;
      s.stamp == s.wall && s.late && s.cached.Some? && s.cached.value < s.returned
  {
    var t;
    es, t := ToHidden();
    es, t := Then(COLD, es, t, Store(0));
  }
}
