/**
 The settings cache as a state machine: any number of readers and writers, every line of the reload and of the
 invalidation its own step.  `_settings_version += 1` is one step; comparing the version and storing the timestamp are
 two.
 */
module SettingsCache {
  import opened Outcomes

  type Table = map<string, string>

  const TTL := 30
  const RETRY_S := 5

  /** Where one call of get_global_setting stands. */
  datatype Reader =
    | Idle
    | Outer(now: int)
    | Acquiring(blocking: bool)
    | Holding
    | Checking(now: int)
    | Started(now: int)
    | Attempting(now: int, under: nat)
    | Selected(now: int, under: nat, at: nat)
    | Published(now: int, under: nat)
    | Compared(stamp: int, late: bool)   // late: a Zero for a commit newer than the image has come since
    | Stamped
    | Retryable
    | Releasing
    | Answering(floor: Option<nat>)      // what had returned when the first check found the cache fresh

  /** Where one call of set_global_setting or update_global_setting stands. */
  datatype Writer =
    | Resting
    | Created(key: string)
    | Locked(key: string, current: string)
    | Committed(at: nat)
    | Bumped(at: nat)
    | Zeroed(at: nat)

  datatype State = State(
    history: seq<Table>,          // the settings table after each commit
    cached: Option<nat>,          // the commit the cache is an image of
    stamp: int,                   // _settings_cache_ts
    nextTry: int,                 // _settings_next_try_mono
    everLoaded: bool,
    version: nat,
    lock: Option<nat>,            // _settings_refresh_lock
    rowLock: map<string, nat>,
    readers: map<nat, Reader>,
    writers: map<nat, Writer>,
    wall: int, mono: nat,
    // what the properties speak of
    bumped: nat, zeroed: nat, returned: nat,  // the latest commit whose writer has bumped, zeroed, returned
    zeroer: nat,                              // the writer of commit `zeroed`
    failedAt: Option<int>,                    // when the last failed reload ended, until an invalidation or a success
    late: bool)                               // the image was stored with its late bit set

  datatype Event =
    | Tick(wall: int, mono: nat)
    | ReadClock(r: nat) | OuterCheck(r: nat) | Acquire(r: nat) | ReadClockAgain(r: nat) | Recheck(r: nat)
    | RememberVersion(r: nat) | Select(r: nat) | Fail(r: nat) | Publish(r: nat) | Compare(r: nat) | Store(r: nat)
    | ClearRetry(r: nat) | MarkLoaded(r: nat) | Release(r: nat) | Answer(r: nat)
    | Set(w: nat, key: string, value: string)
    | Create(w: nat, key: string) | LockRow(w: nat) | Update(w: nat, mutated: Option<string>) | Abort(w: nat)
    | Bump(w: nat) | Zero(w: nat) | Return(w: nat)

  predicate OfAReader(e: Event) {
    !(e.Tick? || e.Set? || e.Create? || e.LockRow? || e.Update? || e.Abort? || e.Bump? || e.Zero? || e.Return?)
  }

  function ReaderOf(s: State, r: nat): Reader {
    if r in s.readers then s.readers[r] else Idle
  }

  function WriterOf(s: State, w: nat): Writer {
    if w in s.writers then s.writers[w] else Resting
  }

  function Now(s: State): Table
    requires s.history != []
  {
    s.history[|s.history| - 1]
  }

  function Value(t: Table, key: string): string {
    if key in t then t[key] else ""
  }

  predicate Due(s: State, now: int) {
    now - s.stamp > TTL && s.mono >= s.nextTry
  }

  function Max(a: nat, b: nat): nat {
    if a > b then a else b
  }

  // ── Steps ───────────────────────────────────────────────────────────────────────────────────────────────────

  predicate Enabled(s: State, e: Event) {
    match e
    case Tick(wall, mono) => wall > TTL && mono >= s.mono
    case ReadClock(r) => ReaderOf(s, r).Idle?
    case OuterCheck(r) => ReaderOf(s, r).Outer?
    case Acquire(r) => ReaderOf(s, r).Acquiring? && (s.lock.None? || !ReaderOf(s, r).blocking)
    case ReadClockAgain(r) => ReaderOf(s, r).Holding?
    case Recheck(r) => ReaderOf(s, r).Checking?
    case RememberVersion(r) => ReaderOf(s, r).Started?
    case Select(r) => ReaderOf(s, r).Attempting?
    // at the connect or the SELECT, at the fetch, or at the close with the image already published
    case Fail(r) => ReaderOf(s, r).Attempting? || ReaderOf(s, r).Selected? || ReaderOf(s, r).Published?
    case Publish(r) => ReaderOf(s, r).Selected?
    case Compare(r) => ReaderOf(s, r).Published?
    case Store(r) => ReaderOf(s, r).Compared?
    case ClearRetry(r) => ReaderOf(s, r).Stamped?
    case MarkLoaded(r) => ReaderOf(s, r).Retryable?
    case Release(r) => ReaderOf(s, r).Releasing?
    case Answer(r) => ReaderOf(s, r).Answering?
    case Set(w, key, _) => WriterOf(s, w).Resting? && key !in s.rowLock
    case Create(w, key) => WriterOf(s, w).Resting? && key !in s.rowLock
    case LockRow(w) => WriterOf(s, w).Created? && WriterOf(s, w).key !in s.rowLock
    case Update(w, _) => WriterOf(s, w).Locked?
    case Abort(w) => WriterOf(s, w).Created? || WriterOf(s, w).Locked?
    case Bump(w) => WriterOf(s, w).Committed?
    case Zero(w) => WriterOf(s, w).Bumped?
    case Return(w) => WriterOf(s, w).Zeroed?
  }

  function Commit(s: State, t: Table): State {
    s.(history := s.history + [t])
  }

  function ToReader(s: State, r: nat, to: Reader): State {
    s.(readers := s.readers[r := to])
  }

  function ToWriter(s: State, w: nat, to: Writer): State {
    s.(writers := s.writers[w := to])
  }

  /** A Zero for commit `at` falls between the compare and the store of a reload with an older image. */
  function MarkLate(s: State, at: nat): State {
    if s.lock.Some? && ReaderOf(s, s.lock.value).Compared? && s.cached.Some? && s.cached.value < at then
      ToReader(s, s.lock.value, ReaderOf(s, s.lock.value).(late := true))
    else s
  }

  function ReaderStep(s: State, e: Event, p: Reader): State
    requires s.history != [] && Enabled(s, e) && OfAReader(e) && p == ReaderOf(s, e.r)
  {
    match e
    case ReadClock(r) => ToReader(s, r, Outer(s.wall))
    case OuterCheck(r) =>
      ToReader(s, r, if Due(s, p.now) then Acquiring(!s.everLoaded)
                     else Answering(if p.now - s.stamp <= TTL && !s.late then Some(s.returned) else None))
    case Acquire(r) =>
      if s.lock.None? then ToReader(s, r, Holding).(lock := Some(r)) else ToReader(s, r, Answering(None))
    case ReadClockAgain(r) => ToReader(s, r, Checking(s.wall))
    case Recheck(r) => ToReader(s, r, if Due(s, p.now) then Started(p.now) else Releasing)
    case RememberVersion(r) => ToReader(s, r, Attempting(p.now, s.version))
    case Select(r) => ToReader(s, r, Selected(p.now, p.under, |s.history| - 1))
    case Fail(r) => ToReader(s, r, Releasing).(nextTry := s.mono + RETRY_S, failedAt := Some(s.mono))
    case Publish(r) => ToReader(s, r, Published(p.now, p.under)).(cached := Some(p.at), late := false)
    case Compare(r) => ToReader(s, r, Compared(if p.under == s.version then p.now else 0, false))
    case Store(r) => ToReader(s, r, Stamped).(stamp := p.stamp, late := p.late)
    case ClearRetry(r) => ToReader(s, r, Retryable).(nextTry := 0, failedAt := None)
    case MarkLoaded(r) => ToReader(s, r, Releasing).(everLoaded := true)
    case Release(r) => ToReader(s, r, Answering(None)).(lock := None)
    case Answer(r) => ToReader(s, r, Idle)
  }

  function WriterStep(s: State, e: Event, p: Writer): State
    requires s.history != [] && Enabled(s, e) && !OfAReader(e) && !e.Tick? && p == WriterOf(s, e.w)
  {
    match e
    case Set(w, key, value) => ToWriter(Commit(s, Now(s)[key := value]), w, Committed(|s.history|))
    case Create(w, key) => ToWriter(if key in Now(s) then s else Commit(s, Now(s)[key := ""]), w, Created(key))
    case LockRow(w) => ToWriter(s, w, Locked(p.key, Value(Now(s), p.key))).(rowLock := s.rowLock[p.key := w])
    case Update(w, mutated) =>
      var free := s.(rowLock := s.rowLock - {p.key});
      if mutated.Some? && mutated.value != p.current then
        ToWriter(Commit(free, Now(s)[p.key := mutated.value]), w, Committed(|s.history|))
      else ToWriter(free, w, Committed(|s.history| - 1))
    case Abort(w) =>
      if p.Created? then ToWriter(s, w, Resting) else ToWriter(s, w, Resting).(rowLock := s.rowLock - {p.key})
    case Bump(w) =>
      ToWriter(s, w, Bumped(p.at)).(version := s.version + 1, bumped := Max(s.bumped, p.at))
    case Zero(w) =>
      ToWriter(MarkLate(s, p.at), w, Zeroed(p.at))
        .(stamp := 0, zeroed := Max(s.zeroed, p.at), zeroer := if p.at > s.zeroed then w else s.zeroer)
    case Return(w) => ToWriter(s, w, Resting).(nextTry := 0, failedAt := None, returned := Max(s.returned, p.at))
  }

  function Next(s: State, e: Event): State
    requires s.history != [] && Enabled(s, e)
  {
    match e
    case Tick(wall, mono) => s.(wall := wall, mono := mono)
    case Set(w, _, _) => WriterStep(s, e, WriterOf(s, w))
    case Create(w, _) => WriterStep(s, e, WriterOf(s, w))
    case LockRow(w) => WriterStep(s, e, WriterOf(s, w))
    case Update(w, _) => WriterStep(s, e, WriterOf(s, w))
    case Abort(w) => WriterStep(s, e, WriterOf(s, w))
    case Bump(w) => WriterStep(s, e, WriterOf(s, w))
    case Zero(w) => WriterStep(s, e, WriterOf(s, w))
    case Return(w) => WriterStep(s, e, WriterOf(s, w))
    case _ => ReaderStep(s, e, ReaderOf(s, e.r))
  }

  function Initial(table: Table, wall: int, mono: nat): State
    requires wall > TTL
  {
    State([table], None, 0, 0, false, 0, None, map[], map[], map[], wall, mono, 0, 0, 0, 0, None, false)
  }

  // ── The invariant ───────────────────────────────────────────────────────────────────────────────────────────

  predicate HasLock(p: Reader) {
    !p.Idle? && !p.Outer? && !p.Acquiring? && !p.Answering?
  }

  predicate Attempt(p: Reader) {
    p.Started? || p.Attempting? || p.Selected? || p.Published? || p.Compared? || p.Stamped? || p.Retryable?
  }

  predicate ClocksSound(p: Reader) {
    match p
    case Outer(now) => now > TTL
    case Checking(now) => now > TTL
    case Started(now) => now > TTL
    case Attempting(now, _) => now > TTL
    case Selected(now, _, _) => now > TTL
    case Published(now, _) => now > TTL
    case _ => true
  }

  /** A reload whose image predates a bumped write remembers an older version. */
  predicate NoticesWrites(s: State, p: Reader) {
    match p
    case Attempting(_, under) => under <= s.version
    case Selected(_, under, at) =>
      && under <= s.version && at < |s.history| && (s.cached.Some? ==> s.cached.value <= at)
      && (at < s.bumped ==> under < s.version) && (s.stamp != 0 ==> at >= s.zeroed)
    case Published(_, under) =>
      under <= s.version && s.cached.Some? && (s.cached.value < s.bumped ==> under < s.version)
    case Compared(stamp, late) =>
      s.cached.Some? && (stamp != 0 ==> (s.cached.value < s.zeroed <==> late))
    case Answering(Some(floor)) => s.cached.Some? && s.cached.value >= floor
    case _ => true
  }

  predicate WriterSound(s: State, w: nat, p: Writer)
    requires s.history != []
  {
    match p
    case Resting => true
    case Created(key) => key in Now(s)
    case Locked(key, current) =>
      key in Now(s) && key in s.rowLock && s.rowLock[key] == w && Value(Now(s), key) == current
    case Committed(at) => at < |s.history|
    case Bumped(at) => at <= s.bumped
    case Zeroed(at) => at <= s.zeroed
  }

  ghost predicate Inv(s: State) {
    && s.history != [] && s.wall > TTL
    && s.returned <= s.zeroed <= s.bumped < |s.history|
    && (s.cached.Some? ==> s.cached.value < |s.history|)
    && (forall r: nat :: HasLock(ReaderOf(s, r)) <==> s.lock == Some(r))
    && (forall r: nat :: ClocksSound(ReaderOf(s, r)))
    && (forall r: nat :: NoticesWrites(s, ReaderOf(s, r)))
    && (forall w: nat :: WriterSound(s, w, WriterOf(s, w)))
    && (s.returned == s.zeroed || WriterOf(s, s.zeroer) == Zeroed(s.zeroed))
    && (s.stamp != 0 ==> s.cached.Some? && (s.cached.value < s.zeroed <==> s.late))
    && (s.failedAt.Some? ==> s.nextTry == s.failedAt.value + RETRY_S)
  }

  lemma StartsSound(table: Table, wall: int, mono: nat)
    requires wall > TTL
    ensures Inv(Initial(table, wall, mono))
  {
  }

  /** What a reader's step leaves alone, and what it must establish about the parts it touches. */
  ghost predicate ReaderMoves(s: State, t: State, r: nat, to: Reader) {
    && t == ToReader(s, r, to).(cached := t.cached, stamp := t.stamp, nextTry := t.nextTry, everLoaded := t.everLoaded,
                                lock := t.lock, failedAt := t.failedAt, late := t.late)
    && (HasLock(to) <==> t.lock == Some(r))
    && (t.lock == s.lock || (s.lock.None? && t.lock == Some(r)) || (s.lock == Some(r) && t.lock.None?))
    && (t.cached == s.cached || s.lock == Some(r) == t.lock)
    && (s.cached.Some? ==> t.cached.Some? && s.cached.value <= t.cached.value)
    && (t.stamp == s.stamp || s.lock == Some(r) == t.lock)
    && (t.cached.Some? ==> t.cached.value < |t.history|)
    && ClocksSound(to) && NoticesWrites(t, to)
    && (t.stamp != 0 ==> t.cached.Some? && (t.cached.value < t.zeroed <==> t.late))
    && (t.failedAt.Some? ==> t.nextTry == t.failedAt.value + RETRY_S)
  }

  lemma ReaderMoveKeepsInv(s: State, t: State, r: nat, to: Reader)
    requires Inv(s) && ReaderMoves(s, t, r, to)
    ensures Inv(t)
  {
    hide ClocksSound;
    assert forall q: nat :: ReaderOf(t, q) == if q == r then to else ReaderOf(s, q);
    assert forall w: nat :: WriterOf(t, w) == WriterOf(s, w);
    forall q: nat
      ensures NoticesWrites(t, ReaderOf(t, q))
    {
      assert NoticesWrites(s, ReaderOf(s, q));
      assert HasLock(ReaderOf(s, q)) <==> s.lock == Some(q);
    }
    forall w: nat
      ensures WriterSound(t, w, WriterOf(t, w))
    {
      assert WriterSound(s, w, WriterOf(s, w));
    }
  }

  /** What is known of one reader. */
  lemma ReaderFacts(s: State, r: nat)
    requires Inv(s)
    ensures s.history != [] && s.wall > TTL && s.returned <= s.zeroed <= s.bumped < |s.history|
    ensures HasLock(ReaderOf(s, r)) <==> s.lock == Some(r)
    ensures ClocksSound(ReaderOf(s, r)) && NoticesWrites(s, ReaderOf(s, r))
    ensures s.stamp != 0 ==> s.cached.Some? && (s.cached.value < s.zeroed <==> s.late)
    ensures s.failedAt.Some? ==> s.nextTry == s.failedAt.value + RETRY_S
    ensures s.cached.Some? ==> s.cached.value < |s.history|
  {
  }

  lemma ClockingKeepsInv(s: State, e: Event)
    requires Inv(s) && Enabled(s, e) && (e.ReadClock? || e.OuterCheck?)
    ensures Inv(Next(s, e))
  {
    hide Inv;
    ReaderFacts(s, e.r);
    ReaderMoveKeepsInv(s, Next(s, e), e.r, Next(s, e).readers[e.r]);
  }

  lemma AcquiringKeepsInv(s: State, e: Event)
    requires Inv(s) && Enabled(s, e) && e.Acquire?
    ensures Inv(Next(s, e))
  {
    hide Inv, WriterStep, Due;
    ReaderFacts(s, e.r);
    if s.lock.None? {
      ReaderMoveKeepsInv(s, Next(s, e), e.r, Holding);
    } else {
      ReaderMoveKeepsInv(s, Next(s, e), e.r, Answering(None));
    }
  }

  lemma CheckingKeepsInv(s: State, e: Event)
    requires Inv(s) && Enabled(s, e) && (e.ReadClockAgain? || e.Recheck? || e.Release? || e.Answer?)
    ensures Inv(Next(s, e))
  {
    hide Inv;
    ReaderFacts(s, e.r);
    ReaderMoveKeepsInv(s, Next(s, e), e.r, Next(s, e).readers[e.r]);
  }

  lemma LoadingKeepsInv(s: State, e: Event)
    requires Inv(s) && Enabled(s, e) && (e.RememberVersion? || e.Select? || e.Fail? || e.Publish?)
    ensures Inv(Next(s, e))
  {
    hide Inv;
    ReaderFacts(s, e.r);
    ReaderMoveKeepsInv(s, Next(s, e), e.r, Next(s, e).readers[e.r]);
  }

  lemma StampingKeepsInv(s: State, e: Event)
    requires Inv(s) && Enabled(s, e) && (e.Compare? || e.Store?)
    ensures Inv(Next(s, e))
  {
    hide Inv, WriterStep, Due;
    ReaderFacts(s, e.r);
    ReaderMoveKeepsInv(s, Next(s, e), e.r, Next(s, e).readers[e.r]);
  }

  lemma FinishingKeepsInv(s: State, e: Event)
    requires Inv(s) && Enabled(s, e) && (e.ClearRetry? || e.MarkLoaded?)
    ensures Inv(Next(s, e))
  {
    hide Inv, WriterStep, Due;
    ReaderFacts(s, e.r);
    ReaderMoveKeepsInv(s, Next(s, e), e.r, Next(s, e).readers[e.r]);
  }

  ghost predicate WriterMoves(s: State, t: State, w: nat, to: Writer) {
    && t == ToWriter(s, w, to).(history := t.history, stamp := t.stamp, nextTry := t.nextTry, version := t.version,
                                rowLock := t.rowLock, bumped := t.bumped, returned := t.returned,
                                failedAt := t.failedAt)
    && |s.history| <= |t.history| && s.history == t.history[..|s.history|]
    && t.returned <= t.zeroed <= t.bumped < |t.history| && s.bumped <= t.bumped
    && WriterSound(t, w, to)
    && ((t.version == s.version && t.bumped == s.bumped) || t.version == s.version + 1)
    && t.stamp == s.stamp
    && s.returned <= t.returned && (WriterOf(s, w) == Zeroed(s.zeroed) ==> t.returned == t.zeroed)
    && (t.failedAt.Some? ==> t.failedAt == s.failedAt && t.nextTry == s.nextTry)
  }

  /** The row another writer holds is not the one this step is about. */
  ghost predicate RowsApart(s: State, t: State, w: nat)
    requires s.history != [] && t.history != []
  {
    && (forall key :: key in s.rowLock && s.rowLock[key] != w ==>
          key in t.rowLock && t.rowLock[key] == s.rowLock[key] && Value(Now(t), key) == Value(Now(s), key))
    && (forall key :: key in Now(s) ==> key in Now(t))
  }

  lemma WriterMoveKeepsInv(s: State, t: State, w: nat, to: Writer)
    requires Inv(s) && WriterMoves(s, t, w, to) && RowsApart(s, t, w)
    ensures Inv(t)
  {
    hide ClocksSound;
    assert forall q: nat :: ReaderOf(t, q) == ReaderOf(s, q);
    assert forall v: nat :: WriterOf(t, v) == if v == w then to else WriterOf(s, v);
    forall q: nat
      ensures NoticesWrites(t, ReaderOf(t, q))
    {
      assert NoticesWrites(s, ReaderOf(s, q));
    }
    forall v: nat
      ensures WriterSound(t, v, WriterOf(t, v))
    {
      assert WriterSound(s, v, WriterOf(s, v));
    }
  }

  lemma WriterFacts(s: State, w: nat)
    requires Inv(s)
    ensures s.history != [] && s.returned <= s.zeroed <= s.bumped < |s.history|
    ensures WriterSound(s, w, WriterOf(s, w))
  {
  }

  lemma SetKeepsInv(s: State, e: Event)
    requires Inv(s) && Enabled(s, e) && e.Set?
    ensures Inv(Next(s, e))
  {
    hide Inv;
    WriterFacts(s, e.w);
    WriterMoveKeepsInv(s, Next(s, e), e.w, Next(s, e).writers[e.w]);
  }

  lemma CreateTouchesNoValue(s: State, e: Event)
    requires s.history != [] && Enabled(s, e) && e.Create?
    ensures Next(s, e).history != [] && RowsApart(s, Next(s, e), e.w)
  {
    hide ReaderStep;
  }

  lemma CreateKeepsInv(s: State, e: Event)
    requires Inv(s) && Enabled(s, e) && e.Create?
    ensures Inv(Next(s, e))
  {
    hide Inv, RowsApart, ReaderStep;
    WriterFacts(s, e.w);
    CreateTouchesNoValue(s, e);
    WriterMoveKeepsInv(s, Next(s, e), e.w, Next(s, e).writers[e.w]);
  }

  lemma RowLockingKeepsInv(s: State, e: Event)
    requires Inv(s) && Enabled(s, e) && (e.LockRow? || e.Abort?)
    ensures Inv(Next(s, e))
  {
    hide Inv;
    WriterFacts(s, e.w);
    WriterMoveKeepsInv(s, Next(s, e), e.w, Next(s, e).writers[e.w]);
  }

  lemma UpdateTouchesOneRow(s: State, e: Event)
    requires s.history != [] && Enabled(s, e) && e.Update? && WriterSound(s, e.w, WriterOf(s, e.w))
    ensures Next(s, e).history != [] && RowsApart(s, Next(s, e), e.w)
  {
    hide ReaderStep;
  }

  lemma UpdatingKeepsInv(s: State, e: Event)
    requires Inv(s) && Enabled(s, e) && e.Update?
    ensures Inv(Next(s, e))
  {
    hide Inv, RowsApart, ReaderStep;
    WriterFacts(s, e.w);
    UpdateTouchesOneRow(s, e);
    WriterMoveKeepsInv(s, Next(s, e), e.w, Next(s, e).writers[e.w]);
  }

  lemma InvalidatingKeepsInv(s: State, e: Event)
    requires Inv(s) && Enabled(s, e) && (e.Bump? || e.Return?)
    ensures Inv(Next(s, e))
  {
    hide Inv;
    WriterFacts(s, e.w);
    WriterMoveKeepsInv(s, Next(s, e), e.w, Next(s, e).writers[e.w]);
  }

  lemma ZeroKeepsReader(s: State, t: State, w: nat, q: nat)
    requires Inv(s) && Enabled(s, Zero(w)) && t == Next(s, Zero(w))
    ensures NoticesWrites(t, ReaderOf(t, q)) && ClocksSound(ReaderOf(t, q))
    ensures HasLock(ReaderOf(t, q)) <==> t.lock == Some(q)
  {
    assert NoticesWrites(s, ReaderOf(s, q)) && ClocksSound(ReaderOf(s, q));
    assert HasLock(ReaderOf(s, q)) <==> s.lock == Some(q);
    assert s.history != [];
    hide Inv, ReaderStep;
    ZeroMarksOnlyTheHolder(s, t, w);
    ComparedClocks(ReaderOf(s, q), ReaderOf(t, q));
    hide Next;
  }

  lemma ZeroLeavesTheRest(s: State, t: State, w: nat)
    requires s.history != [] && Enabled(s, Zero(w)) && t == Next(s, Zero(w))
    ensures t.history == s.history && t.rowLock == s.rowLock && t.bumped == s.bumped && t.nextTry == s.nextTry
    ensures t.failedAt == s.failedAt && t.wall == s.wall
    ensures t.zeroer == if WriterOf(s, w).at > s.zeroed then w else s.zeroer
    ensures forall v: nat :: WriterOf(t, v) == if v == w then Zeroed(WriterOf(s, w).at) else WriterOf(s, v)
  {
  }

  /** The stamp is cleared, and a reload between its compare and its store remembers that it is late. */
  lemma ZeroKeepsInv(s: State, w: nat)
    requires Inv(s) && Enabled(s, Zero(w))
    ensures Inv(Next(s, Zero(w)))
  {
    hide ClocksSound, NoticesWrites, HasLock, RowsApart, ReaderStep, MarkLate;
    var at := WriterOf(s, w).at;
    assert WriterSound(s, w, WriterOf(s, w));
    var t := Next(s, Zero(w));
    ZeroMarksOnlyTheHolder(s, t, w);
    ZeroLeavesTheRest(s, t, w);
    forall q: nat
      ensures NoticesWrites(t, ReaderOf(t, q))
      ensures ClocksSound(ReaderOf(t, q))
      ensures HasLock(ReaderOf(t, q)) <==> t.lock == Some(q)
    {
      ZeroKeepsReader(s, t, w, q);
    }
    hide Next;
    hide ReaderOf;
    forall v: nat
      ensures WriterSound(t, v, WriterOf(t, v))
    {
      assert WriterSound(s, v, WriterOf(s, v));
    }
  }

  predicate SameButLate(p: Reader, q: Reader) {
    q == p || (p.Compared? && q.Compared?)
  }

  lemma ComparedClocks(p: Reader, q: Reader)
    requires ClocksSound(p) && SameButLate(p, q)
    ensures ClocksSound(q)
  {
  }

  lemma ZeroMarksOnlyTheHolder(s: State, t: State, w: nat)
    requires s.history != [] && Enabled(s, Zero(w)) && t == Next(s, Zero(w))
    ensures
      var at := WriterOf(s, w).at;
      && t.cached == s.cached && t.lock == s.lock && t.stamp == 0
      && t.zeroed == Max(s.zeroed, at) && t.returned == s.returned
      && forall q: nat ::
           if s.lock == Some(q) && ReaderOf(s, q).Compared? && s.cached.Some? && s.cached.value < at
           then ReaderOf(t, q) == ReaderOf(s, q).(late := true)
           else ReaderOf(t, q) == ReaderOf(s, q)
  {
  }

  lemma StepKeepsInv(s: State, e: Event)
    requires Inv(s) && Enabled(s, e)
    ensures Inv(Next(s, e))
  {
    hide Inv, Enabled;
    match e
    case Tick(_, _) => TickKeepsInv(s, e);
    case Set(_, _, _) => SetKeepsInv(s, e);
    case Create(_, _) => CreateKeepsInv(s, e);
    case LockRow(_) => RowLockingKeepsInv(s, e);
    case Abort(_) => RowLockingKeepsInv(s, e);
    case Update(_, _) => UpdatingKeepsInv(s, e);
    case Bump(_) => InvalidatingKeepsInv(s, e);
    case Zero(w) => ZeroKeepsInv(s, w);
    case Return(_) => InvalidatingKeepsInv(s, e);
    case _ =>
      if e.ReadClock? || e.OuterCheck? {
        ClockingKeepsInv(s, e);
      } else if e.Acquire? {
        AcquiringKeepsInv(s, e);
      } else if e.ReadClockAgain? || e.Recheck? || e.Release? || e.Answer? {
        CheckingKeepsInv(s, e);
      } else if e.RememberVersion? || e.Select? || e.Fail? || e.Publish? {
        LoadingKeepsInv(s, e);
      } else if e.Compare? || e.Store? {
        StampingKeepsInv(s, e);
      } else {
        FinishingKeepsInv(s, e);
      }
  }

  lemma TickKeepsInv(s: State, e: Event)
    requires Inv(s) && Enabled(s, e) && e.Tick?
    ensures Inv(Next(s, e))
  {
    var t := Next(s, e);
    assert forall r: nat :: ReaderOf(t, r) == ReaderOf(s, r);
    assert forall w: nat :: WriterOf(t, w) == WriterOf(s, w);
  }

  // ── Runs ────────────────────────────────────────────────────────────────────────────────────────────────────

  /** The state after the events, when each was possible in its turn. */
  function After(s: State, es: seq<Event>): Option<State> {
    if es == [] then Some(s)
    else
      var t :- After(s, es[..|es| - 1]);
      var e := es[|es| - 1];
      if t.history != [] && Enabled(t, e) then Some(Next(t, e)) else None
  }

  lemma Snoc(s: State, es: seq<Event>, t: State, e: Event)
    requires After(s, es) == Some(t) && t.history != [] && Enabled(t, e)
    ensures After(s, es + [e]) == Some(Next(t, e))
  {
    hide Enabled, Next;
    assert (es + [e])[..|es|] == es;
  }

  lemma {:induction false} EveryRunKeepsInv(s: State, es: seq<Event>)
    requires Inv(s) && After(s, es).Some?
    ensures Inv(After(s, es).value)
  {
    hide Inv, Enabled, Next;
    if es != [] {
      EveryRunKeepsInv(s, es[..|es| - 1]);
      StepKeepsInv(After(s, es[..|es| - 1]).value, es[|es| - 1]);
    }
  }

  /** Exactly: behind a fresh stamp the image is older than a write that has cleared the stamp if and only if that
      clearing fell between the compare and the store of the reload that set it.  No write that has returned is
      hidden otherwise. */
  lemma FreshAndOlderIff(table: Table, wall: int, mono: nat, es: seq<Event>)
    requires wall > TTL && After(Initial(table, wall, mono), es).Some?
    ensures
      var s := After(Initial(table, wall, mono), es).value;
      s.stamp != 0 ==>
        && s.cached.Some? && s.cached.value < |s.history|
        && (s.cached.value < s.zeroed <==> s.late)
        && (s.cached.value < s.returned ==> s.late)
        && ((forall w: nat :: !WriterOf(s, w).Zeroed?) ==> (s.cached.value < s.returned <==> s.late))
  {
    hide Enabled, Next, Due;
    StartsSound(table, wall, mono);
    EveryRunKeepsInv(Initial(table, wall, mono), es);
  }

  lemma FreshCheckSetsTheFloor(s: State, r: nat)
    requires Inv(s) && Enabled(s, OuterCheck(r)) && ReaderOf(s, r).now - s.stamp <= TTL
    ensures ReaderOf(Next(s, OuterCheck(r)), r) == Answering(if s.late then None else Some(s.returned))
  {
    hide Inv;
  }

  lemma OthersLeaveAnAnswer(s: State, e: Event, r: nat)
    requires s.history != [] && Enabled(s, e) && !IsOf(e, r) && ReaderOf(s, r).Answering?
    ensures ReaderOf(Next(s, e), r) == ReaderOf(s, r)
  {
    if !OfAReader(e) {
      hide Next;
      SameReaders(s, e);
    }
  }

  lemma {:induction false} OthersNeverTouchAnAnswer(s: State, es: seq<Event>, r: nat)
    requires After(s, es).Some? && ReaderOf(s, r).Answering?
    requires forall i :: 0 <= i < |es| ==> !IsOf(es[i], r)
    ensures ReaderOf(After(s, es).value, r) == ReaderOf(s, r)
  {
    hide Enabled, Next, IsOf;
    if es != [] {
      var k := |es| - 1;
      OthersNeverTouchAnAnswer(s, es[..k], r);
      OthersLeaveAnAnswer(After(s, es[..k]).value, es[k], r);
    }
  }

  lemma TheFloorLasts(checked: State, r: nat, since: seq<Event>, s: State)
    requires Inv(checked) && checked.history != [] && Enabled(checked, OuterCheck(r))
    requires After(Next(checked, OuterCheck(r)), since) == Some(s) && Inv(s)
    requires forall i :: 0 <= i < |since| ==> !IsOf(since[i], r)
    requires ReaderOf(checked, r).now - checked.stamp <= TTL && !checked.late
    ensures ReaderOf(s, r).Answering? && s.cached.Some? && checked.returned <= s.cached.value < |s.history|
  {
    hide Inv, Enabled, Next, After, IsOf, Due, HasLock, ClocksSound;
    FreshCheckSetsTheFloor(checked, r);
    OthersNeverTouchAnAnswer(Next(checked, OuterCheck(r)), since, r);
    ReaderFacts(s, r);
  }

  /** In every run: a reader whose first check finds a fresh cache, not stored late, answers, whatever others do
      before it reads the image, from one no older than any write that had returned at that check. */
  lemma FreshReadsAnswerWithReturnedWrites(table: Table, wall: int, mono: nat, before: seq<Event>, r: nat,
                                           since: seq<Event>)
    requires wall > TTL && After(Initial(table, wall, mono), before + [OuterCheck(r)] + since).Some?
    requires forall i :: 0 <= i < |since| ==> !IsOf(since[i], r)
    ensures
      After(Initial(table, wall, mono), before).Some? &&
      var checked := After(Initial(table, wall, mono), before).value;
      var s := After(Initial(table, wall, mono), before + [OuterCheck(r)] + since).value;
      && ReaderOf(checked, r).Outer?
      && (ReaderOf(checked, r).now - checked.stamp <= TTL && !checked.late ==>
            ReaderOf(s, r).Answering? && s.cached.Some? && checked.returned <= s.cached.value < |s.history|)
  {
    hide Enabled, Next, Due, Inv, IsOf, ReaderOf, After, Initial;
    var start := Initial(table, wall, mono);
    AfterOneThenTheOther(start, before + [OuterCheck(r)], since);
    AfterOneThenTheOther(start, before, [OuterCheck(r)]);
    StartsSound(table, wall, mono);
    EveryRunKeepsInv(start, before);
    EveryRunKeepsInv(start, before + [OuterCheck(r)] + since);
    var checked := After(start, before).value;
    OneStep(checked, OuterCheck(r));
    CheckedIsOuter(checked, r);
    if ReaderOf(checked, r).now - checked.stamp <= TTL && !checked.late {
      TheFloorLasts(checked, r, since, After(start, before + [OuterCheck(r)] + since).value);
    }
  }

  lemma CheckedIsOuter(s: State, r: nat)
    requires Enabled(s, OuterCheck(r))
    ensures ReaderOf(s, r).Outer?
  {
  }

  lemma OneReloadAtATime(table: Table, wall: int, mono: nat, es: seq<Event>, q: nat, r: nat)
    requires wall > TTL && After(Initial(table, wall, mono), es).Some?
    requires Attempt(ReaderOf(After(Initial(table, wall, mono), es).value, q))
    requires Attempt(ReaderOf(After(Initial(table, wall, mono), es).value, r))
    ensures q == r
  {
    hide Enabled, Next, Due;
    StartsSound(table, wall, mono);
    EveryRunKeepsInv(Initial(table, wall, mono), es);
    var s := After(Initial(table, wall, mono), es).value;
    assert HasLock(ReaderOf(s, q)) && HasLock(ReaderOf(s, r));
  }

  // ── The cooldown ────────────────────────────────────────────────────────────────────────────────────────────

  ghost predicate Cooling(s: State, failed: int) {
    s.failedAt == Some(failed) && forall r: nat :: !Attempt(ReaderOf(s, r))
  }

  lemma FailureStartsCooling(s: State, r: nat)
    requires Inv(s) && Enabled(s, Fail(r))
    ensures Cooling(Next(s, Fail(r)), s.mono)
  {
    var t := Next(s, Fail(r));
    assert HasLock(ReaderOf(s, r));
    forall q: nat
      ensures !Attempt(ReaderOf(t, q))
    {
      assert q != r ==> ReaderOf(t, q) == ReaderOf(s, q) && !HasLock(ReaderOf(s, q));
    }
  }

  lemma CoolingStep(s: State, e: Event, failed: int)
    requires s.history != [] && s.nextTry == failed + RETRY_S
    requires Cooling(s, failed) && Enabled(s, e) && !e.Return? && s.mono < failed + RETRY_S
    ensures Cooling(Next(s, e), failed)
  {
    var t := Next(s, e);
    if OfAReader(e) {
      assert !Attempt(ReaderOf(s, e.r));
      forall q: nat
        ensures !Attempt(ReaderOf(t, q))
      {
        assert !Attempt(ReaderOf(s, q));
      }
    } else {
      hide ReaderStep, Next;
      SameReaders(s, e);
      forall q: nat
        ensures !Attempt(ReaderOf(t, q))
      {
        assert !Attempt(ReaderOf(s, q));
      }
    }
  }

  predicate IsOf(e: Event, r: nat) {
    OfAReader(e) && e.r == r
  }

  lemma WritersLeaveReaders(s: State, e: Event, p: Writer)
    requires s.history != [] && Enabled(s, e) && !OfAReader(e) && !e.Tick? && p == WriterOf(s, e.w)
    ensures forall q: nat :: SameButLate(ReaderOf(s, q), ReaderOf(WriterStep(s, e, p), q))
    ensures WriterStep(s, e, p).mono == s.mono
    ensures !e.Return? ==> WriterStep(s, e, p).failedAt == s.failedAt
  {
    hide Value;
  }

  lemma SameReaders(s: State, e: Event)
    requires s.history != [] && Enabled(s, e) && !OfAReader(e)
    ensures forall q: nat :: SameButLate(ReaderOf(s, q), ReaderOf(Next(s, e), q))
    ensures !e.Return? ==> Next(s, e).failedAt == s.failedAt
  {
    hide WriterStep, ReaderStep, Enabled, Due, Value;
    if !e.Tick? {
      WritersLeaveReaders(s, e, WriterOf(s, e.w));
    }
  }

  lemma CooledFacts(s: State, failed: int)
    requires Cooling(s, failed)
    ensures s.failedAt == Some(failed)
  {
  }

  lemma ReadersLeaveTheClock(s: State, e: Event, p: Reader)
    requires s.history != [] && Enabled(s, e) && OfAReader(e) && p == ReaderOf(s, e.r)
    ensures ReaderStep(s, e, p).mono == s.mono
  {
    hide Due;
  }

  lemma ClockNeverGoesBack(s: State, e: Event)
    requires s.history != [] && Enabled(s, e)
    ensures s.mono <= Next(s, e).mono
  {
    hide WriterStep, ReaderStep;
    if OfAReader(e) {
      ReadersLeaveTheClock(s, e, ReaderOf(s, e.r));
    } else if !e.Tick? {
      WritersLeaveReaders(s, e, WriterOf(s, e.w));
    }
  }

  /** After a reload fails, no other is started for RETRY_S counted from its end, unless an invalidation is
      completed. */
  lemma {:induction false} NoReloadDuringCooldown(s: State, es: seq<Event>, failed: int)
    requires Inv(s) && Cooling(s, failed) && After(s, es).Some?
    requires forall i :: 0 <= i < |es| ==> !es[i].Return?
    requires After(s, es).value.mono < failed + RETRY_S
    ensures Cooling(After(s, es).value, failed)
  {
    hide Inv, Enabled, Next, Cooling;
    if es != [] {
      var k := |es| - 1;
      var t := After(s, es[..k]).value;
      ClockNeverGoesBack(t, es[k]);
      EveryRunKeepsInv(s, es[..k]);
      NoReloadDuringCooldown(s, es[..k], failed);
      ReaderFacts(t, 0);
      CooledFacts(t, failed);
      CoolingStep(t, es[k], failed);
    }
  }

  lemma {:induction false} AfterOneThenTheOther(s: State, a: seq<Event>, b: seq<Event>)
    requires After(s, a + b).Some?
    ensures After(s, a).Some? && After(After(s, a).value, b) == After(s, a + b)
    decreases |b|
  {
    hide Enabled, Next;
    if b == [] {
      assert a + b == a;
    } else {
      var k := |b| - 1;
      assert (a + b)[..|a + b| - 1] == a + b[..k] && (a + b)[|a + b| - 1] == b[k];
      AfterOneThenTheOther(s, a, b[..k]);
    }
  }

  /** In every run: between a failed reload and RETRY_S after its end nobody is attempting one, unless an
      invalidation completes. */
  lemma NoReloadWithinTheCooldown(table: Table, wall: int, mono: nat, before: seq<Event>, r: nat, since: seq<Event>)
    requires wall > TTL && After(Initial(table, wall, mono), before + [Fail(r)] + since).Some?
    requires forall i :: 0 <= i < |since| ==> !since[i].Return?
    ensures
      After(Initial(table, wall, mono), before).Some? &&
      var failed := After(Initial(table, wall, mono), before).value.mono;
      var s := After(Initial(table, wall, mono), before + [Fail(r)] + since).value;
      s.mono < failed + RETRY_S ==> forall q: nat :: !Attempt(ReaderOf(s, q))
  {
    hide Enabled, Next, Inv, Cooling;
    var start := Initial(table, wall, mono);
    AfterOneThenTheOther(start, before + [Fail(r)], since);
    AfterOneThenTheOther(start, before, [Fail(r)]);
    var a := After(start, before).value;
    OneStep(a, Fail(r));
    StartsSound(table, wall, mono);
    EveryRunKeepsInv(start, before);
    FailureStartsCooling(a, r);
    StepKeepsInv(a, Fail(r));
    var s := After(start, before + [Fail(r)] + since).value;
    if s.mono < a.mono + RETRY_S {
      NoReloadDuringCooldown(Next(a, Fail(r)), since, a.mono);
      CooledNobody(s, a.mono);
    }
  }

  lemma OneStep(s: State, e: Event)
    requires After(s, [e]).Some?
    ensures s.history != [] && Enabled(s, e) && After(s, [e]) == Some(Next(s, e))
  {
    assert [e][..0] == [];
  }

  lemma CooledNobody(s: State, failed: int)
    requires Cooling(s, failed)
    ensures forall q: nat :: !Attempt(ReaderOf(s, q))
  {
  }

  // ── Row-locked updates ──────────────────────────────────────────────────────────────────────────────────────

  /** The last commit holds `t` with `key` set to `value`, and every earlier one is as it was. */
  ghost predicate Commits(s: State, t: State, key: string, value: string) {
    && s.history != [] && |t.history| == |s.history| + 1 && t.history[..|s.history|] == s.history
    && var was, now := s.history[|s.history| - 1], t.history[|s.history|];
       && key in now && now[key] == value
       && forall k :: k != key ==> (k in now <==> k in was) && (k in was ==> now[k] == was[k])
  }

  /** A set commits its value, and nothing else. */
  lemma SetCommitsTheValue(s: State, w: nat, key: string, value: string)
    requires s.history != [] && Enabled(s, Set(w, key, value))
    ensures Commits(s, Next(s, Set(w, key, value)), key, value)
  {
    hide ReaderStep;
  }

  /** An update is applied to the value committed at that moment, whoever wrote it, and commits what it makes of that,
      or nothing when it leaves it. */
  lemma UpdateSeesTheCommittedValue(s: State, w: nat, mutated: Option<string>)
    requires Inv(s) && Enabled(s, Update(w, mutated))
    ensures
      var (key, current) := (WriterOf(s, w).key, WriterOf(s, w).current);
      var t := Next(s, Update(w, mutated));
      && key in s.history[|s.history| - 1] && current == s.history[|s.history| - 1][key]
      && if mutated.Some? && mutated.value != current then Commits(s, t, key, mutated.value) else t.history == s.history
  {
    WriterFacts(s, w);
    hide Inv, ReaderStep;
  }
}
