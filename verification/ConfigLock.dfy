/**
 Writers of jen.config running at once: Jen's threads, which take the process lock and then the file lock, and an
 installer, which takes the file lock alone.  The file lock is one inode for all of them.  Each system call is one step,
 a write may take many, and either process may be killed between any two steps.
 */
module ConfigLock {
  import opened Outcomes
  import opened IniFile

  /** What the name jen.config or a temporary name holds. */
  datatype Content = Whole(parser: Parser) | Torn

  /** A temporary file: what is being written into it, and how much of it has arrived. */
  datatype Temp = Temp(parser: Parser, written: nat, size: nat)

  /** The file the globals were last derived from, when they were derived from one. */
  datatype Memory = Of(parser: Parser) | Mixed | Gone

  datatype Phase = Waiting | Locked | HasRead(seen: Parser) | Writing | Replaced | Reloaded(raised: bool)

  datatype Actor = Idle | Busy(jen: bool, edit: Parser -> Parser, phase: Phase)

  datatype State = State(
    file: Content,
    log: seq<Parser -> Parser>,   // the edits committed so far, in commit order
    temps: map<nat, Temp>,
    flock: Option<nat>,
    threadLock: Option<nat>,
    memory: Memory,
    actors: map<nat, Actor>)

  datatype Event =
    | Begin(a: nat, jen: bool, edit: Parser -> Parser) | TakeFileLock(a: nat) | GiveUp(a: nat)
    | ReadFile(a: nat) | TurnDown(a: nat)
    | OpenTemp(a: nat, size: nat) | WriteSome(a: nat, bytes: nat) | WriteFails(a: nat) | Replace(a: nat)
    | Reload(a: nat, raised: bool) | Release(a: nat) | KillJen | RestartJen | KillInstaller(a: nat)

  function ActorOf(s: State, a: nat): Actor {
    if a in s.actors then s.actors[a] else Idle
  }

  predicate InPhase(s: State, a: nat, p: Phase) {
    ActorOf(s, a).Busy? && ActorOf(s, a).phase == p
  }

  function Move(s: State, a: nat, p: Phase): State
    requires ActorOf(s, a).Busy?
  {
    s.(actors := s.actors[a := ActorOf(s, a).(phase := p)])
  }

  /** Every lock the actor holds is dropped, as closing its descriptors does. */
  function Leave(s: State, a: nat): State {
    s.(actors := s.actors[a := Idle],
       flock := if s.flock == Some(a) then None else s.flock,
       threadLock := if s.threadLock == Some(a) then None else s.threadLock)
  }

  function WithoutJen(actors: map<nat, Actor>): map<nat, Actor> {
    map a | a in actors && !(actors[a].Busy? && actors[a].jen) :: actors[a]
  }

  predicate Enabled(s: State, e: Event) {
    match e
    case Begin(a, jen, _) => ActorOf(s, a).Idle? && (jen ==> s.threadLock.None? && !s.memory.Gone?)
    case TakeFileLock(a) => InPhase(s, a, Waiting) && s.flock.None?
    case GiveUp(a) => InPhase(s, a, Waiting)
    case ReadFile(a) => InPhase(s, a, Locked) && s.file.Whole?
    case TurnDown(a) => ActorOf(s, a).Busy? && ActorOf(s, a).phase.HasRead?
    case OpenTemp(a, _) => ActorOf(s, a).Busy? && ActorOf(s, a).phase.HasRead?
    case WriteSome(a, bytes) => InPhase(s, a, Writing) && a in s.temps && s.temps[a].written + bytes <= s.temps[a].size
    case WriteFails(a) => InPhase(s, a, Writing)
    case Replace(a) => InPhase(s, a, Writing) && a in s.temps && s.temps[a].written == s.temps[a].size
    case Reload(a, _) => InPhase(s, a, Replaced) && ActorOf(s, a).jen && s.file.Whole?
    case Release(a) =>
      ActorOf(s, a).Busy? &&
      if ActorOf(s, a).jen then ActorOf(s, a).phase.Reloaded? else ActorOf(s, a).phase.Replaced?
    case KillJen => true
    case RestartJen => s.memory.Gone? && s.file.Whole?
    case KillInstaller(a) => ActorOf(s, a).Busy? && !ActorOf(s, a).jen
  }

  function Next(s: State, e: Event): State
    requires Enabled(s, e)
  {
    match e
    case Begin(a, jen, edit) =>
      s.(actors := s.actors[a := Busy(jen, edit, Waiting)], threadLock := if jen then Some(a) else s.threadLock)
    case TakeFileLock(a) => Move(s, a, Locked).(flock := Some(a))
    case GiveUp(a) => Leave(s, a)
    case ReadFile(a) => Move(s, a, HasRead(s.file.parser))
    case TurnDown(a) => Leave(s, a)
    case OpenTemp(a, size) =>
      var actor := ActorOf(s, a);
      Move(s, a, Writing).(temps := s.temps[a := Temp(actor.edit(actor.phase.seen), 0, size)])
    case WriteSome(a, bytes) => s.(temps := s.temps[a := s.temps[a].(written := s.temps[a].written + bytes)])
    case WriteFails(a) => Leave(s, a).(temps := s.temps - {a})
    case Replace(a) =>
      var t := s.temps[a];
      Move(s, a, Replaced).(file := if t.written == t.size then Whole(t.parser) else Torn, temps := s.temps - {a},
                            log := s.log + [ActorOf(s, a).edit])
    case Reload(a, raised) => Move(s, a, Reloaded(raised)).(memory := if raised then Mixed else Of(s.file.parser))
    case Release(a) => Leave(s, a)
    case KillJen =>
      s.(actors := WithoutJen(s.actors), memory := Gone, threadLock := None,
         flock := if s.flock.Some? && ActorOf(s, s.flock.value).Busy? && ActorOf(s, s.flock.value).jen then None
                  else s.flock)
    case RestartJen => s.(memory := Of(s.file.parser))
    case KillInstaller(a) => Leave(s, a)
  }

  /** The edits applied one after the other. */
  function Fold(p: Parser, log: seq<Parser -> Parser>): Parser {
    if log == [] then p else log[|log| - 1](Fold(p, log[..|log| - 1]))
  }

  // ── The invariant ───────────────────────────────────────────────────────────────────────────────────────────

  predicate HoldsFile(actor: Actor) {
    actor.Busy? && !actor.phase.Waiting?
  }

  /** What the holder of the file lock has read is what is on disk, and what it has written is its edit of that. */
  ghost predicate UpToDate(s: State, a: nat, actor: Actor) {
    actor.Busy? ==>
      match actor.phase
      case HasRead(seen) => s.file == Whole(seen)
      case Writing => a in s.temps && s.file.Whole? && s.temps[a].parser == actor.edit(s.file.parser)
      case Reloaded(raised) => actor.jen && s.file.Whole? && (!raised ==> s.memory == Of(s.file.parser))
      case _ => true
  }

  ghost predicate Inv(s: State, start: Parser) {
    && s.file == Whole(Fold(start, s.log))
    && (forall a: nat :: HoldsFile(ActorOf(s, a)) <==> s.flock == Some(a))
    && (forall a: nat :: ActorOf(s, a).Busy? && ActorOf(s, a).jen <==> s.threadLock == Some(a))
    && (forall a: nat :: UpToDate(s, a, ActorOf(s, a)))
  }

  function Initial(start: Parser): State {
    State(Whole(start), [], map[], None, None, Of(start), map[])
  }

  lemma FoldOneMore(start: Parser, log: seq<Parser -> Parser>, edit: Parser -> Parser)
    ensures Fold(start, log + [edit]) == edit(Fold(start, log))
  {
    assert (log + [edit])[..|log|] == log;
  }

  lemma StartsSound(start: Parser)
    ensures Inv(Initial(start), start)
  {
  }

  lemma LockingKeepsInv(s: State, e: Event, start: Parser)
    requires Inv(s, start) && Enabled(s, e)
    requires e.Begin? || e.TakeFileLock? || e.GiveUp? || e.ReadFile? || e.TurnDown? || e.Release? || e.KillInstaller?
    ensures Inv(Next(s, e), start)
  {
    hide Fold;
    var t := Next(s, e);
    assert UpToDate(s, e.a, ActorOf(s, e.a));
    assert forall b: nat :: b != e.a ==> ActorOf(t, b) == ActorOf(s, b);
  }

  lemma WritingKeepsInv(s: State, e: Event, start: Parser)
    requires Inv(s, start) && Enabled(s, e) && (e.OpenTemp? || e.WriteSome? || e.WriteFails? || e.Replace? || e.Reload?)
    ensures Inv(Next(s, e), start)
  {
    hide Fold;
    var t := Next(s, e);
    assert UpToDate(s, e.a, ActorOf(s, e.a));
    assert forall b: nat :: b != e.a ==> ActorOf(t, b) == ActorOf(s, b);
    if e.Replace? {
      FoldOneMore(start, s.log, ActorOf(s, e.a).edit);
    }
  }

  lemma KillingKeepsInv(s: State, e: Event, start: Parser)
    requires Inv(s, start) && Enabled(s, e) && (e.KillJen? || e.RestartJen?)
    ensures Inv(Next(s, e), start)
  {
    hide Fold;
    assert forall b: nat :: ActorOf(Next(s, e), b) == ActorOf(s, b) || ActorOf(Next(s, e), b).Idle?;
  }

  lemma StepKeepsInv(s: State, e: Event, start: Parser)
    requires Inv(s, start) && Enabled(s, e)
    ensures Inv(Next(s, e), start)
  {
    if e.KillJen? || e.RestartJen? {
      hide Inv, Next, Enabled;
      KillingKeepsInv(s, e, start);
    } else if e.OpenTemp? || e.WriteSome? || e.WriteFails? || e.Replace? || e.Reload? {
      hide Inv, Next, Enabled;
      WritingKeepsInv(s, e, start);
    } else {
      hide Inv, Next, Enabled;
      LockingKeepsInv(s, e, start);
    }
  }

  // ── Runs ────────────────────────────────────────────────────────────────────────────────────────────────────

  function After(s: State, es: seq<Event>): Option<State> {
    if es == [] then Some(s)
    else
      var t :- After(s, es[..|es| - 1]);
      if Enabled(t, es[|es| - 1]) then Some(Next(t, es[|es| - 1])) else None
  }

  lemma {:induction false} EveryRunKeepsInv(start: Parser, es: seq<Event>)
    requires After(Initial(start), es).Some?
    ensures Inv(After(Initial(start), es).value, start)
  {
    hide Inv, Enabled, Next;
    if es == [] {
      StartsSound(start);
    } else {
      EveryRunKeepsInv(start, es[..|es| - 1]);
      StepKeepsInv(After(Initial(start), es[..|es| - 1]).value, es[|es| - 1], start);
    }
  }

  /** No update is lost: whatever interleaved and whoever was killed, the file is complete and is the committed edits
      applied in the order they were committed. */
  lemma NoLostUpdate(start: Parser, es: seq<Event>)
    requires After(Initial(start), es).Some?
    ensures
      var s := After(Initial(start), es).value;
      s.file == Whole(Fold(start, s.log))
  {
    hide Enabled, Next, Fold;
    EveryRunKeepsInv(start, es);
  }

  /** The edits of a run in commit order: one for every replace, and nothing else adds or takes away. */
  function Commits(s: State, es: seq<Event>): seq<Parser -> Parser>
    requires After(s, es).Some?
  {
    if es == [] then []
    else
      var t := After(s, es[..|es| - 1]).value;
      var e := es[|es| - 1];
      Commits(s, es[..|es| - 1]) + if e.Replace? then [ActorOf(t, e.a).edit] else []
  }

  lemma {:induction false} TheLogIsTheCommits(s: State, es: seq<Event>)
    requires After(s, es).Some?
    ensures After(s, es).value.log == s.log + Commits(s, es)
  {
    if es != [] {
      TheLogIsTheCommits(s, es[..|es| - 1]);
    }
  }

  /** When a Jen write ends without its reload raising, the globals are what the file derives. */
  lemma GlobalsFollowTheFile(start: Parser, es: seq<Event>, a: nat)
    requires After(Initial(start), es).Some?
    requires InPhase(After(Initial(start), es).value, a, Reloaded(false))
    ensures
      var s := After(Initial(start), es).value;
      s.file.Whole? && s.memory == Of(s.file.parser)
  {
    hide Enabled, Next, Fold;
    EveryRunKeepsInv(start, es);
    assert UpToDate(After(Initial(start), es).value, a, ActorOf(After(Initial(start), es).value, a));
  }

  /** Between its read and its release nobody else holds the file. */
  lemma OneWriterAtATime(start: Parser, es: seq<Event>, a: nat, b: nat)
    requires After(Initial(start), es).Some?
    requires HoldsFile(ActorOf(After(Initial(start), es).value, a))
    requires HoldsFile(ActorOf(After(Initial(start), es).value, b))
    ensures a == b
  {
    hide Enabled, Next, Fold;
    EveryRunKeepsInv(start, es);
  }

  // ── A write of its own ──────────────────────────────────────────────────────────────────────────────────────

  lemma Then(a: State, es: seq<Event>, s: State, e: Event) returns (longer: seq<Event>, t: State)
    requires After(a, es) == Some(s) && Enabled(s, e)
    ensures longer == es + [e] && After(a, longer) == Some(t) && t == Next(s, e)
  {
    hide Enabled, Next;
    longer, t := es + [e], Next(s, e);
    assert longer[..|longer| - 1] == es;
  }

  /** The system calls of a write that nothing stops: an installer's, or one of Jen's, which also reloads. */
  function WriteSteps(a: nat, jen: bool, edit: Parser -> Parser, size: nat): seq<Event> {
    [Begin(a, jen, edit), TakeFileLock(a), ReadFile(a)] + [OpenTemp(a, size), WriteSome(a, size), Replace(a)] +
    (if jen then [Reload(a, false)] else []) + [Release(a)]
  }

  /** Nobody holds what the writer needs, and a Jen that is to write is running. */
  predicate MayWrite(s: State, a: nat, jen: bool) {
    ActorOf(s, a) == Idle && s.flock == None && (jen ==> s.threadLock == None && s.memory != Gone)
  }

  lemma ToHavingRead(b: State, es: seq<Event>, s: State, a: nat, jen: bool, edit: Parser -> Parser)
    returns (longer: seq<Event>, t: State)
    requires After(b, es) == Some(s) && MayWrite(s, a, jen) && s.file.Whole?
    ensures longer == es + [Begin(a, jen, edit), TakeFileLock(a), ReadFile(a)] && After(b, longer) == Some(t)
    ensures ActorOf(t, a) == Busy(jen, edit, HasRead(s.file.parser)) && t.flock == Some(a)
    ensures t == s.(actors := t.actors, flock := Some(a), threadLock := if jen then Some(a) else s.threadLock)
  {
    hide After;
    longer, t := Then(b, es, s, Begin(a, jen, edit));
    longer, t := Then(b, longer, t, TakeFileLock(a));
    longer, t := Then(b, longer, t, ReadFile(a));
  }

  lemma ToReplaced(b: State, es: seq<Event>, s: State, a: nat, jen: bool, edit: Parser -> Parser, seen: Parser,
                   size: nat)
    returns (longer: seq<Event>, t: State)
    requires After(b, es) == Some(s) && ActorOf(s, a) == Busy(jen, edit, HasRead(seen))
    ensures longer == es + [OpenTemp(a, size), WriteSome(a, size), Replace(a)] && After(b, longer) == Some(t)
    ensures ActorOf(t, a) == Busy(jen, edit, Replaced)
    ensures t == s.(actors := t.actors, file := Whole(edit(seen)), temps := t.temps, log := s.log + [edit])
  {
    hide After;
    longer, t := Then(b, es, s, OpenTemp(a, size));
    longer, t := Then(b, longer, t, WriteSome(a, size));
    longer, t := Then(b, longer, t, Replace(a));
  }

  lemma ToReleased(b: State, es: seq<Event>, s: State, a: nat, jen: bool, edit: Parser -> Parser)
    returns (longer: seq<Event>, t: State)
    requires After(b, es) == Some(s) && ActorOf(s, a) == Busy(jen, edit, Replaced) && s.file.Whole?
    requires s.flock == Some(a) && (s.threadLock == Some(a) <==> jen)
    ensures longer == es + (if jen then [Reload(a, false)] else []) + [Release(a)] && After(b, longer) == Some(t)
    ensures ActorOf(t, a) == Idle && t.file == s.file && t.log == s.log && t.flock == None
    ensures jen ==> t.threadLock == None && t.memory == Of(s.file.parser)
  {
    hide After;
    longer, t := es, s;
    if jen {
      longer, t := Then(b, longer, t, Reload(a, false));
    } else {
      assert es + [] == es;
    }
    longer, t := Then(b, longer, t, Release(a));
  }

  /** From every reachable state in which nobody holds the locks it needs, a write that nothing stops commits its
      edit of what the file held, leaves Jen's globals at it when it is Jen's, and holds nothing afterwards. */
  lemma AWriteOfItsOwnCommits(start: Parser, before: seq<Event>, a: nat, jen: bool, edit: Parser -> Parser, size: nat)
    requires After(Initial(start), before).Some?
    ensures
      var s, es := After(Initial(start), before).value, before + WriteSteps(a, jen, edit, size);
      ActorOf(s, a) == Idle && s.flock == None && (jen ==> s.threadLock == None && s.memory != Gone) ==>
        && s.file.Whole? && After(Initial(start), es).Some?
        && var t := After(Initial(start), es).value;
           && t.file == Whole(edit(s.file.parser)) && t.log == s.log + [edit]
           && ActorOf(t, a) == Idle && t.flock == None
           && (jen ==> t.threadLock == None && t.memory == Of(edit(s.file.parser)))
  {
    var b := Initial(start);
    var s := After(b, before).value;
    NoLostUpdate(start, before);
    EveryRunKeepsInv(start, before);
    if MayWrite(s, a, jen) {
      ThreadLockIsTheirs(s, start, a);
      hide After, Enabled, Next, Fold, Inv, ActorOf;
      var e1, s1 := ToHavingRead(b, before, s, a, jen, edit);
      var e2, s2 := ToReplaced(b, e1, s1, a, jen, edit, s.file.parser, size);
      var e3, s3 := ToReleased(b, e2, s2, a, jen, edit);
      assert e3 == before + WriteSteps(a, jen, edit, size);
    }
  }

  lemma ThreadLockIsTheirs(s: State, start: Parser, a: nat)
    requires Inv(s, start) && ActorOf(s, a) == Idle
    ensures s.threadLock != Some(a)
  {
  }

  /** The wait is over, a rule refuses, a write fails, all is done, or the installer is killed. */
  predicate MayStop(s: State, e: Event) {
    match e
    case GiveUp(a) => ActorOf(s, a).Busy? && ActorOf(s, a).phase.Waiting?
    case TurnDown(a) => ActorOf(s, a).Busy? && ActorOf(s, a).phase.HasRead?
    case WriteFails(a) => ActorOf(s, a).Busy? && ActorOf(s, a).phase.Writing?
    case Release(a) =>
      ActorOf(s, a).Busy? && (ActorOf(s, a).phase.Reloaded? || (ActorOf(s, a).phase.Replaced? && !ActorOf(s, a).jen))
    case KillInstaller(a) => ActorOf(s, a).Busy? && !ActorOf(s, a).jen
    case _ => false
  }

  /** Whoever stops, is turned down or is killed leaves the file and the log as they are and holds nothing: the next
      writer need not wait. */
  lemma WhoeverStopsHoldsNothing(s: State, e: Event, start: Parser)
    requires Inv(s, start) && MayStop(s, e)
    ensures
      Enabled(s, e) &&
      var t := Next(s, e);
      && t.file == s.file && t.log == s.log && t.memory == s.memory
      && ActorOf(t, e.a) == Idle && t.flock != Some(e.a) && t.threadLock != Some(e.a)
      && (t.flock == s.flock || s.flock == Some(e.a)) && (t.threadLock == s.threadLock || s.threadLock == Some(e.a))
  {
    hide Fold;
    assert UpToDate(s, e.a, ActorOf(s, e.a));
  }

  /** A killed Jen holds nothing either, and the one that is started next reads what is on disk. */
  lemma AKilledJenHoldsNothing(s: State, start: Parser)
    requires Inv(s, start)
    ensures
      var t := Next(s, KillJen);
      && t.file == s.file && t.log == s.log && t.threadLock == None && t.memory == Gone
      && (forall a: nat :: ActorOf(t, a) == if ActorOf(s, a).Busy? && ActorOf(s, a).jen then Idle else ActorOf(s, a))
      && (forall a: nat :: t.flock == Some(a) <==> s.flock == Some(a) && ActorOf(t, a) != Idle)
      && Enabled(t, RestartJen) && Next(t, RestartJen) == t.(memory := Of(Fold(start, s.log)))
  {
  }
}
