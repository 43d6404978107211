/**
 The runner: every unapplied migration in registry order, each recorded in the transaction that finishes it.  Whatever
 crashes interrupt whatever starts, the committed state keeps one end state, and a start that completes is in it.
 */
module MigrationRunner {
  import opened Outcomes
  import opened Schema
  import opened Migrations
  import opened Promotions
  import opened UserReferences
  import DeviceMigrations
  import UserMigrations
  import ProblemsMigrations

  ghost function Recorded(s: State, v: nat): State {
    s.(applied := s.applied + {v})
  }

  /** What an uninterrupted run of `vs` makes of `s`. */
  ghost function Upgrade(s: State, vs: seq<nat>): (r: State)
    requires AllTables(s)
    ensures AllTables(r)
    ensures forall v :: v in vs || v in s.applied ==> v in r.applied
    decreases |vs|
  {
    if vs == [] then s
    else Upgrade(if vs[0] in s.applied then s else Recorded(Target(vs[0], s), vs[0]), vs[1..])
  }

  /** `d` has everything before position `i` of the registry and still ends where `s` does. */
  ghost predicate Level(i: nat, s: State, d: State)
    requires AllTables(s)
  {
    && i <= |REGISTRY| && Sound(d)
    && (forall j :: 0 <= j < i ==> REGISTRY[j] in d.applied)
    && Upgrade(d, REGISTRY[i..]) == Upgrade(s, REGISTRY)
  }

  /** No version of the registry is recorded before the ones in front of it. */
  predicate InPrefix(applied: set<nat>) {
    forall i, j :: 0 <= i < j < |REGISTRY| && REGISTRY[j] in applied ==> REGISTRY[i] in applied
  }

  lemma PrefixGrows(i: nat, applied: set<nat>)
    requires i < |REGISTRY| && InPrefix(applied) && forall j :: 0 <= j < i ==> REGISTRY[j] in applied
    ensures InPrefix(applied + {REGISTRY[i]})
  {
    NoVersionTwice(i);
  }

  lemma LevelMeans(i: nat, s: State, d: State)
    requires AllTables(s) && Level(i, s, d)
    ensures forall j :: 0 <= j < i ==> REGISTRY[j] in d.applied
  {
  }

  lemma {:induction false} RestartsFromTheBeginning(i: nat, s: State, d: State)
    requires AllTables(s) && Level(i, s, d)
    ensures Level(0, s, d)
    decreases i
  {
    hide Sound, Target;
    if i > 0 {
      assert REGISTRY[i - 1..][0] == REGISTRY[i - 1] && REGISTRY[i - 1..][1..] == REGISTRY[i..];
      assert Level(i - 1, s, d);
      RestartsFromTheBeginning(i - 1, s, d);
    }
  }

  lemma CrashKeepsLevel(i: nat, s: State, w: State, d: State)
    requires AllTables(s) && Level(i, s, w) && i < |REGISTRY| && REGISTRY[i] !in w.applied
    requires OnTheWay(REGISTRY[i], w, d)
    ensures Level(i, s, d)
  {
    hide Sound, Target;
    assert REGISTRY[i..][0] == REGISTRY[i];
  }

  lemma RecordingRaisesLevel(i: nat, s: State, w: State, x: State)
    requires AllTables(s) && Level(i, s, w) && i < |REGISTRY| && REGISTRY[i] !in w.applied
    requires x == Target(REGISTRY[i], w) && Sound(x)
    ensures Level(i + 1, s, Recorded(x, REGISTRY[i]))
  {
    hide Sound, Target;
    RecordingIsSound(REGISTRY[i], w, x);
    assert REGISTRY[i..][0] == REGISTRY[i] && REGISTRY[i..][1..] == REGISTRY[i + 1..];
  }

  lemma RecordingIsSound(v: nat, w: State, x: State)
    requires AllTables(w) && x == Target(v, w) && Sound(x)
    ensures Sound(Recorded(x, v))
  {
  }

  method ApplyOne(v: nat, db: Database) returns (r: Outcome)
    requires v in REGISTRY && db.work == db.durable && Sound(db.work)
    requires v == 36 ==> 33 in db.work.applied
    modifies db
    ensures Finished(v, old(db.work), r, db.durable, db.work)
    ensures v == 6 ==> UserMigrations.PromotedAtMostOnce(old(db.work), db.durable)
    ensures v == 23 ==> RefsKept(old(db.work), db.durable)
  {
    match v
    case 3 => r := DeviceMigrations.M003DevicesManufacturer(db);
    case 4 => r := DeviceMigrations.M004DevicesOverrides(db);
    case 6 => r := UserMigrations.M006SuperadminRole(db);
    case 22 => r := UserMigrations.M022UsersOidcColumns(db);
    case 23 => r := UserMigrations.M023UserForeignKeys(db);
    case 24 => r := DeviceMigrations.M024WebauthnTransportsAaguid(db);
    case 33 => r := ProblemsMigrations.M033ClientProblemsScopeKey(db);
    case _ => r := ProblemsMigrations.M036ClientProblemsGeneration(db);
  }

  /** One registry entry: the migration, and its version recorded in the same commit. */
  method RunNext(i: nat, db: Database, ghost s: State) returns (r: Outcome)
    requires i < |REGISTRY| && db.work == db.durable && AllTables(s) && Level(i, s, db.durable)
    requires REGISTRY[i] !in db.durable.applied
    modifies db
    ensures !r.EngineError?
    ensures r.Crashed? ==> db.work == db.durable && Level(0, s, db.durable)
    ensures r.Done? ==> db.work == db.durable && Level(i + 1, s, db.durable)
    ensures r.Done? ==> db.durable.applied == old(db.durable).applied + {REGISTRY[i]}
    ensures r.Crashed? ==>
      db.durable.applied == old(db.durable).applied || db.durable.applied == old(db.durable).applied + {REGISTRY[i]}
    ensures AllTables(old(db.durable)) && AllTables(db.durable) && PromotionKept(old(db.durable), db.durable)
    ensures RefsKept(old(db.durable), db.durable)
  {
    hide Sound, Target, Upgrade, PromotionKept, UserMigrations.PromotedAtMostOnce, RefsKept;
    ghost var w := db.work;
    assert REGISTRY[i] == 36 ==> REGISTRY[i - 1] == 33;
    r := ApplyOne(REGISTRY[i], db);
    if REGISTRY[i] == 6 {
      SixKeepsThePromotion(w, db.durable);
    } else {
      OthersKeepThePromotion(REGISTRY[i], w, db.durable);
    }
    if REGISTRY[i] != 23 {
      OthersKeepReferences(REGISTRY[i], w, db.durable);
    }
    CrashKeepsLevel(i, s, w, db.durable);
    RestartsFromTheBeginning(i, s, db.durable);
    if r.Crashed? {
      return;
    }
    RecordingRaisesLevel(i, s, w, db.work);
    RestartsFromTheBeginning(i + 1, s, Recorded(db.work, REGISTRY[i]));
    RecordingKeepsThePromotion(REGISTRY[i], w, db.work, Recorded(db.work, REGISTRY[i]));
    RecordingKeepsReferences(REGISTRY[i], w, Recorded(db.work, REGISTRY[i]));
    :- db.RunDml(RecordVersion(REGISTRY[i]));
    :- db.Commit();
    return Done;
  }

  lemma SkippingRaisesLevel(i: nat, s: State, d: State)
    requires AllTables(s) && Level(i, s, d) && i < |REGISTRY| && REGISTRY[i] in d.applied
    ensures Level(i + 1, s, d)
  {
    hide Sound;
    assert REGISTRY[i..][0] == REGISTRY[i] && REGISTRY[i..][1..] == REGISTRY[i + 1..];
  }

  lemma NoVersionTwice(i: nat)
    requires i < |REGISTRY|
    ensures forall j :: i < j < |REGISTRY| ==> REGISTRY[j] != REGISTRY[i]
  {
  }

  lemma Bottom(s: State)
    requires Sound(s)
    ensures Level(0, s, s)
  {
    assert REGISTRY[0..] == REGISTRY;
  }

  lemma BottomMeans(s: State, d: State)
    requires AllTables(s) && Level(0, s, d)
    ensures Sound(d) && Upgrade(d, REGISTRY) == Upgrade(s, REGISTRY)
  {
    assert REGISTRY[0..] == REGISTRY;
  }

  lemma TopMeans(s: State, d: State)
    requires AllTables(s) && Level(|REGISTRY|, s, d)
    ensures Sound(d) && d == Upgrade(s, REGISTRY) && Upgrade(d, REGISTRY) == Upgrade(s, REGISTRY)
  {
    hide Sound, Target;
    RestartsFromTheBeginning(|REGISTRY|, s, d);
    BottomMeans(s, d);
    assert REGISTRY[|REGISTRY|..] == [];
  }

  method RunMigrations(db: Database) returns (r: Outcome)
    requires db.work == db.durable && Sound(db.durable)
    modifies db
    ensures !r.EngineError?
    ensures db.work == db.durable && Sound(db.durable)
    ensures Upgrade(db.durable, REGISTRY) == Upgrade(old(db.durable), REGISTRY)
    ensures r.Done? ==> db.durable == Upgrade(old(db.durable), REGISTRY)
    ensures InPrefix(old(db.durable).applied) ==> InPrefix(db.durable.applied)
    ensures PromotionKept(old(db.durable), db.durable)
    ensures RefsKept(old(db.durable), db.durable)
  {
    hide Sound, Upgrade, Level, InPrefix, PromotionKept, RefsKept;
    ghost var s := db.durable;
    PromotionKeptSoFar(s);
    NothingHappened(s);
    var applied := db.durable.applied;
    Bottom(s);
    for i := 0 to |REGISTRY|
      invariant db.work == db.durable && Level(i, s, db.durable)
      invariant forall j :: i <= j < |REGISTRY| ==> (REGISTRY[j] in applied <==> REGISTRY[j] in db.durable.applied)
      invariant InPrefix(s.applied) ==> InPrefix(db.durable.applied)
      invariant AllTables(db.durable) && PromotionKept(s, db.durable) && RefsKept(s, db.durable)
    {
      if REGISTRY[i] in applied {
        SkippingRaisesLevel(i, s, db.durable);
      } else {
        NoVersionTwice(i);
        LevelMeans(i, s, db.durable);
        if InPrefix(db.durable.applied) {
          PrefixGrows(i, db.durable.applied);
        }
        ghost var w := db.durable;
        r := RunNext(i, db, s);
        PromotionKeptTwice(s, w, db.durable);
        RefsKeptTwice(s, w, db.durable);
        if r.Crashed? {
          BottomMeans(s, db.durable);
          return;
        }
      }
    }
    TopMeans(s, db.durable);
    return Done;
  }

  /** Any number of starts, each of which may die anywhere. */
  method StartRepeatedly(db: Database, starts: nat) returns (r: Outcome)
    requires db.work == db.durable && Sound(db.durable)
    modifies db
    ensures !r.EngineError? && Sound(db.durable)
    ensures Upgrade(db.durable, REGISTRY) == Upgrade(old(db.durable), REGISTRY)
    ensures r.Done? ==> db.durable == Upgrade(old(db.durable), REGISTRY)
    ensures InPrefix(old(db.durable).applied) ==> InPrefix(db.durable.applied)
    ensures PromotionKept(old(db.durable), db.durable)
    // no promotion, or the whole of the one that was owed, which it is once 6 is recorded
    ensures
      var (first, last) := (old(db.durable), db.durable);
      var before, after := first.tables[Users].rows, last.tables[Users].rows;
      || (last.promotions == first.promotions && RolesKept(before, after, false) &&
          !(Owed(first) && 6 in last.applied))
      || (last.promotions == first.promotions + 1 && RolesKept(before, after, true) && Owed(first))
    ensures ReferencesKept(old(db.durable), db.durable)
  {
    hide Sound, Target, InPrefix, PromotionKept, RefsKept, ReferencesKept, RolesKept, Owed;
    ghost var s := db.durable;
    PromotionKeptSoFar(s);
    NothingHappened(s);
    r := Crashed;
    for k := 0 to starts
      invariant !r.EngineError?
      invariant db.work == db.durable && Sound(db.durable)
      invariant Upgrade(db.durable, REGISTRY) == Upgrade(old(db.durable), REGISTRY)
      invariant r.Done? ==> db.durable == Upgrade(old(db.durable), REGISTRY)
      invariant InPrefix(old(db.durable).applied) ==> InPrefix(db.durable.applied)
      invariant PromotionKept(s, db.durable) && RefsKept(s, db.durable)
    {
      ghost var w := db.durable;
      r := RunMigrations(db);
      PromotionKeptTwice(s, w, db.durable);
      RefsKeptTwice(s, w, db.durable);
    }
    RefsKeptMeans(s, db.durable);
    PromotionRowByRow(s, db.durable);
  }

  lemma PromotionKeptSoFar(s: State)
    requires AllTables(s)
    ensures PromotionKept(s, s)
  {
  }
}
