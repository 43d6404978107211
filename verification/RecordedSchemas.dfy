/** A recorded version's schema is there in every state a crash can leave, not only after whole migrations. */
module RecordedSchemas {
  import opened Schema
  import opened Migrations
  import opened MigrationRunner
  import opened Promotions
  import opened MigrationFacts
  import opened UserReferences

  lemma PasskeyRowsKeptTheirUser(t: Table, ids: set<Value>)
    requires NoOrphans(PasskeyReady(t).rows, UserId, ids)
    ensures NoOrphans(t.rows, UserId, ids)
  {
    var u := PasskeyReady(t);
    forall i | 0 <= i < |t.rows|
      ensures !Orphan(t.rows[i], UserId, ids)
    {
      assert !Orphan(u.rows[i], UserId, ids);
    }
  }

  lemma WasReferenced(v: nat, s: State)
    requires AllTables(s) && v in REGISTRY && 23 < v && FinalSchema(23, Target(v, s))
    ensures FinalSchema(23, s)
  {
    var x := Target(v, s);
    LeavesTheRestAlone(v, s, Users);
    assert UserIds(x) == UserIds(s);
    forall n | n in CASCADE_TABLES
      ensures NoOrphans(s.tables[n].rows, UserId, UserIds(s)) && FkUserId(n) in s.tables[n].foreignKeys
    {
      if n in Touched(v) {
        PasskeyRowsKeptTheirUser(s.tables[n], UserIds(s));
      } else {
        LeavesTheRestAlone(v, s, n);
      }
    }
    LeavesTheRestAlone(v, s, ApiKeys);
  }

  lemma WasOnDevices(u: nat, v: nat, s: State)
    requires AllTables(s) && u in {3, 4} && v in REGISTRY && u < v && FinalSchema(u, Target(v, s))
    ensures FinalSchema(u, s)
  {
    if v != 4 {
      LeavesTheRestAlone(v, s, Devices);
      hide Target;
    } else {
      hide Widen, Fingerprinted, IconWidened;
      assert v == 4 && u == 3;
    }
  }

  lemma WasOnUsers(u: nat, v: nat, s: State)
    requires AllTables(s) && Baseline(s) && u in {6, 22} && v in REGISTRY && u < v && FinalSchema(u, Target(v, s))
    ensures FinalSchema(u, s)
  {
    OnlySixPromotes(v, s);
    if v != 22 {
      LeavesTheRestAlone(v, s, Users);
      hide Target;
    }
  }

  lemma WasOnCredentials(v: nat, s: State)
    requires AllTables(s) && v in REGISTRY && 24 < v && FinalSchema(24, Target(v, s))
    ensures FinalSchema(24, s)
  {
    LeavesTheRestAlone(v, s, WebauthnCredentials);
    hide Target;
  }

  /** A later migration adds nothing to what an earlier version stands for, so it was all there before. */
  lemma EarlierOnesWereThere(u: nat, v: nat, s: State)
    requires AllTables(s) && Baseline(s) && u in REGISTRY && v in REGISTRY && u < v && u != 33
    requires FinalSchema(u, Target(v, s))
    ensures FinalSchema(u, s)
  {
    hide FinalSchema, Target, Baseline;
    match u
    case 3 => WasOnDevices(u, v, s);
    case 4 => WasOnDevices(u, v, s);
    case 6 => WasOnUsers(u, v, s);
    case 22 => WasOnUsers(u, v, s);
    case 23 => WasReferenced(v, s);
    case _ => WasOnCredentials(v, s);
  }

  lemma RecordIsNoSchema(u: nat, s: State, v: nat)
    requires AllTables(s) && FinalSchema(u, Recorded(s, v))
    ensures FinalSchema(u, s)
  {
  }

  lemma {:induction false} WasThereBeforeTheRest(u: nat, s: State, vs: seq<nat>)
    requires AllTables(s) && Baseline(s) && u in REGISTRY && u != 33
    requires forall i :: 0 <= i < |vs| ==> vs[i] in REGISTRY && (vs[i] in s.applied || u < vs[i])
    requires FinalSchema(u, Upgrade(s, vs))
    ensures FinalSchema(u, s)
    decreases |vs|
  {
    hide FinalSchema, Target, Baseline;
    if vs != [] {
      var v := vs[0];
      if v in s.applied {
        WasThereBeforeTheRest(u, s, vs[1..]);
      } else {
        var t := Target(v, s);
        KeepsTheBaseline(v, s);
        BaselineIgnoresTheRecord(t, v);
        WasThereBeforeTheRest(u, Recorded(t, v), vs[1..]);
        RecordIsNoSchema(u, t, v);
        EarlierOnesWereThere(u, v, s);
      }
    }
  }

  lemma PrefixIsInOrder(s: State, u: nat)
    requires InPrefix(s.applied) && u in REGISTRY && u in s.applied
    ensures forall i :: 0 <= i < |REGISTRY| ==> REGISTRY[i] in s.applied || u < REGISTRY[i]
  {
    var k :| 0 <= k < |REGISTRY| && REGISTRY[k] == u;
    assert forall i, j :: 0 <= i < j < |REGISTRY| ==> REGISTRY[i] < REGISTRY[j];
  }

  lemma TheRecordIsKept(s: State, u: nat)
    requires AllTables(s) && u in s.applied
    ensures u in Upgrade(s, REGISTRY).applied
  {
  }

  /** Whatever crashed wherever: in every committed state of any number of starts, a recorded version's schema holds. */
  lemma RecordedVersionsHoldInEveryCommittedState(s: State, d: State)
    requires Sound(s) && InPrefix(s.applied) && RecordedHold(s)
    requires Sound(d) && InPrefix(d.applied) && Upgrade(d, REGISTRY) == Upgrade(s, REGISTRY)
    ensures RecordedHold(d)
  {
    hide FinalSchema, Target, Upgrade, InPrefix;
    PrefixGivesOrder(s);
    SoundMeans(s);
    SoundMeans(d);
    RecordedVersionsHold(s, REGISTRY);
    forall u | u in REGISTRY && u in d.applied
      ensures FinalSchema(u, d)
    {
      if u == 33 {
        ScopeIsItsSchema(d);
      } else {
        TheRecordIsKept(d, u);
        PrefixIsInOrder(d, u);
        WasThereBeforeTheRest(u, d, REGISTRY);
      }
    }
  }

  lemma SoundMeans(s: State)
    requires Sound(s)
    ensures AllTables(s) && Baseline(s) && (33 in s.applied ==> ScopeDone(s))
  {
  }

  lemma ScopeIsItsSchema(s: State)
    requires AllTables(s) && ScopeDone(s)
    ensures FinalSchema(33, s)
  {
  }

  lemma PrefixGivesOrder(s: State)
    requires InPrefix(s.applied)
    ensures InOrder(s, REGISTRY)
  {
    assert forall i, j :: 0 <= i < j < |REGISTRY| ==> REGISTRY[i] < REGISTRY[j];
    forall v, i | v in s.applied && v in REGISTRY && 0 <= i < |REGISTRY| && REGISTRY[i] !in s.applied
      ensures v < REGISTRY[i]
    {
      PrefixIsInOrder(s, v);
    }
  }

  /** Any number of starts, dying anywhere: no version is ever in the table without its schema. */
  method StartManyTimes(db: Database, starts: nat)
    requires db.work == db.durable && Sound(db.durable)
    requires InPrefix(db.durable.applied) && RecordedHold(db.durable)
    modifies db
    ensures Sound(db.durable) && RecordedHold(db.durable)
  {
    hide InPrefix, RecordedHold;
    ghost var first := db.durable;
    var r := StartRepeatedly(db, starts);
    RecordedVersionsHoldInEveryCommittedState(first, db.durable);
  }
}
