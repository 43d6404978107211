/** What the end states mean: the promotion happens once, references are whole, and a recorded version stays true. */
module MigrationFacts {
  import opened Schema
  import opened Migrations
  import opened UserMigrations
  import opened Promotions
  import opened MigrationRunner
  import opened UserReferences

  // ── Legacy admins ───────────────────────────────────────────────────────────────────────────────────────────

  ghost predicate PromotionOwed(s: State, vs: seq<nat>)
    requires AllTables(s)
  {
    6 in vs && Owed(s)
  }

  /** A complete upgrade promotes every legacy admin with one UPDATE when that is owed, and otherwise changes no
      role. */
  lemma {:induction false} PromotionHappensExactlyOnce(s: State, vs: seq<nat>)
    requires AllTables(s) && RoleColumn in s.tables[Users].columns && forall v :: v in vs ==> v in REGISTRY
    ensures Upgrade(s, vs).promotions == s.promotions + if PromotionOwed(s, vs) then 1 else 0
    ensures Roles(Upgrade(s, vs).tables[Users])
         == if PromotionOwed(s, vs) then PromotedRoles(s.tables[Users]) else Roles(s.tables[Users])
    decreases |vs|
  {
    if vs != [] {
      var v := vs[0];
      var x := if v in s.applied then s else Recorded(Target(v, s), v);
      if v !in s.applied {
        if v == 6 { SixPromotesTheDue(s); } else { OnlySixPromotes(v, s); SameRolesPromoteAlike(s, x); }
      }
      assert RoleColumn in x.tables[Users].columns;
      PromotionHappensExactlyOnce(x, vs[1..]);
    }
  }

  // ── References ──────────────────────────────────────────────────────────────────────────────────────────────

  /** Migration 23 drops exactly the rows of users who do not exist, clears exactly the creators who do not, and leaves
      the other tables alone.  A reference it adds cascades, or clears the creator. */
  lemma EveryReferenceHolds(s: State, n: TableName)
    requires AllTables(s) && n != Users
    ensures
      var t, u, users := s.tables[n], Target(23, s).tables[n], s.tables[Users].rows;
      if n in CASCADE_TABLES then
        && (forall row: Row ::
              multiset(u.rows)[row] ==
              if UserId in row && NamesNobody(row[UserId], users) then 0 else multiset(t.rows)[row])
        && (FkUserId(n) !in t.foreignKeys ==>
              u.foreignKeys == t.foreignKeys[FkUserId(n) := ForeignKey(UserId, Cascade)])
      else if n == ApiKeys then
        && KeysKept(t.rows, u.rows, users, true)
        && (FkCreatedBy !in t.foreignKeys ==>
              u.foreignKeys == t.foreignKeys[FkCreatedBy := ForeignKey(CreatedBy, SetNull)])
      else u == t
    ensures Target(23, s).tables[Users] == s.tables[Users]
  {
    hide ThreeTier, Fingerprinted, Overridable, Federated, PasskeyReady, Scoped, Generational, NamesNobody, Orphan,
         UserIds;
    var t := s.tables[n];
    assert Target(23, s).tables[n] == Referenced(n, t, UserIds(s));
    if n in CASCADE_TABLES {
      KeepDropsExactlyTheOrphans(t.rows, UserId, UserIds(s));
      forall row: Row
        ensures Orphan(row, UserId, UserIds(s)) <==> UserId in row && NamesNobody(row[UserId], s.tables[Users].rows)
      {
        OrphanNamesNobody(s, row, UserId);
      }
    } else if n == ApiKeys {
      CreatorsMean(s, t.rows, Target(23, s).tables[n].rows, true);
    }
  }

  // ── A recorded version stays true ───────────────────────────────────────────────────────────────────────────

  /** The scope column as it is to be, and one of the two unique keys that have it. */
  predicate ScopeInPlace(t: Table) {
    && ScopeKey in t.columns && t.columns[ScopeKey] == ColumnDef(SqlInt, false, IntValue(-1))
    && ((UqClientProblem in t.indexes &&
         t.indexes[UqClientProblem] == Index([ServerId, Kind, Mac, Ip, ScopeKey], true)) ||
        (UqClientProblemGen in t.indexes &&
         t.indexes[UqClientProblemGen] == Index([ServerId, Generation, Kind, Mac, Ip, ScopeKey], true)))
  }

  /** Migration 33 does nothing where the scope is in place; elsewhere it empties the Problems table and drops the
      watermarks, and of everything else the settings hold nothing. */
  lemma ScopingClearsTheWatermarks(s: State)
    requires AllTables(s)
    ensures
      var d := Target(33, s);
      if ScopeInPlace(s.tables[ClientProblems]) then d == s
      else
        && d.tables[ClientProblems].rows == []
        && (forall n :: n != ClientProblems ==> d.tables[n] == s.tables[n])
        && (forall k :: k in d.settings <==> k in s.settings && !k.Watermark?)
        && (forall k :: k in d.settings ==> d.settings[k] == s.settings[k])
  {
  }

  /** The schema each version stands for, read back from the database and not from what the migration did. */
  ghost predicate FinalSchema(v: nat, s: State)
    requires AllTables(s)
  {
    match v
    case 3 => {Manufacturer, DeviceType, DeviceIcon} <= s.tables[Devices].columns.Keys
    case 4 =>
      && {ManufacturerOverride, DeviceTypeOverride, DeviceIconOverride} <= s.tables[Devices].columns.Keys
      && s.tables[Devices].columns[DeviceIconOverride].sqlType != Varchar(10)
    case 6 =>
      KnowsSuperadmin(s.tables[Users]) && PromotionPending !in s.settings && SubnetAccess in s.tables[Users].columns
    case 22 =>
      && {AuthProvider, ExternalId} <= s.tables[Users].columns.Keys
      && UqProviderExt in s.tables[Users].indexes
    case 23 =>
      && (forall n :: n in CASCADE_TABLES ==>
            NoOrphans(s.tables[n].rows, UserId, UserIds(s)) && FkUserId(n) in s.tables[n].foreignKeys)
      && NoOrphans(s.tables[ApiKeys].rows, CreatedBy, UserIds(s)) && FkCreatedBy in s.tables[ApiKeys].foreignKeys
    case 24 => {Transports, Aaguid} <= s.tables[WebauthnCredentials].columns.Keys
    case 33 => ScopeInPlace(s.tables[ClientProblems])
    case 36 =>
      var t := s.tables[ClientProblems];
      && Generation in t.columns && t.columns[Generation] == ColumnDef(SqlInt, false, IntValue(0))
      && UqClientProblem !in t.indexes && UqClientProblemGen in t.indexes
      && t.indexes[UqClientProblemGen] == Index([ServerId, Generation, Kind, Mac, Ip, ScopeKey], true)
    case _ => true
  }

  lemma ReachesItsSchema(v: nat, s: State)
    requires AllTables(s) && Baseline(s) && v in REGISTRY
    ensures FinalSchema(v, Target(v, s))
  {
    if v == 23 {
      ReferencesReached(s);
    }
  }

  lemma ReferencesReached(s: State)
    requires AllTables(s)
    ensures FinalSchema(23, AllReferenced(s))
  {
    assert UserIds(AllReferenced(s)) == UserIds(s);
  }

  /** Columns are only ever added, and migration 24 adds them to rows that keep their user. */
  lemma PasskeyRowsKeepTheirUser(t: Table, ids: set<Value>)
    requires NoOrphans(t.rows, UserId, ids)
    ensures NoOrphans(PasskeyReady(t).rows, UserId, ids)
    ensures PasskeyReady(t).foreignKeys == t.foreignKeys
  {
  }

  lemma StaysOnDevices(v: nat, w: nat, s: State)
    requires AllTables(s) && w in REGISTRY && v < w && v in {3, 4} && FinalSchema(v, s)
    ensures FinalSchema(v, Target(w, s))
  {
    if w != 4 {
      LeavesTheRestAlone(w, s, Devices);
    }
  }

  lemma StaysOnUsers(v: nat, w: nat, s: State)
    requires AllTables(s) && Baseline(s) && w in REGISTRY && v < w && v in {6, 22} && FinalSchema(v, s)
    ensures FinalSchema(v, Target(w, s))
  {
    if v == 6 {
      OnlySixPromotes(w, s);
    }
    if w != 22 {
      LeavesTheRestAlone(w, s, Users);
    }
  }

  lemma StaysReferenced(w: nat, s: State)
    requires AllTables(s) && w in REGISTRY && 23 < w && FinalSchema(23, s)
    ensures FinalSchema(23, Target(w, s))
  {
    var x := Target(w, s);
    LeavesTheRestAlone(w, s, Users);
    assert UserIds(x) == UserIds(s);
    forall n | n in CASCADE_TABLES
      ensures NoOrphans(x.tables[n].rows, UserId, UserIds(s)) && FkUserId(n) in x.tables[n].foreignKeys
    {
      if n in Touched(w) {
        PasskeyRowsKeepTheirUser(s.tables[n], UserIds(s));
      } else {
        LeavesTheRestAlone(w, s, n);
      }
    }
    LeavesTheRestAlone(w, s, ApiKeys);
  }

  lemma LaterOnesDoNotDisturb(v: nat, w: nat, s: State)
    requires AllTables(s) && Baseline(s) && v in REGISTRY && w in REGISTRY && v < w && FinalSchema(v, s)
    ensures FinalSchema(v, Target(w, s))
  {
    match v
    case 3 => StaysOnDevices(v, w, s);
    case 4 => StaysOnDevices(v, w, s);
    case 6 => StaysOnUsers(v, w, s);
    case 22 => StaysOnUsers(v, w, s);
    case 23 => StaysReferenced(w, s);
    case 24 => LeavesTheRestAlone(w, s, WebauthnCredentials);
    case _ =>
  }

  lemma KeepsTheBaseline(v: nat, s: State)
    requires AllTables(s) && Baseline(s) && v in REGISTRY
    ensures Baseline(Target(v, s))
  {
    forall n: TableName
      ensures s.tables[n].columns.Keys <= Target(v, s).tables[n].columns.Keys
    {
      ColumnsOnlyGrow(v, s, n);
    }
    hide Target;
  }

  lemma ColumnsOnlyGrow(v: nat, s: State, n: TableName)
    requires AllTables(s) && v in REGISTRY
    ensures s.tables[n].columns.Keys <= Target(v, s).tables[n].columns.Keys
  {
    if n !in Touched(v) {
      LeavesTheRestAlone(v, s, n);
      hide Target;
    } else if v in {23, 33, 36} {
      ReworkedTablesKeepTheirColumns(v, s, n);
      hide Target;
    } else {
      hide PromoteRows, Widen, AllReferenced, Scoped, Generational, PromotionDue;
    }
  }

  lemma ReworkedTablesKeepTheirColumns(v: nat, s: State, n: TableName)
    requires AllTables(s) && v in {23, 33, 36}
    ensures s.tables[n].columns.Keys <= Target(v, s).tables[n].columns.Keys
  {
    hide ThreeTier, Fingerprinted, Overridable, Federated, PasskeyReady, Widen;
    if v == 23 {
      assert Target(v, s).tables[n] == Referenced(n, s.tables[n], UserIds(s));
    }
  }

  /** Every version in the table has its schema. */
  ghost predicate RecordedHold(s: State)
    requires AllTables(s)
  {
    forall v :: v in REGISTRY && v in s.applied ==> FinalSchema(v, s)
  }

  /** Nothing recorded is ahead of what is still to run. */
  ghost predicate InOrder(s: State, vs: seq<nat>) {
    && (forall i, j :: 0 <= i < j < |vs| ==> vs[i] < vs[j])
    && (forall i :: 0 <= i < |vs| ==> vs[i] in REGISTRY)
    && (forall v, i :: v in s.applied && v in REGISTRY && 0 <= i < |vs| && vs[i] !in s.applied ==> v < vs[i])
  }

  lemma SchemaIgnoresTheRecord(u: nat, s: State, v: nat)
    requires AllTables(s) && FinalSchema(u, s)
    ensures FinalSchema(u, Recorded(s, v))
  {
  }

  lemma BaselineIgnoresTheRecord(s: State, v: nat)
    requires AllTables(s) && Baseline(s)
    ensures Baseline(Recorded(s, v))
  {
  }

  /** A version in the table means its schema is there, after any prefix of the registry. */
  lemma {:induction false} RecordedVersionsHold(s: State, vs: seq<nat>)
    requires AllTables(s) && Baseline(s) && RecordedHold(s) && InOrder(s, vs)
    ensures RecordedHold(Upgrade(s, vs))
    decreases |vs|
  {
    hide FinalSchema, Target, Baseline;
    if vs != [] {
      var v := vs[0];
      var x := if v in s.applied then s else Recorded(Target(v, s), v);
      if v !in s.applied {
        KeepsTheBaseline(v, s);
        ReachesItsSchema(v, s);
        forall u | u in REGISTRY && u in x.applied
          ensures FinalSchema(u, x)
        {
          if u != v {
            LaterOnesDoNotDisturb(u, v, s);
          }
          SchemaIgnoresTheRecord(u, Target(v, s), v);
        }
        BaselineIgnoresTheRecord(Target(v, s), v);
      }
      RecordedVersionsHold(x, vs[1..]);
    }
  }
}
