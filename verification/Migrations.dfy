/**
 The schema migrations with more than one statement, and the runner.  Every migration is written statement by statement
 as the source issues it and proved against `Target`, its end state: it never meets an engine error, a complete run
 ends in `Target` of the state it began in, and after a crash between any two statements the committed state still has
 the same `Target`, so the next start finishes what this one began.
 */
module Migrations {
  import opened Outcomes
  import opened Schema

  // ── Final definitions ───────────────────────────────────────────────────────────────────────────────────────

  const MANUFACTURER_DEF := ColumnDef(Varchar(100), true, Null)
  const DEVICE_TYPE_DEF := ColumnDef(Varchar(30), true, Null)
  const DEVICE_ICON_DEF := ColumnDef(Varchar(10), true, Null)
  const DEVICE_ICON_OVERRIDE_DEF := ColumnDef(Varchar(50), true, Null)
  const ROLE_DEF := ColumnDef(Enum({SuperAdmin, Admin, Viewer}), false, RoleValue(Viewer))
  const SUBNET_ACCESS_DEF := ColumnDef(Json, true, Null)
  const AUTH_PROVIDER_DEF := ColumnDef(Varchar(16), false, TextValue("local"))
  const EXTERNAL_ID_DEF := ColumnDef(Varchar(255), true, Null)
  const CREATED_BY_DEF := ColumnDef(SqlInt, true, Null)
  const TRANSPORTS_DEF := ColumnDef(Varchar(100), true, Null)
  const AAGUID_DEF := ColumnDef(Varchar(36), true, Null)
  const SCOPE_KEY_DEF := ColumnDef(SqlInt, false, IntValue(-1))
  const GENERATION_DEF := ColumnDef(SqlInt, false, IntValue(0))

  const PROVIDER_KEY := [AuthProvider, ExternalId]
  const SCOPED_KEY := [ServerId, Kind, Mac, Ip, ScopeKey]
  const GENERATION_KEY := [ServerId, Generation, Kind, Mac, Ip, ScopeKey]

  /** The tables whose user_id becomes a cascading foreign key, in the order the source walks them. */
  const CASCADE_TABLES := [
    MfaMethods, MfaBackupCodes, MfaTrustedDevices, MfaAttempts, WebauthnCredentials, SavedSearches, DashboardPrefs]

  /** The modelled part of the registry, strictly increasing. */
  const REGISTRY: seq<nat> := [3, 4, 6, 22, 23, 24, 33, 36]

  // ── End states ──────────────────────────────────────────────────────────────────────────────────────────────

  ghost predicate AllTables(s: State) {
    forall t: TableName :: t in s.tables
  }

  function Ensure(t: Table, c: ColumnName, def: ColumnDef): Table {
    if c in t.columns then t else t.(columns := t.columns[c := def], rows := Widen(t.rows, c, def.initial))
  }

  function At(s: State, n: TableName, t: Table): State {
    s.(tables := s.tables[n := t])
  }

  function Fingerprinted(t: Table): Table {
    Ensure(Ensure(Ensure(t, Manufacturer, MANUFACTURER_DEF), DeviceType, DEVICE_TYPE_DEF), DeviceIcon, DEVICE_ICON_DEF)
  }

  function IconWidened(t: Table): Table {
    if DeviceIconOverride in t.columns && t.columns[DeviceIconOverride].sqlType == Varchar(10)
    then t.(columns := t.columns[DeviceIconOverride := DEVICE_ICON_OVERRIDE_DEF])
    else Ensure(t, DeviceIconOverride, DEVICE_ICON_OVERRIDE_DEF)
  }

  function Overridable(t: Table): Table {
    IconWidened(Ensure(Ensure(t, ManufacturerOverride, MANUFACTURER_DEF), DeviceTypeOverride, DEVICE_TYPE_DEF))
  }

  /** Legacy: the role ENUM has no 'superadmin', so every 'admin' row is a pre-3.5 full-access account. */
  predicate Legacy(t: Table)
  {
    !(RoleColumn in t.columns && t.columns[RoleColumn].sqlType.Enum? &&
      SuperAdmin in t.columns[RoleColumn].sqlType.values)
  }

  /** The promotion is owed: the schema is legacy, or an interrupted run recorded that it was. */
  predicate PromotionDue(s: State)
    requires Users in s.tables
  {
    Legacy(s.tables[Users]) || PromotionPending in s.settings
  }

  function ThreeTier(s: State): State
    requires Users in s.tables
  {
    var t := s.tables[Users];
    var columns := if Legacy(t) then t.columns[RoleColumn := ROLE_DEF] else t.columns;
    var rows := if PromotionDue(s) then PromoteRows(t.rows) else t.rows;
    At(s, Users, Ensure(t.(columns := columns, rows := rows), SubnetAccess, SUBNET_ACCESS_DEF))
      .(settings := s.settings - {PromotionPending}, promotions := s.promotions + if PromotionDue(s) then 1 else 0)
  }

  function Federated(t: Table): Table {
    var u := Ensure(Ensure(t, AuthProvider, AUTH_PROVIDER_DEF), ExternalId, EXTERNAL_ID_DEF);
    if UqProviderExt in u.indexes then u else u.(indexes := u.indexes[UqProviderExt := Index(PROVIDER_KEY, true)])
  }

  /** One table once every reference in it is enforced: the rows of deleted users are gone, a dead creator is NULL. */
  function Referenced(n: TableName, t: Table, ids: set<Value>): Table {
    if n in CASCADE_TABLES then
      t.(rows := Keep(t.rows, UserId, ids),
         foreignKeys := if FkUserId(n) in t.foreignKeys then t.foreignKeys
                        else t.foreignKeys[FkUserId(n) := ForeignKey(UserId, Cascade)])
    else if n == ApiKeys then
      t.(columns := if CreatedBy in t.columns && !t.columns[CreatedBy].nullable
                    then t.columns[CreatedBy := CREATED_BY_DEF] else t.columns,
         rows := NullOrphans(t.rows, CreatedBy, ids),
         foreignKeys := if FkCreatedBy in t.foreignKeys then t.foreignKeys
                        else t.foreignKeys[FkCreatedBy := ForeignKey(CreatedBy, SetNull)])
    else t
  }

  function AllReferenced(s: State): State
    requires Users in s.tables
  {
    s.(tables := map n | n in s.tables :: Referenced(n, s.tables[n], UserIds(s)))
  }

  function PasskeyReady(t: Table): Table {
    Ensure(Ensure(t, Transports, TRANSPORTS_DEF), Aaguid, AAGUID_DEF)
  }

  predicate ScopeColumnDone(t: Table) {
    ScopeKey in t.columns && t.columns[ScopeKey] == SCOPE_KEY_DEF
  }

  predicate ScopeKeyDone(t: Table) {
    || (UqClientProblem in t.indexes && t.indexes[UqClientProblem] == Index(SCOPED_KEY, true))
    || (UqClientProblemGen in t.indexes && t.indexes[UqClientProblemGen] == Index(GENERATION_KEY, true))
  }

  predicate ScopeDone(s: State)
    requires ClientProblems in s.tables
  {
    ScopeColumnDone(s.tables[ClientProblems]) && ScopeKeyDone(s.tables[ClientProblems])
  }

  function Scoped(s: State): State
    requires ClientProblems in s.tables
  {
    if ScopeDone(s) then s
    else
      var t := s.tables[ClientProblems];
      At(s, ClientProblems,
         t.(columns := t.columns[ScopeKey := SCOPE_KEY_DEF],
            indexes := if ScopeKeyDone(t) then t.indexes else t.indexes[UqClientProblem := Index(SCOPED_KEY, true)],
            rows := []))
        .(settings := WithoutWatermarks(s.settings))
  }

  function Generational(t: Table): Table {
    var u := if Generation in t.columns then t.(columns := t.columns[Generation := GENERATION_DEF])
             else Ensure(t, Generation, GENERATION_DEF);
    u.(indexes := u.indexes[UqClientProblemGen := Index(GENERATION_KEY, true)] - {UqClientProblem})
  }

  /** The end state of migration `v` from `s`. */
  ghost function Target(v: nat, s: State): (r: State)
    requires AllTables(s)
    ensures AllTables(r)
    ensures r.applied == s.applied
  {
    match v
    case 3 => At(s, Devices, Fingerprinted(s.tables[Devices]))
    case 4 => At(s, Devices, Overridable(s.tables[Devices]))
    case 6 => ThreeTier(s)
    case 22 => At(s, Users, Federated(s.tables[Users]))
    case 23 => AllReferenced(s)
    case 24 => At(s, WebauthnCredentials, PasskeyReady(s.tables[WebauthnCredentials]))
    case 33 => Scoped(s)
    case 36 => At(s, ClientProblems, Generational(s.tables[ClientProblems]))
    case _ => s
  }

  // ── What every committed state satisfies ────────────────────────────────────────────────────────────────────

  /** The columns the migrations read but never create. */
  ghost predicate Baseline(s: State)
    requires AllTables(s)
  {
    && {Id, RoleColumn} <= s.tables[Users].columns.Keys
    && (forall n :: n in CASCADE_TABLES ==> UserId in s.tables[n].columns)
    && CreatedBy in s.tables[ApiKeys].columns
    && {ServerId, Kind, Mac, Ip} <= s.tables[ClientProblems].columns.Keys
  }

  ghost predicate RolesHeld(t: Table) {
    forall i :: 0 <= i < |t.rows| ==> RoleColumn in t.rows[i] && t.rows[i][RoleColumn].RoleValue?
  }

  /** Single sign-on subjects cannot collide before the key that forbids it exists: nothing but NULL was ever stored. */
  ghost predicate NoSubjectsYet(t: Table) {
    UqProviderExt !in t.indexes && ExternalId in t.columns ==>
      forall i :: 0 <= i < |t.rows| ==> ExternalId in t.rows[i] && t.rows[i][ExternalId].Null?
  }

  /** The engine keeps every unique key of the Problems table; a generation that exists is never NULL. */
  ghost predicate KeysHeld(t: Table) {
    && (forall n :: n in t.indexes && t.indexes[n].unique ==> Distinct(t.rows, t.indexes[n].columns))
    && (forall n, c :: n in t.indexes && c in t.indexes[n].columns ==> c in t.columns)
    && (Generation in t.columns ==> AllFit(t.rows, Generation, GENERATION_DEF))
  }

  ghost predicate Sound(s: State)
    ensures Sound(s) ==> AllTables(s)
  {
    && AllTables(s) && Baseline(s)
    && (forall n: TableName :: Shaped(s.tables[n]))
    && RolesHeld(s.tables[Users])
    && NoSubjectsYet(s.tables[Users])
    && KeysHeld(s.tables[ClientProblems])
    && (33 in s.applied ==> ScopeDone(s))
  }

  /** `d` is committed part-way through migration `v` begun in `s`: sound, and finishing it still ends where `s`
      would. */
  ghost predicate OnTheWay(v: nat, s: State, d: State)
    requires AllTables(s)
    ensures OnTheWay(v, s, d) ==> AllTables(d)
  {
    && Sound(d)
    && Target(v, d) == Target(v, s)
    && d.applied == s.applied
  }

  ghost predicate Finished(v: nat, s: State, r: Outcome, d: State, w: State)
    requires AllTables(s)
  {
    && !r.EngineError?
    && OnTheWay(v, s, d)
    && (r.Done? ==> w == Target(v, s) && Sound(w))
    && (r.Crashed? ==> w == d)
  }

  // ── One statement at a time ─────────────────────────────────────────────────────────────────────────────────

  /** A column no migration's bookkeeping depends on. */
  predicate Plain(n: TableName, c: ColumnName) {
    !(n == Users && c in {RoleColumn, ExternalId}) && !(n == ClientProblems && c in {ScopeKey, Generation})
  }

  predicate Widened(a: Row, b: Row, c: ColumnName) {
    c in b && b == a[c := b[c]]
  }

  lemma WideningKeepsDistinct(rows: seq<Row>, wide: seq<Row>, cols: seq<ColumnName>, c: ColumnName)
    requires Distinct(rows, cols) && c !in cols && |wide| == |rows|
    requires forall i :: 0 <= i < |rows| ==> Widened(rows[i], wide[i], c)
    ensures Distinct(wide, cols)
  {
  }

  lemma WideningKeepsKeys(t: Table, c: ColumnName, def: ColumnDef)
    requires Shaped(t) && KeysHeld(t) && c !in t.columns && (c == Generation ==> def == GENERATION_DEF)
    ensures KeysHeld(AlterTable(t, AddColumn(ClientProblems, c, def)))
  {
    var u := AlterTable(t, AddColumn(ClientProblems, c, def));
    forall n | n in u.indexes && u.indexes[n].unique
      ensures Distinct(u.rows, u.indexes[n].columns)
    {
      WideningKeepsDistinct(t.rows, u.rows, u.indexes[n].columns, c);
    }
    assert Generation in u.columns ==> AllFit(u.rows, Generation, GENERATION_DEF);
  }

  lemma WideningKeepsTheRest(t: Table, n: TableName, c: ColumnName, def: ColumnDef)
    ensures Shaped(t) ==> Shaped(AlterTable(t, AddColumn(n, c, def)))
    ensures RolesHeld(t) && c != RoleColumn ==> RolesHeld(AlterTable(t, AddColumn(n, c, def)))
    ensures NoSubjectsYet(t) && (c == ExternalId ==> def == EXTERNAL_ID_DEF) ==>
      NoSubjectsYet(AlterTable(t, AddColumn(n, c, def)))
  {
    var u := AlterTable(t, AddColumn(n, c, def));
    assert forall i :: 0 <= i < |u.rows| ==> u.rows[i] == t.rows[i][c := def.initial];
  }

  lemma TableSwapped(s: State, n: TableName, t: Table)
    requires Sound(s)
    requires Shaped(t) && s.tables[n].columns.Keys <= t.columns.Keys
    requires n == Users ==> RolesHeld(t) && NoSubjectsYet(t)
    requires n == ClientProblems ==> KeysHeld(t) && (33 in s.applied ==> ScopeColumnDone(t) && ScopeKeyDone(t))
    ensures Sound(At(s, n, t))
  {
    hide Shaped, RolesHeld, NoSubjectsYet, KeysHeld, ScopeColumnDone, ScopeKeyDone;
  }

  lemma SettingsAside(s: State, settings: map<SettingKey, string>, promotions: nat)
    requires Sound(s)
    ensures Sound(s.(settings := settings, promotions := promotions))
  {
  }

  lemma AddingAColumnIsSound(s: State, n: TableName, c: ColumnName, def: ColumnDef)
    requires Sound(s) && c !in s.tables[n].columns
    requires Plain(n, c) ||
      (n, c, def) in {(ClientProblems, Generation, GENERATION_DEF), (Users, ExternalId, EXTERNAL_ID_DEF)}
    ensures DdlAllowed(s, AddColumn(n, c, def))
    ensures Sound(Alter(s, AddColumn(n, c, def)))
  {
    var t := s.tables[n];
    WideningKeepsTheRest(t, n, c, def);
    if n == ClientProblems {
      WideningKeepsKeys(t, c, def);
    }
    TableSwapped(s, n, AlterTable(t, AddColumn(n, c, def)));
    hide *;
  }

  lemma ModifyingAColumnIsSound(s: State, n: TableName, c: ColumnName, def: ColumnDef)
    requires Sound(s) && Plain(n, c) && c in s.tables[n].columns && AllFit(s.tables[n].rows, c, def)
    ensures DdlAllowed(s, ModifyColumn(n, c, def))
    ensures Sound(Alter(s, ModifyColumn(n, c, def)))
  {
    var t, u := s.tables[n], AlterTable(s.tables[n], ModifyColumn(n, c, def));
    assert Shaped(t) && Shaped(u);
    assert RolesHeld(t) ==> RolesHeld(u);
    assert NoSubjectsYet(t) ==> NoSubjectsYet(u);
    assert KeysHeld(t) && n == ClientProblems ==> KeysHeld(u);
    TableSwapped(s, n, u);
    hide Sound;
  }

  /** From a state on the way, a sound one with the same end state is on the way too. */
  lemma Along(v: nat, s: State, w: State, x: State)
    requires AllTables(s) && OnTheWay(v, s, w) && Sound(x)
    requires Target(v, x) == Target(v, w) && x.applied == w.applied
    ensures OnTheWay(v, s, x)
  {
  }

  /** One table of `w` replaced, soundly and without changing where the migration ends. */
  lemma SwapAlong(v: nat, s: State, w: State, n: TableName, t: Table)
    requires AllTables(s) && OnTheWay(v, s, w) && Sound(At(w, n, t))
    requires Target(v, At(w, n, t)) == Target(v, w)
    ensures OnTheWay(v, s, At(w, n, t))
  {
    hide Sound, Target;
  }

  lemma OnTheWayIsSound(v: nat, s: State, w: State)
    requires AllTables(s) && OnTheWay(v, s, w)
    ensures Sound(w)
  {
  }

  /** One DDL statement of migration `v`: wherever the process dies around it, the migration is still on its way. */
  method Advance(db: Database, q: Ddl, ghost v: nat, ghost s: State) returns (r: Outcome)
    requires AllTables(s)
    requires OnTheWay(v, s, db.durable) && OnTheWay(v, s, db.work)
    requires DdlAllowed(db.work, q) && OnTheWay(v, s, Alter(db.work, q))
    modifies db
    ensures !r.EngineError?
    ensures OnTheWay(v, s, db.durable)
    ensures r.Done? ==> db.work == db.durable == Alter(old(db.work), q)
    ensures r.Crashed? ==> db.work == db.durable && Finished(v, s, r, db.durable, db.work)
    ensures db.durable == old(db.durable) || db.durable == old(db.work) || db.durable == Alter(old(db.work), q)
  {
    r := db.RunDdl(q);
  }

  lemma Begin(v: nat, s: State)
    requires Sound(s)
    ensures OnTheWay(v, s, s)
  {
  }

  /** A state the migration would not change is the state it was to reach. */
  lemma Finish(v: nat, s: State, w: State)
    requires AllTables(s) && OnTheWay(v, s, w) && AllTables(w) && Target(v, w) == w
    ensures Finished(v, s, Done, w, w)
  {
  }
}
