/**
 The database engine the migrations run against: tables with columns, indexes, foreign keys and rows, a settings
 table and the table of applied versions.  A DDL statement first commits the open transaction and then commits itself;
 a DML statement belongs to the open transaction and is lost when the process dies before the next commit.
 */
module Schema {
  import opened Outcomes

  datatype Role = SuperAdmin | Admin | Viewer

  datatype Value = Null | IntValue(i: int) | TextValue(s: string) | RoleValue(role: Role)

  datatype TableName =
    | Users | Devices | MfaMethods | MfaBackupCodes | MfaTrustedDevices | MfaAttempts
    | WebauthnCredentials | SavedSearches | DashboardPrefs | ApiKeys | ClientProblems

  datatype ColumnName =
    | Id | RoleColumn | SubnetAccess | AuthProvider | ExternalId
    | Manufacturer | DeviceType | DeviceIcon
    | ManufacturerOverride | DeviceTypeOverride | DeviceIconOverride
    | UserId | CreatedBy | Transports | Aaguid
    | ServerId | Kind | Mac | Ip | ScopeKey | Generation
    | OtherColumn(name: string)

  datatype SqlType = Varchar(width: nat) | SqlInt | Json | Enum(values: set<Role>) | OtherType(name: string)

  /** A column as SHOW COLUMNS reports it; `initial` is the DEFAULT every existing row gets when it is added. */
  datatype ColumnDef = ColumnDef(sqlType: SqlType, nullable: bool, initial: Value)

  datatype IndexName = UqProviderExt | UqClientProblem | UqClientProblemGen | OtherIndex(name: string)

  datatype Index = Index(columns: seq<ColumnName>, unique: bool)

  datatype FkName = FkUserId(table: TableName) | FkCreatedBy | OtherFk(name: string)

  datatype FkAction = Cascade | SetNull

  /** A foreign key to users(id). */
  datatype ForeignKey = ForeignKey(column: ColumnName, action: FkAction)

  type Row = map<ColumnName, Value>

  datatype Table = Table(
    columns: map<ColumnName, ColumnDef>,
    indexes: map<IndexName, Index>,
    foreignKeys: map<FkName, ForeignKey>,
    rows: seq<Row>)

  datatype SettingKey = PromotionPending | Watermark(server: int) | OtherSetting(name: string)

  /**
   Everything a transaction can change.  `promotions` is the model's own tally of legacy-admin UPDATE statements; it
   commits and rolls back with the rows, so in the durable state it counts the committed ones.
   */
  datatype State = State(
    tables: map<TableName, Table>,
    settings: map<SettingKey, string>,
    applied: set<nat>,
    promotions: nat)

  // ── Rows ────────────────────────────────────────────────────────────────────────────────────────────────────

  ghost predicate Shaped(t: Table) {
    forall i :: 0 <= i < |t.rows| ==> t.rows[i].Keys == t.columns.Keys
  }

  /** SQL uniqueness: two rows collide only when every key column is equal and none of them is NULL. */
  predicate Collide(a: Row, b: Row, cols: seq<ColumnName>) {
    forall k :: 0 <= k < |cols| ==>
      cols[k] in a && cols[k] in b && a[cols[k]] == b[cols[k]] && !a[cols[k]].Null?
  }

  predicate Distinct(rows: seq<Row>, cols: seq<ColumnName>) {
    forall i, j :: 0 <= i < j < |rows| ==> !Collide(rows[i], rows[j], cols)
  }

  predicate Orphan(row: Row, c: ColumnName, ids: set<Value>) {
    c in row && !row[c].Null? && row[c] !in ids
  }

  predicate NoOrphans(rows: seq<Row>, c: ColumnName, ids: set<Value>) {
    forall i :: 0 <= i < |rows| ==> !Orphan(rows[i], c, ids)
  }

  predicate Fits(v: Value, def: ColumnDef) {
    && (v.Null? ==> def.nullable)
    && (def.sqlType.Enum? && !v.Null? ==> v.RoleValue? && v.role in def.sqlType.values)
  }

  predicate AllFit(rows: seq<Row>, c: ColumnName, def: ColumnDef) {
    forall i :: 0 <= i < |rows| ==> c in rows[i] && Fits(rows[i][c], def)
  }

  /** `rows` with a new column holding `v`. */
  function Widen(rows: seq<Row>, c: ColumnName, v: Value): (r: seq<Row>)
    ensures |r| == |rows| && forall i :: 0 <= i < |r| ==> r[i] == rows[i][c := v]
  {
    seq(|rows|, i requires 0 <= i < |rows| => rows[i][c := v])
  }

  /** The rows whose user still exists, in order (DELETE ... WHERE c NOT IN (SELECT id FROM users)). */
  function Keep(rows: seq<Row>, c: ColumnName, ids: set<Value>): (r: seq<Row>)
    ensures NoOrphans(r, c, ids)
    ensures NoOrphans(rows, c, ids) ==> r == rows
  {
    if rows == [] then []
    else
      var rest := Keep(rows[1..], c, ids);
      assert rows == [rows[0]] + rows[1..];
      assert NoOrphans(rows, c, ids) ==> NoOrphans(rows[1..], c, ids);
      if Orphan(rows[0], c, ids) then rest else [rows[0]] + rest
  }

  /** Exactly the orphans go: every other row stays as often as it was there. */
  lemma {:induction false} KeepDropsExactlyTheOrphans(rows: seq<Row>, c: ColumnName, ids: set<Value>)
    ensures forall row :: multiset(Keep(rows, c, ids))[row] == if Orphan(row, c, ids) then 0 else multiset(rows)[row]
  {
    if rows != [] {
      KeepDropsExactlyTheOrphans(rows[1..], c, ids);
      assert rows == [rows[0]] + rows[1..];
    }
  }

  lemma KeepIsFromRows(rows: seq<Row>, c: ColumnName, ids: set<Value>)
    ensures forall row :: row in Keep(rows, c, ids) ==> row in rows
  {
  }

  function NullRow(row: Row, c: ColumnName, ids: set<Value>): Row {
    if Orphan(row, c, ids) then row[c := Null] else row
  }

  /** Every dangling reference set to NULL; no row goes. */
  function NullOrphans(rows: seq<Row>, c: ColumnName, ids: set<Value>): (r: seq<Row>)
    ensures |r| == |rows| && forall i :: 0 <= i < |r| ==> r[i] == NullRow(rows[i], c, ids)
    ensures NoOrphans(r, c, ids)
    ensures NoOrphans(rows, c, ids) ==> r == rows
  {
    seq(|rows|, i requires 0 <= i < |rows| => NullRow(rows[i], c, ids))
  }

  function PromoteRow(row: Row): Row {
    if RoleColumn in row && row[RoleColumn] == RoleValue(Admin) then row[RoleColumn := RoleValue(SuperAdmin)] else row
  }

  /** UPDATE users SET role='superadmin' WHERE role='admin'. */
  function PromoteRows(rows: seq<Row>): (r: seq<Row>)
    ensures |r| == |rows| && forall i :: 0 <= i < |r| ==> r[i] == PromoteRow(rows[i])
  {
    seq(|rows|, i requires 0 <= i < |rows| => PromoteRow(rows[i]))
  }

  /** SELECT id FROM users */
  function UserIds(s: State): set<Value>
    requires Users in s.tables
  {
    set row: Row | row in s.tables[Users].rows && Id in row :: row[Id]
  }

  // ── Statements ──────────────────────────────────────────────────────────────────────────────────────────────

  datatype Ddl =
    | AddColumn(table: TableName, column: ColumnName, def: ColumnDef)
    | ModifyColumn(table: TableName, column: ColumnName, def: ColumnDef)
    | AddUnique(table: TableName, index: IndexName, columns: seq<ColumnName>)
    | DropIndex(table: TableName, index: IndexName)
    | AddForeignKey(table: TableName, fk: FkName, column: ColumnName, action: FkAction)

  datatype Dml =
    | DeleteOrphans(table: TableName, column: ColumnName)
    | NullOrphanRefs(table: TableName, column: ColumnName)
    | DeleteRows(table: TableName)
    | DeleteWatermarks
    | PutSetting(key: SettingKey, value: string)
    | DeleteSetting(key: SettingKey)
    | PromoteAdmins
    | RecordVersion(version: nat)

  /** What the engine demands before it runs a DDL statement; anything else is an error that aborts the start. */
  predicate DdlAllowed(s: State, q: Ddl) {
    q.table in s.tables && Users in s.tables &&
    var t := s.tables[q.table];
    match q
    case AddColumn(_, c, _) => c !in t.columns
    case ModifyColumn(_, c, def) => c in t.columns && AllFit(t.rows, c, def)
    case AddUnique(_, n, cols) =>
      n !in t.indexes && (forall k :: 0 <= k < |cols| ==> cols[k] in t.columns) && Distinct(t.rows, cols)
    case DropIndex(_, n) => n in t.indexes
    case AddForeignKey(_, n, c, action) =>
      n !in t.foreignKeys && c in t.columns && NoOrphans(t.rows, c, UserIds(s)) &&
      (action.SetNull? ==> t.columns[c].nullable)
  }

  /** A reference is taken only when every value in its column is NULL or a user's id. */
  lemma WhatAForeignKeyNeeds(s: State, n: TableName, fk: FkName, c: ColumnName, action: FkAction)
    requires n in s.tables && Users in s.tables
    ensures DdlAllowed(s, AddForeignKey(n, fk, c, action)) <==>
      var t := s.tables[n];
      && fk !in t.foreignKeys && c in t.columns && (action == SetNull ==> t.columns[c].nullable)
      && forall row :: row in t.rows && c in row && row[c] != Null ==>
           exists u :: u in s.tables[Users].rows && Id in u && u[Id] == row[c]
  {
    var rows, ids := s.tables[n].rows, UserIds(s);
    if NoOrphans(rows, c, ids) {
      forall row | row in rows && c in row && row[c] != Null
        ensures exists u :: u in s.tables[Users].rows && Id in u && u[Id] == row[c]
      {
        assert !Orphan(row, c, ids);
      }
    }
  }

  /** A unique key is taken only when no two rows have the same values in all its columns, none of them NULL. */
  lemma WhatAUniqueKeyNeeds(s: State, n: TableName, index: IndexName, cols: seq<ColumnName>)
    requires n in s.tables && Users in s.tables
    ensures DdlAllowed(s, AddUnique(n, index, cols)) <==>
      var t := s.tables[n];
      && index !in t.indexes && (forall c :: c in cols ==> c in t.columns)
      && forall i, j :: 0 <= i < j < |t.rows| ==> TheyDiffer(t.rows[i], t.rows[j], cols)
  {
    var t := s.tables[n];
    forall i, j | 0 <= i < j < |t.rows|
      ensures Collide(t.rows[i], t.rows[j], cols) <==> !TheyDiffer(t.rows[i], t.rows[j], cols)
    {
      CollisionByColumn(t.rows[i], t.rows[j], cols);
    }
    hide Collide, TheyDiffer;
    assert Distinct(t.rows, cols) <==> forall i, j :: 0 <= i < j < |t.rows| ==> TheyDiffer(t.rows[i], t.rows[j], cols);
    assert (forall k :: 0 <= k < |cols| ==> cols[k] in t.columns) <==> forall c :: c in cols ==> c in t.columns;
  }

  /** In one of the columns, or by a NULL in it. */
  ghost predicate TheyDiffer(a: Row, b: Row, cols: seq<ColumnName>) {
    exists c :: c in cols && !(c in a && c in b && a[c] == b[c] && a[c] != Null)
  }

  lemma CollisionByColumn(a: Row, b: Row, cols: seq<ColumnName>)
    ensures Collide(a, b, cols) <==> !TheyDiffer(a, b, cols)
  {
    if Collide(a, b, cols) {
      forall c | c in cols
        ensures c in a && c in b && a[c] == b[c] && a[c] != Null
      {
        var k :| 0 <= k < |cols| && cols[k] == c;
      }
    }
  }

  /** A column takes a definition only when every row's value is of it: NULL where it may be, a role the ENUM lists. */
  lemma WhatADefinitionNeeds(s: State, n: TableName, c: ColumnName, def: ColumnDef)
    requires n in s.tables && Users in s.tables
    ensures DdlAllowed(s, ModifyColumn(n, c, def)) <==>
      && c in s.tables[n].columns
      && forall row :: row in s.tables[n].rows ==>
           && c in row && (row[c] == Null ==> def.nullable)
           && (def.sqlType.Enum? && row[c] != Null ==>
                 exists role :: role in def.sqlType.values && row[c] == RoleValue(role))
  {
    var rows := s.tables[n].rows;
    if AllFit(rows, c, def) {
      forall row | row in rows
        ensures c in row && Fits(row[c], def)
      {
        var i :| 0 <= i < |rows| && rows[i] == row;
      }
    }
  }

  function AlterTable(t: Table, q: Ddl): Table {
    match q
    case AddColumn(_, c, def) => t.(columns := t.columns[c := def], rows := Widen(t.rows, c, def.initial))
    case ModifyColumn(_, c, def) => t.(columns := t.columns[c := def])
    case AddUnique(_, n, cols) => t.(indexes := t.indexes[n := Index(cols, true)])
    case DropIndex(_, n) => t.(indexes := t.indexes - {n})
    case AddForeignKey(_, n, c, action) => t.(foreignKeys := t.foreignKeys[n := ForeignKey(c, action)])
  }

  function Alter(s: State, q: Ddl): State
    requires q.table in s.tables
  {
    s.(tables := s.tables[q.table := AlterTable(s.tables[q.table], q)])
  }

  predicate DmlAllowed(s: State, q: Dml) {
    match q
    case DeleteOrphans(t, _) => t in s.tables && Users in s.tables
    case NullOrphanRefs(t, c) =>
      t in s.tables && Users in s.tables && c in s.tables[t].columns &&
      (s.tables[t].columns[c].nullable || NoOrphans(s.tables[t].rows, c, UserIds(s)))
    case DeleteRows(t) => t in s.tables
    case PromoteAdmins =>
      Users in s.tables && RoleColumn in s.tables[Users].columns &&
      var role := s.tables[Users].columns[RoleColumn].sqlType;
      role.Enum? && SuperAdmin in role.values
    case RecordVersion(v) => v !in s.applied
    case _ => true
  }

  function Edit(s: State, q: Dml): State
    requires DmlAllowed(s, q)
  {
    match q
    case DeleteOrphans(t, c) =>
      s.(tables := s.tables[t := s.tables[t].(rows := Keep(s.tables[t].rows, c, UserIds(s)))])
    case NullOrphanRefs(t, c) =>
      s.(tables := s.tables[t := s.tables[t].(rows := NullOrphans(s.tables[t].rows, c, UserIds(s)))])
    case DeleteRows(t) => s.(tables := s.tables[t := s.tables[t].(rows := [])])
    case DeleteWatermarks => s.(settings := WithoutWatermarks(s.settings))
    case PutSetting(k, v) => s.(settings := s.settings[k := v])
    case DeleteSetting(k) => s.(settings := s.settings - {k})
    case PromoteAdmins =>
      s.(tables := s.tables[Users := s.tables[Users].(rows := PromoteRows(s.tables[Users].rows))],
         promotions := s.promotions + 1)
    case RecordVersion(v) => s.(applied := s.applied + {v})
  }

  function WithoutWatermarks(settings: map<SettingKey, string>): map<SettingKey, string> {
    map k | k in settings && !k.Watermark? :: settings[k]
  }

  // ── The connection ──────────────────────────────────────────────────────────────────────────────────────────

  /** One database and the single connection a start works through: what is committed, and the open transaction. */
  class Database {
    var durable: State
    var work: State

    constructor (s: State)
      ensures durable == work == s
    {
      durable, work := s, s;
    }

    /** The process dies: whatever was not committed is gone. */
    method Die() returns (r: Outcome)
      modifies this
      ensures r == Crashed && durable == old(durable) && work == durable
    {
      work := durable;
      r := Crashed;
    }

    /** One DDL statement: an implicit commit, then the statement, which commits itself.  The process may die before,
        between or after. */
    method RunDdl(q: Ddl) returns (r: Outcome)
      modifies this
      ensures r.Done? ==> DdlAllowed(old(work), q) && work == durable == Alter(old(work), q)
      ensures r.EngineError? ==> !DdlAllowed(old(work), q) && work == durable == old(work)
      ensures r.Crashed? ==>
        work == durable &&
        (durable == old(durable) || durable == old(work) ||
         (DdlAllowed(old(work), q) && durable == Alter(old(work), q)))
    {
      if * {
        r := Die();
        return;
      }
      durable := work;
      if * {
        r := Die();
        return;
      }
      if !DdlAllowed(work, q) {
        return EngineError;
      }
      work := Alter(work, q);
      durable := work;
      if * {
        r := Die();
        return;
      }
      return Done;
    }

    /** One DML statement in the open transaction. */
    method RunDml(q: Dml) returns (r: Outcome)
      modifies this
      ensures durable == old(durable)
      ensures r.Done? ==> DmlAllowed(old(work), q) && work == Edit(old(work), q)
      ensures r.EngineError? ==> !DmlAllowed(old(work), q) && work == durable
      ensures r.Crashed? ==> work == durable
    {
      if * {
        r := Die();
        return;
      }
      if !DmlAllowed(work, q) {
        work := durable;
        return EngineError;
      }
      work := Edit(work, q);
      return Done;
    }

    method Commit() returns (r: Outcome)
      modifies this
      ensures !r.EngineError?
      ensures r.Done? ==> work == durable == old(work)
      ensures r.Crashed? ==> work == durable && (durable == old(durable) || durable == old(work))
    {
      if * {
        r := Die();
        return;
      }
      durable := work;
      if * {
        r := Die();
        return;
      }
      return Done;
    }
  }
}
