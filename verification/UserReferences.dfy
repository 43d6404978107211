/**
 What the migrations do to the rows that name a user, said of the rows themselves: through any number of starts and
 deaths a row whose user exists stays, and migration 23 drops or clears exactly the references to nobody.
 */
module UserReferences {
  import opened Schema
  import opened Migrations

  // ── What is promised ────────────────────────────────────────────────────────────────────────────────────────

  /** No row of the users table has the id `v`. */
  ghost predicate NamesNobody(v: Value, users: seq<Row>) {
    !v.Null? && forall u :: u in users && Id in u ==> u[Id] != v
  }

  /** The rows, apart from the two columns migration 24 adds to passkeys. */
  function Core(rows: seq<Row>): (r: seq<Row>)
    ensures |r| == |rows| && forall i :: 0 <= i < |r| ==> r[i] == rows[i] - {Transports, Aaguid}
  {
    seq(|rows|, i requires 0 <= i < |rows| => rows[i] - {Transports, Aaguid})
  }

  /** Of a table whose rows go with their user: every row whose user exists, or that names none, is there as often as it
      was; the others are gone when `cleared`. */
  ghost predicate RowsKept(before: seq<Row>, after: seq<Row>, users: seq<Row>, cleared: bool) {
    forall row: Row ::
      if UserId in row && NamesNobody(row[UserId], users) then
        multiset(after)[row] <= multiset(before)[row] && (cleared ==> multiset(after)[row] == 0)
      else multiset(after)[row] == multiset(before)[row]
  }

  /** Of the API keys: each is there, unchanged but for a creator who does not exist, who is NULL when `cleared`. */
  ghost predicate KeysKept(before: seq<Row>, after: seq<Row>, users: seq<Row>, cleared: bool) {
    |after| == |before| && forall i :: 0 <= i < |before| ==> KeyKept(before[i], after[i], users, cleared)
  }

  ghost predicate KeyKept(before: Row, after: Row, users: seq<Row>, cleared: bool) {
    if CreatedBy in before && NamesNobody(before[CreatedBy], users) then
      after == before[CreatedBy := Null] || (!cleared && after == before)
    else after == before
  }

  /** From `s` to `d`, where migration 23 has been recorded in between or not. */
  ghost predicate ReferencesKept(s: State, d: State)
    requires AllTables(s) && AllTables(d)
  {
    var users, cleared := s.tables[Users].rows, 23 in d.applied && 23 !in s.applied;
    && (forall v :: NamesNobody(v, d.tables[Users].rows) <==> NamesNobody(v, users))
    && (forall n :: n in CASCADE_TABLES ==>
          RowsKept(Core(s.tables[n].rows), Core(d.tables[n].rows), users, cleared))
    && KeysKept(s.tables[ApiKeys].rows, d.tables[ApiKeys].rows, users, cleared)
  }

  // ── In terms of the statements ──────────────────────────────────────────────────────────────────────────────

  ghost predicate CascadeRows(before: seq<Row>, after: seq<Row>, ids: set<Value>, cleared: bool) {
    after == Keep(before, UserId, ids) || (!cleared && after == before)
  }

  ghost predicate CreatorRows(before: seq<Row>, after: seq<Row>, ids: set<Value>, cleared: bool) {
    after == NullOrphans(before, CreatedBy, ids) || (!cleared && after == before)
  }

  ghost predicate RefRows(s: State, d: State, cleared: bool)
    requires AllTables(s) && AllTables(d)
  {
    && UserIds(d) == UserIds(s)
    && (forall n :: n in CASCADE_TABLES ==>
          CascadeRows(Core(s.tables[n].rows), Core(d.tables[n].rows), UserIds(s), cleared))
    && CreatorRows(s.tables[ApiKeys].rows, d.tables[ApiKeys].rows, UserIds(s), cleared)
  }

  ghost predicate RefsKept(s: State, d: State)
    requires AllTables(s) && AllTables(d)
  {
    s.applied <= d.applied && RefRows(s, d, 23 in d.applied && 23 !in s.applied)
  }

  /** Somewhere in migration 23. */
  ghost predicate HalfWay(s: State, d: State)
    requires AllTables(s) && AllTables(d)
  {
    d.applied == s.applied && RefRows(s, d, false)
  }

  lemma OrphanNamesNobody(s: State, row: Row, c: ColumnName)
    requires Users in s.tables
    ensures Orphan(row, c, UserIds(s)) <==> c in row && NamesNobody(row[c], s.tables[Users].rows)
  {
    if c in row && row[c] in UserIds(s) {
      var u: Row :| u in s.tables[Users].rows && Id in u && u[Id] == row[c];
    }
  }

  lemma NobodyIsNoId(s: State, v: Value)
    requires Users in s.tables
    ensures NamesNobody(v, s.tables[Users].rows) <==> !v.Null? && v !in UserIds(s)
  {
    if v in UserIds(s) {
      var u: Row :| u in s.tables[Users].rows && Id in u && u[Id] == v;
    }
  }

  lemma CascadeMeans(s: State, before: seq<Row>, after: seq<Row>, cleared: bool)
    requires AllTables(s) && CascadeRows(before, after, UserIds(s), cleared)
    ensures RowsKept(before, after, s.tables[Users].rows, cleared)
  {
    hide Orphan, NamesNobody, UserIds;
    KeepDropsExactlyTheOrphans(before, UserId, UserIds(s));
    forall row: Row
      ensures Orphan(row, UserId, UserIds(s)) <==> UserId in row && NamesNobody(row[UserId], s.tables[Users].rows)
    {
      OrphanNamesNobody(s, row, UserId);
    }
  }

  lemma CreatorsMean(s: State, before: seq<Row>, after: seq<Row>, cleared: bool)
    requires AllTables(s) && CreatorRows(before, after, UserIds(s), cleared)
    ensures KeysKept(before, after, s.tables[Users].rows, cleared)
  {
    hide Orphan, NamesNobody, UserIds;
    forall i | 0 <= i < |before|
      ensures KeyKept(before[i], after[i], s.tables[Users].rows, cleared)
    {
      OrphanNamesNobody(s, before[i], CreatedBy);
    }
  }

  /** What the statements do is what is promised of the rows. */
  lemma RefsKeptMeans(s: State, d: State)
    requires AllTables(s) && AllTables(d) && RefsKept(s, d)
    ensures ReferencesKept(s, d)
  {
    hide UserIds, CascadeRows, CreatorRows, RowsKept, KeysKept, NamesNobody;
    var users, cleared := s.tables[Users].rows, 23 in d.applied && 23 !in s.applied;
    forall v
      ensures NamesNobody(v, d.tables[Users].rows) <==> NamesNobody(v, users)
    {
      NobodyIsNoId(s, v);
      NobodyIsNoId(d, v);
    }
    forall n | n in CASCADE_TABLES
      ensures RowsKept(Core(s.tables[n].rows), Core(d.tables[n].rows), users, cleared)
    {
      CascadeMeans(s, Core(s.tables[n].rows), Core(d.tables[n].rows), cleared);
    }
    CreatorsMean(s, s.tables[ApiKeys].rows, d.tables[ApiKeys].rows, cleared);
  }

  // ── Step by step ────────────────────────────────────────────────────────────────────────────────────────────

  lemma NothingHappened(s: State)
    requires AllTables(s)
    ensures RefsKept(s, s)
  {
  }

  lemma RefsKeptTwice(a: State, b: State, c: State)
    requires AllTables(a) && AllTables(b) && AllTables(c) && RefsKept(a, b) && RefsKept(b, c)
    ensures RefsKept(a, c)
  {
    hide UserIds;
    var ids := UserIds(a);
    var cleared := 23 in c.applied && 23 !in a.applied;
    forall n | n in CASCADE_TABLES
      ensures CascadeRows(Core(a.tables[n].rows), Core(c.tables[n].rows), ids, cleared)
    {
      KeepIsFinal(Core(a.tables[n].rows), ids);
    }
    var keys := a.tables[ApiKeys].rows;
    assert NullOrphans(NullOrphans(keys, CreatedBy, ids), CreatedBy, ids) == NullOrphans(keys, CreatedBy, ids);
  }

  lemma KeepIsFinal(rows: seq<Row>, ids: set<Value>)
    ensures Keep(Keep(rows, UserId, ids), UserId, ids) == Keep(rows, UserId, ids)
  {
  }

  lemma {:induction false} CoreOfKept(rows: seq<Row>, ids: set<Value>)
    ensures Core(Keep(rows, UserId, ids)) == Keep(Core(rows), UserId, ids)
  {
    if rows != [] {
      assert rows == [rows[0]] + rows[1..];
      assert Core(rows)[0] == rows[0] - {Transports, Aaguid} && Core(rows)[1..] == Core(rows[1..]);
      CoreOfKept(rows[1..], ids);
      var rest := Keep(rows[1..], UserId, ids);
      assert Core([rows[0]] + rest) == [rows[0] - {Transports, Aaguid}] + Core(rest);
    } else {
      assert Core([]) == [];
    }
  }

  lemma CascadeAgain(before: seq<Row>, here: seq<Row>, after: seq<Row>, ids: set<Value>)
    requires CascadeRows(before, here, ids, false) && (after == here || after == Keep(here, UserId, ids))
    ensures CascadeRows(before, after, ids, false)
  {
    KeepIsFinal(before, ids);
  }

  lemma CreatorsAgain(before: seq<Row>, here: seq<Row>, after: seq<Row>, ids: set<Value>)
    requires CreatorRows(before, here, ids, false) && (after == here || after == NullOrphans(here, CreatedBy, ids))
    ensures CreatorRows(before, after, ids, false)
  {
    assert NullOrphans(NullOrphans(before, CreatedBy, ids), CreatedBy, ids) == NullOrphans(before, CreatedBy, ids);
  }

  lemma OneCascadeReplaced(before: seq<Row>, here: seq<Row>, after: seq<Row>, ids: set<Value>)
    requires CascadeRows(Core(before), Core(here), ids, false) && (after == here || after == Keep(here, UserId, ids))
    ensures CascadeRows(Core(before), Core(after), ids, false)
  {
    CoreOfKept(here, ids);
    CascadeAgain(Core(before), Core(here), Core(after), ids);
  }

  lemma SameUsers(w: State, n: TableName, t: Table)
    requires AllTables(w) && n != Users
    ensures UserIds(At(w, n, t)) == UserIds(w)
  {
  }

  lemma OneTableReplaced(s: State, w: State, n: TableName, t: Table)
    requires AllTables(s) && AllTables(w) && RefRows(s, w, false) && n != Users
    requires n in CASCADE_TABLES ==> CascadeRows(Core(s.tables[n].rows), Core(t.rows), UserIds(s), false)
    requires n == ApiKeys ==> CreatorRows(s.tables[n].rows, t.rows, UserIds(s), false)
    ensures RefRows(s, At(w, n, t), false)
  {
    SameUsers(w, n, t);
    hide UserIds, CascadeRows, CreatorRows, Core;
  }

  /** One statement of migration 23. */
  lemma ReplacedRows(s: State, w: State, n: TableName, t: Table)
    requires AllTables(s) && AllTables(w) && RefRows(s, w, false) && n != Users
    requires
      || t.rows == w.tables[n].rows
      || (n in CASCADE_TABLES && t.rows == Keep(w.tables[n].rows, UserId, UserIds(w)))
      || (n == ApiKeys && t.rows == NullOrphans(w.tables[n].rows, CreatedBy, UserIds(w)))
    ensures RefRows(s, At(w, n, t), false)
  {
    hide UserIds, CascadeRows, CreatorRows, Core, Keep, NullOrphans;
    var before, here, ids := s.tables[n].rows, w.tables[n].rows, UserIds(s);
    if n in CASCADE_TABLES {
      assert CascadeRows(Core(before), Core(here), ids, false);
      OneCascadeReplaced(before, here, t.rows, ids);
    }
    if n == ApiKeys {
      CreatorsAgain(before, here, t.rows, ids);
    }
    hide RefRows;
    OneTableReplaced(s, w, n, t);
  }

  /** Migration 23 as a whole. */
  lemma AllCleared(s: State)
    requires AllTables(s)
    ensures RefRows(s, AllReferenced(s), true)
  {
    var x := AllReferenced(s);
    assert UserIds(x) == UserIds(s);
    hide UserIds;
    forall n | n in CASCADE_TABLES
      ensures CascadeRows(Core(s.tables[n].rows), Core(x.tables[n].rows), UserIds(s), true)
    {
      CoreOfKept(s.tables[n].rows, UserIds(s));
    }
  }

  // ── The other migrations ────────────────────────────────────────────────────────────────────────────────────

  function Touched(w: nat): set<TableName> {
    match w
    case 3 => {Devices}
    case 4 => {Devices}
    case 6 => {Users}
    case 22 => {Users}
    case 24 => {WebauthnCredentials}
    case 33 => {ClientProblems}
    case 36 => {ClientProblems}
    case _ => (set n | n in CASCADE_TABLES) + {ApiKeys}
  }

  lemma LeavesTheRestAlone(w: nat, s: State, n: TableName)
    requires AllTables(s) && w in REGISTRY && n !in Touched(w)
    ensures Target(w, s).tables[n] == s.tables[n]
  {
  }

  lemma NobodyIsRenamed(v: nat, s: State)
    requires AllTables(s) && v in REGISTRY
    ensures UserIds(Target(v, s)) == UserIds(s)
  {
    if v in {6, 22} {
      var a, b := s.tables[Users].rows, Target(v, s).tables[Users].rows;
      assert |b| == |a|;
      assert forall i :: 0 <= i < |a| ==> (Id in b[i] <==> Id in a[i]) && (Id in a[i] ==> b[i][Id] == a[i][Id]);
      SameIds(s, Target(v, s));
    } else {
      LeavesTheRestAlone(v, s, Users);
      hide Target;
    }
  }

  lemma SameIds(s: State, x: State)
    requires AllTables(s) && AllTables(x)
    requires
      var a, b := s.tables[Users].rows, x.tables[Users].rows;
      |b| == |a| && forall i :: 0 <= i < |a| ==> (Id in b[i] <==> Id in a[i]) && (Id in a[i] ==> b[i][Id] == a[i][Id])
    ensures UserIds(x) == UserIds(s)
  {
    forall v
      ensures v in UserIds(x) <==> v in UserIds(s)
    {
      if v in UserIds(x) {
        var i :| 0 <= i < |x.tables[Users].rows| && Id in x.tables[Users].rows[i] && x.tables[Users].rows[i][Id] == v;
        assert s.tables[Users].rows[i] in s.tables[Users].rows;
      }
      if v in UserIds(s) {
        var i :| 0 <= i < |s.tables[Users].rows| && Id in s.tables[Users].rows[i] && s.tables[Users].rows[i][Id] == v;
        assert x.tables[Users].rows[i] in x.tables[Users].rows;
      }
    }
  }

  lemma CoreIgnores(rows: seq<Row>, c: ColumnName, v: Value)
    requires c in {Transports, Aaguid}
    ensures Core(Widen(rows, c, v)) == Core(rows)
  {
    forall i | 0 <= i < |rows|
      ensures Core(Widen(rows, c, v))[i] == Core(rows)[i]
    {
      assert rows[i][c := v] - {Transports, Aaguid} == rows[i] - {Transports, Aaguid};
    }
  }

  lemma PasskeysKeepTheirCore(t: Table)
    ensures Core(PasskeyReady(t).rows) == Core(t.rows)
  {
    var u := Ensure(t, Transports, TRANSPORTS_DEF);
    CoreIgnores(t.rows, Transports, Null);
    CoreIgnores(u.rows, Aaguid, Null);
  }

  lemma OthersKeepTheRows(v: nat, s: State)
    requires AllTables(s) && v in REGISTRY && v != 23
    ensures UserIds(Target(v, s)) == UserIds(s)
    ensures forall n :: n in CASCADE_TABLES ==> Core(Target(v, s).tables[n].rows) == Core(s.tables[n].rows)
    ensures Target(v, s).tables[ApiKeys] == s.tables[ApiKeys]
  {
    NobodyIsRenamed(v, s);
    LeavesTheRestAlone(v, s, ApiKeys);
    forall n | n in CASCADE_TABLES
      ensures Core(Target(v, s).tables[n].rows) == Core(s.tables[n].rows)
    {
      if v == 24 && n == WebauthnCredentials {
        PasskeysKeepTheirCore(s.tables[n]);
      } else {
        LeavesTheRestAlone(v, s, n);
      }
    }
  }

  /** A state a crash leaves in a migration other than 23. */
  lemma OthersKeepReferences(v: nat, w: State, d: State)
    requires AllTables(w) && v in REGISTRY && v != 23 && OnTheWay(v, w, d)
    ensures RefsKept(w, d)
  {
    OthersKeepTheRows(v, w);
    OthersKeepTheRows(v, d);
    hide Target, UserIds;
  }

  /** The commit that records a migration. */
  lemma RecordingKeepsReferences(v: nat, w: State, d: State)
    requires AllTables(w) && v in REGISTRY && v !in w.applied
    requires d == Target(v, w).(applied := w.applied + {v})
    ensures RefsKept(w, d)
  {
    var x := Target(v, w);
    assert UserIds(d) == UserIds(x);
    if v == 23 {
      AllCleared(w);
    } else {
      OthersKeepTheRows(v, w);
    }
    hide Target, UserIds;
  }
}
