/** Migrations 6, 22 and 23: roles, single sign-on identities and the references to a user. */
module UserMigrations {
  import opened Outcomes
  import opened Schema
  import opened Migrations
  import opened UserReferences

  // ── Migration 6: the three-tier roles and the one-time promotion ────────────────────────────────────────────

  function Roles(t: Table): (r: seq<Value>)
    ensures |r| == |t.rows|
  {
    seq(|t.rows|, i requires 0 <= i < |t.rows| => if RoleColumn in t.rows[i] then t.rows[i][RoleColumn] else Null)
  }

  /** What the committed state may hold while migration 6 of `s` is unfinished: no promotion yet, or exactly one that
      was due. */
  ghost predicate PromotedAtMostOnce(s: State, d: State)
    requires AllTables(s) && AllTables(d)
  {
    || (d.promotions == s.promotions && Roles(d.tables[Users]) == Roles(s.tables[Users]))
    || (d.promotions == s.promotions + 1 && PromotionDue(s) && PromotionPending !in d.settings &&
        Roles(d.tables[Users]) == Roles(s.tables[Users].(rows := PromoteRows(s.tables[Users].rows))))
  }

  lemma EveryRoleIsListed(role: Role)
    ensures role in {SuperAdmin, Admin, Viewer}
  {
  }

  lemma M006Expand(s: State, w: State)
    requires AllTables(s) && OnTheWay(6, s, w) && Legacy(w.tables[Users]) && PromotionPending in w.settings
    ensures DdlAllowed(w, ModifyColumn(Users, RoleColumn, ROLE_DEF))
    ensures OnTheWay(6, s, Alter(w, ModifyColumn(Users, RoleColumn, ROLE_DEF)))
  {
    var rows := w.tables[Users].rows;
    OnTheWayIsSound(6, s, w);
    forall i | 0 <= i < |rows|
      ensures RoleColumn in rows[i] && Fits(rows[i][RoleColumn], ROLE_DEF)
    {
      EveryRoleIsListed(rows[i][RoleColumn].role);
    }
    var t := AlterTable(w.tables[Users], ModifyColumn(Users, RoleColumn, ROLE_DEF));
    assert Shaped(w.tables[Users]) && NoSubjectsYet(w.tables[Users]);
    TableSwapped(w, Users, t);
    hide Sound, OnTheWay;
    assert !Legacy(t) && PromotionDue(w);
    assert ThreeTier(At(w, Users, t)) == ThreeTier(w);
    SwapAlong(6, s, w, Users, t);
  }

  lemma M006Mark(s: State)
    requires Sound(s) && Legacy(s.tables[Users])
    ensures OnTheWay(6, s, Edit(s, PutSetting(PromotionPending, "1")))
  {
    hide Sound, OnTheWay;
    var x := Edit(s, PutSetting(PromotionPending, "1"));
    Begin(6, s);
    SettingsAside(s, x.settings, s.promotions);
    assert x.settings - {PromotionPending} == s.settings - {PromotionPending};
    assert ThreeTier(x) == ThreeTier(s);
    Along(6, s, s, x);
  }

  /** The UPDATE and the marker's DELETE, in one transaction. */
  function Promoted(w: State): State
    requires Users in w.tables
  {
    At(w, Users, w.tables[Users].(rows := PromoteRows(w.tables[Users].rows)))
      .(settings := w.settings - {PromotionPending}, promotions := w.promotions + 1)
  }

  lemma PromotedEndsTheSame(w: State)
    requires AllTables(w) && !Legacy(w.tables[Users]) && PromotionPending in w.settings
    ensures ThreeTier(Promoted(w)) == ThreeTier(w)
  {
    var x := Promoted(w);
    assert !PromotionDue(x) && PromotionDue(w);
    assert x.settings - {PromotionPending} == w.settings - {PromotionPending};
  }

  lemma M006Promote(s: State, w: State)
    requires AllTables(s) && OnTheWay(6, s, w) && !Legacy(w.tables[Users]) && PromotionPending in w.settings
    ensures OnTheWay(6, s, Promoted(w))
  {
    var x, t := Promoted(w), w.tables[Users];
    OnTheWayIsSound(6, s, w);
    assert Shaped(t) && RolesHeld(t) && NoSubjectsYet(t);
    PromotingKeepsTheRest(t);
    PromotedEndsTheSame(w);
    hide Sound, OnTheWay, Shaped, RolesHeld, NoSubjectsYet, ThreeTier, PromoteRows;
    TableSwapped(w, Users, t.(rows := PromoteRows(t.rows)));
    SettingsAside(At(w, Users, t.(rows := PromoteRows(t.rows))), x.settings, x.promotions);
    Along(6, s, w, x);
  }

  lemma PromotingKeepsTheRest(t: Table)
    requires Shaped(t) && RolesHeld(t) && NoSubjectsYet(t)
    ensures
      var u := t.(rows := PromoteRows(t.rows));
      Shaped(u) && RolesHeld(u) && NoSubjectsYet(u)
  {
    assert forall i :: 0 <= i < |t.rows| ==> PromoteRows(t.rows)[i] == PromoteRow(t.rows[i]);
  }

  lemma M006Scope(s: State, w: State)
    requires AllTables(s) && OnTheWay(6, s, w) && !PromotionDue(w) && SubnetAccess !in w.tables[Users].columns
    ensures DdlAllowed(w, AddColumn(Users, SubnetAccess, SUBNET_ACCESS_DEF))
    ensures OnTheWay(6, s, Alter(w, AddColumn(Users, SubnetAccess, SUBNET_ACCESS_DEF)))
  {
    hide Sound, OnTheWay;
    OnTheWayIsSound(6, s, w);
    AddingAColumnIsSound(w, Users, SubnetAccess, SUBNET_ACCESS_DEF);
    var t := AlterTable(w.tables[Users], AddColumn(Users, SubnetAccess, SUBNET_ACCESS_DEF));
    assert w.settings - {PromotionPending} == w.settings;
    assert ThreeTier(At(w, Users, t)) == ThreeTier(w);
    SwapAlong(6, s, w, Users, t);
  }

  lemma M006Done(s: State, w: State)
    requires AllTables(s) && OnTheWay(6, s, w)
    requires !PromotionDue(w) && SubnetAccess in w.tables[Users].columns
    ensures Finished(6, s, Done, w, w)
  {
    assert w.settings - {PromotionPending} == w.settings;
    Finish(6, s, w);
  }

  /** The decision is recorded before the ENUM it is read from changes, and the UPDATE goes with the marker's DELETE. */
  method M006SuperadminRole(db: Database) returns (r: Outcome)
    requires db.work == db.durable && Sound(db.work)
    modifies db
    ensures Finished(6, old(db.work), r, db.durable, db.work)
    ensures PromotedAtMostOnce(old(db.work), db.durable)
    ensures r.Done? ==> PromotedAtMostOnce(old(db.work), db.work)
  {
    hide Sound, OnTheWay, Target;
    ghost var s := db.work;
    Begin(6, s);
    if Legacy(db.work.tables[Users]) {
      M006Mark(s);
      :- db.RunDml(PutSetting(PromotionPending, "1"));
      M006Expand(s, db.work);
      :- Advance(db, ModifyColumn(Users, RoleColumn, ROLE_DEF), 6, s);
    }
    if PromotionPending in db.work.settings {
      ghost var w := db.work;
      M006Promote(s, w);
      :- db.RunDml(PromoteAdmins);
      :- db.RunDml(DeleteSetting(PromotionPending));
      assert db.work == Promoted(w);
    }
    if SubnetAccess !in db.work.tables[Users].columns {
      M006Scope(s, db.work);
      :- Advance(db, AddColumn(Users, SubnetAccess, SUBNET_ACCESS_DEF), 6, s);
    }
    M006Done(s, db.work);
    return Done;
  }

  // ── Migration 22: single sign-on identities ─────────────────────────────────────────────────────────────────

  lemma M022AddProvider(s: State, w: State)
    requires AllTables(s) && OnTheWay(22, s, w) && AuthProvider !in w.tables[Users].columns
    ensures DdlAllowed(w, AddColumn(Users, AuthProvider, AUTH_PROVIDER_DEF))
    ensures OnTheWay(22, s, Alter(w, AddColumn(Users, AuthProvider, AUTH_PROVIDER_DEF)))
  {
    hide Sound, OnTheWay;
    OnTheWayIsSound(22, s, w);
    AddingAColumnIsSound(w, Users, AuthProvider, AUTH_PROVIDER_DEF);
    SwapAlong(22, s, w, Users, AlterTable(w.tables[Users], AddColumn(Users, AuthProvider, AUTH_PROVIDER_DEF)));
  }

  lemma M022AddSubject(s: State, w: State)
    requires AllTables(s) && OnTheWay(22, s, w)
    requires AuthProvider in w.tables[Users].columns && ExternalId !in w.tables[Users].columns
    ensures DdlAllowed(w, AddColumn(Users, ExternalId, EXTERNAL_ID_DEF))
    ensures OnTheWay(22, s, Alter(w, AddColumn(Users, ExternalId, EXTERNAL_ID_DEF)))
  {
    hide Sound, OnTheWay;
    OnTheWayIsSound(22, s, w);
    AddingAColumnIsSound(w, Users, ExternalId, EXTERNAL_ID_DEF);
    SwapAlong(22, s, w, Users, AlterTable(w.tables[Users], AddColumn(Users, ExternalId, EXTERNAL_ID_DEF)));
  }

  /** The key cannot meet a duplicate: until it exists every subject is NULL, and NULLs never collide. */
  lemma M022AddKey(s: State, w: State)
    requires AllTables(s) && OnTheWay(22, s, w)
    requires {AuthProvider, ExternalId} <= w.tables[Users].columns.Keys && UqProviderExt !in w.tables[Users].indexes
    ensures DdlAllowed(w, AddUnique(Users, UqProviderExt, PROVIDER_KEY))
    ensures OnTheWay(22, s, Alter(w, AddUnique(Users, UqProviderExt, PROVIDER_KEY)))
  {
    OnTheWayIsSound(22, s, w);
    var rows, t := w.tables[Users].rows, AlterTable(w.tables[Users], AddUnique(Users, UqProviderExt, PROVIDER_KEY));
    assert Shaped(w.tables[Users]) && RolesHeld(w.tables[Users]) && NoSubjectsYet(w.tables[Users]);
    forall i, j | 0 <= i < j < |rows|
      ensures !Collide(rows[i], rows[j], PROVIDER_KEY)
    {
      assert PROVIDER_KEY[1] == ExternalId;
    }
    hide Sound, OnTheWay;
    TableSwapped(w, Users, t);
    SwapAlong(22, s, w, Users, t);
  }

  lemma M022Done(s: State, w: State)
    requires AllTables(s) && OnTheWay(22, s, w)
    requires {AuthProvider, ExternalId} <= w.tables[Users].columns.Keys && UqProviderExt in w.tables[Users].indexes
    ensures Finished(22, s, Done, w, w)
  {
    Finish(22, s, w);
  }

  method M022UsersOidcColumns(db: Database) returns (r: Outcome)
    requires db.work == db.durable && Sound(db.work)
    modifies db
    ensures Finished(22, old(db.work), r, db.durable, db.work)
  {
    hide Sound, OnTheWay, Target;
    ghost var s := db.work;
    Begin(22, s);
    if AuthProvider !in db.work.tables[Users].columns {
      M022AddProvider(s, db.work);
      :- Advance(db, AddColumn(Users, AuthProvider, AUTH_PROVIDER_DEF), 22, s);
    }
    assert OnTheWay(22, s, db.work) && AuthProvider in db.work.tables[Users].columns;
    if ExternalId !in db.work.tables[Users].columns {
      M022AddSubject(s, db.work);
      :- Advance(db, AddColumn(Users, ExternalId, EXTERNAL_ID_DEF), 22, s);
    }
    assert OnTheWay(22, s, db.work) && {AuthProvider, ExternalId} <= db.work.tables[Users].columns.Keys;
    if UqProviderExt !in db.work.tables[Users].indexes {
      M022AddKey(s, db.work);
      :- Advance(db, AddUnique(Users, UqProviderExt, PROVIDER_KEY), 22, s);
    }
    M022Done(s, db.work);
    return Done;
  }

  // ── Migration 23: foreign keys to users ─────────────────────────────────────────────────────────────────────

  /** One table of `w` replaced by one that ends up the same: the migration is still on its way. */
  lemma M023Replace(s: State, w: State, n: TableName, t: Table)
    requires AllTables(s) && OnTheWay(23, s, w) && n != Users && n != ClientProblems
    requires Referenced(n, t, UserIds(w)) == Referenced(n, w.tables[n], UserIds(w))
    requires Shaped(t) && t.columns.Keys == w.tables[n].columns.Keys
    ensures OnTheWay(23, s, At(w, n, t))
  {
    hide Sound, OnTheWay, Referenced;
    OnTheWayIsSound(23, s, w);
    TableSwapped(w, n, t);
    SameReferences(w, n, t);
    SwapAlong(23, s, w, n, t);
  }

  lemma SameReferences(w: State, n: TableName, t: Table)
    requires AllTables(w) && n != Users
    requires Referenced(n, t, UserIds(w)) == Referenced(n, w.tables[n], UserIds(w))
    ensures AllReferenced(At(w, n, t)) == AllReferenced(w)
  {
    hide Referenced;
    var x := At(w, n, t);
    assert UserIds(x) == UserIds(w);
    assert AllReferenced(x).tables == AllReferenced(w).tables;
  }

  ghost predicate Settled(n: TableName, w: State)
    requires AllTables(w)
  {
    Referenced(n, w.tables[n], UserIds(w)) == w.tables[n]
  }

  /** DELETE the orphans of one table, then its foreign key; the DELETE is committed by the ALTER it makes possible. */
  method M023CascadeOne(db: Database, n: TableName, ghost s: State) returns (r: Outcome)
    requires n in CASCADE_TABLES
    requires AllTables(s) && OnTheWay(23, s, db.durable) && OnTheWay(23, s, db.work)
    requires HalfWay(s, db.durable) && HalfWay(s, db.work)
    modifies db
    ensures !r.EngineError?
    ensures OnTheWay(23, s, db.durable) && HalfWay(s, db.durable)
    ensures r.Crashed? ==> db.work == db.durable
    ensures r.Done? ==> OnTheWay(23, s, db.work) && HalfWay(s, db.work) && Settled(n, db.work)
    ensures r.Done? ==> db.work == At(old(db.work), n, db.work.tables[n])
  {
    hide Sound, OnTheWay, Target, RefRows;
    ghost var w := db.work;
    M023Orphans(s, w, n);
    ReplacedRows(s, w, n, Edit(w, DeleteOrphans(n, UserId)).tables[n]);
    :- db.RunDml(DeleteOrphans(n, UserId));
    if FkUserId(n) !in db.work.tables[n].foreignKeys {
      M023AddKey(s, db.work, n);
      ReplacedRows(s, db.work, n, Alter(db.work, AddForeignKey(n, FkUserId(n), UserId, Cascade)).tables[n]);
      :- Advance(db, AddForeignKey(n, FkUserId(n), UserId, Cascade), 23, s);
    }
    assert db.work == At(w, n, db.work.tables[n]);
    return Done;
  }

  lemma M023Orphans(s: State, w: State, n: TableName)
    requires AllTables(s) && OnTheWay(23, s, w) && n in CASCADE_TABLES
    ensures OnTheWay(23, s, Edit(w, DeleteOrphans(n, UserId)))
  {
    var x := Edit(w, DeleteOrphans(n, UserId));
    var rows, kept := w.tables[n].rows, x.tables[n].rows;
    KeepIsFromRows(rows, UserId, UserIds(w));
    assert Shaped(x.tables[n]) by {
      OnTheWayIsSound(23, s, w);
      assert Shaped(w.tables[n]);
      assert forall i :: 0 <= i < |kept| ==> kept[i] in rows;
    }
    hide Sound, OnTheWay;
    M023Replace(s, w, n, x.tables[n]);
  }

  lemma M023AddKey(s: State, w: State, n: TableName)
    requires AllTables(s) && OnTheWay(23, s, w) && n in CASCADE_TABLES
    requires FkUserId(n) !in w.tables[n].foreignKeys && NoOrphans(w.tables[n].rows, UserId, UserIds(w))
    ensures DdlAllowed(w, AddForeignKey(n, FkUserId(n), UserId, Cascade))
    ensures OnTheWay(23, s, Alter(w, AddForeignKey(n, FkUserId(n), UserId, Cascade)))
  {
    assert Shaped(w.tables[n]) by {
      OnTheWayIsSound(23, s, w);
    }
    assert UserId in w.tables[n].columns by {
      OnTheWayIsSound(23, s, w);
    }
    hide Sound, OnTheWay;
    M023Replace(s, w, n, Alter(w, AddForeignKey(n, FkUserId(n), UserId, Cascade)).tables[n]);
  }

  lemma CascadeTablesDistinct(j: nat, k: nat)
    requires j < k < |CASCADE_TABLES|
    ensures CASCADE_TABLES[j] != CASCADE_TABLES[k]
  {
  }

  lemma SettledKept(w: State, n: TableName, t: Table, m: TableName)
    requires AllTables(w) && n != Users && m != n && Settled(m, w)
    ensures Settled(m, At(w, n, t))
  {
    assert UserIds(At(w, n, t)) == UserIds(w);
  }

  lemma M023Creator(s: State, w: State, t: Table)
    requires AllTables(s) && OnTheWay(23, s, w)
    requires
      || (!w.tables[ApiKeys].columns[CreatedBy].nullable &&
          t == w.tables[ApiKeys].(columns := w.tables[ApiKeys].columns[CreatedBy := CREATED_BY_DEF]))
      || (w.tables[ApiKeys].columns[CreatedBy].nullable &&
          t == w.tables[ApiKeys].(rows := NullOrphans(w.tables[ApiKeys].rows, CreatedBy, UserIds(w))))
      || (w.tables[ApiKeys].columns[CreatedBy].nullable && FkCreatedBy !in w.tables[ApiKeys].foreignKeys &&
          var foreignKeys := w.tables[ApiKeys].foreignKeys[FkCreatedBy := ForeignKey(CreatedBy, SetNull)];
          t == w.tables[ApiKeys].(foreignKeys := foreignKeys))
    ensures OnTheWay(23, s, At(w, ApiKeys, t))
  {
    assert Shaped(w.tables[ApiKeys]) && CreatedBy in w.tables[ApiKeys].columns by {
      OnTheWayIsSound(23, s, w);
    }
    hide Sound, OnTheWay;
    M023Replace(s, w, ApiKeys, t);
  }

  lemma CreatorFits(w: State)
    requires Sound(w)
    ensures CreatedBy in w.tables[ApiKeys].columns
    ensures AllFit(w.tables[ApiKeys].rows, CreatedBy, CREATED_BY_DEF)
  {
    assert Shaped(w.tables[ApiKeys]);
  }

  lemma M023Done(s: State, w: State)
    requires AllTables(s) && OnTheWay(23, s, w)
    requires forall j :: 0 <= j < |CASCADE_TABLES| ==> Settled(CASCADE_TABLES[j], w)
    requires Settled(ApiKeys, w)
    ensures Finished(23, s, Done, w, w)
  {
    hide Sound;
    assert AllReferenced(w).tables == w.tables;
    Finish(23, s, w);
  }

  /** The creator of an API key becomes nullable, a dead one NULL, and only then a reference. */
  method M023Creators(db: Database, ghost s: State) returns (r: Outcome)
    requires AllTables(s) && OnTheWay(23, s, db.durable) && OnTheWay(23, s, db.work)
    requires HalfWay(s, db.durable) && HalfWay(s, db.work)
    modifies db
    ensures !r.EngineError?
    ensures OnTheWay(23, s, db.durable) && HalfWay(s, db.durable)
    ensures r.Crashed? ==> db.work == db.durable
    ensures r.Done? ==> OnTheWay(23, s, db.work) && HalfWay(s, db.work) && Settled(ApiKeys, db.work)
    ensures r.Done? ==> db.work == At(old(db.work), ApiKeys, db.work.tables[ApiKeys])
  {
    hide Sound, OnTheWay, Target, Referenced, Finished, RefRows;
    OnTheWayIsSound(23, s, db.work);
    CreatorFits(db.work);
    if !db.work.tables[ApiKeys].columns[CreatedBy].nullable {
      M023Creator(s, db.work, Alter(db.work, ModifyColumn(ApiKeys, CreatedBy, CREATED_BY_DEF)).tables[ApiKeys]);
      ReplacedRows(s, db.work, ApiKeys,
                   Alter(db.work, ModifyColumn(ApiKeys, CreatedBy, CREATED_BY_DEF)).tables[ApiKeys]);
      :- Advance(db, ModifyColumn(ApiKeys, CreatedBy, CREATED_BY_DEF), 23, s);
    }
    r := M023CreatorKey(db, s);
  }

  /** A dead creator becomes NULL, and only then the column a reference. */
  method M023CreatorKey(db: Database, ghost s: State) returns (r: Outcome)
    requires AllTables(s) && OnTheWay(23, s, db.durable) && OnTheWay(23, s, db.work)
    requires HalfWay(s, db.durable) && HalfWay(s, db.work)
    requires CreatedBy in db.work.tables[ApiKeys].columns && db.work.tables[ApiKeys].columns[CreatedBy].nullable
    modifies db
    ensures !r.EngineError?
    ensures OnTheWay(23, s, db.durable) && HalfWay(s, db.durable)
    ensures r.Crashed? ==> db.work == db.durable
    ensures r.Done? ==> OnTheWay(23, s, db.work) && HalfWay(s, db.work) && Settled(ApiKeys, db.work)
    ensures r.Done? ==> db.work == At(old(db.work), ApiKeys, db.work.tables[ApiKeys])
  {
    hide Sound, OnTheWay, Target, Referenced, Finished, RefRows;
    M023Creator(s, db.work, Edit(db.work, NullOrphanRefs(ApiKeys, CreatedBy)).tables[ApiKeys]);
    ReplacedRows(s, db.work, ApiKeys, Edit(db.work, NullOrphanRefs(ApiKeys, CreatedBy)).tables[ApiKeys]);
    :- db.RunDml(NullOrphanRefs(ApiKeys, CreatedBy));
    if FkCreatedBy !in db.work.tables[ApiKeys].foreignKeys {
      M023Creator(s, db.work, Alter(db.work, AddForeignKey(ApiKeys, FkCreatedBy, CreatedBy, SetNull)).tables[ApiKeys]);
      ReplacedRows(s, db.work, ApiKeys,
                   Alter(db.work, AddForeignKey(ApiKeys, FkCreatedBy, CreatedBy, SetNull)).tables[ApiKeys]);
      :- Advance(db, AddForeignKey(ApiKeys, FkCreatedBy, CreatedBy, SetNull), 23, s);
    }
    CreatorSettled(db.work);
    return Done;
  }

  method M023UserForeignKeys(db: Database) returns (r: Outcome)
    requires db.work == db.durable && Sound(db.work)
    modifies db
    ensures Finished(23, old(db.work), r, db.durable, db.work)
    ensures RefsKept(old(db.work), db.durable)
  {
    hide Sound, OnTheWay, Target, Referenced, RefRows;
    ghost var s := db.work;
    Begin(23, s);
    NothingHappened(s);
    for k := 0 to |CASCADE_TABLES|
      invariant OnTheWay(23, s, db.durable) && OnTheWay(23, s, db.work)
      invariant HalfWay(s, db.durable) && HalfWay(s, db.work)
      invariant forall j :: 0 <= j < k ==> Settled(CASCADE_TABLES[j], db.work)
    {
      ghost var w := db.work;
      :- M023CascadeOne(db, CASCADE_TABLES[k], s);
      forall j | 0 <= j < k
        ensures Settled(CASCADE_TABLES[j], db.work)
      {
        CascadeTablesDistinct(j, k);
        SettledKept(w, CASCADE_TABLES[k], db.work.tables[CASCADE_TABLES[k]], CASCADE_TABLES[j]);
      }
    }
    ghost var w := db.work;
    :- M023Creators(db, s);
    forall j | 0 <= j < |CASCADE_TABLES|
      ensures Settled(CASCADE_TABLES[j], db.work)
    {
      SettledKept(w, ApiKeys, db.work.tables[ApiKeys], CASCADE_TABLES[j]);
    }
    M023Done(s, db.work);
    return Done;
  }

  lemma CreatorSettled(w: State)
    requires AllTables(w) && CreatedBy in w.tables[ApiKeys].columns && w.tables[ApiKeys].columns[CreatedBy].nullable
    requires NoOrphans(w.tables[ApiKeys].rows, CreatedBy, UserIds(w)) && FkCreatedBy in w.tables[ApiKeys].foreignKeys
    ensures Settled(ApiKeys, w)
  {
  }
}
