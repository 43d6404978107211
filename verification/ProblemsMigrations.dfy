/** Migrations 33 and 36: the unique key of the Problems table, widened twice. */
module ProblemsMigrations {
  import opened Outcomes
  import opened Schema
  import opened Migrations

  // ── Migration 33: the subnet becomes part of a row's identity ───────────────────────────────────────────────

  ghost predicate Cleared(w: State)
    requires AllTables(w)
  {
    w.tables[ClientProblems].rows == [] && WithoutWatermarks(w.settings) == w.settings
  }

  function Clear(s: State): State
    requires ClientProblems in s.tables
  {
    At(s, ClientProblems, s.tables[ClientProblems].(rows := [])).(settings := WithoutWatermarks(s.settings))
  }

  lemma ProblemsAreSound(w: State)
    requires Sound(w)
    ensures
      var t := w.tables[ClientProblems];
      KeysHeld(t) && Shaped(t) && {ServerId, Kind, Mac, Ip} <= t.columns.Keys && (33 in w.applied ==> ScopeDone(w))
  {
    hide KeysHeld, Shaped;
  }

  lemma ClearedTable(t: Table)
    requires KeysHeld(t) && Shaped(t)
    ensures KeysHeld(t.(rows := [])) && Shaped(t.(rows := []))
  {
  }

  lemma M033Clear(s: State)
    requires Sound(s) && !ScopeDone(s)
    ensures OnTheWay(33, s, Clear(s)) && Cleared(Clear(s))
  {
    hide Sound, OnTheWay;
    var t, x := s.tables[ClientProblems].(rows := []), Clear(s);
    ProblemsAreSound(s);
    Begin(33, s);
    ClearedTable(s.tables[ClientProblems]);
    hide KeysHeld, Shaped;
    TableSwapped(s, ClientProblems, t);
    SettingsAside(At(s, ClientProblems, t), x.settings, s.promotions);
    assert x.settings == WithoutWatermarks(x.settings);
    assert Scoped(x).tables[ClientProblems] == Scoped(s).tables[ClientProblems];
    Along(33, s, s, x);
  }

  /** A cleared Problems table one statement further is still headed for the same end state. */
  lemma SameScoped(w: State, x: State)
    requires AllTables(w) && AllTables(x) && Cleared(w) && Cleared(x) && !ScopeDone(w)
    requires x == At(w, ClientProblems, x.tables[ClientProblems])
    requires
      var t, u := w.tables[ClientProblems], x.tables[ClientProblems];
      && t.(columns := t.columns[ScopeKey := SCOPE_KEY_DEF])
         == u.(columns := u.columns[ScopeKey := SCOPE_KEY_DEF], indexes := t.indexes)
      && (u.indexes == t.indexes ||
          (!ScopeKeyDone(t) && u.indexes == t.indexes[UqClientProblem := Index(SCOPED_KEY, true)]))
    ensures Scoped(x) == Scoped(w)
  {
    var t, u := w.tables[ClientProblems], x.tables[ClientProblems];
    assert ScopeColumnDone(u) ==> u.columns[ScopeKey := SCOPE_KEY_DEF] == u.columns;
    assert Scoped(x).tables[ClientProblems] == Scoped(w).tables[ClientProblems];
    assert Scoped(x).tables == Scoped(w).tables;
  }

  lemma M033Column(s: State, w: State, q: Ddl)
    requires AllTables(s) && OnTheWay(33, s, w) && Cleared(w) && !ScopeColumnDone(w.tables[ClientProblems])
    requires q ==
      if ScopeKey in w.tables[ClientProblems].columns then ModifyColumn(ClientProblems, ScopeKey, SCOPE_KEY_DEF)
      else AddColumn(ClientProblems, ScopeKey, SCOPE_KEY_DEF)
    ensures DdlAllowed(w, q) && OnTheWay(33, s, Alter(w, q)) && Cleared(Alter(w, q))
    ensures ScopeColumnDone(Alter(w, q).tables[ClientProblems])
    ensures Alter(w, q).tables[ClientProblems].indexes == w.tables[ClientProblems].indexes
  {
    OnTheWayIsSound(33, s, w);
    hide Sound, OnTheWay;
    var t := AlterTable(w.tables[ClientProblems], q);
    ProblemsAreSound(w);
    TableSwapped(w, ClientProblems, t);
    SameScoped(w, At(w, ClientProblems, t));
    hide Scoped, KeysHeld, Shaped;
    SwapAlong(33, s, w, ClientProblems, t);
  }

  lemma SameScopedDropped(w: State, x: State)
    requires AllTables(w) && AllTables(x) && Cleared(w) && !ScopeKeyDone(w.tables[ClientProblems])
    requires
      var t := w.tables[ClientProblems];
      x == At(w, ClientProblems, t.(indexes := t.indexes - {UqClientProblem}))
    ensures Scoped(x) == Scoped(w)
  {
    assert Scoped(x).tables[ClientProblems].indexes == Scoped(w).tables[ClientProblems].indexes;
    assert Scoped(x).tables == Scoped(w).tables;
  }

  lemma M033Drop(s: State, w: State)
    requires AllTables(s) && OnTheWay(33, s, w) && Cleared(w)
    requires !ScopeKeyDone(w.tables[ClientProblems]) && UqClientProblem in w.tables[ClientProblems].indexes
    ensures DdlAllowed(w, DropIndex(ClientProblems, UqClientProblem))
    ensures OnTheWay(33, s, Alter(w, DropIndex(ClientProblems, UqClientProblem)))
  {
    OnTheWayIsSound(33, s, w);
    hide Sound, OnTheWay;
    var t := AlterTable(w.tables[ClientProblems], DropIndex(ClientProblems, UqClientProblem));
    ProblemsAreSound(w);
    TableSwapped(w, ClientProblems, t);
    SameScopedDropped(w, At(w, ClientProblems, t));
    hide Scoped, KeysHeld, Shaped;
    SwapAlong(33, s, w, ClientProblems, t);
  }

  lemma KeyedTable(t: Table)
    requires KeysHeld(t) && Shaped(t) && t.rows == [] && ScopeColumnDone(t)
    requires {ServerId, Kind, Mac, Ip} <= t.columns.Keys
    ensures
      var u := AlterTable(t, AddUnique(ClientProblems, UqClientProblem, SCOPED_KEY));
      KeysHeld(u) && Shaped(u) && Distinct(t.rows, SCOPED_KEY)
  {
  }

  lemma M033Key(s: State, w: State)
    requires AllTables(s) && OnTheWay(33, s, w) && Cleared(w) && ScopeColumnDone(w.tables[ClientProblems])
    requires !ScopeKeyDone(w.tables[ClientProblems]) && UqClientProblem !in w.tables[ClientProblems].indexes
    ensures DdlAllowed(w, AddUnique(ClientProblems, UqClientProblem, SCOPED_KEY))
    ensures OnTheWay(33, s, Alter(w, AddUnique(ClientProblems, UqClientProblem, SCOPED_KEY)))
  {
    OnTheWayIsSound(33, s, w);
    hide Sound, OnTheWay;
    var t := AlterTable(w.tables[ClientProblems], AddUnique(ClientProblems, UqClientProblem, SCOPED_KEY));
    ProblemsAreSound(w);
    KeyedTable(w.tables[ClientProblems]);
    hide KeysHeld, Shaped;
    TableSwapped(w, ClientProblems, t);
    SameScoped(w, At(w, ClientProblems, t));
    hide Scoped, KeysHeld, Shaped;
    SwapAlong(33, s, w, ClientProblems, t);
  }

  lemma M033Done(s: State, w: State)
    requires AllTables(s) && OnTheWay(33, s, w) && ScopeDone(w)
    ensures Finished(33, s, Done, w, w)
  {
    Finish(33, s, w);
  }

  method M033SwapKey(db: Database, ghost s: State) returns (r: Outcome)
    requires AllTables(s) && OnTheWay(33, s, db.durable) && OnTheWay(33, s, db.work) && Cleared(db.work)
    requires ScopeColumnDone(db.work.tables[ClientProblems]) && !ScopeKeyDone(db.work.tables[ClientProblems])
    modifies db
    ensures !r.EngineError?
    ensures OnTheWay(33, s, db.durable)
    ensures r.Crashed? ==> db.work == db.durable && Finished(33, s, r, db.durable, db.work)
    ensures r.Done? ==> db.work == db.durable && ScopeDone(db.work)
  {
    hide Sound, OnTheWay, Target, Finished;
    if UqClientProblem in db.work.tables[ClientProblems].indexes {
      M033Drop(s, db.work);
      :- Advance(db, DropIndex(ClientProblems, UqClientProblem), 33, s);
    }
    M033Key(s, db.work);
    :- Advance(db, AddUnique(ClientProblems, UqClientProblem, SCOPED_KEY), 33, s);
    return Done;
  }

  method M033ClientProblemsScopeKey(db: Database) returns (r: Outcome)
    requires db.work == db.durable && Sound(db.work)
    modifies db
    ensures Finished(33, old(db.work), r, db.durable, db.work)
    ensures r.Done? ==> ScopeDone(db.work)
  {
    hide Sound, OnTheWay, Target, Alter, DdlAllowed, Cleared;
    ghost var s := db.work;
    Begin(33, s);
    if ScopeDone(db.work) {
      M033Done(s, db.work);
      return Done;
    }
    var columnOk := ScopeColumnDone(db.work.tables[ClientProblems]);
    var keyOk := ScopeKeyDone(db.work.tables[ClientProblems]);
    M033Clear(s);
    :- db.RunDml(DeleteRows(ClientProblems));
    :- db.RunDml(DeleteWatermarks);
    assert db.work == Clear(s);
    if ScopeKey !in db.work.tables[ClientProblems].columns {
      M033Column(s, db.work, AddColumn(ClientProblems, ScopeKey, SCOPE_KEY_DEF));
      :- Advance(db, AddColumn(ClientProblems, ScopeKey, SCOPE_KEY_DEF), 33, s);
    } else if !columnOk {
      M033Column(s, db.work, ModifyColumn(ClientProblems, ScopeKey, SCOPE_KEY_DEF));
      :- Advance(db, ModifyColumn(ClientProblems, ScopeKey, SCOPE_KEY_DEF), 33, s);
    }
    if !keyOk {
      :- M033SwapKey(db, s);
    }
    M033Done(s, db.work);
    return Done;
  }

  // ── Migration 36: a replaced Kea host is a new generation ───────────────────────────────────────────────────

  ghost predicate RowsKept(t: Table, u: Table) {
    && |u.rows| == |t.rows|
    && (forall i, c :: 0 <= i < |t.rows| && c in t.rows[i] ==> c in u.rows[i] && u.rows[i][c] == t.rows[i][c])
  }

  /** Nothing the Problems table held in `s` is missing from `d`, and at least one unique key is in force. */
  ghost predicate ProblemsKept(s: State, d: State)
    requires AllTables(s) && AllTables(d)
  {
    var t, u := s.tables[ClientProblems], d.tables[ClientProblems];
    ScopeDone(d) && RowsKept(t, u)
  }

  ghost predicate HasUniqueKey(t: Table) {
    exists n :: n in t.indexes && t.indexes[n].unique && Distinct(t.rows, t.indexes[n].columns)
  }

  /** Rows that differ on the narrow key differ on the wide one, so the wider key can never meet a duplicate. */
  lemma NarrowKeyImpliesWide(rows: seq<Row>)
    requires Distinct(rows, SCOPED_KEY)
    ensures Distinct(rows, GENERATION_KEY)
  {
    forall i, j | 0 <= i < j < |rows|
      ensures !Collide(rows[i], rows[j], GENERATION_KEY)
    {
      if Collide(rows[i], rows[j], GENERATION_KEY) {
        forall k | 0 <= k < |SCOPED_KEY|
          ensures SCOPED_KEY[k] in rows[i] && SCOPED_KEY[k] in rows[j] &&
                  rows[i][SCOPED_KEY[k]] == rows[j][SCOPED_KEY[k]] && !rows[i][SCOPED_KEY[k]].Null?
        {
          assert SCOPED_KEY[k] == GENERATION_KEY[if k == 0 then 0 else k + 1];
        }
        assert Collide(rows[i], rows[j], SCOPED_KEY);
      }
    }
  }

  /** A Problems table migration 36 may go through: scoped, keyed, nothing lost and the same end ahead. */
  ghost predicate Scopable(t: Table) {
    && Shaped(t) && KeysHeld(t) && {ServerId, Kind, Mac, Ip} <= t.columns.Keys
    && ScopeColumnDone(t) && ScopeKeyDone(t)
  }

  ghost predicate NextForm(t: Table, u: Table) {
    && Scopable(u) && t.columns.Keys <= u.columns.Keys
    && RowsKept(t, u)
    && Generational(u) == Generational(t)
  }

  lemma GenerationAdded(t: Table)
    requires Scopable(t) && Generation !in t.columns
    ensures NextForm(t, AlterTable(t, AddColumn(ClientProblems, Generation, GENERATION_DEF)))
  {
    WideningKeepsKeys(t, Generation, GENERATION_DEF);
    var u := AlterTable(t, AddColumn(ClientProblems, Generation, GENERATION_DEF));
    assert forall i :: 0 <= i < |u.rows| ==> u.rows[i] == t.rows[i][Generation := IntValue(0)];
  }

  lemma GenerationRedeclared(t: Table)
    requires Scopable(t) && Generation in t.columns
    ensures AllFit(t.rows, Generation, GENERATION_DEF)
    ensures NextForm(t, AlterTable(t, ModifyColumn(ClientProblems, Generation, GENERATION_DEF)))
  {
    var u := AlterTable(t, ModifyColumn(ClientProblems, Generation, GENERATION_DEF));
    assert u.columns.Keys == t.columns.Keys;
  }

  lemma WrongKeyDropped(t: Table)
    requires Scopable(t) && UqClientProblemGen in t.indexes
    requires t.indexes[UqClientProblemGen] != Index(GENERATION_KEY, true)
    ensures NextForm(t, AlterTable(t, DropIndex(ClientProblems, UqClientProblemGen)))
  {
    var u := AlterTable(t, DropIndex(ClientProblems, UqClientProblemGen));
    assert Generational(u).indexes == Generational(t).indexes;
  }

  lemma GenerationKeyed(t: Table)
    requires Scopable(t) && Generation in t.columns && UqClientProblemGen !in t.indexes
    ensures Distinct(t.rows, GENERATION_KEY)
    ensures NextForm(t, AlterTable(t, AddUnique(ClientProblems, UqClientProblemGen, GENERATION_KEY)))
  {
    NarrowKeyImpliesWide(t.rows);
  }

  lemma OldKeyDropped(t: Table)
    requires Scopable(t) && UqClientProblem in t.indexes
    requires UqClientProblemGen in t.indexes && t.indexes[UqClientProblemGen] == Index(GENERATION_KEY, true)
    ensures NextForm(t, AlterTable(t, DropIndex(ClientProblems, UqClientProblem)))
  {
    var u := AlterTable(t, DropIndex(ClientProblems, UqClientProblem));
    assert Generational(u).indexes == Generational(t).indexes;
  }

  lemma StillScopable(s: State, w: State)
    requires AllTables(s) && OnTheWay(36, s, w) && ProblemsKept(s, w)
    ensures Scopable(w.tables[ClientProblems])
  {
    assert Shaped(w.tables[ClientProblems]);
  }

  lemma M036Step(s: State, w: State, q: Ddl)
    requires AllTables(s) && OnTheWay(36, s, w) && ProblemsKept(s, w) && q.table == ClientProblems
    requires NextForm(w.tables[ClientProblems], AlterTable(w.tables[ClientProblems], q))
    ensures OnTheWay(36, s, Alter(w, q)) && ProblemsKept(s, Alter(w, q))
  {
    hide Sound, OnTheWay, Generational, Shaped, KeysHeld, ScopeColumnDone, ScopeKeyDone;
    OnTheWayIsSound(36, s, w);
    var u := AlterTable(w.tables[ClientProblems], q);
    hide AlterTable;
    TableSwapped(w, ClientProblems, u);
    SwapAlong(36, s, w, ClientProblems, u);
  }

  lemma M036Done(s: State, w: State)
    requires AllTables(s) && OnTheWay(36, s, w)
    requires Generation in w.tables[ClientProblems].columns
    requires w.tables[ClientProblems].columns[Generation] == GENERATION_DEF
    requires UqClientProblemGen in w.tables[ClientProblems].indexes
    requires w.tables[ClientProblems].indexes[UqClientProblemGen] == Index(GENERATION_KEY, true)
    requires UqClientProblem !in w.tables[ClientProblems].indexes
    ensures Finished(36, s, Done, w, w)
  {
    var t := w.tables[ClientProblems];
    assert Generational(t).indexes == t.indexes && Generational(t).columns == t.columns;
    Finish(36, s, w);
  }

  method AdvanceProblems(db: Database, q: Ddl, ghost s: State) returns (r: Outcome)
    requires AllTables(s) && OnTheWay(36, s, db.durable) && OnTheWay(36, s, db.work)
    requires ProblemsKept(s, db.durable) && ProblemsKept(s, db.work)
    requires q.table == ClientProblems && DdlAllowed(db.work, q)
    requires NextForm(db.work.tables[ClientProblems], AlterTable(db.work.tables[ClientProblems], q))
    modifies db
    ensures !r.EngineError?
    ensures OnTheWay(36, s, db.durable) && ProblemsKept(s, db.durable)
    ensures r.Crashed? ==> db.work == db.durable && Finished(36, s, r, db.durable, db.work)
    ensures r.Done? ==> db.work == db.durable && Scopable(db.work.tables[ClientProblems])
    ensures r.Done? ==> db.work.tables[ClientProblems] == AlterTable(old(db.work).tables[ClientProblems], q)
  {
    M036Step(s, db.work, q);
    hide Sound, OnTheWay, Target, ProblemsKept, Finished;
    r := Advance(db, q, 36, s);
  }

  method M036ClientProblemsGeneration(db: Database) returns (r: Outcome)
    requires db.work == db.durable && Sound(db.work) && ScopeDone(db.work)
    modifies db
    ensures Finished(36, old(db.work), r, db.durable, db.work)
    ensures ProblemsKept(old(db.work), db.durable)
    ensures r.Done? ==> ProblemsKept(old(db.work), db.work)
  {
    hide Sound, OnTheWay, Target, ProblemsKept, Finished, NextForm, Scopable;
    ghost var s := db.work;
    Begin(36, s);
    NothingLostYet(s);
    StillScopable(s, db.work);
    if Generation !in db.work.tables[ClientProblems].columns {
      GenerationAdded(db.work.tables[ClientProblems]);
      :- AdvanceProblems(db, AddColumn(ClientProblems, Generation, GENERATION_DEF), s);
    } else if db.work.tables[ClientProblems].columns[Generation] != GENERATION_DEF {
      GenerationRedeclared(db.work.tables[ClientProblems]);
      :- AdvanceProblems(db, ModifyColumn(ClientProblems, Generation, GENERATION_DEF), s);
    }
    if UqClientProblemGen !in db.work.tables[ClientProblems].indexes ||
       db.work.tables[ClientProblems].indexes[UqClientProblemGen] != Index(GENERATION_KEY, true) {
      if UqClientProblemGen in db.work.tables[ClientProblems].indexes {
        WrongKeyDropped(db.work.tables[ClientProblems]);
        :- AdvanceProblems(db, DropIndex(ClientProblems, UqClientProblemGen), s);
      }
      GenerationKeyed(db.work.tables[ClientProblems]);
      :- AdvanceProblems(db, AddUnique(ClientProblems, UqClientProblemGen, GENERATION_KEY), s);
    }
    if UqClientProblem in db.work.tables[ClientProblems].indexes {
      OldKeyDropped(db.work.tables[ClientProblems]);
      :- AdvanceProblems(db, DropIndex(ClientProblems, UqClientProblem), s);
    }
    M036Done(s, db.work);
    return Done;
  }

  lemma NothingLostYet(s: State)
    requires Sound(s) && ScopeDone(s)
    ensures ProblemsKept(s, s)
  {
  }

  /** In every state migration 36 can leave behind, running 33 again changes nothing and a unique key is in force. */
  lemma RerunningScopeIsIdle(s: State, d: State)
    requires AllTables(s) && Sound(d) && ProblemsKept(s, d)
    ensures Target(33, d) == d
    ensures HasUniqueKey(d.tables[ClientProblems])
  {
    var t := d.tables[ClientProblems];
    if UqClientProblem in t.indexes && t.indexes[UqClientProblem] == Index(SCOPED_KEY, true) {
      assert t.indexes[UqClientProblem].unique;
    } else {
      assert t.indexes[UqClientProblemGen].unique;
    }
  }
}
