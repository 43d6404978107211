/** Migrations 3, 4 and 24: columns added one by one, each statement on its own evidence. */
module DeviceMigrations {
  import opened Outcomes
  import opened Schema
  import opened Migrations

  // ── Migrations 3 and 4: device columns ──────────────────────────────────────────────────────────────────────

  lemma M003SameEnd(t: Table, c: ColumnName, def: ColumnDef)
    requires c !in t.columns
    requires (c, def) in
      {(Manufacturer, MANUFACTURER_DEF), (DeviceType, DEVICE_TYPE_DEF), (DeviceIcon, DEVICE_ICON_DEF)}
    requires c == DeviceType || c == DeviceIcon ==> Manufacturer in t.columns
    requires c == DeviceIcon ==> DeviceType in t.columns
    ensures Fingerprinted(AlterTable(t, AddColumn(Devices, c, def))) == Fingerprinted(t)
  {
  }

  lemma M003Step(s: State, w: State, c: ColumnName, def: ColumnDef)
    requires AllTables(s) && OnTheWay(3, s, w) && c !in w.tables[Devices].columns
    requires (c, def) in
      {(Manufacturer, MANUFACTURER_DEF), (DeviceType, DEVICE_TYPE_DEF), (DeviceIcon, DEVICE_ICON_DEF)}
    requires c == DeviceType || c == DeviceIcon ==> Manufacturer in w.tables[Devices].columns
    requires c == DeviceIcon ==> DeviceType in w.tables[Devices].columns
    ensures DdlAllowed(w, AddColumn(Devices, c, def))
    ensures OnTheWay(3, s, Alter(w, AddColumn(Devices, c, def)))
    ensures Alter(w, AddColumn(Devices, c, def)).tables[Devices].columns == w.tables[Devices].columns[c := def]
  {
    hide Sound, OnTheWay, Fingerprinted;
    OnTheWayIsSound(3, s, w);
    AddingAColumnIsSound(w, Devices, c, def);
    M003SameEnd(w.tables[Devices], c, def);
    SwapAlong(3, s, w, Devices, AlterTable(w.tables[Devices], AddColumn(Devices, c, def)));
  }

  lemma M003Done(s: State, w: State)
    requires AllTables(s) && OnTheWay(3, s, w)
    requires {Manufacturer, DeviceType, DeviceIcon} <= w.tables[Devices].columns.Keys
    ensures Finished(3, s, Done, w, w)
  {
    Finish(3, s, w);
  }

  method M003DevicesManufacturer(db: Database) returns (r: Outcome)
    requires db.work == db.durable && Sound(db.work)
    modifies db
    ensures Finished(3, old(db.work), r, db.durable, db.work)
  {
    hide Sound, OnTheWay, Target, Finished, Alter, DdlAllowed;
    ghost var s := db.work;
    Begin(3, s);
    if Manufacturer !in db.work.tables[Devices].columns {
      M003Step(s, db.work, Manufacturer, MANUFACTURER_DEF);
      :- Advance(db, AddColumn(Devices, Manufacturer, MANUFACTURER_DEF), 3, s);
    }
    assert OnTheWay(3, s, db.work) && Manufacturer in db.work.tables[Devices].columns;
    if DeviceType !in db.work.tables[Devices].columns {
      M003Step(s, db.work, DeviceType, DEVICE_TYPE_DEF);
      :- Advance(db, AddColumn(Devices, DeviceType, DEVICE_TYPE_DEF), 3, s);
    }
    if DeviceIcon !in db.work.tables[Devices].columns {
      M003Step(s, db.work, DeviceIcon, DEVICE_ICON_DEF);
      :- Advance(db, AddColumn(Devices, DeviceIcon, DEVICE_ICON_DEF), 3, s);
    }
    M003Done(s, db.work);
    return Done;
  }

  lemma M004SameEnd(t: Table, c: ColumnName, def: ColumnDef)
    requires c !in t.columns
    requires (c, def) in {(ManufacturerOverride, MANUFACTURER_DEF), (DeviceTypeOverride, DEVICE_TYPE_DEF),
                          (DeviceIconOverride, DEVICE_ICON_OVERRIDE_DEF)}
    requires c != ManufacturerOverride ==> ManufacturerOverride in t.columns
    requires c == DeviceIconOverride ==> DeviceTypeOverride in t.columns
    ensures Overridable(AlterTable(t, AddColumn(Devices, c, def))) == Overridable(t)
  {
  }

  lemma M004Step(s: State, w: State, c: ColumnName, def: ColumnDef)
    requires AllTables(s) && OnTheWay(4, s, w) && c !in w.tables[Devices].columns
    requires (c, def) in {(ManufacturerOverride, MANUFACTURER_DEF), (DeviceTypeOverride, DEVICE_TYPE_DEF),
                          (DeviceIconOverride, DEVICE_ICON_OVERRIDE_DEF)}
    requires c != ManufacturerOverride ==> ManufacturerOverride in w.tables[Devices].columns
    requires c == DeviceIconOverride ==> DeviceTypeOverride in w.tables[Devices].columns
    ensures DdlAllowed(w, AddColumn(Devices, c, def))
    ensures OnTheWay(4, s, Alter(w, AddColumn(Devices, c, def)))
    ensures Alter(w, AddColumn(Devices, c, def)).tables[Devices].columns == w.tables[Devices].columns[c := def]
  {
    hide Sound, OnTheWay, Overridable;
    OnTheWayIsSound(4, s, w);
    AddingAColumnIsSound(w, Devices, c, def);
    M004SameEnd(w.tables[Devices], c, def);
    SwapAlong(4, s, w, Devices, AlterTable(w.tables[Devices], AddColumn(Devices, c, def)));
  }

  lemma M004Widen(s: State, w: State)
    requires AllTables(s) && OnTheWay(4, s, w)
    requires {ManufacturerOverride, DeviceTypeOverride, DeviceIconOverride} <= w.tables[Devices].columns.Keys
    requires w.tables[Devices].columns[DeviceIconOverride].sqlType == Varchar(10)
    ensures DdlAllowed(w, ModifyColumn(Devices, DeviceIconOverride, DEVICE_ICON_OVERRIDE_DEF))
    ensures OnTheWay(4, s, Alter(w, ModifyColumn(Devices, DeviceIconOverride, DEVICE_ICON_OVERRIDE_DEF)))
    ensures Alter(w, ModifyColumn(Devices, DeviceIconOverride, DEVICE_ICON_OVERRIDE_DEF)).tables[Devices].columns
         == w.tables[Devices].columns[DeviceIconOverride := DEVICE_ICON_OVERRIDE_DEF]
  {
    OnTheWayIsSound(4, s, w);
    assert Shaped(w.tables[Devices]);
    ModifyingAColumnIsSound(w, Devices, DeviceIconOverride, DEVICE_ICON_OVERRIDE_DEF);
    var t := AlterTable(w.tables[Devices], ModifyColumn(Devices, DeviceIconOverride, DEVICE_ICON_OVERRIDE_DEF));
    assert Overridable(t) == Overridable(w.tables[Devices]);
    SwapAlong(4, s, w, Devices, t);
  }

  lemma M004Done(s: State, w: State)
    requires AllTables(s) && OnTheWay(4, s, w)
    requires {ManufacturerOverride, DeviceTypeOverride, DeviceIconOverride} <= w.tables[Devices].columns.Keys
    requires w.tables[Devices].columns[DeviceIconOverride].sqlType != Varchar(10)
    ensures Finished(4, s, Done, w, w)
  {
    Finish(4, s, w);
  }

  method M004DevicesOverrides(db: Database) returns (r: Outcome)
    requires db.work == db.durable && Sound(db.work)
    modifies db
    ensures Finished(4, old(db.work), r, db.durable, db.work)
  {
    hide Sound, OnTheWay, Target, Finished, Alter, DdlAllowed;
    ghost var s := db.work;
    Begin(4, s);
    if ManufacturerOverride !in db.work.tables[Devices].columns {
      M004Step(s, db.work, ManufacturerOverride, MANUFACTURER_DEF);
      :- Advance(db, AddColumn(Devices, ManufacturerOverride, MANUFACTURER_DEF), 4, s);
    }
    assert OnTheWay(4, s, db.work) && ManufacturerOverride in db.work.tables[Devices].columns;
    if DeviceTypeOverride !in db.work.tables[Devices].columns {
      M004Step(s, db.work, DeviceTypeOverride, DEVICE_TYPE_DEF);
      :- Advance(db, AddColumn(Devices, DeviceTypeOverride, DEVICE_TYPE_DEF), 4, s);
    }
    assert OnTheWay(4, s, db.work) && DeviceTypeOverride in db.work.tables[Devices].columns;
    if DeviceIconOverride !in db.work.tables[Devices].columns {
      M004Step(s, db.work, DeviceIconOverride, DEVICE_ICON_OVERRIDE_DEF);
      :- Advance(db, AddColumn(Devices, DeviceIconOverride, DEVICE_ICON_OVERRIDE_DEF), 4, s);
    } else if db.work.tables[Devices].columns[DeviceIconOverride].sqlType == Varchar(10) {
      M004Widen(s, db.work);
      :- Advance(db, ModifyColumn(Devices, DeviceIconOverride, DEVICE_ICON_OVERRIDE_DEF), 4, s);
    }
    M004Done(s, db.work);
    return Done;
  }

  // ── Migration 24: passkey columns ───────────────────────────────────────────────────────────────────────────

  lemma M024SameEnd(t: Table, c: ColumnName, def: ColumnDef)
    requires c !in t.columns
    requires (c, def) in {(Transports, TRANSPORTS_DEF), (Aaguid, AAGUID_DEF)}
    requires c == Aaguid ==> Transports in t.columns
    ensures PasskeyReady(AlterTable(t, AddColumn(WebauthnCredentials, c, def))) == PasskeyReady(t)
  {
  }

  lemma M024Step(s: State, w: State, c: ColumnName, def: ColumnDef)
    requires AllTables(s) && OnTheWay(24, s, w) && c !in w.tables[WebauthnCredentials].columns
    requires (c, def) in {(Transports, TRANSPORTS_DEF), (Aaguid, AAGUID_DEF)}
    requires c == Aaguid ==> Transports in w.tables[WebauthnCredentials].columns
    ensures DdlAllowed(w, AddColumn(WebauthnCredentials, c, def))
    ensures OnTheWay(24, s, Alter(w, AddColumn(WebauthnCredentials, c, def)))
    ensures
      Alter(w, AddColumn(WebauthnCredentials, c, def)).tables[WebauthnCredentials].columns
      == w.tables[WebauthnCredentials].columns[c := def]
  {
    hide Sound, OnTheWay, PasskeyReady;
    OnTheWayIsSound(24, s, w);
    AddingAColumnIsSound(w, WebauthnCredentials, c, def);
    M024SameEnd(w.tables[WebauthnCredentials], c, def);
    SwapAlong(24, s, w, WebauthnCredentials,
              AlterTable(w.tables[WebauthnCredentials], AddColumn(WebauthnCredentials, c, def)));
  }

  lemma M024Done(s: State, w: State)
    requires AllTables(s) && OnTheWay(24, s, w)
    requires {Transports, Aaguid} <= w.tables[WebauthnCredentials].columns.Keys
    ensures Finished(24, s, Done, w, w)
  {
    Finish(24, s, w);
  }

  method M024WebauthnTransportsAaguid(db: Database) returns (r: Outcome)
    requires db.work == db.durable && Sound(db.work)
    modifies db
    ensures Finished(24, old(db.work), r, db.durable, db.work)
  {
    hide Sound, OnTheWay, Target, Finished, Alter, DdlAllowed;
    ghost var s := db.work;
    Begin(24, s);
    if Transports !in db.work.tables[WebauthnCredentials].columns {
      M024Step(s, db.work, Transports, TRANSPORTS_DEF);
      :- Advance(db, AddColumn(WebauthnCredentials, Transports, TRANSPORTS_DEF), 24, s);
    }
    assert OnTheWay(24, s, db.work) && Transports in db.work.tables[WebauthnCredentials].columns;
    if Aaguid !in db.work.tables[WebauthnCredentials].columns {
      M024Step(s, db.work, Aaguid, AAGUID_DEF);
      :- Advance(db, AddColumn(WebauthnCredentials, Aaguid, AAGUID_DEF), 24, s);
    }
    M024Done(s, db.work);
    return Done;
  }
}
