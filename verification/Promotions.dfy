/** The one promotion of legacy admins, followed through every committed state. */
module Promotions {
  import opened Schema
  import opened Migrations
  import opened UserMigrations

  ghost predicate SameRoles(s: State, d: State)
    requires AllTables(s) && AllTables(d)
  {
    d.promotions == s.promotions && Roles(d.tables[Users]) == Roles(s.tables[Users])
  }

  /** The roles after the promotion: every admin a superadmin, everyone else as before. */
  function PromotedRoles(t: Table): (r: seq<Value>)
    ensures |r| == |t.rows|
    ensures forall i :: 0 <= i < |r| ==>
      r[i] == if Roles(t)[i] == RoleValue(Admin) then RoleValue(SuperAdmin) else Roles(t)[i]
  {
    Roles(t.(rows := PromoteRows(t.rows)))
  }

  /** Only migration 6 touches a role; only it and the application touch the marker. */
  lemma OnlySixPromotes(v: nat, s: State)
    requires AllTables(s) && v in REGISTRY && v != 6
    ensures SameRoles(s, Target(v, s))
    ensures RoleColumn in s.tables[Users].columns ==>
      (PromotionDue(Target(v, s)) <==> PromotionDue(s)) &&
      RoleColumn in Target(v, s).tables[Users].columns
  {
    if v == 23 {
      assert Target(v, s).tables[Users] == s.tables[Users];
    } else if v == 33 {
      assert Target(v, s).tables[Users] == s.tables[Users];
    }
  }

  lemma SixPromotesTheDue(s: State)
    requires AllTables(s)
    ensures
      Roles(Target(6, s).tables[Users])
      == if PromotionDue(s) then PromotedRoles(s.tables[Users]) else Roles(s.tables[Users])
    ensures Target(6, s).promotions == s.promotions + if PromotionDue(s) then 1 else 0
    ensures RoleColumn in s.tables[Users].columns ==> !PromotionDue(Target(6, s))
  {
  }

  lemma SameRolesPromoteAlike(s: State, x: State)
    requires AllTables(s) && AllTables(x) && Roles(x.tables[Users]) == Roles(s.tables[Users])
    ensures PromotedRoles(x.tables[Users]) == PromotedRoles(s.tables[Users])
  {
    var a, b := s.tables[Users], x.tables[Users];
    forall i | 0 <= i < |a.rows|
      ensures PromotedRoles(b)[i] == PromotedRoles(a)[i]
    {
      assert Roles(a)[i] == Roles(b)[i];
    }
    assert |PromotedRoles(a)| == |PromotedRoles(b)|;
  }

  // ── Over any number of starts ───────────────────────────────────────────────────────────────────────────────

  /** The role column is an ENUM that knows 'superadmin'. */
  predicate KnowsSuperadmin(t: Table) {
    RoleColumn in t.columns && match t.columns[RoleColumn].sqlType
                               case Enum(values) => SuperAdmin in values
                               case _ => false
  }

  /** Migration 6 has still to run and has legacy admins to promote: the column does not know the role, or an
      interrupted start left its marker. */
  predicate Owed(s: State)
    requires AllTables(s)
  {
    6 !in s.applied && (!KnowsSuperadmin(s.tables[Users]) || PromotionPending in s.settings)
  }

  /** From `s` to `d`: nothing was promoted and what was owed still is, or the promotion that was owed has been made,
      once and of every legacy admin, and is owed no more. */
  ghost predicate PromotionKept(s: State, d: State)
    requires AllTables(s) && AllTables(d)
  {
    || (SameRoles(s, d) && (Owed(d) <==> Owed(s)))
    || (Owed(s) && !Owed(d) && d.promotions == s.promotions + 1 &&
        Roles(d.tables[Users]) == PromotedRoles(s.tables[Users]))
  }

  lemma PromotionKeptTwice(a: State, b: State, c: State)
    requires AllTables(a) && AllTables(b) && AllTables(c) && PromotionKept(a, b) && PromotionKept(b, c)
    ensures PromotionKept(a, c)
  {
    if Owed(b) && Roles(b.tables[Users]) == Roles(a.tables[Users]) {
      SameRolesPromoteAlike(a, b);
    }
  }

  /** A state a crash leaves part-way through a migration other than 6. */
  lemma OthersKeepThePromotion(v: nat, w: State, d: State)
    requires v in REGISTRY && v != 6 && AllTables(w) && Sound(w) && OnTheWay(v, w, d)
    ensures PromotionKept(w, d)
  {
    OnlySixPromotes(v, w);
    OnlySixPromotes(v, d);
  }

  /** A state a crash leaves part-way through migration 6. */
  lemma SixKeepsThePromotion(w: State, d: State)
    requires AllTables(w) && Sound(w) && 6 !in w.applied && OnTheWay(6, w, d) && PromotedAtMostOnce(w, d)
    ensures PromotionKept(w, d)
  {
    SixPromotesTheDue(w);
    SixPromotesTheDue(d);
    hide Target;
  }

  /** The commit that records a migration. */
  lemma RecordingKeepsThePromotion(v: nat, w: State, x: State, d: State)
    requires v in REGISTRY && AllTables(w) && Sound(w) && v !in w.applied && x == Target(v, w)
    requires d == x.(applied := x.applied + {v})
    ensures PromotionKept(w, d)
  {
    if v == 6 {
      SixPromotesTheDue(w);
    } else {
      OnlySixPromotes(v, w);
    }
    hide Target;
  }

  // ── Row by row ──────────────────────────────────────────────────────────────────────────────────────────────

  /** Every user has the role it had, but for the admins, who are superadmins if the promotion has been made. */
  ghost predicate RolesKept(before: seq<Row>, after: seq<Row>, promoted: bool) {
    |after| == |before| && forall i :: 0 <= i < |before| ==> RoleKept(before[i], after[i], promoted)
  }

  ghost predicate RoleKept(before: Row, after: Row, promoted: bool) {
    && RoleColumn in before && RoleColumn in after
    && after[RoleColumn] ==
       if promoted && before[RoleColumn] == RoleValue(Admin) then RoleValue(SuperAdmin) else before[RoleColumn]
  }

  lemma RolesRowByRow(a: Table, b: Table, promoted: bool)
    requires RolesHeld(a) && RolesHeld(b) && Roles(b) == if promoted then PromotedRoles(a) else Roles(a)
    ensures RolesKept(a.rows, b.rows, promoted)
  {
    forall i | 0 <= i < |a.rows|
      ensures RoleKept(a.rows[i], b.rows[i], promoted)
    {
      assert Roles(a)[i] == a.rows[i][RoleColumn] && Roles(b)[i] == b.rows[i][RoleColumn];
    }
  }

  /** Of every committed state: all the promotion or none of it, and all of it once 6 is recorded. */
  lemma PromotionRowByRow(s: State, d: State)
    requires Sound(s) && Sound(d) && PromotionKept(s, d)
    ensures
      var before, after := s.tables[Users].rows, d.tables[Users].rows;
      || (d.promotions == s.promotions && RolesKept(before, after, false) && !(Owed(s) && 6 in d.applied))
      || (d.promotions == s.promotions + 1 && RolesKept(before, after, true) && Owed(s))
  {
    assert RolesHeld(s.tables[Users]) && RolesHeld(d.tables[Users]);
    hide Sound, RolesHeld, Roles, RolesKept;
    if SameRoles(s, d) && (Owed(d) <==> Owed(s)) {
      RolesRowByRow(s.tables[Users], d.tables[Users], false);
    } else {
      RolesRowByRow(s.tables[Users], d.tables[Users], true);
    }
  }
}
