/**
 The cached user in a session.  A request may ask twice, once for the token version and password and once for the whole
 row, and anything may happen to the accounts between the two; either question may go unanswered.
 */
module SessionCache {
  import opened Outcomes

  /** The columns a user object is made of. */
  datatype Facts = Facts(
    username: string, role: string, timeout: Option<int>, subnets: Option<string>, mustChange: bool)

  datatype Row = Row(facts: Facts, version: nat, password: string)

  datatype User = User(id: nat, facts: Facts)

  /** session["_user_cache"]; an empty mark is one that was never recorded. */
  datatype Cached = Cached(id: nat, facts: Facts, version: nat, mark: string)

  datatype Session = Session(cache: Option<Cached>, signedIn: bool)

  datatype Query = Unanswered | Answered(row: Option<Row>)

  datatype Path = Held | ByToken | ByRow | Refused

  datatype Decision = Decision(user: Option<User>, session: Session, path: Path)

  /** A one-way tag of the stored password hash, empty for none. */
  function MarkOf(tag: string -> string, password: string): string {
    if password == "" then "" else tag(password)
  }

  function CacheOf(tag: string -> string, id: nat, row: Row): Cached {
    Cached(id, row.facts, row.version, MarkOf(tag, row.password))
  }

  predicate IsFor(session: Session, id: nat) {
    session.cache.Some? && session.cache.value.id == id
  }

  /** The session was opened under another password than the row's. */
  predicate OtherPassword(tag: string -> string, session: Session, id: nat, row: Row) {
    IsFor(session, id) && session.cache.value.mark != "" && session.cache.value.mark != MarkOf(tag, row.password)
  }

  function ByFullRow(tag: string -> string, session: Session, id: nat, second: Query): Decision {
    if second.Answered? && second.row.Some? then
      var row := second.row.value;
      Decision(Some(User(id, row.facts)), session.(cache := Some(CacheOf(tag, id, row))), ByRow)
    else Decision(None, session, Refused)
  }

  /** What a request is answered, given the answers of its two queries. */
  function Decide(tag: string -> string, session: Session, id: nat, first: Query, second: Query): Decision {
    if !IsFor(session, id) || first.Unanswered? then ByFullRow(tag, session, id, second)
    else
      var cached := session.cache.value;
      match first.row
      case None => Decision(None, session.(cache := None), Refused)
      case Some(row) =>
        if OtherPassword(tag, session, id, row) then Decision(None, Session(None, false), Refused)
        else if row.version != cached.version then ByFullRow(tag, session, id, second)
        else
          var mark := if cached.mark == "" then MarkOf(tag, row.password) else cached.mark;
          Decision(Some(User(id, cached.facts)), session.(cache := Some(cached.(mark := mark))), ByToken)
  }

  // ── What is never served, and when ──────────────────────────────────────────────────────────────────────────

  /** Whoever is served had a row when the deciding query asked for it. */
  lemma DeletedIsNeverServed(tag: string -> string, session: Session, id: nat, first: Query, second: Query)
    ensures
      var d := Decide(tag, session, id, first, second);
      d.user.Some? ==> match d.path
        case ByToken => first.Answered? && first.row.Some?
        case ByRow => second.Answered? && second.row.Some? && !(IsFor(session, id) && first == Answered(None))
        case _ => false
  {
  }

  /** A session opened under another password than the deciding row's is served exactly when the full row was read
      and the first query did not see that password: it went unanswered, or it matched a password that has changed
      since. */
  lemma OtherPasswordServedIff(tag: string -> string, session: Session, id: nat, first: Query, second: Query)
    requires second.Answered? && second.row.Some? && OtherPassword(tag, session, id, second.row.value)
    ensures
      var d := Decide(tag, session, id, first, second);
      (d.user.Some? && d.path == ByRow) <==>
        first.Unanswered? ||
        (first.row.Some? && !OtherPassword(tag, session, id, first.row.value) &&
         first.row.value.version != session.cache.value.version)
    ensures
      var d := Decide(tag, session, id, first, second);
      d.path == ByRow ==> !OtherPassword(tag, d.session, id, second.row.value)
  {
  }

  // ── The accounts ────────────────────────────────────────────────────────────────────────────────────────────

  /** What a single sign-on writes. */
  datatype Access = Access(role: string, subnets: Option<string>)

  /** One version of one account: the values it began with, and what single sign-ons have written into it since, in
      order.  Every change an admin makes opens a new version; a single sign-on writes into the one it finds. */
  datatype History = History(base: Facts, writes: seq<Access>)

  type Ledger = map<(nat, nat), History>

  function With(f: Facts, a: Access): Facts {
    f.(role := a.role, subnets := a.subnets)
  }

  /** The values after the first `n` writes. */
  function ValuesAt(h: History, n: nat): Facts
    requires n <= |h.writes|
  {
    if n == 0 then h.base else With(h.base, h.writes[n - 1])
  }

  /** The cookie was made from its version after `at` writes. */
  ghost predicate Sound(s: Session, at: nat, ledger: Ledger) {
    s.cache.Some? ==>
      var c := s.cache.value;
      (c.id, c.version) in ledger && at <= |ledger[(c.id, c.version)].writes| &&
      c.facts == ValuesAt(ledger[(c.id, c.version)], at)
  }

  ghost predicate Grows(before: Ledger, after: Ledger) {
    forall k :: k in before ==>
      k in after && after[k].base == before[k].base && before[k].writes <= after[k].writes
  }

  lemma SoundLater(s: Session, at: nat, before: Ledger, after: Ledger)
    requires Sound(s, at, before) && Grows(before, after)
    ensures Sound(s, at, after)
  {
  }

  lemma GrowsFromItself(a: Ledger)
    ensures Grows(a, a)
  {
  }

  lemma GrowsTwice(a: Ledger, b: Ledger, c: Ledger)
    requires Grows(a, b) && Grows(b, c)
    ensures Grows(a, c)
  {
    forall k | k in a
      ensures a[k].writes <= c[k].writes
    {
      assert a[k].writes <= b[k].writes <= c[k].writes;
    }
  }

  /** Since the first `at` writes no single sign-on has written to the version, or the last one wrote exactly `a`. */
  predicate NothingElseSince(h: History, at: nat, a: Access) {
    |h.writes| == at || (h.writes != [] && h.writes[|h.writes| - 1] == a)
  }

  /** Every row has the values its version has after all its writes; no version is ahead of its row's. */
  ghost predicate Recorded(rows: map<nat, Row>, ledger: Ledger) {
    && (forall id :: id in rows ==>
          var k := (id, rows[id].version);
          k in ledger && rows[id].facts == ValuesAt(ledger[k], |ledger[k].writes|))
    && (forall k :: k in ledger && k.0 in rows ==> k.1 <= rows[k.0].version)
  }

  lemma NewVersion(rows: map<nat, Row>, ledger: Ledger, id: nat, row: Row)
    requires Recorded(rows, ledger) && id in rows && row.version == rows[id].version + 1
    ensures Recorded(rows[id := row], ledger[(id, row.version) := History(row.facts, [])])
    ensures Grows(ledger, ledger[(id, row.version) := History(row.facts, [])])
  {
    assert (id, row.version) !in ledger;
  }

  lemma NewAccount(rows: map<nat, Row>, ledger: Ledger, id: nat, row: Row)
    requires Recorded(rows, ledger) && row.version == 0 && forall v: nat :: (id, v) !in ledger
    ensures Recorded(rows[id := row], ledger[(id, 0) := History(row.facts, [])])
    ensures Grows(ledger, ledger[(id, 0) := History(row.facts, [])])
  {
  }

  function Written(h: History, a: Access): History {
    h.(writes := h.writes + [a])
  }

  lemma OldVersion(rows: map<nat, Row>, ledger: Ledger, id: nat, a: Access)
    requires Recorded(rows, ledger) && id in rows
    ensures
      var k := (id, rows[id].version);
      k in ledger &&
      var longer := ledger[k := Written(ledger[k], a)];
      && Recorded(rows[id := rows[id].(facts := With(rows[id].facts, a))], longer)
      && Grows(ledger, longer)
  {
  }

  lemma AsRecorded(rows: map<nat, Row>, ledger: Ledger, id: nat)
    requires Recorded(rows, ledger) && id in rows
    ensures
      var k := (id, rows[id].version);
      k in ledger && rows[id].facts == ValuesAt(ledger[k], |ledger[k].writes|)
  {
  }

  lemma NothingToBeSound(s: Session, at: nat, ledger: Ledger)
    requires s.cache.None?
    ensures Sound(s, at, ledger)
  {
  }

  /** A cookie made from the row as it is stands at the end of its version's writes. */
  lemma CacheIsSound(rows: map<nat, Row>, ledger: Ledger, id: nat, mark: string, signedIn: bool)
    requires Recorded(rows, ledger) && id in rows
    ensures
      var k := (id, rows[id].version);
      && k in ledger
      && Sound(Session(Some(Cached(id, rows[id].facts, rows[id].version, mark)), signedIn), |ledger[k].writes|, ledger)
  {
    AsRecorded(rows, ledger, id);
  }

  /** Served on the version alone, the cached values are the row's exactly when no single sign-on has written to it
      since the cookie was made, or the last one that did wrote the cached role and subnets. */
  lemma ServedByVersion(rows: map<nat, Row>, ledger: Ledger, session: Session, at: nat, id: nat, mark: string)
    requires Recorded(rows, ledger) && Sound(session, at, ledger) && IsFor(session, id) && id in rows
    requires rows[id].version == session.cache.value.version
    ensures
      var k, facts := (id, rows[id].version), session.cache.value.facts;
      k in ledger &&
      (facts == rows[id].facts <==> NothingElseSince(ledger[k], at, Access(facts.role, facts.subnets)))
    ensures Sound(session.(cache := Some(session.cache.value.(mark := mark))), at, ledger)
  {
    AsRecorded(rows, ledger, id);
  }

  class Accounts {
    var rows: map<nat, Row>
    ghost var ledger: Ledger
    const tag: string -> string

    ghost predicate Valid()
      reads this
    {
      Recorded(rows, ledger)
    }

    constructor (tag: string -> string)
      ensures Valid() && rows == map[] && this.tag == tag
    {
      this.tag := tag;
      rows, ledger := map[], map[];
    }

    /** An admin's change to role, subnets, timeout or the forced-change flag: the version moves in the same
        statement. */
    method Edit(id: nat, facts: Facts)
      requires Valid() && id in rows
      modifies this
      ensures Valid() && Grows(old(ledger), ledger)
      ensures rows == old(rows)[id := Row(facts, old(rows)[id].version + 1, old(rows)[id].password)]
      ensures ledger == old(ledger)[(id, rows[id].version) := History(facts, [])]
    {
      hide Recorded, Grows;
      var row := rows[id];
      NewVersion(rows, ledger, id, Row(facts, row.version + 1, row.password));
      rows := rows[id := Row(facts, row.version + 1, row.password)];
      ledger := ledger[(id, row.version + 1) := History(facts, [])];
    }

    method ChangePassword(id: nat, password: string, mustChange: bool)
      requires Valid() && id in rows
      modifies this
      ensures Valid() && Grows(old(ledger), ledger)
      ensures
        var was := old(rows)[id];
        rows == old(rows)[id := Row(was.facts.(mustChange := mustChange), was.version + 1, password)]
      ensures ledger == old(ledger)[(id, rows[id].version) := History(rows[id].facts, [])]
    {
      hide Recorded, Grows;
      var row := rows[id];
      var facts := row.facts.(mustChange := mustChange);
      NewVersion(rows, ledger, id, Row(facts, row.version + 1, password));
      rows := rows[id := Row(facts, row.version + 1, password)];
      ledger := ledger[(id, row.version + 1) := History(facts, [])];
    }

    /** A login's upgrade of the stored hash, which leaves the version alone. */
    method Rehash(id: nat, password: string)
      requires Valid() && id in rows
      modifies this`rows
      ensures Valid() && rows == old(rows)[id := old(rows)[id].(password := password)]
    {
      rows := rows[id := rows[id].(password := password)];
    }

    method Delete(id: nat)
      requires Valid()
      modifies this`rows
      ensures Valid() && rows == old(rows) - {id}
    {
      rows := rows - {id};
    }

    /** Ids are never given out twice. */
    method Create(id: nat, facts: Facts, password: string)
      requires Valid() && forall v: nat :: (id, v) !in ledger
      modifies this
      ensures Valid() && Grows(old(ledger), ledger)
      ensures rows == old(rows)[id := Row(facts, 0, password)] && ledger == old(ledger)[(id, 0) := History(facts, [])]
    {
      hide Recorded, Grows;
      NewAccount(rows, ledger, id, Row(facts, 0, password));
      rows := rows[id := Row(facts, 0, password)];
      ledger := ledger[(id, 0) := History(facts, [])];
    }

    /** A single sign-on: the role and subnets the identity provider says now are written without moving the version,
        and the session is made from the row as it then is, with no password seen. */
    method OidcSignIn(id: nat, access: Access) returns (session: Session, ghost at: nat)
      requires Valid() && id in rows
      modifies this
      ensures Valid() && Grows(old(ledger), ledger) && Sound(session, at, ledger)
      ensures rows == old(rows)[id := old(rows)[id].(facts := With(old(rows)[id].facts, access))]
      ensures session == Session(Some(Cached(id, rows[id].facts, rows[id].version, "")), true)
      ensures
        var k := (id, rows[id].version);
        && k in old(ledger)
        && ledger == (if rows == old(rows) then old(ledger) else old(ledger)[k := Written(old(ledger)[k], access)])
        && at == |ledger[k].writes|
    {
      hide Recorded, Grows, Sound;
      var row := rows[id];
      var facts := row.facts;
      if access.role != facts.role {
        facts := facts.(role := access.role);
      }
      if access.subnets != facts.subnets {
        facts := facts.(subnets := access.subnets);
      }
      assert facts == With(row.facts, access);
      ghost var k := (id, row.version);
      AsRecorded(rows, ledger, id);
      if facts != row.facts {
        OldVersion(rows, ledger, id, access);
        rows := rows[id := row.(facts := facts)];
        ledger := ledger[k := Written(ledger[k], access)];
        assert rows[id] != old(rows)[id];
      } else {
        assert rows[id := row.(facts := facts)] == rows;
        GrowsFromItself(ledger);
      }
      CacheIsSound(rows, ledger, id, "", true);
      at := |ledger[k].writes|;
      session := Session(Some(Cached(id, facts, row.version, "")), true);
    }

    /** Whatever other requests do in the meantime. */
    method OtherRequests()
      requires Valid()
      modifies this
      ensures Valid() && Grows(old(ledger), ledger)
    {
      hide Recorded, Grows;
      GrowsFromItself(ledger);
      var steps: int := *;
      for i := 0 to if steps < 0 then 0 else steps
        invariant Valid() && Grows(old(ledger), ledger)
      {
        ghost var before := ledger;
        GrowsFromItself(ledger);
        var id: nat, facts: Facts, password: string, must: bool, kind: nat := *, *, *, *, *;
        if id in rows {
          match kind
          case 0 => Edit(id, facts);
          case 1 => ChangePassword(id, password, must);
          case 2 => Rehash(id, password);
          case 3 =>
            var session;
            ghost var at;
            session, at := OidcSignIn(id, Access(facts.role, facts.subnets));
          case _ => Delete(id);
        }
        GrowsTwice(old(ledger), before, ledger);
      }
    }

    function Lookup(id: nat): Option<Row>
      reads this
    {
      if id in rows then Some(rows[id]) else None
    }

    /** The user loader of one request.  `held` is the user an earlier call in the same request returned; `at` is
        where the cookie was made, `now` where the one it leaves was. */
    method LoadUser(session: Session, held: Option<User>, id: nat, ghost at: nat)
      returns (user: Option<User>, after: Session, path: Path, ghost first: Query, ghost second: Query, ghost now: nat)
      requires Valid() && Sound(session, at, ledger)
      modifies this
      ensures Valid() && Grows(old(ledger), ledger) && Sound(after, now, ledger)
      ensures first.Answered? ==> first.row == old(Lookup(id))
      ensures second.Answered? ==> second.row == Lookup(id)
      ensures held.Some? && held.value.id == id ==> user == held && after == session && path == Held
      ensures !(held.Some? && held.value.id == id) ==>
        Decision(user, after, path) == Decide(tag, session, id, first, second)
      // read back from the full row: the values and the new cookie are the row's
      ensures path == ByRow ==>
        && id in rows && user == Some(User(id, rows[id].facts)) && after.signedIn == session.signedIn
        && after.cache == Some(Cached(id, rows[id].facts, rows[id].version,
                                      if rows[id].password == "" then "" else tag(rows[id].password)))
        && (id, rows[id].version) in ledger && now == |ledger[(id, rows[id].version)].writes|
      // served on the version alone: the row's exactly when no sign-on wrote to it since the cookie was made, or the
      // last one wrote the cookie's role and subnets
      ensures path == ByToken ==>
        && rows == old(rows) && ledger == old(ledger) && now == at
        && id in rows && IsFor(session, id) && rows[id].version == session.cache.value.version
        && (id, rows[id].version) in ledger && user == Some(User(id, session.cache.value.facts))
        && var facts := user.value.facts;
           facts == rows[id].facts <==>
             NothingElseSince(ledger[(id, rows[id].version)], at, Access(facts.role, facts.subnets))
      // and a cookie that had no mark has adopted the row's
      ensures path == ByToken ==>
        var had, password := session.cache.value, rows[id].password;
        var mark := if had.mark != "" then had.mark else if password == "" then "" else tag(password);
        after == session.(cache := Some(had.(mark := mark)))
      ensures path == Refused ==> user == None
      // who is asked what: an account that is gone takes the cookie with it; one on the cookie's version is served on
      // it; in every other case the full row decides, and without one nobody is served and the session stays
      ensures path != Held && IsFor(session, id) && first == Answered(None) ==>
        path == Refused && after == session.(cache := None)
      ensures path != Held && IsFor(session, id) && first.Answered? && first.row.Some? && path != ByToken ==>
        var password := first.row.value.password;
        || session.cache.value.mark !in {"", if password == "" then "" else tag(password)}
        || first.row.value.version != session.cache.value.version
      ensures path == Refused && first != Answered(None) && after != Session(None, false) ==>
        after == session && (second.Answered? ==> second.row.None?)
      // a session of another password than the one the first query sees is ended, and its request gets nobody
      ensures path != Held && IsFor(session, id) && first.Answered? && first.row.Some? ==>
        var had, password := session.cache.value.mark, first.row.value.password;
        had != "" && had != (if password == "" then "" else tag(password)) ==>
          user == None && after == Session(None, false)
    {
      hide Recorded, Grows, Sound, NothingElseSince;
      first, second, now := Unanswered, Unanswered, at;
      GrowsFromItself(ledger);
      if held.Some? && held.value.id == id {
        return held, session, Held, first, second, now;
      }
      after := session;
      if after.cache.Some? && after.cache.value.id == id {
        var cached := after.cache.value;
        if * {
          var tokenRow := Lookup(id);
          first := Answered(tokenRow);
          if tokenRow.None? {
            NothingToBeSound(after.(cache := None), at, ledger);
            return None, after.(cache := None), Refused, first, second, now;
          }
          var rowMark := MarkOf(tag, tokenRow.value.password);
          if cached.mark != "" && cached.mark != rowMark {
            NothingToBeSound(Session(None, false), at, ledger);
            return None, Session(None, false), Refused, first, second, now;
          }
          if tokenRow.value.version == cached.version {
            ServedByVersion(rows, ledger, session, at, id, rowMark);
            if cached.mark == "" {
              after := after.(cache := Some(cached.(mark := rowMark)));
            }
            return Some(User(cached.id, cached.facts)), after, ByToken, first, second, now;
          }
        }
      }
      ghost var before := ledger;
      OtherRequests();
      SoundLater(session, at, before, ledger);
      if * {
        var row := Lookup(id);
        second := Answered(row);
        if row.Some? {
          CacheIsSound(rows, ledger, id, MarkOf(tag, row.value.password), after.signedIn);
          now := |ledger[(id, row.value.version)].writes|;
          after := after.(cache := Some(CacheOf(tag, id, row.value)));
          return Some(User(id, row.value.facts)), after, ByRow, first, second, now;
        }
      }
      return None, after, Refused, first, second, now;
    }

    /** A sign-in by password: the session is made from a row read before other requests went on. */
    method SignIn(id: nat) returns (session: Session, ghost at: nat)
      requires Valid()
      modifies this
      ensures Valid() && Grows(old(ledger), ledger) && Sound(session, at, ledger)
      ensures id !in old(rows) ==> session == Session(None, false)
      ensures id in old(rows) ==>
        && session == Session(Some(Cached(id, old(rows)[id].facts, old(rows)[id].version,
                                          MarkOf(tag, old(rows)[id].password))), true)
        && (id, old(rows)[id].version) in old(ledger) && at == |old(ledger)[(id, old(rows)[id].version)].writes|
    {
      hide Recorded, Grows, Sound;
      var row := Lookup(id);
      at := 0;
      if row.Some? {
        var r := row.value;
        session := Session(Some(CacheOf(tag, id, r)), true);
        CacheIsSound(rows, ledger, id, MarkOf(tag, r.password), true);
        at := |ledger[(id, r.version)].writes|;
      } else {
        session := Session(None, false);
        NothingToBeSound(session, at, ledger);
      }
      ghost var before := ledger;
      OtherRequests();
      SoundLater(session, at, before, ledger);
    }

    /** Any number of sign-ins of either kind, requests with any cookie ever issued, and changes to the accounts in
        between: every cookie stays sound, so every request is answered as LoadUser promises. */
    method Serve(requests: nat) returns (issued: seq<Session>, ghost positions: seq<nat>)
      requires Valid()
      modifies this
      ensures Valid() && AllSound(issued, positions, ledger)
    {
      hide Valid, Sound, Grows;
      issued, positions := [], [];
      for i := 0 to requests
        invariant Valid() && AllSound(issued, positions, ledger)
      {
        ghost var before := ledger;
        var id: nat, pick: nat, access: Access := *, *, *;
        var session;
        ghost var at;
        if pick < |issued| {
          ghost var first, second;
          var user, path;
          user, session, path, first, second, at := LoadUser(issued[pick], None, id, positions[pick]);
        } else if * {
          session, at := SignIn(id);
        } else if id in rows {
          session, at := OidcSignIn(id, access);
        } else {
          continue;
        }
        AllSoundLater(issued, positions, before, ledger);
        issued, positions := issued + [session], positions + [at];
        ghost var mid := ledger;
        OtherRequests();
        AllSoundLater(issued, positions, mid, ledger);
      }
    }

    /** A request served on the version, a change of the password, and a request with the cookie the first one left.
        If the first query of the second is answered, the session is ended and its request gets nobody exactly when
        the cookie has a mark, which it has adopted if it had none, and that is not the new password's. */
    method RequestsAroundAPasswordChange(session: Session, id: nat, ghost at: nat, password: string, mustChange: bool)
      returns (served: bool, user: Option<User>, after: Session, ghost asked: Query)
      requires Valid() && Sound(session, at, ledger)
      modifies this
      ensures served ==>
        && id in old(rows) && IsFor(session, id)
        && var was, had := old(rows)[id].password, session.cache.value.mark;
           var mark := if had != "" then had else if was == "" then "" else tag(was);
           var mine := if password == "" then "" else tag(password);
           asked.Answered? ==> (user == None && after == Session(None, false) <==> mark != "" && mark != mine)
    {
      var mid, path;
      ghost var first, second, now;
      user, mid, path, first, second, now := LoadUser(session, None, id, at);
      served, after, asked := path == ByToken, mid, first;
      if served {
        hide Recorded, Grows, Sound, Decide, NothingElseSince;
        ghost var before := ledger;
        ChangePassword(id, password, mustChange);
        SoundLater(mid, now, before, ledger);
        user, after, path, asked, second, now := LoadUser(mid, None, id, now);
      }
    }

    /** Two single sign-ons of one account and then a request with the first one's cookie.  Served on the version it
        carries the row's values exactly when the second sign-on brought what the first had. */
    method RequestAfterAnotherSignOn(id: nat, here: Access, elsewhere: Access) returns (user: Option<User>, path: Path)
      requires Valid() && id in rows
      modifies this
      ensures path == ByToken ==>
        id in rows && user.Some? && (user.value.facts == rows[id].facts <==> elsewhere == here)
    {
      var cookie, other, after;
      ghost var at, end, now, first, second;
      cookie, at := OidcSignIn(id, here);
      ghost var before := ledger;
      other, end := OidcSignIn(id, elsewhere);
      hide Recorded, Grows, Sound;
      SoundLater(cookie, at, before, ledger);
      user, after, path, first, second, now := LoadUser(cookie, None, id, at);
    }
  }

  ghost predicate AllSound(issued: seq<Session>, positions: seq<nat>, ledger: Ledger) {
    |issued| == |positions| && forall i :: 0 <= i < |issued| ==> Sound(issued[i], positions[i], ledger)
  }

  lemma AllSoundLater(issued: seq<Session>, positions: seq<nat>, before: Ledger, after: Ledger)
    requires AllSound(issued, positions, before) && Grows(before, after)
    ensures AllSound(issued, positions, after)
  {
    forall i | 0 <= i < |issued|
      ensures Sound(issued[i], positions[i], after)
    {
      SoundLater(issued[i], positions[i], before, after);
    }
  }

  // ── A change that leaves the version alone ──────────────────────────────────────────────────────────────────

  /** The input that shows it: a session opened under `row` is served `row`'s role and subnets on its version, after
      a sign-on elsewhere has changed them in the database. */
  lemma AnOpenSessionKeepsItsOldRole(tag: string -> string, id: nat, row: Row, elsewhere: Access, second: Query)
    ensures
      var session := Session(Some(CacheOf(tag, id, row)), true);
      var changed := row.(facts := With(row.facts, elsewhere));
      && Decide(tag, session, id, Answered(Some(changed)), second).path == ByToken
      && Decide(tag, session, id, Answered(Some(changed)), second).user == Some(User(id, row.facts))
  {
  }
}
