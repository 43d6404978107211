/**
 Migration 21: the hash_kind column, and every stored Kea configuration sealed with a key kept outside the database.  A
 sealed body is a new random token every time, so runs are compared by what a reader makes of the rows.
 */
module RevisionMigration {
  import opened Outcomes

  /** Bodies by revision id, and whether the column is there. */
  datatype Revisions = Revisions(bodies: map<nat, Option<string>>, hasHashKind: bool)

  const PREFIX := "v1:"

  /** Sealing with a nonce, and opening; a key that cannot be read seals nothing. */
  datatype Crypto = Crypto(seal: (string, nat) -> string, open: string -> string) {
    ghost predicate Sound() {
      forall plain, nonce :: PREFIX <= seal(plain, nonce) && open(seal(plain, nonce)) == plain
    }
  }

  /** What a reader gets: a sealed body opened, anything else as it is. */
  function Reading(c: Crypto, body: Option<string>): Option<string> {
    match body
    case Some(text) => Some(if PREFIX <= text then c.open(text) else text)
    case None => None
  }

  /** The WHERE clause: there is something to seal and it is not sealed. */
  predicate Unsealed(body: Option<string>) {
    body.Some? && body.value != "" && !(PREFIX <= body.value)
  }

  /** The same revisions, reading the same; what was sealed or blank already is byte for byte what it was. */
  ghost predicate ReadsTheSame(c: Crypto, before: map<nat, Option<string>>, after: map<nat, Option<string>>) {
    && after.Keys == before.Keys
    && (forall id :: id in before ==> Reading(c, after[id]) == Reading(c, before[id]))
    && (forall id :: id in before && !Unsealed(before[id]) ==> after[id] == before[id])
  }

  lemma ReadingTwice(c: Crypto, a: map<nat, Option<string>>, b: map<nat, Option<string>>, d: map<nat, Option<string>>)
    requires ReadsTheSame(c, a, b) && ReadsTheSame(c, b, d)
    ensures ReadsTheSame(c, a, d)
  {
  }

  /** Part-way: the rows of `left` are still to be sealed, and nothing else is. */
  ghost predicate SealedSoFar(c: Crypto, before: map<nat, Option<string>>, now: map<nat, Option<string>>,
                              left: map<nat, string>) {
    && ReadsTheSame(c, before, now)
    && (forall id :: id in left ==> id in before && Unsealed(before[id]) && now[id] == before[id] == Some(left[id]))
    && (forall id :: id in now && id !in left ==> !Unsealed(now[id]))
  }

  lemma SealOne(c: Crypto, before: map<nat, Option<string>>, now: map<nat, Option<string>>, left: map<nat, string>,
                id: nat, nonce: nat)
    requires c.Sound() && SealedSoFar(c, before, now, left) && id in left
    ensures SealedSoFar(c, before, now[id := Some(c.seal(left[id], nonce))], left - {id})
  {
    var sealed := c.seal(left[id], nonce);
    assert PREFIX <= sealed && c.open(sealed) == left[id];
    assert now[id := Some(sealed)].Keys == now.Keys;
  }

  lemma NothingSealedYet(c: Crypto, before: map<nat, Option<string>>, left: map<nat, string>)
    requires forall id :: id in left <==> id in before && Unsealed(before[id])
    requires forall id :: id in left ==> before[id] == Some(left[id])
    ensures SealedSoFar(c, before, before, left)
  {
  }

  class RevisionTable {
    var durable: Revisions
    var work: Revisions

    constructor (r: Revisions)
      ensures durable == work == r
    {
      durable, work := r, r;
    }

    method Rollback()
      modifies this
      ensures durable == old(durable) && work == durable
    {
      work := durable;
    }

    /** The migration and the commit that records it.  EngineError is a key that cannot be read. */
    method M021SealRevisions(c: Crypto) returns (r: Outcome)
      requires c.Sound() && work == durable
      modifies this
      ensures work == durable
      ensures !r.Done? ==>
        durable.bodies == old(durable).bodies || (r.Crashed? && ReadsTheSame(c, old(durable).bodies, durable.bodies))
      ensures r.Done? ==> durable.hasHashKind && ReadsTheSame(c, old(durable).bodies, durable.bodies)
      ensures r.Done? ==> forall id :: id in durable.bodies ==> !Unsealed(durable.bodies[id])
      ensures old(durable).hasHashKind ==> durable.hasHashKind
    {
      if !work.hasHashKind {
        if * {
          Rollback();
          return Crashed;
        }
        work := work.(hasHashKind := true);
        durable := work;
        if * {
          return Crashed;
        }
      }
      ghost var before := work.bodies;
      var rows := set id | id in work.bodies && Unsealed(work.bodies[id]);
      var left := map id | id in rows :: work.bodies[id].value;
      NothingSealedYet(c, before, left);
      while left != map[]
        invariant SealedSoFar(c, before, work.bodies, left)
        invariant durable == Revisions(before, true) && work.hasHashKind
        decreases |left|
      {
        var id, plain := AnyRow(left);
        if * {
          Rollback();
          return Crashed;
        }
        var readable: bool := *;
        if !readable {
          Rollback();
          return EngineError;
        }
        var nonce: nat :| nonce >= 0;
        hide SealedSoFar;
        SealOne(c, before, work.bodies, left, id, nonce);
        work := work.(bodies := work.bodies[id := Some(c.seal(plain, nonce))]);
        left := left - {id};
      }
      if * {
        Rollback();
        return Crashed;
      }
      durable := work;
      if * {
        return Crashed;
      }
      return Done;
    }

    method AnyRow(left: map<nat, string>) returns (id: nat, plain: string)
      requires left != map[]
      ensures id in left && plain == left[id]
    {
      assert left.Items != {} by {
        assert |left.Keys| == |left| && |left.Items| == |left|;
      }
      var item :| item in left.Items;
      id, plain := item.0, item.1;
    }

    /** Any number of starts that die or fail anywhere: every revision reads as it always did, none is sealed twice,
        and after one that completes none is left unsealed. */
    method StartRepeatedly(c: Crypto, starts: nat) returns (r: Outcome)
      requires c.Sound() && work == durable
      modifies this
      ensures work == durable && ReadsTheSame(c, old(durable).bodies, durable.bodies)
      ensures r.Done? ==> durable.hasHashKind && forall id :: id in durable.bodies ==> !Unsealed(durable.bodies[id])
    {
      r := Crashed;
      ghost var first := durable.bodies;
      for k := 0 to starts
        invariant work == durable && ReadsTheSame(c, first, durable.bodies)
        invariant r.Done? ==> durable.hasHashKind && forall id :: id in durable.bodies ==> !Unsealed(durable.bodies[id])
      {
        ghost var was := durable.bodies;
        r := M021SealRevisions(c);
        assert ReadsTheSame(c, was, durable.bodies);
        ReadingTwice(c, first, was, durable.bodies);
      }
    }
  }
}
