/**
 The plugin request markers: which are requests, the order of a listing, and what may become of them.
 */
module PluginMarkers {
  import opened Text
  import opened PluginNames

  datatype Action = Deps | Install | Remove

  /** A name ending in one of the three suffixes; `id` is whatever stands before it. */
  datatype Marker = Marker(id: string, action: Action)

  datatype Shape = Regular | Link | Directory

  /** Nobody else writes markers and deleted ones go; others only add, no install of a plugin in `gone`, and deleted
      ones go; nobody else writes but a delete may be refused; anything may happen. */
  datatype Mode = Quiet | Adding(gone: set<string>) | Alone | Shared

  function Suffix(a: Action): string {
    match a
    case Deps => ".deps"
    case Install => ".install"
    case Remove => ".remove"
  }

  function FileName(m: Marker): string {
    m.id + Suffix(m.action)
  }

  /** What is acted on: a regular file whose name is a valid plugin id and an action. */
  predicate IsRequest(m: Marker, markers: map<Marker, Shape>) {
    m in markers && markers[m].Regular? && ValidId(m.id)
  }

  // ── Listing order ──────────────────────────────────────────────────────────────────────────────────────────────────

  predicate Before(a: Marker, b: Marker) {
    TextLess(FileName(a), FileName(b))
  }

  predicate Sorted(s: seq<Marker>) {
    forall i, j :: 0 <= i < j < |s| ==> Before(s[i], s[j])
  }

  lemma FileNamesAreDistinct(a: Marker, b: Marker)
    ensures FileName(a) == FileName(b) <==> a == b
  {
    if FileName(a) == FileName(b) {
      var f := FileName(a);
      assert f[|f| - 1] == Suffix(a.action)[|Suffix(a.action)| - 1] == Suffix(b.action)[|Suffix(b.action)| - 1];
      assert Suffix(Deps)[4] == 's' && Suffix(Install)[7] == 'l' && Suffix(Remove)[6] == 'e';
      assert a.id == f[..|f| - |Suffix(a.action)|] == b.id;
    }
  }

  lemma OneBeforeTheOther(a: Marker, b: Marker)
    ensures a == b || Before(a, b) || Before(b, a)
    ensures !(Before(a, b) && Before(b, a)) && !Before(a, a)
  {
    FileNamesAreDistinct(a, b);
    TextOrderIsTotal(FileName(a), FileName(b));
    NothingPrecedesItself(FileName(a));
    if Before(a, b) && Before(b, a) {
      TextOrderIsTransitive(FileName(a), FileName(b), FileName(a));
    }
  }

  /** Within one listing a plugin's dependencies come first and its removal last. */
  lemma RemovalComesLast(id: string)
    ensures Before(Marker(id, Deps), Marker(id, Install)) && Before(Marker(id, Install), Marker(id, Remove))
  {
    SamePrefixSameOrder(id, ".deps", ".install");
    SamePrefixSameOrder(id, ".install", ".remove");
    SamePrefixSameOrder(".", "deps", "install");
    SamePrefixSameOrder(".", "install", "remove");
    assert "." + "deps" == ".deps" && "." + "install" == ".install" && "." + "remove" == ".remove";
    assert "deps"[0] == 'd' && "install"[0] == 'i' && "remove"[0] == 'r';
  }

  lemma NothingFollowsRemoval(id: string, a: Action)
    ensures !Before(Marker(id, Remove), Marker(id, a))
  {
    RemovalComesLast(id);
    OneBeforeTheOther(Marker(id, a), Marker(id, Remove));
    TextOrderIsTransitive(FileName(Marker(id, Deps)), FileName(Marker(id, Install)), FileName(Marker(id, Remove)));
  }

  lemma FirstGoesFirst(m: Marker, s: seq<Marker>)
    requires Sorted(s) && s != [] && Before(m, s[0])
    ensures Sorted([m] + s)
  {
    hide TextLess, FileName;
    forall i | 1 <= i < |s|
      ensures Before(m, s[i])
    {
      TextOrderIsTransitive(FileName(m), FileName(s[0]), FileName(s[i]));
    }
  }

  lemma FirstStaysFirst(m: Marker, s: seq<Marker>, rest: seq<Marker>)
    requires Sorted(s) && s != [] && Before(s[0], m) && Sorted(rest)
    requires forall x :: x in rest <==> x in s[1..] || x == m
    ensures Sorted([s[0]] + rest)
  {
    hide Before;
    assert forall i :: 0 <= i < |rest| ==> rest[i] in rest;
  }

  function Insert(m: Marker, s: seq<Marker>): (r: seq<Marker>)
    requires Sorted(s) && m !in s
    ensures Sorted(r)
    ensures forall x :: x in r <==> x in s || x == m
  {
    hide Before;
    if s == [] then [m]
    else
      OneBeforeTheOther(m, s[0]);
      if Before(m, s[0]) then FirstGoesFirst(m, s); [m] + s
      else
        var rest := Insert(m, s[1..]);
        FirstStaysFirst(m, s, rest);
        [s[0]] + rest
  }

  lemma SameEmptiness(a: seq<Marker>, b: seq<Marker>)
    requires forall m :: m in a <==> m in b
    ensures a == [] <==> b == []
  {
    if a != [] {
      assert a[0] in b;
    }
    if b != [] {
      assert b[0] in a;
    }
  }

  lemma HeadIsNotRepeated(s: seq<Marker>)
    requires Sorted(s) && s != []
    ensures forall m :: m in s[1..] <==> m in s && m != s[0]
    ensures forall m :: m in s ==> m == s[0] || Before(s[0], m)
  {
    hide Before;
    assert s == [s[0]] + s[1..];
    forall k | 0 < k < |s|
      ensures s[k] != s[0]
    {
      OneBeforeTheOther(s[0], s[k]);
    }
  }

  lemma {:induction false} SortedListsOfTheSameAreEqual(a: seq<Marker>, b: seq<Marker>)
    requires Sorted(a) && Sorted(b) && forall m :: m in a <==> m in b
    ensures a == b
  {
    hide Before;
    SameEmptiness(a, b);
    if a != [] {
      assert a[0] in b && b[0] in a;
      HeadIsNotRepeated(a);
      HeadIsNotRepeated(b);
      OneBeforeTheOther(a[0], b[0]);
      assert a[0] == b[0];
      SortedListsOfTheSameAreEqual(a[1..], b[1..]);
    }
  }

  lemma SortedPrefix(s: seq<Marker>, i: nat)
    requires Sorted(s) && i < |s|
    ensures s[..i + 1] == s[..i] + [s[i]]
    ensures forall m :: m in s[..i] ==> Before(m, s[i])
    ensures forall m :: m in s[..i] ==> m != s[i] && (m.id == s[i].id ==> m.action != Remove)
  {
    forall m | m in s[..i]
      ensures Before(m, s[i]) && m != s[i] && (m.id == s[i].id ==> m.action != Remove)
    {
      var k :| 0 <= k < i && s[..i][k] == m;
      assert Before(s[k], s[i]);
      OneBeforeTheOther(m, s[i]);
      NothingFollowsRemoval(m.id, s[i].action);
    }
  }

  ghost predicate AllOf(all: seq<Marker>, markers: map<Marker, Shape>) {
    forall m :: m in all <==> m in markers
  }

  lemma HasAMember(s: seq<Marker>)
    requires s != []
    ensures exists m :: m in s
  {
    assert s[0] in s;
  }

  lemma OneMore(acted: seq<Marker>, m: Marker)
    ensures acted[..|acted|] == acted && (acted + [m])[..|acted|] == acted
    ensures (acted + [m])[..|acted| + 1] == acted + [m]
    ensures forall x :: x in acted + [m] <==> x in acted || x == m
  {
  }

  // ── What becomes of them ───────────────────────────────────────────────────────────────────────────────────────────

  /** What a quiet pass over `listing` leaves: a marker goes unless it is a directory. */
  function Cleared(markers: map<Marker, Shape>, listing: seq<Marker>): map<Marker, Shape> {
    map m | m in markers && (m !in listing || markers[m].Directory?) :: markers[m]
  }

  /** Of the first markers of a listing, `acted` are the requests, each once. */
  ghost predicate ActedOn(before: map<Marker, Shape>, done: seq<Marker>, acted: seq<Marker>) {
    Sorted(acted) && forall m :: m in acted <==> m in done && IsRequest(m, before)
  }

  /** Exactly the markers in `acted` have new results. */
  ghost predicate Reported(acted: seq<Marker>, was: map<Marker, string>, results: map<Marker, string>) {
    && (forall m :: m in acted ==> m in results)
    && (forall m :: m !in acted ==> (m in results <==> m in was) && (m in was ==> results[m] == was[m]))
  }

  /** One more marker of the listing, still as it was when the pass began. */
  lemma ActedOnStep(before: map<Marker, Shape>, here: map<Marker, Shape>, done: seq<Marker>, m: Marker,
                    acted: seq<Marker>)
    requires ActedOn(before, done, acted) && m !in done && forall x :: x in done ==> Before(x, m)
    requires (m in here <==> m in before) && (m in here ==> here[m] == before[m])
    ensures IsRequest(m, here) <==> IsRequest(m, before)
    ensures m !in acted
    ensures ActedOn(before, done + [m], if IsRequest(m, here) then acted + [m] else acted)
  {
    hide Before, ValidId;
    var next := if IsRequest(m, here) then acted + [m] else acted;
    assert forall i :: 0 <= i < |acted| ==> acted[i] in acted;
    assert forall x :: x in next <==> x in acted || (x == m && IsRequest(m, before));
  }

  lemma ClearedStep(before: map<Marker, Shape>, here: map<Marker, Shape>, done: seq<Marker>, m: Marker)
    requires here == Cleared(before, done) && m !in done
    ensures (m in here <==> m in before) && (m in here ==> here[m] == before[m])
    ensures Cleared(here, [m]) == Cleared(before, done + [m])
  {
  }

  lemma ReportedStep(acted: seq<Marker>, m: Marker, was: map<Marker, string>, results: map<Marker, string>,
                     now: map<Marker, string>)
    requires Reported(acted, was, results) && m in now && now == results[m := now[m]]
    ensures Reported(acted + [m], was, now)
  {
    assert forall x :: x in acted + [m] <==> x in acted || x == m;
  }

  /** Some markers have gone, and nothing else has become of them. */
  ghost predicate Shrunk(before: map<Marker, Shape>, after: map<Marker, Shape>) {
    forall m :: m in after ==> m in before && after[m] == before[m]
  }

  /** Markers have come, none of them an install of a plugin in `gone`. */
  ghost predicate Added(before: map<Marker, Shape>, after: map<Marker, Shape>, gone: set<string>) {
    && (forall m :: m in before ==> m in after && after[m] == before[m])
    && (forall m :: m in after && m.action == Install && m.id in gone ==> m in before)
  }

  /** What others may have made of the markers. */
  ghost predicate Interfered(mode: Mode, before: map<Marker, Shape>, after: map<Marker, Shape>) {
    match mode
    case Adding(gone) => Added(before, after, gone)
    case Shared => true
    case _ => after == before
  }
}
