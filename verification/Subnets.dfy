/**
 The [subnets] section: `id = name, cidr` lines read into a map and rewritten from one.  A rewrite refuses only new or
 changed names, and brings back entries a comma in the name had made unreadable.
 */
module Subnets {
  import opened Outcomes
  import opened Text

  datatype Entry = Entry(name: string, cidr: string)

  datatype Line = Line(key: string, value: string)

  // ── Fields of a line ────────────────────────────────────────────────────────────────────────────────────────

  predicate NoComma(s: string) {
    ',' !in s
  }

  /** str.split(",") */
  function Split(s: string): (parts: seq<string>)
    ensures |parts| >= 1 && forall i :: 0 <= i < |parts| ==> NoComma(parts[i])
  {
    if s == "" then [""]
    else if s[0] == ',' then [""] + Split(s[1..])
    else
      var rest := Split(s[1..]);
      [[s[0]] + rest[0]] + rest[1..]
  }

  function Fields(value: string): (parts: seq<string>)
    ensures |parts| >= 1
    ensures forall i :: 0 <= i < |parts| ==> NoComma(parts[i]) && Strip(parts[i]) == parts[i]
  {
    var raw := Split(value);
    var parts := seq(|raw|, i requires 0 <= i < |raw| => Strip(raw[i]));
    assert forall i :: 0 <= i < |parts| ==> NoComma(parts[i]) && Strip(parts[i]) == parts[i] by {
      forall i | 0 <= i < |parts|
        ensures NoComma(parts[i]) && Strip(parts[i]) == parts[i]
      {
        StripAddsNothing(raw[i]);
        StrippedTwice(raw[i]);
      }
    }
    parts
  }

  lemma {:induction false} StripLeftFacts(s: string)
    ensures forall c :: c in StripLeft(s) ==> c in s
    ensures StripLeft(s) != "" ==> !Blank(StripLeft(s)[0])
  {
    if s != "" && Blank(s[0]) {
      StripLeftFacts(s[1..]);
    }
  }

  lemma {:induction false} StripRightFacts(s: string)
    ensures StripRight(s) <= s
    ensures StripRight(s) != "" ==> !Blank(StripRight(s)[|StripRight(s)| - 1])
  {
    if s != "" && Blank(s[|s| - 1]) {
      StripRightFacts(s[..|s| - 1]);
    }
  }

  lemma StripAddsNothing(s: string)
    ensures forall c :: c in Strip(s) ==> c in s
  {
    StripLeftFacts(s);
    StripRightFacts(StripLeft(s));
  }

  lemma StrippedTwice(s: string)
    ensures Strip(Strip(s)) == Strip(s)
  {
    var t := StripLeft(s);
    StripLeftFacts(s);
    StripRightFacts(t);
    var u := StripRight(t);
    assert u != "" ==> u[0] == t[0];
  }

  lemma {:induction false} SplitWithoutComma(s: string)
    requires NoComma(s)
    ensures Split(s) == [s]
  {
    if s != "" {
      SplitWithoutComma(s[1..]);
      assert [s[0]] + s[1..] == s;
    }
  }

  lemma {:induction false} SplitAtItsComma(a: string, b: string)
    requires NoComma(a) && NoComma(b)
    ensures Split(a + ("," + b)) == [a, b]
  {
    var s := a + ("," + b);
    if a == "" {
      assert s == "," + b && s[1..] == b;
      SplitWithoutComma(b);
    } else {
      assert s[1..] == a[1..] + ("," + b);
      SplitAtItsComma(a[1..], b);
      assert [a[0]] + a[1..] == a;
    }
  }

  /** What is written for an entry. */
  function Print(e: Entry): string {
    e.name + ("," + (" " + e.cidr))
  }

  lemma PrintedFields(e: Entry)
    requires NoComma(e.name) && NoComma(e.cidr)
    ensures Fields(Print(e)) == [Strip(e.name), Strip(e.cidr)]
  {
    SplitAtItsComma(e.name, " " + e.cidr);
    assert (" " + e.cidr)[1..] == e.cidr;
    assert Strip(" " + e.cidr) == Strip(e.cidr);
  }

  // ── Ids ─────────────────────────────────────────────────────────────────────────────────────────────────────

  /** str(id) */
  function IdText(id: int): (s: string)
    ensures s != "" && (s[0] == '-' <==> id < 0)
  {
    if id < 0 then "-" + Decimal(-id) else Decimal(id)
  }

  /** int(key), for an optional sign and ASCII digits. */
  function ParseId(key: string): Option<int> {
    if Numeral(key) then Some(ToNat(key))
    else if key != "" && key[0] == '-' && Numeral(key[1..]) then Some(0 - ToNat(key[1..]))
    else if key != "" && key[0] == '+' && Numeral(key[1..]) then Some(ToNat(key[1..]))
    else None
  }

  /** `key` is the digits `d`, with a sign or without, for `id`. */
  predicate SignedNumeral(key: string, d: string, id: int) {
    && Numeral(d)
    && if key == "-" + d then id + ToNat(d) == 0 else (key == d || key == "+" + d) && id == ToNat(d)
  }

  /** What is read as an id: a numeral, with a sign or without. */
  lemma IdsAreSignedNumerals(key: string, id: int)
    ensures ParseId(key) == Some(id) <==> exists d :: SignedNumeral(key, d, id)
  {
    assert key != "" ==> key == [key[0]] + key[1..];
    if ParseId(key) == Some(id) {
      assert SignedNumeral(key, if Numeral(key) then key else key[1..], id);
    }
    if d :| SignedNumeral(key, d, id) {
      assert key != d ==> key[1..] == d;
    }
  }

  lemma IdsReadBack(id: int)
    ensures ParseId(IdText(id)) == Some(id)
  {
    if id < 0 {
      var d := Decimal(-id);
      assert ("-" + d)[0] == '-' && ("-" + d)[1..] == d;
      assert !Digit('-');
    }
  }

  // ── Reading ─────────────────────────────────────────────────────────────────────────────────────────────────

  function ReadLine(line: Line, net: string -> bool): Option<(int, Entry)> {
    var parts := Fields(line.value);
    if |parts| != 2 || !net(parts[1]) then None
    else
      var id :- ParseId(line.key);
      Some((id, Entry(parts[0], parts[1])))
  }

  /** derive_subnet_map: a later line for the same id wins. */
  function Derive(lines: seq<Line>, net: string -> bool): map<int, Entry> {
    if lines == [] then map[]
    else
      var m := Derive(lines[..|lines| - 1], net);
      match ReadLine(lines[|lines| - 1], net)
      case Some((id, e)) => m[id := e]
      case None => m
  }

  method DeriveSubnetMap(lines: seq<Line>, net: string -> bool) returns (m: map<int, Entry>)
    ensures m == Derive(lines, net)
  {
    m := map[];
    for i := 0 to |lines|
      invariant m == Derive(lines[..i], net)
    {
      assert lines[..i + 1][..i] == lines[..i];
      var parts := Fields(lines[i].value);
      if |parts| != 2 {
        continue;
      }
      if !net(parts[1]) {
        continue;
      }
      match ParseId(lines[i].key)
      case Some(id) => m := m[id := Entry(parts[0], parts[1])];
      case None =>
    }
    assert lines[..|lines|] == lines;
  }

  lemma {:induction false} EveryDerivedEntryHasALine(lines: seq<Line>, net: string -> bool, id: int)
    requires id in Derive(lines, net)
    ensures exists i :: 0 <= i < |lines| && ReadLine(lines[i], net) == Some((id, Derive(lines, net)[id]))
  {
    var k := |lines| - 1;
    if ReadLine(lines[k], net).Some? && ReadLine(lines[k], net).value.0 == id {
      assert ReadLine(lines[k], net) == Some((id, Derive(lines, net)[id]));
    } else {
      EveryDerivedEntryHasALine(lines[..k], net, id);
      var i :| 0 <= i < k && ReadLine(lines[..k][i], net) == Some((id, Derive(lines[..k], net)[id]));
      assert lines[i] == lines[..k][i];
    }
  }

  lemma {:induction false} EveryReadableLineIsDerived(lines: seq<Line>, net: string -> bool, i: nat)
    requires i < |lines| && ReadLine(lines[i], net).Some?
    ensures ReadLine(lines[i], net).value.0 in Derive(lines, net)
  {
    var k := |lines| - 1;
    if i < k {
      assert lines[..k][i] == lines[i];
      EveryReadableLineIsDerived(lines[..k], net, i);
    }
  }

  lemma DerivedEntriesAreTidy(lines: seq<Line>, net: string -> bool, id: int)
    requires id in Derive(lines, net)
    ensures
      var e := Derive(lines, net)[id];
      NoComma(e.name) && NoComma(e.cidr) && Strip(e.name) == e.name && Strip(e.cidr) == e.cidr && net(e.cidr)
  {
    EveryDerivedEntryHasALine(lines, net, id);
  }

  // ── Repairing and refusing ──────────────────────────────────────────────────────────────────────────────────

  predicate ValidName(name: string) {
    && 0 < |name| <= 64
    && (forall i :: 0 <= i < |name| ==> name[i] !in ",=[]" && ' ' <= name[i] && name[i] != '\U{7F}')
  }

  /** Empty, over 64 characters, or with one of `,=[]` or a control character in it. */
  ghost predicate Unfit(name: string) {
    || name == "" || |name| > 64
    || exists c :: c in name && (c in {',', '=', '[', ']'} || c as int < 0x20 || c as int == 0x7F)
  }

  lemma ValidUnlessUnfit(name: string)
    ensures ValidName(name) <==> !Unfit(name)
  {
    forall c: char
      ensures c in {',', '=', '[', ']'} <==> c in ",=[]"
    {
      assert ",=[]"[0] == ',' && ",=[]"[1] == '=' && ",=[]"[2] == '[' && ",=[]"[3] == ']';
    }
    if Unfit(name) && 0 < |name| <= 64 {
      var c :| c in name && (c in {',', '=', '[', ']'} || c as int < 0x20 || c as int == 0x7F);
      var i :| 0 <= i < |name| && name[i] == c;
    } else if !Unfit(name) {
      forall i | 0 <= i < |name|
        ensures name[i] !in ",=[]" && ' ' <= name[i] && name[i] != '\U{7F}'
      {
        assert name[i] in name;
      }
    }
  }

  function Join(parts: seq<string>): string {
    if parts == [] then "" else if |parts| == 1 then parts[0] else parts[0] + ", " + Join(parts[1..])
  }

  function CommasToSpaces(s: string): (r: string)
    ensures NoComma(r) && |r| == |s|
  {
    seq(|s|, i requires 0 <= i < |s| => if s[i] == ',' then ' ' else s[i])
  }

  /** What an unreadable line still holds: every field but the last is the name, the last is the network. */
  function Repair(line: Line): Option<(int, Entry)> {
    var id :- ParseId(line.key);
    var parts := Fields(line.value);
    if |parts| < 2 then None
    else Some((id, Entry(CommasToSpaces(Join(parts[..|parts| - 1])), parts[|parts| - 1])))
  }

  /** The repaired entries, the first line for an id winning; ids in `taken` are not touched. */
  function Repairs(lines: seq<Line>, taken: set<int>): map<int, Entry> {
    if lines == [] then map[]
    else
      var m := Repairs(lines[..|lines| - 1], taken);
      match Repair(lines[|lines| - 1])
      case Some((id, e)) => if id in taken || id in m then m else m[id := e]
      case None => m
  }

  /** A name that is new or changed and not fit to be stored. */
  ghost predicate Offends(id: int, e: Entry, stored: map<int, Entry>) {
    (id !in stored || stored[id].name != e.name) && Unfit(e.name)
  }

  ghost predicate Refused(wanted: map<int, Entry>, stored: map<int, Entry>) {
    exists id :: id in wanted && Offends(id, wanted[id], stored)
  }

  /** The first loop: every wanted entry copied, unless a new or changed name is not valid. */
  method AcceptNames(wanted: map<int, Entry>, stored: map<int, Entry>) returns (r: Option<map<int, Entry>>)
    ensures r.None? <==> Refused(wanted, stored)
    ensures r.Some? ==> r.value == wanted
  {
    var m: map<int, Entry> := map[];
    var left := wanted.Items;
    while left != {}
      invariant left <= wanted.Items
      invariant forall id :: id in m <==> id in wanted && (id, wanted[id]) !in left
      invariant forall id :: id in m ==> m[id] == wanted[id] && !Offends(id, wanted[id], stored)
      decreases |left|
    {
      var item :| item in left;
      var (id, info) := item;
      ValidUnlessUnfit(info.name);
      if (id !in stored || stored[id].name != info.name) && !ValidName(info.name) {
        assert Offends(id, wanted[id], stored);
        return None;
      }
      m, left := m[id := info], left - {item};
    }
    forall id | id in wanted
      ensures id in m && !Offends(id, wanted[id], stored)
    {
      assert (id, wanted[id]) !in left;
      assert m[id] == wanted[id];
    }
    assert m.Keys == wanted.Keys;
    r := Some(m);
  }

  lemma RepairStep(lines: seq<Line>, i: nat, taken: set<int>, wanted: map<int, Entry>, m: map<int, Entry>)
    requires i < |lines| && wanted.Keys <= taken && m == Repairs(lines[..i], taken) + wanted
    ensures Repairs(lines[..i + 1], taken) + wanted ==
      if Repair(lines[i]).None? || Repair(lines[i]).value.0 in taken || Repair(lines[i]).value.0 in m then m
      else m[Repair(lines[i]).value.0 := Repair(lines[i]).value.1]
  {
    assert lines[..i + 1][..i] == lines[..i];
  }

  method ReconcileSubnetNames(wanted: map<int, Entry>, stored: map<int, Entry>, lines: seq<Line>)
    returns (r: Option<map<int, Entry>>)
    ensures r.None? <==> Refused(wanted, stored)
    ensures r.Some? ==> r.value == Repairs(lines, stored.Keys + wanted.Keys) + wanted
  {
    hide Fields, CommasToSpaces, Join, ParseId, Refused;
    var m :- AcceptNames(wanted, stored);
    ghost var taken := stored.Keys + wanted.Keys;
    assert Repairs(lines[..0], taken) + wanted == wanted;
    for i := 0 to |lines|
      invariant m == Repairs(lines[..i], taken) + wanted
    {
      RepairStep(lines, i, taken, wanted, m);
      match ParseId(lines[i].key)
      case None =>
      case Some(id) =>
        if id in stored || id in m {
          continue;
        }
        var parts := Fields(lines[i].value);
        if |parts| < 2 {
          continue;
        }
        var fixed := CommasToSpaces(Join(parts[..|parts| - 1]));
        m := m[id := Entry(fixed, parts[|parts| - 1])];
    }
    assert lines[..|lines|] == lines;
    r := Some(m);
  }

  // ── Writing ─────────────────────────────────────────────────────────────────────────────────────────────────

  function LineOf(id: int, e: Entry): Line {
    Line(IdText(id), Print(e))
  }

  /** One line for every entry of `m`, and no other. */
  ghost predicate Printed(lines: seq<Line>, m: map<int, Entry>) {
    && (forall l :: l in lines ==> exists id :: id in m && l == LineOf(id, m[id]))
    && (forall id :: id in m ==> LineOf(id, m[id]) in lines)
  }

  method PrintSection(m: map<int, Entry>) returns (lines: seq<Line>)
    ensures Printed(lines, m)
  {
    lines := [];
    var left := m.Items;
    while left != {}
      invariant left <= m.Items
      invariant forall l :: l in lines ==> exists id :: id in m && l == LineOf(id, m[id])
      invariant forall id :: id in m && (id, m[id]) !in left ==> LineOf(id, m[id]) in lines
      decreases |left|
    {
      var item :| item in left;
      var (id, e) := item;
      lines, left := lines + [LineOf(id, e)], left - {item};
    }
    forall id | id in m
      ensures LineOf(id, m[id]) in lines
    {
      assert (id, m[id]) !in left;
    }
  }

  /** The section rewritten from `wanted`, or None when a name is refused and nothing is written. */
  method RewriteSection(wanted: map<int, Entry>, lines: seq<Line>, net: string -> bool) returns (r: Option<seq<Line>>)
    ensures r.None? <==> Refused(wanted, Derive(lines, net))
    ensures r.Some? ==> Written(wanted, lines, net, r.value)
    // a map whose invalid names are all stored ones is written
    ensures (forall id :: id in wanted && Unfit(wanted[id].name) ==>
               id in Derive(lines, net) && Derive(lines, net)[id].name == wanted[id].name) ==> r.Some?
  {
    hide Unfit;
    var stored := DeriveSubnetMap(lines, net);
    var reconciled :- ReconcileSubnetNames(wanted, stored, lines);
    var written := PrintSection(reconciled);
    r := Some(written);
  }

  ghost predicate Written(wanted: map<int, Entry>, lines: seq<Line>, net: string -> bool, after: seq<Line>) {
    && !Refused(wanted, Derive(lines, net))
    && Printed(after, Repairs(lines, Derive(lines, net).Keys + wanted.Keys) + wanted)
  }

  // ── The round trip ──────────────────────────────────────────────────────────────────────────────────────────

  /** The entries of `m` a reader will see: those whose network is one, as they read. */
  function Visible(m: map<int, Entry>, net: string -> bool): map<int, Entry> {
    map id | id in m && net(Strip(m[id].cidr)) :: Entry(Strip(m[id].name), Strip(m[id].cidr))
  }

  predicate CommaFree(m: map<int, Entry>) {
    forall id :: id in m ==> NoComma(m[id].name) && NoComma(m[id].cidr)
  }

  lemma PrintedLineReads(id: int, e: Entry, net: string -> bool)
    requires NoComma(e.name) && NoComma(e.cidr)
    ensures
      ReadLine(LineOf(id, e), net)
      == if net(Strip(e.cidr)) then Some((id, Entry(Strip(e.name), Strip(e.cidr)))) else None
  {
    PrintedFields(e);
    IdsReadBack(id);
  }

  /** A printed section reads back as its visible entries, whatever the order of the lines. */
  lemma PrintedSectionReadsBack(lines: seq<Line>, m: map<int, Entry>, net: string -> bool)
    requires Printed(lines, m) && CommaFree(m)
    ensures Derive(lines, net) == Visible(m, net)
  {
    hide Print, IdText, ParseId, Fields, Strip, NoComma;
    var derived, visible := Derive(lines, net), Visible(m, net);
    forall id | id in derived
      ensures id in visible && derived[id] == visible[id]
    {
      EveryDerivedEntryHasALine(lines, net, id);
      var i :| 0 <= i < |lines| && ReadLine(lines[i], net) == Some((id, derived[id]));
      assert lines[i] in lines;
      var j :| j in m && lines[i] == LineOf(j, m[j]);
      PrintedLineReads(j, m[j], net);
    }
    forall id | id in visible
      ensures id in derived
    {
      PrintedLineReads(id, m[id], net);
      assert LineOf(id, m[id]) in lines;
      var i :| 0 <= i < |lines| && lines[i] == LineOf(id, m[id]);
      EveryReadableLineIsDerived(lines, net, i);
    }
    assert derived.Keys == visible.Keys;
  }

  lemma {:induction false} RepairsAreCommaFree(lines: seq<Line>, taken: set<int>)
    ensures CommaFree(Repairs(lines, taken))
    ensures forall id :: id in Repairs(lines, taken) ==> id !in taken
  {
    if lines != [] {
      RepairsAreCommaFree(lines[..|lines| - 1], taken);
    }
  }

  /** An accepted name has no comma: it is a stored one, or it was checked. */
  lemma AcceptedIsCommaFree(wanted: map<int, Entry>, lines: seq<Line>, net: string -> bool)
    requires !Refused(wanted, Derive(lines, net)) && forall id :: id in wanted ==> NoComma(wanted[id].cidr)
    ensures CommaFree(wanted)
  {
    var stored := Derive(lines, net);
    forall id | id in wanted
      ensures NoComma(wanted[id].name)
    {
      assert !Offends(id, wanted[id], stored);
      if id in stored && stored[id].name == wanted[id].name {
        DerivedEntriesAreTidy(lines, net, id);
      } else {
        FitNamesHaveNoComma(wanted[id].name);
      }
    }
  }

  lemma FitNamesHaveNoComma(name: string)
    requires !Unfit(name)
    ensures NoComma(name)
  {
  }

  lemma VisibleOfBoth(a: map<int, Entry>, b: map<int, Entry>, net: string -> bool)
    requires forall id :: id in a ==> id !in b
    ensures Visible(a + b, net) == Visible(a, net) + Visible(b, net)
  {
    hide Strip;
    var both, sum := Visible(a + b, net), Visible(a, net) + Visible(b, net);
    forall id
      ensures id in both <==> id in sum
      ensures id in both ==> both[id] == sum[id]
    {
    }
    assert both.Keys == sum.Keys;
  }

  /** Write, then read: the wanted entries and the repaired ones, those of either whose network is one. */
  lemma WriteThenRead(wanted: map<int, Entry>, lines: seq<Line>, net: string -> bool, after: seq<Line>)
    requires Written(wanted, lines, net, after) && forall id :: id in wanted ==> NoComma(wanted[id].cidr)
    ensures Derive(after, net) ==
      Visible(Repairs(lines, Derive(lines, net).Keys + wanted.Keys), net) + Visible(wanted, net)
  {
    hide Strip, NoComma, Print, Derive, Repairs, Visible, Refused;
    var repairs := Repairs(lines, Derive(lines, net).Keys + wanted.Keys);
    AcceptedIsCommaFree(wanted, lines, net);
    RepairsAreCommaFree(lines, Derive(lines, net).Keys + wanted.Keys);
    PrintedSectionReadsBack(after, repairs + wanted, net);
    VisibleOfBoth(repairs, wanted, net);
  }

  predicate Trimmed(m: map<int, Entry>, net: string -> bool) {
    forall id :: id in m ==>
      Strip(m[id].name) == m[id].name && Strip(m[id].cidr) == m[id].cidr && net(m[id].cidr) && NoComma(m[id].cidr)
  }

  /** What is recovered for an id: the first line of that id that still holds a name and a network. */
  function FirstRepair(lines: seq<Line>, id: int): Option<Entry> {
    if lines == [] then None
    else
      var k := |lines| - 1;
      if FirstRepair(lines[..k], id).Some? then FirstRepair(lines[..k], id)
      else if Repair(lines[k]).Some? && Repair(lines[k]).value.0 == id then Some(Repair(lines[k]).value.1)
      else None
  }

  lemma {:induction false} RepairsAreTheFirst(lines: seq<Line>, taken: set<int>, id: int)
    ensures id in Repairs(lines, taken) <==> id !in taken && FirstRepair(lines, id).Some?
    ensures id in Repairs(lines, taken) ==> Some(Repairs(lines, taken)[id]) == FirstRepair(lines, id)
  {
    hide Repair;
    if lines != [] {
      RepairsAreTheFirst(lines[..|lines| - 1], taken, id);
    }
  }

  lemma {:induction false} RepairsEndInAField(lines: seq<Line>, id: int)
    requires FirstRepair(lines, id).Some?
    ensures
      var e := FirstRepair(lines, id).value;
      Strip(e.cidr) == e.cidr && exists l :: l in lines && Repair(l) == Some((id, e))
  {
    var k := |lines| - 1;
    assert lines[k] in lines;
    if FirstRepair(lines[..k], id).Some? {
      RepairsEndInAField(lines[..k], id);
      var l :| l in lines[..k] && Repair(l) == Some((id, FirstRepair(lines[..k], id).value));
      assert l in lines;
    } else {
      assert Repair(lines[k]) == Some((id, FirstRepair(lines, id).value));
    }
  }

  function Lookup(m: map<int, Entry>, id: int): Option<Entry> {
    if id in m then Some(m[id]) else None
  }

  lemma TrimmedIsVisible(m: map<int, Entry>, net: string -> bool)
    requires Trimmed(m, net)
    ensures Visible(m, net) == m
  {
    hide Strip;
    var v := Visible(m, net);
    forall id | id in m
      ensures id in v && v[id] == m[id]
    {
    }
    assert v.Keys == m.Keys;
  }

  /** For trimmed entries with valid networks: each is read back as it was asked for; an entry that was readable and
      is not asked for is gone; an unreadable one is back, repaired, when its last field is a network. */
  lemma TrimmedEntriesRoundTrip(wanted: map<int, Entry>, lines: seq<Line>, net: string -> bool, after: seq<Line>,
                                id: int)
    requires Written(wanted, lines, net, after) && Trimmed(wanted, net)
    ensures Lookup(Derive(after, net), id) ==
      if id in wanted then Some(wanted[id])
      else if id in Derive(lines, net) || FirstRepair(lines, id).None? then None
      else
        var e := FirstRepair(lines, id).value;
        if net(e.cidr) then Some(Entry(Strip(e.name), e.cidr)) else None
  {
    hide Print, Derive, Repair, Repairs, Fields, FirstRepair;
    WriteThenRead(wanted, lines, net, after);
    TrimmedIsVisible(wanted, net);
    RepairsAreTheFirst(lines, Derive(lines, net).Keys + wanted.Keys, id);
    if FirstRepair(lines, id).Some? {
      RepairsEndInAField(lines, id);
    }
  }

  /** Such a line is one a comma in the name had damaged: it has more than two fields. */
  lemma UnreadableMeansDamaged(lines: seq<Line>, net: string -> bool, l: Line)
    requires l in lines && Repair(l).Some? && net(Repair(l).value.1.cidr)
    requires Repair(l).value.0 !in Derive(lines, net)
    ensures |Fields(l.value)| > 2
  {
    if |Fields(l.value)| == 2 {
      var i :| 0 <= i < |lines| && lines[i] == l;
      EveryReadableLineIsDerived(lines, net, i);
      assert false;
    }
  }

  /** A name nobody touched is never refused and comes back as it was, whatever it contains. */
  lemma LegacyNameSurvives(wanted: map<int, Entry>, lines: seq<Line>, net: string -> bool, after: seq<Line>, id: int)
    requires Written(wanted, lines, net, after) && forall i :: i in wanted ==> NoComma(wanted[i].cidr)
    requires id in wanted && id in Derive(lines, net) && wanted[id] == Derive(lines, net)[id]
    ensures id in Derive(after, net) && Derive(after, net)[id] == Derive(lines, net)[id]
  {
    hide Print, Derive, Repair, Repairs, Fields;
    DerivedEntriesAreTidy(lines, net, id);
    WriteThenRead(wanted, lines, net, after);
  }

  /** Writing back what was just read changes nothing that is read, and is never refused. */
  lemma SecondWriteIsAFixedPoint(wanted: map<int, Entry>, lines: seq<Line>, net: string -> bool, after: seq<Line>,
                                 again: seq<Line>)
    requires Written(wanted, lines, net, after) && forall id :: id in wanted ==> NoComma(wanted[id].cidr)
    ensures !Refused(Derive(after, net), Derive(after, net))
    ensures Written(Derive(after, net), after, net, again) ==> Derive(again, net) == Derive(after, net)
  {
    hide Print, Derive, Repair, Repairs, Fields, FirstRepair, ReadLine;
    var now := Derive(after, net);
    if Written(now, after, net, again) {
      forall id | id in now
        ensures Strip(now[id].name) == now[id].name && Strip(now[id].cidr) == now[id].cidr
        ensures net(now[id].cidr) && NoComma(now[id].cidr)
      {
        DerivedEntriesAreTidy(after, net, id);
      }
      forall id
        ensures Lookup(Derive(again, net), id) == Lookup(now, id)
      {
        TrimmedEntriesRoundTrip(now, after, net, again, id);
        if id !in now && FirstRepair(after, id).Some? {
          var e := FirstRepair(after, id).value;
          RepairsEndInAField(after, id);
          var l :| l in after && Repair(l) == Some((id, e));
          NothingPrintedIsDamaged(wanted, lines, net, after, l);
        }
      }
      SameLookups(Derive(again, net), now);
    }
  }

  lemma SameLookups(a: map<int, Entry>, b: map<int, Entry>)
    requires forall id :: Lookup(a, id) == Lookup(b, id)
    ensures a == b
  {
    forall id
      ensures id in a <==> id in b
      ensures id in a ==> a[id] == b[id]
    {
      assert Lookup(a, id) == Lookup(b, id);
    }
  }

  /** Every printed line has two fields, so one that is still unreadable does not end in a network. */
  lemma NothingPrintedIsDamaged(wanted: map<int, Entry>, lines: seq<Line>, net: string -> bool, after: seq<Line>,
                                l: Line)
    requires Written(wanted, lines, net, after) && forall id :: id in wanted ==> NoComma(wanted[id].cidr)
    requires l in after && Repair(l).Some? && Repair(l).value.0 !in Derive(after, net)
    ensures !net(Repair(l).value.1.cidr)
  {
    hide Print, Derive, Repairs, Refused;
    var taken := Derive(lines, net).Keys + wanted.Keys;
    AcceptedIsCommaFree(wanted, lines, net);
    RepairsAreCommaFree(lines, taken);
    var m := Repairs(lines, taken) + wanted;
    var id :| id in m && l == LineOf(id, m[id]);
    PrintedFields(m[id]);
    if net(Repair(l).value.1.cidr) {
      UnreadableMeansDamaged(after, net, l);
    }
  }

  // ── What a comma in a name does ─────────────────────────────────────────────────────────────────────────────

  /** The parts with `sep` between them. */
  function Joined(sep: string, parts: seq<string>): string
    requires parts != []
  {
    if |parts| == 1 then parts[0] else Joined(sep, parts[..|parts| - 1]) + (sep + parts[|parts| - 1])
  }

  lemma {:induction false} JoinedFromTheFront(sep: string, first: string, rest: seq<string>)
    requires rest != []
    ensures Joined(sep, [first] + rest) == first + (sep + Joined(sep, rest))
  {
    var k := |rest| - 1;
    assert ([first] + rest)[..k + 1] == [first] + rest[..k];
    if k == 0 {
      assert rest[..k] == [] && [first] + rest[..k] == [first];
    } else {
      JoinedFromTheFront(sep, first, rest[..k]);
      var front, last := Joined(sep, rest[..k]), rest[k];
      assert first + (sep + front) + (sep + last) == first + (sep + (front + (sep + last)));
    }
  }

  lemma {:induction false} JoinIsJoined(parts: seq<string>)
    requires parts != []
    ensures Join(parts) == Joined(", ", parts)
  {
    if |parts| > 1 {
      JoinIsJoined(parts[1..]);
      JoinedFromTheFront(", ", parts[0], parts[1..]);
      assert parts == [parts[0]] + parts[1..];
      var rest := Joined(", ", parts[1..]);
      assert parts[0] + ", " + rest == parts[0] + (", " + rest);
    }
  }

  lemma SpacedPart(a: string, b: string)
    ensures CommasToSpaces(a + b) == CommasToSpaces(a) + CommasToSpaces(b)
    ensures NoComma(a) ==> CommasToSpaces(a) == a
    ensures CommasToSpaces(", ") == "  "
  {
  }

  lemma {:induction false} SpacesForCommas(parts: seq<string>)
    requires parts != [] && forall i :: 0 <= i < |parts| ==> NoComma(parts[i])
    ensures CommasToSpaces(Joined(", ", parts)) == Joined("  ", parts)
  {
    var k := |parts| - 1;
    SpacedPart(parts[0], "");
    if k > 0 {
      SpacesForCommas(parts[..k]);
      SpacedPart(Joined(", ", parts[..k]), ", " + parts[k]);
      SpacedPart(", ", parts[k]);
      SpacedPart(parts[k], "");
    }
  }

  lemma {:induction false} SplitAtFirst(a: string, b: string)
    requires NoComma(a)
    ensures Split(a + ("," + b)) == [a] + Split(b)
  {
    var s := a + ("," + b);
    if a == "" {
      assert s == "," + b && s[1..] == b;
    } else {
      assert s[1..] == a[1..] + ("," + b);
      SplitAtFirst(a[1..], b);
      assert [a[0]] + a[1..] == a;
    }
  }

  lemma {:induction false} SplitOfJoined(parts: seq<string>)
    requires parts != [] && forall i :: 0 <= i < |parts| ==> NoComma(parts[i])
    ensures Split(Joined(",", parts)) == parts
  {
    if |parts| == 1 {
      SplitWithoutComma(parts[0]);
    } else {
      assert parts == [parts[0]] + parts[1..];
      JoinedFromTheFront(",", parts[0], parts[1..]);
      SplitAtFirst(parts[0], Joined(",", parts[1..]));
      SplitOfJoined(parts[1..]);
    }
  }

  function AllStripped(parts: seq<string>): (r: seq<string>)
    ensures |r| == |parts| && forall i :: 0 <= i < |r| ==> r[i] == Strip(parts[i])
  {
    seq(|parts|, i requires 0 <= i < |parts| => Strip(parts[i]))
  }

  lemma FieldsOfJoined(parts: seq<string>)
    requires parts != [] && forall i :: 0 <= i < |parts| ==> NoComma(parts[i])
    ensures Fields(Joined(",", parts)) == AllStripped(parts)
  {
    SplitOfJoined(parts);
    hide Joined, Strip;
  }

  lemma StrippedPartsHaveNoComma(parts: seq<string>)
    requires forall i :: 0 <= i < |parts| ==> NoComma(parts[i])
    ensures forall i :: 0 <= i < |parts| ==> NoComma(AllStripped(parts)[i])
  {
    hide Strip;
    forall i | 0 <= i < |parts|
      ensures NoComma(AllStripped(parts)[i])
    {
      StripAddsNothing(parts[i]);
    }
  }

  lemma AllButTheLast(parts: seq<string>, last: string)
    ensures
      var all := AllStripped(parts + [last]);
      all[..|parts|] == AllStripped(parts) && all[|parts|] == Strip(last)
  {
    hide Strip;
  }

  /** Of a line whose name had commas in it: the name comes back with two spaces for each, the blanks around it gone,
      and the network is the last field. */
  lemma DamagedNamesAreRepaired(key: string, id: int, parts: seq<string>, cidr: string)
    requires ParseId(key) == Some(id) && parts != []
    requires NoComma(cidr) && forall i :: 0 <= i < |parts| ==> NoComma(parts[i])
    ensures Repair(Line(key, Joined(",", parts + [cidr]))) ==
      Some((id, Entry(Joined("  ", AllStripped(parts)), Strip(cidr))))
  {
    hide ParseId, Strip, Joined, Fields, AllStripped, Join, CommasToSpaces, NoComma;
    FieldsOfJoined(parts + [cidr]);
    AllButTheLast(parts, cidr);
    StrippedPartsHaveNoComma(parts);
    JoinIsJoined(AllStripped(parts));
    SpacesForCommas(AllStripped(parts));
  }
}
