/**
 The one choke point for jen.config.  Every writer reads the file, edits the parser, puts the before/after pair to the
 destination guards, the identity guards and the credential rule, replaces the file, and re-derives the globals.
 */
module ConfigStore {
  import opened Outcomes
  import opened IniFile

  type View = map<string, string>

  /** What a guard says of a before/after pair: the empty sentence to accept; one that raises gives no answer. */
  datatype Reply = Says(sentence: string) | Raises

  type Guard = (View, View) -> Reply

  /** The views, the registered guards, and the credential rule (the typed endpoints are its third argument). */
  datatype Rules = Rules(
    destination: Parser -> View,
    identity: Parser -> View,
    destinationGuards: seq<Guard>,
    identityGuards: seq<Guard>,
    moveRefusal: (Parser, Parser, set<string>) -> string)

  const UNCHECKED_DESTINATION := "Jen could not check who may change where it sends its credentials"
  const UNCHECKED_IDENTITY := "Jen could not check whether a Kea server has investigation logging outstanding"

  datatype Verdict = Allowed | Refused(sentence: string)

  // ── The rule a write must meet ──────────────────────────────────────────────────────────────────────────────

  predicate AcceptsIt(guard: Guard, before: View, after: View) {
    guard(before, after) == Says("")
  }

  predicate AllAccept(guards: seq<Guard>, before: View, after: View) {
    forall i :: 0 <= i < |guards| ==> AcceptsIt(guards[i], before, after)
  }

  /** A view may change when every guard accepts exactly that change. */
  predicate ViewMayChange(guards: seq<Guard>, before: View, after: View) {
    before != after ==> AllAccept(guards, before, after)
  }

  predicate MayReplace(rules: Rules, before: Parser, after: Parser, typed: set<string>) {
    && ViewMayChange(rules.destinationGuards, rules.destination(before), rules.destination(after))
    && ViewMayChange(rules.identityGuards, rules.identity(before), rules.identity(after))
    && rules.moveRefusal(before, after, typed) == ""
  }

  /** `sentence` is the first refusing guard's own, or `unchecked` when that guard raised. */
  ghost predicate FirstRefusal(guards: seq<Guard>, before: View, after: View, unchecked: string, sentence: string) {
    exists k ::
      0 <= k < |guards| && AllAccept(guards[..k], before, after) && !AllAccept(guards[..k + 1], before, after) &&
      sentence == match guards[k](before, after) case Says(s) => s case Raises => unchecked
  }

  method RunGuards(guards: seq<Guard>, before: View, after: View, unchecked: string) returns (v: Verdict)
    ensures v.Allowed? <==> ViewMayChange(guards, before, after)
    ensures v.Refused? ==> FirstRefusal(guards, before, after, unchecked, v.sentence)
  {
    if before == after {
      return Allowed;
    }
    for i := 0 to |guards|
      invariant AllAccept(guards[..i], before, after)
    {
      assert guards[..i + 1] == guards[..i] + [guards[i]];
      assert guards[..i + 1][i] == guards[i];
      match guards[i](before, after)
      case Raises =>
        v := Refused(unchecked);
        return;
      case Says(sentence) =>
        if sentence != "" {
          v := Refused(sentence);
          return;
        }
    }
    assert guards[..|guards|] == guards;
    v := Allowed;
  }

  /** What both a write and a preflight ask, in this order: who may repoint Jen, which Kea it is, where a password
      goes. */
  method CheckChange(rules: Rules, before: Parser, after: Parser, typed: set<string>) returns (v: Verdict)
    ensures v.Allowed? <==> MayReplace(rules, before, after, typed)
    ensures v.Refused? ==> Refusal(rules, before, after, typed, v.sentence)
  {
    v := RunGuards(rules.destinationGuards, rules.destination(before), rules.destination(after), UNCHECKED_DESTINATION);
    if v.Refused? {
      return;
    }
    v := RunGuards(rules.identityGuards, rules.identity(before), rules.identity(after), UNCHECKED_IDENTITY);
    if v.Refused? {
      return;
    }
    var refusal := rules.moveRefusal(before, after, typed);
    v := if refusal != "" then Refused(refusal) else Allowed;
  }

  /** The sentence comes from the first of the three rules that refuses: whoever may not repoint Jen learns no more. */
  ghost predicate Refusal(rules: Rules, before: Parser, after: Parser, typed: set<string>, sentence: string) {
    var (db, da) := (rules.destination(before), rules.destination(after));
    var (ib, ia) := (rules.identity(before), rules.identity(after));
    if !ViewMayChange(rules.destinationGuards, db, da) then
      FirstRefusal(rules.destinationGuards, db, da, UNCHECKED_DESTINATION, sentence)
    else if !ViewMayChange(rules.identityGuards, ib, ia) then
      FirstRefusal(rules.identityGuards, ib, ia, UNCHECKED_IDENTITY, sentence)
    else sentence == rules.moveRefusal(before, after, typed) && sentence != ""
  }

  // ── Edits ───────────────────────────────────────────────────────────────────────────────────────────────────

  datatype Item = Item(section: string, key: string, value: string)

  function SetItem(p: Parser, item: Item): Parser {
    Set(p, item.section, item.key, item.value)
  }

  function SetAll(p: Parser, items: seq<Item>): Parser {
    if items == [] then p else SetItem(SetAll(p, items[..|items| - 1]), items[|items| - 1])
  }

  function LastSet(items: seq<Item>, section: string, key: string): Option<string> {
    if items == [] then None
    else
      var last := items[|items| - 1];
      if last.section == section && last.key == key then Some(last.value)
      else LastSet(items[..|items| - 1], section, key)
  }

  /** A written key reads back as the last value given for it; every other key is as it was. */
  lemma {:induction false} ReadsBackWhatWasWritten(p: Parser, items: seq<Item>, section: string, key: string)
    ensures Value(SetAll(p, items), section, key) ==
      match LastSet(items, section, key) case Some(v) => Some(v) case None => Value(p, section, key)
  {
    if items != [] {
      ReadsBackWhatWasWritten(p, items[..|items| - 1], section, key);
    }
  }

  method SetItems(p: Parser, items: seq<Item>) returns (r: Parser)
    ensures r == SetAll(p, items)
  {
    r := p;
    for i := 0 to |items|
      invariant r == SetAll(p, items[..i])
    {
      assert items[..i + 1][..i] == items[..i];
      r := SetItem(r, items[i]);
    }
    assert items[..|items|] == items;
  }

  datatype Ending = Saved | TurnedDown(sentence: string) | EditRaised | ReloadRaised | WriteRaised

  /** What a write promises, however it ends. */
  ghost predicate Kept(rules: Rules, derive: Parser -> Option<View>, before: Parser, after: Parser, was: View,
                       globals: View, edited: Option<Parser>, reload: bool, typed: set<string>, end: Ending)
  {
    && (after != before ==> edited == Some(after) && MayReplace(rules, before, after, typed))
    && (end.EditRaised? <==> edited.None?)
    && (end.TurnedDown? <==> edited.Some? && !MayReplace(rules, before, edited.value, typed))
    && (end.TurnedDown? ==> Refusal(rules, before, edited.value, typed, end.sentence))
    && (end.TurnedDown? || end.EditRaised? || end.WriteRaised? ==> after == before && globals == was)
    && (end.Saved? || end.ReloadRaised? ==> edited == Some(after))
    && (end.Saved? ==> if reload then derive(after) == Some(globals) else globals == was)
    && (end.ReloadRaised? ==> reload && derive(after) == None)
  }

  class AppConfig {
    var file: Parser
    var globals: View
    const rules: Rules
    /** What the globals are for a file; None when loading or applying it raises. */
    const derive: Parser -> Option<View>

    constructor (rules: Rules, derive: Parser -> Option<View>, file: Parser, globals: View)
      ensures this.rules == rules && this.derive == derive && this.file == file && this.globals == globals
    {
      this.rules, this.derive, this.file, this.globals := rules, derive, file, globals;
    }

    /** Load and apply; when that raises part-way, some globals may already be the new ones. */
    method Reload() returns (raised: bool)
      modifies this`globals
      ensures raised <==> derive(file).None?
      ensures !raised ==> derive(file) == Some(globals)
    {
      match derive(file)
      case Some(g) =>
        globals := g;
        raised := false;
      case None =>
        globals := *;
        raised := true;
    }

    /** Guards, then a temporary file renamed over the config. */
    method WriteParser(parser: Parser, typed: set<string>) returns (end: Ending)
      modifies this`file
      ensures end.Saved? || end.TurnedDown? || end.WriteRaised?
      ensures end.TurnedDown? <==> !MayReplace(rules, old(file), parser, typed)
      ensures end.TurnedDown? ==> Refusal(rules, old(file), parser, typed, end.sentence)
      ensures file == if end.Saved? then parser else old(file)
    {
      var v := CheckChange(rules, file, parser, typed);
      if v.Refused? {
        return TurnedDown(v.sentence);
      }
      if * {
        return WriteRaised;
      }
      file := parser;
      return Saved;
    }

    method WriteThenReload(parser: Parser, reload: bool, typed: set<string>) returns (end: Ending)
      modifies this
      ensures Kept(rules, derive, old(file), file, old(globals), globals, Some(parser), reload, typed, end)
    {
      end := WriteParser(parser, typed);
      if end.Saved? && reload {
        var raised := Reload();
        if raised {
          end := ReloadRaised;
        }
      }
    }

    method WriteValue(section: string, key: string, value: string, reload: bool, typed: set<string>)
      returns (end: Ending)
      modifies this
      ensures
        var edited := SetAll(old(file), [Item(section, key, value)]);
        Kept(rules, derive, old(file), file, old(globals), globals, Some(edited), reload, typed, end)
    {
      var item := Item(section, key, value);
      assert [item][..0] == [];
      end := WriteThenReload(SetItem(file, item), reload, typed);
    }

    method WriteValues(items: seq<Item>, reload: bool, typed: set<string>) returns (end: Ending)
      modifies this
      ensures
        var edited := SetAll(old(file), items);
        Kept(rules, derive, old(file), file, old(globals), globals, Some(edited), reload, typed, end)
      // the file is replaced before it is read again: allowed and written, a reload succeeds exactly when what was
      // asked for loads
      ensures reload && MayReplace(rules, old(file), SetAll(old(file), items), typed) && !end.WriteRaised? ==>
        && (end.Saved? <==> derive(SetAll(old(file), items)).Some?)
        && (derive(file) == Some(globals) <==> derive(SetAll(old(file), items)).Some?)
    {
      var parser := SetItems(file, items);
      end := WriteThenReload(parser, reload, typed);
    }

    /** An arbitrary edit; `edit` is None where the callback raises. */
    method Mutate(edit: Parser -> Option<Parser>, reload: bool, typed: set<string>) returns (end: Ending)
      modifies this
      ensures Kept(rules, derive, old(file), file, old(globals), globals, edit(old(file)), reload, typed, end)
      ensures
        var edited := edit(old(file));
        reload && edited.Some? && MayReplace(rules, old(file), edited.value, typed) && !end.WriteRaised? ==>
          && (end.Saved? <==> derive(edited.value).Some?)
          && (derive(file) == Some(globals) <==> derive(edited.value).Some?)
    {
      match edit(file)
      case None => end := EditRaised;
      case Some(parser) => end := WriteThenReload(parser, reload, typed);
    }

    /** Would this edit be refused?  Nothing is written; the answer is the write's own, sentence included. */
    method Preflight(edit: Parser -> Option<Parser>, typed: set<string>) returns (v: Option<Verdict>)
      ensures v.None? <==> edit(file).None?
      ensures v.Some? ==> (v.value.Allowed? <==> MayReplace(rules, file, edit(file).value, typed))
      ensures v.Some? && v.value.Refused? ==> Refusal(rules, file, edit(file).value, typed, v.value.sentence)
    {
      match edit(file)
      case None => v := None;
      case Some(after) =>
        var verdict := CheckChange(rules, file, after, typed);
        v := Some(verdict);
    }

    /** A preflight and the write that follows it on the same file end the same way. */
    method PreflightThenMutate(edit: Parser -> Option<Parser>, typed: set<string>)
      returns (v: Option<Verdict>, end: Ending)
      modifies this
      ensures v.None? <==> end.EditRaised?
      ensures v.Some? ==> (v.value.Refused? <==> end.TurnedDown?)
      ensures v.Some? && v.value.Refused? ==> v.value.sentence == end.sentence
    {
      v := Preflight(edit, typed);
      end := Mutate(edit, true, typed);
      if v.Some? && v.value.Refused? {
        OneRefusal(rules, old(file), edit(old(file)).value, typed, v.value.sentence, end.sentence);
      }
    }
  }

  lemma OneFirstRefusal(guards: seq<Guard>, before: View, after: View, unchecked: string, a: string, b: string)
    requires FirstRefusal(guards, before, after, unchecked, a) && FirstRefusal(guards, before, after, unchecked, b)
    ensures a == b
  {
    var i :| 0 <= i < |guards| && AllAccept(guards[..i], before, after) && !AllAccept(guards[..i + 1], before, after) &&
      a == match guards[i](before, after) case Says(s) => s case Raises => unchecked;
    var j :| 0 <= j < |guards| && AllAccept(guards[..j], before, after) && !AllAccept(guards[..j + 1], before, after) &&
      b == match guards[j](before, after) case Says(s) => s case Raises => unchecked;
    MoreGuardsAcceptLess(guards, i, j, before, after);
    MoreGuardsAcceptLess(guards, j, i, before, after);
  }

  lemma MoreGuardsAcceptLess(guards: seq<Guard>, i: nat, j: nat, before: View, after: View)
    requires i < |guards| && j < |guards| && AllAccept(guards[..j], before, after)
    requires !AllAccept(guards[..i + 1], before, after)
    ensures j <= i
  {
    if j > i {
      var upTo := guards[..i + 1];
      forall k | 0 <= k < |upTo|
        ensures AcceptsIt(upTo[k], before, after)
      {
        assert upTo[k] == guards[..j][k];
      }
    }
  }

  lemma OneRefusal(rules: Rules, before: Parser, after: Parser, typed: set<string>, a: string, b: string)
    requires Refusal(rules, before, after, typed, a) && Refusal(rules, before, after, typed, b)
    ensures a == b
  {
    hide FirstRefusal, ViewMayChange;
    var (db, da) := (rules.destination(before), rules.destination(after));
    var (ib, ia) := (rules.identity(before), rules.identity(after));
    if !ViewMayChange(rules.destinationGuards, db, da) {
      OneFirstRefusal(rules.destinationGuards, db, da, UNCHECKED_DESTINATION, a, b);
    } else if !ViewMayChange(rules.identityGuards, ib, ia) {
      OneFirstRefusal(rules.identityGuards, ib, ia, UNCHECKED_IDENTITY, a, b);
    }
  }
}
