/**
 write_subnets: the [subnets] section rewritten through the choke point every config write passes.  The order of a
 section's keys in the file is a parameter, since a section is a map here.
 */
module SubnetWriter {
  import opened Outcomes
  import opened IniFile
  import opened Subnets
  import ConfigStore

  function Section(p: Parser): map<string, string> {
    if "subnets" in p then p["subnets"] else map[]
  }

  /** The keys of the section, each once. */
  ghost predicate OrderOf(order: seq<string>, section: map<string, string>) {
    && (forall k :: k in order <==> k in section)
    && (forall i, j :: 0 <= i < j < |order| ==> order[i] != order[j])
  }

  function LinesOf(order: seq<string>, section: map<string, string>): (lines: seq<Line>)
    requires forall k :: k in order ==> k in section
    ensures |lines| == |order|
    ensures forall l :: l in lines <==> l.key in order && section[l.key] == l.value
  {
    var lines := seq(|order|, i requires 0 <= i < |order| => Line(order[i], section[order[i]]));
    assert forall l :: l in lines <==> l.key in order && section[l.key] == l.value by {
      forall l
        ensures l in lines <==> l.key in order && section[l.key] == l.value
      {
        if l.key in order && section[l.key] == l.value {
          var i :| 0 <= i < |order| && order[i] == l.key;
          assert lines[i] == l;
        }
      }
    }
    lines
  }

  /** The section holds exactly these lines. */
  ghost predicate Holds(section: map<string, string>, lines: seq<Line>) {
    forall l :: l in lines <==> l.key in section && section[l.key] == l.value
  }

  method SetLines(lines: seq<Line>) returns (section: map<string, string>)
    requires forall a, b :: a in lines && b in lines && a.key == b.key ==> a == b
    ensures Holds(section, lines)
  {
    section := map[];
    for i := 0 to |lines|
      invariant Holds(section, lines[..i])
    {
      var l := lines[i];
      assert lines[..i + 1] == lines[..i] + [l];
      assert forall k :: k in lines[..i] ==> k in lines;
      section := section[l.key := l.value];
    }
    assert lines[..|lines|] == lines;
  }

  lemma PrintedKeysAreDistinct(lines: seq<Line>, m: map<int, Entry>, a: Line, b: Line)
    requires Printed(lines, m) && a in lines && b in lines && a.key == b.key
    ensures a == b
  {
    hide Print, IdText;
    var i :| i in m && a == LineOf(i, m[i]);
    var j :| j in m && b == LineOf(j, m[j]);
    IdsReadBack(i);
    IdsReadBack(j);
  }

  /** In whatever order the file holds them, they are the printed lines. */
  lemma PrintedInAnyOrder(lines: seq<Line>, m: map<int, Entry>, section: map<string, string>, order: seq<string>)
    requires Printed(lines, m) && Holds(section, lines) && OrderOf(order, section)
    ensures Printed(LinesOf(order, section), m)
  {
    hide Print, IdText, LinesOf;
    var again := LinesOf(order, section);
    assert forall l :: l in again <==> l in lines;
  }

  method WriteSubnets(cfg: ConfigStore.AppConfig, wanted: map<int, Entry>, order: seq<string>, net: string -> bool,
                      reload: bool)
    returns (end: ConfigStore.Ending, ghost edited: Option<Parser>)
    requires OrderOf(order, Section(cfg.file))
    modifies cfg
    ensures
      ConfigStore.Kept(cfg.rules, cfg.derive, old(cfg.file), cfg.file, old(cfg.globals), cfg.globals, edited, reload,
                       {}, end)
    ensures end.EditRaised? <==> Refused(wanted, Derive(LinesOf(order, Section(old(cfg.file))), net))
    ensures edited.Some? ==>
      "subnets" in edited.value && edited.value == old(cfg.file)["subnets" := edited.value["subnets"]]
    ensures edited.Some? ==> forall now :: OrderOf(now, edited.value["subnets"]) ==>
      Written(wanted, LinesOf(order, Section(old(cfg.file))), net, LinesOf(now, edited.value["subnets"]))
  {
    hide ConfigStore.MayReplace, ConfigStore.Refusal, Derive, Repairs, Refused, Printed;
    var lines := LinesOf(order, Section(cfg.file));
    var after := RewriteSection(wanted, lines, net);
    if after.None? {
      edited := None;
      return ConfigStore.EditRaised, None;
    }
    ghost var m := Repairs(lines, Derive(lines, net).Keys + wanted.Keys) + wanted;
    forall a, b | a in after.value && b in after.value && a.key == b.key
      ensures a == b
    {
      PrintedKeysAreDistinct(after.value, m, a, b);
    }
    var section := SetLines(after.value);
    forall now | OrderOf(now, section)
      ensures Written(wanted, lines, net, LinesOf(now, section))
    {
      PrintedInAnyOrder(after.value, m, section, now);
    }
    var parser := cfg.file["subnets" := section];
    edited := Some(parser);
    end := cfg.WriteThenReload(parser, reload, {});
  }
}
