/**
 The installer's three-way merge of its wizard's answers onto the live jen.config, and its list of changes to which Kea
 Jen reaches.
 */
module ConfigMerge {
  import opened Outcomes
  import opened IniFile

  // ── The merge ───────────────────────────────────────────────────────────────────────────────────────────────

  /** The operator typed a value the snapshot does not have: the key is the wizard's. */
  predicate Typed(snap: Parser, wizard: Parser, section: string, key: string) {
    Value(wizard, section, key).Some? && Value(wizard, section, key) != Value(snap, section, key)
  }

  function Merged(snap: Parser, live: Parser, wizard: Parser, section: string, key: string): Option<string> {
    if Typed(snap, wizard, section, key) then Value(wizard, section, key) else Value(live, section, key)
  }

  predicate TypedIn(snap: Parser, wizard: Parser, section: string) {
    section in wizard && exists key :: key in wizard[section] && Typed(snap, wizard, section, key)
  }

  /** `r` has exactly the merged values, in the live sections and the ones something was typed in. */
  ghost predicate IsMerge(snap: Parser, live: Parser, wizard: Parser, r: Parser) {
    && (forall section, key :: Value(r, section, key) == Merged(snap, live, wizard, section, key))
    && (forall section :: section in r <==> section in live || TypedIn(snap, wizard, section))
  }

  lemma OneMerge(snap: Parser, live: Parser, wizard: Parser, a: Parser, b: Parser)
    requires IsMerge(snap, live, wizard, a) && IsMerge(snap, live, wizard, b)
    ensures a == b
  {
    hide Merged, TypedIn;
    forall s | s in a
      ensures s in b && a[s] == b[s]
    {
      forall k
        ensures k in a[s] <==> k in b[s]
        ensures k in a[s] ==> a[s][k] == b[s][k]
      {
        assert Value(a, s, k) == Value(b, s, k);
      }
      assert a[s].Keys == b[s].Keys;
    }
    assert a.Keys == b.Keys;
  }

  /** Part-way: the pairs in `done` are merged, the rest still live. */
  ghost predicate MergedSoFar(snap: Parser, live: Parser, wizard: Parser, r: Parser, done: set<(string, string)>) {
    ValuesSoFar(snap, live, wizard, r, done) && SectionsSoFar(snap, live, wizard, r, done)
  }

  ghost predicate ValuesSoFar(snap: Parser, live: Parser, wizard: Parser, r: Parser, done: set<(string, string)>) {
    forall s, k :: Value(r, s, k) == if (s, k) in done then Merged(snap, live, wizard, s, k) else Value(live, s, k)
  }

  ghost predicate SectionsSoFar(snap: Parser, live: Parser, wizard: Parser, r: Parser, done: set<(string, string)>) {
    forall s :: s in r <==> s in live || exists k :: (s, k) in done && Typed(snap, wizard, s, k)
  }

  lemma SetOnlySets(r: Parser, s: string, k: string, v: string, t: string, j: string)
    ensures Value(Set(r, s, k, v), t, j) == if (t, j) == (s, k) then Some(v) else Value(r, t, j)
  {
  }

  lemma ValuesOneMore(snap: Parser, live: Parser, wizard: Parser, r: Parser, done: set<(string, string)>, s: string,
                      k: string)
    requires ValuesSoFar(snap, live, wizard, r, done) && (s, k) !in done && Value(wizard, s, k).Some?
    ensures
      ValuesSoFar(snap, live, wizard, if Typed(snap, wizard, s, k) then Set(r, s, k, wizard[s][k]) else r,
                done + {(s, k)})
  {
    var next := if Typed(snap, wizard, s, k) then Set(r, s, k, wizard[s][k]) else r;
    var more := done + {(s, k)};
    assert Value(wizard, s, k) == Some(wizard[s][k]);
    hide Value, Set;
    forall t, j
      ensures Value(next, t, j) == if (t, j) in more then Merged(snap, live, wizard, t, j) else Value(live, t, j)
    {
      assert Value(r, t, j) == if (t, j) in done then Merged(snap, live, wizard, t, j) else Value(live, t, j);
      if Typed(snap, wizard, s, k) {
        SetOnlySets(r, s, k, wizard[s][k], t, j);
      }
    }
  }

  lemma SectionsOneMore(snap: Parser, live: Parser, wizard: Parser, r: Parser, done: set<(string, string)>, s: string,
                        k: string)
    requires SectionsSoFar(snap, live, wizard, r, done) && Value(wizard, s, k).Some?
    ensures
      SectionsSoFar(snap, live, wizard, if Typed(snap, wizard, s, k) then Set(r, s, k, wizard[s][k]) else r,
                  done + {(s, k)})
  {
    var next := if Typed(snap, wizard, s, k) then Set(r, s, k, wizard[s][k]) else r;
    var more := done + {(s, k)};
    hide Typed;
    forall t
      ensures t in next <==> t in live || exists j :: (t, j) in more && Typed(snap, wizard, t, j)
    {
      if Typed(snap, wizard, s, k) {
        assert (s, k) in more;
      }
      if t in r && t !in live {
        var j :| (t, j) in done && Typed(snap, wizard, t, j);
        assert (t, j) in more;
      }
    }
  }

  lemma MergeOne(snap: Parser, live: Parser, wizard: Parser, r: Parser, done: set<(string, string)>, s: string,
                 k: string)
    requires MergedSoFar(snap, live, wizard, r, done) && (s, k) !in done && Value(wizard, s, k).Some?
    ensures
      MergedSoFar(snap, live, wizard, if Typed(snap, wizard, s, k) then Set(r, s, k, wizard[s][k]) else r,
                done + {(s, k)})
  {
    hide ValuesSoFar, SectionsSoFar, Typed, Set;
    ValuesOneMore(snap, live, wizard, r, done, s, k);
    SectionsOneMore(snap, live, wizard, r, done, s, k);
  }

  lemma AllMerged(snap: Parser, live: Parser, wizard: Parser, r: Parser, done: set<(string, string)>)
    requires MergedSoFar(snap, live, wizard, r, done)
    requires forall s, k :: (s, k) in done <==> Value(wizard, s, k).Some?
    ensures IsMerge(snap, live, wizard, r)
  {
    forall s, k
      ensures Value(r, s, k) == Merged(snap, live, wizard, s, k)
    {
      assert Value(r, s, k) == if (s, k) in done then Merged(snap, live, wizard, s, k) else Value(live, s, k);
    }
    forall s
      ensures s in r <==> s in live || TypedIn(snap, wizard, s)
    {
      if TypedIn(snap, wizard, s) {
        var k :| k in wizard[s] && Typed(snap, wizard, s, k);
        assert (s, k) in done;
      }
    }
  }

  method Merge(snap: Parser, live: Parser, wizard: Parser) returns (r: Parser)
    ensures IsMerge(snap, live, wizard, r)
  {
    hide MergedSoFar, IsMerge;
    r := live;
    ghost var done: set<(string, string)> := {};
    assert MergedSoFar(snap, live, wizard, r, done) by {
      NothingMergedYet(snap, live, wizard);
    }
    var sections := wizard.Keys;
    while sections != {}
      invariant sections <= wizard.Keys
      invariant forall s, k :: (s, k) in done <==> Value(wizard, s, k).Some? && s !in sections
      invariant MergedSoFar(snap, live, wizard, r, done)
      decreases |sections|
    {
      var section :| section in sections;
      sections := sections - {section};
      var keys := wizard[section].Keys;
      while keys != {}
        invariant keys <= wizard[section].Keys
        invariant forall s, k :: (s, k) in done <==>
          Value(wizard, s, k).Some? && (s !in sections && (s != section || k !in keys))
        invariant MergedSoFar(snap, live, wizard, r, done)
        decreases |keys|
      {
        var key :| key in keys;
        keys := keys - {key};
        MergeOne(snap, live, wizard, r, done, section, key);
        done := done + {(section, key)};
        if Value(snap, section, key) == Some(wizard[section][key]) {
          continue;
        }
        r := Set(r, section, key, wizard[section][key]);
      }
    }
    AllMerged(snap, live, wizard, r, done);
  }

  lemma NothingMergedYet(snap: Parser, live: Parser, wizard: Parser)
    ensures MergedSoFar(snap, live, wizard, live, {})
  {
  }

  /** Nothing was typed: every live file comes back as it was. */
  lemma UntouchedWizardChangesNothing(snap: Parser, live: Parser, wizard: Parser, r: Parser)
    requires forall s, k :: !Typed(snap, wizard, s, k)
    requires IsMerge(snap, live, wizard, r)
    ensures r == live
  {
    hide IsMerge, TypedIn;
    assert IsMerge(snap, live, wizard, live) by {
      LiveIsItsMerge(snap, live, wizard);
    }
    OneMerge(snap, live, wizard, r, live);
  }

  lemma LiveIsItsMerge(snap: Parser, live: Parser, wizard: Parser)
    requires forall s, k :: Typed(snap, wizard, s, k) ==> Value(live, s, k) == Value(wizard, s, k)
    ensures IsMerge(snap, live, wizard, live)
  {
    forall s | TypedIn(snap, wizard, s)
      ensures s in live
    {
      var k :| k in wizard[s] && Typed(snap, wizard, s, k);
      assert Value(live, s, k).Some?;
    }
  }

  /** Merging the same answers onto the merged file changes nothing more. */
  lemma MergeIsIdempotent(snap: Parser, live: Parser, wizard: Parser, once: Parser, twice: Parser)
    requires IsMerge(snap, live, wizard, once) && IsMerge(snap, once, wizard, twice)
    ensures twice == once
  {
    forall s, k | Typed(snap, wizard, s, k)
      ensures Value(once, s, k) == Value(wizard, s, k)
    {
      assert Value(once, s, k) == Merged(snap, live, wizard, s, k);
    }
    hide IsMerge;
    LiveIsItsMerge(snap, once, wizard);
    OneMerge(snap, once, wizard, twice, once);
  }

  /** A save or a removal made while the wizard was open survives for every key the operator did not change. */
  lemma SavesSurvive(snap: Parser, live: Parser, wizard: Parser, r: Parser, section: string, key: string)
    requires IsMerge(snap, live, wizard, r)
    ensures Value(r, section, key) == Value(live, section, key) <==>
      !Typed(snap, wizard, section, key) || Value(wizard, section, key) == Value(live, section, key)
  {
    assert Value(r, section, key) == Merged(snap, live, wizard, section, key);
  }

  // ── Seeding the wizard ──────────────────────────────────────────────────────────────────────────────────────

  /** str.replace for one character. */
  function Replace(s: string, c: char, t: string): string {
    if s == "" then "" else (if s[0] == c then t else [s[0]]) + Replace(s[1..], c, t)
  }

  /** A value on one line: backslashes doubled, carriage returns dropped, newlines spelled. */
  function EscapeLine(value: string): string {
    Replace(Replace(Replace(value, '\\', "\\\\"), '\r', ""), '\n', "\\n")
  }

  /** The installer's printf %b, for the two escapes a seeded line can hold. */
  function Expand(s: string): string {
    if s == "" then ""
    else if s[0] == '\\' && |s| > 1 && s[1] == '\\' then "\\" + Expand(s[2..])
    else if s[0] == '\\' && |s| > 1 && s[1] == 'n' then "\n" + Expand(s[2..])
    else [s[0]] + Expand(s[1..])
  }

  lemma {:induction false} ReplaceOverConcat(a: string, b: string, c: char, t: string)
    ensures Replace(a + b, c, t) == Replace(a, c, t) + Replace(b, c, t)
  {
    if a == "" {
      assert a + b == b;
    } else {
      assert (a + b)[1..] == a[1..] + b;
      ReplaceOverConcat(a[1..], b, c, t);
    }
  }

  lemma EscapeOverConcat(a: string, b: string)
    ensures EscapeLine(a + b) == EscapeLine(a) + EscapeLine(b)
  {
    hide Replace;
    ReplaceOverConcat(a, b, '\\', "\\\\");
    var a1, b1 := Replace(a, '\\', "\\\\"), Replace(b, '\\', "\\\\");
    ReplaceOverConcat(a1, b1, '\r', "");
    ReplaceOverConcat(Replace(a1, '\r', ""), Replace(b1, '\r', ""), '\n', "\\n");
  }

  lemma EscapeOne(c: char)
    ensures EscapeLine([c]) ==
      if c == '\\' then "\\\\" else if c == '\r' then "" else if c == '\n' then "\\n" else [c]
  {
    var s := [c];
    assert s[1..] == "";
    if c == '\\' {
      assert Replace(s, '\\', "\\\\") == "\\\\";
      assert "\\\\"[1..] == "\\" && "\\"[1..] == "";
    }
  }

  /** What the installer reads back is the value without its carriage returns, and it came on one line. */
  lemma {:induction false} SeededValueReadsBack(value: string)
    ensures Expand(EscapeLine(value)) == Replace(value, '\r', "")
    ensures '\n' !in EscapeLine(value)
  {
    if value == "" {
      assert EscapeLine("") == "";
    } else {
      var c, rest := value[0], value[1..];
      assert value == [c] + rest;
      EscapeOverConcat([c], rest);
      EscapeOne(c);
      SeededValueReadsBack(rest);
      hide EscapeLine;
      var e := EscapeLine(rest);
      if c == '\\' {
        assert ("\\\\" + e)[2..] == e;
      } else if c == '\n' {
        assert ("\\n" + e)[2..] == e;
      } else if c == '\r' {
        assert "" + e == e && "" + Replace(rest, '\r', "") == Replace(rest, '\r', "");
      } else {
        assert ([c] + e)[1..] == e;
      }
    }
  }

  lemma {:induction false} NothingReplaced(s: string, c: char, t: string)
    requires c !in t
    ensures c !in Replace(s, c, t)
  {
    if s != "" {
      NothingReplaced(s[1..], c, t);
    }
  }

  lemma {:induction false} NothingToReplace(s: string, c: char, t: string)
    requires c !in s
    ensures Replace(s, c, t) == s
  {
    if s != "" {
      NothingToReplace(s[1..], c, t);
      assert s == [s[0]] + s[1..];
    }
  }

  /** A key seeded from the snapshot and left alone counts as untyped, so the merge keeps the live value, exactly
      when the snapshot's value has no carriage return. */
  lemma SeededKeyIsUntyped(snap: Parser, wizard: Parser, section: string, key: string)
    requires Value(snap, section, key).Some?
    requires Value(wizard, section, key) == Some(Expand(EscapeLine(Value(snap, section, key).value)))
    ensures !Typed(snap, wizard, section, key) <==> '\r' !in Value(snap, section, key).value
  {
    hide Replace, EscapeLine, Expand;
    var v := Value(snap, section, key).value;
    SeededValueReadsBack(v);
    NothingReplaced(v, '\r', "");
    if '\r' !in v {
      NothingToReplace(v, '\r', "");
    }
  }
}
