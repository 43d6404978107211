/**
 The names under the root-owned plugin directory: a live copy is its plugin id, an install in progress is
 `<id>.staging-<ts>`, a copy moved aside is `<id>.old-<ts>`.
 */
module PluginNames {
  import opened Outcomes
  import opened Text

  datatype Kind = Staging | Old

  datatype PluginName = Live(id: string) | Leftover(id: string, kind: Kind, ts: nat)

  function Word(kind: Kind): string {
    match kind
    case Staging => ".staging-"
    case Old => ".old-"
  }

  function Spell(n: PluginName): string {
    match n
    case Live(id) => id
    case Leftover(id, kind, ts) => id + (Word(kind) + Decimal(ts))
  }

  predicate IdChar(c: char) {
    'a' <= c <= 'z' || Digit(c) || c == '-'
  }

  predicate ValidId(id: string) {
    1 <= |id| <= 64 && id[0] != '-' && forall i :: 0 <= i < |id| ==> IdChar(id[i])
  }

  // ── The id pattern ──────────────────────────────────────────────────────────────────────────────────────────

  const LETTERS := "abcdefghijklmnopqrstuvwxyz"
  const DIGITS := "0123456789"

  /** One letter or digit, then at most 63 letters, digits and hyphens. */
  ghost predicate IdPattern(id: string) {
    exists first, rest :: IdParts(id, first, rest)
  }

  predicate IdParts(id: string, first: char, rest: string) {
    && id == [first] + rest && first in LETTERS + DIGITS && |rest| <= 63
    && forall i :: 0 <= i < |rest| ==> rest[i] in LETTERS + DIGITS + "-"
  }

  lemma ListedLetters(c: char)
    ensures c in LETTERS <==> 'a' <= c <= 'z'
  {
    if 'a' <= c <= 'z' {
      assert LETTERS[c as int - 'a' as int] == c;
    }
  }

  lemma ListedDigits(c: char)
    ensures c in DIGITS <==> '0' <= c <= '9'
  {
    if '0' <= c <= '9' {
      assert DIGITS[c as int - '0' as int] == c;
    }
  }

  /** What is acted on is exactly what the pattern describes. */
  lemma ValidIdIsThePattern(id: string)
    ensures ValidId(id) <==> IdPattern(id)
  {
    forall c: char
      ensures c in LETTERS + DIGITS <==> 'a' <= c <= 'z' || '0' <= c <= '9'
      ensures c in LETTERS + DIGITS + "-" <==> IdChar(c)
    {
      ListedLetters(c);
      ListedDigits(c);
    }
    hide LETTERS, DIGITS;
    if ValidId(id) {
      assert id == [id[0]] + id[1..];
      assert IdParts(id, id[0], id[1..]);
    }
    if first, rest :| IdParts(id, first, rest) {
      assert forall i :: 0 < i < |id| ==> id[i] == rest[i - 1];
    }
  }

  // ── The stale-name pattern ──────────────────────────────────────────────────────────────────────────────────

  /** `name` is one or more characters, then the kind's word, then one or more digits. */
  predicate Matches(name: string, id: string, kind: Kind, digits: string) {
    id != "" && Numeral(digits) && name == id + ((if kind == Staging then ".staging-" else ".old-") + digits)
  }

  function TrailingDigits(s: string): (k: nat)
    ensures k <= |s|
    ensures forall i :: |s| - k <= i < |s| ==> Digit(s[i])
    ensures k < |s| ==> !Digit(s[|s| - k - 1])
  {
    if s == "" || !Digit(s[|s| - 1]) then 0 else 1 + TrailingDigits(s[..|s| - 1])
  }

  function WithoutWord(head: string, kind: Kind): Option<string> {
    var w := Word(kind);
    if |head| > |w| && head[|head| - |w|..] == w then Some(head[..|head| - |w|]) else None
  }

  /** The pattern's groups, or None when it does not match. */
  function Classify(name: string): Option<PluginName> {
    var k := TrailingDigits(name);
    var head, digits := name[..|name| - k], name[|name| - k..];
    if k == 0 then None
    else match WithoutWord(head, Staging)
      case Some(id) => Some(Leftover(id, Staging, ToNat(digits)))
      case None =>
        match WithoutWord(head, Old)
        case Some(id) => Some(Leftover(id, Old, ToNat(digits)))
        case None => None
  }

  lemma {:induction false} TrailingDigitsOf(front: string, digits: string)
    requires front != "" && !Digit(front[|front| - 1])
    requires forall i :: 0 <= i < |digits| ==> Digit(digits[i])
    ensures TrailingDigits(front + digits) == |digits|
  {
    var s := front + digits;
    if digits == "" {
      assert s == front;
    } else {
      assert s[..|s| - 1] == front + digits[..|digits| - 1];
      TrailingDigitsOf(front, digits[..|digits| - 1]);
    }
  }

  lemma EveryMatchIsClassified(name: string, id: string, kind: Kind, digits: string)
    requires Matches(name, id, kind, digits)
    ensures Classify(name) == Some(Leftover(id, kind, ToNat(digits)))
  {
    var head := id + Word(kind);
    assert name == head + digits;
    TrailingDigitsOf(head, digits);
    assert name[..|head|] == head && name[|head|..] == digits;
    assert head[|id|..] == Word(kind) && head[..|id|] == id;
    if kind == Old {
      OldIsNotStaging(head);
    }
  }

  lemma OldIsNotStaging(head: string)
    requires WithoutWord(head, Old).Some?
    ensures WithoutWord(head, Staging).None?
  {
    if |head| > 9 {
      assert head[|head| - 9..][5] == head[|head| - 4] == head[|head| - 5..][1];
      assert Word(Staging)[5] != Word(Old)[1];
    }
  }

  lemma WordIsThere(head: string, kind: Kind)
    requires WithoutWord(head, kind).Some?
    ensures
      var id := WithoutWord(head, kind).value;
      id != "" && head == id + Word(kind)
  {
  }

  lemma DigitsEndTheName(name: string)
    requires TrailingDigits(name) > 0
    ensures Numeral(name[|name| - TrailingDigits(name)..])
  {
    hide TrailingDigits;
  }

  lemma ClassifiedNamesMatch(name: string) returns (digits: string)
    requires Classify(name).Some?
    ensures
      var n := Classify(name).value;
      n.Leftover? && Numeral(digits) && ToNat(digits) == n.ts && Matches(name, n.id, n.kind, digits)
  {
    assert Word(Staging) == ".staging-" && Word(Old) == ".old-";
    hide WithoutWord, Word, TrailingDigits, ToNat, Digit;
    var k := TrailingDigits(name);
    var head := name[..|name| - k];
    digits := name[|name| - k..];
    DigitsEndTheName(name);
    var kind := if WithoutWord(head, Staging).Some? then Staging else Old;
    WordIsThere(head, kind);
    Regroup(name, head, WithoutWord(head, kind).value, Word(kind), digits);
  }

  lemma Regroup(name: string, head: string, id: string, word: string, digits: string)
    requires head <= name && digits == name[|head|..] && head == id + word
    ensures name == id + (word + digits)
  {
  }

  lemma MatchHasADot(name: string)
    requires Classify(name).Some?
    ensures '.' in name
  {
    var digits := ClassifiedNamesMatch(name);
    var n := Classify(name).value;
    assert name[|n.id|] == Word(n.kind)[0] == '.';
  }

  /** The sweep sees a leftover in exactly the names the pattern describes. */
  lemma ClassifyIsThePattern(name: string, id: string, kind: Kind, ts: nat)
    ensures Classify(name) == Some(Leftover(id, kind, ts)) <==> exists d :: Matches(name, id, kind, d) && ToNat(d) == ts
  {
    if Classify(name) == Some(Leftover(id, kind, ts)) {
      var d := ClassifiedNamesMatch(name);
    }
    if d :| Matches(name, id, kind, d) && ToNat(d) == ts {
      EveryMatchIsClassified(name, id, kind, d);
    }
  }

  /** A live directory is never taken for a leftover, and each leftover is taken for exactly what the installer
      named. */
  lemma SweepReadsNamesBack(n: PluginName)
    requires ValidId(n.id)
    ensures Classify(Spell(n)) == match n case Live(_) => None case Leftover(_, _, _) => Some(n)
  {
    match n
    case Live(id) =>
      if Classify(id).Some? {
        MatchHasADot(id);
        assert false;
      }
    case Leftover(id, kind, ts) =>
      EveryMatchIsClassified(Spell(n), id, kind, Decimal(ts));
  }
}
