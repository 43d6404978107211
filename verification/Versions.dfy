/**
 Jen's one version parser and the release picker.  The accepted strings are exactly those of `Spells`, and the order of
 the keys is section 11 of Semantic Versioning 2.0.0 on the versions they spell.
 */
module Versions {
  import opened Outcomes
  import opened Text

  datatype Stage = Beta | Rc

  datatype Version = Final(x: nat, y: nat, z: nat) | Pre(x: nat, y: nat, z: nat, stage: Stage, n: nat)

  /** The tuple versions are compared by: 0 for a beta, 1 for a release candidate, 2 for a final release. */
  datatype Key = Key(x: nat, y: nat, z: nat, rank: nat, n: nat)

  const LOWEST := Key(0, 0, 0, 0, 0)
  const FINAL_RANK: nat := 2

  predicate KeyLess(a: Key, b: Key) {
    || a.x < b.x
    || (a.x == b.x && a.y < b.y)
    || (a.x == b.x && a.y == b.y && a.z < b.z)
    || (a.x == b.x && a.y == b.y && a.z == b.z && a.rank < b.rank)
    || (a.x == b.x && a.y == b.y && a.z == b.z && a.rank == b.rank && a.n < b.n)
  }

  function KeyOf(v: Version): Key {
    match v
    case Final(x, y, z) => Key(x, y, z, FINAL_RANK, 0)
    case Pre(x, y, z, Beta, n) => Key(x, y, z, 0, n)
    case Pre(x, y, z, Rc, n) => Key(x, y, z, 1, n)
  }

  // ── Parsing ─────────────────────────────────────────────────────────────────────────────────────────────────

  function TakeNumber(s: string): Option<(nat, string)> {
    var k := DigitRun(s);
    if k == 0 then None else Some((ToNat(s[..k]), s[k..]))
  }

  function Expect(s: string, p: string): Option<string> {
    if p <= s then Some(s[|p|..]) else None
  }

  function ParseStage(x: nat, y: nat, z: nat, stage: Stage, s: string): Option<Version> {
    var (n, rest) :- TakeNumber(s);
    if rest == "" then Some(Pre(x, y, z, stage, n)) else None
  }

  function ParseTail(x: nat, y: nat, z: nat, s: string): Option<Version> {
    if s == "" then Some(Final(x, y, z))
    else if "-beta." <= s then ParseStage(x, y, z, Beta, s[|"-beta."|..])
    else if "-rc." <= s then ParseStage(x, y, z, Rc, s[|"-rc."|..])
    else None
  }

  function Parse(s: string): Option<Version> {
    var (x, s1) :- TakeNumber(s);
    var s2 :- Expect(s1, ".");
    var (y, s3) :- TakeNumber(s2);
    var s4 :- Expect(s3, ".");
    var (z, s5) :- TakeNumber(s4);
    ParseTail(x, y, z, s5)
  }

  /** The comparison key of a version string; anything unreadable is the lowest. */
  function ParseVersion(s: string): Key {
    match Parse(Strip(s))
    case Some(v) => KeyOf(v)
    case None => LOWEST
  }

  // ── The accepted grammar ────────────────────────────────────────────────────────────────────────────────────

  function StageWord(stage: Stage): string {
    match stage
    case Beta => "-beta."
    case Rc => "-rc."
  }

  /** `s` is X.Y.Z, X.Y.Z-beta.N or X.Y.Z-rc.N for `v`, each number in decimal, leading zeros allowed. */
  ghost predicate Spells(s: string, v: Version) {
    exists a, b, c, d :: SpelledBy(s, v, a, b, c, d)
  }

  predicate SpelledBy(s: string, v: Version, a: string, b: string, c: string, d: string) {
    && Numeral(a) && Numeral(b) && Numeral(c)
    && ToNat(a) == v.x && ToNat(b) == v.y && ToNat(c) == v.z
    && match v
       case Final(_, _, _) => d == "" && s == a + ("." + (b + ("." + c)))
       case Pre(_, _, _, stage, n) =>
         Numeral(d) && ToNat(d) == n && s == a + ("." + (b + ("." + (c + (StageWord(stage) + d)))))
  }

  lemma {:induction false} DigitRunOfNumeral(a: string, rest: string)
    requires forall i :: 0 <= i < |a| ==> Digit(a[i])
    requires rest != "" ==> !Digit(rest[0])
    ensures DigitRun(a + rest) == |a|
  {
    if a == "" {
      assert a + rest == rest;
    } else {
      assert (a + rest)[1..] == a[1..] + rest;
      DigitRunOfNumeral(a[1..], rest);
    }
  }

  lemma TakesItsNumeral(a: string, rest: string)
    requires Numeral(a) && (rest != "" ==> !Digit(rest[0]))
    ensures TakeNumber(a + rest) == Some((ToNat(a), rest))
  {
    DigitRunOfNumeral(a, rest);
    assert (a + rest)[..|a|] == a && (a + rest)[|a|..] == rest;
  }

  lemma TakesItsPrefix(p: string, rest: string)
    ensures Expect(p + rest, p) == Some(rest)
  {
    assert (p + rest)[|p|..] == rest;
  }

  lemma ParsesStage(x: nat, y: nat, z: nat, stage: Stage, d: string)
    requires Numeral(d)
    ensures ParseTail(x, y, z, StageWord(stage) + d) == Some(Pre(x, y, z, stage, ToNat(d)))
  {
    var s := StageWord(stage) + d;
    TakesItsNumeral(d, "");
    assert d + "" == d;
    if stage == Beta {
      assert s[|"-beta."|..] == d;
    } else {
      assert s[1] == 'r' && "-beta."[1] == 'b';
      assert s[|"-rc."|..] == d;
    }
  }

  lemma EverySpellingParses(s: string, v: Version)
    requires Spells(s, v)
    ensures Parse(s) == Some(v)
  {
    var a, b, c, d :| SpelledBy(s, v, a, b, c, d);
    var tail := if v.Final? then "" else StageWord(v.stage) + d;
    assert c + "" == c;
    var s4 := c + tail;
    TakesItsNumeral(c, tail);
    TakesItsPrefix(".", s4);
    var s3 := "." + s4;
    TakesItsNumeral(b, s3);
    var s2 := b + s3;
    TakesItsPrefix(".", s2);
    var s1 := "." + s2;
    TakesItsNumeral(a, s1);
    assert s == a + s1;
    if v.Pre? {
      ParsesStage(v.x, v.y, v.z, v.stage, d);
    }
  }

  lemma TakenNumberIsThere(s: string) returns (a: string, rest: string)
    requires TakeNumber(s).Some?
    ensures Numeral(a) && s == a + rest && TakeNumber(s) == Some((ToNat(a), rest))
  {
    var k := DigitRun(s);
    a, rest := s[..k], s[k..];
  }

  lemma TakenPrefixIsThere(s: string, p: string)
    requires Expect(s, p).Some?
    ensures s == p + Expect(s, p).value
  {
  }

  lemma TailIsASpelling(x: nat, y: nat, z: nat, s: string) returns (d: string)
    requires ParseTail(x, y, z, s).Some?
    ensures
      var v := ParseTail(x, y, z, s).value;
      && (v.x, v.y, v.z) == (x, y, z)
      && if v.Final? then d == "" && s == "" else Numeral(d) && ToNat(d) == v.n && s == StageWord(v.stage) + d
  {
    if s == "" {
      d := "";
    } else {
      var stage := if "-beta." <= s then Beta else Rc;
      var rest;
      d, rest := TakenNumberIsThere(s[|StageWord(stage)|..]);
      TakenPrefixIsThere(s, StageWord(stage));
      assert d + "" == d;
    }
  }

  lemma EveryParseIsASpelling(s: string, v: Version)
    requires Parse(s) == Some(v)
    ensures Spells(s, v)
  {
    hide Numeral, ToNat, Digit, TakeNumber, Expect, ParseTail;
    var a, s1 := TakenNumberIsThere(s);
    TakenPrefixIsThere(s1, ".");
    var b, s3 := TakenNumberIsThere(Expect(s1, ".").value);
    TakenPrefixIsThere(s3, ".");
    var c, s5 := TakenNumberIsThere(Expect(s3, ".").value);
    var d := TailIsASpelling(ToNat(a), ToNat(b), ToNat(c), s5);
    assert c + "" == c;
    assert SpelledBy(s, v, a, b, c, d);
  }

  /** The parser accepts exactly the grammar, with the value the grammar gives. */
  lemma ParserAcceptsTheGrammar(s: string, v: Version)
    ensures Parse(s) == Some(v) <==> Spells(s, v)
  {
    if Parse(s) == Some(v) {
      EveryParseIsASpelling(s, v);
    }
    if Spells(s, v) {
      EverySpellingParses(s, v);
    }
  }

  // ── Precedence ──────────────────────────────────────────────────────────────────────────────────────────────

  /** A pre-release identifier of Semantic Versioning 2.0.0. */
  datatype Identifier = Number(n: nat) | Word(w: string)

  function Identifiers(v: Version): seq<Identifier> {
    match v
    case Final(_, _, _) => []
    case Pre(_, _, _, Beta, n) => [Word("beta"), Number(n)]
    case Pre(_, _, _, Rc, n) => [Word("rc"), Number(n)]
  }

  predicate IdentifierLess(a: Identifier, b: Identifier) {
    match (a, b)
    case (Number(m), Number(n)) => m < n
    case (Number(_), Word(_)) => true
    case (Word(_), Number(_)) => false
    case (Word(u), Word(w)) => TextLess(u, w)
  }

  predicate IdentifiersLess(a: seq<Identifier>, b: seq<Identifier>) {
    b != [] && (a == [] || IdentifierLess(a[0], b[0]) || (a[0] == b[0] && IdentifiersLess(a[1..], b[1..])))
  }

  /** Section 11 of Semantic Versioning 2.0.0: the numbers first, then a pre-release below its release, then its
      identifiers. */
  predicate Precedes(a: Version, b: Version) {
    if (a.x, a.y, a.z) != (b.x, b.y, b.z) then
      a.x < b.x || (a.x == b.x && (a.y < b.y || (a.y == b.y && a.z < b.z)))
    else if Identifiers(a) == [] then false
    else if Identifiers(b) == [] then true
    else IdentifiersLess(Identifiers(a), Identifiers(b))
  }

  lemma KeyOrderIsPrecedence(a: Version, b: Version)
    ensures KeyLess(KeyOf(a), KeyOf(b)) <==> Precedes(a, b)
    ensures KeyOf(a) == KeyOf(b) <==> a == b
  {
    if a.Pre? && b.Pre? {
      hide TextLess;
      var p, q := Identifiers(a), Identifiers(b);
      assert p[1..] == [Number(a.n)] && q[1..] == [Number(b.n)];
      assert p[1..][1..] == [] && q[1..][1..] == [];
      BetaPrecedesRc();
      NothingPrecedesItself("beta");
      NothingPrecedesItself("rc");
      assert IdentifiersLess(p[1..], q[1..]) <==> a.n < b.n;
    }
  }

  // ── What a version string reads as ──────────────────────────────────────────────────────────────────────────

  /** `s`, but for the white space around it, spells `v`. */
  ghost predicate Reads(s: string, v: Version) {
    exists t :: Trims(s, t) && Spells(t, v)
  }

  lemma ReadsIff(s: string, v: Version)
    ensures Reads(s, v) <==> Parse(Strip(s)) == Some(v)
  {
    hide Trims, Spells, Strip, Parse;
    StripIsTheTrimmed(s, Strip(s));
    ParserAcceptsTheGrammar(Strip(s), v);
    if Reads(s, v) {
      var t :| Trims(s, t) && Spells(t, v);
      StripIsTheTrimmed(s, t);
    }
  }

  /** The version whose key unreadable strings get. */
  const UNREADABLE := Pre(0, 0, 0, Beta, 0)

  lemma OneReading(s: string, v: Version, w: Version)
    requires Reads(s, v) && Reads(s, w)
    ensures v == w
  {
    ReadsIff(s, v);
    ReadsIff(s, w);
  }

  lemma ReadingHasItsKey(s: string, v: Version)
    requires Reads(s, v)
    ensures ParseVersion(s) == KeyOf(v)
  {
    ReadsIff(s, v);
  }

  /** Strings are compared as the versions they spell. */
  lemma StringsCompareAsVersions(s: string, t: string, v: Version, w: Version)
    requires Reads(s, v) && Reads(t, w)
    ensures KeyLess(ParseVersion(s), ParseVersion(t)) <==> Precedes(v, w)
    ensures ParseVersion(s) == ParseVersion(t) <==> v == w
  {
    ReadingHasItsKey(s, v);
    ReadingHasItsKey(t, w);
    KeyOrderIsPrecedence(v, w);
  }

  /** A string has the lowest key exactly when it spells no version, or the one version that shares that key. */
  lemma LowestIff(s: string)
    ensures ParseVersion(s) == LOWEST <==> forall v :: Reads(s, v) ==> v == UNREADABLE
  {
    hide Parse, Strip, Reads, Precedes;
    forall v
      ensures Parse(Strip(s)) == Some(v) <==> Reads(s, v)
    {
      ReadsIff(s, v);
    }
    if Parse(Strip(s)).Some? {
      KeyOrderIsPrecedence(Parse(Strip(s)).value, UNREADABLE);
    }
  }

  lemma NothingPrecedesTheUnreadable(v: Version)
    ensures !Precedes(v, UNREADABLE)
  {
    KeyOrderIsPrecedence(v, UNREADABLE);
  }

  lemma BetaPrecedesRc()
    ensures TextLess("beta", "rc") && !TextLess("rc", "beta") && "beta" != "rc"
  {
    assert "beta"[0] == 'b' && "rc"[0] == 'r';
  }

  // ── Picking a release ───────────────────────────────────────────────────────────────────────────────────────

  datatype Channel = Stable | BetaChannel

  datatype Release = Release(tag: string, draft: bool, prerelease: bool)

  /** str.lstrip('v') */
  function StripV(tag: string): (r: string)
    ensures r != "" ==> r[0] != 'v'
    ensures exists k :: 0 <= k <= |tag| && r == tag[k..] && forall i :: 0 <= i < k ==> tag[i] == 'v'
  {
    if tag != "" && tag[0] == 'v' then
      var r := StripV(tag[1..]);
      var k :| 0 <= k <= |tag[1..]| && r == tag[1..][k..] && forall i :: 0 <= i < k ==> tag[1..][i] == 'v';
      assert r == tag[k + 1..] && forall i :: 0 <= i < k + 1 ==> tag[i] == 'v';
      r
    else
      assert tag == tag[0..];
      tag
  }

  function TagKey(r: Release): Key {
    ParseVersion(StripV(r.tag))
  }

  predicate Eligible(r: Release, channel: Channel) {
    !r.draft && (channel == BetaChannel || !r.prerelease) && TagKey(r) != LOWEST
  }

  /** A release the channel offers, as version `v`. */
  ghost predicate Offered(r: Release, channel: Channel, v: Version) {
    !r.draft && (channel == BetaChannel || !r.prerelease) && Reads(StripV(r.tag), v) && v != UNREADABLE
  }

  lemma EligibleIff(r: Release, channel: Channel)
    ensures Eligible(r, channel) <==> exists v :: Offered(r, channel, v)
  {
    hide ParseVersion, StripV, Reads;
    LowestIff(StripV(r.tag));
    if Eligible(r, channel) {
      var v :| Reads(StripV(r.tag), v) && v != UNREADABLE;
      assert Offered(r, channel, v);
    }
  }

  /** Release `i`, offered as `v`: no release offered is newer, and those before it are older. */
  ghost predicate Foremost(releases: seq<Release>, channel: Channel, i: nat, v: Version) {
    && i < |releases| && Offered(releases[i], channel, v)
    && (forall j, w :: 0 <= j < |releases| && Offered(releases[j], channel, w) ==>
          if j < i then Precedes(w, v) else !Precedes(v, w))
  }

  /** Release `i` is the first of the highest-keyed eligible releases. */
  ghost predicate Picked(releases: seq<Release>, channel: Channel, i: nat) {
    && i < |releases| && Eligible(releases[i], channel)
    && (forall j :: 0 <= j < i && Eligible(releases[j], channel) ==> KeyLess(TagKey(releases[j]), TagKey(releases[i])))
    && (forall j :: i < j < |releases| && Eligible(releases[j], channel) ==>
          !KeyLess(TagKey(releases[i]), TagKey(releases[j])))
  }

  lemma PickedIsForemost(releases: seq<Release>, channel: Channel, i: nat) returns (v: Version)
    requires Picked(releases, channel, i)
    ensures Foremost(releases, channel, i, v)
  {
    hide ParseVersion, StripV, Reads, Precedes, KeyLess;
    EligibleIff(releases[i], channel);
    v :| Offered(releases[i], channel, v);
    forall j, w | 0 <= j < |releases| && Offered(releases[j], channel, w)
      ensures if j < i then Precedes(w, v) else !Precedes(v, w)
    {
      EligibleIff(releases[j], channel);
      StringsCompareAsVersions(StripV(releases[j].tag), StripV(releases[i].tag), w, v);
      StringsCompareAsVersions(StripV(releases[i].tag), StripV(releases[j].tag), v, w);
      if j == i {
        OneReading(StripV(releases[i].tag), v, w);
        KeyIsNotBelowItself(TagKey(releases[i]));
      }
    }
  }

  lemma KeyIsNotBelowItself(k: Key)
    ensures !KeyLess(k, k)
  {
  }

  lemma BelowTheBest(a: Key, best: Key, key: Key)
    requires KeyLess(best, key)
    ensures !KeyLess(best, a) || KeyLess(a, best) ==> KeyLess(a, key)
  {
  }

  method PickRelease(releases: seq<Release>, channel: Channel) returns (best: Option<Release>)
    ensures best.None? <==> forall r, v :: r in releases ==> !Offered(r, channel, v)
    ensures best.Some? ==> exists i: nat, v :: Foremost(releases, channel, i, v) && best.value == releases[i]
  {
    hide ParseVersion, StripV, KeyLess, Offered, Foremost;
    best := None;
    var bestKey := LOWEST;
    ghost var at: nat := 0;
    for k := 0 to |releases|
      invariant best.None? ==> forall j :: 0 <= j < k ==> !Eligible(releases[j], channel)
      invariant best.Some? ==>
        at < k && best.value == releases[at] && bestKey == TagKey(releases[at]) && Picked(releases[..k], channel, at)
    {
      var rel := releases[k];
      assert releases[..k + 1] == releases[..k] + [rel];
      if rel.draft {
        continue;
      }
      if channel != BetaChannel && rel.prerelease {
        continue;
      }
      var key := ParseVersion(StripV(rel.tag));
      if key == LOWEST {
        continue;
      }
      if best.None? || KeyLess(bestKey, key) {
        forall j | 0 <= j < k && Eligible(releases[j], channel)
          ensures KeyLess(TagKey(releases[j]), key)
        {
          BelowTheBest(TagKey(releases[j]), bestKey, key);
        }
        best, bestKey, at := Some(rel), key, k;
      }
    }
    assert releases[..|releases|] == releases;
    forall r | r in releases
      ensures Eligible(r, channel) <==> exists v :: Offered(r, channel, v)
    {
      EligibleIff(r, channel);
    }
    if best.Some? {
      ghost var v := PickedIsForemost(releases, channel, at);
    }
  }

  /** GitHub's list order does not matter: two listings of the same releases pick the same version. */
  lemma PickIgnoresTheOrder(a: seq<Release>, b: seq<Release>, channel: Channel, i: nat, v: Version, j: nat, w: Version)
    requires multiset(a) == multiset(b) && Foremost(a, channel, i, v) && Foremost(b, channel, j, w)
    ensures v == w
  {
    hide Reads, Precedes;
    assert a[i] in multiset(b) && b[j] in multiset(a);
    var i' :| 0 <= i' < |b| && b[i'] == a[i];
    var j' :| 0 <= j' < |a| && a[j'] == b[j];
    OneIsOlder(v, w);
  }

  lemma OneIsOlder(v: Version, w: Version)
    ensures v == w || Precedes(v, w) || Precedes(w, v)
    ensures !(Precedes(v, w) && Precedes(w, v))
  {
    KeyOrderIsPrecedence(v, w);
    KeyOrderIsPrecedence(w, v);
  }

  /** True when `candidate` is strictly older; an unreadable installed version is never newer. */
  predicate IsDowngrade(installed: string, candidate: string) {
    ParseVersion(installed) != LOWEST && KeyLess(ParseVersion(candidate), ParseVersion(installed))
  }

  /** `older` is a version, or a string that spells none, below the one `newer` spells. */
  ghost predicate Older(older: string, newer: string) {
    exists v :: Reads(newer, v) && v != UNREADABLE && forall w :: Reads(older, w) ==> Precedes(w, v)
  }

  lemma DowngradeIff(installed: string, candidate: string)
    ensures IsDowngrade(installed, candidate) <==> Older(candidate, installed)
  {
    hide ParseVersion, Reads, Precedes;
    LowestIff(installed);
    LowestIff(candidate);
    if v :| Reads(installed, v) && v != UNREADABLE {
      ReadingHasItsKey(installed, v);
      forall u | Reads(installed, u)
        ensures u == v
      {
        OneReading(installed, u, v);
      }
      if w :| Reads(candidate, w) {
        forall u | Reads(candidate, u)
          ensures u == w
        {
          OneReading(candidate, u, w);
        }
        StringsCompareAsVersions(candidate, installed, w, v);
      } else {
        LowestIsBelow(ParseVersion(installed));
      }
    }
  }

  lemma LowestIsBelow(k: Key)
    requires k != LOWEST
    ensures KeyLess(LOWEST, k)
  {
  }
}
