/**
 Which Kea Jen reaches, as two programs read it from a config: the installer's list of differences, and the view Jen's
 own guards compare.
 */
module IdentityViews {
  import opened Outcomes
  import opened Text
  import opened IniFile

  datatype Field = ApiUrl | SshHost | SshUser | KeaConf

  const DEFAULT_KEA_CONF := "/etc/kea/kea-dhcp4.conf"
  const SERVER_PREFIX := "kea_server_"

  /** What the installer's view is keyed by. */
  datatype Label = Mode | Primary(field: Field) | Server(section: string, field: Field) | Present(section: string)

  function OptionOf(f: Field): string {
    match f
    case ApiUrl => "api_url"
    case SshHost => "ssh_host"
    case SshUser => "ssh_user"
    case KeaConf => "kea_conf"
  }

  /** The primary's api_url is in [kea], the rest in [kea_ssh] under shorter names. */
  function PrimaryOption(f: Field): (string, string) {
    match f
    case ApiUrl => ("kea", "api_url")
    case SshHost => ("kea_ssh", "host")
    case SshUser => ("kea_ssh", "user")
    case KeaConf => ("kea_ssh", "kea_conf")
  }

  function Normal(f: Field, value: string): string {
    var v := Strip(value);
    if v != "" then v else if f == KeaConf then DEFAULT_KEA_CONF else ""
  }

  function Lower(s: string): string {
    seq(|s|, i requires 0 <= i < |s| => if 'A' <= s[i] <= 'Z' then (s[i] as int + 32) as char else s[i])
  }

  function ModeOf(p: Parser): string {
    if Lower(Strip(Get(p, "kea", "connection_mode", "ca"))) == "direct" then "direct" else "ca"
  }

  function Number(section: string): Option<nat> {
    if SERVER_PREFIX <= section && Numeral(section[|SERVER_PREFIX|..]) then Some(ToNat(section[|SERVER_PREFIX|..]))
    else None
  }

  predicate IsServer(section: string) {
    Number(section).Some? && Number(section).value >= 2
  }

  // ── The installer's view ────────────────────────────────────────────────────────────────────────────────────

  function At(p: Parser, l: Label): Option<string> {
    match l
    case Mode => Some(ModeOf(p))
    case Primary(f) => Some(Normal(f, Get(p, PrimaryOption(f).0, PrimaryOption(f).1, "")))
    case Server(s, f) => if s in p && IsServer(s) then Some(Normal(f, Get(p, s, OptionOf(f), ""))) else None
    case Present(s) => if s in p && IsServer(s) then Some("present") else None
  }

  type View = map<Label, string>

  function Lookup(v: View, l: Label): Option<string> {
    if l in v then Some(v[l]) else None
  }

  ghost predicate IsView(v: View, p: Parser) {
    forall l :: Lookup(v, l) == At(p, l)
  }

  method IdentityView(p: Parser) returns (view: View)
    ensures IsView(view, p)
  {
    view := map[Mode := ModeOf(p)];
    for i := 0 to 4
      invariant forall l :: Lookup(view, l) == if l.Mode? || (l.Primary? && Rank(l.field) < i) then At(p, l) else None
    {
      var f := [ApiUrl, SshHost, SshUser, KeaConf][i];
      assert forall g :: Rank(g) == i <==> g == f;
      view := view[Primary(f) := Normal(f, Get(p, PrimaryOption(f).0, PrimaryOption(f).1, ""))];
    }
    var sections := p.Keys;
    while sections != {}
      invariant sections <= p.Keys
      invariant forall l ::
        Lookup(view, l) == if (l.Server? || l.Present?) && l.section in sections then None else At(p, l)
      decreases |sections|
    {
      var s :| s in sections;
      sections := sections - {s};
      if IsServer(s) {
        ghost var before := view;
        view := view[Server(s, ApiUrl) := Normal(ApiUrl, Get(p, s, "api_url", ""))];
        view := view[Server(s, SshHost) := Normal(SshHost, Get(p, s, "ssh_host", ""))];
        view := view[Server(s, SshUser) := Normal(SshUser, Get(p, s, "ssh_user", ""))];
        view := view[Server(s, KeaConf) := Normal(KeaConf, Get(p, s, "kea_conf", ""))];
        view := view[Present(s) := "present"];
        OneServerMore(p, before, view, s);
      }
    }
  }

  function Rank(f: Field): nat {
    match f case ApiUrl => 0 case SshHost => 1 case SshUser => 2 case KeaConf => 3
  }

  lemma OneServerMore(p: Parser, before: View, after: View, s: string)
    requires s in p && IsServer(s)
    requires after == before[Server(s, ApiUrl) := Normal(ApiUrl, Get(p, s, "api_url", ""))]
      [Server(s, SshHost) := Normal(SshHost, Get(p, s, "ssh_host", ""))]
      [Server(s, SshUser) := Normal(SshUser, Get(p, s, "ssh_user", ""))]
      [Server(s, KeaConf) := Normal(KeaConf, Get(p, s, "kea_conf", ""))][Present(s) := "present"]
    ensures forall l ::
      Lookup(after, l) == if (l.Server? || l.Present?) && l.section == s then At(p, l) else Lookup(before, l)
  {
    hide Normal, Get, IsServer;
    forall l
      ensures Lookup(after, l) == if (l.Server? || l.Present?) && l.section == s then At(p, l) else Lookup(before, l)
    {
      if l.Server? && l.section == s {
        match l.field
        case ApiUrl =>
        case SshHost =>
        case SshUser =>
        case KeaConf =>
      }
    }
  }

  // ── The differences ─────────────────────────────────────────────────────────────────────────────────────────

  datatype Line =
    | Added(section: string)
    | Removed(section: string)
    | Changed(key: Label, was: Option<string>, now: Option<string>)

  /** The line a label gives, if any: a server that came or went is said once, not once for each of its settings. */
  function LineFor(before: Parser, after: Parser, l: Label): Option<Line> {
    var (a, b) := (At(before, l), At(after, l));
    if a == b then None
    else if l.Present? then Some(if a.None? then Added(l.section) else Removed(l.section))
    else if l.Server? && (a.None? || b.None?) then None
    else Some(Changed(l, a, b))
  }

  ghost predicate SameView(before: Parser, after: Parser) {
    forall l :: At(before, l) == At(after, l)
  }

  /** Saying an added or removed server once hides nothing: there is no line exactly when nothing differs. */
  lemma NoLineIffSameView(before: Parser, after: Parser)
    ensures (forall l :: LineFor(before, after, l) == None) <==> SameView(before, after)
  {
    hide Normal, Get, IsServer;
    if forall l :: LineFor(before, after, l) == None {
      forall l
        ensures At(before, l) == At(after, l)
      {
        assert LineFor(before, after, l) == None;
        if l.Server? {
          assert LineFor(before, after, Present(l.section)) == None;
          assert At(before, l).None? <==> At(before, Present(l.section)).None?;
          assert At(after, l).None? <==> At(after, Present(l.section)).None?;
        }
      }
    }
  }

  lemma EmptyDiffIffSameView(before: Parser, after: Parser, lines: seq<Line>)
    requires forall line :: line in lines <==> exists l :: LineFor(before, after, l) == Some(line)
    ensures lines == [] <==> SameView(before, after)
  {
    hide LineFor, SameView;
    NoLineIffSameView(before, after);
    if lines != [] {
      assert lines[0] in lines;
      var l :| LineFor(before, after, l) == Some(lines[0]);
      assert LineFor(before, after, l) != None;
    } else {
      forall l
        ensures LineFor(before, after, l) == None
      {
        ItsLineIsSaid(before, after, lines, l);
      }
    }
  }

  lemma ItsLineIsSaid(before: Parser, after: Parser, lines: seq<Line>, l: Label)
    requires forall line :: line in lines <==> exists k :: LineFor(before, after, k) == Some(line)
    ensures LineFor(before, after, l).None? || LineFor(before, after, l).value in lines
  {
    hide LineFor;
    if LineFor(before, after, l).Some? {
      assert LineFor(before, after, l) == Some(LineFor(before, after, l).value);
    }
  }

  // ── Jen's own view ──────────────────────────────────────────────────────────────────────────────────────────

  datatype Identity = Identity(apiUrl: string, sshHost: string, sshUser: string, keaConf: string)

  datatype JenView = JenView(servers: map<nat, Identity>, mode: string)

  function SectionName(n: nat): string {
    SERVER_PREFIX + Decimal(n)
  }

  function Numbers(p: Parser): set<nat> {
    set s | s in p && IsServer(s) :: Number(s).value
  }

  function PrimaryField(p: Parser, f: Field): string {
    Normal(f, Get(p, PrimaryOption(f).0, PrimaryOption(f).1, if f == KeaConf then DEFAULT_KEA_CONF else ""))
  }

  function ServerField(p: Parser, section: string, f: Field): string {
    Normal(f, Get(p, section, OptionOf(f), if f == KeaConf then DEFAULT_KEA_CONF else ""))
  }

  /** Server n is read from the section its number spells, whichever section the number was found in. */
  function IdentityOf(p: Parser, n: nat): Identity {
    if n == 1 then
      Identity(PrimaryField(p, ApiUrl), PrimaryField(p, SshHost), PrimaryField(p, SshUser), PrimaryField(p, KeaConf))
    else
      var s := SectionName(n);
      Identity(ServerField(p, s, ApiUrl), ServerField(p, s, SshHost), ServerField(p, s, SshUser),
               ServerField(p, s, KeaConf))
  }

  function JenIdentityView(p: Parser): JenView {
    JenView(map n | n in Numbers(p) + {1} :: IdentityOf(p, n), ModeOf(p))
  }

  predicate Canonical(p: Parser) {
    forall s :: s in p && IsServer(s) ==> s == SectionName(Number(s).value)
  }

  lemma NumberOfSectionName(n: nat)
    ensures Number(SectionName(n)) == Some(n)
  {
    assert SectionName(n)[|SERVER_PREFIX|..] == Decimal(n);
  }

  /** A blank config path is the default one, so the two programs' fallbacks for it come to the same. */
  lemma DefaultPathIsItself()
    ensures Normal(KeaConf, DEFAULT_KEA_CONF) == Normal(KeaConf, "")
  {
    assert !Blank(DEFAULT_KEA_CONF[0]) && !Blank(DEFAULT_KEA_CONF[|DEFAULT_KEA_CONF| - 1]);
  }

  lemma FieldsAgree(p: Parser, f: Field, s: string)
    ensures At(p, Primary(f)) == Some(PrimaryField(p, f))
    ensures s in p && IsServer(s) ==> At(p, Server(s, f)) == Some(ServerField(p, s, f))
  {
    DefaultPathIsItself();
    hide Normal;
  }

  lemma SectionOfNumber(p: Parser, n: nat)
    requires Canonical(p) && n >= 2
    ensures n in Numbers(p) <==> At(p, Present(SectionName(n))).Some?
  {
    NumberOfSectionName(n);
    if n in Numbers(p) {
      var s :| s in p && IsServer(s) && Number(s).value == n;
    }
  }

  lemma SameViewGivesSameJenView(p: Parser, q: Parser)
    requires Canonical(p) && Canonical(q) && SameView(p, q)
    ensures JenIdentityView(p) == JenIdentityView(q)
  {
    hide Normal, Get, SectionName, Number, ModeOf;
    assert At(p, Mode) == At(q, Mode);
    forall n
      ensures n in Numbers(p) <==> n in Numbers(q)
    {
      if n >= 2 {
        SectionOfNumber(p, n);
        SectionOfNumber(q, n);
        assert At(p, Present(SectionName(n))) == At(q, Present(SectionName(n)));
      }
    }
    assert Numbers(p) == Numbers(q);
    forall n | n in Numbers(p) + {1}
      ensures IdentityOf(p, n) == IdentityOf(q, n)
    {
      if n != 1 {
        SectionOfNumber(p, n);
        SectionOfNumber(q, n);
      }
      SameIdentity(p, q, n);
    }
  }

  lemma SameIdentity(p: Parser, q: Parser, n: nat)
    requires SameView(p, q)
    requires n == 1 || (At(p, Present(SectionName(n))).Some? && At(q, Present(SectionName(n))).Some?)
    ensures IdentityOf(p, n) == IdentityOf(q, n)
  {
    hide Normal, Get, SectionName, IsServer;
    forall f: Field
      ensures PrimaryField(p, f) == PrimaryField(q, f)
      ensures n != 1 ==> ServerField(p, SectionName(n), f) == ServerField(q, SectionName(n), f)
    {
      FieldsAgree(p, f, SectionName(n));
      FieldsAgree(q, f, SectionName(n));
      assert At(p, Primary(f)) == At(q, Primary(f));
      assert At(p, Server(SectionName(n), f)) == At(q, Server(SectionName(n), f));
    }
  }

  lemma SameJenViewGivesSameView(p: Parser, q: Parser)
    requires Canonical(p) && Canonical(q) && JenIdentityView(p) == JenIdentityView(q)
    ensures SameView(p, q)
  {
    var u, v := JenIdentityView(p), JenIdentityView(q);
    assert u.servers.Keys == Numbers(p) + {1} && v.servers.Keys == Numbers(q) + {1};
    hide Normal, Get, SectionName, ModeOf, IdentityOf;
    forall l
      ensures At(p, l) == At(q, l)
    {
      match l
      case Mode =>
      case Primary(f) =>
        assert u.servers[1] == v.servers[1];
        SameFields(p, q, 1, f);
      case Server(s, f) => SameServer(p, q, s, f);
      case Present(s) => SameServer(p, q, s, ApiUrl);
    }
  }

  lemma SameFields(p: Parser, q: Parser, n: nat, f: Field)
    requires IdentityOf(p, n) == IdentityOf(q, n)
    ensures n == 1 ==> At(p, Primary(f)) == At(q, Primary(f))
    ensures n != 1 ==> ServerField(p, SectionName(n), f) == ServerField(q, SectionName(n), f)
  {
    FieldsAgree(p, f, "");
    FieldsAgree(q, f, "");
    hide Normal, Get, SectionName;
  }

  lemma SameServersCarried(p: Parser, q: Parser)
    requires JenIdentityView(p) == JenIdentityView(q)
    ensures Numbers(p) == Numbers(q)
    ensures forall n :: n in Numbers(p) ==> IdentityOf(p, n) == IdentityOf(q, n)
  {
    var u, v := JenIdentityView(p), JenIdentityView(q);
    hide IdentityOf, Number, ModeOf;
    assert u.servers.Keys == Numbers(p) + {1} && v.servers.Keys == Numbers(q) + {1};
    assert Numbers(p) == u.servers.Keys - {1} && Numbers(q) == v.servers.Keys - {1};
    forall n | n in Numbers(p)
      ensures IdentityOf(p, n) == IdentityOf(q, n)
    {
      assert u.servers[n] == v.servers[n];
    }
  }

  lemma SameServer(p: Parser, q: Parser, s: string, f: Field)
    requires Canonical(p) && Canonical(q) && JenIdentityView(p) == JenIdentityView(q)
    ensures At(p, Server(s, f)) == At(q, Server(s, f)) && At(p, Present(s)) == At(q, Present(s))
  {
    hide Normal, Get, SectionName, IdentityOf, JenIdentityView, Number;
    SameServersCarried(p, q);
    if IsServer(s) && (s in p || s in q) {
      var n := Number(s).value;
      assert n in Numbers(p) && n in Numbers(q);
      assert s == SectionName(n);
      SectionOfNumber(p, n);
      SectionOfNumber(q, n);
      SameFields(p, q, n, f);
      FieldsAgree(p, f, s);
      FieldsAgree(q, f, s);
    }
  }

  /** On canonical section names the installer and Jen agree on whether the Kea that Jen reaches has changed. */
  lemma EmptyDiffIffSameJenView(before: Parser, after: Parser, lines: seq<Line>)
    requires Canonical(before) && Canonical(after)
    requires forall line :: line in lines <==> exists l :: LineFor(before, after, l) == Some(line)
    ensures lines == [] <==> JenIdentityView(before) == JenIdentityView(after)
  {
    EmptyDiffIffSameView(before, after, lines);
    if SameView(before, after) {
      SameViewGivesSameJenView(before, after);
    }
    if JenIdentityView(before) == JenIdentityView(after) {
      SameJenViewGivesSameView(before, after);
    }
  }

  method IdentityDiff(before: Parser, after: Parser) returns (lines: seq<Line>)
    ensures forall line :: line in lines <==> exists l :: LineFor(before, after, l) == Some(line)
    ensures lines == [] <==> SameView(before, after)
    ensures Canonical(before) && Canonical(after) ==>
      (lines == [] <==> JenIdentityView(before) == JenIdentityView(after))
  {
    hide JenIdentityView, Canonical, SameView;
    var was := IdentityView(before);
    var now := IdentityView(after);
    lines := [];
    var left := was.Keys + now.Keys;
    while left != {}
      invariant left <= was.Keys + now.Keys
      invariant forall line :: line in lines <==>
        exists l :: l in was.Keys + now.Keys && l !in left && LineFor(before, after, l) == Some(line)
      decreases |left|
    {
      var key :| key in left;
      left := left - {key};
      var a, b := Lookup(was, key), Lookup(now, key);
      assert a == At(before, key) && b == At(after, key);
      if a == b {
        continue;
      }
      if key.Present? {
        lines := lines + [if a.None? then Added(key.section) else Removed(key.section)];
      } else if key.Server? && (a.None? || b.None?) {
        continue;
      } else {
        lines := lines + [Changed(key, a, b)];
      }
    }
    forall line
      ensures line in lines <==> exists l :: LineFor(before, after, l) == Some(line)
    {
      if l :| LineFor(before, after, l) == Some(line) {
        assert Lookup(was, l) == At(before, l) && Lookup(now, l) == At(after, l);
        assert l in was.Keys + now.Keys && l !in left;
      }
    }
    EmptyDiffIffSameView(before, after, lines);
    if Canonical(before) && Canonical(after) {
      EmptyDiffIffSameJenView(before, after, lines);
    }
  }

  // ── Names that are spelled otherwise ────────────────────────────────────────────────────────────────────────

  lemma ServersAreNotThePrimary(s: string)
    requires IsServer(s)
    ensures s != "kea" && s != "kea_ssh"
  {
    assert s[5] == SERVER_PREFIX[5] == 'e' && "kea_ssh"[5] == 's';
  }

  lemma OnlyItsOwnName(s: string, n: nat)
    requires IsServer(s) && s != SectionName(Number(s).value)
    ensures s != SectionName(n)
  {
    NumberOfSectionName(n);
  }

  lemma ReadsTheSame(p: Parser, q: Parser, s: string, section: string)
    requires s in p && s in q && q == p[s := q[s]] && s != section
    ensures forall k, f :: Get(q, section, k, f) == Get(p, section, k, f)
  {
  }

  lemma IdentityReadsTheSame(p: Parser, q: Parser, s: string, n: nat)
    requires IsServer(s) && s != SectionName(Number(s).value) && s in p && s in q && q == p[s := q[s]]
    ensures IdentityOf(q, n) == IdentityOf(p, n)
  {
    ServersAreNotThePrimary(s);
    OnlyItsOwnName(s, n);
    hide Normal, SectionName, Number;
    ReadsTheSame(p, q, s, "kea");
    ReadsTheSame(p, q, s, "kea_ssh");
    ReadsTheSame(p, q, s, SectionName(n));
  }

  lemma SameNumbers(p: Parser, q: Parser)
    requires q.Keys == p.Keys
    ensures Numbers(q) == Numbers(p)
  {
    hide IsServer, Number;
    assert forall s :: s in q <==> s in p;
  }

  /** Jen reads a server's settings from the section its number spells, so those of a section spelled otherwise go
      unread. */
  lemma SpelledOtherwiseGoesUnread(p: Parser, q: Parser, s: string)
    requires IsServer(s) && s != SectionName(Number(s).value) && s in p && s in q && q == p[s := q[s]]
    ensures JenIdentityView(q) == JenIdentityView(p)
  {
    ServersAreNotThePrimary(s);
    ReadsTheSame(p, q, s, "kea");
    hide Normal, SectionName, Number, IdentityOf, IsServer, Numbers, Get;
    SameNumbers(p, q);
    assert ModeOf(q) == ModeOf(p);
    hide ModeOf;
    forall n | n in Numbers(p) + {1}
      ensures IdentityOf(q, n) == IdentityOf(p, n)
    {
      IdentityReadsTheSame(p, q, s, n);
    }
  }

  /** A padded number is such a spelling. */
  lemma PaddedNumber()
    ensures IsServer(SERVER_PREFIX + "02") && SERVER_PREFIX + "02" != SectionName(Number(SERVER_PREFIX + "02").value)
  {
    assert (SERVER_PREFIX + "02")[|SERVER_PREFIX|..] == "02";
    assert "02"[..1] == "0" && "0"[..0] == "";
    assert ToNat("0") == 0 && ToNat("02") == 2;
    assert |SectionName(2)| == |SERVER_PREFIX| + |Decimal(2)|;
  }

  /** For every file with such a section there is an edit of it alone that the installer reports and Jen's guards are
      not asked about. */
  lemma AnEditOnlyTheInstallerSees(p: Parser, s: string) returns (q: Parser)
    requires s in p && IsServer(s) && s != SectionName(Number(s).value)
    ensures s in q && q == p[s := q[s]]
    ensures JenIdentityView(q) == JenIdentityView(p) && !SameView(p, q)
  {
    var url := if Normal(ApiUrl, Get(p, s, "api_url", "")) == "a" then "b" else "a";
    q := Set(p, s, "api_url", url);
    SpelledOtherwiseGoesUnread(p, q, s);
    assert Normal(ApiUrl, url) == url;
    hide Number, SectionName, IsServer;
    assert At(q, Server(s, ApiUrl)) == Some(url) != At(p, Server(s, ApiUrl));
  }

  predicate Agree(p: Parser, q: Parser) {
    JenIdentityView(p) == JenIdentityView(q)
  }

  /** The installer and Jen agree on every edit that keeps the section names exactly when those names are canonical. */
  lemma AgreementIffCanonical(p: Parser)
    ensures Canonical(p) <==> forall q: Parser :: q.Keys == p.Keys ==> (SameView(p, q) <==> Agree(p, q))
  {
    hide SectionName, Number, IdentityOf, JenIdentityView, SameView;
    if Canonical(p) {
      forall q: Parser | q.Keys == p.Keys
        ensures SameView(p, q) <==> Agree(p, q)
      {
        assert Canonical(q) by {
          SameNamesSameSpelling(p, q);
        }
        ViewsAgree(p, q);
      }
    } else {
      var s :| s in p && IsServer(s) && s != SectionName(Number(s).value);
      var q := AnEditOnlyTheInstallerSees(p, s);
      assert q.Keys == p.Keys;
      assert !(SameView(p, q) <==> Agree(p, q)) by {
        assert Agree(p, q);
      }
    }
  }

  lemma SameNamesSameSpelling(p: Parser, q: Parser)
    requires Canonical(p) && q.Keys == p.Keys
    ensures Canonical(q)
  {
    hide SectionName, Number;
    forall s | s in q && IsServer(s)
      ensures s == SectionName(Number(s).value)
    {
      assert s in p.Keys;
    }
  }

  lemma ViewsAgree(p: Parser, q: Parser)
    requires Canonical(p) && Canonical(q)
    ensures SameView(p, q) <==> Agree(p, q)
  {
    hide SameView, Canonical, JenIdentityView;
    if SameView(p, q) {
      SameViewGivesSameJenView(p, q);
    }
    if Agree(p, q) {
      SameJenViewGivesSameView(p, q);
    }
  }
}
