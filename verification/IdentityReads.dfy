/**
 Where the two programs read each setting from, by its section and its key in the file: the installer's view and Jen's
 hold the same settings of the primary, and each numbered server's.
 */
module IdentityReads {
  import opened Outcomes
  import opened Text
  import opened IniFile
  import opened IdentityViews

  /** `v` is `value` without the blanks around it, or `fallback` when nothing is left. */
  ghost predicate Holds(value: string, fallback: string, v: string) {
    exists t :: Trims(value, t) && v == if t == "" then fallback else t
  }

  lemma NormalHolds(f: Field, value: string)
    ensures Holds(value, if f == KeaConf then "/etc/kea/kea-dhcp4.conf" else "", Normal(f, value))
  {
    StripTrims(value);
  }

  lemma NormalOfTheDefault(p: Parser, section: string, key: string)
    ensures Normal(KeaConf, Get(p, section, key, DEFAULT_KEA_CONF)) == Normal(KeaConf, Get(p, section, key, ""))
  {
    DefaultPathIsItself();
  }

  // ── The mode ────────────────────────────────────────────────────────────────────────────────────────────────

  ghost predicate SameButCase(t: string, lower: string, upper: string)
    requires |lower| == |upper|
  {
    |t| == |lower| && forall i :: 0 <= i < |t| ==> t[i] == lower[i] || t[i] == upper[i]
  }

  /** connection_mode in [kea] says direct, in whatever case and between whatever blanks. */
  ghost predicate SaysDirect(p: Parser) {
    exists t :: Trims(Get(p, "kea", "connection_mode", "ca"), t) && SameButCase(t, "direct", "DIRECT")
  }

  lemma LowerIsDirectIff(t: string)
    ensures Lower(t) == "direct" <==> SameButCase(t, "direct", "DIRECT")
  {
    if Lower(t) == "direct" {
      assert |t| == 6;
      forall i | 0 <= i < 6
        ensures t[i] == "direct"[i] || t[i] == "DIRECT"[i]
      {
        assert Lower(t)[i] == "direct"[i];
      }
    }
    if SameButCase(t, "direct", "DIRECT") {
      forall i | 0 <= i < 6
        ensures Lower(t)[i] == "direct"[i]
      {
      }
      assert |Lower(t)| == 6;
    }
  }

  /** Both programs take anything else for ca. */
  lemma ModeIsDirectIff(p: Parser)
    ensures ModeOf(p) == if SaysDirect(p) then "direct" else "ca"
    ensures At(p, Mode) == Some(if SaysDirect(p) then "direct" else "ca")
    ensures JenIdentityView(p).mode == if SaysDirect(p) then "direct" else "ca"
  {
    var value := Get(p, "kea", "connection_mode", "ca");
    StripTrims(value);
    LowerIsDirectIff(Strip(value));
    hide Lower, SameButCase, Strip;
    if SaysDirect(p) {
      var t :| Trims(value, t) && SameButCase(t, "direct", "DIRECT");
      StripIsTheTrimmed(value, t);
    }
  }

  /** A change from the one to the other is said, and is one Jen's guards are asked about. */
  lemma AModeChangeIsSaid(before: Parser, after: Parser, lines: seq<Line>)
    requires forall line :: line in lines <==> exists l :: LineFor(before, after, l) == Some(line)
    requires SaysDirect(before) != SaysDirect(after)
    ensures Changed(Mode, Some(if SaysDirect(before) then "direct" else "ca"),
                    Some(if SaysDirect(after) then "direct" else "ca")) in lines
    ensures JenIdentityView(before) != JenIdentityView(after)
  {
    hide JenIdentityView, At, SaysDirect;
    ModeIsDirectIff(before);
    ModeIsDirectIff(after);
    ItsLineIsSaid(before, after, lines, Mode);
  }

  // ── The settings ────────────────────────────────────────────────────────────────────────────────────────────

  /** `section` is kea_server_ and a number from 2 on. */
  ghost predicate IsNumbered(section: string, n: nat) {
    n >= 2 && exists d :: Numeral(d) && ToNat(d) == n && section == "kea_server_" + d
  }

  lemma ServersAreNumbered(section: string, n: nat)
    ensures IsServer(section) && Number(section).value == n <==> IsNumbered(section, n)
  {
    if SERVER_PREFIX <= section {
      assert section == "kea_server_" + section[|SERVER_PREFIX|..];
    }
    if IsNumbered(section, n) {
      var d :| Numeral(d) && ToNat(d) == n && section == "kea_server_" + d;
      assert section[|SERVER_PREFIX|..] == d;
    }
  }

  ghost predicate Shows(p: Parser, l: Label, section: string, key: string, fallback: string) {
    At(p, l).Some? && Holds(Get(p, section, key, ""), fallback, At(p, l).value)
  }

  /** The installer's view of the primary. */
  lemma TheInstallerReadsThePrimary(p: Parser)
    ensures Shows(p, Primary(ApiUrl), "kea", "api_url", "")
    ensures Shows(p, Primary(SshHost), "kea_ssh", "host", "")
    ensures Shows(p, Primary(SshUser), "kea_ssh", "user", "")
    ensures Shows(p, Primary(KeaConf), "kea_ssh", "kea_conf", "/etc/kea/kea-dhcp4.conf")
  {
    hide Holds, Normal, Get;
    NormalHolds(ApiUrl, Get(p, "kea", "api_url", ""));
    NormalHolds(SshHost, Get(p, "kea_ssh", "host", ""));
    NormalHolds(SshUser, Get(p, "kea_ssh", "user", ""));
    NormalHolds(KeaConf, Get(p, "kea_ssh", "kea_conf", ""));
  }

  /** A section is a server's exactly when its name is the prefix and a number from 2 on. */
  lemma TheInstallerSeesAServer(p: Parser, s: string)
    ensures At(p, Present(s)).Some? <==> s in p && exists n: nat :: IsNumbered(s, n)
  {
    if IsServer(s) {
      ServersAreNumbered(s, Number(s).value);
    }
    if n: nat :| IsNumbered(s, n) {
      ServersAreNumbered(s, n);
    }
    hide Number, IsNumbered, Normal, Get;
  }

  /** And its settings are in it. */
  lemma TheInstallerReadsAServer(p: Parser, s: string)
    requires At(p, Present(s)).Some?
    ensures Shows(p, Server(s, ApiUrl), s, "api_url", "") && Shows(p, Server(s, SshHost), s, "ssh_host", "")
    ensures Shows(p, Server(s, SshUser), s, "ssh_user", "")
    ensures Shows(p, Server(s, KeaConf), s, "kea_conf", "/etc/kea/kea-dhcp4.conf")
  {
    hide Holds, Normal, Get, IsServer;
    NormalHolds(ApiUrl, Get(p, s, "api_url", ""));
    NormalHolds(SshHost, Get(p, s, "ssh_host", ""));
    NormalHolds(SshUser, Get(p, s, "ssh_user", ""));
    NormalHolds(KeaConf, Get(p, s, "kea_conf", ""));
  }

  ghost predicate Identifies(p: Parser, i: Identity, urlSection: string, section: string, host: string, user: string) {
    && Holds(Get(p, urlSection, "api_url", ""), "", i.apiUrl)
    && Holds(Get(p, section, host, ""), "", i.sshHost)
    && Holds(Get(p, section, user, ""), "", i.sshUser)
    && Holds(Get(p, section, "kea_conf", ""), "/etc/kea/kea-dhcp4.conf", i.keaConf)
  }

  lemma PrimaryIdentifies(p: Parser)
    ensures Identifies(p, IdentityOf(p, 1), "kea", "kea_ssh", "host", "user")
  {
    NormalOfTheDefault(p, "kea_ssh", "kea_conf");
    hide Holds, Normal, Get;
    NormalHolds(ApiUrl, Get(p, "kea", "api_url", ""));
    NormalHolds(SshHost, Get(p, "kea_ssh", "host", ""));
    NormalHolds(SshUser, Get(p, "kea_ssh", "user", ""));
    NormalHolds(KeaConf, Get(p, "kea_ssh", "kea_conf", ""));
  }

  lemma ServerIdentifies(p: Parser, n: nat, s: string)
    requires n != 1 && s == "kea_server_" + Decimal(n)
    ensures Identifies(p, IdentityOf(p, n), s, s, "ssh_host", "ssh_user")
  {
    NormalOfTheDefault(p, s, "kea_conf");
    hide Holds, Normal, Get;
    NormalHolds(ApiUrl, Get(p, s, "api_url", ""));
    NormalHolds(SshHost, Get(p, s, "ssh_host", ""));
    NormalHolds(SshUser, Get(p, s, "ssh_user", ""));
    NormalHolds(KeaConf, Get(p, s, "kea_conf", ""));
  }

  /** Jen's view: the primary, and for every number a section has the settings of the section the number spells. */
  lemma JenReads(p: Parser, n: nat)
    ensures
      var servers, s := JenIdentityView(p).servers, "kea_server_" + Decimal(n);
      && (n in servers <==> n == 1 || exists section :: section in p && IsNumbered(section, n))
      && (n in servers && n == 1 ==> Identifies(p, servers[n], "kea", "kea_ssh", "host", "user"))
      && (n in servers && n != 1 ==> Identifies(p, servers[n], s, s, "ssh_host", "ssh_user"))
  {
    hide Identifies, IdentityOf, IsNumbered, Number, ModeOf;
    forall s
      ensures IsServer(s) && Number(s).value == n <==> IsNumbered(s, n)
    {
      ServersAreNumbered(s, n);
    }
    assert n in Numbers(p) <==> exists s :: s in p && IsNumbered(s, n);
    if n == 1 {
      PrimaryIdentifies(p);
    } else {
      ServerIdentifies(p, n, "kea_server_" + Decimal(n));
    }
  }
}
