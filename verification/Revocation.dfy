/**
 Who can still log in. What each program honours is read from its container, the way the
 program reads it, and traced back to the user records the tree was rendered from.
 */
module Revocation {
  import opened Wrappers
  import opened Strings
  import opened Users
  import opened Registry
  import opened Rendering
  import opened TreeDiff
  import opened Containers
  import opened Reconcile

  // --------------------------------------------------------------- what a container honours

  ghost predicate InboundHonours(mounts: Tree, name: string, secret: string)
  {
    exists rel :: rel in mounts && mounts[rel].Inbound? && (name, secret) in mounts[rel].logins
  }

  /** The value an env file gives a variable: the last line that sets it. */
  function ValueOf(vars: seq<(string, string)>, key: string): string
  {
    if vars == [] then ""
    else if vars[|vars| - 1].0 == key then vars[|vars| - 1].1
    else ValueOf(vars[..|vars| - 1], key)
  }

  /** The ikev2 image pairs the two lists by position. */
  ghost predicate Paired(vars: seq<(string, string)>, name: string, secret: string)
  {
    var names, passwords := Words(ValueOf(vars, ADDL_USERS)), Words(ValueOf(vars, ADDL_PASSWORDS));
    exists i :: 0 <= i < |names| && i < |passwords| && names[i] == name && passwords[i] == secret
  }

  const IKEV2_ENV := "ikev2.env"

  const PRIMARY_USER := "VPN_USER"
  const PRIMARY_PASSWORD := "VPN_PASSWORD"

  /** The image's own account, which belongs to the server and to none of the users. */
  predicate PrimaryLogin(vars: seq<(string, string)>, name: string, secret: string)
  {
    name == ValueOf(vars, PRIMARY_USER) && secret == ValueOf(vars, PRIMARY_PASSWORD)
  }

  predicate IsPrimary(service: string, keyring: Keyring, name: string, secret: string)
  {
    && service == "ikev2" && "ipsec.primary_user" in keyring && "ipsec.primary_password" in keyring
    && name == Strip(keyring["ipsec.primary_user"]) && secret == Strip(keyring["ipsec.primary_password"])
  }

  ghost predicate Ikev2Honours(vars: seq<(string, string)>, name: string, secret: string)
  {
    Paired(vars, name, secret) || PrimaryLogin(vars, name, secret)
  }

  /** A login the container accepts. */
  ghost predicate Honours(service: string, c: Container, name: string, secret: string)
  {
    if service == "sing-box" then InboundHonours(c.mounts, name, secret)
    else if service == SSHD then name in c.accounts && c.accounts[name] == secret
    else if service == "ikev2" then
      IKEV2_ENV in c.env && c.env[IKEV2_ENV].Text? &&
      Ikev2Honours(ReadRecords('=', c.env[IKEV2_ENV].text), name, secret)
    else false
  }

  /** The services through which an enabled protocol lets users in. */
  predicate LetsIn(enabled: seq<Protocol>, service: string)
  {
    || (service == "sing-box" && (VLESS in enabled || HYSTERIA2 in enabled))
    || (service == SSHD && DNSTT in enabled)
    || (service == "ikev2" && IKEV2 in enabled)
  }

  /** The credential with which this user gets in through this service. */
  predicate Credential(service: string, enabled: seq<Protocol>, u: User, secret: string)
  {
    || (service == "sing-box" && VLESS in enabled && secret == u.vlessUuid)
    || (service == "sing-box" && HYSTERIA2 in enabled && secret == u.hysteria2Password)
    || (service == SSHD && secret == u.dnsttPassword && secret != "")
    || (service == "ikev2" && secret == Strip(u.l2tpPassword))
  }

  ghost predicate Entitled(users: seq<User>, enabled: seq<Protocol>, service: string, name: string, secret: string)
  {
    exists u :: u in users && u.enabled && u.name == name && Credential(service, enabled, u, secret)
  }

  /**
   The containers of the enabled protocols honour the logins of enabled users, the ikev2 image's
   own account, and no others.
   */
  ghost predicate ExactlyEnabledGetIn(cs: Containers, users: seq<User>, enabled: seq<Protocol>, keyring: Keyring)
  {
    forall s, name, secret | s in cs && LetsIn(enabled, s) ::
      Honours(s, cs[s], name, secret)
      <==> Entitled(users, enabled, s, name, secret) || IsPrimary(s, keyring, name, secret)
  }

  /**
   The condition under which the printed lists read back: nothing in them spans a line. It asks
   nothing for a protocol that is off, and nothing at all for sing-box.
   */
  predicate ReadsBack(keyring: Keyring, users: seq<User>, enabled: seq<Protocol>)
  {
    && (DNSTT in enabled || IKEV2 in enabled ==> PlainNames(users))
    && (IKEV2 in enabled ==> OneLineSecrets(keyring, users))
  }

  predicate PlainNames(users: seq<User>)
  {
    forall u | u in users && u.enabled :: PlainName(u.name)
  }

  predicate OneLineSecrets(keyring: Keyring, users: seq<User>)
  {
    && (forall u | u in users && u.enabled :: OneLine(u.l2tpPassword))
    && (forall n | n in IKEV2.secretNames && n in keyring :: OneLine(Strip(keyring[n])))
  }

  // --------------------------------------------------------------------------- sing-box

  /** The one list of logins in what a protocol prints, and where it is. */
  lemma SingBoxPrints(p: Protocol, keyring: Keyring, users: seq<User>, rel: string)
    requires Render(p, keyring, users).Ok?
    ensures var out := Render(p, keyring, users).value;
      && (rel in out && out[rel].Inbound? ==>
            || (p == VLESS && out[rel].logins == VlessLogins(users))
            || (p == HYSTERIA2 && out[rel].logins == Hysteria2Logins(users)))
    ensures var out := Render(p, keyring, users).value;
      && (p == VLESS ==> VLESS_FILE in out && out[VLESS_FILE].Inbound? && out[VLESS_FILE].logins == VlessLogins(users))
      && (p == HYSTERIA2 ==>
            && HYSTERIA2_FILE in out && out[HYSTERIA2_FILE].Inbound?
            && out[HYSTERIA2_FILE].logins == Hysteria2Logins(users))
  {
    hide VlessLogins, Hysteria2Logins, Enabled, Names, L2tpPasswords, FirstBadName, FirstBadL2tp,
      DnsttLogins, FirstUnservable, LoginHolders, RecordText, Join, Strip, FirstMissing;
  }

  const VLESS_FILE := "sing-box/10_vless-reality.json"
  const HYSTERIA2_FILE := "sing-box/20_hysteria2.json"

  /** A tree of logins only enabled protocols printed, with everything each of them printed in it. */
  ghost predicate IsRendered(t: Tree, keyring: Keyring, users: seq<User>, enabled: seq<Protocol>)
  {
    && (forall rel | rel in t :: t[rel].Text? || PrintedBy(rel, t[rel], enabled, keyring, users))
    && (forall p | p in enabled :: Render(p, keyring, users).Ok?)
    && (forall p, rel | p in enabled && rel in Render(p, keyring, users).value ::
          rel in t && t[rel] == Render(p, keyring, users).value[rel])
  }

  lemma TreeIsRendered(common: map<string, string>, keyring: Keyring, users: seq<User>, enabled: seq<Protocol>)
    ensures var r := TreeFor(common, keyring, users, enabled); r.Ok? ==> IsRendered(r.value, keyring, users, enabled)
  {
    hide Render, PrintedBy;
    if TreeFor(common, keyring, users, enabled).Ok? {
      MergeContents(CommonTree(common), enabled, keyring, users);
    }
  }

  lemma MountedIsRendered(t: Tree, s: string, c: Container, rel: string)
    requires Current(t, s, c) && rel in c.mounts
    ensures rel in t && t[rel] == c.mounts[rel]
  {
    hide Enroll, DeliveryOf;
  }

  lemma InboundsHonourEnabled(t: Tree, keyring: Keyring, users: seq<User>, enabled: seq<Protocol>, c: Container,
                              name: string, secret: string)
    requires IsRendered(t, keyring, users, enabled) && Current(t, "sing-box", c)
    ensures InboundHonours(c.mounts, name, secret) ==> Entitled(users, enabled, "sing-box", name, secret)
  {
    hide Render, Current, Strip;
    if InboundHonours(c.mounts, name, secret) {
      var rel :| rel in c.mounts && c.mounts[rel].Inbound? && (name, secret) in c.mounts[rel].logins;
      MountedIsRendered(t, "sing-box", c, rel);
      var p :| p in enabled && Render(p, keyring, users).Ok? && rel in Render(p, keyring, users).value
               && Render(p, keyring, users).value[rel] == t[rel];
      SingBoxPrints(p, keyring, users, rel);
    }
  }

  lemma EnabledAreInbound(t: Tree, keyring: Keyring, users: seq<User>, enabled: seq<Protocol>, c: Container,
                          name: string, secret: string)
    requires IsRendered(t, keyring, users, enabled) && Current(t, "sing-box", c)
    ensures Entitled(users, enabled, "sing-box", name, secret) ==> InboundHonours(c.mounts, name, secret)
  {
    hide Current, Strip, IsRendered, InboundHonours;
    if Entitled(users, enabled, "sing-box", name, secret) {
      var u :| u in users && u.enabled && u.name == name && Credential("sing-box", enabled, u, secret);
      if VLESS in enabled && secret == u.vlessUuid {
        VlessGetsIn(t, keyring, users, enabled, c, u);
      } else {
        Hysteria2GetsIn(t, keyring, users, enabled, c, u);
      }
    }
  }

  lemma VlessGetsIn(t: Tree, keyring: Keyring, users: seq<User>, enabled: seq<Protocol>, c: Container, u: User)
    requires IsRendered(t, keyring, users, enabled) && Current(t, "sing-box", c)
    requires VLESS in enabled && u in users && u.enabled
    ensures InboundHonours(c.mounts, u.name, u.vlessUuid)
  {
    EveryEnabledIsPrinted(users, u);
    PrintedIsThere(t, keyring, users, enabled, VLESS);
    SingBoxPrints(VLESS, keyring, users, VLESS_FILE);
    hide *;
    ListedIsHonoured(t, c, VLESS_FILE, VlessLogins(users), u.name, u.vlessUuid);
  }

  lemma Hysteria2GetsIn(t: Tree, keyring: Keyring, users: seq<User>, enabled: seq<Protocol>, c: Container, u: User)
    requires IsRendered(t, keyring, users, enabled) && Current(t, "sing-box", c)
    requires HYSTERIA2 in enabled && u in users && u.enabled
    ensures InboundHonours(c.mounts, u.name, u.hysteria2Password)
  {
    EveryEnabledIsPrinted(users, u);
    PrintedIsThere(t, keyring, users, enabled, HYSTERIA2);
    SingBoxPrints(HYSTERIA2, keyring, users, HYSTERIA2_FILE);
    hide *;
    ListedIsHonoured(t, c, HYSTERIA2_FILE, Hysteria2Logins(users), u.name, u.hysteria2Password);
  }

  lemma ListedIsHonoured(t: Tree, c: Container, rel: string, logins: seq<(string, string)>,
                         name: string, secret: string)
    requires Current(t, "sing-box", c) && rel in t && rel in [VLESS_FILE, HYSTERIA2_FILE]
    requires t[rel].Inbound? && t[rel].logins == logins && (name, secret) in logins
    ensures InboundHonours(c.mounts, name, secret)
  {
    assert "sing-box/" <= rel;
    hide Current;
    RenderedIsMounted(t, c, rel);
  }

  /** A current sing-box has, in its mounted inbounds, exactly the enabled users' logins. */
  lemma InboundsAreEnabled(t: Tree, keyring: Keyring, users: seq<User>, enabled: seq<Protocol>, c: Container,
                           name: string, secret: string)
    requires IsRendered(t, keyring, users, enabled) && Current(t, "sing-box", c)
    ensures InboundHonours(c.mounts, name, secret) <==> Entitled(users, enabled, "sing-box", name, secret)
  {
    hide *;
    InboundsHonourEnabled(t, keyring, users, enabled, c, name, secret);
    EnabledAreInbound(t, keyring, users, enabled, c, name, secret);
  }

  lemma RenderedIsMounted(t: Tree, c: Container, rel: string)
    requires Current(t, "sing-box", c) && rel in t && "sing-box/" <= rel
    ensures rel in c.mounts && c.mounts[rel] == t[rel]
  {
    hide Enroll;
  }

  // --------------------------------------------------------------------------- the sshd

  /** When every name is given once, the accounts are the records. */
  lemma {:induction false} AccountsAreRecords(records: seq<(string, string)>, name: string, secret: string)
    ensures var a := AccountsOf(records); name in a && a[name] == secret ==> (name, secret) in records
    ensures NamesOnce(records) && (name, secret) in records ==>
      name in AccountsOf(records) && AccountsOf(records)[name] == secret
  {
    if records != [] {
      AccountsAreRecords(records[1..], name, secret);
      assert records == [records[0]] + records[1..];
      if name in AccountsOf(records[1..]) {
        AccountsAreRecords(records[1..], name, AccountsOf(records[1..])[name]);
      }
    }
  }

  predicate NamesOnce(records: seq<(string, string)>)
  {
    forall i, j | 0 <= i < j < |records| :: records[i].0 != records[j].0
  }

  lemma AccountsAreEnabled(t: Tree, keyring: Keyring, users: seq<User>, enabled: seq<Protocol>, c: Container,
                           name: string, secret: string)
    requires IsRendered(t, keyring, users, enabled) && DNSTT in enabled
    requires Current(t, SSHD, c) && DistinctNames(users)
    requires forall u | u in users && u.enabled :: PlainName(u.name)
    ensures name in c.accounts && c.accounts[name] == secret <==> Entitled(users, enabled, SSHD, name, secret)
  {
    hide *;
    hide LoginHolders;
    PrintedIsThere(t, keyring, users, enabled, DNSTT);
    DispatchesToDnstt(keyring, users);
    DnsttPrints(keyring, users);
    DnsttLoginsReadBack(keyring, users);
    PlainAreIssued(users);
    FreshAccounts(t, c, RenderDnstt(keyring, users).value["dnstt-sshd/logins"]);
    AccountsAreRecords(DnsttLogins(LoginHolders(users)), name, secret);
    IssuedOnce(users);
    LoginsAreIssued(users, enabled, name, secret);
  }

  lemma {:induction false} IssuedOnce(users: seq<User>)
    requires DistinctNames(users)
    ensures NamesOnce(DnsttLogins(LoginHolders(users)))
  {
    hide Lower;
    if users != [] {
      var rest := LoginHolders(users[1..]);
      IssuedOnce(users[1..]);
      forall v | v in rest ensures v.name != users[0].name {
        var i :| 0 <= i < |users| - 1 && users[1..][i] == v;
        assert Lower(users[0].name) != Lower(users[i + 1].name);
      }
      IssuedAfter(users[0], rest);
    }
  }

  lemma IssuedAfter(u: User, rest: seq<User>)
    requires NamesOnce(DnsttLogins(rest)) && forall v | v in rest :: v.name != u.name
    ensures NamesOnce(DnsttLogins([u] + rest)) && [] + rest == rest
  {
    assert ([u] + rest)[1..] == rest;
    forall i | 0 <= i < |rest| ensures DnsttLogins(rest)[i].0 != u.name {
      assert rest[i] in rest;
    }
  }

  lemma FreshAccounts(t: Tree, c: Container, logins: Content)
    requires Current(t, SSHD, c) && "dnstt-sshd/logins" in t && t["dnstt-sshd/logins"] == logins && logins.Text?
    ensures c.accounts == AccountsOf(ReadRecords(':', logins.text))
  {
    hide ReadRecords, AccountsOf, DeliveryOf;
    assert map[] + AccountsOf(ReadRecords(':', logins.text)) == AccountsOf(ReadRecords(':', logins.text));
  }

  lemma PlainAreIssued(users: seq<User>)
    requires forall u | u in users && u.enabled :: PlainName(u.name)
    ensures forall u | u in LoginHolders(users) :: PlainName(u.name)
  {
    hide PlainName;
  }

  lemma LoginsAreIssued(users: seq<User>, enabled: seq<Protocol>, name: string, secret: string)
    ensures (name, secret) in DnsttLogins(LoginHolders(users)) <==> Entitled(users, enabled, SSHD, name, secret)
  {
    hide Strip, LoginHolders, DnsttLogins;
    var issued := LoginHolders(users);
    assert SSHD != "sing-box" && SSHD != "ikev2" by { assert SSHD[0] == 'd'; }
    if (name, secret) in DnsttLogins(issued) {
      var i :| 0 <= i < |issued| && DnsttLogins(issued)[i] == (name, secret);
      assert issued[i] in issued;
      assert Credential(SSHD, enabled, issued[i], secret);
    }
    if Entitled(users, enabled, SSHD, name, secret) {
      var u :| u in users && u.enabled && u.name == name && Credential(SSHD, enabled, u, secret);
      assert u in issued;
      var i :| 0 <= i < |issued| && issued[i] == u;
      assert DnsttLogins(issued)[i] == (name, secret);
    }
  }

  lemma DispatchesToDnstt(keyring: Keyring, users: seq<User>)
    ensures Render(DNSTT, keyring, users) == RenderDnstt(keyring, users)
  {
    assert DNSTT.name == "dnstt";
    hide RenderDnstt, RenderVless, RenderHysteria2, RenderIkev2;
  }

  lemma DispatchesToIkev2(keyring: Keyring, users: seq<User>)
    ensures Render(IKEV2, keyring, users) == RenderIkev2(keyring, users)
  {
    assert IKEV2.name == "ikev2";
    hide RenderDnstt, RenderVless, RenderHysteria2, RenderIkev2;
  }

  /** What an enabled protocol prints is in the tree. */
  lemma PrintedIsThere(t: Tree, keyring: Keyring, users: seq<User>, enabled: seq<Protocol>, p: Protocol)
    requires IsRendered(t, keyring, users, enabled) && p in enabled
    ensures Render(p, keyring, users).Ok?
    ensures forall rel | rel in Render(p, keyring, users).value ::
      rel in t && t[rel] == Render(p, keyring, users).value[rel]
  {
    hide Render, PrintedBy;
  }

  // -------------------------------------------------------------------------- ikev2

  lemma {:induction false} JoinIsOneLine(xs: seq<string>)
    requires forall x | x in xs :: OneLine(x)
    ensures OneLine(Join(' ', xs))
  {
    if |xs| > 1 {
      assert xs == [xs[0]] + xs[1..];
      JoinIsOneLine(xs[1..]);
      var rest := Join(' ', xs[1..]);
      assert OneLine(xs[0]) && '\n' !in [' '];
      assert Join(' ', xs) == xs[0] + [' '] + rest;
    }
  }

  lemma VarsAreOneLine(keyring: Keyring, users: seq<User>)
    requires PlainNames(users) && OneLineSecrets(keyring, users)
    requires forall s | s in IKEV2.secretNames :: s in keyring
    ensures var vars := Ikev2Vars(keyring, Enabled(users)); forall i | 0 <= i < |vars| :: OneLine(vars[i].1)
  {
    hide Strip, Join, PlainName;
    var enabled := Enabled(users);
    forall x | x in Names(enabled) ensures OneLine(x) {
      var i :| 0 <= i < |enabled| && enabled[i].name == x;
      assert enabled[i] in enabled;
      PlainNameShape(x);
    }
    forall x | x in L2tpPasswords(enabled) ensures OneLine(x) {
      var i :| 0 <= i < |enabled| && enabled[i].l2tpPassword == x;
      assert enabled[i] in enabled;
    }
    JoinIsOneLine(Names(enabled));
    JoinIsOneLine(L2tpPasswords(enabled));
    assert IKEV2.secretNames[0] == "ipsec.psk" && IKEV2.secretNames[1] == "ipsec.primary_user"
        && IKEV2.secretNames[2] == "ipsec.primary_password";
  }

  lemma ListsAreSet(keyring: Keyring, enabled: seq<User>)
    requires forall s | s in IKEV2.secretNames :: s in keyring
    ensures ValueOf(Ikev2Vars(keyring, enabled), ADDL_USERS) == Join(' ', Names(enabled))
    ensures ValueOf(Ikev2Vars(keyring, enabled), ADDL_PASSWORDS) == Join(' ', L2tpPasswords(enabled))
  {
    hide Join, Names, L2tpPasswords, Strip;
    var vars := Ikev2Vars(keyring, enabled);
    assert vars[..|vars| - 1][3] == vars[3] && ADDL_USERS[9] != ADDL_PASSWORDS[9];
  }

  lemma PrimaryIsSet(keyring: Keyring, enabled: seq<User>)
    requires forall s | s in IKEV2.secretNames :: s in keyring
    ensures ValueOf(Ikev2Vars(keyring, enabled), PRIMARY_USER) == Strip(keyring["ipsec.primary_user"])
    ensures ValueOf(Ikev2Vars(keyring, enabled), PRIMARY_PASSWORD) == Strip(keyring["ipsec.primary_password"])
  {
    hide Join, Names, L2tpPasswords, Strip;
    assert IKEV2.secretNames[1] == "ipsec.primary_user" && IKEV2.secretNames[2] == "ipsec.primary_password";
    var vars := Ikev2Vars(keyring, enabled);
    assert |ADDL_USERS| == 14 && |ADDL_PASSWORDS| == 18 && |PRIMARY_USER| == 8 && |PRIMARY_PASSWORD| == 12;
    LastOf(vars, PRIMARY_USER, 4);
    LastOf(vars, PRIMARY_USER, 3);
    LastOf(vars, PRIMARY_USER, 2);
    LastOf(vars, PRIMARY_PASSWORD, 4);
    LastOf(vars, PRIMARY_PASSWORD, 3);
  }

  lemma LastOf(vars: seq<(string, string)>, key: string, i: nat)
    requires i < |vars|
    ensures ValueOf(vars[..i + 1], key) == if vars[i].0 == key then vars[i].1 else ValueOf(vars[..i], key)
    ensures vars[..|vars|] == vars
  {
    assert vars[..i + 1][..i] == vars[..i];
  }

  lemma StripPlain(name: string)
    requires PlainName(name)
    ensures Strip(name) == name
  {
    PlainNameShape(name);
    WordsOfWord(name);
    OneWordIsStripped(name);
  }

  lemma ListsAreEnabled(t: Tree, keyring: Keyring, users: seq<User>, enabled: seq<Protocol>, c: Container,
                        name: string, secret: string)
    requires IsRendered(t, keyring, users, enabled) && IKEV2 in enabled
    requires PlainNames(users) && OneLineSecrets(keyring, users) && Current(t, "ikev2", c)
    ensures Honours("ikev2", c, name, secret)
      <==> Entitled(users, enabled, "ikev2", name, secret) || IsPrimary("ikev2", keyring, name, secret)
  {
    hide Render, PlainName, Strip, ReadRecords, RecordText, Enroll, Words, Join, ValueOf, PlainNames,
      OneLineSecrets, IsRendered, Entitled, Paired, PrimaryLogin, IsPrimary, RenderIkev2, Current;
    PrintedIsThere(t, keyring, users, enabled, IKEV2);
    DispatchesToIkev2(keyring, users);
    Ikev2Prints(keyring, users);
    EnvIsRendered(t, c);
    PairsAreEnabled(keyring, users, enabled, name, secret);
  }

  lemma EnvIsRendered(t: Tree, c: Container)
    requires Current(t, "ikev2", c) && IKEV2_ENV in t
    ensures IKEV2_ENV in c.env && c.env[IKEV2_ENV] == t[IKEV2_ENV]
  {
    hide Enroll;
    assert IKEV2_ENV[0] == 'i';
  }

  lemma Ikev2Prints(keyring: Keyring, users: seq<User>)
    requires RenderIkev2(keyring, users).Ok?
    ensures "ikev2.env" in RenderIkev2(keyring, users).value
    ensures RenderIkev2(keyring, users).value["ikev2.env"].Text?
    ensures forall s | s in IKEV2.secretNames :: s in keyring
  {
    hide Enabled, Names, L2tpPasswords, FirstBadName, FirstBadL2tp, RecordText, Join, Strip;
  }

  lemma PairsAreEnabled(keyring: Keyring, users: seq<User>, enabled: seq<Protocol>, name: string, secret: string)
    requires RenderIkev2(keyring, users).Ok? && PlainNames(users) && OneLineSecrets(keyring, users)
    requires "ikev2.env" in RenderIkev2(keyring, users).value && RenderIkev2(keyring, users).value["ikev2.env"].Text?
    ensures var vars := ReadRecords('=', RenderIkev2(keyring, users).value["ikev2.env"].text);
      && (Paired(vars, name, secret) <==> Entitled(users, enabled, "ikev2", name, secret))
      && (PrimaryLogin(vars, name, secret) <==> IsPrimary("ikev2", keyring, name, secret))
  {
    hide PlainName, Strip, ReadRecords, RecordText, Words, Join, ValueOf, Names, L2tpPasswords, Paired,
      PlainNames, OneLineSecrets;
    Ikev2Prints(keyring, users);
    VarsAreOneLine(keyring, users);
    Ikev2EnvReadsBack(keyring, users);
    hide RenderIkev2, Ikev2Vars;
    ListedArePaired(keyring, users, enabled, name, secret);
    PrimaryIsSet(keyring, Enabled(users));
    assert IKEV2.secretNames[1] == "ipsec.primary_user" && IKEV2.secretNames[2] == "ipsec.primary_password";
  }

  lemma ListedArePaired(keyring: Keyring, users: seq<User>, enabled: seq<Protocol>, name: string, secret: string)
    requires RenderIkev2(keyring, users).Ok? && PlainNames(users) && OneLineSecrets(keyring, users)
    requires forall s | s in IKEV2.secretNames :: s in keyring
    ensures Paired(Ikev2Vars(keyring, Enabled(users)), name, secret)
      <==> Entitled(users, enabled, "ikev2", name, secret)
  {
    hide PlainName, Strip, Words, Join, ValueOf, Names, L2tpPasswords;
    ListsAreSet(keyring, Enabled(users));
    Ikev2ListsAligned(keyring, users);
    hide RenderIkev2, Ikev2Vars;
    var us := Enabled(users);
    forall u | u in us ensures Strip(u.name) == u.name { StripPlain(u.name); }
    if Paired(Ikev2Vars(keyring, us), name, secret) {
      var i :| 0 <= i < |us| && Strip(us[i].name) == name && Strip(us[i].l2tpPassword) == secret;
      assert us[i] in us;
    }
    if Entitled(users, enabled, "ikev2", name, secret) {
      var u :| u in users && u.enabled && u.name == name && Credential("ikev2", enabled, u, secret);
      assert u in us;
      var i :| 0 <= i < |us| && us[i] == u;
    }
  }

  // --------------------------------------------------------------------------- the result

  /** Containers that hold what was rendered for some users let in exactly the enabled ones. */
  lemma RevokedEverywhere(t: Tree, common: map<string, string>, keyring: Keyring, users: seq<User>,
                          enabled: seq<Protocol>, cs: Containers)
    requires TreeFor(common, keyring, users, enabled) == Ok(t)
    requires ReadsBack(keyring, users, enabled) && (DNSTT in enabled ==> DistinctNames(users))
    requires forall s | s in cs && LetsIn(enabled, s) :: Current(t, s, cs[s])
    ensures ExactlyEnabledGetIn(cs, users, enabled, keyring)
  {
    hide Current, Entitled, TreeFor, Ikev2Honours, InboundHonours, ReadRecords, PlainName, DistinctNames,
      IsRendered;
    TreeIsRendered(common, keyring, users, enabled);
    forall s, name, secret | s in cs && LetsIn(enabled, s)
      ensures Honours(s, cs[s], name, secret)
        <==> Entitled(users, enabled, s, name, secret) || IsPrimary(s, keyring, name, secret)
    {
      if s == "sing-box" {
        InboundsAreEnabled(t, keyring, users, enabled, cs[s], name, secret);
      } else if s == SSHD {
        AccountsAreEnabled(t, keyring, users, enabled, cs[s], name, secret);
      } else {
        ListsAreEnabled(t, keyring, users, enabled, cs[s], name, secret);
      }
    }
  }

  /** The tree feeds every service an enabled protocol lets users in through. */
  lemma LettingInIsFed(t: Tree, common: map<string, string>, keyring: Keyring, users: seq<User>,
                       enabled: seq<Protocol>, s: string)
    requires TreeFor(common, keyring, users, enabled) == Ok(t) && LetsIn(enabled, s)
    ensures Feeds(t, s)
  {
    hide ConsumerOf, TreeFor, Feeds, IsRendered;
    TreeIsRendered(common, keyring, users, enabled);
    if s == "sing-box" && VLESS in enabled {
      FedThrough(t, keyring, users, enabled, VLESS, "sing-box/10_vless-reality.json", s);
    } else if s == "sing-box" {
      FedThrough(t, keyring, users, enabled, HYSTERIA2, "sing-box/20_hysteria2.json", s);
    } else if s == SSHD {
      LoginsAreMounted();
      FedThrough(t, keyring, users, enabled, DNSTT, LOGINS, s);
    } else {
      assert IKEV2_ENV[0] == 'i';
      FedThrough(t, keyring, users, enabled, IKEV2, IKEV2_ENV, s);
    }
  }

  lemma FedThrough(t: Tree, keyring: Keyring, users: seq<User>, enabled: seq<Protocol>, p: Protocol, rel: string,
                   s: string)
    requires IsRendered(t, keyring, users, enabled) && p in enabled
    requires rel in PathsOf(p) && DeliveryOf(rel).Some? && DeliveryOf(rel).value.0 == s
    ensures Feeds(t, s)
  {
    hide ConsumerOf, DeliveryOf, IsRendered, Render;
    PrintedIsThere(t, keyring, users, enabled, p);
    PathsPrinted(p, keyring, users);
    TableMatchesDelivery(rel);
  }
}
