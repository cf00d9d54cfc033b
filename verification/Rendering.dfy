/**
 What the protocols print from the keyring and the users, and what the programs inside
 the containers read back from it.
 */
module Rendering {
  import opened Wrappers
  import opened Strings
  import opened Users
  import opened Registry

  type Keyring = map<string, string>

  /**
   The bytes of a rendered file. Configuration fragments for sing-box are kept as what they
   are a function of: key material, and one (name, credential) pair for each login.
   */
  datatype Content =
    | Text(text: string)
    | Inbound(protocol: string, material: seq<string>, logins: seq<(string, string)>)

  type Tree = map<string, Content>

  datatype RenderError =
    | MissingSecret(secret: string)
    | BadName(name: string)
    | BadPassword(name: string)
    | NoLogins
    | Overwrites(path: set<string>)
    | PortConflict
    | UnknownProtocol(name: string)

  type Rendered = Result<Tree, RenderError>

  // --------------------------------------------------------------------- the sing-box half

  function VlessLogins(users: seq<User>): (r: seq<(string, string)>)
    ensures forall p | p in r :: exists u :: u in users && u.enabled && p == (u.name, u.vlessUuid)
  {
    if users == [] then [] else
      assert users == [users[0]] + users[1..];
      (if users[0].enabled then [(users[0].name, users[0].vlessUuid)] else []) + VlessLogins(users[1..])
  }

  function Hysteria2Logins(users: seq<User>): (r: seq<(string, string)>)
    ensures forall p | p in r :: exists u :: u in users && u.enabled && p == (u.name, u.hysteria2Password)
  {
    if users == [] then [] else
      assert users == [users[0]] + users[1..];
      (if users[0].enabled then [(users[0].name, users[0].hysteria2Password)] else [])
      + Hysteria2Logins(users[1..])
  }

  /** No enabled user is left out of either list. */
  lemma {:induction false} EveryEnabledIsPrinted(users: seq<User>, u: User)
    requires u in users && u.enabled
    ensures (u.name, u.vlessUuid) in VlessLogins(users) && (u.name, u.hysteria2Password) in Hysteria2Logins(users)
  {
    if u != users[0] {
      assert users == [users[0]] + users[1..];
      EveryEnabledIsPrinted(users[1..], u);
    }
  }

  function FirstMissing(keyring: Keyring, secrets: seq<string>): (r: Option<string>)
    ensures r.None? <==> forall s | s in secrets :: s in keyring
    ensures r.Some? ==> r.value in secrets && r.value !in keyring
  {
    if secrets == [] then None else
      assert secrets == [secrets[0]] + secrets[1..];
      if secrets[0] !in keyring then Some(secrets[0]) else FirstMissing(keyring, secrets[1..])
  }

  function RenderVless(keyring: Keyring, users: seq<User>): Rendered
  {
    match FirstMissing(keyring, VLESS.secretNames)
    case Some(s) => Err(MissingSecret(s))
    case None =>
      Ok(map["sing-box/10_vless-reality.json" :=
        Inbound("vless", [Strip(keyring["reality.key"]), Strip(keyring["reality.short_id"])],
                VlessLogins(users))])
  }

  function RenderHysteria2(keyring: Keyring, users: seq<User>): Rendered
  {
    match FirstMissing(keyring, HYSTERIA2.secretNames)
    case Some(s) => Err(MissingSecret(s))
    case None =>
      Ok(map["sing-box/20_hysteria2.json" :=
               Inbound("hysteria2", [Strip(keyring["hysteria2.obfs"])], Hysteria2Logins(users)),
             "sing-box/certs/certificate.pem" := Text(keyring["hysteria2.crt"]),
             "sing-box/certs/private.key" := Text(keyring["hysteria2.key"])])
  }

  // ------------------------------------------------------------------------------ ikev2

  function L2tpPasswords(users: seq<User>): (r: seq<string>)
    ensures |r| == |users| && forall i | 0 <= i < |users| :: r[i] == users[i].l2tpPassword
  {
    if users == [] then [] else [users[0].l2tpPassword] + L2tpPasswords(users[1..])
  }

  function FirstBadName(users: seq<User>): (r: Option<string>)
    ensures r.None? <==> forall u | u in users :: Renderable(u.name)
  {
    if users == [] then None else
      assert users == [users[0]] + users[1..];
      if !Renderable(users[0].name) then Some(users[0].name) else FirstBadName(users[1..])
  }

  function FirstBadL2tp(users: seq<User>): (r: Option<string>)
    ensures r.None? <==> forall u | u in users :: |Words(u.l2tpPassword)| == 1
  {
    if users == [] then None else
      assert users == [users[0]] + users[1..];
      if |Words(users[0].l2tpPassword)| != 1 then Some(users[0].name) else FirstBadL2tp(users[1..])
  }

  const ADDL_USERS := "VPN_ADDL_USERS"
  const ADDL_PASSWORDS := "VPN_ADDL_PASSWORDS"

  function Ikev2Vars(keyring: Keyring, enabled: seq<User>): seq<(string, string)>
    requires forall s | s in IKEV2.secretNames :: s in keyring
  {
    [("VPN_IPSEC_PSK", Strip(keyring["ipsec.psk"])),
     ("VPN_USER", Strip(keyring["ipsec.primary_user"])),
     ("VPN_PASSWORD", Strip(keyring["ipsec.primary_password"])),
     (ADDL_USERS, Join(' ', Names(enabled))),
     (ADDL_PASSWORDS, Join(' ', L2tpPasswords(enabled)))]
  }

  function RenderIkev2(keyring: Keyring, users: seq<User>): Rendered
  {
    var enabled := Enabled(users);
    match FirstBadName(enabled)
    case Some(n) => Err(BadName(n))
    case None =>
      match FirstBadL2tp(enabled)
      case Some(n) => Err(BadPassword(n))
      case None =>
        match FirstMissing(keyring, IKEV2.secretNames)
        case Some(s) => Err(MissingSecret(s))
        case None => Ok(map["ikev2.env" := Text(RecordText('=', Ikev2Vars(keyring, enabled)))])
  }

  // ------------------------------------------------------------------------------ dnstt

  function LoginHolders(users: seq<User>): (r: seq<User>)
    ensures forall u :: u in r <==> u in users && u.enabled && u.dnsttPassword != ""
  {
    if users == [] then [] else
      assert users == [users[0]] + users[1..];
      (if users[0].enabled && users[0].dnsttPassword != "" then [users[0]] else []) + LoginHolders(users[1..])
  }

  function DnsttLogins(issued: seq<User>): (r: seq<(string, string)>)
    ensures |r| == |issued|
    ensures forall i | 0 <= i < |issued| :: r[i] == (issued[i].name, issued[i].dnsttPassword)
  {
    if issued == [] then [] else [(issued[0].name, issued[0].dnsttPassword)] + DnsttLogins(issued[1..])
  }

  predicate ServableLogin(u: User)
  {
    Renderable(u.name) && !Reserved(u.name) && '\n' !in u.dnsttPassword && '\r' !in u.dnsttPassword
  }

  function FirstUnservable(issued: seq<User>): (r: Option<RenderError>)
    ensures r.None? <==> forall u | u in issued :: ServableLogin(u)
  {
    if issued == [] then None else
      assert issued == [issued[0]] + issued[1..];
      var u := issued[0];
      if ServableLogin(u) then FirstUnservable(issued[1..])
      else if !Renderable(u.name) || Reserved(u.name) then Some(BadName(u.name))
      else Some(BadPassword(u.name))
  }

  const SSHD_ENV := [("SSH_PORT", "2222"), ("SOCKS_EXIT", "127.0.0.1:7300"), ("PERMIT_OPEN", "any")]

  function RenderDnstt(keyring: Keyring, users: seq<User>): Rendered
  {
    var issued := LoginHolders(users);
    match FirstUnservable(issued)
    case Some(e) => Err(e)
    case None =>
      if RecordText(':', DnsttLogins(issued)) == "" then Err(NoLogins)
      else if "dnstt.server.key" !in keyring then Err(MissingSecret("dnstt.server.key"))
      else Ok(map["dnstt/server.key" := Text(keyring["dnstt.server.key"]),
                  "dnstt-sshd/logins" := Text(RecordText(':', DnsttLogins(issued))),
                  "dnstt.env" := Text(RecordText('=', SSHD_ENV))])
  }

  // ----------------------------------------------------------------------- list alignment

  /** Words of a joined list, when every element is a single word. */
  lemma {:induction false} WordsOfJoin(xs: seq<string>)
    requires forall x | x in xs :: |Words(x)| == 1
    ensures Words(Join(' ', xs)) == Stripped(xs)
  {
    if |xs| == 1 {
      OneWordIsStripped(xs[0]);
    } else if |xs| > 1 {
      OneWordIsStripped(xs[0]);
      WordsAtSpace(xs[0], ' ', Join(' ', xs[1..]));
      WordsOfJoin(xs[1..]);
    }
  }

  function Stripped(xs: seq<string>): (r: seq<string>)
    ensures |r| == |xs| && forall i | 0 <= i < |xs| :: r[i] == Strip(xs[i])
  {
    if xs == [] then [] else [Strip(xs[0])] + Stripped(xs[1..])
  }

  /**
   The two lists the ikev2 container pairs by position have one entry per enabled user,
   and the i-th entries are the i-th enabled user's name and password.
   */
  lemma Ikev2ListsAligned(keyring: Keyring, users: seq<User>)
    requires RenderIkev2(keyring, users).Ok?
    ensures var enabled := Enabled(users);
      var names := Words(Join(' ', Names(enabled)));
      var passwords := Words(Join(' ', L2tpPasswords(enabled)));
      |names| == |passwords| == |enabled| &&
      forall i | 0 <= i < |enabled| ::
        names[i] == Strip(enabled[i].name) && passwords[i] == Strip(enabled[i].l2tpPassword)
  {
    var enabled := Enabled(users);
    forall u | u in enabled ensures |Words(u.name)| == 1 { RenderableIsOneWord(u.name); }
    WordsOfJoin(Names(enabled));
    WordsOfJoin(L2tpPasswords(enabled));
  }

  lemma Ikev2KeysPlain(keyring: Keyring, enabled: seq<User>)
    requires forall s | s in IKEV2.secretNames :: s in keyring
    ensures var vars := Ikev2Vars(keyring, enabled);
      KeysAvoid('=', vars) && forall i | 0 <= i < |vars| :: OneLine(vars[i].0)
  {
    hide Join, Strip, Names, L2tpPasswords;
    var vars := Ikev2Vars(keyring, enabled);
    forall i | 0 <= i < |vars| ensures '=' !in vars[i].0 && OneLine(vars[i].0) {
      if i == 0 { assert vars[i].0 == "VPN_IPSEC_PSK"; }
      else if i == 1 { assert vars[i].0 == "VPN_USER"; }
      else if i == 2 { assert vars[i].0 == "VPN_PASSWORD"; }
      else if i == 3 { assert vars[i].0 == "VPN_ADDL_USERS"; }
      else { assert vars[i].0 == "VPN_ADDL_PASSWORDS"; }
    }
  }

  /** The variables the env file defines are the ones that were printed iff no value spans a line. */
  lemma Ikev2EnvReadsBack(keyring: Keyring, users: seq<User>)
    requires RenderIkev2(keyring, users).Ok?
    ensures var vars := Ikev2Vars(keyring, Enabled(users));
      ReadRecords('=', RenderIkev2(keyring, users).value["ikev2.env"].text) == vars
      <==> forall i | 0 <= i < |vars| :: OneLine(vars[i].1)
  {
    var vars := Ikev2Vars(keyring, Enabled(users));
    Ikev2KeysPlain(keyring, Enabled(users));
    RecordsRoundTrip('=', vars);
  }

  /**
   An accepted password may carry a line break at its ends: it is still one word. The two
   lists then pair up, but the file they are printed into does not read back.
   */
  lemma Ikev2EnvCanBreak(keyring: Keyring, u: User)
    requires forall s | s in IKEV2.secretNames :: s in keyring
    requires u.enabled && u.name == "bob" && u.l2tpPassword == "x\n"
    ensures RenderIkev2(keyring, [u]).Ok?
    ensures ReadRecords('=', RenderIkev2(keyring, [u]).value["ikev2.env"].text) != Ikev2Vars(keyring, [u])
  {
    OnlyUser(u);
    BreakingPassword();
    OneBreakingUser(keyring, u);
    var vars := Ikev2Vars(keyring, [u]);
    assert vars[4].1 == "x\n" && '\n' in vars[4].1 by { assert "x\n"[1] == '\n'; }
    Ikev2EnvReadsBack(keyring, [u]);
  }

  lemma OnlyUser(u: User)
    requires u.enabled
    ensures Enabled([u]) == [u] && L2tpPasswords([u]) == [u.l2tpPassword]
  {
    assert [u][1..] == [];
  }

  lemma BreakingPassword()
    ensures Words("x\n") == ["x"] && PlainName("bob")
  {
    assert "x\n" == "x" + ['\n'] + "";
    WordsAtSpace("x", '\n', "");
    WordsOfWord("x");
  }

  lemma OneBreakingUser(keyring: Keyring, u: User)
    requires forall s | s in IKEV2.secretNames :: s in keyring
    requires u.enabled && PlainName(u.name) && |Words(u.l2tpPassword)| == 1
    ensures RenderIkev2(keyring, [u]).Ok?
  {
    hide PlainName, Words, RecordText, Ikev2Vars;
    OnlyUser(u);
    assert [u][1..] == [];
  }

  lemma DnsttPrints(keyring: Keyring, users: seq<User>)
    requires RenderDnstt(keyring, users).Ok?
    ensures "dnstt-sshd/logins" in RenderDnstt(keyring, users).value
    ensures RenderDnstt(keyring, users).value["dnstt-sshd/logins"]
         == Text(RecordText(':', DnsttLogins(LoginHolders(users))))
    ensures forall u | u in LoginHolders(users) :: ServableLogin(u)
  {
    hide RecordText, LoginHolders, DnsttLogins, ServableLogin;
  }

  lemma LoginRecordsReadBack(issued: seq<User>)
    requires forall u | u in issued :: Renderable(u.name) && OneLine(u.dnsttPassword)
    ensures ReadRecords(':', RecordText(':', DnsttLogins(issued))) == DnsttLogins(issued)
      <==> forall u | u in issued :: PlainName(u.name)
  {
    hide RecordText, ReadRecords, Renderable, PlainName;
    var logins := DnsttLogins(issued);
    forall i | 0 <= i < |issued|
      ensures ':' !in logins[i].0 && (OneLine(logins[i].0) <==> PlainName(issued[i].name))
    {
      RenderableIsOneWord(issued[i].name);
    }
    RecordsRoundTrip(':', logins);
    assert OneLineRecords(logins) <==> forall i | 0 <= i < |issued| :: PlainName(issued[i].name);
    assert (forall i | 0 <= i < |issued| :: PlainName(issued[i].name))
      <==> forall u | u in issued :: PlainName(u.name);
  }

  /**
   Reading the login file line by line and cutting at the first colon gives back exactly the
   logins that were issued, iff no issued name carries the trailing newline the name pattern
   lets through.
   */
  lemma DnsttLoginsReadBack(keyring: Keyring, users: seq<User>)
    requires RenderDnstt(keyring, users).Ok?
    ensures ReadRecords(':', RenderDnstt(keyring, users).value["dnstt-sshd/logins"].text)
              == DnsttLogins(LoginHolders(users))
      <==> forall u | u in LoginHolders(users) :: PlainName(u.name)
  {
    DnsttPrints(keyring, users);
    hide RenderDnstt, RecordText, ReadRecords, Renderable, PlainName;
    LoginRecordsReadBack(LoginHolders(users));
  }

  /** Every plain name is accepted with a line break after it, and then spoils the login file. */
  lemma DnsttLoginsCanBreak(keyring: Keyring, u: User, core: string)
    requires "dnstt.server.key" in keyring
    requires u.enabled && PlainName(core) && u.name == core + "\n" && u.dnsttPassword == "pw"
    ensures RenderDnstt(keyring, [u]).Ok?
    ensures ReadRecords(':', RenderDnstt(keyring, [u]).value["dnstt-sshd/logins"].text)
         != DnsttLogins(LoginHolders([u]))
  {
    BreakingName(core);
    OneIssued(u);
    hide PlainName, Renderable, Reserved, LoginHolders, RecordText, ReadRecords, DnsttLogins;
    OneLoginPrints(keyring, u);
    DnsttLoginsReadBack(keyring, [u]);
    assert u in LoginHolders([u]);
  }

  lemma BreakingName(core: string)
    requires PlainName(core)
    ensures var name := core + "\n"; Renderable(name) && !PlainName(name) && !Reserved(name)
  {
    var name := core + "\n";
    assert name[..|core|] == core && name[|core|] == '\n';
    BreakIsNotReserved(name);
    hide Reserved;
  }

  lemma BreakIsNotReserved(name: string)
    requires name != "" && name[|name| - 1] == '\n'
    ensures !Reserved(name)
  {
    LowerKeeps(name, |name| - 1);
    hide Lower, RESERVED;
    if Lower(name) in RESERVED {
      ReservedEndPlain(Lower(name));
    }
  }

  lemma {:induction false} LowerKeeps(s: string, i: nat)
    requires i < |s| && !('A' <= s[i] <= 'Z')
    ensures Lower(s)[i] == s[i]
  {
    if i > 0 {
      LowerKeeps(s[1..], i - 1);
    }
  }

  lemma OneIssued(u: User)
    requires u.enabled && u.dnsttPassword != ""
    ensures LoginHolders([u]) == [u]
  {
    assert [u][1..] == [];
  }

  lemma OneLoginPrints(keyring: Keyring, u: User)
    requires "dnstt.server.key" in keyring && LoginHolders([u]) == [u]
    requires Renderable(u.name) && !Reserved(u.name) && u.dnsttPassword == "pw"
    ensures RenderDnstt(keyring, [u]).Ok?
  {
    hide Renderable, Reserved, LoginHolders;
    assert [u][1..] == [];
    assert '\n' !in "pw" && '\r' !in "pw";
    assert FirstUnservable([u]) == None;
    var t := RecordText(':', DnsttLogins([u]));
    assert DnsttLogins([u]) == [(u.name, "pw")];
    assert t == u.name + [':'] + "pw" + "\n" + RecordText(':', DnsttLogins([u])[1..]);
    assert t[|u.name|] == ':';
  }

  // --------------------------------------------------------------------------- the whole tree

  function Render(p: Protocol, keyring: Keyring, users: seq<User>): Rendered
  {
    if p == VLESS then RenderVless(keyring, users)
    else if p == HYSTERIA2 then RenderHysteria2(keyring, users)
    else if p == IKEV2 then RenderIkev2(keyring, users)
    else if p == DNSTT then RenderDnstt(keyring, users)
    else Err(UnknownProtocol(p.name))
  }

  /** The tracked half of the sing-box directory: file name to contents. */
  function CommonTree(common: map<string, string>): Tree
  {
    map path | path in (set name | name in common.Keys :: "sing-box/" + name) ::
      Text(common[path[|"sing-box/"|..]])
  }

  function Merge(tree: Tree, protocols: seq<Protocol>, keyring: Keyring, users: seq<User>): Rendered
    decreases |protocols|
  {
    if protocols == [] then Ok(tree)
    else
      match Render(protocols[0], keyring, users)
      case Err(e) => Err(e)
      case Ok(out) =>
        if out.Keys !! tree.Keys then Merge(tree + out, protocols[1..], keyring, users)
        else Err(Overwrites(out.Keys * tree.Keys))
  }

  /** The tree for one desired state. */
  function TreeFor(common: map<string, string>, keyring: Keyring, users: seq<User>,
                   enabled: seq<Protocol>): Rendered
  {
    if !Distinct(AllPorts(enabled)) then Err(PortConflict)
    else Merge(CommonTree(common), enabled, keyring, users)
  }

  method BuildTree(common: map<string, string>, keyring: Keyring, users: seq<User>, enabled: seq<Protocol>)
    returns (r: Rendered)
    ensures r == TreeFor(common, keyring, users, enabled)
  {
    var disjoint := PortsDisjoint(enabled);
    if !disjoint {
      return Err(PortConflict);
    }
    var tree := CommonTree(common);
    for i := 0 to |enabled|
      invariant Merge(tree, enabled[i..], keyring, users) == TreeFor(common, keyring, users, enabled)
    {
      assert enabled[i..][1..] == enabled[i + 1..] && enabled[i..][0] == enabled[i];
      var out := Render(enabled[i], keyring, users);
      if out.Err? {
        return Err(out.error);
      }
      if !(out.value.Keys !! tree.Keys) {
        return Err(Overwrites(out.value.Keys * tree.Keys));
      }
      tree := tree + out.value;
    }
    return Ok(tree);
  }

  /** Where a file of the tree came from. */
  predicate PrintedBy(rel: string, content: Content, protocols: seq<Protocol>, keyring: Keyring, users: seq<User>)
  {
    exists p | p in protocols ::
      var out := Render(p, keyring, users);
      out.Ok? && rel in out.value && out.value[rel] == content
  }

  lemma {:induction false} MergeContents(tree: Tree, protocols: seq<Protocol>, keyring: Keyring, users: seq<User>)
    requires Merge(tree, protocols, keyring, users).Ok?
    ensures var t := Merge(tree, protocols, keyring, users).value;
      && (forall rel | rel in tree :: rel in t && t[rel] == tree[rel])
      && (forall rel | rel in t ::
            (rel in tree && t[rel] == tree[rel]) || PrintedBy(rel, t[rel], protocols, keyring, users))
      && (forall p | p in protocols :: Render(p, keyring, users).Ok?)
      && (forall p, rel | p in protocols && rel in Render(p, keyring, users).value ::
            rel in t && t[rel] == Render(p, keyring, users).value[rel])
    decreases |protocols|
  {
    hide Render;
    if protocols != [] {
      var out := Render(protocols[0], keyring, users).value;
      var rest := protocols[1..];
      MergeContents(tree + out, rest, keyring, users);
      var t := Merge(tree, protocols, keyring, users).value;
      assert t == Merge(tree + out, rest, keyring, users).value;
      assert protocols == [protocols[0]] + rest;
      forall rel | rel in t
        ensures (rel in tree && t[rel] == tree[rel]) || PrintedBy(rel, t[rel], protocols, keyring, users)
      {
        if !(rel in tree && t[rel] == tree[rel]) {
          if rel in out && t[rel] == out[rel] {
            assert protocols[0] in protocols;
          } else {
            assert PrintedBy(rel, t[rel], rest, keyring, users);
            var p :| p in rest && Render(p, keyring, users).Ok? && rel in Render(p, keyring, users).value
                     && Render(p, keyring, users).value[rel] == t[rel];
            assert p in protocols;
          }
        }
      }
      forall p, rel | p in protocols && rel in Render(p, keyring, users).value
        ensures rel in t && t[rel] == Render(p, keyring, users).value[rel]
      {
        if p == protocols[0] { assert rel in tree + out; }
      }
    }
  }
}
