/** What a rendered tree depends on, and what it does not. */
module RenderInputs {
  import opened Strings
  import opened Users
  import opened Registry
  import opened Rendering
  import opened Bootstrap

  // ---------------------------------------------------------------- the provisioning flag

  predicate SameButFlag(u: User, v: User)
  {
    u == v.(provisioned := u.provisioned)
  }

  predicate SameButFlags(us: seq<User>, vs: seq<User>)
  {
    |us| == |vs| && forall i | 0 <= i < |us| :: SameButFlag(us[i], vs[i])
  }

  predicate SameIkev2Lists(a: seq<User>, b: seq<User>)
  {
    && Names(a) == Names(b) && L2tpPasswords(a) == L2tpPasswords(b)
    && FirstBadName(a) == FirstBadName(b) && FirstBadL2tp(a) == FirstBadL2tp(b)
  }

  predicate SameDnsttLists(a: seq<User>, b: seq<User>)
  {
    DnsttLogins(a) == DnsttLogins(b) && FirstUnservable(a) == FirstUnservable(b)
  }

  lemma {:induction false} FlagsDoNotPick(us: seq<User>, vs: seq<User>)
    requires SameButFlags(us, vs)
    ensures SameButFlags(Enabled(us), Enabled(vs)) && SameButFlags(LoginHolders(us), LoginHolders(vs))
  {
    if us != [] {
      assert SameButFlag(us[0], vs[0]);
      FlagsDoNotPick(us[1..], vs[1..]);
      var a, b := Enabled(us[1..]), Enabled(vs[1..]);
      var c, d := LoginHolders(us[1..]), LoginHolders(vs[1..]);
      SameAfter(us[0], vs[0], a, b);
      SameAfter(us[0], vs[0], c, d);
      assert [] + a == a && [] + b == b && [] + c == c && [] + d == d;
    }
  }

  lemma SameAfter(u: User, v: User, us: seq<User>, vs: seq<User>)
    requires SameButFlag(u, v) && SameButFlags(us, vs)
    ensures SameButFlags([u] + us, [v] + vs)
  {
  }

  lemma {:induction false} FlagsDoNotLogIn(us: seq<User>, vs: seq<User>)
    requires SameButFlags(us, vs)
    ensures VlessLogins(us) == VlessLogins(vs) && Hysteria2Logins(us) == Hysteria2Logins(vs)
  {
    if us != [] {
      assert SameButFlag(us[0], vs[0]);
      FlagsDoNotLogIn(us[1..], vs[1..]);
    }
  }

  lemma {:induction false} FlagsDoNotList(us: seq<User>, vs: seq<User>)
    requires SameButFlags(us, vs)
    ensures SameIkev2Lists(us, vs)
  {
    hide Renderable, Words;
    if us != [] {
      assert SameButFlag(us[0], vs[0]);
      FlagsDoNotList(us[1..], vs[1..]);
    }
  }

  lemma {:induction false} FlagsDoNotIssue(us: seq<User>, vs: seq<User>)
    requires SameButFlags(us, vs)
    ensures SameDnsttLists(us, vs)
  {
    hide Renderable, Reserved;
    if us != [] {
      assert SameButFlag(us[0], vs[0]);
      FlagsDoNotIssue(us[1..], vs[1..]);
    }
  }

  lemma FlagsDoNotRender(p: Protocol, keyring: Keyring, us: seq<User>, vs: seq<User>)
    requires SameButFlags(us, vs)
    ensures Render(p, keyring, us) == Render(p, keyring, vs)
  {
    hide *;
    hide LoginHolders;
    FlagsDoNotPick(us, vs);
    FlagsDoNotLogIn(us, vs);
    FlagsDoNotList(Enabled(us), Enabled(vs));
    FlagsDoNotIssue(LoginHolders(us), LoginHolders(vs));
    SamePrint(p, keyring, us, vs);
  }

  lemma SamePrint(p: Protocol, keyring: Keyring, us: seq<User>, vs: seq<User>)
    requires VlessLogins(us) == VlessLogins(vs) && Hysteria2Logins(us) == Hysteria2Logins(vs)
    requires SameIkev2Lists(Enabled(us), Enabled(vs)) && SameDnsttLists(LoginHolders(us), LoginHolders(vs))
    ensures Render(p, keyring, us) == Render(p, keyring, vs)
  {
    hide *;
    hide LoginHolders;
    PrintsVless(keyring, us, vs);
    PrintsHysteria2(keyring, us, vs);
    PrintsIkev2(keyring, us, vs);
    PrintsDnstt(keyring, us, vs);
    Dispatch(p, keyring, us, vs);
  }

  lemma Dispatch(p: Protocol, keyring: Keyring, us: seq<User>, vs: seq<User>)
    requires RenderVless(keyring, us) == RenderVless(keyring, vs)
    requires RenderHysteria2(keyring, us) == RenderHysteria2(keyring, vs)
    requires RenderIkev2(keyring, us) == RenderIkev2(keyring, vs)
    requires RenderDnstt(keyring, us) == RenderDnstt(keyring, vs)
    ensures Render(p, keyring, us) == Render(p, keyring, vs)
  {
    hide RenderVless, RenderHysteria2, RenderIkev2, RenderDnstt;
  }

  lemma PrintsVless(keyring: Keyring, us: seq<User>, vs: seq<User>)
    requires VlessLogins(us) == VlessLogins(vs)
    ensures RenderVless(keyring, us) == RenderVless(keyring, vs)
  {
    hide VlessLogins, FirstMissing, Strip;
  }

  lemma PrintsHysteria2(keyring: Keyring, us: seq<User>, vs: seq<User>)
    requires Hysteria2Logins(us) == Hysteria2Logins(vs)
    ensures RenderHysteria2(keyring, us) == RenderHysteria2(keyring, vs)
  {
    hide Hysteria2Logins, FirstMissing, Strip;
  }

  lemma PrintsIkev2(keyring: Keyring, us: seq<User>, vs: seq<User>)
    requires SameIkev2Lists(Enabled(us), Enabled(vs))
    ensures RenderIkev2(keyring, us) == RenderIkev2(keyring, vs)
  {
    hide Enabled, Names, L2tpPasswords, FirstBadName, FirstBadL2tp, FirstMissing, RecordText, Join, Strip;
  }

  lemma PrintsDnstt(keyring: Keyring, us: seq<User>, vs: seq<User>)
    requires SameDnsttLists(LoginHolders(us), LoginHolders(vs))
    ensures RenderDnstt(keyring, us) == RenderDnstt(keyring, vs)
  {
    hide LoginHolders, DnsttLogins, FirstUnservable, RecordText;
  }

  lemma {:induction false} SameMerge(tree: Tree, protocols: seq<Protocol>, k: Keyring, l: Keyring,
                                     us: seq<User>, vs: seq<User>)
    requires forall p | p in protocols :: Render(p, k, us) == Render(p, l, vs)
    ensures Merge(tree, protocols, k, us) == Merge(tree, protocols, l, vs)
    decreases |protocols|
  {
    hide Render;
    if protocols != [] {
      assert protocols[0] in protocols;
      var r := Render(protocols[0], k, us);
      if r.Ok? {
        SameMerge(tree + r.value, protocols[1..], k, l, us, vs);
      }
    }
  }

  /** Writing down who holds a certificate changes nothing that is rendered. */
  lemma FlagsDoNotChangeTheTree(common: map<string, string>, keyring: Keyring, us: seq<User>, vs: seq<User>,
                                enabled: seq<Protocol>)
    requires SameButFlags(us, vs)
    ensures TreeFor(common, keyring, us, enabled) == TreeFor(common, keyring, vs, enabled)
  {
    hide Render, SameButFlags, AllPorts, Distinct, Merge, CommonTree;
    forall p | p in enabled ensures Render(p, keyring, us) == Render(p, keyring, vs) {
      FlagsDoNotRender(p, keyring, us, vs);
    }
    SameMerge(CommonTree(common), enabled, keyring, keyring, us, vs);
  }

  // -------------------------------------------------------------- the keyring on disk

  /** What the files hold, `bytes` saying what a secret is written as. */
  function Loaded(fs: Files, bytes: Secret -> string): Keyring
  {
    map n | n in fs && fs[n].Some? :: bytes(fs[n].value)
  }

  predicate AgreeOn(k: Keyring, l: Keyring, names: seq<string>)
  {
    forall n | n in names :: (n in k <==> n in l) && (n in k ==> k[n] == l[n])
  }

  lemma {:induction false} SameMissing(k: Keyring, l: Keyring, names: seq<string>)
    requires AgreeOn(k, l, names)
    ensures FirstMissing(k, names) == FirstMissing(l, names)
  {
    if names != [] {
      assert names == [names[0]] + names[1..];
      SameMissing(k, l, names[1..]);
    }
  }

  /** A protocol reads no secret it does not declare. */
  lemma RenderReadsItsSecrets(p: Protocol, k: Keyring, l: Keyring, users: seq<User>)
    requires AgreeOn(k, l, p.secretNames)
    ensures Render(p, k, users) == Render(p, l, users)
  {
    hide VlessLogins, Hysteria2Logins, Enabled, Names, L2tpPasswords, FirstBadName, FirstBadL2tp,
      DnsttLogins, FirstUnservable, LoginHolders, RecordText, Join, Strip, FirstMissing;
    SameMissing(k, l, p.secretNames);
    if p == VLESS {
      assert VLESS.secretNames[0] == "reality.key" && VLESS.secretNames[1] == "reality.short_id";
    } else if p == HYSTERIA2 {
      assert HYSTERIA2.secretNames[0] == "hysteria2.crt" && HYSTERIA2.secretNames[1] == "hysteria2.key"
          && HYSTERIA2.secretNames[2] == "hysteria2.obfs";
    } else if p == IKEV2 {
      assert IKEV2.secretNames[0] == "ipsec.psk" && IKEV2.secretNames[1] == "ipsec.primary_user"
          && IKEV2.secretNames[2] == "ipsec.primary_password";
    } else if p == DNSTT {
      assert DNSTT.secretNames[0] == "dnstt.server.key";
    }
  }

  lemma NothingDeclaredIsDerived(p: Protocol, n: string)
    requires Known(p) && n in p.secretNames
    ensures forall m | m in MINTERS :: n !in m.derivable
  {
    assert n != "reality.pub" by {
      if p == VLESS { assert n == "reality.key" || n == "reality.short_id"; }
      else if p == HYSTERIA2 { assert n[0] == 'h'; }
      else if p == IKEV2 { assert n[0] == 'i'; }
      else { assert n[0] == 'd'; }
    }
  }

  /**
   An unforced bootstrap that minted nothing may have rebuilt a half from the other: nothing
   rendered reads it, so every tree stays what it was.
   */
  lemma RebuildingChangesNoTree(before: Files, after: Files, mint: nat, bytes: Secret -> string,
                                common: map<string, string>, users: seq<User>, enabled: seq<Protocol>)
    requires GentleDone(MINTERS, before, after, mint) && !Fresh(before, MINTERS) && AllKnown(enabled)
    ensures TreeFor(common, Loaded(before, bytes), users, enabled)
         == TreeFor(common, Loaded(after, bytes), users, enabled)
  {
    var k, l := Loaded(before, bytes), Loaded(after, bytes);
    forall p | p in enabled ensures Render(p, k, users) == Render(p, l, users) {
      forall n | n in p.secretNames ensures (n in k <==> n in l) && (n in k ==> k[n] == l[n]) {
        NothingDeclaredIsDerived(p, n);
        NotDerivedIsKept(MINTERS, before, after, mint, n);
      }
      RenderReadsItsSecrets(p, k, l, users);
    }
    hide Render, AllPorts, Distinct, CommonTree, Merge, GentleDone, Fresh;
    SameMerge(CommonTree(common), enabled, k, l, users, users);
  }

  lemma NotDerivedIsKept(ms: seq<Minter>, before: Files, after: Files, mint: nat, n: string)
    requires GentleDone(ms, before, after, mint) && !Fresh(before, ms)
    requires forall m | m in ms :: n !in m.derivable
    ensures SameAt(before, after, n)
  {
    hide SameAt, Has;
    AllNamesIn(ms, n);
    if n in AllNames(ms) {
      var m :| m in ms && n in m.produced;
      assert DoneAt(m, before, after, mint) && m.produced != [];
      assert Survives(before, m);
    }
  }

  // ------------------------------------------------------------------- gaps in the keyring

  /** Which enabled protocols cannot be rendered yet, and what they lack. */
  method MissingSecrets(keyring: Keyring, enabled: seq<Protocol>) returns (gaps: map<string, seq<string>>)
    ensures gaps == map[] <==> forall p | p in enabled :: NothingLacks(keyring, p)
    ensures forall p | p in enabled && !NothingLacks(keyring, p) :: p.name in gaps
    ensures forall q | q in gaps ::
      exists p :: p in enabled && p.name == q && gaps[q] == Lacking(keyring, p.secretNames)
  {
    gaps := map[];
    for i := 0 to |enabled|
      invariant gaps == map[] <==> forall p | p in enabled[..i] :: NothingLacks(keyring, p)
      invariant forall p | p in enabled[..i] && !NothingLacks(keyring, p) :: p.name in gaps
      invariant forall q | q in gaps ::
        exists p :: p in enabled && p.name == q && gaps[q] == Lacking(keyring, p.secretNames)
    {
      assert enabled[..i + 1] == enabled[..i] + [enabled[i]];
      var lacking := Lacking(keyring, enabled[i].secretNames);
      EmptySeq(lacking);
      if lacking != [] {
        assert lacking[0] in lacking && !NothingLacks(keyring, enabled[i]);
        gaps := gaps[enabled[i].name := lacking];
        assert enabled[i].name in gaps;
      }
    }
    assert enabled[..|enabled|] == enabled;
  }

  predicate NothingLacks(keyring: Keyring, p: Protocol)
  {
    Lacking(keyring, p.secretNames) == []
  }

  function Lacking(keyring: Keyring, names: seq<string>): (r: seq<string>)
    ensures forall n :: n in r <==> n in names && n !in keyring
  {
    if names == [] then [] else
      assert names == [names[0]] + names[1..];
      (if names[0] in keyring then [] else [names[0]]) + Lacking(keyring, names[1..])
  }

  /** When nothing is lacking, no rendering fails for want of a secret. */
  lemma {:induction false} NoGapsNoMissingSecret(tree: Tree, keyring: Keyring, users: seq<User>, enabled: seq<Protocol>)
    requires AllKnown(enabled) && forall p | p in enabled :: NothingLacks(keyring, p)
    ensures var r := Merge(tree, enabled, keyring, users); r.Err? ==> !r.error.MissingSecret?
    decreases |enabled|
  {
    hide Render;
    if enabled != [] {
      var r := Render(enabled[0], keyring, users);
      assert enabled[0] in enabled;
      RendersOrRefuses(enabled[0], keyring, users);
      if r.Ok? {
        NoGapsNoMissingSecret(tree + r.value, keyring, users, enabled[1..]);
      }
    }
  }

  lemma RendersOrRefuses(p: Protocol, keyring: Keyring, users: seq<User>)
    requires Known(p) && NothingLacks(keyring, p)
    ensures Render(p, keyring, users).Err? ==> !Render(p, keyring, users).error.MissingSecret?
  {
    hide VlessLogins, Hysteria2Logins, Enabled, Names, L2tpPasswords, FirstBadName, FirstBadL2tp,
      DnsttLogins, LoginHolders, RecordText, Join, Strip;
    assert forall n | n in p.secretNames && n !in keyring :: n in Lacking(keyring, p.secretNames);
    if p == DNSTT {
      assert DNSTT.secretNames[0] == "dnstt.server.key";
      UnservableIsNotASecret(LoginHolders(users));
    }
  }

  lemma {:induction false} UnservableIsNotASecret(issued: seq<User>)
    ensures var e := FirstUnservable(issued); e.Some? ==> !e.value.MissingSecret?
  {
    hide Renderable, Reserved;
    if issued != [] {
      UnservableIsNotASecret(issued[1..]);
    }
  }

  /** The other way round: what rendered lacked nothing. */
  lemma RenderedLacksNothing(common: map<string, string>, keyring: Keyring, users: seq<User>, enabled: seq<Protocol>)
    ensures TreeFor(common, keyring, users, enabled).Ok? && AllKnown(enabled) ==>
      forall p | p in enabled :: NothingLacks(keyring, p)
  {
    hide Render, NothingLacks, Known;
    if TreeFor(common, keyring, users, enabled).Ok? && AllKnown(enabled) {
      MergeContents(CommonTree(common), enabled, keyring, users);
      forall p | p in enabled ensures NothingLacks(keyring, p) {
        RenderingLacksNothing(p, keyring, users);
      }
    }
  }

  lemma RenderingLacksNothing(p: Protocol, keyring: Keyring, users: seq<User>)
    requires Known(p) && Render(p, keyring, users).Ok?
    ensures NothingLacks(keyring, p)
  {
    hide VlessLogins, Hysteria2Logins, Enabled, Names, L2tpPasswords, FirstBadName, FirstBadL2tp,
      FirstUnservable, DnsttLogins, LoginHolders, RecordText, Join, Strip, FirstMissing;
    assert DNSTT.secretNames == ["dnstt.server.key"];
    EmptySeq(Lacking(keyring, p.secretNames));
  }

  // ----------------------------------------------------------- what a bootstrap leaves to render

  /** After a bootstrap that completed, the protocols it mints for lack no secret. */
  lemma BootstrappedLacksNothing(before: Files, after: Files, mint: nat, bytes: Secret -> string, p: Protocol)
    requires p == VLESS || p == HYSTERIA2 || p == IKEV2
    requires || after == Overwritten(before, AllNames(MINTERS), mint)
             || (GentleDone(MINTERS, before, after, mint) && Refusals(before, MINTERS) == [])
    ensures NothingLacks(Loaded(after, bytes), p)
  {
    forall n | n in p.secretNames ensures n in Loaded(after, bytes) {
      MintedIsThere(before, after, mint, p, n);
    }
    hide *;
    hide Loaded;
    EmptySeq(Lacking(Loaded(after, bytes), p.secretNames));
    NothingLacking(Loaded(after, bytes), p);
  }

  lemma NothingLacking(keyring: Keyring, p: Protocol)
    requires Lacking(keyring, p.secretNames) == []
    ensures NothingLacks(keyring, p)
  {
  }

  lemma MintedIsThere(before: Files, after: Files, mint: nat, p: Protocol, n: string)
    requires (p == VLESS || p == HYSTERIA2 || p == IKEV2) && n in p.secretNames
    requires || after == Overwritten(before, AllNames(MINTERS), mint)
             || (GentleDone(MINTERS, before, after, mint) && Refusals(before, MINTERS) == [])
    ensures Has(after, n)
  {
    var i := MintedFor(p, n);
    hide MINTERS, GentleDone, Refusals;
    if after == Overwritten(before, AllNames(MINTERS), mint) {
      AllNamesIn(MINTERS, n);
    } else {
      NothingRefused(before, MINTERS, i);
      CompletedHas(before, after, MINTERS[i], mint, n);
    }
  }

  /** Which protocol's minting a declared secret comes out of. */
  lemma MintedFor(p: Protocol, n: string) returns (i: nat)
    requires (p == VLESS || p == HYSTERIA2 || p == IKEV2) && n in p.secretNames
    ensures i < |MINTERS| && n in MINTERS[i].produced
  {
    var m, s := MINTERS, p.secretNames;
    if p == VLESS {
      i := 0;
      assert s[0] == m[0].produced[0] && s[1] == m[0].produced[2];
    } else if p == HYSTERIA2 {
      i := 1;
      assert s == m[1].produced;
    } else {
      i := 2;
      assert s == m[2].produced;
    }
  }

  lemma {:induction false} NothingRefused(fs: Files, ms: seq<Minter>, i: nat)
    requires Refusals(fs, ms) == [] && i < |ms|
    ensures !Damaged(fs, ms[i])
  {
    hide Damaged;
    if i > 0 {
      NothingRefused(fs, ms[1..], i - 1);
    }
  }

  lemma CompletedHas(before: Files, after: Files, m: Minter, mint: nat, n: string)
    requires GentleDone(MINTERS, before, after, mint) && m in MINTERS && !Damaged(before, m) && n in m.produced
    ensures Has(after, n)
  {
    hide MINTERS;
    assert DoneAt(m, before, after, mint);
    if Survives(before, m) {
      assert Has(before, n) || Rebuildable(before, m, n);
    }
  }

  // ------------------------------------------------------------------ what the files hold

  /** Each enabled protocol's files hold that protocol's own secrets, and each tracked file its text. */
  ghost predicate Holds(t: Tree, common: map<string, string>, keyring: Keyring, users: seq<User>,
                        enabled: seq<Protocol>)
  {
    && (forall name | name in common :: "sing-box/" + name in t && t["sing-box/" + name] == Text(common[name]))
    && (VLESS in enabled ==> HoldsVless(t, keyring, users))
    && (HYSTERIA2 in enabled ==> HoldsHysteria2(t, keyring, users))
    && (IKEV2 in enabled ==> HoldsIkev2(t, keyring, users))
    && (DNSTT in enabled ==> HoldsDnstt(t, keyring, users))
  }

  predicate HoldsVless(t: Tree, keyring: Keyring, users: seq<User>)
  {
    && "reality.key" in keyring && "reality.short_id" in keyring
    && "sing-box/10_vless-reality.json" in t
    && t["sing-box/10_vless-reality.json"] ==
         Inbound("vless", [Strip(keyring["reality.key"]), Strip(keyring["reality.short_id"])], VlessLogins(users))
  }

  predicate HoldsHysteria2(t: Tree, keyring: Keyring, users: seq<User>)
  {
    && "hysteria2.obfs" in keyring && "hysteria2.crt" in keyring && "hysteria2.key" in keyring
    && "sing-box/20_hysteria2.json" in t
    && t["sing-box/20_hysteria2.json"] ==
         Inbound("hysteria2", [Strip(keyring["hysteria2.obfs"])], Hysteria2Logins(users))
    && "sing-box/certs/certificate.pem" in t && t["sing-box/certs/certificate.pem"] == Text(keyring["hysteria2.crt"])
    && "sing-box/certs/private.key" in t && t["sing-box/certs/private.key"] == Text(keyring["hysteria2.key"])
  }

  /** The shared key, the image's own account, then the enabled users, name for name and password. */
  predicate HoldsIkev2(t: Tree, keyring: Keyring, users: seq<User>)
  {
    && "ipsec.psk" in keyring && "ipsec.primary_user" in keyring && "ipsec.primary_password" in keyring
    && "ikev2.env" in t
    && t["ikev2.env"] == Text(RecordText('=',
         [("VPN_IPSEC_PSK", Strip(keyring["ipsec.psk"])),
          ("VPN_USER", Strip(keyring["ipsec.primary_user"])),
          ("VPN_PASSWORD", Strip(keyring["ipsec.primary_password"])),
          ("VPN_ADDL_USERS", Join(' ', Names(Enabled(users)))),
          ("VPN_ADDL_PASSWORDS", Join(' ', L2tpPasswords(Enabled(users))))]))
  }

  predicate HoldsDnstt(t: Tree, keyring: Keyring, users: seq<User>)
  {
    && "dnstt.server.key" in keyring
    && "dnstt/server.key" in t && t["dnstt/server.key"] == Text(keyring["dnstt.server.key"])
    && "dnstt-sshd/logins" in t
    && t["dnstt-sshd/logins"] == Text(RecordText(':', DnsttLogins(LoginHolders(users))))
    && "dnstt.env" in t && t["dnstt.env"].Text?
    && ReadRecords('=', t["dnstt.env"].text) ==
         [("SSH_PORT", "2222"), ("SOCKS_EXIT", "127.0.0.1:7300"), ("PERMIT_OPEN", "any")]
  }

  lemma TreeHolds(common: map<string, string>, keyring: Keyring, users: seq<User>, enabled: seq<Protocol>)
    ensures var r := TreeFor(common, keyring, users, enabled);
      r.Ok? ==> Holds(r.value, common, keyring, users, enabled)
  {
    hide Render, HoldsVless, HoldsHysteria2, HoldsIkev2, HoldsDnstt, CommonTree, Merge, AllPorts, Distinct;
    var r := TreeFor(common, keyring, users, enabled);
    if r.Ok? {
      MergeContents(CommonTree(common), enabled, keyring, users);
      forall name | name in common
        ensures "sing-box/" + name in r.value && r.value["sing-box/" + name] == Text(common[name])
      {
        TrackedIsThere(common, name);
      }
      if VLESS in enabled { VlessHolds(r.value, keyring, users); }
      if HYSTERIA2 in enabled { Hysteria2Holds(r.value, keyring, users); }
      if IKEV2 in enabled { Ikev2Holds(r.value, keyring, users); }
      if DNSTT in enabled { DnsttHolds(r.value, keyring, users); }
    }
  }

  lemma TrackedIsThere(common: map<string, string>, name: string)
    requires name in common
    ensures var t := CommonTree(common); "sing-box/" + name in t && t["sing-box/" + name] == Text(common[name])
  {
    var path := "sing-box/" + name;
    assert path[|"sing-box/"|..] == name;
    assert path in (set n | n in common.Keys :: "sing-box/" + n);
  }

  ghost predicate HoldsAll(t: Tree, out: Tree)
  {
    forall rel | rel in out :: rel in t && t[rel] == out[rel]
  }

  lemma VlessHolds(t: Tree, keyring: Keyring, users: seq<User>)
    requires Render(VLESS, keyring, users).Ok? && HoldsAll(t, Render(VLESS, keyring, users).value)
    ensures HoldsVless(t, keyring, users)
  {
    hide VlessLogins, Strip, FirstMissing;
    assert VLESS.secretNames[0] == "reality.key" && VLESS.secretNames[1] == "reality.short_id";
  }

  lemma Hysteria2Holds(t: Tree, keyring: Keyring, users: seq<User>)
    requires Render(HYSTERIA2, keyring, users).Ok? && HoldsAll(t, Render(HYSTERIA2, keyring, users).value)
    ensures HoldsHysteria2(t, keyring, users)
  {
    hide Hysteria2Logins, Strip, Render;
    Hysteria2Prints(keyring, users);
  }

  lemma Hysteria2Prints(keyring: Keyring, users: seq<User>)
    requires Render(HYSTERIA2, keyring, users).Ok?
    ensures HoldsHysteria2(Render(HYSTERIA2, keyring, users).value, keyring, users)
  {
    hide Hysteria2Logins, Strip, FirstMissing;
    assert HYSTERIA2.secretNames[0] == "hysteria2.crt" && HYSTERIA2.secretNames[1] == "hysteria2.key"
        && HYSTERIA2.secretNames[2] == "hysteria2.obfs";
  }

  lemma Ikev2Holds(t: Tree, keyring: Keyring, users: seq<User>)
    requires Render(IKEV2, keyring, users).Ok? && HoldsAll(t, Render(IKEV2, keyring, users).value)
    ensures HoldsIkev2(t, keyring, users)
  {
    hide Enabled, Names, L2tpPasswords, FirstBadName, FirstBadL2tp, FirstMissing, RecordText, Join, Strip;
    assert IKEV2.secretNames[0] == "ipsec.psk" && IKEV2.secretNames[1] == "ipsec.primary_user"
        && IKEV2.secretNames[2] == "ipsec.primary_password";
  }

  lemma DnsttHolds(t: Tree, keyring: Keyring, users: seq<User>)
    requires Render(DNSTT, keyring, users).Ok? && HoldsAll(t, Render(DNSTT, keyring, users).value)
    ensures HoldsDnstt(t, keyring, users)
  {
    SshdReads();
    hide DnsttLogins, FirstUnservable, LoginHolders, RecordText, ReadRecords;
    DnsttPrintsAll(keyring, users);
  }

  lemma DnsttPrintsAll(keyring: Keyring, users: seq<User>)
    requires Render(DNSTT, keyring, users).Ok?
    ensures var out := Render(DNSTT, keyring, users).value;
      && "dnstt.server.key" in keyring
      && "dnstt/server.key" in out && out["dnstt/server.key"] == Text(keyring["dnstt.server.key"])
      && "dnstt-sshd/logins" in out
      && out["dnstt-sshd/logins"] == Text(RecordText(':', DnsttLogins(LoginHolders(users))))
      && "dnstt.env" in out && out["dnstt.env"] == Text(RecordText('=', SSHD_ENV))
  {
    hide DnsttLogins, FirstUnservable, LoginHolders, RecordText;
  }

  /** What sshd is told, as it reads its env file. */
  lemma SshdReads()
    ensures ReadRecords('=', RecordText('=', SSHD_ENV)) ==
      [("SSH_PORT", "2222"), ("SOCKS_EXIT", "127.0.0.1:7300"), ("PERMIT_OPEN", "any")]
  {
    hide ReadRecords, RecordText;
    RecordsReadBack('=', SSHD_ENV);
  }
  // ------------------------------------------------------------------------- when it renders

  /** The files a protocol prints. */
  function Paths(p: Protocol): set<string>
  {
    if p == VLESS then {"sing-box/10_vless-reality.json"}
    else if p == HYSTERIA2 then
      {"sing-box/20_hysteria2.json", "sing-box/certs/certificate.pem", "sing-box/certs/private.key"}
    else if p == IKEV2 then {"ikev2.env"}
    else {"dnstt/server.key", "dnstt-sshd/logins", "dnstt.env"}
  }

  /** What a protocol refuses to print: a lacking secret, or a user its files could not carry. */
  ghost predicate Printable(p: Protocol, keyring: Keyring, users: seq<User>)
  {
    && NothingLacks(keyring, p)
    && (p == IKEV2 ==> forall u | u in users && u.enabled :: Renderable(u.name) && |Words(u.l2tpPassword)| == 1)
    && (p == DNSTT ==>
          && (exists u :: u in users && u.enabled && u.dnsttPassword != "")
          && forall u | u in users && u.enabled && u.dnsttPassword != "" :: ServableLogin(u))
  }

  /**
   A desired state renders exactly when no port is claimed twice, each enabled protocol can print its
   files, and none of those has the name of a tracked one.
   */
  lemma RendersIff(common: map<string, string>, keyring: Keyring, users: seq<User>, enabled: seq<Protocol>)
    requires AllKnown(enabled)
    ensures TreeFor(common, keyring, users, enabled).Ok? <==>
      && Distinct(AllPorts(enabled))
      && forall p | p in enabled :: Printable(p, keyring, users) && Paths(p) !! CommonTree(common).Keys
  {
    hide Render, Printable, Paths, CommonTree, AllPorts, Distinct;
    forall p | p in enabled ensures Render(p, keyring, users).Ok? <==> Printable(p, keyring, users) {
      PrintsIff(p, keyring, users);
    }
    if Distinct(AllPorts(enabled)) {
      NoProtocolTwice(enabled);
      MergesIff(CommonTree(common), enabled, keyring, users);
    }
  }

  lemma PrintsIff(p: Protocol, keyring: Keyring, users: seq<User>)
    requires Known(p)
    ensures Render(p, keyring, users).Ok? <==> Printable(p, keyring, users)
  {
    if Render(p, keyring, users).Ok? {
      RenderingLacksNothing(p, keyring, users);
    }
    hide VlessLogins, Hysteria2Logins, Enabled, Names, L2tpPasswords, FirstBadName, FirstBadL2tp,
      ServableLogin, FirstUnservable, DnsttLogins, LoginHolders, RecordText, Join, Strip, Renderable, Words;
    assert forall n | n in p.secretNames && n !in keyring :: n in Lacking(keyring, p.secretNames);
    assert DNSTT.secretNames[0] == "dnstt.server.key";
    if p == DNSTT {
      LoginsPrinted(LoginHolders(users));
    }
  }

  /** The file of logins is empty exactly when there is no login. */
  lemma LoginsPrinted(issued: seq<User>)
    ensures RecordText(':', DnsttLogins(issued)) == "" <==> forall u :: u !in issued
  {
    if issued != [] {
      assert issued[0] in issued;
    }
  }

  lemma {:induction false} NoProtocolTwice(ps: seq<Protocol>)
    requires AllKnown(ps) && Distinct(AllPorts(ps))
    ensures Distinct(ps)
  {
    if ps != [] {
      var first, rest := ps[0].ports, AllPorts(ps[1..]);
      assert Distinct(rest) by {
        assert forall k | 0 <= k < |rest| :: rest[k] == AllPorts(ps)[|first| + k];
      }
      NoProtocolTwice(ps[1..]);
      assert ps[0] !in ps[1..] by {
        if ps[0] in ps[1..] { PortTwice(ps); }
      }
    }
  }

  lemma PortTwice(ps: seq<Protocol>)
    requires AllKnown(ps) && ps != [] && ps[0] in ps[1..]
    ensures !Distinct(AllPorts(ps))
  {
    var first, rest := ps[0].ports, AllPorts(ps[1..]);
    PortsOfOne(ps[1..], ps[0]);
    var k :| 0 <= k < |rest| && rest[k] == first[0];
    assert AllPorts(ps)[0] == first[0] && AllPorts(ps)[|first| + k] == rest[k];
  }

  lemma {:induction false} PortsOfOne(ps: seq<Protocol>, p: Protocol)
    requires p in ps && Known(p)
    ensures p.ports != [] && p.ports[0] in AllPorts(ps)
  {
    if p != ps[0] {
      PortsOfOne(ps[1..], p);
    }
  }

  lemma {:induction false} MergesIff(tree: Tree, ps: seq<Protocol>, keyring: Keyring, users: seq<User>)
    requires AllKnown(ps) && Distinct(ps)
    ensures Merge(tree, ps, keyring, users).Ok? <==>
      forall p | p in ps :: Render(p, keyring, users).Ok? && Paths(p) !! tree.Keys
    decreases |ps|
  {
    hide Render, Paths, Known;
    if ps != [] {
      var first, rest := ps[0], ps[1..];
      assert ps == [first] + rest;
      var r := Render(first, keyring, users);
      if r.Ok? {
        PrintsItsPaths(first, keyring, users);
        MergesIff(tree + r.value, rest, keyring, users);
        forall p | p in rest ensures Paths(p) !! (tree + r.value).Keys <==> Paths(p) !! tree.Keys {
          var k :| 0 <= k < |rest| && rest[k] == p;
          assert ps[k + 1] == p && ps[0] != ps[k + 1];
          OwnPaths(first, p);
        }
      }
    }
  }

  lemma PrintsItsPaths(p: Protocol, keyring: Keyring, users: seq<User>)
    requires Known(p) && Render(p, keyring, users).Ok?
    ensures Render(p, keyring, users).value.Keys == Paths(p)
  {
    hide VlessLogins, Hysteria2Logins, Enabled, Names, L2tpPasswords, FirstBadName, FirstBadL2tp,
      FirstMissing, FirstUnservable, DnsttLogins, LoginHolders, RecordText, Join, Strip;
  }

  lemma OwnPaths(p: Protocol, q: Protocol)
    requires Known(p) && Known(q) && p != q
    ensures Paths(p) !! Paths(q)
  {
    assert "sing-box/10_vless-reality.json"[9] == '1' && "sing-box/20_hysteria2.json"[9] == '2'
        && "sing-box/certs/certificate.pem"[9] == 'c' && "sing-box/certs/private.key"[9] == 'c';
    assert "ikev2.env"[0] == 'i' && "dnstt/server.key"[0] == 'd' && "dnstt-sshd/logins"[0] == 'd'
        && "dnstt.env"[0] == 'd' && "sing-box/10_vless-reality.json"[0] == 's'
        && "sing-box/20_hysteria2.json"[0] == 's' && "sing-box/certs/certificate.pem"[0] == 's'
        && "sing-box/certs/private.key"[0] == 's';
  }
}
