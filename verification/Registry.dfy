/** The protocol registry: what each protocol claims, needs and runs. */
module Registry {
  import opened Wrappers

  datatype Port = Port(number: nat, transport: string)

  datatype Protocol = Protocol(
    name: string,
    order: nat,
    ports: seq<Port>,
    secretNames: seq<string>,
    defaultEnabled: bool,
    services: seq<string>)

  const VLESS := Protocol("vless-reality", 10, [Port(10443, "tcp")],
                          ["reality.key", "reality.short_id"], true, [])
  const HYSTERIA2 := Protocol("hysteria2", 20, [Port(20443, "udp")],
                              ["hysteria2.crt", "hysteria2.key", "hysteria2.obfs"], true, [])
  const IKEV2 := Protocol("ikev2", 30, [Port(500, "udp"), Port(4500, "udp"), Port(1701, "udp")],
                          ["ipsec.psk", "ipsec.primary_user", "ipsec.primary_password"], true, ["ikev2"])
  const DNSTT := Protocol("dnstt", 40, [Port(53, "udp")],
                          ["dnstt.server.key"], false, ["dnstt", "dnstt-sshd", "dnstt-socks"])

  const PROTOCOLS: seq<Protocol> := [VLESS, HYSTERIA2, IKEV2, DNSTT]

  function Lookup(name: string): (r: Option<Protocol>)
    ensures r.Some? ==> Known(r.value) && r.value.name == name
  {
    if name == VLESS.name then Some(VLESS)
    else if name == HYSTERIA2.name then Some(HYSTERIA2)
    else if name == IKEV2.name then Some(IKEV2)
    else if name == DNSTT.name then Some(DNSTT)
    else None
  }

  predicate Known(p: Protocol)
  {
    p == VLESS || p == HYSTERIA2 || p == IKEV2 || p == DNSTT
  }

  predicate AllKnown(ps: seq<Protocol>)
  {
    forall p | p in ps :: Known(p)
  }

  predicate InOrder(ps: seq<Protocol>)
  {
    forall i, j | 0 <= i < j < |ps| :: ps[i].order <= ps[j].order
  }

  /** A stable insertion by `order`. */
  function InsertByOrder(p: Protocol, ps: seq<Protocol>): (r: seq<Protocol>)
    ensures forall q :: q in r <==> q == p || q in ps
  {
    if ps == [] || p.order <= ps[0].order then [p] + ps
    else
      assert ps == [ps[0]] + ps[1..];
      [ps[0]] + InsertByOrder(p, ps[1..])
  }

  lemma {:induction false} InsertKeepsOrder(p: Protocol, ps: seq<Protocol>)
    requires InOrder(ps)
    ensures InOrder(InsertByOrder(p, ps))
  {
    if ps != [] && p.order > ps[0].order {
      InsertKeepsOrder(p, ps[1..]);
      var rest := InsertByOrder(p, ps[1..]);
      forall j | 0 <= j < |rest| ensures ps[0].order <= rest[j].order {
        assert rest[j] in rest;
        assert rest[j] == p || rest[j] in ps[1..];
      }
    }
  }

  lemma {:induction false} InsertAddsOne(p: Protocol, ps: seq<Protocol>)
    ensures multiset(InsertByOrder(p, ps)) == multiset{p} + multiset(ps)
  {
    if ps != [] && p.order > ps[0].order {
      InsertAddsOne(p, ps[1..]);
      assert ps == [ps[0]] + ps[1..];
    }
  }

  /** The protocols some names stand for, one for each name the registry knows. */
  function Named(names: seq<string>): (r: seq<Protocol>)
  {
    if names == [] then []
    else
      match Lookup(names[0])
      case None => Named(names[1..])
      case Some(p) => [p] + Named(names[1..])
  }

  /** The enabled names the registry knows, in registry order; unknown names are dropped. */
  function EnabledProtocols(names: seq<string>): (r: seq<Protocol>)
    ensures AllKnown(r)
    ensures forall q :: q in r ==> q.name in names
    ensures forall n | n in names && Lookup(n).Some? :: Lookup(n).value in r
  {
    hide Lookup, Known, InsertByOrder;
    if names == [] then [] else
      assert names == [names[0]] + names[1..];
      var rest := EnabledProtocols(names[1..]);
      match Lookup(names[0])
      case None => rest
      case Some(p) => InsertByOrder(p, rest)
  }

  /** In registry order, and each as often as it is named. */
  lemma {:induction false} EnabledInOrder(names: seq<string>)
    ensures InOrder(EnabledProtocols(names))
    ensures multiset(EnabledProtocols(names)) == multiset(Named(names))
  {
    hide Lookup, InsertByOrder, InOrder;
    if names == [] {
      NothingEnabled();
    } else {
      var rest := EnabledProtocols(names[1..]);
      EnabledInOrder(names[1..]);
      if Lookup(names[0]).Some? {
        InsertKeepsOrder(Lookup(names[0]).value, rest);
        InsertAddsOne(Lookup(names[0]).value, rest);
      }
    }
  }

  lemma NothingEnabled()
    ensures InOrder(EnabledProtocols([])) && EnabledProtocols([]) == [] && Named([]) == []
  {
  }

  /** Every container that has to be up: sing-box always, the rest from the registry. */
  function Services(enabled: seq<Protocol>): (r: seq<string>)
    ensures "sing-box" in r
  {
    ["sing-box"] + CompositeServices(enabled)
  }

  function CompositeServices(enabled: seq<Protocol>): seq<string>
  {
    if enabled == [] then [] else enabled[0].services + CompositeServices(enabled[1..])
  }

  lemma {:induction false} ServicesOf(enabled: seq<Protocol>, p: Protocol, s: string)
    requires p in enabled && s in p.services
    ensures s in CompositeServices(enabled)
  {
    if p != enabled[0] {
      ServicesOf(enabled[1..], p, s);
    }
  }

  lemma {:induction false} ServicesFrom(enabled: seq<Protocol>, s: string)
    requires s in CompositeServices(enabled)
    ensures exists p :: p in enabled && s in p.services
  {
    if s in enabled[0].services {
    } else {
      ServicesFrom(enabled[1..], s);
      var p :| p in enabled[1..] && s in p.services;
      assert p in enabled;
    }
  }

  method ExpectedServices(enabled: seq<Protocol>) returns (services: seq<string>)
    ensures services == Services(enabled)
  {
    services := ["sing-box"];
    for i := 0 to |enabled|
      invariant services + CompositeServices(enabled[i..]) == Services(enabled)
    {
      assert enabled[i..][1..] == enabled[i + 1..];
      services := services + enabled[i].services;
    }
    assert enabled[|enabled|..] == [];
  }

  // ------------------------------------------------------------------------- ports

  function AllPorts(enabled: seq<Protocol>): seq<Port>
  {
    if enabled == [] then [] else enabled[0].ports + AllPorts(enabled[1..])
  }

  predicate Distinct<T(==)>(xs: seq<T>)
  {
    forall i, j | 0 <= i < j < |xs| :: xs[i] != xs[j]
  }

  lemma {:induction false} AllPortsPlus(a: seq<Protocol>, b: seq<Protocol>)
    ensures AllPorts(a + b) == AllPorts(a) + AllPorts(b)
  {
    if a == [] {
      assert a + b == b;
    } else {
      assert (a + b)[1..] == a[1..] + b;
      AllPortsPlus(a[1..], b);
    }
  }

  lemma AllPortsUpTo(enabled: seq<Protocol>, i: nat)
    requires i < |enabled|
    ensures AllPorts(enabled[..i + 1]) == AllPorts(enabled[..i]) + enabled[i].ports
    ensures AllPorts(enabled[..i + 1]) <= AllPorts(enabled)
  {
    PortsOfOne(enabled[i]);
    hide AllPorts;
    assert enabled[..i + 1] == enabled[..i] + [enabled[i]] && enabled == enabled[..i + 1] + enabled[i + 1..];
    AllPortsPlus(enabled[..i], [enabled[i]]);
    AllPortsPlus(enabled[..i + 1], enabled[i + 1..]);
  }

  lemma PortsOfOne(p: Protocol)
    ensures AllPorts([p]) == p.ports
  {
    assert [p][1..] == [];
  }

  lemma Repeats<T>(xs: seq<T>, seen: seq<T>, x: T)
    requires seen + [x] <= xs && x in seen
    ensures !Distinct(xs)
  {
    var i :| 0 <= i < |seen| && seen[i] == x;
    assert xs[..|seen| + 1] == seen + [x];
    assert xs[i] == xs[..|seen| + 1][i] && xs[|seen|] == xs[..|seen| + 1][|seen|];
  }

  /** The check accepts a set of protocols exactly when no port is claimed twice. */
  method PortsDisjoint(enabled: seq<Protocol>) returns (ok: bool)
    ensures ok <==> Distinct(AllPorts(enabled))
  {
    hide AllPorts;
    var seen: seq<Port> := [];
    assert AllPorts(enabled[..0]) == [] by { NoPorts(enabled); }
    for i := 0 to |enabled|
      invariant seen == AllPorts(enabled[..i]) && Distinct(seen)
    {
      AllPortsUpTo(enabled, i);
      var ports := enabled[i].ports;
      for j := 0 to |ports|
        invariant seen == AllPorts(enabled[..i]) + ports[..j] && Distinct(seen)
      {
        assert ports[..j + 1] == ports[..j] + [ports[j]];
        assert seen + [ports[j]] <= AllPorts(enabled[..i]) + ports;
        if ports[j] in seen {
          Repeats(AllPorts(enabled), seen, ports[j]);
          return false;
        }
        seen := seen + [ports[j]];
      }
      assert ports[..|ports|] == ports;
    }
    assert enabled[..|enabled|] == enabled;
    return true;
  }

  lemma NoPorts(enabled: seq<Protocol>)
    ensures AllPorts(enabled[..0]) == []
  {
  }
}
