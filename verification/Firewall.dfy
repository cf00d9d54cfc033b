/**
 Reconciling ufw against the enabled protocols. Rules carry a comment; the ones this tool owns
 are tagged with a protocol name, and `ssh` is a tag it may never remove.
 */
module Firewall {
  import opened Wrappers
  import opened Strings
  import opened Registry

  datatype Source = Anywhere | Only(network: string)

  datatype Comment = Foreign(text: string) | Tagged(tag: string)

  /** One ALLOW rule: ufw holds at most one for a port and a source. */
  datatype Rule = Rule(port: string, source: Source, comment: Comment)

  const SSH_TAG := "ssh"
  const SSH_RULE := "22/tcp"

  predicate NoDuplicates(rules: seq<Rule>)
  {
    forall i, j | 0 <= i < j < |rules| :: rules[i].port != rules[j].port || rules[i].source != rules[j].source
  }

  /** Rules the tool may neither remove nor rewrite. */
  predicate Untouchable(r: Rule)
  {
    r.comment.Foreign? || r.comment.tag == SSH_TAG || r.port == SSH_RULE
  }

  function Untouchables(rules: seq<Rule>): (s: seq<Rule>)
    ensures forall r :: r in s <==> r in rules && Untouchable(r)
  {
    if rules == [] then [] else
      assert rules == [rules[0]] + rules[1..];
      (if Untouchable(rules[0]) then [rules[0]] else []) + Untouchables(rules[1..])
  }

  predicate Blanket(r: Rule, port: string)
  {
    r.port == port && r.source == Anywhere
  }

  ghost predicate Open(rules: seq<Rule>, port: string)
  {
    exists r :: r in rules && Blanket(r, port)
  }

  // ---------------------------------------------------------------------- views of the status

  /** Port to tag; of several tagged rules on one port, the last listed counts. */
  function TagMap(rules: seq<Rule>): (m: map<string, string>)
    ensures forall p :: p in m <==> exists r :: r in rules && r.port == p && r.comment.Tagged?
    ensures forall p | p in m :: exists r :: r in rules && r.port == p && r.comment == Tagged(m[p])
    decreases |rules|
  {
    if rules == [] then map[] else
      var last := rules[|rules| - 1];
      var rest := rules[..|rules| - 1];
      assert rules == rest + [last];
      if last.comment.Tagged? then TagMap(rest)[last.port := last.comment.tag] else TagMap(rest)
  }

  function ByHand(rules: seq<Rule>): (s: set<string>)
    ensures forall p :: p in s <==> exists r :: r in rules && Blanket(r, p) && r.comment.Foreign?
  {
    set r | r in rules && r.source == Anywhere && r.comment.Foreign? :: r.port
  }

  /** The tag a port is read with: the last tagged rule on it. */
  function LastTag(rules: seq<Rule>, port: string): Option<string>
  {
    if rules == [] then None else
      var rest := LastTag(rules[1..], port);
      if rest.Some? then rest
      else if rules[0].port == port && rules[0].comment.Tagged? then Some(rules[0].comment.tag)
      else None
  }

  lemma {:induction false} LastTagOfLast(rules: seq<Rule>, port: string)
    requires rules != []
    ensures var last, front := rules[|rules| - 1], rules[..|rules| - 1];
      LastTag(rules, port) ==
        if last.port == port && last.comment.Tagged? then Some(last.comment.tag) else LastTag(front, port)
  {
    if |rules| > 1 {
      LastTagOfLast(rules[1..], port);
      assert rules[1..][..|rules| - 2] == rules[..|rules| - 1][1..];
    } else {
      assert rules[1..] == [] && rules[..0] == [];
    }
  }

  lemma {:induction false} TagMapIsLastTag(rules: seq<Rule>, port: string)
    ensures LastTag(rules, port) == if port in TagMap(rules) then Some(TagMap(rules)[port]) else None
    decreases |rules|
  {
    if rules != [] {
      LastTagOfLast(rules, port);
      TagMapIsLastTag(rules[..|rules| - 1], port);
    }
  }

  method ReadTagged(rules: seq<Rule>) returns (found: map<string, string>)
    ensures found == TagMap(rules)
    ensures forall p :: LastTag(rules, p) == if p in found then Some(found[p]) else None
  {
    hide LastTag;
    found := map[];
    for i := 0 to |rules|
      invariant found == TagMap(rules[..i])
    {
      assert rules[..i + 1][..i] == rules[..i];
      if rules[i].comment.Tagged? {
        found := found[rules[i].port := rules[i].comment.tag];
      }
    }
    assert rules[..|rules|] == rules;
    forall p ensures LastTag(rules, p) == if p in found then Some(found[p]) else None {
      TagMapIsLastTag(rules, p);
    }
  }

  method ReadUntagged(rules: seq<Rule>) returns (found: set<string>)
    ensures found == ByHand(rules)
  {
    found := {};
    for i := 0 to |rules|
      invariant found == ByHand(rules[..i])
    {
      assert rules[..i + 1] == rules[..i] + [rules[i]];
      assert ByHand(rules[..i + 1]) == ByHand(rules[..i]) +
        if rules[i].source == Anywhere && rules[i].comment.Foreign? then {rules[i].port} else {};
      if rules[i].source == Anywhere && rules[i].comment.Foreign? {
        found := found + {rules[i].port};
      }
    }
    assert rules[..|rules|] == rules;
  }

  // -------------------------------------------------------------------------- what is wanted

  function Decimal(n: nat): (r: string)
    ensures r != [] && forall i | 0 <= i < |r| :: '0' <= r[i] <= '9'
    ensures n >= 10 ==> |r| >= 2
    ensures n >= 100 ==> |r| >= 3
  {
    if n < 10 then ["0123456789"[n]] else Decimal(n / 10) + ["0123456789"[n % 10]]
  }

  function Key(p: Port): string
  {
    Decimal(p.number) + "/" + p.transport
  }

  function Keys(ports: seq<Port>, name: string): map<string, string>
  {
    if ports == [] then map[] else map[Key(ports[0]) := name] + Keys(ports[1..], name)
  }

  /** The rules the registry wants open; a protocol called `ssh` is refused. */
  function Desired(enabled: seq<Protocol>): Option<map<string, string>>
  {
    if exists p | p in enabled :: p.name == SSH_TAG then None else Some(KeysOf(enabled))
  }

  function KeysOf(enabled: seq<Protocol>): map<string, string>
  {
    if enabled == [] then map[] else Keys(enabled[0].ports, enabled[0].name) + KeysOf(enabled[1..])
  }

  /** A decimal numeral read back. */
  function Number(s: string): int
  {
    if s == "" then 0 else Number(s[..|s| - 1]) * 10 + (s[|s| - 1] as int - '0' as int)
  }

  lemma {:induction false} DecimalReads(n: nat)
    ensures Number(Decimal(n)) == n
  {
    var digit := "0123456789"[n % 10];
    assert digit as int - '0' as int == n % 10;
    if n < 10 {
      assert [digit][..0] == "";
    } else {
      DecimalReads(n / 10);
      assert (Decimal(n / 10) + [digit])[..|Decimal(n)| - 1] == Decimal(n / 10);
    }
  }

  /** A rule's port spells the number and the transport, so no two ports share one. */
  lemma KeySpells(p: Port)
    ensures SplitOnce('/', Key(p)) == (Decimal(p.number), p.transport) && Number(Decimal(p.number)) == p.number
  {
    DecimalReads(p.number);
    SplitOnceOf('/', Decimal(p.number), p.transport);
  }

  predicate Claims(p: Protocol, key: string)
  {
    exists port | port in p.ports :: Key(port) == key
  }

  lemma {:induction false} KeysAre(ports: seq<Port>, name: string, key: string)
    ensures key in Keys(ports, name) <==> exists port | port in ports :: Key(port) == key
    ensures key in Keys(ports, name) ==> Keys(ports, name)[key] == name
  {
    hide Key;
    if ports != [] {
      assert ports == [ports[0]] + ports[1..];
      KeysAre(ports[1..], name, key);
    }
  }

  /** What is wanted is the ports of the enabled protocols, each in the name of one that claims it. */
  lemma {:induction false} WantedAreClaimed(enabled: seq<Protocol>, key: string)
    ensures key in KeysOf(enabled) <==> exists p :: p in enabled && Claims(p, key)
    ensures key in KeysOf(enabled) ==>
      exists p :: p in enabled && Claims(p, key) && KeysOf(enabled)[key] == p.name
  {
    hide Key, Keys;
    if enabled != [] {
      assert enabled == [enabled[0]] + enabled[1..];
      WantedAreClaimed(enabled[1..], key);
      KeysAre(enabled[0].ports, enabled[0].name, key);
      assert key in Keys(enabled[0].ports, enabled[0].name) <==> Claims(enabled[0], key);
      assert forall p :: p in enabled <==> p == enabled[0] || p in enabled[1..];
    }
  }

  predicate Clear(want: map<string, string>)
  {
    forall p | p in want :: p != SSH_RULE && want[p] != SSH_TAG
  }

  lemma {:induction false} DesiredIsClear(enabled: seq<Protocol>)
    requires AllKnown(enabled)
    ensures Desired(enabled) == Some(KeysOf(enabled)) && Clear(KeysOf(enabled))
  {
    if enabled != [] {
      assert enabled == [enabled[0]] + enabled[1..];
      DesiredIsClear(enabled[1..]);
      KnownPortsAreClear(enabled[0]);
    }
  }

  lemma KnownPortsAreClear(p: Protocol)
    requires Known(p)
    ensures p.name != SSH_TAG && Clear(Keys(p.ports, p.name))
  {
    hide Key;
    assert forall i | 0 <= i < |p.ports| :: p.ports[i].transport == "udp" || p.ports[i].number >= 100;
    KeysAreNotSsh(p.ports, p.name);
    assert p.name[0] != 's';
  }

  lemma {:induction false} KeysAreNotSsh(ports: seq<Port>, name: string)
    requires forall i | 0 <= i < |ports| :: ports[i].transport == "udp" || ports[i].number >= 100
    ensures forall k | k in Keys(ports, name) :: k != SSH_RULE && Keys(ports, name)[k] == name
  {
    hide Key;
    if ports != [] {
      KeysAreNotSsh(ports[1..], name);
      KeyIsNotSsh(ports[0]);
    }
  }

  lemma KeyIsNotSsh(p: Port)
    requires p.transport == "udp" || p.number >= 100
    ensures Key(p) != SSH_RULE
  {
    var d := Decimal(p.number);
    if p.transport == "udp" {
      assert Key(p)[|d| + 2] == 'd' && |Key(p)| == |d| + 4;
      assert SSH_RULE[4] == 'c';
    } else {
      assert Key(p)[2] == d[2] && SSH_RULE[2] == '/';
    }
  }

  // --------------------------------------------------------------------------- changing rules

  /** The rules left after deleting the blanket ones on some ports. */
  function Drop(rules: seq<Rule>, ports: set<string>): (s: seq<Rule>)
    ensures forall r :: r in s <==> r in rules && !(r.source == Anywhere && r.port in ports)
  {
    if rules == [] then [] else
      assert rules == [rules[0]] + rules[1..];
      (if rules[0].source == Anywhere && rules[0].port in ports then [] else [rules[0]]) + Drop(rules[1..], ports)
  }

  lemma {:induction false} DropMore(rules: seq<Rule>, a: set<string>, b: set<string>)
    ensures Drop(Drop(rules, a), b) == Drop(rules, a + b)
  {
    if rules != [] {
      DropMore(rules[1..], a, b);
      var r, rest := rules[0], Drop(rules[1..], a);
      if !(r.source == Anywhere && r.port in a) {
        assert Drop(rules, a) == [r] + rest && ([r] + rest)[1..] == rest;
      } else {
        assert Drop(rules, a) == rest;
      }
    }
  }

  lemma {:induction false} DropNothing(rules: seq<Rule>)
    ensures Drop(rules, {}) == rules
  {
    if rules != [] {
      DropNothing(rules[1..]);
    }
  }

  lemma {:induction false} DropKeepsOrder(rules: seq<Rule>, ports: set<string>)
    requires NoDuplicates(rules)
    ensures NoDuplicates(Drop(rules, ports))
  {
    if rules != [] {
      DropKeepsOrder(rules[1..], ports);
      var rest := Drop(rules[1..], ports);
      forall j | 0 <= j < |rest|
        ensures rest[j].port != rules[0].port || rest[j].source != rules[0].source
      {
        assert rest[j] in rest;
        var i :| 0 <= i < |rules| - 1 && rules[1..][i] == rest[j];
        assert rules[i + 1] == rest[j];
      }
    }
  }

  /** Deleting leaves the protected rules alone exactly when none of them is a blanket rule on such a port. */
  lemma {:induction false} DropSparesIff(rules: seq<Rule>, ports: set<string>)
    ensures |Untouchables(Drop(rules, ports))| <= |Untouchables(rules)|
    ensures Untouchables(Drop(rules, ports)) == Untouchables(rules) <==>
            forall r | r in rules && r.source == Anywhere && r.port in ports :: !Untouchable(r)
  {
    if rules != [] {
      DropSparesIff(rules[1..], ports);
      var r, rest := rules[0], Drop(rules[1..], ports);
      assert rules == [r] + rules[1..];
      if !(r.source == Anywhere && r.port in ports) {
        assert Drop(rules, ports) == [r] + rest && ([r] + rest)[1..] == rest;
      } else {
        assert Drop(rules, ports) == rest;
      }
    }
  }

  lemma {:induction false} UntouchablesPlus(a: seq<Rule>, b: seq<Rule>)
    ensures Untouchables(a + b) == Untouchables(a) + Untouchables(b)
  {
    if a == [] {
      assert a + b == b;
    } else {
      assert (a + b)[1..] == a[1..] + b && (a + b)[0] == a[0];
      UntouchablesPlus(a[1..], b);
    }
  }

  lemma UntouchablesNone(a: seq<Rule>)
    requires forall r | r in a :: !Untouchable(r)
    ensures Untouchables(a) == []
  {
    if Untouchables(a) != [] { assert Untouchables(a)[0] in Untouchables(a); }
  }

  datatype UfwOp = Allow(port: string, tag: string, ok: bool) | DeleteAllow(port: string, ok: bool)

  class Ufw {
    var rules: seq<Rule>
    var log: seq<UfwOp>
    const installed: bool
    /** Every ufw command works. */
    const obliging: bool

    constructor (installed: bool, obliging: bool)
      ensures rules == [] && log == [] && this.installed == installed && this.obliging == obliging
    {
      rules, log := [], [];
      this.installed, this.obliging := installed, obliging;
    }

    /** Over an identical rule ufw keeps the old comment or takes the new one, by its version. */
    method AllowPort(port: string, tag: string) returns (ok: bool)
      modifies this
      ensures log == old(log) + [Allow(port, tag, ok)]
      ensures AllowedOn(old(rules), rules, port, tag)
      ensures ok ==> Open(rules, port)
      ensures obliging ==> ok
    {
      var effect: bool := *;
      var i := 0;
      while i < |rules|
        invariant i <= |rules| && rules == old(rules) && log == old(log)
        invariant forall k | 0 <= k < i :: !Blanket(rules[k], port)
      {
        if Blanket(rules[i], port) {
          if effect {
            rules := rules[i := Rule(port, Anywhere, Tagged(tag))];
          }
          assert Blanket(rules[i], port) && rules[i] in rules;
          ok := *;
          ok := ok || obliging;
          log := log + [Allow(port, tag, ok)];
          return;
        }
        i := i + 1;
      }
      ok := false;
      if effect || obliging {
        rules := rules + [Rule(port, Anywhere, Tagged(tag))];
        assert rules[|rules| - 1] in rules;
        ok := *;
        ok := ok || obliging;
      }
      log := log + [Allow(port, tag, ok)];
    }

    /** Deletes the blanket rule on a port, whatever its comment says. */
    method DeletePort(port: string) returns (ok: bool)
      modifies this
      ensures log == old(log) + [DeleteAllow(port, ok)]
      ensures rules == old(rules) || rules == Drop(old(rules), {port})
      ensures ok ==> rules == Drop(old(rules), {port})
      ensures obliging ==> ok
    {
      var effect: bool := *;
      ok := false;
      if effect || obliging {
        rules := Drop(rules, {port});
        ok := *;
        ok := ok || obliging;
      }
      log := log + [DeleteAllow(port, ok)];
    }
  }

  // ------------------------------------------------------------------------ the reconciliation

  datatype Action = Kept(port: string) | Allowed(port: string) | Refused(port: string) | Deleted(port: string) | Failed

  /** The commands behind a report: it names every one, and the one that failed is its last. */
  function Ops(actions: seq<Action>, want: map<string, string>): seq<UfwOp>
  {
    if actions == [] then [] else
      OpOf(actions[0], |actions| == 1 || actions[1] != Failed, want) + Ops(actions[1..], want)
  }

  function OpOf(action: Action, worked: bool, want: map<string, string>): seq<UfwOp>
  {
    match action
    case Allowed(p) => [Allow(p, if p in want then want[p] else "", worked)]
    case Deleted(p) => [DeleteAllow(p, worked)]
    case _ => []
  }

  /** A failure is reported last: nothing is tried after it. */
  predicate EndsSo(actions: seq<Action>, ok: bool)
  {
    && (actions != [] ==> actions[0] != Failed)
    && (if ok then Failed !in actions
        else actions != [] && actions[|actions| - 1] == Failed && Failed !in actions[..|actions| - 1])
  }

  lemma {:induction false} OpsPlus(a: seq<Action>, b: seq<Action>, want: map<string, string>)
    requires b != [] ==> b[0] != Failed
    ensures Ops(a + b, want) == Ops(a, want) + Ops(b, want)
  {
    hide OpOf;
    if a == [] {
      assert a + b == b;
    } else {
      var c := a + b;
      assert c[0] == a[0] && c[1..] == a[1..] + b;
      assert |c| == 1 || c[1] != Failed <==> |a| == 1 || a[1] != Failed by {
        if |a| == 1 {
          assert |c| > 1 ==> c[1] == b[0];
        } else {
          assert c[1] == a[1];
        }
      }
      OpsPlus(a[1..], b, want);
    }
  }

  lemma {:induction false} OpsEmpty(actions: seq<Action>, want: map<string, string>)
    ensures Ops(actions, want) == [] <==> forall a | a in actions :: !a.Allowed? && !a.Deleted?
  {
    if actions != [] {
      assert actions == [actions[0]] + actions[1..];
      OpsEmpty(actions[1..], want);
    }
  }

  lemma NothingTold()
    ensures EndsSo([], true)
  {
  }

  lemma OpsOfOne(port: string, want: map<string, string>)
    ensures Ops([], want) == [] && Ops([Kept(port)], want) == [] && Ops([Refused(port)], want) == []
    ensures port in want ==> Ops([Allowed(port)], want) == [Allow(port, want[port], true)]
    ensures port in want ==> Ops([Allowed(port), Failed], want) == [Allow(port, want[port], false)]
    ensures Ops([Deleted(port)], want) == [DeleteAllow(port, true)]
    ensures Ops([Deleted(port), Failed], want) == [DeleteAllow(port, false)]
  {
    assert [Allowed(port), Failed][1..] == [Failed] && [Deleted(port), Failed][1..] == [Failed];
    assert [Failed][1..] == [] && Ops([Failed], want) == [];
    assert [Kept(port)][1..] == [] && [Refused(port)][1..] == [] && [Allowed(port)][1..] == []
        && [Deleted(port)][1..] == [];
  }

  /** One more step of a report that has not failed yet. */
  lemma OpsMore(a: seq<Action>, step: seq<Action>, want: map<string, string>)
    requires EndsSo(a, true) && step != [] && step[0] != Failed
    ensures Ops(a + step, want) == Ops(a, want) + Ops(step, want)
    ensures |step| == 1 ==> EndsSo(a + step, true)
    ensures |step| == 2 && step[1] == Failed ==> EndsSo(a + step, false)
  {
    hide Ops;
    OpsPlus(a, step, want);
    assert (a + step)[0] == if a == [] then step[0] else a[0];
    if |step| == 2 && step[1] == Failed {
      assert (a + step)[..|a + step| - 1] == a + [step[0]] && (a + step)[|a + step| - 1] == step[1];
      assert Failed !in a && Failed !in [step[0]];
    } else if |step| == 1 {
      assert step == [step[0]];
    }
  }

  /** Ports whose rule the removal loop deletes. */
  function Doomed(have: map<string, string>, want: map<string, string>): set<string>
  {
    set p | p in have && p !in want && have[p] != SSH_TAG && p != SSH_RULE
  }

  /** No deletion hits a protected rule. */
  ghost predicate SparesListed(rules: seq<Rule>, want: map<string, string>)
  {
    forall r | r in rules && r.source == Anywhere && r.port in Doomed(TagMap(rules), want) :: !Untouchable(r)
  }

  /** No addition can rewrite a protected rule: what matters when the status could not be read. */
  ghost predicate SparesUnlisted(rules: seq<Rule>, want: map<string, string>)
  {
    forall r | r in rules && r.source == Anywhere && r.port in want :: !Untouchable(r)
  }

  ghost predicate Own(added: seq<Rule>, want: map<string, string>)
  {
    forall r | r in added :: r.port in want && r.source == Anywhere && r.comment == Tagged(want[r.port])
  }

  /** Neither tagged nor served by hand, as far as the status tells. */
  predicate Unserved(rules: seq<Rule>, port: string)
  {
    port !in TagMap(rules) && port !in ByHand(rules)
  }

  /** What additions alone make of rules that were read: new ones at the end, one to a port. */
  ghost predicate Extended(before: seq<Rule>, now: seq<Rule>, want: map<string, string>, added: seq<Rule>)
  {
    && now == before + added && Own(added, want) && NoDuplicates(added)
    && forall r | r in added :: Unserved(before, r.port)
  }

  /** What additions make of rules that could not be read: blanket rules on wanted ports may be taken over. */
  ghost predicate TakenOver(before: seq<Rule>, now: seq<Rule>, want: map<string, string>)
  {
    && |before| <= |now| && Own(now[|before|..], want)
    && forall i | 0 <= i < |before| :: now[i] == before[i] || Adopted(before[i], now[i], want)
  }

  predicate Adopted(r: Rule, r': Rule, want: map<string, string>)
  {
    r.source == Anywhere && r.port in want && r' == Rule(r.port, Anywhere, Tagged(want[r.port]))
  }

  lemma TakesNothing(rules: seq<Rule>, want: map<string, string>)
    ensures TakenOver(rules, rules, want)
  {
    assert rules[|rules|..] == [];
  }

  /** Where the first loop stands after some of the wanted ports. */
  ghost predicate Adding(rules0: seq<Rule>, rules: seq<Rule>, want: map<string, string>, listed: bool,
                         handled: seq<string>, added: seq<Rule>)
  {
    && (listed ==> Extended(rules0, rules, want, added) && forall r | r in added :: r.port in handled)
    && (!listed ==> TakenOver(rules0, rules, want))
  }

  /** Every port handled so far is open, or was accounted for already. */
  ghost predicate Served(rules: seq<Rule>, handled: seq<string>, have: map<string, string>, byHand: set<string>)
  {
    forall p | p in handled :: p in have || p in byHand || Open(rules, p)
  }

  /** What the first loop reports of the ports it has been through. */
  ghost predicate AddReported(actions: seq<Action>, handled: seq<string>, have: map<string, string>,
                              byHand: set<string>)
  {
    && (forall p :: Allowed(p) in actions <==> p in handled && p !in have && p !in byHand)
    && (forall p :: Kept(p) in actions <==> p in handled && p !in have && p in byHand)
    && (forall p :: Deleted(p) !in actions && Refused(p) !in actions)
  }

  /** What the second loop reports of the ports it has been through. */
  ghost predicate RemoveReported(actions: seq<Action>, handled: seq<string>, want: map<string, string>,
                                 have: map<string, string>)
  {
    && (forall p :: Deleted(p) in actions <==> p in handled && p in Doomed(have, want))
    && (forall p :: Refused(p) in actions <==> p in handled && p in have && p !in want && p !in Doomed(have, want))
    && (forall p :: Allowed(p) !in actions && Kept(p) !in actions)
  }

  method AddMissing(ufw: Ufw, want: map<string, string>, have: map<string, string>, byHand: set<string>,
                    ghost listed: bool, dryRun: bool)
    returns (ok: bool, actions: seq<Action>, ghost added: seq<Rule>)
    requires listed ==> have == TagMap(ufw.rules) && byHand == ByHand(ufw.rules)
    modifies ufw
    ensures dryRun ==> ok && ufw.rules == old(ufw.rules) && ufw.log == old(ufw.log)
    ensures Adding(old(ufw.rules), ufw.rules, want, listed, Sorted(want.Keys), added)
    ensures ok && !dryRun ==> Served(ufw.rules, Sorted(want.Keys), have, byHand)
    ensures ufw.obliging ==> ok
    ensures Ops(actions, want) == [] <==> forall p | p in want :: p in have || p in byHand
    ensures !ok ==> Ops(actions, want) != []
    ensures ok ==> AddReported(actions, Sorted(want.Keys), have, byHand)
    ensures EndsSo(actions, ok) && (!dryRun ==> ufw.log == old(ufw.log) + Ops(actions, want))
  {
    hide *;
    ghost var rules0 := ufw.rules;
    var order := Sorted(want.Keys);
    ok, actions, added := true, [], [];
    NothingAdded(rules0, want, listed, order, have, byHand);
    OpsOfOne("", want);
    NothingTold();
    for i := 0 to |order|
      invariant ok
      invariant dryRun ==> ufw.rules == rules0 && ufw.log == old(ufw.log)
      invariant Adding(rules0, ufw.rules, want, listed, order[..i], added)
      invariant !dryRun ==> Served(ufw.rules, order[..i], have, byHand)
      invariant AddReported(actions, order[..i], have, byHand)
      invariant EndsSo(actions, true) && (!dryRun ==> ufw.log == old(ufw.log) + Ops(actions, want))
    {
      var port := order[i];
      OpsOfOne(port, want);
      assert order[..i + 1] == order[..i] + [port];
      ReportedMore(actions, order[..i], port, have, byHand);
      AfterNothing(rules0, ufw.rules, want, listed, order, i, added, have, byHand);
      if port in have {
        continue;
      }
      if port in byHand {
        OpsMore(actions, [Kept(port)], want);
        actions := actions + [Kept(port)];
        continue;
      }
      OpsMore(actions, [Allowed(port)], want);
      OpsMore(actions, [Allowed(port), Failed], want);
      assert actions + [Allowed(port), Failed] == actions + [Allowed(port)] + [Failed];
      actions := actions + [Allowed(port)];
      if !dryRun {
        ghost var was := ufw.rules;
        StatusShows(rules0, have, byHand, port, listed);
        ok := ufw.AllowPort(port, want[port]);
        added := AfterAllow(rules0, was, ufw.rules, want, listed, order, i, added, have, byHand);
        if !ok {
          AddingMore(rules0, ufw.rules, want, listed, order, i, added);
          return false, actions + [Failed], added;
        }
      }
    }
    assert order[..|order|] == order;
    NothingAllowed(actions, want, have, byHand);
  }

  lemma NothingAllowed(actions: seq<Action>, want: map<string, string>, have: map<string, string>, byHand: set<string>)
    requires AddReported(actions, Sorted(want.Keys), have, byHand)
    ensures Ops(actions, want) == [] <==> forall p | p in want :: p in have || p in byHand
  {
    OpsEmpty(actions, want);
    hide Ops;
    if p :| p in want && p !in have && p !in byHand {
      assert Allowed(p) in actions;
    }
  }

  lemma ReportedMore(actions: seq<Action>, handled: seq<string>, port: string, have: map<string, string>,
                     byHand: set<string>)
    requires AddReported(actions, handled, have, byHand)
    ensures port in have ==> AddReported(actions, handled + [port], have, byHand)
    ensures port !in have && port in byHand ==> AddReported(actions + [Kept(port)], handled + [port], have, byHand)
    ensures port !in have && port !in byHand ==> AddReported(actions + [Allowed(port)], handled + [port], have, byHand)
  {
    assert forall p :: p in handled + [port] <==> p in handled || p == port;
    assert forall a, b: Action :: b in actions + [a] <==> b in actions || b == a;
  }

  lemma RemovalReported(actions: seq<Action>, handled: seq<string>, port: string, want: map<string, string>,
                        have: map<string, string>)
    requires RemoveReported(actions, handled, want, have)
    ensures port in want ==> RemoveReported(actions, handled + [port], want, have)
    ensures port !in want && port in have && port !in Doomed(have, want) ==>
      RemoveReported(actions + [Refused(port)], handled + [port], want, have)
    ensures port in Doomed(have, want) ==> RemoveReported(actions + [Deleted(port)], handled + [port], want, have)
  {
    assert forall p :: p in handled + [port] <==> p in handled || p == port;
    assert forall a, b: Action :: b in actions + [a] <==> b in actions || b == a;
  }

  lemma StatusShows(rules: seq<Rule>, have: map<string, string>, byHand: set<string>, port: string, listed: bool)
    requires listed ==> have == TagMap(rules) && byHand == ByHand(rules)
    requires port !in have && port !in byHand
    ensures listed ==> Unserved(rules, port)
  {
  }

  lemma NothingAdded(rules0: seq<Rule>, want: map<string, string>, listed: bool, order: seq<string>,
                     have: map<string, string>, byHand: set<string>)
    ensures Adding(rules0, rules0, want, listed, order[..0], [])
    ensures Served(rules0, order[..0], have, byHand)
    ensures AddReported([], order[..0], have, byHand)
  {
    assert rules0 + [] == rules0 && rules0[|rules0|..] == [];
  }

  lemma AddingMore(rules0: seq<Rule>, rules: seq<Rule>, want: map<string, string>, listed: bool,
                   order: seq<string>, i: nat, added: seq<Rule>)
    requires i < |order| && Adding(rules0, rules, want, listed, order[..i + 1], added)
    ensures Adding(rules0, rules, want, listed, order, added)
  {
    hide Extended, TakenOver;
    assert forall p | p in order[..i + 1] :: p in order;
  }

  lemma AfterNothing(rules0: seq<Rule>, rules: seq<Rule>, want: map<string, string>, listed: bool,
                     order: seq<string>, i: nat, added: seq<Rule>, have: map<string, string>, byHand: set<string>)
    requires i < |order| && Adding(rules0, rules, want, listed, order[..i], added)
    ensures order[i] in order
    ensures Adding(rules0, rules, want, listed, order[..i + 1], added)
    ensures Served(rules, order[..i], have, byHand) && (order[i] in have || order[i] in byHand) ==>
      Served(rules, order[..i + 1], have, byHand)
  {
    hide Extended, TakenOver, Open;
    assert order[..i + 1] == order[..i] + [order[i]];
  }

  /** What `ufw allow` may do to the rules. */
  ghost predicate AllowedOn(was: seq<Rule>, now: seq<Rule>, port: string, tag: string)
  {
    || now == was
    || (!Open(was, port) && now == was + [Rule(port, Anywhere, Tagged(tag))])
    || (exists k: nat :: k < |was| && Blanket(was[k], port) && now == was[k := Rule(port, Anywhere, Tagged(tag))])
  }

  /** One addition, seen from the rules the reconciliation started with. */
  lemma AfterAllow(rules0: seq<Rule>, was: seq<Rule>, now: seq<Rule>, want: map<string, string>, listed: bool,
                   order: seq<string>, i: nat, added: seq<Rule>, have: map<string, string>, byHand: set<string>)
    returns (more: seq<Rule>)
    requires i < |order| && order[i] in want && Ascending(order)
    requires Adding(rules0, was, want, listed, order[..i], added)
    requires listed ==> Unserved(rules0, order[i])
    requires AllowedOn(was, now, order[i], want[order[i]])
    ensures Adding(rules0, now, want, listed, order[..i + 1], more)
    ensures Served(was, order[..i], have, byHand) && Open(now, order[i]) ==>
      Served(now, order[..i + 1], have, byHand)
  {
    hide TagMap, ByHand, Extended, TakenOver, Unserved, Ascending;
    assert order[..i + 1] == order[..i] + [order[i]];
    StaysOpen(was, now, order[i], want[order[i]]);
    if listed {
      more := ExtendedByOne(rules0, was, now, want, order, i, added);
    } else {
      more := added;
      TakenOverByOne(rules0, was, now, want, order[i]);
    }
  }

  lemma ExtendedByOne(rules0: seq<Rule>, was: seq<Rule>, now: seq<Rule>, want: map<string, string>,
                      order: seq<string>, i: nat, added: seq<Rule>)
    returns (more: seq<Rule>)
    requires i < |order| && order[i] in want && Ascending(order)
    requires Extended(rules0, was, want, added) && forall r | r in added :: r.port in order[..i]
    requires Unserved(rules0, order[i]) && AllowedOn(was, now, order[i], want[order[i]])
    ensures Extended(rules0, now, want, more) && forall r | r in more :: r.port in order[..i + 1]
  {
    hide TagMap, ByHand;
    var new_ := Rule(order[i], Anywhere, Tagged(want[order[i]]));
    NoBlanketYet(rules0, added, order, i);
    hide Ascending, Unserved;
    assert order[..i + 1] == order[..i] + [order[i]];
    more := added;
    if now != was {
      assert now == was + [new_];
      more := added + [new_];
      assert rules0 + added + [new_] == rules0 + more;
      assert forall r | r in more :: r in added || r == new_;
      forall k | 0 <= k < |added| ensures added[k].port != order[i] {
        assert added[k] in added;
      }
    }
  }

  /** A wanted port that was neither tagged nor served by hand has no blanket rule before its turn. */
  lemma NoBlanketYet(rules0: seq<Rule>, added: seq<Rule>, order: seq<string>, i: nat)
    requires i < |order| && Ascending(order) && Unserved(rules0, order[i])
    requires forall q | q in added :: q.port in order[..i]
    ensures order[i] !in order[..i]
    ensures forall r | r in rules0 + added :: !Blanket(r, order[i])
  {
    AscendingHasNoRepeats(order);
    hide Ascending;
    forall r | r in rules0 + added ensures !Blanket(r, order[i]) {
      assert r in rules0 || r in added;
      assert r.comment.Foreign? || r.comment.Tagged?;
    }
  }

  lemma TakenOverByOne(rules0: seq<Rule>, was: seq<Rule>, now: seq<Rule>, want: map<string, string>, port: string)
    requires TakenOver(rules0, was, want) && port in want && AllowedOn(was, now, port, want[port])
    ensures TakenOver(rules0, now, want)
  {
    var new_ := Rule(port, Anywhere, Tagged(want[port]));
    if now == was {
    } else if now == was + [new_] {
      assert now[|rules0|..] == was[|rules0|..] + [new_];
    } else {
      var k: nat :| k < |was| && Blanket(was[k], port) && now == was[k := new_];
      forall r | r in now[|rules0|..]
        ensures r.port in want && r.source == Anywhere && r.comment == Tagged(want[r.port])
      {
        var j :| |rules0| <= j < |now| && now[j] == r;
        assert was[j] in was[|rules0|..];
      }
    }
  }

  lemma StaysOpen(was: seq<Rule>, now: seq<Rule>, port: string, tag: string)
    requires AllowedOn(was, now, port, tag)
    ensures forall p | Open(was, p) :: Open(now, p)
  {
    forall p | Open(was, p) ensures Open(now, p) {
      var q :| q in was && Blanket(q, p);
      var j :| 0 <= j < |was| && was[j] == q;
      assert Blanket(now[j], p) && now[j] in now;
    }
  }

  method RemoveUnwanted(ufw: Ufw, want: map<string, string>, have: map<string, string>, dryRun: bool)
    returns (ok: bool, actions: seq<Action>, ghost removed: set<string>)
    modifies ufw
    ensures removed <= Doomed(have, want)
    ensures ufw.rules == Drop(old(ufw.rules), removed)
    ensures dryRun ==> ok && ufw.rules == old(ufw.rules) && ufw.log == old(ufw.log)
    ensures ok && !dryRun ==> removed == Doomed(have, want)
    ensures ufw.obliging ==> ok
    ensures Ops(actions, want) == [] <==> Doomed(have, want) == {}
    ensures !ok ==> Ops(actions, want) != []
    ensures ok ==> RemoveReported(actions, Sorted(have.Keys), want, have)
    ensures EndsSo(actions, ok) && (!dryRun ==> ufw.log == old(ufw.log) + Ops(actions, want))
  {
    hide *;
    OpsOfOne("", want);
    NothingTold();
    var order := Sorted(have.Keys);
    NothingReported(order, want, have);
    hide Sorted, Less, Drop, Doomed;
    DropNothing(ufw.rules);
    ok, actions, removed := true, [], {};
    for i := 0 to |order|
      invariant ok && removed <= Doomed(have, want)
      invariant ufw.rules == Drop(old(ufw.rules), removed)
      invariant dryRun ==> ufw.rules == old(ufw.rules) && ufw.log == old(ufw.log)
      invariant !dryRun ==> forall p | p in order[..i] && p in Doomed(have, want) :: p in removed
      invariant RemoveReported(actions, order[..i], want, have)
      invariant EndsSo(actions, true) && (!dryRun ==> ufw.log == old(ufw.log) + Ops(actions, want))
    {
      var port := order[i];
      OpsOfOne(port, want);
      RemovalReported(actions, order[..i], port, want, have);
      assert order[..i + 1] == order[..i] + [port] && port in order;
      DoomedIs(have, want, port);
      if port in want {
        continue;
      }
      if have[port] == SSH_TAG || port == SSH_RULE {
        OpsMore(actions, [Refused(port)], want);
        actions := actions + [Refused(port)];
        continue;
      }
      assert port in Doomed(have, want);
      OpsMore(actions, [Deleted(port)], want);
      OpsMore(actions, [Deleted(port), Failed], want);
      assert actions + [Deleted(port), Failed] == actions + [Deleted(port)] + [Failed];
      actions := actions + [Deleted(port)];
      if !dryRun {
        ok, removed := RemoveOne(ufw, port, old(ufw.rules), removed);
        if !ok {
          return false, actions + [Failed], removed;
        }
      }
    }
    assert order[..|order|] == order;
    AllDoomed(have, want, order);
    NothingRemoved(actions, order, want, have);
    assert !dryRun ==> removed == Doomed(have, want);
  }

  lemma NothingRemoved(actions: seq<Action>, order: seq<string>, want: map<string, string>, have: map<string, string>)
    requires RemoveReported(actions, order, want, have) && forall p | p in have :: p in order
    ensures Ops(actions, want) == [] <==> Doomed(have, want) == {}
  {
    OpsEmpty(actions, want);
    AllDoomed(have, want, order);
    hide Ops, Doomed;
    if Doomed(have, want) != {} {
      var p :| p in Doomed(have, want);
      assert Deleted(p) in actions;
    }
  }

  /** One deletion, which may have failed after it did its work. */
  method RemoveOne(ufw: Ufw, port: string, ghost rules0: seq<Rule>, ghost removed: set<string>)
    returns (ok: bool, ghost now: set<string>)
    requires ufw.rules == Drop(rules0, removed)
    modifies ufw
    ensures ufw.rules == Drop(rules0, now) && ufw.log == old(ufw.log) + [DeleteAllow(port, ok)]
    ensures now == removed + {port} || (now == removed && !ok)
    ensures ufw.obliging ==> ok
  {
    hide Drop;
    DropMore(rules0, removed, {port});
    ok := ufw.DeletePort(port);
    now := if !ok && ufw.rules == Drop(rules0, removed) then removed else removed + {port};
  }

  lemma DoomedIs(have: map<string, string>, want: map<string, string>, port: string)
    ensures port in Doomed(have, want) <==>
      port in have && port !in want && have[port] != SSH_TAG && port != SSH_RULE
  {
  }

  lemma AllDoomed(have: map<string, string>, want: map<string, string>, order: seq<string>)
    requires forall p | p in have :: p in order
    ensures forall p | p in Doomed(have, want) :: p in order
  {
  }

  lemma NothingReported(order: seq<string>, want: map<string, string>, have: map<string, string>)
    ensures RemoveReported([], order[..0], want, have)
  {
  }

  // ------------------------------------------------------------ what one reconciliation does

  /** The rules a reconciliation added at the end, and the ports it deleted. */
  datatype Edit = Edit(added: seq<Rule>, removed: set<string>)

  /** The status was read: additions, then deletions, as far as the run got. */
  ghost predicate EditedBy(before: seq<Rule>, now: seq<Rule>, want: map<string, string>, ok: bool, e: Edit)
  {
    && Extended(before, before + e.added, want, e.added)
    && e.removed <= Doomed(TagMap(before), want)
    && now == Drop(before + e.added, e.removed)
    && (ok || e.removed != {} ==> forall p | p in want && Unserved(before, p) :: Open(e.added, p))
    && (ok ==> e.removed == Doomed(TagMap(before), want))
  }

  /**
   What one reconciliation may make of the rules, cut short by a failure or not. When the status
   could not be read it only adds, and deletes nothing.
   */
  ghost predicate RulesAfter(before: seq<Rule>, now: seq<Rule>, want: map<string, string>, ok: bool, listed: bool)
  {
    if listed then exists e :: EditedBy(before, now, want, ok, e)
    else TakenOver(before, now, want) && (ok ==> forall p | p in want :: Open(now, p))
  }

  /** Nothing to add and nothing to delete. */
  predicate NothingToDo(rules: seq<Rule>, want: map<string, string>)
  {
    && (forall p | p in want :: p in TagMap(rules) || p in ByHand(rules))
    && Doomed(TagMap(rules), want) == {}
  }

  /** The whole report of a run that read the status and got through, or would have. */
  ghost predicate Reported(actions: seq<Action>, rules: seq<Rule>, want: map<string, string>)
  {
    && (forall p :: Allowed(p) in actions <==> p in want && Unserved(rules, p))
    && (forall p :: Kept(p) in actions <==> p in want && p !in TagMap(rules) && p in ByHand(rules))
    && (forall p :: Deleted(p) in actions <==> p in Doomed(TagMap(rules), want))
    && (forall p :: Refused(p) in actions <==> p in TagMap(rules) && p !in want && p !in Doomed(TagMap(rules), want))
  }

  lemma BothReported(first: seq<Action>, second: seq<Action>, rules: seq<Rule>, want: map<string, string>,
                     have: map<string, string>, byHand: set<string>)
    requires have == TagMap(rules) && byHand == ByHand(rules)
    requires AddReported(first, Sorted(want.Keys), have, byHand)
    requires RemoveReported(second, Sorted(have.Keys), want, have)
    ensures Reported(first + second, rules, want)
  {
    hide Sorted, Ascending, TagMap, ByHand;
    assert forall a :: a in first + second <==> a in first || a in second;
  }

  lemma TellsBoth(first: seq<Action>, second: seq<Action>, ok: bool, want: map<string, string>, log: seq<UfwOp>)
    requires EndsSo(first, true) && EndsSo(second, ok)
    ensures EndsSo(first + second, ok)
    ensures (log + Ops(first, want)) + Ops(second, want) == log + Ops(first + second, want)
    ensures Ops(first + second, want) == [] <==> Ops(first, want) == [] && Ops(second, want) == []
  {
    hide Ops;
    OpsPlus(first, second, want);
    if !ok {
      assert (first + second)[..|first + second| - 1] == first + second[..|second| - 1];
    }
  }

  /** Every port of every enabled protocol is open. */
  ghost predicate AllPortsOpen(rules: seq<Rule>, enabled: seq<Protocol>)
  {
    forall p, port | p in enabled && port in p.ports :: Open(rules, Key(port))
  }

  lemma PortsOpen(before: seq<Rule>, now: seq<Rule>, enabled: seq<Protocol>, listed: bool)
    requires RulesAfter(before, now, KeysOf(enabled), true, listed)
    requires listed ==> CanSettle(before, KeysOf(enabled))
    ensures AllPortsOpen(now, enabled)
  {
    hide KeysOf, Key, TakenOver, CanSettle;
    if listed {
      SettledIff(before, now, KeysOf(enabled));
    }
    forall p, port | p in enabled && port in p.ports ensures Open(now, Key(port)) {
      WantedAreClaimed(enabled, Key(port));
      assert Claims(p, Key(port));
    }
  }

  lemma NothingMeans(rules: seq<Rule>, want: map<string, string>)
    ensures NothingToDo(rules, want) <==>
      && (forall p | p in want :: p in TagMap(rules) || p in ByHand(rules))
      && Doomed(TagMap(rules), want) == {}
  {
  }

  /** Adds what is missing, and only when all of that worked deletes what is not wanted. */
  method Follow(ufw: Ufw, want: map<string, string>, have: map<string, string>, byHand: set<string>,
                ghost status: seq<Rule>, ghost listed: bool, dryRun: bool)
    returns (ok: bool, actions: seq<Action>)
    requires status == if listed then ufw.rules else []
    requires have == TagMap(status) && byHand == ByHand(status)
    modifies ufw
    ensures dryRun ==> ok && ufw.rules == old(ufw.rules) && ufw.log == old(ufw.log)
    ensures !dryRun ==> RulesAfter(old(ufw.rules), ufw.rules, want, ok, listed)
    ensures listed ==> (Ops(actions, want) == [] <==> NothingToDo(old(ufw.rules), want))
    ensures ufw.obliging ==> ok
    ensures ok ==> Reported(actions, status, want)
    ensures EndsSo(actions, ok) && (!dryRun ==> ufw.log == old(ufw.log) + Ops(actions, want))
  {
    hide *;
    NothingMeans(ufw.rules, want);
    ghost var before, log := ufw.rules, ufw.log;
    ghost var added;
    ghost var removed := {};
    ok, actions, added := AddMissing(ufw, want, have, byHand, listed, dryRun);
    ghost var mid := ufw.rules;
    var served := ok;
    if served {
      var more;
      ok, more, removed := RemoveUnwanted(ufw, want, have, dryRun);
      if ok {
        BothReported(actions, more, status, want, have, byHand);
      }
      TellsBoth(actions, more, ok, want, log);
      actions := actions + more;
    } else {
      DropNothing(mid);
    }
    if !dryRun {
      RunIs(before, mid, ufw.rules, want, have, byHand, listed, added, removed, served, ok);
    }
  }

  method ReconcileRules(ufw: Ufw, enabled: seq<Protocol>, dryRun: bool)
    returns (ok: bool, listed: bool, actions: seq<Action>)
    requires AllKnown(enabled)
    modifies ufw
    ensures dryRun ==> ufw.rules == old(ufw.rules) && ufw.log == old(ufw.log)
    ensures !ufw.installed ==> ok && ufw.rules == old(ufw.rules) && ufw.log == old(ufw.log)
    ensures ufw.installed && !dryRun ==> RulesAfter(old(ufw.rules), ufw.rules, KeysOf(enabled), ok, listed)
    ensures listed ==> (Ops(actions, KeysOf(enabled)) == [] <==> NothingToDo(old(ufw.rules), KeysOf(enabled)))
    ensures ufw.obliging ==> ok && (ufw.installed ==> listed)
    ensures ufw.installed && ok && !dryRun && (listed ==> CanSettle(old(ufw.rules), KeysOf(enabled))) ==>
      AllPortsOpen(ufw.rules, enabled)
    ensures ufw.installed && ok ==> Reported(actions, if listed then old(ufw.rules) else [], KeysOf(enabled))
    ensures EndsSo(actions, ok) && (!dryRun ==> ufw.log == old(ufw.log) + Ops(actions, KeysOf(enabled)))
  {
    hide CanSettle, AllPortsOpen, Reported, AddReported, RemoveReported, EndsSo, Ops;
    OpsOfOne("", KeysOf(enabled));
    NothingTold();
    if !ufw.installed {
      return true, false, [];
    }
    DesiredIsClear(enabled);
    var desired := Desired(enabled);
    var want := desired.value;
    hide Desired, KeysOf, Clear, Drop, TagMap, ByHand, NoDuplicates, Adding, Served, Doomed, RulesAfter, Sorted;
    listed := *;
    listed := listed || ufw.obliging;
    var status := if listed then ufw.rules else [];
    var have := ReadTagged(status);
    var byHand := ReadUntagged(status);
    ok, actions := Follow(ufw, want, have, byHand, status, listed, dryRun);
    if !dryRun && ok && (listed ==> CanSettle(old(ufw.rules), want)) {
      PortsOpen(old(ufw.rules), ufw.rules, enabled, listed);
    }
  }

  lemma RunIs(before: seq<Rule>, mid: seq<Rule>, now: seq<Rule>, want: map<string, string>, have: map<string, string>,
              byHand: set<string>, listed: bool, added: seq<Rule>, removed: set<string>, served: bool, ok: bool)
    requires have == TagMap(if listed then before else []) && byHand == ByHand(if listed then before else [])
    requires Adding(before, mid, want, listed, Sorted(want.Keys), added)
    requires served ==> Served(mid, Sorted(want.Keys), have, byHand)
    requires removed <= Doomed(have, want) && now == Drop(mid, removed)
    requires (ok ==> served && removed == Doomed(have, want)) && (!served ==> removed == {})
    ensures RulesAfter(before, now, want, ok, listed)
  {
    if listed {
      hide Sorted, TagMap, ByHand, Drop, Doomed, Ascending;
      if served {
        OpenedByAdding(before, added, want, have, byHand);
      }
      assert EditedBy(before, now, want, ok, Edit(added, removed));
    } else {
      EmptyViews();
      hide Sorted, TagMap, ByHand, TakenOver, Ascending;
      DropNothing(mid);
      assert removed == {};
    }
  }

  lemma OpenedByAdding(before: seq<Rule>, added: seq<Rule>, want: map<string, string>, have: map<string, string>,
                       byHand: set<string>)
    requires have == TagMap(before) && byHand == ByHand(before)
    requires Served(before + added, Sorted(want.Keys), have, byHand)
    ensures forall p | p in want && Unserved(before, p) :: Open(added, p)
  {
    hide Sorted, TagMap, ByHand, Ascending;
    forall p | p in want && Unserved(before, p) ensures Open(added, p) {
      assert p in Sorted(want.Keys);
      var r :| r in before + added && Blanket(r, p);
      assert r in before ==> r.comment.Foreign? || r.comment.Tagged?;
      assert r in added;
    }
  }

  lemma EmptyViews()
    ensures TagMap([]) == map[] && ByHand([]) == {}
  {
  }

  // ------------------------------------------------------------ other people's rules stay

  /** Whether the status could be read decides which rules are at stake. */
  ghost predicate Spares(rules: seq<Rule>, want: map<string, string>, listed: bool)
  {
    if listed then SparesListed(rules, want) else SparesUnlisted(rules, want)
  }

  /** A run spared the protected rules exactly when it deleted no blanket one and took over none of them. */
  lemma ListedRunSparesIff(before: seq<Rule>, now: seq<Rule>, want: map<string, string>, ok: bool, e: Edit)
    requires Clear(want) && EditedBy(before, now, want, ok, e)
    ensures Untouchables(now) == Untouchables(before) <==>
      forall r | r in before && r.source == Anywhere && r.port in e.removed :: !Untouchable(r)
  {
    hide Drop, TagMap, Untouchables, Doomed, Unserved, Open, NoDuplicates;
    OwnIsTouchable(e.added, want);
    UntouchablesPlus(before, e.added);
    UntouchablesNone(e.added);
    DropSparesIff(before + e.added, e.removed);
    assert forall r | r in before :: r in before + e.added;
    assert forall r | r in before + e.added :: r in before || r in e.added;
  }

  lemma OwnIsTouchable(added: seq<Rule>, want: map<string, string>)
    requires Clear(want) && Own(added, want)
    ensures forall r | r in added :: !Untouchable(r)
  {
  }

  lemma {:induction false} TakenOverSparesIff(before: seq<Rule>, now: seq<Rule>, want: map<string, string>)
    requires Clear(want) && TakenOver(before, now, want)
    ensures |Untouchables(now)| <= |Untouchables(before)|
    ensures Untouchables(now) == Untouchables(before) <==>
      forall i | 0 <= i < |before| && Untouchable(before[i]) :: now[i] == before[i]
  {
    hide Clear;
    if before == [] {
      assert now[0..] == now;
      OwnIsTouchable(now, want);
      UntouchablesNone(now);
    } else {
      TakenOverTail(before, now, want);
      TakenOverSparesIff(before[1..], now[1..], want);
      HeadSparesIff(before, now, want);
      assert forall i | 1 <= i < |before| :: before[i] == before[1..][i - 1] && now[i] == now[1..][i - 1];
      assert forall i | 0 <= i < |before| - 1 :: before[1..][i] == before[i + 1] && now[1..][i] == now[i + 1];
    }
  }

  lemma TakenOverTail(before: seq<Rule>, now: seq<Rule>, want: map<string, string>)
    requires before != [] && TakenOver(before, now, want)
    ensures now != [] && TakenOver(before[1..], now[1..], want)
    ensures now[0] == before[0] || Adopted(before[0], now[0], want)
  {
    assert now[1..][|before| - 1..] == now[|before|..];
  }

  /** One rule kept or taken over, before a tail that loses protected rules or keeps them all. */
  lemma HeadSparesIff(before: seq<Rule>, now: seq<Rule>, want: map<string, string>)
    requires before != [] && now != [] && Clear(want)
    requires now[0] == before[0] || Adopted(before[0], now[0], want)
    requires |Untouchables(now[1..])| <= |Untouchables(before[1..])|
    ensures |Untouchables(now)| <= |Untouchables(before)|
    ensures Untouchables(now) == Untouchables(before) <==>
      Untouchables(now[1..]) == Untouchables(before[1..]) && (Untouchable(before[0]) ==> now[0] == before[0])
  {
    var a, b := Untouchables(now[1..]), Untouchables(before[1..]);
    var x, y := now[0], before[0];
    assert Untouchables(now) == (if Untouchable(x) then [x] else []) + a;
    assert Untouchables(before) == (if Untouchable(y) then [y] else []) + b;
    assert [] + a == a && [] + b == b && ([x] + a)[1..] == a && ([y] + b)[1..] == b;
    if x != y {
      assert !Untouchable(x);
      assert |[y] + b| > |a|;
    }
  }

  /**
   Over every run, cut short anywhere: rules by hand and rules for ssh are always as they were
   exactly when none of them is a blanket rule on a port that may be deleted, or, the status not
   being readable, on a port that is wanted.
   */
  lemma EveryRunSparesIff(before: seq<Rule>, want: map<string, string>, listed: bool)
    requires Clear(want)
    ensures (forall now, ok | RulesAfter(before, now, want, ok, listed) :: Untouchables(now) == Untouchables(before))
      <==> Spares(before, want, listed)
  {
    hide Untouchables, RulesAfter, SparesListed, SparesUnlisted, Clear;
    if Spares(before, want, listed) {
      forall now, ok | RulesAfter(before, now, want, ok, listed) ensures Untouchables(now) == Untouchables(before) {
        RunSpares(before, now, want, ok, listed);
      }
    } else if listed {
      LosingRun(before, want);
    } else {
      AdoptingRun(before, want);
    }
  }

  lemma RunSpares(before: seq<Rule>, now: seq<Rule>, want: map<string, string>, ok: bool, listed: bool)
    requires Clear(want) && Spares(before, want, listed) && RulesAfter(before, now, want, ok, listed)
    ensures Untouchables(now) == Untouchables(before)
  {
    hide Untouchables, Drop, TagMap, Doomed, Clear;
    if listed {
      var e :| EditedBy(before, now, want, ok, e);
      ListedRunSparesIff(before, now, want, ok, e);
    } else {
      TakenOverSparesIff(before, now, want);
      forall i | 0 <= i < |before| && Untouchable(before[i]) ensures now[i] == before[i] {
        assert before[i] in before;
      }
    }
  }

  /** The run that adds what is wanted and then deletes the protected rule with the rest. */
  lemma LosingRun(before: seq<Rule>, want: map<string, string>)
    requires Clear(want) && !SparesListed(before, want)
    ensures exists now :: RulesAfter(before, now, want, true, true) && Untouchables(now) != Untouchables(before)
  {
    hide Untouchables, Drop, TagMap, ByHand, Doomed, Clear;
    var added := MissingRules(before, want, Sorted(want.Keys));
    var e := Edit(added, Doomed(TagMap(before), want));
    var now := Drop(before + added, e.removed);
    MissingAreExtended(before, want);
    assert EditedBy(before, now, want, true, e);
    ListedRunSparesIff(before, now, want, true, e);
    assert RulesAfter(before, now, want, true, true);
  }

  function MissingRules(before: seq<Rule>, want: map<string, string>, ports: seq<string>): (added: seq<Rule>)
    requires forall p | p in ports :: p in want
    ensures Own(added, want)
    ensures forall r | r in added :: r.port in ports && Unserved(before, r.port)
    ensures forall p | p in ports && Unserved(before, p) :: Rule(p, Anywhere, Tagged(want[p])) in added
  {
    if ports == [] then [] else
      assert ports == [ports[0]] + ports[1..];
      var rest := MissingRules(before, want, ports[1..]);
      if Unserved(before, ports[0]) then [Rule(ports[0], Anywhere, Tagged(want[ports[0]]))] + rest else rest
  }

  lemma {:induction false} MissingAreDistinct(before: seq<Rule>, want: map<string, string>, ports: seq<string>)
    requires NoRepeats(ports) && forall p | p in ports :: p in want
    ensures NoDuplicates(MissingRules(before, want, ports))
  {
    hide Unserved;
    if ports != [] {
      MissingAreDistinct(before, want, ports[1..]);
      var rest := MissingRules(before, want, ports[1..]);
      assert ports[0] !in ports[1..];
      forall j | 0 <= j < |rest| ensures rest[j].port != ports[0] {
        assert rest[j] in rest;
      }
    }
  }

  lemma MissingAreExtended(before: seq<Rule>, want: map<string, string>)
    ensures var added := MissingRules(before, want, Sorted(want.Keys));
      && Extended(before, before + added, want, added)
      && forall p | p in want && Unserved(before, p) :: Open(added, p)
  {
    hide TagMap, ByHand, Unserved, MissingRules;
    var ports := Sorted(want.Keys);
    AscendingHasNoRepeats(ports);
    hide Sorted, Ascending;
    MissingAreDistinct(before, want, ports);
    forall p | p in want && Unserved(before, p) ensures Open(MissingRules(before, want, ports), p) {
      assert Blanket(Rule(p, Anywhere, Tagged(want[p])), p);
    }
  }

  /** The status cannot be read, and the one rule at stake is taken over. */
  lemma AdoptingRun(before: seq<Rule>, want: map<string, string>)
    requires Clear(want) && !SparesUnlisted(before, want)
    ensures exists now :: RulesAfter(before, now, want, false, false) && Untouchables(now) != Untouchables(before)
  {
    hide Untouchables, Clear;
    var r :| r in before && r.source == Anywhere && r.port in want && Untouchable(r);
    var i :| 0 <= i < |before| && before[i] == r;
    var now := before[i := Rule(r.port, Anywhere, Tagged(want[r.port]))];
    assert now[|before|..] == [];
    assert TakenOver(before, now, want);
    OwnIsTouchable([now[i]], want);
    assert now[i] in [now[i]];
    TakenOverSparesIff(before, now, want);
    assert RulesAfter(before, now, want, false, false);
  }

  /**
   A rule somebody added by hand, on rules as this tool writes them: while the status cannot be
   read, turning the protocol on takes it over, and turning it off again deletes it.
   */
  lemma UnreadStatusLosesForeignRule(tag: string)
    requires tag != SSH_TAG
    ensures var mine := [Rule("53/udp", Anywhere, Foreign("mine"))];
      var ours := [Rule("53/udp", Anywhere, Tagged(tag))];
      && NoDuplicates(mine) && AllTaggedAreBlanket(mine) && SparesListed(mine, map["53/udp" := tag])
      && RulesAfter(mine, ours, map["53/udp" := tag], true, false)
      && RulesAfter(ours, [], map[], true, true)
      && Untouchables(mine) == mine && Untouchables(ours) == []
  {
    var mine := [Rule("53/udp", Anywhere, Foreign("mine"))];
    var ours := [Rule("53/udp", Anywhere, Tagged(tag))];
    assert mine[1..] == [] && ours[1..] == [] && mine[..0] == [] && ours[..0] == [];
    assert "53/udp" != SSH_RULE by { assert "53/udp"[0] == '5'; }
    assert TagMap(mine) == map[] && TagMap(ours) == map["53/udp" := tag];
    assert ours[0] in ours && Blanket(ours[0], "53/udp");
    var e := Edit([], {"53/udp"});
    assert Doomed(TagMap(ours), map[]) == e.removed;
    assert ours + [] == ours && Drop(ours, e.removed) == [];
    assert EditedBy(ours, [], map[], true, e);
  }

  // ------------------------------------------------------------------- what success means

  /** Every tagged rule is a blanket one, as this tool writes them. */
  predicate AllTaggedAreBlanket(rules: seq<Rule>)
  {
    forall r | r in rules && r.comment.Tagged? :: r.source == Anywhere
  }

  /** Every wanted rule is open, and every tagged rule is wanted or protected. */
  ghost predicate Settled(rules: seq<Rule>, want: map<string, string>)
  {
    && (forall p | p in want :: Open(rules, p))
    && (forall r | r in rules && r.comment.Tagged? :: r.port in want || Untouchable(r))
  }

  /**
   What success needs of the rules beforehand: a wanted port that carries a tag is open, and a
   tagged rule nobody wants is a blanket one on a port that will be deleted.
   */
  ghost predicate CanSettle(rules: seq<Rule>, want: map<string, string>)
  {
    && (forall p | p in want && p in TagMap(rules) :: Open(rules, p))
    && (forall r | r in rules && r.comment.Tagged? && r.port !in want && !Untouchable(r) ::
          r.source == Anywhere && r.port in Doomed(TagMap(rules), want))
  }

  /** A run that read the status and got through settles the rules exactly when they could be settled. */
  lemma SettledIff(before: seq<Rule>, now: seq<Rule>, want: map<string, string>)
    requires RulesAfter(before, now, want, true, true)
    ensures Settled(now, want) <==> CanSettle(before, want)
  {
    hide Drop, TagMap, ByHand, NoDuplicates, Doomed, Untouchable;
    var e :| EditedBy(before, now, want, true, e);
    DoomedIsUnwanted(before, want);
    OpenAfter(before, now, want, e);
    TaggedAfter(before, now, want, e);
  }

  lemma DoomedIsUnwanted(rules: seq<Rule>, want: map<string, string>)
    ensures Doomed(TagMap(rules), want) !! want.Keys
  {
  }

  lemma OpenAfter(before: seq<Rule>, now: seq<Rule>, want: map<string, string>, e: Edit)
    requires EditedBy(before, now, want, true, e) && Doomed(TagMap(before), want) !! want.Keys
    ensures (forall p | p in want :: Open(now, p)) <==> (forall p | p in want && p in TagMap(before) :: Open(before, p))
  {
    hide Drop, TagMap, NoDuplicates, Doomed;
    forall p | p in want ensures Open(now, p) <==> p !in TagMap(before) || Open(before, p) {
      if Open(now, p) && p in TagMap(before) {
        var r :| r in now && Blanket(r, p);
        assert r in before + e.added && r !in e.added;
      }
      if Open(before, p) {
        var r :| r in before && Blanket(r, p);
        assert r in before + e.added && r in now;
      } else if Unserved(before, p) {
        var r :| r in e.added && Blanket(r, p);
        assert r in before + e.added && r in now;
      }
    }
  }

  lemma TaggedAfter(before: seq<Rule>, now: seq<Rule>, want: map<string, string>, e: Edit)
    requires EditedBy(before, now, want, true, e)
    ensures (forall r | r in now && r.comment.Tagged? :: r.port in want || Untouchable(r)) <==>
      (forall r | r in before && r.comment.Tagged? && r.port !in want && !Untouchable(r) ::
         r.source == Anywhere && r.port in Doomed(TagMap(before), want))
  {
    hide Drop, TagMap, ByHand, NoDuplicates, Doomed, Untouchable;
    assert forall r :: r in now <==> (r in before || r in e.added) && !(r.source == Anywhere && r.port in e.removed);
  }

  /** A settled table leaves the next run nothing to do, whoever wrote its rules. */
  lemma SettledIsIdle(rules: seq<Rule>, want: map<string, string>)
    requires Settled(rules, want)
    ensures NothingToDo(rules, want)
  {
    hide TagMap, ByHand;
    forall p | p in want ensures p in TagMap(rules) || p in ByHand(rules) {
      var r :| r in rules && Blanket(r, p);
      assert r.comment.Tagged? || r.comment.Foreign?;
    }
    forall p | p in TagMap(rules) ensures p !in Doomed(TagMap(rules), want) {
      var r :| r in rules && r.port == p && r.comment == Tagged(TagMap(rules)[p]);
    }
  }

  function Narrow(rules: seq<Rule>): seq<Rule>
  {
    if rules == [] then [] else (if rules[0].source == Anywhere then [] else [rules[0]]) + Narrow(rules[1..])
  }

  lemma {:induction false} LastTagAfterDrop(rules: seq<Rule>, ports: set<string>, port: string)
    ensures LastTag(Drop(rules, ports), port) ==
      LastTag(if port in ports then Narrow(rules) else rules, port)
  {
    if rules != [] {
      LastTagAfterDrop(rules[1..], ports, port);
      var rest, narrow := Drop(rules[1..], ports), Narrow(rules[1..]);
      assert ([rules[0]] + rest)[1..] == rest && ([rules[0]] + narrow)[1..] == narrow;
      assert [] + rest == rest && [] + narrow == narrow;
    }
  }

  lemma {:induction false} LastTagPlus(a: seq<Rule>, b: seq<Rule>, port: string)
    requires forall r | r in b :: r.port != port
    ensures LastTag(a + b, port) == LastTag(a, port)
  {
    if a == [] {
      assert a + b == b;
      if b != [] {
        LastTagPlus([], b[1..], port);
        assert [] + b[1..] == b[1..] && b[0] in b;
      }
    } else {
      assert (a + b)[1..] == a[1..] + b;
      LastTagPlus(a[1..], b, port);
    }
  }

  /** A tag that a deletion leaves behind on its port, because it sits on a narrow rule. */
  predicate TagSurvives(rules: seq<Rule>, port: string)
  {
    LastTag(Narrow(rules), port).Some? && LastTag(Narrow(rules), port) != Some(SSH_TAG)
  }

  predicate NoTagSurvives(rules: seq<Rule>, want: map<string, string>)
  {
    forall p | p in Doomed(TagMap(rules), want) :: !TagSurvives(rules, p)
  }

  /** After a run that read the status and got through, a rerun does nothing iff no deleted port keeps a tag. */
  lemma RerunIsIdleIff(before: seq<Rule>, now: seq<Rule>, want: map<string, string>)
    requires RulesAfter(before, now, want, true, true)
    ensures NothingToDo(now, want) <==> NoTagSurvives(before, want)
  {
    hide Drop, TagMap, ByHand, NoDuplicates, LastTag, Narrow, TagSurvives;
    var e :| EditedBy(before, now, want, true, e);
    WantedAreServed(before, now, want, e);
    forall p ensures p in Doomed(TagMap(now), want) <==> p in Doomed(TagMap(before), want) && TagSurvives(before, p) {
      StillDoomedIff(before, now, want, e, p);
    }
  }

  lemma StillDoomedIff(before: seq<Rule>, now: seq<Rule>, want: map<string, string>, e: Edit, p: string)
    requires EditedBy(before, now, want, true, e)
    ensures p in Doomed(TagMap(now), want) <==> p in Doomed(TagMap(before), want) && TagSurvives(before, p)
  {
    hide Drop, TagMap, ByHand, NoDuplicates, LastTag, Narrow, Unserved, Open;
    if p !in want {
      TagMapIsLastTag(now, p);
      TagMapIsLastTag(before, p);
      LastTagAfterDrop(before + e.added, e.removed, p);
      LastTagPlus(before, e.added, p);
      NarrowPlus(before, e.added);
    }
  }

  lemma {:induction false} NarrowPlus(a: seq<Rule>, b: seq<Rule>)
    requires forall r | r in b :: r.source == Anywhere
    ensures Narrow(a + b) == Narrow(a)
  {
    if a == [] {
      assert a + b == b;
      if b != [] {
        NarrowPlus([], b[1..]);
        assert [] + b[1..] == b[1..] && b[0] in b;
      }
    } else {
      assert (a + b)[1..] == a[1..] + b;
      NarrowPlus(a[1..], b);
    }
  }

  lemma WantedAreServed(before: seq<Rule>, now: seq<Rule>, want: map<string, string>, e: Edit)
    requires EditedBy(before, now, want, true, e)
    ensures forall p | p in want :: p in TagMap(now) || p in ByHand(now)
  {
    DoomedIsUnwanted(before, want);
    hide Drop, TagMap, ByHand, NoDuplicates, Doomed;
    forall p | p in want ensures p in TagMap(now) || p in ByHand(now) {
      if p in TagMap(before) {
        var r :| r in before && r.port == p && r.comment.Tagged?;
        assert r in before + e.added && r in now;
      } else if p in ByHand(before) {
        var r :| r in before && Blanket(r, p) && r.comment.Foreign?;
        assert r in before + e.added && r in now;
      } else {
        var r :| r in e.added && Blanket(r, p);
        assert r in before + e.added && r in now;
      }
    }
  }

  /** Two runs that read the status and got through: the second does nothing iff no deleted port kept a tag. */
  method ReconcileRulesTwice(ufw: Ufw, enabled: seq<Protocol>) returns (idle: bool, bothGotThrough: bool)
    requires AllKnown(enabled) && ufw.installed
    modifies ufw
    ensures bothGotThrough ==> (idle <==> NoTagSurvives(old(ufw.rules), KeysOf(enabled)))
    ensures ufw.obliging ==> bothGotThrough
    ensures bothGotThrough && CanSettle(old(ufw.rules), KeysOf(enabled)) ==> idle && Settled(ufw.rules, KeysOf(enabled))
  {
    hide KeysOf, RulesAfter, NothingToDo, CanSettle, NoTagSurvives, Settled;
    ghost var before := ufw.rules;
    var ok, listed, actions := ReconcileRules(ufw, enabled, false);
    ghost var mid := ufw.rules;
    var ops := |ufw.log|;
    ghost var log := ufw.log;
    var ok2, listed2, actions2 := ReconcileRules(ufw, enabled, false);
    idle := |ufw.log| == ops;
    bothGotThrough := ok && listed && ok2 && listed2;
    if bothGotThrough {
      RerunIsIdleIff(before, mid, KeysOf(enabled));
      SettledIff(before, mid, KeysOf(enabled));
      SettledIff(mid, ufw.rules, KeysOf(enabled));
      if CanSettle(before, KeysOf(enabled)) {
        SettledIsIdle(mid, KeysOf(enabled));
        SettledCanSettle(mid, KeysOf(enabled));
      }
    }
  }

  lemma SettledCanSettle(rules: seq<Rule>, want: map<string, string>)
    requires Settled(rules, want)
    ensures CanSettle(rules, want)
  {
  }

  // ----------------------------------------------------------- rules as this tool writes them

  lemma SameKeySameRule(rules: seq<Rule>, i: nat, j: nat)
    requires NoDuplicates(rules) && i < |rules| && j < |rules|
    requires rules[i].port == rules[j].port && rules[i].source == rules[j].source
    ensures i == j
  {
  }

  lemma OneBlanketRule(rules: seq<Rule>, q: Rule, r: Rule)
    requires NoDuplicates(rules) && q in rules && r in rules && q.port == r.port && q.source == r.source
    ensures q == r
  {
    var i :| 0 <= i < |rules| && rules[i] == q;
    var j :| 0 <= j < |rules| && rules[j] == r;
    SameKeySameRule(rules, i, j);
  }

  /** With one rule to a port and source, a tagged blanket rule is what its port is read as. */
  lemma TagIsItsOwn(rules: seq<Rule>, r: Rule)
    requires NoDuplicates(rules) && AllTaggedAreBlanket(rules) && r in rules && r.comment.Tagged?
    ensures r.port in TagMap(rules) && TagMap(rules)[r.port] == r.comment.tag
  {
    hide NoDuplicates;
    var q :| q in rules && q.port == r.port && q.comment == Tagged(TagMap(rules)[r.port]);
    OneBlanketRule(rules, q, r);
  }

  /** Where tags sit on blanket rules only, a readable status spares what is protected and success settles. */
  lemma BlanketTagsAreSafe(rules: seq<Rule>, want: map<string, string>)
    requires NoDuplicates(rules) && AllTaggedAreBlanket(rules)
    ensures SparesListed(rules, want) && CanSettle(rules, want)
  {
    hide NoDuplicates, TagMap;
    forall r | r in rules && r.source == Anywhere && r.port in Doomed(TagMap(rules), want)
      ensures !Untouchable(r)
    {
      var q :| q in rules && q.port == r.port && q.comment.Tagged?;
      OneBlanketRule(rules, q, r);
      TagIsItsOwn(rules, r);
    }
    forall p | p in want && p in TagMap(rules) ensures Open(rules, p) {
      var q :| q in rules && q.port == p && q.comment.Tagged?;
      assert Blanket(q, p);
    }
    forall r | r in rules && r.comment.Tagged? && r.port !in want && !Untouchable(r)
      ensures r.port in Doomed(TagMap(rules), want)
    {
      TagIsItsOwn(rules, r);
    }
  }

  /** And every run, cut short or not, leaves rules of that kind. */
  lemma BlanketTagsStay(before: seq<Rule>, now: seq<Rule>, want: map<string, string>, ok: bool)
    requires NoDuplicates(before) && AllTaggedAreBlanket(before) && RulesAfter(before, now, want, ok, true)
    ensures NoDuplicates(now) && AllTaggedAreBlanket(now)
  {
    hide Drop, TagMap, ByHand, Doomed, Open;
    var e :| EditedBy(before, now, want, ok, e);
    forall i, j | 0 <= i < |before| && 0 <= j < |e.added| ensures before[i].port != e.added[j].port
      || before[i].source != e.added[j].source
    {
      assert before[i] in before && e.added[j] in e.added;
      assert Unserved(before, e.added[j].port);
      assert before[i].comment.Foreign? || before[i].comment.Tagged?;
    }
    NoDuplicatesPlus(before, e.added);
    DropKeepsOrder(before + e.added, e.removed);
    assert forall r | r in now :: r in before || r in e.added;
  }

  lemma NoDuplicatesPlus(a: seq<Rule>, b: seq<Rule>)
    requires NoDuplicates(a) && NoDuplicates(b)
    requires forall i, j | 0 <= i < |a| && 0 <= j < |b| :: a[i].port != b[j].port || a[i].source != b[j].source
    ensures NoDuplicates(a + b)
  {
  }

  /**
   A tagged rule for one network beside a blanket rule somebody added by hand on the same port:
   turning the protocol off deletes the one that was added by hand.
   */
  lemma NarrowTagLosesForeignRule(want: map<string, string>)
    requires "53/udp" !in want
    ensures var a, b := Rule("53/udp", Anywhere, Foreign("mine")), Rule("53/udp", Only("10.0.0.0/8"), Tagged("dnstt"));
      NoDuplicates([a, b]) && !SparesListed([a, b], want)
  {
    var a := Rule("53/udp", Anywhere, Foreign("mine"));
    var b := Rule("53/udp", Only("10.0.0.0/8"), Tagged("dnstt"));
    var rules := [a, b];
    assert rules[..1] == [a] && [a][..0] == [];
    assert TagMap([a]) == map[];
    assert TagMap(rules) == map["53/udp" := "dnstt"];
    assert "53/udp" != SSH_RULE && "dnstt" != SSH_TAG by { assert "53/udp"[0] == '5' && "dnstt"[0] == 'd'; }
    assert "53/udp" in Doomed(TagMap(rules), want);
    assert a in rules && Untouchable(a);
  }

  /**
   A tagged rule for one network, alone: while its port is wanted, the port stays closed to
   everybody else and nothing is done about it; while it is not, it is deleted over and over.
   */
  lemma NarrowTagNeverSettles(want: map<string, string>)
    ensures var rules := [Rule("53/udp", Only("10.0.0.0/8"), Tagged("dnstt"))];
      && NoDuplicates(rules) && SparesListed(rules, want) && !CanSettle(rules, want)
      && ("53/udp" !in want ==> "53/udp" in Doomed(TagMap(rules), want) && TagSurvives(rules, "53/udp"))
  {
    var r := Rule("53/udp", Only("10.0.0.0/8"), Tagged("dnstt"));
    assert [r][..0] == [] && [r][1..] == [];
    assert TagMap([r]) == map["53/udp" := "dnstt"];
    assert "53/udp" != SSH_RULE && "dnstt" != SSH_TAG by { assert "53/udp"[0] == '5' && "dnstt"[0] == 'd'; }
    assert Narrow([r]) == [r] && LastTag([r], "53/udp") == Some("dnstt");
    assert r in [r] && !Open([r], "53/udp");
  }
}
