/**
 `apply`: render, validate, promote, converge. A step that fails ends the apply where it is,
 and a kill can end it between any two steps; the swap of the link and the saving of the mark
 count as one step.
 */
module Cli {
  import opened Wrappers
  import opened Strings
  import opened Users
  import opened Registry
  import opened Rendering
  import opened RenderInputs
  import opened TreeDiff
  import opened Containers
  import opened Compose
  import opened Convergence
  import opened Generations
  import opened Stores
  import opened Reconcile
  import opened Ikev2Container
  import Bootstrap
  import Firewall
  import Pool
  import Forwarding
  import Readiness

  datatype Shared = Shared(
    firewalled: bool,
    rules: seq<Firewall.Rule>,
    forward: Forwarding.Chain,
    seen: seq<Readiness.Observation>,
    now: int)

  /** What an apply reports of the steps after the containers came up. */
  datatype Verdict = Verdict(
    teardownOk: bool,
    portsReady: bool,
    notRunning: Option<set<string>>,
    firewallOk: bool,
    firewallRead: bool,
    forwardingOk: bool,
    ikev2Up: bool,
    iface: string,
    net: string)

  /** The four verdicts that decide whether the last line says OK. */
  predicate NothingFailed(v: Verdict)
  {
    v.teardownOk && v.portsReady && v.firewallOk && v.forwardingOk
  }

  /** What answers when the host is asked for its default route, and the ikev2 container for its pool. */
  class Surroundings {
    var device: string
    var answers: bool
    /** There is a default route whenever somebody asks. */
    const routed: bool
    /** The container's ikev2.conf and its VPN_XAUTH_NET; None when it has none to show. */
    var conf: Option<string>
    var xauth: Option<string>

    constructor (device: string, routed: bool, conf: Option<string>, xauth: Option<string>)
      ensures Route() == Some(device) && this.routed == routed && this.conf == conf && this.xauth == xauth
    {
      this.device, this.answers, this.routed, this.conf, this.xauth := device, true, routed, conf, xauth;
    }

    /** The interface of the default route. */
    function Route(): Option<string>
      reads this
    {
      if answers || routed then Some(device) else None
    }

    /** Routes come and go, and a container that is started again may be configured otherwise. */
    method Change()
      modifies this
    {
      device, answers, conf, xauth := *, *, *, *;
    }
  }

  class Server {
    const docker: Docker
    const disk: RenderStore
    const store: Store
    const box: Ikev2
    const ufw: Firewall.Ufw
    const iptables: Forwarding.Iptables
    const watch: Readiness.Watch
    const around: Surroundings
    const secrets: Bootstrap.KeyringDir
    /** What a secret is written as. */
    const bytes: Bootstrap.Secret -> string
    /** How addresses and networks are parsed, and how a network is written. */
    const ip: Pool.Parser
    const cidr: Pool.Net -> string
    /** The trees whose configuration sing-box accepts, when it can be asked. */
    const accepts: Tree -> bool
    /** Nothing cuts a command off, sing-box can be asked, and images build. */
    const undisturbed: bool
    /** The tracked half of the sing-box configuration. */
    var common: map<string, string>

    constructor (docker: Docker, disk: RenderStore, store: Store, box: Ikev2, ufw: Firewall.Ufw,
                 iptables: Forwarding.Iptables, watch: Readiness.Watch, around: Surroundings,
                 secrets: Bootstrap.KeyringDir, bytes: Bootstrap.Secret -> string, ip: Pool.Parser,
                 cidr: Pool.Net -> string, accepts: Tree -> bool, undisturbed: bool, common: map<string, string>)
      ensures this.docker == docker && this.disk == disk && this.store == store && this.box == box
      ensures this.ufw == ufw && this.iptables == iptables && this.watch == watch && this.around == around
      ensures this.secrets == secrets
      ensures this.bytes == bytes && this.ip == ip && this.cidr == cidr && this.common == common
      ensures this.accepts == accepts && this.undisturbed == undisturbed
    {
      this.docker, this.disk, this.store, this.box := docker, disk, store, box;
      this.ufw, this.iptables, this.watch, this.around, this.secrets := ufw, iptables, watch, around, secrets;
      this.bytes, this.ip, this.cidr, this.common := bytes, ip, cidr, common;
      this.accepts, this.undisturbed := accepts, undisturbed;
    }

    function View(): Machine
      reads disk, store, docker
    {
      Machine(disk.LiveFiles(), store.Current().convergePending, docker.containers, docker.nextId)
    }

    /** Whether the ikev2 container runs. */
    function BoxUp(): bool
      reads docker
    {
      "ikev2" in docker.containers && docker.containers["ikev2"].running
    }

    /** Every step an apply takes succeeds, and the host does nothing of its own accord. */
    predicate EverythingWorks()
    {
      && docker.calm && docker.obliging && disk.obliging && store.obliging && box.obliging && watch.obliging
      && ufw.obliging && iptables.obliging && around.routed && secrets.obliging && undisturbed
    }

    /** The network the container says its clients are in; only a running one says anything. */
    ghost predicate IsThePool(net: string, up: bool)
      reads around
    {
      exists block ::
        && Pool.IsPool(ip, if up then around.conf else None, if up then around.xauth else None, block)
        && net == cidr(block)
    }

    /** The pair is for the default route and for that network. */
    ghost predicate NamesThePool(iface: string, net: string, up: bool)
      reads around
    {
      around.Route() == Some(iface) && IsThePool(net, up)
    }

    /** Nothing in the FORWARD chain was touched but for the right pair. */
    ghost predicate ForwardsThePool(was: Forwarding.Chain, v: Verdict)
      reads around, iptables
    {
      v.forwardingOk || iptables.forward != was ==> NamesThePool(v.iface, v.net, v.ikev2Up)
    }

    /** The FORWARD step is taken whenever it can be, whatever became of the others. */
    predicate ForwardTaken(enabled: seq<Protocol>, v: Verdict)
      reads around
    {
      iptables.obliging && around.Route().Some? && (IKEV2 in enabled ==> v.ikev2Up) ==> v.forwardingOk
    }

    /** Each step goes as well as the part of the host it asks will let it, whatever the others did. */
    predicate EachOnItsOwn(v: Verdict, outcome: Option<Ikev2Container.Outcome>)
    {
      && (docker.obliging ==> v.teardownOk && v.notRunning.Some?)
      && (watch.obliging ==> v.portsReady)
      && (ufw.obliging ==> v.firewallOk && (ufw.installed ==> v.firewallRead))
      && (box.obliging && store.obliging && outcome.Some? ==> WentCleanly(outcome))
    }

    function EnabledNow(): seq<Protocol>
      reads store
    {
      EnabledProtocols(store.Current().enabled)
    }

    /** The tree the desired state asks for. */
    function Desired(): Rendered
      reads this, store, secrets
    {
      TreeFor(common, Loaded(secrets.files, bytes), store.users, EnabledNow())
    }

    /** The desired state renders, and sing-box accepts it. */
    predicate CanServe()
      reads this, store, secrets
    {
      Desired().Ok? && accepts(Desired().value)
    }

    /** The part of the host that other programs share. */
    function HostShared(): Shared
      reads ufw, iptables, watch
    {
      Shared(ufw.installed, ufw.rules, iptables.forward, watch.seen, watch.now)
    }

    ghost predicate Named()
      reads store, box
    {
      box.Valid() && forall u | u in store.users :: Nameable(u.name)
    }

    /** What every command keeps. */
    ghost predicate Sound()
      reads disk, store, docker, box
    {
      docker.Valid() && disk.LiveSafe() && Named() && MarkSound(View())
    }
  }

  // ------------------------------------------------------------------ up to the promotion

  /** Reads the desired state and writes the tree it asks for beside the live one. */
  method WriteDesired(s: Server) returns (name: Option<string>, tree: Tree, enabled: seq<Protocol>)
    requires s.disk.LiveSafe()
    modifies s.disk`gens
    ensures s.disk.LiveSafe() && s.disk.LiveFiles() == old(s.disk.LiveFiles())
    ensures name.Some? ==> s.Desired() == Ok(tree) && enabled == s.EnabledNow()
    ensures name.Some? ==> s.disk.live != name && name.value in s.disk.gens
    ensures name.Some? ==> s.disk.gens[name.value] == Generation(tree, tree, false)
    ensures s.store.obliging && s.disk.obliging && s.Desired().Ok? ==> name.Some?
  {
    hide TreeFor, EnabledProtocols;
    tree, enabled := map[], [];
    var st := s.store.LoadState();
    var loaded := s.store.LoadUsers();
    if st.None? || loaded.None? {
      return None, tree, enabled;
    }
    enabled := EnabledProtocols(st.value.enabled);
    var keyring := Loaded(s.secrets.files, s.bytes);
    var gaps := MissingSecrets(keyring, enabled);
    RenderedLacksNothing(s.common, keyring, loaded.value, enabled);
    if gaps != map[] {
      return None, tree, enabled;
    }
    var rendered := BuildTree(s.common, keyring, loaded.value, enabled);
    if rendered.Err? {
      return None, tree, enabled;
    }
    tree := rendered.value;
    name := s.disk.WriteCandidate(tree);
  }

  /**
   Checks the candidate and makes it live. When it does not come to that, the candidate is
   disposed of and nothing has changed.
   */
  method PromoteCandidate(s: Server, name: string, tree: Tree)
    returns (promoted: bool, previous: Option<Tree>, inherited: bool)
    requires s.disk.LiveSafe() && s.disk.live != Some(name)
    requires name in s.disk.gens && s.disk.gens[name] == Generation(tree, tree, false)
    modifies s.disk, s.store`file
    ensures s.disk.LiveSafe()
    ensures promoted ==> s.disk.LiveFiles() == Some(tree)
    ensures promoted ==> previous == old(s.disk.LiveFiles()) && inherited == old(s.store.Current()).convergePending
    ensures promoted ==> s.store.Current() == old(s.store.Current()).(convergePending := true)
    ensures !promoted ==> s.disk.LiveFiles() == old(s.disk.LiveFiles()) && s.store.file == old(s.store.file)
    ensures promoted ==> s.accepts(tree)
    ensures s.store.obliging && s.disk.obliging && s.undisturbed && s.accepts(tree) ==> promoted
  {
    promoted, previous, inherited := false, None, false;
    var asked: bool := *;
    if (asked || s.undisturbed) && s.accepts(tree) {
      s.disk.Accept(name);
      previous := s.disk.LiveFiles();
      var st := s.store.LoadState();
      if st.Some? {
        inherited := st.value.convergePending;
        promoted := s.disk.Promote(name);
        if promoted {
          s.store.file := Some(st.value.(convergePending := true));
        }
      }
    }
    if !promoted {
      var gone := s.disk.RemoveTree(name);
    }
  }

  /** Everything up to the promotion; a candidate that was not promoted is tidied up after. */
  method Publish(s: Server)
    returns (promoted: bool, tree: Tree, enabled: seq<Protocol>, previous: Option<Tree>, inherited: bool, pruned: bool)
    requires s.disk.LiveSafe()
    modifies s.disk, s.store`file
    ensures s.disk.LiveSafe()
    ensures promoted ==> old(s.Desired()) == Ok(tree) && enabled == old(s.EnabledNow()) && s.accepts(tree)
    ensures promoted ==> s.disk.LiveFiles() == Some(tree)
    ensures promoted ==> previous == old(s.disk.LiveFiles()) && inherited == old(s.store.Current()).convergePending
    ensures promoted ==> s.store.Current() == old(s.store.Current()).(convergePending := true)
    ensures !promoted ==> s.disk.LiveFiles() == old(s.disk.LiveFiles()) && s.store.file == old(s.store.file)
    ensures pruned ==> !promoted && Tidy(s.disk.gens, s.disk.live)
    ensures s.store.obliging && s.disk.obliging && s.undisturbed && old(s.CanServe()) ==> promoted
  {
    hide TreeFor, Loaded, EnabledProtocols, Tidy, DefaultState, Servable;
    promoted, previous, inherited, pruned := false, None, false, false;
    var name;
    name, tree, enabled := WriteDesired(s);
    if name.Some? {
      promoted, previous, inherited := PromoteCandidate(s, name.value, tree);
      if !promoted {
        pruned := s.disk.PruneGenerations();
      }
    }
  }

  // ------------------------------------------------------------------------- converging

  const READY_TIMEOUT := 240_000

  /** How the certificates ended up, given how the reconciliation of them ended, if it ran. */
  ghost predicate LedgerAfter(l: Ledger, l': Ledger, outcome: Option<Ikev2Container.Outcome>)
  {
    match outcome
    case Some(Done(report)) => Reconciled(l, l', report)
    case Some(Aborted(report)) => CutShort(l, l', report)
    case _ => l' == l
  }

  /** What the reconciliation asked of the container, whatever it was told. */
  ghost predicate AskedFor(l: Ledger, outcome: Option<Ikev2Container.Outcome>, ops: seq<CertOp>)
  {
    match outcome
    case Some(Done(report)) => AllAsked(l, report, ops)
    case Some(Aborted(report)) => AllAsked(l, report, ops)
    case _ => true
  }

  /** The FORWARD chain after its step: the pair is there, or is gone, and nothing else moved. */
  predicate ForwardAfter(enabled: seq<Protocol>, a: Shared, b: Shared, v: Verdict)
  {
    && Forwarding.Others(b.forward, v.iface, v.net) == Forwarding.Others(a.forward, v.iface, v.net)
    && (v.forwardingOk && IKEV2 in enabled ==> b.forward == Forwarding.Ensured(a.forward, v.iface, v.net))
    && (v.forwardingOk && IKEV2 !in enabled ==> b.forward == Forwarding.Removed(a.forward, v.iface, v.net))
  }

  ghost predicate FirewallAfter(enabled: seq<Protocol>, a: Shared, b: Shared, v: Verdict)
  {
    if a.firewalled then
      Firewall.RulesAfter(a.rules, b.rules, Firewall.KeysOf(enabled), v.firewallOk, v.firewallRead)
    else b.rules == a.rules
  }

  /** What a converge leaves of the rules other programs share, however it ended. */
  ghost predicate SharedAfter(enabled: seq<Protocol>, a: Shared, b: Shared, v: Verdict)
  {
    FirewallAfter(enabled, a, b, v) && ForwardAfter(enabled, a, b, v)
  }

  /** Ready is each port seen bound; that some never was is said after four minutes of asking. */
  ghost predicate SeenReady(enabled: seq<Protocol>, a: Shared, b: Shared, v: Verdict)
  {
    && (v.portsReady <==>
          forall p | p in AllPorts(enabled) :: Readiness.Bound(Readiness.Since(b.seen, |a.seen|), p))
    && (!v.portsReady ==> b.now >= a.now + 240_000)
  }

  /** On a host that does nothing by itself: what is on runs, and what is off does not. */
  ghost predicate RunsExactly(enabled: seq<Protocol>, cs: Containers, v: Verdict)
  {
    && AllRunning(Services(enabled), cs)
    && (v.teardownOk ==> NoneRuns(Stale(enabled), cs))
    && (v.notRunning.Some? ==> v.notRunning.value == {})
  }

  /** Between these two listings, these were nudged and these removed. */
  ghost predicate DisturbedVia(was: seq<Command>, now: seq<Command>, enabled: seq<Protocol>, changed: Option<Changes>,
                               nudged: seq<string>, complete: bool, down: bool,
                               before: Option<Ids>, after: Option<Ids>, up: seq<Command>, gone: seq<string>)
  {
    && CameUp(was, up, enabled, changed, nudged, before, after, complete)
    && Ascending(nudged) && (forall s | s in nudged :: s in Services(enabled) && MayBeStale(before, after, s))
    && (complete ==> forall s | s in Pending(Services(enabled), changed) && s in Services(enabled) ::
          MayBeStale(before, after, s) ==> s in nudged)
    && (forall s | s in gone :: s in Stale(enabled))
    && (if complete then WentDown(up, now, gone, down) else now == up)
  }

  /**
   Minimal disturbance. All the commands a converge gives: one `up -d`, then a nudge for each
   service of the diff that is by the two listings the container it was before, and for no other,
   then the removal of what is off. The first that fails ends `up`.
   */
  ghost predicate Disturbed(was: seq<Command>, now: seq<Command>, enabled: seq<Protocol>, changed: Option<Changes>,
                            nudged: seq<string>, complete: bool, down: bool)
  {
    exists before, after, up, gone ::
      DisturbedVia(was, now, enabled, changed, nudged, complete, down, before, after, up, gone)
  }

  /** Starts and nudges what has to be up, then takes down what is off. */
  method BringUp(s: Server, enabled: seq<Protocol>, tree: Tree, changed: Option<Changes>)
    returns (ok: bool, down: bool, nudged: seq<string>)
    requires s.docker.Valid()
    modifies s.docker
    ensures s.docker.Valid()
    ensures ok ==> ConvergedServices(tree, Services(enabled), Pending(Services(enabled), changed),
                                     old(s.docker.containers), s.docker.containers)
    ensures ok && s.docker.calm ==> AllRunning(Services(enabled), s.docker.containers)
    ensures ok && down ==> NoneRuns(Stale(enabled), s.docker.containers)
    ensures s.docker.obliging ==> ok && down
    ensures forall x | x in nudged :: x in Pending(Services(enabled), changed)
    ensures Disturbed(old(s.docker.log), s.docker.log, enabled, changed, nudged, ok, down) && (down ==> ok)
  {
    hide *;
    down := false;
    ghost var cs0, log := s.docker.containers, s.docker.log;
    var before, after;
    ok, before, after, nudged := UpServices(s.docker, tree, enabled, changed);
    ghost var came := s.docker.log;
    if !ok {
      DisturbedIs(log, came, enabled, changed, nudged, ok, down, before, after, came, []);
      return;
    }
    ghost var up := s.docker.containers;
    s.docker.Host(tree);
    ghost var drifted := s.docker.containers;
    down := DownDisabled(s.docker, enabled);
    DownKeepsConverged(tree, enabled, Pending(Services(enabled), changed), cs0, up, drifted, s.docker.containers);
    KeepsRunning(enabled, up, drifted, s.docker.containers, s.docker.calm);
    NoneOf(Stale(enabled), s.docker.containers, down);
    DisturbedIs(log, s.docker.log, enabled, changed, nudged, ok, down, before, after, came,
                RunningAmong(Stale(enabled), drifted));
  }

  lemma DisturbedIs(was: seq<Command>, now: seq<Command>, enabled: seq<Protocol>, changed: Option<Changes>,
                    nudged: seq<string>, complete: bool, down: bool,
                    before: Option<Ids>, after: Option<Ids>, up: seq<Command>, gone: seq<string>)
    requires CameUp(was, up, enabled, changed, nudged, before, after, complete)
    requires Ascending(nudged) && forall s | s in nudged :: s in Services(enabled) && MayBeStale(before, after, s)
    requires complete ==> forall s :: s in nudged <==>
      s in Pending(Services(enabled), changed) && s in Services(enabled) && MayBeStale(before, after, s)
    requires forall s | s in gone :: s in Stale(enabled)
    requires if complete then WentDown(up, now, gone, down) else now == up
    ensures Disturbed(was, now, enabled, changed, nudged, complete, down)
  {
    hide CameUp, Ascending, Pending, Services, MayBeStale, Stale, WentDown;
    assert DisturbedVia(was, now, enabled, changed, nudged, complete, down, before, after, up, gone);
  }

  /** The commands of a converge; one that went through every step went through all of `up`. */
  ghost predicate Moves(was: seq<Command>, now: seq<Command>, enabled: seq<Protocol>, changed: Option<Changes>,
                        nudged: seq<string>, finished: bool, v: Verdict)
  {
    || Disturbed(was, now, enabled, changed, nudged, true, v.teardownOk)
    || (!finished && Disturbed(was, now, enabled, changed, nudged, false, v.teardownOk))
  }

  lemma MovesAnyway(was: seq<Command>, now: seq<Command>, enabled: seq<Protocol>, changed: Option<Changes>,
                    nudged: seq<string>, v: Verdict)
    requires Moves(was, now, enabled, changed, nudged, true, v)
    ensures Moves(was, now, enabled, changed, nudged, false, v)
  {
  }

  /** Waits for the ports, asks what runs, and makes the firewall follow. */
  method WaitAndOpen(s: Server, enabled: seq<Protocol>)
    returns (ready: bool, stopped: Option<set<string>>, firewalled: bool, listed: bool)
    requires AllKnown(enabled) && Distinct(AllPorts(enabled))
    modifies s.ufw, s.watch
    ensures ready <==> forall p | p in AllPorts(enabled) ::
      Readiness.Bound(Readiness.Since(s.watch.seen, |old(s.watch.seen)|), p)
    ensures !ready ==> s.watch.now >= old(s.watch.now) + 240_000
    ensures s.ufw.installed ==>
      Firewall.RulesAfter(old(s.ufw.rules), s.ufw.rules, Firewall.KeysOf(enabled), firewalled, listed)
    ensures !s.ufw.installed ==> s.ufw.rules == old(s.ufw.rules)
    ensures s.watch.obliging ==> ready
    ensures s.ufw.obliging ==> firewalled && (s.ufw.installed ==> listed)
    ensures s.docker.obliging ==> stopped.Some?
    ensures stopped.Some? ==>
      stopped.value == set x | x in Services(enabled) && !(x in s.docker.containers && s.docker.containers[x].running)
  {
    assert READY_TIMEOUT == 240_000;
    hide *;
    var missing, actions;
    ready, missing := Readiness.WaitReady(s.watch, enabled, READY_TIMEOUT);
    stopped := NotRunning(s.docker, enabled);
    firewalled, listed, actions := Firewall.ReconcileRules(s.ufw, enabled, false);
  }

  predicate NoneRuns(services: seq<string>, cs: Containers)
  {
    forall x | x in services :: x !in cs || !cs[x].running
  }

  lemma NoneOf(services: seq<string>, cs: Containers, down: bool)
    requires down ==> forall x | x in services :: x !in cs || !cs[x].running
    ensures down ==> NoneRuns(services, cs)
  {
  }

  /** What a reconciliation that goes through every step and fails at none comes back with. */
  predicate WentCleanly(outcome: Option<Ikev2Container.Outcome>)
  {
    outcome.Some? && outcome.value.Done? && NoFailures(outcome.value.report)
  }

  /** A file the reconciliation could not read or write ends the whole apply. */
  predicate RaisedOut(outcome: Option<Ikev2Container.Outcome>)
  {
    outcome.Some? && (outcome.value.Unread? || outcome.value.Aborted?)
  }

  /**
   Reconciles the certificates if ikev2 is on and up; the FORWARD rules follow whatever comes of that.
   A kill before it ends everything, and an interrupt still passes the forwarding step on its way out.
   */
  method SettleIkev2(s: Server, enabled: seq<Protocol>)
    returns (finished: bool, outcome: Option<Ikev2Container.Outcome>, forwarded: bool, iface: string, net: string)
    requires s.Named()
    modifies s.store, s.box, s.iptables
    ensures s.Named()
    ensures s.store.Current() == old(s.store.Current()).(revokePending := s.store.Current().revokePending)
    ensures LedgerAfter(old(LedgerOf(s.box, s.store)), LedgerOf(s.box, s.store), outcome)
    ensures AskedFor(old(LedgerOf(s.box, s.store)), outcome, AskedSince(s.box.log, |old(s.box.log)| + 1))
    ensures finished ==> (outcome.Some? <==> IKEV2 in enabled && s.BoxUp())
    ensures RaisedOut(outcome) ==> !finished
    ensures s.undisturbed && !RaisedOut(outcome) ==> finished
    ensures s.store.obliging ==> !RaisedOut(outcome)
    ensures s.box.obliging && s.store.obliging && outcome.Some? ==> WentCleanly(outcome)
    ensures Forwarding.Others(s.iptables.forward, iface, net) == Forwarding.Others(old(s.iptables.forward), iface, net)
    ensures forwarded && IKEV2 in enabled ==>
      s.iptables.forward == Forwarding.Ensured(old(s.iptables.forward), iface, net)
    ensures forwarded && IKEV2 !in enabled ==>
      s.iptables.forward == Forwarding.Removed(old(s.iptables.forward), iface, net)
    ensures forwarded || s.iptables.forward != old(s.iptables.forward) ==>
      s.NamesThePool(iface, net, s.BoxUp()) && (IKEV2 in enabled ==> s.BoxUp())
    ensures s.undisturbed && s.iptables.obliging && s.around.Route().Some? && (IKEV2 in enabled ==> s.BoxUp()) ==>
      forwarded
  {
    hide LedgerAfter, AskedFor, WentCleanly, RaisedOut, Nameable, DefaultState, Server.Named, LedgerOf,
      Store.Current, Forwarding.Others, Forwarding.Ensured, Forwarding.Removed, Server.NamesThePool;
    outcome := None;
    NothingReconciled(LedgerOf(s.box, s.store), AskedSince(s.box.log, |old(s.box.log)| + 1));
    assert !RaisedOut(None) by { NothingRaised(); }
    finished, forwarded, iface, net := false, false, "", "";
    var killed, unwound: bool := *, *;
    killed := killed && !s.undisturbed;
    if !killed {
      if IKEV2 in enabled && s.BoxUp() {
        outcome := ReconcileNow(s);
      }
      finished := !RaisedOut(outcome);
    }
    if !killed || unwound {
      forwarded, iface, net := Forward(s, enabled);
    }
  }

  /** Everything after the containers: a failure is reported, and only a lost file or a kill ends it. */
  method SettleHost(s: Server, enabled: seq<Protocol>, down: bool)
    returns (finished: bool, v: Verdict, outcome: Option<Ikev2Container.Outcome>)
    requires s.Named() && AllKnown(enabled) && Distinct(AllPorts(enabled))
    requires s.docker.obliging ==> down
    modifies s.store, s.box, s.ufw, s.iptables, s.watch
    ensures s.Named()
    ensures s.store.Current() == old(s.store.Current()).(revokePending := s.store.Current().revokePending)
    ensures LedgerAfter(old(LedgerOf(s.box, s.store)), LedgerOf(s.box, s.store), outcome)
    ensures AskedFor(old(LedgerOf(s.box, s.store)), outcome, AskedSince(s.box.log, |old(s.box.log)| + 1))
    ensures SharedAfter(enabled, old(s.HostShared()), s.HostShared(), v)
    ensures s.ForwardsThePool(old(s.iptables.forward), v)
    ensures s.undisturbed ==> s.ForwardTaken(enabled, v)
    ensures v.ikev2Up == s.BoxUp()
    ensures v.teardownOk == down
    ensures finished ==> SeenReady(enabled, old(s.HostShared()), s.HostShared(), v)
    ensures finished ==> s.EachOnItsOwn(v, outcome)
    ensures finished && v.notRunning.Some? ==>
      v.notRunning.value ==
        set x | x in Services(enabled) && !(x in s.docker.containers && s.docker.containers[x].running)
    ensures finished ==> (outcome.Some? <==> IKEV2 in enabled && v.ikev2Up)
    ensures RaisedOut(outcome) ==> !finished
    ensures s.store.obliging ==> !RaisedOut(outcome)
    ensures s.undisturbed && !RaisedOut(outcome) ==> finished
  {
    hide Services, LedgerAfter, AskedFor, AllPorts, Distinct, AllKnown, Nameable, DefaultState, Server.Named,
      LedgerOf, Store.Current, Server.BoxUp, NoFailures, RaisedOut, WentCleanly, Server.NamesThePool;
    hide SharedAfter, SeenReady, Firewall.RulesAfter, Firewall.KeysOf, Readiness.Bound, Forwarding.Others,
      Forwarding.Ensured, Forwarding.Removed, Server.EachOnItsOwn;
    finished, v, outcome := false, NOTHING_SAID, None;
    ghost var host := s.HostShared();
    NothingReconciled(LedgerOf(s.box, s.store), AskedSince(s.box.log, |old(s.box.log)| + 1));
    var ready, stopped, firewalled, listed := WaitAndOpen(s, enabled);
    var forwarded, iface, net;
    finished, outcome, forwarded, iface, net := SettleIkev2(s, enabled);
    v := Verdict(down, ready, stopped, firewalled, listed, forwarded, s.BoxUp(), iface, net);
    StepsHold(enabled, host, s.HostShared(), v);
    PortsHold(enabled, host, s.HostShared(), v);
    OnItsOwn(s, v, outcome);
  }

  /**
   Brings the containers to the promoted tree, then the firewall, the certificates and the
   forwarding rules. It is ended early by `up`, by a file that cannot be read or written, or by a
   kill, and by nothing else; the forwarding rules follow even then, unless it is a kill.
   */
  method Converge(s: Server, enabled: seq<Protocol>, tree: Tree, changed: Option<Changes>)
    returns (finished: bool, v: Verdict, nudged: seq<string>, outcome: Option<Ikev2Container.Outcome>)
    requires s.docker.Valid() && s.Named()
    requires AllKnown(enabled) && Distinct(AllPorts(enabled))
    modifies s.docker, s.store, s.box, s.ufw, s.iptables, s.watch, s.around
    ensures s.docker.Valid() && s.Named()
    ensures s.store.Current() == old(s.store.Current()).(revokePending := s.store.Current().revokePending)
    ensures LedgerAfter(old(LedgerOf(s.box, s.store)), LedgerOf(s.box, s.store), outcome)
    ensures AskedFor(old(LedgerOf(s.box, s.store)), outcome, AskedSince(s.box.log, |old(s.box.log)| + 1))
    ensures SharedAfter(enabled, old(s.HostShared()), s.HostShared(), v)
    ensures s.ForwardsThePool(old(s.iptables.forward), v)
    ensures s.undisturbed ==> s.ForwardTaken(enabled, v)
    ensures v.ikev2Up == s.BoxUp()
    ensures finished ==> ConvergedServices(tree, Services(enabled), Pending(Services(enabled), changed),
                                           old(s.docker.containers), s.docker.containers)
    ensures finished && s.docker.calm ==> RunsExactly(enabled, s.docker.containers, v)
    ensures finished ==> SeenReady(enabled, old(s.HostShared()), s.HostShared(), v)
    ensures finished ==> s.EachOnItsOwn(v, outcome)
    ensures finished ==> (outcome.Some? <==> IKEV2 in enabled && v.ikev2Up)
    ensures finished && s.docker.calm ==> (IKEV2 in enabled ==> v.ikev2Up)
    ensures RaisedOut(outcome) ==> !finished
    ensures s.store.obliging ==> !RaisedOut(outcome)
    ensures s.undisturbed && s.docker.obliging && !RaisedOut(outcome) ==> finished
    ensures Moves(old(s.docker.log), s.docker.log, enabled, changed, nudged, finished, v)
    ensures forall x | x in nudged :: x in Pending(Services(enabled), changed)
  {
    hide Disturbed;
    hide Disturbed, ConvergedServices, Pending, Services, AllRunning, RunsExactly, SharedAfter, SeenReady,
      LedgerAfter, AskedFor, Stale, AllPorts, Distinct, AllKnown, NoneRuns, WellFormed, DefaultState,
      Server.Named, LedgerOf, Store.Current, WentCleanly, RaisedOut, Server.NamesThePool,
      Server.EachOnItsOwn;
    hide Forwarding.Others, Forwarding.Ensured, Forwarding.Removed;
    ghost var host := s.HostShared();
    NothingReconciled(LedgerOf(s.box, s.store), AskedSince(s.box.log, |old(s.box.log)| + 1));
    finished, v, outcome := false, NOTHING_SAID, None;
    assert !RaisedOut(None) by { NothingRaised(); }
    var ok, down;
    ok, down, nudged := BringUp(s, enabled, tree, changed);
    s.around.Change();
    assert s.HostShared() == host;
    if !ok {
      var forwarded, iface, net := Forward(s, enabled);
      v := NOTHING_SAID.(forwardingOk := forwarded, ikev2Up := s.BoxUp(), iface := iface, net := net);
      UntouchedFirewall(enabled, host, s.HostShared(), v);
      StepsHold(enabled, host, s.HostShared(), v);
      return;
    }
    RunningBox(enabled, s.docker.containers);
    finished, v, outcome := SettleHost(s, enabled, down);
    if finished {
      CalmRunsExactly(enabled, s.docker.containers, v);
    }
  }

  lemma NothingRaised()
    ensures !RaisedOut(None)
  {
  }

  lemma RunningBox(enabled: seq<Protocol>, cs: Containers)
    ensures IKEV2 in enabled && AllRunning(Services(enabled), cs) ==> "ikev2" in cs && cs["ikev2"].running
  {
    if IKEV2 in enabled {
      assert "ikev2" in IKEV2.services by { assert IKEV2.services[0] == "ikev2"; }
      ServicesOf(enabled, IKEV2, "ikev2");
      assert "ikev2" in Services(enabled);
    }
  }

  /** The steps, one by one, make up what the converge leaves. */
  lemma StepsHold(enabled: seq<Protocol>, a: Shared, b: Shared, v: Verdict)
    requires a.firewalled ==>
      Firewall.RulesAfter(a.rules, b.rules, Firewall.KeysOf(enabled), v.firewallOk, v.firewallRead)
    requires !a.firewalled ==> b.rules == a.rules
    requires Forwarding.Others(b.forward, v.iface, v.net) == Forwarding.Others(a.forward, v.iface, v.net)
    requires v.forwardingOk && IKEV2 in enabled ==> b.forward == Forwarding.Ensured(a.forward, v.iface, v.net)
    requires v.forwardingOk && IKEV2 !in enabled ==> b.forward == Forwarding.Removed(a.forward, v.iface, v.net)
    ensures SharedAfter(enabled, a, b, v)
  {
  }

  lemma PortsHold(enabled: seq<Protocol>, a: Shared, b: Shared, v: Verdict)
    requires v.portsReady <==>
      forall p | p in AllPorts(enabled) :: Readiness.Bound(Readiness.Since(b.seen, |a.seen|), p)
    requires !v.portsReady ==> b.now >= a.now + 240_000
    ensures SeenReady(enabled, a, b, v)
  {
  }

  lemma OnItsOwn(s: Server, v: Verdict, outcome: Option<Ikev2Container.Outcome>)
    requires s.docker.obliging ==> v.teardownOk && v.notRunning.Some?
    requires s.watch.obliging ==> v.portsReady
    requires s.ufw.obliging ==> v.firewallOk && (s.ufw.installed ==> v.firewallRead)
    requires s.box.obliging && s.store.obliging && outcome.Some? ==> WentCleanly(outcome)
    ensures s.EachOnItsOwn(v, outcome)
  {
    hide WentCleanly;
  }

  /** A firewall step that was not taken. */
  lemma UntouchedFirewall(enabled: seq<Protocol>, a: Shared, b: Shared, v: Verdict)
    requires b.rules == a.rules && !v.firewallOk && !v.firewallRead
    ensures a.firewalled ==>
      Firewall.RulesAfter(a.rules, b.rules, Firewall.KeysOf(enabled), v.firewallOk, v.firewallRead)
  {
    hide Firewall.KeysOf, Firewall.TakenOver;
    Firewall.TakesNothing(a.rules, Firewall.KeysOf(enabled));
  }

  lemma UntouchedShared(enabled: seq<Protocol>, a: Shared)
    ensures SharedAfter(enabled, a, a, NOTHING_SAID)
  {
    hide Firewall.KeysOf, Firewall.RulesAfter;
    UntouchedFirewall(enabled, a, a, NOTHING_SAID);
  }

  lemma CalmRunsExactly(enabled: seq<Protocol>, cs: Containers, v: Verdict)
    requires v.teardownOk ==> NoneRuns(Stale(enabled), cs)
    requires v.notRunning.Some? ==>
      v.notRunning.value == set x | x in Services(enabled) && !(x in cs && cs[x].running)
    ensures AllRunning(Services(enabled), cs) ==> RunsExactly(enabled, cs, v)
  {
  }

  lemma NothingReconciled(l: Ledger, ops: seq<CertOp>)
    ensures LedgerAfter(l, l, None) && AskedFor(l, None, ops)
  {
  }

  method ReconcileNow(s: Server) returns (outcome: Option<Ikev2Container.Outcome>)
    requires s.Named()
    modifies s.box, s.store
    ensures s.Named() && outcome.Some?
    ensures s.store.Current() == old(s.store.Current()).(revokePending := s.store.Current().revokePending)
    ensures LedgerAfter(old(LedgerOf(s.box, s.store)), LedgerOf(s.box, s.store), outcome)
    ensures AskedFor(old(LedgerOf(s.box, s.store)), outcome, AskedSince(s.box.log, |old(s.box.log)| + 1))
    ensures s.store.obliging ==> !RaisedOut(outcome)
    ensures s.BoxUp() && s.box.obliging && s.store.obliging ==> WentCleanly(outcome)
  {
    hide Reconciled, CutShort, Nameable, DefaultState, NoFailures, AllAsked;
    ghost var l := LedgerOf(s.box, s.store);
    var o := ReconcileIkev2(s.box, s.store, s.BoxUp());
    ReconcileKeepsNames(l, LedgerOf(s.box, s.store), o);
    outcome := Some(o);
  }

  lemma ReconcileKeepsNames(l: Ledger, l': Ledger, o: Ikev2Container.Outcome)
    requires o.Skipped? || o.Unread? ==> l' == l
    requires o.Done? ==> Reconciled(l, l', o.report)
    requires o.Aborted? ==> CutShort(l, l', o.report)
    ensures forall v | v in l'.users :: exists u :: u in l.users && u.name == v.name
    ensures |l'.users| == |l.users| && SameButFlags(l.users, l'.users)
  {
    hide Withdrew, Issued, Wanted, Doomed, StillValid;
    if o.Done? {
      var mid :| ReconciledVia(l, mid, l', o.report);
      forall v | v in l'.users ensures exists u :: u in l.users && u.name == v.name {
        var i :| 0 <= i < |l'.users| && l'.users[i] == v;
        assert l.users[i] in l.users;
      }
    }
  }

  /** The FORWARD rules follow whether ikev2 is enabled; no rule but the pair is touched. */
  method Forward(s: Server, enabled: seq<Protocol>) returns (ok: bool, iface: string, net: string)
    modifies s.iptables
    ensures Forwarding.Others(s.iptables.forward, iface, net) == Forwarding.Others(old(s.iptables.forward), iface, net)
    ensures ok && IKEV2 in enabled ==> s.iptables.forward == Forwarding.Ensured(old(s.iptables.forward), iface, net)
    ensures ok && IKEV2 !in enabled ==> s.iptables.forward == Forwarding.Removed(old(s.iptables.forward), iface, net)
    ensures ok || s.iptables.forward != old(s.iptables.forward) ==>
      s.NamesThePool(iface, net, s.BoxUp()) && (IKEV2 in enabled ==> s.BoxUp())
    ensures s.iptables.obliging && s.around.Route().Some? && (IKEV2 in enabled ==> s.BoxUp()) ==> ok
  {
    hide Forwarding.Others, Forwarding.Ensured, Forwarding.Removed, Server.IsThePool;
    iface, net, ok := "", "", false;
    if IKEV2 in enabled && !s.BoxUp() {
      return;
    }
    var route := s.around.Route();
    if route.None? {
      return;
    }
    iface := route.value;
    net := PoolNow(s);
    if IKEV2 in enabled {
      ok := Forwarding.EnsureForwarding(s.iptables, iface, net);
    } else {
      var removed;
      ok, removed := Forwarding.RemoveForwarding(s.iptables, iface, net);
    }
  }

  /** Asks the container where its clients' addresses come from. */
  method PoolNow(s: Server) returns (net: string)
    ensures s.IsThePool(net, s.BoxUp())
  {
    hide Pool.IsPool, Pool.PoolRange, Pool.XauthIs, Pool.Explains, Pool.DEFAULT;
    var up := s.BoxUp();
    var block, how := Pool.PoolNetwork(s.ip, if up then s.around.conf else None, if up then s.around.xauth else None);
    return s.cidr(block);
  }

  // ------------------------------------------------------------------------ the whole apply

  /** Ended before anything was promoted, after it, or with every step gone through. */
  datatype End = Stopped | Unfinished | Complete(ready: bool)

  datatype Applied = Applied(
    end: End,
    changed: Option<Changes>,
    nudged: seq<string>,
    verdict: Verdict,
    reconcile: Option<Ikev2Container.Outcome>,
    pruned: bool)

  const NOTHING_SAID := Verdict(false, false, None, false, false, false, false, "", "")

  /** Everything was promoted and converged: what is left is to write that down. */
  method WriteDown(s: Server, enabled: seq<Protocol>, ready: bool) returns (ok: bool)
    modifies s.store`file
    ensures ok ==> s.store.Current().convergePending == (!ready && old(s.store.Current()).convergePending)
    ensures ok ==> s.store.Current().revokePending == old(s.store.Current()).revokePending
    ensures ok ==> s.store.Current().enabled == old(s.store.Current()).enabled
    ensures ok ==> s.store.Current().lastApplied == NamesOf(enabled)
    ensures !ok ==> s.store.file == old(s.store.file)
    ensures s.store.obliging ==> ok
  {
    var st := s.store.LoadState();
    if st.None? {
      return false;
    }
    var noted := st.value.(lastApplied := NamesOf(enabled));
    ok := s.store.SaveState(if ready then noted.(convergePending := false) else noted);
  }

  function NamesOf(ps: seq<Protocol>): (r: seq<string>)
    ensures |r| == |ps| && forall i | 0 <= i < |ps| :: r[i] == ps[i].name
  {
    if ps == [] then [] else [ps[0].name] + NamesOf(ps[1..])
  }

  /** How one apply moved the machine, with whatever the host did before the promotion. */
  ghost predicate Moved(a: Machine, mid: Machine, b: Machine, r: Applied, tree: Tree, services: seq<string>)
  {
    match r.end
    case Stopped => Idle(a, b)
    case Unfinished => Idle(a, mid) && Unconverged(mid, b, tree)
    case Complete(ready) => Idle(a, mid) && Finished(mid, b, tree, services, r.changed, ready)
  }

  lemma MovedKeepsMark(a: Machine, mid: Machine, b: Machine, r: Applied, tree: Tree, services: seq<string>)
    requires MarkSound(a) && Moved(a, mid, b, r, tree, services)
    ensures MarkSound(b)
  {
    hide MarkSound, Idle, Unconverged, Finished;
    match r.end
    case Stopped =>
      assert Step(a, b);
      StepKeepsMark(a, b);
    case Unfinished =>
      assert Step(a, mid) && Step(mid, b);
      StepKeepsMark(a, mid);
      StepKeepsMark(mid, b);
    case Complete(ready) =>
      assert Step(a, mid) && Step(mid, b);
      StepKeepsMark(a, mid);
      StepKeepsMark(mid, b);
  }

  // -------------------------------------------------- what the later steps leave as it was

  lemma StaleIsNotExpected(enabled: seq<Protocol>, s: string)
    requires s in Services(enabled)
    ensures s !in Stale(enabled)
  {
    if s == "sing-box" && s in CompositeServices(PROTOCOLS) {
      ServicesFrom(PROTOCOLS, s);
      var p :| p in PROTOCOLS && s in p.services;
      NotASingBox(p);
    }
  }

  lemma NotASingBox(p: Protocol)
    requires p in PROTOCOLS
    ensures "sing-box" !in p.services
  {
    assert p == VLESS || p == HYSTERIA2 || p == IKEV2 || p == DNSTT;
    assert "sing-box"[0] == 's';
    assert forall x | x in p.services :: x[0] != 's';
  }

  /** Drift and the teardown of what is disabled leave the expected services converged. */
  lemma DownKeepsConverged(t: Tree, enabled: seq<Protocol>, pending: Changes, cs0: Containers,
                           up: Containers, drifted: Containers, cs: Containers)
    requires Converged(t, Services(enabled), pending, cs0, up) && Drifted(t, up, drifted)
    requires SameOutside(Stale(enabled), drifted, cs)
    ensures ConvergedServices(t, Services(enabled), pending, cs0, cs)
  {
    hide Touched, Nudged, CarriedOver, Services, Stale;
    ConvergedDrifts(t, Services(enabled), pending, cs0, up, drifted);
    forall s | s in cs && s in Services(enabled)
      ensures Touched(t, s, cs0, cs[s]) && (s in pending ==> Nudged(t, s, pending[s], cs[s]))
    {
      StaleIsNotExpected(enabled, s);
      assert cs[s] == drifted[s];
    }
  }

  lemma KeepsRunning(enabled: seq<Protocol>, up: Containers, drifted: Containers, cs: Containers, calm: bool)
    requires SameOutside(Stale(enabled), drifted, cs) && (calm ==> drifted == up)
    ensures calm && AllRunning(Services(enabled), up) ==> AllRunning(Services(enabled), cs)
  {
    hide Services, Stale;
    forall s | s in Services(enabled) && calm && AllRunning(Services(enabled), up)
      ensures s in cs && cs[s].running
    {
      StaleIsNotExpected(enabled, s);
    }
  }

  lemma ConvergedServicesDrift(t: Tree, services: seq<string>, pending: Changes, cs0: Containers,
                               mid: Containers, cs: Containers)
    requires ConvergedServices(t, services, pending, cs0, mid) && Drifted(t, mid, cs)
    ensures ConvergedServices(t, services, pending, cs0, cs)
  {
    hide ReadRecords, AccountsOf, DeliveryOf, Current, CarriedOver;
    forall s | s in cs && s in services
      ensures Touched(t, s, cs0, cs[s]) && (s in pending ==> Nudged(t, s, pending[s], cs[s]))
    {
      DriftedLater(t, s, cs0, if s in pending then pending[s] else Mount, mid[s], cs[s]);
    }
  }

  /** The host acts, and nothing else does. */
  method HostActs(s: Server)
    requires s.docker.Valid()
    modifies s.docker`containers
    ensures s.docker.Valid() && Idle(old(s.View()), s.View())
    ensures s.docker.calm ==> s.docker.containers == old(s.docker.containers)
  {
    hide WellFormed, Drifted;
    s.docker.Host(LiveTree(s.disk.LiveFiles()));
    assert s.docker.Valid();
  }

  /** The diff an apply works from. */
  method DiffFor(previous: Option<Tree>, inherited: bool, tree: Tree, ghost mid: Machine)
    returns (changed: Option<Changes>)
    requires mid.live == previous && mid.pending == inherited
    ensures GivenDiff(mid, tree, changed)
  {
    hide DiffSpec;
    changed := ChangedServices(previous, tree);
    if inherited {
      changed := None;
    }
  }

  lemma NoDiffNoNudge(mid: Machine, tree: Tree, enabled: seq<Protocol>, changed: Option<Changes>, nudged: seq<string>)
    requires GivenDiff(mid, tree, changed)
    requires forall x | x in nudged :: x in Pending(Services(enabled), changed)
    ensures mid.live == Some(tree) && !mid.pending ==> changed == Some(map[]) && nudged == []
  {
    hide DiffSpec;
    if mid.live == Some(tree) && !mid.pending {
      SameTreeChangesNothing(tree, changed);
      EmptySeq(nudged);
    }
  }

  lemma FedTree(common: map<string, string>, keyring: Keyring, users: seq<User>, tree: Tree, enabled: seq<Protocol>,
                names: seq<string>)
    requires TreeFor(common, keyring, users, enabled) == Ok(tree) && enabled == EnabledProtocols(names)
    ensures FedBy(tree, Services(enabled)) && AllKnown(enabled) && Distinct(AllPorts(enabled))
  {
    hide Merge, CommonTree, FedBy, Services;
    RenderedFeedsServices(common, keyring, users, enabled);
  }

  /** What an apply can say for itself, and what it says if it went through every step. */
  ghost predicate SaysTrue(enabled: seq<Protocol>, a: Shared, b: Shared, r: Applied, st: State)
  {
    && SharedAfter(enabled, a, b, r.verdict)
    && (RaisedOut(r.reconcile) ==> !r.end.Complete?)
    && (r.end.Complete? ==>
          && r.end.ready == r.verdict.portsReady
          && SeenReady(enabled, a, b, r.verdict)
          && (r.reconcile.Some? <==> IKEV2 in enabled && r.verdict.ikev2Up)
          && st.lastApplied == NamesOf(enabled))
  }

  lemma SaysNothing(enabled: seq<Protocol>, a: Shared, r: Applied, st: State)
    requires !r.end.Complete? && r.verdict == NOTHING_SAID
    ensures SaysTrue(enabled, a, a, r, st)
  {
    hide SharedAfter;
    UntouchedShared(enabled, a);
  }

  /** Converges, and writes down how that went. */
  method ConvergeAndRecord(s: Server, tree: Tree, enabled: seq<Protocol>, changed: Option<Changes>, ghost mid: Machine)
    returns (r: Applied)
    requires s.docker.Valid() && s.Named()
    requires s.View() == mid.(live := Some(tree), pending := true)
    requires FedBy(tree, Services(enabled)) && AllKnown(enabled) && Distinct(AllPorts(enabled))
    requires GivenDiff(mid, tree, changed)
    modifies s.docker, s.store, s.box, s.ufw, s.iptables, s.watch, s.around
    ensures s.docker.Valid() && s.Named()
    ensures r.changed == changed && !r.end.Stopped?
    ensures r.end.Unfinished? ==> Unconverged(mid, s.View(), tree)
    ensures r.end.Complete? ==> Finished(mid, s.View(), tree, Services(enabled), changed, r.end.ready)
    ensures LedgerAfter(old(LedgerOf(s.box, s.store)), LedgerOf(s.box, s.store), r.reconcile)
    ensures AskedFor(old(LedgerOf(s.box, s.store)), r.reconcile, AskedSince(s.box.log, |old(s.box.log)| + 1))
    ensures s.store.Current().enabled == old(s.store.Current()).enabled
    ensures r.end.Complete? && s.docker.calm ==> RunsExactly(enabled, s.docker.containers, r.verdict)
    ensures SaysTrue(enabled, old(s.HostShared()), s.HostShared(), r, s.store.Current())
    ensures s.ForwardsThePool(old(s.iptables.forward), r.verdict)
    ensures s.undisturbed ==> s.ForwardTaken(enabled, r.verdict)
    ensures r.end.Complete? ==> s.EachOnItsOwn(r.verdict, r.reconcile)
    ensures s.undisturbed && s.docker.obliging && s.store.obliging ==> r.end.Complete?
    ensures Moves(old(s.docker.log), s.docker.log, enabled, changed, r.nudged, r.end.Complete?, r.verdict)
    ensures s.EverythingWorks() ==> r.end == Complete(true) && NothingFailed(r.verdict)
    ensures s.EverythingWorks() && IKEV2 in enabled ==> WentCleanly(r.reconcile)
    ensures forall x | x in r.nudged :: x in Pending(Services(enabled), changed)
  {
    hide Moves;
    hide MarkSound, WellFormed, LedgerAfter, AskedFor, EnabledProtocols, Services, Pending, GivenDiff, FedBy,
      ConvergedServices, RunsExactly, SharedAfter, SeenReady, Drifted, Nameable, DefaultState, AllPorts,
      Distinct, AllKnown, NamesOf, RenderStore.LiveFiles, WentCleanly, RaisedOut, Server.NamesThePool;
    ghost var cs0 := s.docker.containers;
    var finished, verdict, nudged, outcome := Converge(s, enabled, tree, changed);
    r := Applied(Unfinished, changed, nudged, verdict, outcome, false);
    ghost var mid2 := s.docker.containers;
    HostActs(s);
    if finished {
      MovesAnyway(old(s.docker.log), s.docker.log, enabled, changed, nudged, verdict);
      ConvergedServicesDrift(tree, Services(enabled), Pending(Services(enabled), changed), cs0, mid2,
                             s.docker.containers);
      var written := WriteDown(s, enabled, verdict.portsReady);
      if written {
        r := r.(end := Complete(verdict.portsReady));
      }
    }
  }

  /** From the promotion on. */
  method AfterPromotion(s: Server, restart: bool, tree: Tree, enabled: seq<Protocol>, changed: Option<Changes>,
                        ghost mid: Machine)
    returns (r: Applied)
    requires s.docker.Valid() && s.Named() && s.disk.LiveSafe()
    requires s.View() == mid.(live := Some(tree), pending := true)
    requires FedBy(tree, Services(enabled)) && AllKnown(enabled) && Distinct(AllPorts(enabled))
    requires GivenDiff(mid, tree, changed)
    modifies s.docker, s.disk`gens, s.store, s.box, s.ufw, s.iptables, s.watch, s.around
    ensures s.docker.Valid() && s.Named() && s.disk.LiveSafe()
    ensures r.changed == changed && !r.end.Stopped?
    ensures r.end.Unfinished? ==> Unconverged(mid, s.View(), tree)
    ensures r.end.Complete? ==> Finished(mid, s.View(), tree, Services(enabled), changed, r.end.ready)
    ensures LedgerAfter(old(LedgerOf(s.box, s.store)), LedgerOf(s.box, s.store), r.reconcile)
    ensures AskedFor(old(LedgerOf(s.box, s.store)), r.reconcile, AskedSince(s.box.log, |old(s.box.log)| + 1))
    ensures s.store.Current().enabled == old(s.store.Current()).enabled
    ensures r.end.Complete? && s.docker.calm ==> RunsExactly(enabled, s.docker.containers, r.verdict)
    ensures SaysTrue(enabled, old(s.HostShared()), s.HostShared(), r, s.store.Current())
    ensures s.ForwardsThePool(old(s.iptables.forward), r.verdict)
    ensures restart && s.undisturbed ==> s.ForwardTaken(enabled, r.verdict)
    ensures r.end.Complete? ==> s.EachOnItsOwn(r.verdict, r.reconcile)
    ensures restart && s.undisturbed && s.docker.obliging && s.store.obliging ==> r.end.Complete?
    ensures !restart ==> r.end.Unfinished? && s.HostShared() == old(s.HostShared()) && s.docker.log == old(s.docker.log)
    ensures restart ==>
      Moves(old(s.docker.log), s.docker.log, enabled, changed, r.nudged, r.end.Complete?, r.verdict)
    ensures r.pruned ==> Tidy(s.disk.gens, s.disk.live)
    ensures s.disk.obliging ==> r.pruned
    ensures s.EverythingWorks() && restart ==> r.end == Complete(true) && NothingFailed(r.verdict)
    ensures s.EverythingWorks() && restart && IKEV2 in enabled ==> WentCleanly(r.reconcile)
    ensures forall x | x in r.nudged :: x in Pending(Services(enabled), changed)
  {
    hide Moves;
    hide WellFormed, LedgerAfter, AskedFor, EnabledProtocols, Services, Pending, GivenDiff, FedBy, Finished,
      RunsExactly, SharedAfter, SeenReady, Nameable, Servable, Tidy, DefaultState, AllPorts, Distinct,
      AllKnown, NamesOf, WentCleanly, Server.NamesThePool, Server.EachOnItsOwn;
    r := Applied(Unfinished, changed, [], NOTHING_SAID, None, false);
    NothingReconciled(LedgerOf(s.box, s.store), AskedSince(s.box.log, |old(s.box.log)| + 1));
    UntouchedShared(enabled, s.HostShared());
    if restart {
      r := ConvergeAndRecord(s, tree, enabled, changed, mid);
    }
    ghost var view := s.View();
    var pruned := s.disk.PruneGenerations();
    assert s.View() == view;
    r := r.(pruned := pruned);
  }

  /**
   One apply. Whatever fails or is cut off, the mark stays sound, the live tree stays safe and
   the certificates change only as a reconciliation may change them.
   */
  method Apply(s: Server, restart: bool) returns (r: Applied, ghost mid: Machine, ghost tree: Tree)
    requires s.Sound()
    modifies s.docker, s.disk, s.store, s.box, s.ufw, s.iptables, s.watch, s.around
    ensures s.Sound()
    ensures Moved(old(s.View()), mid, s.View(), r, tree, Services(old(s.EnabledNow())))
    ensures !r.end.Stopped? ==> old(s.Desired()) == Ok(tree) && s.accepts(tree)
    ensures LedgerAfter(old(LedgerOf(s.box, s.store)), LedgerOf(s.box, s.store), r.reconcile)
    ensures AskedFor(old(LedgerOf(s.box, s.store)), r.reconcile, AskedSince(s.box.log, |old(s.box.log)| + 1))
    ensures s.store.Current().enabled == old(s.store.Current()).enabled
    ensures r.end.Complete? && s.docker.calm ==> RunsExactly(s.EnabledNow(), s.docker.containers, r.verdict)
    ensures SaysTrue(s.EnabledNow(), old(s.HostShared()), s.HostShared(), r, s.store.Current())
    ensures s.ForwardsThePool(old(s.iptables.forward), r.verdict)
    ensures r.end.Stopped? ==> s.store.file == old(s.store.file)
    ensures r.end.Stopped? || !restart ==>
      !r.end.Complete? && s.HostShared() == old(s.HostShared()) && s.docker.log == old(s.docker.log)
    ensures restart && !r.end.Stopped? ==>
      Moves(old(s.docker.log), s.docker.log, s.EnabledNow(), r.changed, r.nudged, r.end.Complete?, r.verdict)
    ensures restart && !r.end.Stopped? && s.undisturbed ==> s.ForwardTaken(s.EnabledNow(), r.verdict)
    ensures r.end.Complete? ==> s.EachOnItsOwn(r.verdict, r.reconcile)
    ensures restart && !r.end.Stopped? && s.undisturbed && s.docker.obliging && s.store.obliging ==> r.end.Complete?
    ensures s.undisturbed && s.disk.obliging && s.store.obliging && old(s.CanServe()) ==> !r.end.Stopped?
    ensures r.pruned ==> Tidy(s.disk.gens, s.disk.live)
    ensures !r.end.Stopped? && s.disk.obliging ==> r.pruned
    ensures s.EverythingWorks() && restart && old(s.CanServe()) ==> r.end == Complete(true) && NothingFailed(r.verdict)
    ensures s.EverythingWorks() && r.end.Complete? && IKEV2 in s.EnabledNow() ==> WentCleanly(r.reconcile)
    ensures old(s.View()).live == Some(tree) && !old(s.View()).pending && !r.end.Stopped? ==>
      r.changed == Some(map[]) && r.nudged == []
  {
    hide Moves;
    hide MarkSound, WellFormed, LedgerAfter, AskedFor, EnabledProtocols, Services, Pending, GivenDiff, FedBy,
      Idle, Unconverged, Finished, RunsExactly, SharedAfter, SeenReady, Nameable, Servable, Tidy,
      DefaultState, AllPorts, Distinct, AllKnown, TreeFor, Loaded, NamesOf, WentCleanly, Server.NamesThePool,
      Server.EachOnItsOwn;
    hide SaysTrue, Server.ForwardTaken;
    r := Applied(Stopped, None, [], NOTHING_SAID, None, false);
    ghost var a := s.View();
    NothingReconciled(LedgerOf(s.box, s.store), AskedSince(s.box.log, |old(s.box.log)| + 1));
    HostActs(s);
    mid, tree := s.View(), map[];
    ghost var host, st := s.HostShared(), s.store.Current();
    var promoted, t, enabled, previous, inherited, pruned := Publish(s);
    if !promoted {
      r := r.(pruned := pruned);
      SaysNothing(s.EnabledNow(), host, r, st);
      MovedKeepsMark(a, mid, s.View(), r, tree, Services(s.EnabledNow()));
      return;
    }
    tree := t;
    FedTree(s.common, Loaded(s.secrets.files, s.bytes), s.store.users, tree, enabled, s.store.Current().enabled);
    var changed := DiffFor(previous, inherited, t, mid);
    r := AfterPromotion(s, restart, t, enabled, changed, mid);
    NoDiffNoNudge(mid, t, enabled, changed, r.nudged);
    MovedKeepsMark(a, mid, s.View(), r, tree, Services(enabled));
  }
}
