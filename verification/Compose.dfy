/**
 Bringing containers up and down. `Docker` is the machine: its containers, and the commands
 it was given. Every command may fail, with any effect on the containers it was aimed at, and
 the host may stop, start or remove containers between any two of them.
 */
module Compose {
  import opened Wrappers
  import opened Strings
  import opened Registry
  import opened Rendering
  import opened TreeDiff
  import opened Containers

  type Ids = map<string, nat>

  datatype Command =
    | Ps(answer: Option<Ids>)
    | Up(services: seq<string>, ok: bool)
    | ForceRecreate(service: string, ok: bool)
    | Restart(service: string, ok: bool)
    | Rm(services: seq<string>, ok: bool)

  function IdsOf(cs: Containers): Ids
  {
    map s | s in cs :: cs[s].id
  }

  // ----------------------------------------------------- what the runtime does on a command

  predicate SameOutside(services: seq<string>, cs: Containers, cs': Containers)
  {
    && (forall s | s in cs && s !in services :: s in cs' && cs'[s] == cs[s])
    && (forall s | s in cs' && s !in services :: s in cs)
  }

  predicate BroughtUp(t: Tree, s: string, cs: Containers, nextId: nat, c': Container)
  {
    && c'.running
    && (|| (c'.id >= nextId && Current(t, s, c'))
        || (s in cs && cs[s].running && c' == cs[s])
        || (s in cs && !cs[s].running && c' == Started(t, s, cs[s])))
  }

  /** `up -d`: creates what is missing, starts what is stopped, may replace any container. */
  predicate UpOutcome(t: Tree, services: seq<string>, cs: Containers, nextId: nat,
                            cs': Containers, nextId': nat, ok: bool)
  {
    && nextId <= nextId' && WellFormed(cs', nextId') && SameOutside(services, cs, cs')
    && (ok ==> forall s | s in services :: s in cs' && BroughtUp(t, s, cs, nextId, cs'[s]))
  }

  predicate RecreateOutcome(t: Tree, service: string, cs: Containers, nextId: nat,
                                  cs': Containers, nextId': nat, ok: bool)
  {
    && nextId <= nextId' && WellFormed(cs', nextId') && SameOutside([service], cs, cs')
    && (ok ==> service in cs' && cs'[service].running && cs'[service].id >= nextId
               && Current(t, service, cs'[service]))
  }

  /** `restart`: the same container, started again; nothing to do when there is none. */
  predicate RestartOutcome(t: Tree, service: string, cs: Containers, nextId: nat,
                                 cs': Containers, ok: bool)
  {
    && WellFormed(cs', nextId) && SameOutside([service], cs, cs')
    && (ok ==> (service in cs' <==> service in cs))
    && (ok && service in cs ==> cs'[service] == Started(t, service, cs[service]))
  }

  predicate RmOutcome(services: seq<string>, cs: Containers, nextId: nat, cs': Containers, ok: bool)
  {
    && WellFormed(cs', nextId) && SameOutside(services, cs, cs')
    && (ok ==> forall s | s in services :: s !in cs')
  }

  // -------------------------------------------------------------------- which get nudged

  /** Without a diff every service gets the strongest nudge. */
  function Pending(services: seq<string>, changed: Option<Changes>): Changes
  {
    match changed
    case Some(m) => m
    case None => map s | s in services :: Recreate
  }

  /** Compose itself replaced this container: its identity is not the one seen before `up`. */
  predicate Replaced(before: Option<Ids>, after: Option<Ids>, service: string)
  {
    && before.Some? && after.Some?
    && (service !in before.value ||
        !(service in after.value && after.value[service] == before.value[service]))
  }

  /** The container is by its id the one that was there before, or nobody can tell. */
  predicate MayBeStale(before: Option<Ids>, after: Option<Ids>, service: string)
  {
    before.Some? && after.Some? ==>
      service in before.value && service in after.value && before.value[service] == after.value[service]
  }

  function Plan(order: seq<string>, services: seq<string>, before: Option<Ids>, after: Option<Ids>): seq<string>
  {
    if order == [] then []
    else
      (if order[0] in services && !Replaced(before, after, order[0]) then [order[0]] else [])
      + Plan(order[1..], services, before, after)
  }

  function NudgeOf(service: string, how: How, ok: bool): Command
  {
    if how == Recreate then ForceRecreate(service, ok) else Restart(service, ok)
  }

  /** One nudge for each service; the last one went as `ok` says, and those before it worked. */
  function Nudges(services: seq<string>, pending: Changes, ok: bool): seq<Command>
    requires forall s | s in services :: s in pending
  {
    if services == [] then []
    else
      [NudgeOf(services[0], pending[services[0]], |services| > 1 || ok)] + Nudges(services[1..], pending, ok)
  }

  lemma {:induction false} NudgesPlus(a: seq<string>, s: string, pending: Changes, ok: bool)
    requires forall x | x in a :: x in pending
    requires s in pending
    ensures Nudges(a + [s], pending, ok) == Nudges(a, pending, true) + [NudgeOf(s, pending[s], ok)]
  {
    hide NudgeOf;
    if a == [] {
      assert a + [s] == [s];
    } else {
      assert (a + [s])[1..] == a[1..] + [s] && (a + [s])[0] == a[0];
      assert a == [a[0]] + a[1..];
      NudgesPlus(a[1..], s, pending, ok);
    }
  }

  /**
   Minimal disturbance: `up` nudges exactly the expected services of the diff whose container is,
   by its id, the one that was there before, running or not; and all of them when either listing
   is missing.
   */
  lemma {:induction false} PlanIsMinimal(order: seq<string>, services: seq<string>,
                                         before: Option<Ids>, after: Option<Ids>, s: string)
    ensures s in Plan(order, services, before, after) <==>
      && s in order && s in services
      && (|| before.None? || after.None?
          || (s in before.value && s in after.value && before.value[s] == after.value[s]))
  {
    if order != [] {
      assert order == [order[0]] + order[1..];
      PlanIsMinimal(order[1..], services, before, after, s);
    }
  }

  // ------------------------------------------------------------- what a successful `up` left

  /** The old container carried over, or one that is current. */
  predicate Touched(t: Tree, s: string, cs: Containers, c': Container)
  {
    Current(t, s, c') || (s in cs && CarriedOver(t, s, cs[s], c'))
  }

  predicate Nudged(t: Tree, s: string, how: How, c': Container)
  {
    Current(t, s, c') || (how == Mount && c'.mounts == Part(t, s, BindMount))
  }

  ghost predicate Converged(t: Tree, services: seq<string>, pending: Changes, cs: Containers, cs': Containers)
  {
    forall s | s in cs' ::
      Touched(t, s, cs, cs'[s]) && (s in services && s in pending ==> Nudged(t, s, pending[s], cs'[s]))
  }

  lemma DriftedLater(t: Tree, s: string, cs: Containers, how: How, c: Container, c': Container)
    requires CarriedOver(t, s, c, c')
    ensures Touched(t, s, cs, c) ==> Touched(t, s, cs, c')
    ensures Nudged(t, s, how, c) ==> Nudged(t, s, how, c')
    ensures Current(t, s, c) ==> Current(t, s, c')
  {
    hide ReadRecords, AccountsOf, DeliveryOf;
    if Current(t, s, c) {
      CurrentSurvives(t, s, c, c');
    } else if s in cs && CarriedOver(t, s, cs[s], c) {
      CarriedOverTwice(t, s, cs[s], c, c');
    }
  }

  lemma ConvergedDrifts(t: Tree, services: seq<string>, pending: Changes, cs: Containers,
                        mid: Containers, cs': Containers)
    requires Converged(t, services, pending, cs, mid) && Drifted(t, mid, cs')
    ensures Converged(t, services, pending, cs, cs')
  {
    hide ReadRecords, AccountsOf, DeliveryOf, Current, CarriedOver;
    forall s | s in cs'
      ensures Touched(t, s, cs, cs'[s]) && (s in services && s in pending ==> Nudged(t, s, pending[s], cs'[s]))
    {
      DriftedLater(t, s, cs, if s in pending then pending[s] else Mount, mid[s], cs'[s]);
    }
  }

  // ------------------------------------------------------- every command has a way to succeed

  function AllCreated(t: Tree, services: seq<string>, cs: Containers, id: nat): Containers
  {
    map s | s in cs.Keys + SetOf(services) :: if s in services then Created(t, s, id) else cs[s]
  }

  lemma CreatedAreWellFormed(t: Tree, services: seq<string>, cs: Containers, nextId: nat)
    requires WellFormed(cs, nextId)
    ensures var cs' := AllCreated(t, services, cs, nextId);
      && WellFormed(cs', nextId + 1) && SameOutside(services, cs, cs')
      && forall s | s in services :: s in cs' && cs'[s] == Created(t, s, nextId)
  {
    hide Created, Shaped;
    var cs' := AllCreated(t, services, cs, nextId);
    forall s | s in cs' ensures cs'[s].id < nextId + 1 && Shaped(s, cs'[s]) {
      CreatedIsShaped(t, s, nextId);
      CreatedHasId(t, s, nextId);
    }
  }

  lemma CreatedHasId(t: Tree, s: string, id: nat)
    ensures Created(t, s, id).id == id && Created(t, s, id).running
  {
  }

  lemma UpCanSucceed(t: Tree, services: seq<string>, cs: Containers, nextId: nat)
    requires WellFormed(cs, nextId)
    ensures exists cs', n :: UpOutcome(t, services, cs, nextId, cs', n, true)
  {
    hide Created, Current, WellFormed, AllCreated;
    var cs' := AllCreated(t, services, cs, nextId);
    CreatedAreWellFormed(t, services, cs, nextId);
    forall s | s in services ensures s in cs' && BroughtUp(t, s, cs, nextId, cs'[s]) {
      CreatedIsShaped(t, s, nextId);
      CreatedHasId(t, s, nextId);
    }
    assert UpOutcome(t, services, cs, nextId, cs', nextId + 1, true);
  }

  lemma RecreateCanSucceed(t: Tree, service: string, cs: Containers, nextId: nat)
    requires WellFormed(cs, nextId)
    ensures exists cs', n :: RecreateOutcome(t, service, cs, nextId, cs', n, true)
  {
    hide Created, Current, WellFormed, AllCreated;
    CreatedAreWellFormed(t, [service], cs, nextId);
    CreatedIsShaped(t, service, nextId);
    CreatedHasId(t, service, nextId);
    assert service in [service];
    assert RecreateOutcome(t, service, cs, nextId, AllCreated(t, [service], cs, nextId), nextId + 1, true);
  }

  lemma RestartCanSucceed(t: Tree, service: string, cs: Containers, nextId: nat)
    requires WellFormed(cs, nextId)
    ensures exists cs' :: RestartOutcome(t, service, cs, nextId, cs', true)
  {
    hide ReadRecords, AccountsOf, Part;
    var cs' := if service in cs then cs[service := Started(t, service, cs[service])] else cs;
    assert RestartOutcome(t, service, cs, nextId, cs', true);
  }

  lemma RmCanSucceed(services: seq<string>, cs: Containers, nextId: nat)
    requires WellFormed(cs, nextId)
    ensures exists cs' :: RmOutcome(services, cs, nextId, cs', true)
  {
    hide Shaped;
    assert RmOutcome(services, cs, nextId, cs - SetOf(services), true);
  }

  class Docker {
    var containers: Containers
    var nextId: nat
    var log: seq<Command>
    /** A host that does nothing on its own: the assumption behind "every step succeeds". */
    const calm: bool
    /** A runtime that does what it is asked to. */
    const obliging: bool

    constructor (calm: bool, obliging: bool)
      ensures Valid() && containers == map[] && this.calm == calm && this.obliging == obliging
    {
      containers, nextId, log := map[], 0, [];
      this.calm, this.obliging := calm, obliging;
    }

    ghost predicate Valid()
      reads this
    {
      WellFormed(containers, nextId)
    }

    /** Anything the host does by itself. */
    method Host(t: Tree)
      requires Valid()
      modifies this`containers
      ensures Valid() && Drifted(t, old(containers), containers)
      ensures calm ==> containers == old(containers)
    {
      if !calm {
        var acts: seq<HostAct> := *;
        HostActsAreDrift(t, containers, acts);
        DriftKeepsShape(t, containers, Acts(t, containers, acts), nextId);
        containers := Acts(t, containers, acts);
      }
    }

    /** Every container that exists, running or not; None when the listing fails. */
    method ListAll() returns (answer: Option<Ids>)
      modifies this`log
      ensures log == old(log) + [Ps(answer)]
      ensures answer.Some? ==> answer.value == IdsOf(containers)
    {
      var failed: bool := *;
      answer := if failed then None else Some(IdsOf(containers));
      log := log + [Ps(answer)];
    }

    method ComposeUp(t: Tree, services: seq<string>) returns (ok: bool)
      requires Valid()
      modifies this
      ensures Valid() && log == old(log) + [Up(services, ok)]
      ensures UpOutcome(t, services, old(containers), old(nextId), containers, nextId, ok)
      ensures obliging ==> ok
    {
      UpCanSucceed(t, services, containers, nextId);
      var cs, n, done :| UpOutcome(t, services, containers, nextId, cs, n, done) && (obliging ==> done);
      assert UpOutcome(t, services, containers, nextId, cs, n, done);
      containers, nextId, ok := cs, n, done;
      log := log + [Up(services, ok)];
    }

    method Recreate(t: Tree, service: string) returns (ok: bool)
      requires Valid()
      modifies this
      ensures Valid() && log == old(log) + [ForceRecreate(service, ok)]
      ensures RecreateOutcome(t, service, old(containers), old(nextId), containers, nextId, ok)
      ensures obliging ==> ok
    {
      RecreateCanSucceed(t, service, containers, nextId);
      var cs, n, done :| RecreateOutcome(t, service, containers, nextId, cs, n, done) && (obliging ==> done);
      assert RecreateOutcome(t, service, containers, nextId, cs, n, done);
      containers, nextId, ok := cs, n, done;
      log := log + [ForceRecreate(service, ok)];
    }

    method RestartService(t: Tree, service: string) returns (ok: bool)
      requires Valid()
      modifies this
      ensures Valid() && log == old(log) + [Restart(service, ok)] && nextId == old(nextId)
      ensures RestartOutcome(t, service, old(containers), nextId, containers, ok)
      ensures obliging ==> ok
    {
      RestartCanSucceed(t, service, containers, nextId);
      var cs, done :| RestartOutcome(t, service, containers, nextId, cs, done) && (obliging ==> done);
      assert RestartOutcome(t, service, containers, nextId, cs, done);
      containers, ok := cs, done;
      log := log + [Restart(service, ok)];
    }

    method Remove(services: seq<string>) returns (ok: bool)
      requires Valid()
      modifies this
      ensures Valid() && log == old(log) + [Rm(services, ok)] && nextId == old(nextId)
      ensures RmOutcome(services, old(containers), nextId, containers, ok)
      ensures obliging ==> ok
    {
      RmCanSucceed(services, containers, nextId);
      var cs, done :| RmOutcome(services, containers, nextId, cs, done) && (obliging ==> done);
      assert RmOutcome(services, containers, nextId, cs, done);
      containers, ok := cs, done;
      log := log + [Rm(services, ok)];
    }
  }

  // --------------------------------------------------------------------- `up` and teardown

  lemma UpBrings(t: Tree, services: seq<string>, cs0: Containers, cs: Containers, nextId: nat,
                 cs': Containers, nextId': nat, before: Option<Ids>, seen: Containers)
    requires Drifted(t, cs0, seen) && Drifted(t, seen, cs) && WellFormed(seen, nextId)
    requires UpOutcome(t, services, cs, nextId, cs', nextId', true)
    requires before.Some? ==> before.value == IdsOf(seen)
    ensures Converged(t, services, map[], cs0, cs')
    ensures forall s | s in services && s in cs' && before.Some? ::
              (s in before.value && cs'[s].id == before.value[s]) || Current(t, s, cs'[s])
  {
    hide ReadRecords, AccountsOf, DeliveryOf;
    forall s | s in cs'
      ensures Touched(t, s, cs0, cs'[s])
      ensures s in services && before.Some? ==>
              (s in before.value && cs'[s].id == before.value[s]) || Current(t, s, cs'[s])
    {
      if s in cs {
        CarriedOverTwice(t, s, cs0[s], seen[s], cs[s]);
      }
      if !Current(t, s, cs'[s]) {
        assert s in cs && (cs'[s] == cs[s] || cs'[s] == Started(t, s, cs[s]));
        CarriedOverTwice(t, s, cs0[s], cs[s], cs'[s]);
      }
    }
  }

  /** What the nudges issued so far have achieved. */
  ghost predicate Progress(t: Tree, services: seq<string>, pending: Changes, done: seq<string>,
                           before: Option<Ids>, after: Option<Ids>, cs0: Containers, cs: Containers)
  {
    forall s | s in cs ::
      && Touched(t, s, cs0, cs[s])
      && (s in services && Replaced(before, after, s) ==> Current(t, s, cs[s]))
      && (s in services && s in pending && s in done ==> Nudged(t, s, pending[s], cs[s]))
  }

  lemma ProgressDrifts(t: Tree, services: seq<string>, pending: Changes, done: seq<string>,
                       before: Option<Ids>, after: Option<Ids>, cs0: Containers, cs: Containers, cs': Containers)
    requires Progress(t, services, pending, done, before, after, cs0, cs) && Drifted(t, cs, cs')
    ensures Progress(t, services, pending, done, before, after, cs0, cs')
  {
    hide ReadRecords, AccountsOf, DeliveryOf, Current, CarriedOver, Replaced;
    forall s | s in cs'
      ensures Touched(t, s, cs0, cs'[s])
      ensures s in services && Replaced(before, after, s) ==> Current(t, s, cs'[s])
      ensures s in services && s in pending && s in done ==> Nudged(t, s, pending[s], cs'[s])
    {
      DriftedLater(t, s, cs0, if s in pending then pending[s] else Mount, cs[s], cs'[s]);
    }
  }

  lemma NudgeProgresses(t: Tree, services: seq<string>, pending: Changes, done: seq<string>,
                        before: Option<Ids>, after: Option<Ids>, cs0: Containers, cs: Containers,
                        cs': Containers, service: string)
    requires Progress(t, services, pending, done, before, after, cs0, cs)
    requires SameOutside([service], cs, cs') && service in pending
    requires service in cs' ==>
      || Current(t, service, cs'[service])
      || (pending[service] == Mount && service in cs && cs'[service] == Started(t, service, cs[service]))
    ensures Progress(t, services, pending, done + [service], before, after, cs0, cs')
  {
    hide ReadRecords, AccountsOf, DeliveryOf, Replaced;
    forall s | s in cs'
      ensures Touched(t, s, cs0, cs'[s])
      ensures s in services && Replaced(before, after, s) ==> Current(t, s, cs'[s])
      ensures s in services && s in pending && s in done + [service] ==> Nudged(t, s, pending[s], cs'[s])
    {
      if s == service && !Current(t, s, cs'[s]) {
        assert CarriedOver(t, s, cs[s], cs'[s]);
        DriftedLater(t, s, cs0, pending[s], cs[s], cs'[s]);
      } else if s != service {
        assert s !in [service] && cs'[s] == cs[s];
      }
    }
  }

  /** One `up -d` for everything, between two listings of every container. */
  method StartAll(docker: Docker, t: Tree, services: seq<string>, ghost pending: Changes)
    returns (ok: bool, before: Option<Ids>, after: Option<Ids>)
    requires docker.Valid()
    modifies docker
    ensures docker.Valid()
    ensures ok ==> Progress(t, services, pending, [], before, after, old(docker.containers), docker.containers)
    ensures ok && docker.calm ==> AllRunning(services, docker.containers)
    ensures docker.obliging ==> ok
    ensures docker.log == old(docker.log) + [Ps(before), Up(services, ok)] + if ok then [Ps(after)] else []
  {
    hide ReadRecords, AccountsOf, DeliveryOf, Replaced, CarriedOver, Current, BroughtUp;
    after := None;
    ghost var cs0 := docker.containers;
    docker.Host(t);
    before := docker.ListAll();
    ghost var seen, ids := docker.containers, docker.nextId;
    docker.Host(t);
    ghost var cs := docker.containers;
    ok := docker.ComposeUp(t, services);
    if !ok {
      return;
    }
    ghost var up := docker.containers;
    UpBrings(t, services, cs0, cs, ids, up, docker.nextId, before, seen);
    UpRuns(t, services, cs, ids, up, docker.nextId);
    docker.Host(t);
    after := docker.ListAll();
    AfterUp(t, services, pending, before, after, cs0, up, docker.containers);
  }

  /** A nudge of one service, of the strength its inputs demand. */
  method Nudge(docker: Docker, t: Tree, service: string, how: How) returns (ok: bool, ghost prev: Containers)
    requires docker.Valid()
    modifies docker
    ensures docker.Valid()
    ensures docker.log == old(docker.log) + [NudgeOf(service, how, ok)]
    ensures Drifted(t, old(docker.containers), prev) && (docker.calm ==> prev == old(docker.containers))
    ensures SameOutside([service], prev, docker.containers)
    ensures ok && service in docker.containers ==>
      || Current(t, service, docker.containers[service])
      || (how == Mount && service in prev && docker.containers[service] == Started(t, service, prev[service]))
    ensures ok && service in prev ==> service in docker.containers && docker.containers[service].running
    ensures docker.obliging ==> ok
  {
    hide ReadRecords, AccountsOf, DeliveryOf, CarriedOver, Current;
    docker.Host(t);
    prev := docker.containers;
    if how == Recreate {
      ok := docker.Recreate(t, service);
    } else {
      ok := docker.RestartService(t, service);
    }
  }

  /**
   Starts everything that has to be up, then nudges the services whose inputs changed.
   `nudged` are the services it nudged, in order, whether or not the last nudge succeeded.
   */
  method UpServices(docker: Docker, t: Tree, enabled: seq<Protocol>, changed: Option<Changes>)
    returns (ok: bool, before: Option<Ids>, after: Option<Ids>, nudged: seq<string>)
    requires docker.Valid()
    modifies docker
    ensures docker.Valid()
    ensures var services, pending := Services(enabled), Pending(Services(enabled), changed);
      && (forall s | s in nudged :: s in pending)
      && nudged <= Plan(Sorted(pending.Keys), services, before, after)
      && (ok ==> nudged == Plan(Sorted(pending.Keys), services, before, after))
      && (ok ==> Converged(t, services, pending, old(docker.containers), docker.containers))
      && (ok && docker.calm ==> AllRunning(services, docker.containers))
    ensures docker.obliging ==> ok
    ensures forall s | s in nudged :: s in Services(enabled) && MayBeStale(before, after, s)
    ensures ok ==> forall s :: s in nudged <==>
      s in Pending(Services(enabled), changed) && s in Services(enabled) && MayBeStale(before, after, s)
    ensures Ascending(nudged)
    ensures CameUp(old(docker.log), docker.log, enabled, changed, nudged, before, after, ok)
  {
    hide *;
    var services := ExpectedServices(enabled);
    var pending := Pending(services, changed);
    var order := Sorted(pending.Keys);
    nudged := [];
    ghost var cs0 := docker.containers;
    ok, before, after := StartAll(docker, t, services, pending);
    EmptyPlan(order, services, before, after, pending);
    ghost var base := docker.log;
    if !ok {
      assert docker.log == old(docker.log) + [Ps(before), Up(services, false)];
      UpFailed(old(docker.log), enabled, changed, before, after);
      return;
    }
    assert base == old(docker.log) + [Ps(before), Up(services, true), Ps(after)];
    for i := 0 to |order|
      invariant docker.Valid() && (forall s | s in nudged :: s in pending)
      invariant nudged == Plan(order[..i], services, before, after)
      invariant Progress(t, services, pending, order[..i], before, after, cs0, docker.containers)
      invariant docker.log == base + Nudges(nudged, pending, true)
      invariant docker.calm ==> AllRunning(services, docker.containers)
    {
      var s := order[i];
      PlanStep(order, i, services, before, after);
      if s !in services || Replaced(before, after, s) {
        SkipProgresses(t, services, pending, order[..i], before, after, cs0, docker.containers, s);
        continue;
      }
      ghost var was := docker.containers;
      ghost var prev;
      ok, prev := Nudge(docker, t, s, pending[s]);
      NudgesPlus(nudged, s, pending, ok);
      assert docker.log == base + Nudges(nudged + [s], pending, ok);
      nudged := nudged + [s];
      if !ok {
        NudgedAsPlanned(order, services, before, after, nudged, pending);
        UpWorked(old(docker.log), enabled, changed, nudged, before, after, ok);
        return;
      }
      ProgressDrifts(t, services, pending, order[..i], before, after, cs0, was, prev);
      NudgeProgresses(t, services, pending, order[..i], before, after, cs0, prev, docker.containers, s);
      StillRunning(services, was, prev, docker.containers, s);
    }
    assert order[..|order|] == order;
    NudgedAsPlanned(order, services, before, after, nudged, pending);
    UpWorked(old(docker.log), enabled, changed, nudged, before, after, true);
    ProgressDone(t, services, pending, order, before, after, cs0, docker.containers);
  }

  /**
   The commands of one `up`, in order: a listing, one `up -d` for everything, a listing, the nudges.
   It ends with the first that fails.
   */
  ghost predicate CameUp(was: seq<Command>, now: seq<Command>, enabled: seq<Protocol>, changed: Option<Changes>,
                         nudged: seq<string>, before: Option<Ids>, after: Option<Ids>, ok: bool)
  {
    var services, pending := Services(enabled), Pending(Services(enabled), changed);
    && (forall s | s in nudged :: s in pending)
    && (|| (!ok && nudged == [] && now == was + [Ps(before), Up(services, false)])
        || ((nudged == [] ==> ok) &&
            now == was + [Ps(before), Up(services, true), Ps(after)] + Nudges(nudged, pending, ok)))
  }

  lemma UpFailed(was: seq<Command>, enabled: seq<Protocol>, changed: Option<Changes>, before: Option<Ids>,
                 after: Option<Ids>)
    ensures CameUp(was, was + [Ps(before), Up(Services(enabled), false)], enabled, changed, [], before, after, false)
    ensures Ascending([])
  {
  }

  lemma UpWorked(was: seq<Command>, enabled: seq<Protocol>, changed: Option<Changes>, nudged: seq<string>,
                 before: Option<Ids>, after: Option<Ids>, ok: bool)
    requires forall s | s in nudged :: s in Pending(Services(enabled), changed)
    requires nudged == [] ==> ok
    ensures CameUp(was, was + [Ps(before), Up(Services(enabled), true), Ps(after)]
                          + Nudges(nudged, Pending(Services(enabled), changed), ok),
                   enabled, changed, nudged, before, after, ok)
  {
    hide Services, Pending, Nudges;
  }

  lemma NudgedAsPlanned(order: seq<string>, services: seq<string>, before: Option<Ids>, after: Option<Ids>,
                        nudged: seq<string>, pending: Changes)
    requires nudged <= Plan(order, services, before, after) && forall s :: s in order <==> s in pending
    requires Ascending(order)
    ensures forall s | s in nudged :: s in services && MayBeStale(before, after, s)
    ensures Ascending(nudged)
    ensures nudged == Plan(order, services, before, after) ==>
      forall s :: s in nudged <==> s in pending && s in services && MayBeStale(before, after, s)
  {
    hide Plan, Replaced;
    PlanAscends(order, services, before, after);
    forall s ensures s in Plan(order, services, before, after)
        <==> s in pending && s in services && MayBeStale(before, after, s) {
      PlanIsMinimal(order, services, before, after, s);
    }
  }

  lemma {:induction false} PlanAscends(order: seq<string>, services: seq<string>, before: Option<Ids>,
                                       after: Option<Ids>)
    requires Ascending(order)
    ensures Ascending(Plan(order, services, before, after))
  {
    hide Less;
    if order != [] {
      var rest := order[1..];
      assert Ascending(rest) by {
        assert forall i | 0 <= i < |rest| :: rest[i] == order[i + 1];
      }
      PlanAscends(rest, services, before, after);
      forall x | x in Plan(rest, services, before, after) ensures Less(order[0], x) {
        PlanIsMinimal(rest, services, before, after, x);
        var i :| 0 <= i < |rest| && rest[i] == x;
        assert order[i + 1] == x;
      }
    }
  }

  ghost predicate AllRunning(services: seq<string>, cs: Containers)
  {
    forall s | s in services :: s in cs && cs[s].running
  }

  lemma StillRunning(services: seq<string>, was: Containers, prev: Containers, cs: Containers, service: string)
    requires SameOutside([service], prev, cs)
    requires service in prev ==> service in cs && cs[service].running
    ensures was == prev && AllRunning(services, was) ==> AllRunning(services, cs)
  {
  }

  lemma ProgressDone(t: Tree, services: seq<string>, pending: Changes, order: seq<string>,
                     before: Option<Ids>, after: Option<Ids>, cs0: Containers, cs: Containers)
    requires Progress(t, services, pending, order, before, after, cs0, cs)
    requires forall s :: s in order <==> s in pending
    ensures Converged(t, services, pending, cs0, cs)
  {
    hide Touched, Nudged, Current, Replaced;
  }

  lemma EmptyPlan(order: seq<string>, services: seq<string>, before: Option<Ids>, after: Option<Ids>,
                  pending: Changes)
    ensures Plan(order[..0], services, before, after) == []
    ensures Nudges([], pending, true) == []
  {
  }

  function Planned(service: string, services: seq<string>, before: Option<Ids>, after: Option<Ids>): seq<string>
  {
    if service in services && !Replaced(before, after, service) then [service] else []
  }

  lemma PlanOf(first: string, rest: seq<string>, services: seq<string>, before: Option<Ids>, after: Option<Ids>)
    ensures Plan([first] + rest, services, before, after)
         == Planned(first, services, before, after) + Plan(rest, services, before, after)
  {
    hide Replaced;
    assert ([first] + rest)[1..] == rest;
  }

  lemma PlanOfNone(services: seq<string>, before: Option<Ids>, after: Option<Ids>)
    ensures Plan([], services, before, after) == []
  {
  }

  lemma {:induction false} PlanPlus(a: seq<string>, b: seq<string>, services: seq<string>,
                                    before: Option<Ids>, after: Option<Ids>)
    ensures Plan(a + b, services, before, after)
         == Plan(a, services, before, after) + Plan(b, services, before, after)
  {
    hide Plan, Planned, Replaced;
    if a == [] {
      assert a + b == b;
      PlanOfNone(services, before, after);
    } else {
      var rest := a[1..];
      assert a == [a[0]] + rest && a + b == [a[0]] + (rest + b);
      PlanPlus(rest, b, services, before, after);
      PlanOf(a[0], rest, services, before, after);
      PlanOf(a[0], rest + b, services, before, after);
    }
  }

  /** One more service looked at: the plan so far grows by it, or does not, and stays a prefix. */
  lemma PlanStep(order: seq<string>, i: nat, services: seq<string>, before: Option<Ids>, after: Option<Ids>)
    requires i < |order|
    ensures order[..i + 1] == order[..i] + [order[i]]
    ensures Plan(order[..i + 1], services, before, after) == Plan(order[..i], services, before, after)
              + if order[i] in services && !Replaced(before, after, order[i]) then [order[i]] else []
    ensures Plan(order[..i + 1], services, before, after) <= Plan(order, services, before, after)
  {
    var one := [order[i]];
    assert one[1..] == [];
    assert Plan(one, services, before, after)
        == if order[i] in services && !Replaced(before, after, order[i]) then one else [];
    hide Plan, Replaced;
    PlanPlus(order[..i], one, services, before, after);
    PlanPlus(order[..i + 1], order[i + 1..], services, before, after);
    assert order == order[..i + 1] + order[i + 1..];
  }

  lemma UpRuns(t: Tree, services: seq<string>, cs: Containers, nextId: nat, cs': Containers, nextId': nat)
    requires UpOutcome(t, services, cs, nextId, cs', nextId', true)
    ensures forall s | s in services :: s in cs' && cs'[s].running
  {
    hide Current;
  }

  lemma AfterUp(t: Tree, services: seq<string>, pending: Changes, before: Option<Ids>, after: Option<Ids>,
                cs0: Containers, up: Containers, cs: Containers)
    requires Converged(t, services, map[], cs0, up)
    requires forall s | s in services && s in up && before.Some? ::
              (s in before.value && up[s].id == before.value[s]) || Current(t, s, up[s])
    requires Drifted(t, up, cs)
    requires after.Some? ==> after.value == IdsOf(cs)
    ensures Progress(t, services, pending, [], before, after, cs0, cs)
  {
    hide ReadRecords, AccountsOf, DeliveryOf, Current;
    forall s | s in cs
      ensures Touched(t, s, cs0, cs[s])
      ensures s in services && Replaced(before, after, s) ==> Current(t, s, cs[s])
    {
      DriftedLater(t, s, cs0, Mount, up[s], cs[s]);
    }
  }

  lemma SkipProgresses(t: Tree, services: seq<string>, pending: Changes, done: seq<string>,
                       before: Option<Ids>, after: Option<Ids>, cs0: Containers, cs: Containers, s: string)
    requires Progress(t, services, pending, done, before, after, cs0, cs)
    requires s !in services || Replaced(before, after, s)
    ensures Progress(t, services, pending, done + [s], before, after, cs0, cs)
  {
    hide ReadRecords, AccountsOf, DeliveryOf, Current, CarriedOver, Replaced;
  }

  /** The services of protocols that are not enabled. */
  function Stale(enabled: seq<Protocol>): seq<string>
  {
    StaleAmong(CompositeServices(PROTOCOLS), enabled)
  }

  function StaleAmong(all: seq<string>, enabled: seq<Protocol>): (r: seq<string>)
    ensures forall s :: s in r <==> s in all && s !in CompositeServices(enabled)
  {
    if all == [] then [] else
      assert all == [all[0]] + all[1..];
      (if all[0] in CompositeServices(enabled) then [] else [all[0]]) + StaleAmong(all[1..], enabled)
  }

  function RunningAmong(services: seq<string>, cs: Containers): (r: seq<string>)
    ensures forall s :: s in r <==> s in services && s in cs && cs[s].running
  {
    if services == [] then [] else
      assert services == [services[0]] + services[1..];
      (if services[0] in cs && cs[services[0]].running then [services[0]] else [])
      + RunningAmong(services[1..], cs)
  }

  /** One removal of everything that has to go, or, with nothing to remove or no listing, no command. */
  predicate WentDown(was: seq<Command>, now: seq<Command>, gone: seq<string>, ok: bool)
  {
    now == was || (gone != [] && now == was + [Rm(gone, ok)])
  }

  /**
   Removes the running containers of protocols that are off. A stopped one is left behind, and
   a listing that fails is a failure, never "nothing to do".
   */
  method DownDisabled(docker: Docker, enabled: seq<Protocol>) returns (ok: bool)
    requires docker.Valid()
    modifies docker
    ensures docker.Valid() && docker.nextId == old(docker.nextId)
    ensures SameOutside(Stale(enabled), old(docker.containers), docker.containers)
    ensures SameOutside(RunningAmong(Stale(enabled), old(docker.containers)), old(docker.containers), docker.containers)
    ensures ok ==> forall s | s in Stale(enabled) :: s !in docker.containers || !docker.containers[s].running
    ensures docker.obliging ==> ok
    ensures WentDown(old(docker.log), docker.log, RunningAmong(Stale(enabled), old(docker.containers)), ok)
  {
    var stale := Stale(enabled);
    ok := true;
    if stale == [] {
      return;
    }
    var listed: bool := *;
    if !listed && !docker.obliging {
      return false;
    }
    var doomed := RunningAmong(stale, docker.containers);
    if doomed == [] {
      forall s | s in stale ensures s !in docker.containers || !docker.containers[s].running {
        assert s !in doomed;
      }
      return;
    }
    ok := docker.Remove(doomed);
    forall s | s in stale && ok && s in docker.containers ensures !docker.containers[s].running {
      assert s !in doomed;
    }
  }

  /** Which services that should be up are not; None when the listing fails. */
  method NotRunning(docker: Docker, enabled: seq<Protocol>) returns (answer: Option<set<string>>)
    ensures answer.Some? ==>
      answer.value == set s | s in Services(enabled) && !(s in docker.containers && docker.containers[s].running)
    ensures docker.obliging ==> answer.Some?
  {
    var services := ExpectedServices(enabled);
    var listed: bool := *;
    if !listed && !docker.obliging {
      return None;
    }
    return Some(set s | s in services && !(s in docker.containers && docker.containers[s].running));
  }
}
