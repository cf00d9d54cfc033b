/**
 The convergence mark. `pending` is the one bit of state.json that says a tree was promoted
 which some container may not hold yet; the steps below are what the commands and the host do
 to the live tree, the mark and the containers.
 */
module Convergence {
  import opened Wrappers
  import opened Strings
  import opened Users
  import opened Registry
  import opened Rendering
  import opened TreeDiff
  import opened Containers
  import opened Compose

  datatype Machine = Machine(live: Option<Tree>, pending: bool, containers: Containers, nextId: nat)

  function LiveTree(live: Option<Tree>): Tree
  {
    match live case None => map[] case Some(t) => t
  }

  /**
   While the mark is clear, every existing container, running or stopped, of every service the
   live tree feeds holds exactly what a freshly created one would read from that tree.
   */
  ghost predicate MarkSound(m: Machine)
  {
    && WellFormed(m.containers, m.nextId)
    && (!m.pending && m.live.Some? ==> FedAreCurrent(m.live.value, m.containers))
  }

  ghost predicate FedAreCurrent(t: Tree, cs: Containers)
  {
    forall s | s in cs && Feeds(t, s) :: Current(t, s, cs[s])
  }

  // ------------------------------------------------------------------------------- steps

  /** The host acts, or a command ends before it promotes anything. */
  ghost predicate Idle(a: Machine, b: Machine)
  {
    && b.live == a.live && b.pending == a.pending
    && WellFormed(b.containers, b.nextId)
    && Drifted(LiveTree(a.live), a.containers, b.containers)
  }

  /** A tree was promoted, and the apply ended early: by request, by a failure, or cut short. */
  ghost predicate Unconverged(a: Machine, b: Machine, candidate: Tree)
  {
    b.live == Some(candidate) && b.pending && WellFormed(b.containers, b.nextId)
  }

  /** The diff `up` is given: none at all while an earlier promotion is still unconverged. */
  ghost predicate GivenDiff(a: Machine, candidate: Tree, changed: Option<Changes>)
  {
    if a.pending then changed == None else DiffSpec(a.live, candidate, changed)
  }

  ghost predicate FedBy(t: Tree, services: seq<string>)
  {
    forall s | Feeds(t, s) :: s in services
  }

  ghost predicate ConvergedServices(t: Tree, services: seq<string>, pending: Changes,
                                    cs: Containers, cs': Containers)
  {
    forall s | s in cs' && s in services ::
      Touched(t, s, cs, cs'[s]) && (s in pending ==> Nudged(t, s, pending[s], cs'[s]))
  }

  /** The apply ran to its end; the mark is cleared when every port came up. */
  ghost predicate Finished(a: Machine, b: Machine, candidate: Tree, services: seq<string>,
                           changed: Option<Changes>, ready: bool)
  {
    && b.live == Some(candidate) && b.pending == !ready
    && WellFormed(b.containers, b.nextId)
    && FedBy(candidate, services)
    && GivenDiff(a, candidate, changed)
    && ConvergedServices(candidate, services, Pending(services, changed), a.containers, b.containers)
  }

  ghost predicate Step(a: Machine, b: Machine)
  {
    || Idle(a, b)
    || (exists t :: Unconverged(a, b, t))
    || (exists t, services, changed, ready :: Finished(a, b, t, services, changed, ready))
  }

  ghost predicate Run(ms: seq<Machine>)
  {
    forall i | 0 <= i < |ms| - 1 :: Step(ms[i], ms[i + 1])
  }

  // --------------------------------------------------------------------------- soundness

  /** A finished apply leaves every container of a fed service current, whatever the mark says. */
  lemma FinishedIsCurrent(a: Machine, b: Machine, t: Tree, services: seq<string>,
                          changed: Option<Changes>, ready: bool)
    requires MarkSound(a) && Finished(a, b, t, services, changed, ready)
    ensures FedAreCurrent(t, b.containers)
  {
    hide ConsumerOf, DeliveryOf, ReadRecords, AccountsOf, DiffSpec, FilesOf, Differs;
    forall s | s in b.containers && Feeds(t, s)
      ensures Current(t, s, b.containers[s])
    {
      ServiceIsCurrent(a, b, t, services, changed, ready, s);
    }
  }

  lemma ServiceIsCurrent(a: Machine, b: Machine, t: Tree, services: seq<string>,
                         changed: Option<Changes>, ready: bool, s: string)
    requires MarkSound(a) && Finished(a, b, t, services, changed, ready)
    requires s in b.containers && Feeds(t, s)
    ensures Current(t, s, b.containers[s])
  {
    hide ConsumerOf, DeliveryOf, ReadRecords, AccountsOf, FilesOf, Differs, Part;
    var c := b.containers[s];
    var pending := Pending(services, changed);
    assert s in services;
    if s in pending {
      if pending[s] == Mount && !Current(t, s, c) {
        MountMeansMountable(a, t, changed, s);
        RestartIsEnough(t, s, c);
      }
    } else {
      var before := a.live.value;
      AbsentMeansIdentical(before, t, changed.value, s);
      if !Current(t, s, c) {
        SameInputsSameCurrent(before, t, s, a.containers[s]);
        CurrentSurvives(t, s, a.containers[s], c);
      }
    }
  }

  lemma MountMeansMountable(a: Machine, t: Tree, changed: Option<Changes>, s: string)
    requires GivenDiff(a, t, changed)
    requires changed.Some? && s in changed.value && changed.value[s] == Mount
    ensures Mountable(s)
  {
    hide ConsumerOf;
    assert Demands(a.live.value, t, s, Mount);
    var rel :| Differs(a.live.value, t, rel) && ConsumerOf(rel) == Some(Consumer(s, Mount));
    MountRows(rel);
  }

  /** Every step keeps the mark sound. */
  lemma StepKeepsMark(a: Machine, b: Machine)
    requires MarkSound(a) && Step(a, b)
    ensures MarkSound(b)
  {
    hide ConsumerOf, DeliveryOf, ReadRecords, AccountsOf, Current, CarriedOver, WellFormed, DiffSpec;
    if Idle(a, b) {
      if !b.pending && b.live.Some? {
        forall s | s in b.containers && Feeds(b.live.value, s)
          ensures Current(b.live.value, s, b.containers[s])
        {
          CurrentSurvives(b.live.value, s, a.containers[s], b.containers[s]);
        }
      }
    } else if t :| Unconverged(a, b, t) {
    } else {
      var t, services, changed, ready :| Finished(a, b, t, services, changed, ready);
      FinishedIsCurrent(a, b, t, services, changed, ready);
    }
  }

  /** Mark soundness: it holds at every point of every run that starts from a sound machine. */
  lemma {:induction false} MarkSoundness(ms: seq<Machine>, i: nat)
    requires Run(ms) && i < |ms| && MarkSound(ms[0])
    ensures MarkSound(ms[i])
    decreases i
  {
    hide MarkSound, Step;
    if i > 0 {
      MarkSoundness(ms, i - 1);
      StepKeepsMark(ms[i - 1], ms[i]);
    }
  }

  // --------------------------------------------------------------- recovery and idempotence

  /**
   From any machine with the mark set, however stale its containers, one finished apply makes
   every container of every service that should be up current, and clears the mark.
   */
  lemma Recovery(a: Machine, b: Machine, t: Tree, services: seq<string>, changed: Option<Changes>)
    requires a.pending && Finished(a, b, t, services, changed, true)
    ensures !b.pending
    ensures forall s | s in b.containers && s in services :: Current(t, s, b.containers[s])
    ensures MarkSound(b)
  {
    hide ConsumerOf, DeliveryOf, ReadRecords, AccountsOf, Current, CarriedOver;
    assert Pending(services, changed) == map s | s in services :: Recreate;
  }

  /** An apply of the same tree after one that cleared the mark has nothing to nudge. */
  lemma SecondApplyIsIdle(b: Machine, c: Machine, t: Tree, services: seq<string>, changed: Option<Changes>,
                          ready: bool, before: Option<Ids>, after: Option<Ids>)
    requires b.live == Some(t) && !b.pending && Finished(b, c, t, services, changed, ready)
    ensures changed == Some(map[])
    ensures Plan(Sorted(Pending(services, changed).Keys), services, before, after) == []
  {
    SameTreeChangesNothing(t, changed);
  }

  // -------------------------------------------- an interruption between the swap and the mark

  /** The link was swapped and the mark was not saved. */
  function Torn(a: Machine, candidate: Tree): Machine
  {
    a.(live := Some(candidate))
  }

  /** No service the candidate feeds changes: what makes an unmarked promotion harmless. */
  ghost predicate NothingToConverge(previous: Tree, candidate: Tree)
  {
    forall s | Feeds(candidate, s) :: FilesOf(previous, s) == FilesOf(candidate, s)
  }

  /**
   Interrupted exactly there with the mark clear, the machine can come out unsound. It is safe
   for every machine precisely when the promotion changed no input of a service it feeds.
   */
  lemma TornIsSafeIff(previous: Tree, candidate: Tree)
    ensures (forall a: Machine | MarkSound(a) && a.live == Some(previous) && !a.pending ::
               MarkSound(Torn(a, candidate)))
       <==> NothingToConverge(previous, candidate)
  {
    hide ConsumerOf, DeliveryOf, ReadRecords, AccountsOf;
    if NothingToConverge(previous, candidate) {
      forall a: Machine | MarkSound(a) && a.live == Some(previous) && !a.pending
        ensures MarkSound(Torn(a, candidate))
      {
        TornSafe(a, previous, candidate);
      }
    } else {
      hide MarkSound, FilesOf;
      var s :| Feeds(candidate, s) && FilesOf(previous, s) != FilesOf(candidate, s);
      TornUnsafe(previous, candidate, s);
    }
  }

  /** Interrupted there at the first promotion of all, the machine is safe precisely when the tree feeds nothing. */
  lemma FirstTornIsSafeIff(candidate: Tree)
    ensures (forall a: Machine | MarkSound(a) && a.live == None && !a.pending :: MarkSound(Torn(a, candidate)))
       <==> forall s :: !Feeds(candidate, s)
  {
    hide ConsumerOf, DeliveryOf, ReadRecords, AccountsOf, Feeds, Current;
    if s :| Feeds(candidate, s) {
      var c := Created(map[], s, 0);
      var a := Machine(None, false, map[s := c], 1);
      CreatedIsShaped(map[], s, 0);
      NothingIsNotCurrent(candidate, s);
      assert MarkSound(a) && !MarkSound(Torn(a, candidate));
    }
  }

  /** A container created from no tree at all has not what a fed service reads. */
  lemma NothingIsNotCurrent(t: Tree, s: string)
    requires Feeds(t, s)
    ensures !Current(t, s, Created(map[], s, 0))
  {
    hide ConsumerOf, DeliveryOf, ReadRecords, AccountsOf;
    if Current(t, s, Created(map[], s, 0)) {
      SamePartsSameFiles(map[], t, s);
      SameFilesSameFeeds(map[], t, s);
    }
  }

  lemma TornSafe(a: Machine, previous: Tree, candidate: Tree)
    requires NothingToConverge(previous, candidate)
    requires MarkSound(a) && a.live == Some(previous) && !a.pending
    ensures MarkSound(Torn(a, candidate))
  {
    hide ConsumerOf, DeliveryOf, ReadRecords, AccountsOf, Current, FilesOf;
    forall s | s in a.containers && Feeds(candidate, s) ensures Current(candidate, s, a.containers[s]) {
      SameFilesSameFeeds(previous, candidate, s);
      SameInputsSameCurrent(previous, candidate, s, a.containers[s]);
    }
  }

  lemma SameFilesSameFeeds(a: Tree, b: Tree, s: string)
    requires FilesOf(a, s) == FilesOf(b, s)
    ensures Feeds(a, s) <==> Feeds(b, s)
  {
    hide ConsumerOf;
    assert forall rel | ConsumerOf(rel).Some? && ConsumerOf(rel).value.service == s ::
      (rel in a <==> rel in FilesOf(a, s)) && (rel in b <==> rel in FilesOf(b, s));
  }

  /** The machine that shows it: one container of the changed service, current before the swap. */
  lemma TornUnsafe(previous: Tree, candidate: Tree, s: string)
    requires Feeds(candidate, s) && FilesOf(previous, s) != FilesOf(candidate, s)
    ensures exists a: Machine ::
      MarkSound(a) && a.live == Some(previous) && !a.pending && !MarkSound(Torn(a, candidate))
  {
    hide ConsumerOf, DeliveryOf, ReadRecords, AccountsOf;
    var c := Created(previous, s, 0);
    CreatedIsShaped(previous, s, 0);
    var a := Machine(Some(previous), false, map[s := c], 1);
    assert MarkSound(a);
    if Current(candidate, s, c) {
      SamePartsSameFiles(previous, candidate, s);
    }
    assert !MarkSound(Torn(a, candidate));
  }

  lemma SamePartsSameFiles(a: Tree, b: Tree, s: string)
    requires Part(a, s, BindMount) == Part(b, s, BindMount) && Part(a, s, EnvFile) == Part(b, s, EnvFile)
    ensures FilesOf(a, s) == FilesOf(b, s)
  {
    hide ConsumerOf, DeliveryOf;
    forall rel | ConsumerOf(rel).Some? && ConsumerOf(rel).value.service == s
      ensures rel in a <==> rel in b
      ensures rel in a ==> a[rel] == b[rel]
    {
      TableMatchesDelivery(rel);
      var how := DeliveryOf(rel).value.1;
      assert rel in a <==> rel in Part(a, s, how);
      assert rel in b <==> rel in Part(b, s, how);
      if rel in a && rel in b {
        assert a[rel] == Part(a, s, how)[rel] && b[rel] == Part(b, s, how)[rel];
      }
    }
  }

  // ------------------------------------------------------------------ what a tree feeds

  /** A rendered tree feeds only services that will be up. */
  lemma RenderedFeedsServices(common: map<string, string>, keyring: Keyring, users: seq<User>,
                              enabled: seq<Protocol>)
    requires TreeFor(common, keyring, users, enabled).Ok?
    ensures FedBy(TreeFor(common, keyring, users, enabled).value, Services(enabled))
  {
    hide *;
    var t := TreeFor(common, keyring, users, enabled).value;
    CoveredFeeds(t, common, keyring, users, enabled);
  }

  lemma CoveredFeeds(t: Tree, common: map<string, string>, keyring: Keyring, users: seq<User>,
                     enabled: seq<Protocol>)
    requires TreeFor(common, keyring, users, enabled) == Ok(t)
    ensures FedBy(t, Services(enabled))
  {
    hide ConsumerOf, TreeFor, Services;
    forall s | Feeds(t, s) ensures s in Services(enabled) {
      var rel :| rel in t && ConsumerOf(rel).Some? && ConsumerOf(rel).value.service == s;
      TreeIsCovered(common, keyring, users, enabled, rel);
    }
  }
}
