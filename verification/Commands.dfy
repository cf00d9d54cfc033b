/**
 The commands that change the desired state and then apply it, and whole sessions of them. Each
 may fail or be cut off at any of its writes.
 */
module Commands {
  import opened Wrappers
  import opened Strings
  import opened Users
  import opened Registry
  import opened Rendering
  import opened RenderInputs
  import opened TreeDiff
  import opened Containers
  import opened Compose
  import opened Convergence
  import opened Certificates
  import opened Stores
  import opened Reconcile
  import opened Ikev2Container
  import opened Revocation
  import opened Cli
  import Bootstrap

  // -------------------------------------------------------- what an apply leaves behind

  predicate WasAborted(r: Option<Applied>)
  {
    r.Some? && r.value.reconcile.Some? && r.value.reconcile.value.Aborted?
  }

  /** An apply keeps every certificate accounted for, unless its reconciliation was cut short. */
  lemma ApplyKeepsIdentity(l: Ledger, l': Ledger, r: Applied)
    requires Accounted(l) && LedgerAfter(l, l', r.reconcile) && !WasAborted(Some(r))
    ensures Accounted(l')
  {
    hide Accounted, Reconciled, CutShort;
    match r.reconcile
    case Some(Done(report)) => ReconcileKeepsIdentity(l, l', report);
    case _ =>
  }

  /** Even then, when every name it might issue for was marked beforehand. */
  lemma MarkedKeepsIdentity(l: Ledger, l': Ledger, r: Applied)
    requires Accounted(l) && LedgerAfter(l, l', r.reconcile) && AllMarked(l)
    ensures Accounted(l')
  {
    hide Accounted, Reconciled, CutShort, AllMarked;
    match r.reconcile
    case Some(Done(report)) => ReconcileKeepsIdentity(l, l', report);
    case Some(Aborted(report)) => CutShortIsAccounted(l, l', report);
    case _ =>
  }

  lemma ApplyKeepsUsers(l: Ledger, l': Ledger, r: Applied)
    requires LedgerAfter(l, l', r.reconcile)
    ensures SameButFlags(l.users, l'.users)
  {
    hide Reconciled, CutShort;
    match r.reconcile
    case Some(o) => ReconcileKeepsNames(l, l', o);
    case None =>
  }

  /** A cleared mark means the enabled users, and nobody else, get in. */
  lemma ClearedMeansRevoked(m: Machine, common: map<string, string>, keyring: Keyring, users: seq<User>,
                            enabled: seq<Protocol>, tree: Tree)
    requires MarkSound(m) && !m.pending && m.live == Some(tree)
    requires TreeFor(common, keyring, users, enabled) == Ok(tree)
    requires ReadsBack(keyring, users, enabled) && (DNSTT in enabled ==> DistinctNames(users))
    ensures ExactlyEnabledGetIn(m.containers, users, enabled, keyring)
  {
    hide TreeFor, ReadsBack, DistinctNames, Current, Feeds, LetsIn, WellFormed;
    forall s | s in m.containers && LetsIn(enabled, s) ensures Current(tree, s, m.containers[s]) {
      LettingInIsFed(tree, common, keyring, users, enabled, s);
    }
    RevokedEverywhere(tree, common, keyring, users, enabled, m.containers);
  }

  /**
   From any machine, however far from its tree: an apply that started with the mark set and got
   to its end with every port up leaves all expected services current and the mark clear.
   */
  lemma ApplyRecovers(a: Machine, mid: Machine, b: Machine, r: Applied, tree: Tree, services: seq<string>)
    requires Moved(a, mid, b, r, tree, services) && a.pending && r.end == Complete(true)
    ensures !b.pending && b.live == Some(tree) && MarkSound(b)
    ensures forall s | s in b.containers && s in services :: Current(tree, s, b.containers[s])
  {
    hide WellFormed, Drifted, Current, Finished, MarkSound;
    Recovery(mid, b, tree, services, r.changed);
    assert Finished(mid, b, tree, services, r.changed, true);
    LiveAfter(mid, b, tree, services, r.changed);
  }

  lemma LiveAfter(mid: Machine, b: Machine, tree: Tree, services: seq<string>, changed: Option<Changes>)
    requires Finished(mid, b, tree, services, changed, true)
    ensures b.live == Some(tree)
  {
  }

  // ------------------------------------------------------------------------ user commands

  lemma PlainIsNameable(name: string)
    requires PlainName(name) && name != "Client"
    ensures Nameable(name)
  {
    PlainNameShape(name);
  }

  /** `user add`; the record is new, with credentials of its own. None: refused or failed early. */
  method UserAdd(s: Server, u: User) returns (r: Option<Applied>)
    requires s.Sound() && u.enabled && !u.provisioned
    requires Renderable(u.name) ==> PlainName(u.name) && u.name != "Client"
    modifies s.docker, s.disk, s.store, s.box, s.ufw, s.iptables, s.watch, s.around
    ensures s.Sound()
    ensures old(Accounted(LedgerOf(s.box, s.store))) && !WasAborted(r) ==> Accounted(LedgerOf(s.box, s.store))
    ensures r.Some? ==> Renderable(u.name) && !Reserved(u.name) && Find(old(s.store.users), u.name).None?
    ensures r.Some? ==> SameButFlags(old(s.store.users) + [u], s.store.users)
    ensures r.None? ==> s.store.users in [old(s.store.users), old(s.store.users) + [u]]
    ensures r.None? && s.store.obliging ==> LedgerOf(s.box, s.store) == old(LedgerOf(s.box, s.store))
    ensures r.Some? ==>
      var l := old(LedgerOf(s.box, s.store));
      LedgerAfter(l.(users := l.users + [u]), LedgerOf(s.box, s.store), r.value.reconcile)
    ensures s.store.obliging && Renderable(u.name) && !Reserved(u.name) && Find(old(s.store.users), u.name).None? ==>
      r.Some?
    ensures s.EverythingWorks() && r.Some? && s.CanServe() ==> r.value.end == Complete(true)
  {
    hide SaysTrue, Moves, AskedFor, RunsExactly, Server.ForwardsThePool, Server.ForwardTaken,
      Server.EachOnItsOwn;
    hide TreeFor, EnabledProtocols, SameButFlags, AllMarked;
    hide MarkSound, Renderable, Reserved, PlainName, Nameable, Accounted, Idle, Unconverged, Finished, Find,
      LedgerAfter;
    if !Renderable(u.name) || Reserved(u.name) {
      return None;
    }
    var loaded := s.store.LoadUsers();
    if loaded.None? || Find(loaded.value, u.name).Some? {
      return None;
    }
    PlainIsNameable(u.name);
    ghost var l := LedgerOf(s.box, s.store);
    var saved := s.store.SaveUsers(loaded.value + [u]);
    if !saved {
      return None;
    }
    ghost var l1 := LedgerOf(s.box, s.store);
    if Accounted(l) {
      AddKeepsIdentity(l, u);
    }
    ghost var users := s.store.users;
    var applied, mid, tree := Apply(s, true);
    AppliedLedger(l1, LedgerOf(s.box, s.store), applied);
    StillCanServe(s, users, s.store.users);
    return Some(applied);
  }

  lemma AppliedLedger(l: Ledger, l': Ledger, r: Applied)
    requires LedgerAfter(l, l', r.reconcile)
    ensures Accounted(l) && (!WasAborted(Some(r)) || AllMarked(l)) ==> Accounted(l')
    ensures SameButFlags(l.users, l'.users)
  {
    hide Accounted, LedgerAfter, SameButFlags, AllMarked;
    ApplyKeepsUsers(l, l', r);
    if Accounted(l) && !WasAborted(Some(r)) {
      ApplyKeepsIdentity(l, l', r);
    } else if Accounted(l) && AllMarked(l) {
      MarkedKeepsIdentity(l, l', r);
    }
  }

  /** What is written down about certificates changes nothing of what can be served. */
  lemma StillCanServe(s: Server, us: seq<User>, vs: seq<User>)
    requires SameButFlags(us, vs)
    ensures TreeFor(s.common, Loaded(s.secrets.files, s.bytes), us, s.EnabledNow())
         == TreeFor(s.common, Loaded(s.secrets.files, s.bytes), vs, s.EnabledNow())
  {
    hide *;
    FlagsDoNotChangeTheTree(s.common, Loaded(s.secrets.files, s.bytes), us, vs, s.EnabledNow());
  }

  /** Certificates are accounted for, and stay so wherever a reconciliation might be cut short. */
  ghost predicate Guarded(s: Server)
    reads s, s.box, s.store
  {
    Accounted(LedgerOf(s.box, s.store)) && AllMarked(LedgerOf(s.box, s.store))
  }

  /** Records the intent to revoke before anything else is written. */
  method QueueRevocation(s: Server, u: User) returns (ok: bool)
    requires s.Sound() && u in s.store.users
    modifies s.store`file
    ensures s.Sound() && s.View() == old(s.View())
    ensures s.store.Current().enabled == old(s.store.Current()).enabled
    ensures s.store.Current().revokePending ==
      if ok then Queued(old(s.store.Current()).revokePending, u) else old(s.store.Current()).revokePending
    ensures s.store.users == old(s.store.users)
    ensures s.store.Current() == old(s.store.Current()).(revokePending := s.store.Current().revokePending)
    ensures old(Accounted(LedgerOf(s.box, s.store))) ==> Accounted(LedgerOf(s.box, s.store))
    ensures old(Guarded(s)) ==> Guarded(s)
    ensures s.store.obliging ==> ok
  {
    hide AllMarked;
    hide MarkSound, Accounted, Nameable, DefaultState, EnabledProtocols;
    ghost var l := LedgerOf(s.box, s.store);
    ok := true;
    if u.provisioned {
      var st := s.store.LoadState();
      if st.None? {
        return false;
      }
      if u.name !in st.value.revokePending {
        ok := s.store.SaveState(st.value.(revokePending := st.value.revokePending + [u.name]));
        QueueingKeepsIdentity(l, u);
        if Accounted(l) && AllMarked(l) {
          QueueingKeepsMarked(l, u);
        }
      }
    }
  }

  lemma QueueingKeepsIdentity(l: Ledger, u: User)
    requires u in l.users
    ensures Accounted(l) ==> Accounted(l.(queue := Queued(l.queue, u)))
  {
    hide Accounted;
    var l' := l.(queue := Queued(l.queue, u));
    if Accounted(l) {
      assert LedgerStep(l, l');
      StepKeepsIdentity(l, l');
    }
  }

  /** With distinct names, queueing the one found record is enough to remove or disable it. */
  lemma FoundIsRemovable(l: Ledger, u: User, name: string)
    requires DistinctNames(l.users) && u in l.users && Lower(u.name) == Lower(name)
    requires u.provisioned ==> u.name in l.queue
    ensures Removable(l, name)
  {
    hide Lower;
    forall v | v in l.users && Lower(v.name) == Lower(name) && v.provisioned ensures v.name in l.queue {
      var i :| 0 <= i < |l.users| && l.users[i] == u;
      var j :| 0 <= j < |l.users| && l.users[j] == v;
      assert i == j;
    }
  }

  /**
   No container of an enabled protocol honours this name, whatever the credential. Only the ikev2
   image's own account, should it be called that, goes on working.
   */
  ghost predicate LockedOut(cs: Containers, enabled: seq<Protocol>, name: string, keyring: Keyring)
  {
    forall s, n, secret | s in cs && LetsIn(enabled, s) && Lower(n) == Lower(name) && Honours(s, cs[s], n, secret) ::
      IsPrimary(s, keyring, n, secret)
  }

  ghost predicate NotEnabled(users: seq<User>, name: string)
  {
    forall u | u in users && Lower(u.name) == Lower(name) :: !u.enabled
  }

  lemma NotEnabledIsLockedOut(cs: Containers, users: seq<User>, enabled: seq<Protocol>, name: string, keyring: Keyring)
    requires ExactlyEnabledGetIn(cs, users, enabled, keyring) && NotEnabled(users, name)
    ensures LockedOut(cs, enabled, name, keyring)
  {
    hide Lower, Honours, Credential, LetsIn, IsPrimary;
    forall s, n, secret | s in cs && LetsIn(enabled, s) && Lower(n) == Lower(name) && Honours(s, cs[s], n, secret)
      ensures IsPrimary(s, keyring, n, secret)
    {
      assert !Entitled(users, enabled, s, n, secret);
    }
  }

  /** An apply whose end cleared the mark locks out every name that is not enabled. */
  lemma ClearedLocksOut(m: Machine, common: map<string, string>, keyring: Keyring, users: seq<User>,
                        enabled: seq<Protocol>, tree: Tree, name: string)
    requires MarkSound(m) && !m.pending && m.live == Some(tree)
    requires TreeFor(common, keyring, users, enabled) == Ok(tree)
    requires ReadsBack(keyring, users, enabled) && (DNSTT in enabled ==> DistinctNames(users))
    requires NotEnabled(users, name)
    ensures LockedOut(m.containers, enabled, name, keyring)
  {
    hide *;
    ClearedMeansRevoked(m, common, keyring, users, enabled, tree);
    NotEnabledIsLockedOut(m.containers, users, enabled, name, keyring);
  }

  /** Every certificate that opens the door was issued to an enabled user. */
  ghost predicate OnlyEnabledCertified(l: Ledger)
  {
    l.orphans == {} &&
    forall n | n in l.certs && !l.certs[n].revoked ::
      exists u :: u in l.users && u.enabled && u.name == n && u.holder == l.certs[n].holder
  }

  lemma CleanReconcileCertifies(l: Ledger, l': Ledger, r: Report)
    requires Accounted(l) && Reconciled(l, l', r) && NoFailures(r)
    ensures OnlyEnabledCertified(l')
  {
    ReconcileKeepsIdentity(l, l', r);
    ReconcileIsCorrect(l, l', r);
    hide Reconciled, DistinctNames, Lower;
    forall n | n in l'.certs && !l'.certs[n].revoked
      ensures exists u :: u in l'.users && u.enabled && u.name == n && u.holder == l'.certs[n].holder
    {
      assert n in ValidNames(l'.certs) && n in Wanted(l'.users);
      var u :| u in l'.users && u.enabled && u.name == n;
      assert l'.certs[u.name] == Cert(u.holder, false);
    }
  }

  /** No two users share a name, and nothing spans a line in the lists that are printed. */
  ghost predicate Legible(s: Server)
    reads s, s.store, s.secrets
  {
    ReadsBack(Loaded(s.secrets.files, s.bytes), s.store.users, s.EnabledNow()) && DistinctNames(s.store.users)
  }

  lemma FewerReadBack(keyring: Keyring, us: seq<User>, vs: seq<User>, enabled: seq<Protocol>)
    requires ReadsBack(keyring, us, enabled) && forall v | v in vs :: v in us || (!v.enabled)
    ensures ReadsBack(keyring, vs, enabled)
  {
    hide PlainName, Strip;
  }

  /** Finds the record and, when asked to, queues its revocation; None when any of that fails. */
  method Locate(s: Server, name: string, queue: bool) returns (users: Option<seq<User>>)
    requires s.Sound()
    modifies s.store`file
    ensures s.Sound() && s.View() == old(s.View())
    ensures s.store.Current().enabled == old(s.store.Current()).enabled
    ensures old(Accounted(LedgerOf(s.box, s.store))) ==> Accounted(LedgerOf(s.box, s.store))
    ensures s.store.users == old(s.store.users)
    ensures users.Some? ==> users.value == s.store.users && Find(users.value, name).Some?
    ensures s.store.Current() == old(s.store.Current()).(revokePending :=
      if users.Some? && queue then Queued(old(s.store.Current()).revokePending, Find(users.value, name).value)
      else old(s.store.Current()).revokePending)
    ensures users.Some? && queue && Accounted(LedgerOf(s.box, s.store)) ==> Removable(LedgerOf(s.box, s.store), name)
    ensures old(Guarded(s)) ==> Guarded(s)
    ensures s.store.obliging && Find(old(s.store.users), name).Some? ==> users.Some?
  {
    hide AllMarked;
    hide MarkSound, Nameable, Accounted, Find, Removable, DefaultState;
    var loaded := s.store.LoadUsers();
    if loaded.None? {
      return None;
    }
    var found := Find(loaded.value, name);
    if found.None? {
      return None;
    }
    FindFinds(loaded.value, name);
    if queue {
      var queued := QueueRevocation(s, found.value);
      if !queued {
        return None;
      }
      FoundIsQueued(LedgerOf(s.box, s.store), found.value, name);
    }
    return loaded;
  }

  lemma FoundIsQueued(l: Ledger, u: User, name: string)
    requires u in l.users && Lower(u.name) == Lower(name)
    requires u.provisioned ==> u.name in l.queue
    ensures Accounted(l) ==> Removable(l, name)
  {
    hide Lower, Removable;
    if Accounted(l) {
      FoundIsRemovable(l, u, name);
    }
  }

  /** `user rm`. */
  method UserRm(s: Server, name: string) returns (r: Option<Applied>)
    requires s.Sound()
    modifies s.docker, s.disk, s.store, s.box, s.ufw, s.iptables, s.watch, s.around
    ensures s.Sound()
    ensures old(Accounted(LedgerOf(s.box, s.store))) && !WasAborted(r) ==> Accounted(LedgerOf(s.box, s.store))
    ensures r.Some? ==> SameButFlags(Without(old(s.store.users), name), s.store.users)
    ensures r.None? ==> s.store.users in [old(s.store.users), Without(old(s.store.users), name)]
    ensures r.None? && s.store.obliging ==> LedgerOf(s.box, s.store) == old(LedgerOf(s.box, s.store))
    ensures r.Some? ==>
      var l := old(LedgerOf(s.box, s.store));
      && Find(l.users, name).Some?
      && LedgerAfter(l.(users := Without(l.users, name), queue := Queued(l.queue, Find(l.users, name).value)),
                     LedgerOf(s.box, s.store), r.value.reconcile)
    ensures r.Some? && r.value.end == Complete(true) && old(Legible(s)) ==>
      LockedOut(s.docker.containers, s.EnabledNow(), name, Loaded(s.secrets.files, s.bytes))
    ensures r.Some? && old(Accounted(LedgerOf(s.box, s.store))) && WentCleanly(r.value.reconcile) ==>
      OnlyEnabledCertified(LedgerOf(s.box, s.store))
    ensures old(Guarded(s)) ==> Accounted(LedgerOf(s.box, s.store))
    ensures s.store.obliging && Find(old(s.store.users), name).Some? ==> r.Some?
    ensures s.EverythingWorks() && r.Some? && s.CanServe() ==> r.value.end == Complete(true)
  {
    hide MarkSound, Nameable, Accounted, AllMarked, Idle, Unconverged, Finished, Find, LedgerAfter, Without,
      Queued, DistinctNames, Moved, LockedOut, ReadsBack, OnlyEnabledCertified, EnabledProtocols, NotEnabled,
      DefaultState, TreeFor, SameButFlags;
    var dropped := DropRecord(s, name);
    if !dropped {
      return None;
    }
    var applied := ApplyFor(s, name);
    return Some(applied);
  }

  /** The part of the removal that comes before the apply. */
  method DropRecord(s: Server, name: string) returns (ok: bool)
    requires s.Sound()
    modifies s.store
    ensures s.Sound() && s.EnabledNow() == old(s.EnabledNow())
    ensures s.store.users in [old(s.store.users), Without(old(s.store.users), name)]
    ensures ok ==>
      var l := old(LedgerOf(s.box, s.store));
      && Find(l.users, name).Some?
      && LedgerOf(s.box, s.store) ==
           l.(users := Without(l.users, name), queue := Queued(l.queue, Find(l.users, name).value))
    ensures !ok && s.store.obliging ==> LedgerOf(s.box, s.store) == old(LedgerOf(s.box, s.store))
    ensures old(Accounted(LedgerOf(s.box, s.store))) ==> Accounted(LedgerOf(s.box, s.store))
    ensures old(Guarded(s)) ==> Guarded(s)
    ensures ok && old(Legible(s)) ==> Legible(s) && NotEnabled(s.store.users, name)
    ensures s.store.obliging && Find(old(s.store.users), name).Some? ==> ok
  {
    hide MarkSound, Nameable, Accounted, AllMarked, Find, Removable, Without, Queued, DistinctNames,
      ReadsBack, EnabledProtocols, NotEnabled, DefaultState;
    var users := Locate(s, name, true);
    if users.None? {
      return false;
    }
    var left := Without(users.value, name);
    ghost var l := LedgerOf(s.box, s.store);
    WithoutIsNamed(users.value, name);
    RemovingKeepsIdentity(l, name);
    if AllMarked(l) {
      RemovingKeepsMarked(l, name);
    }
    if old(Legible(s)) {
      FewerReadBack(Loaded(s.secrets.files, s.bytes), users.value, left, s.EnabledNow());
    }
    ok := s.store.SaveUsers(left);
  }

  lemma FindFinds(users: seq<User>, name: string)
    ensures var r := Find(users, name); r.Some? ==> r.value in users && Lower(r.value.name) == Lower(name)
  {
  }

  lemma WithoutIsNamed(users: seq<User>, name: string)
    ensures forall u | u in Without(users, name) :: u in users
    ensures NotEnabled(Without(users, name), name)
    ensures DistinctNames(users) ==> DistinctNames(Without(users, name))
  {
    if DistinctNames(users) {
      WithoutIsDistinct(users, name);
    }
  }

  lemma RemovingKeepsIdentity(l: Ledger, name: string)
    requires Accounted(l) ==> Removable(l, name)
    ensures Accounted(l) ==> Accounted(l.(users := Without(l.users, name)))
  {
    hide Accounted, Without, Removable;
    if Accounted(l) {
      RemoveKeepsIdentity(l, name);
    }
  }

  /** The apply after a user's record was changed, and what it means for whoever that name was. */
  method ApplyFor(s: Server, name: string) returns (r: Applied)
    requires s.Sound()
    modifies s.docker, s.disk, s.store, s.box, s.ufw, s.iptables, s.watch, s.around
    ensures s.Sound()
    ensures SameButFlags(old(s.store.users), s.store.users)
    ensures LedgerAfter(old(LedgerOf(s.box, s.store)), LedgerOf(s.box, s.store), r.reconcile)
    ensures old(Accounted(LedgerOf(s.box, s.store))) && !WasAborted(Some(r)) ==> Accounted(LedgerOf(s.box, s.store))
    ensures r.end == Complete(true) && old(Legible(s)) && old(NotEnabled(s.store.users, name)) ==>
      LockedOut(s.docker.containers, s.EnabledNow(), name, Loaded(s.secrets.files, s.bytes))
    ensures old(Accounted(LedgerOf(s.box, s.store))) && WentCleanly(r.reconcile) ==>
      OnlyEnabledCertified(LedgerOf(s.box, s.store))
    ensures old(Guarded(s)) ==> Accounted(LedgerOf(s.box, s.store))
    ensures s.EverythingWorks() && s.CanServe() ==> r.end == Complete(true)
  {
    hide SaysTrue, Moves, AskedFor, RunsExactly, Server.ForwardsThePool, Server.ForwardTaken,
      Server.EachOnItsOwn;
    hide AllMarked;
    hide MarkSound, Nameable, Accounted, Idle, Unconverged, Finished, LedgerAfter, DistinctNames, LockedOut,
      ReadsBack, OnlyEnabledCertified, EnabledProtocols, NotEnabled, DefaultState, TreeFor, SameButFlags;
    ghost var l := LedgerOf(s.box, s.store);
    ghost var a := s.View();
    ghost var mid;
    ghost var tree;
    r, mid, tree := Apply(s, true);
    AppliedLedger(l, LedgerOf(s.box, s.store), r);
    AppliedCertifies(l, LedgerOf(s.box, s.store), r);
    StillCanServe(s, l.users, s.store.users);
    if r.end == Complete(true) && old(Legible(s)) && NotEnabled(l.users, name) {
      CompleteIsCleared(mid, s.View(), tree, Services(old(s.EnabledNow())), r.changed);
      ClearedLocksOut(s.View(), s.common, Loaded(s.secrets.files, s.bytes), l.users, s.EnabledNow(), tree, name);
    }
  }

  lemma CompleteIsCleared(mid: Machine, b: Machine, tree: Tree, services: seq<string>, changed: Option<Changes>)
    requires Finished(mid, b, tree, services, changed, true)
    ensures !b.pending && b.live == Some(tree)
  {
  }

  lemma AppliedCertifies(l: Ledger, l': Ledger, r: Applied)
    requires LedgerAfter(l, l', r.reconcile)
    ensures Accounted(l) && WentCleanly(r.reconcile) ==> OnlyEnabledCertified(l')
  {
    hide Accounted, OnlyEnabledCertified, Reconciled, CutShort;
    if Accounted(l) && WentCleanly(r.reconcile) {
      CleanReconcileCertifies(l, l', r.reconcile.value.report);
    }
  }

  lemma {:induction false} SetEnabledHits(users: seq<User>, name: string, on: bool)
    requires DistinctNames(users)
    ensures forall u | u in SetEnabled(users, name, on) && Lower(u.name) == Lower(name) :: u.enabled == on
    ensures DistinctNames(SetEnabled(users, name, on))
  {
    hide Lower;
    var vs := SetEnabled(users, name, on);
    SetEnabledMeets(users, name, on);
    forall i | 0 <= i < |users| ensures vs[i].name == users[i].name {
    }
  }

  lemma {:induction false} SetEnabledMeets(users: seq<User>, name: string, on: bool)
    requires DistinctNames(users)
    ensures forall u | u in SetEnabled(users, name, on) && Lower(u.name) == Lower(name) :: u.enabled == on
  {
    hide Lower;
    if users != [] {
      if Lower(users[0].name) == Lower(name) {
        forall u | u in users[1..] ensures Lower(u.name) != Lower(name) {
          var i :| 0 <= i < |users| - 1 && users[1..][i] == u;
          assert users[i + 1] == u;
        }
      } else {
        SetEnabledMeets(users[1..], name, on);
      }
    }
  }

  /** `user enable` and `user disable`. */
  method UserSetEnabled(s: Server, name: string, on: bool) returns (r: Option<Applied>)
    requires s.Sound()
    modifies s.docker, s.disk, s.store, s.box, s.ufw, s.iptables, s.watch, s.around
    ensures s.Sound()
    ensures old(Accounted(LedgerOf(s.box, s.store))) && !WasAborted(r) ==> Accounted(LedgerOf(s.box, s.store))
    ensures r.Some? ==> SameButFlags(SetEnabled(old(s.store.users), name, on), s.store.users)
    ensures r.None? ==> s.store.users in [old(s.store.users), SetEnabled(old(s.store.users), name, on)]
    ensures r.None? && s.store.obliging ==> LedgerOf(s.box, s.store) == old(LedgerOf(s.box, s.store))
    ensures r.Some? ==>
      var l := old(LedgerOf(s.box, s.store));
      && Find(l.users, name).Some?
      && LedgerAfter(l.(users := SetEnabled(l.users, name, on),
                        queue := if on then l.queue else Queued(l.queue, Find(l.users, name).value)),
                     LedgerOf(s.box, s.store), r.value.reconcile)
    ensures r.Some? && !on && r.value.end == Complete(true) && old(Legible(s)) ==>
      LockedOut(s.docker.containers, s.EnabledNow(), name, Loaded(s.secrets.files, s.bytes))
    ensures r.Some? && old(Accounted(LedgerOf(s.box, s.store))) && WentCleanly(r.value.reconcile) ==>
      OnlyEnabledCertified(LedgerOf(s.box, s.store))
    ensures old(Guarded(s)) && !on ==> Accounted(LedgerOf(s.box, s.store))
    ensures s.store.obliging && Find(old(s.store.users), name).Some? ==> r.Some?
    ensures s.EverythingWorks() && r.Some? && s.CanServe() ==> r.value.end == Complete(true)
  {
    hide MarkSound, Nameable, Accounted, AllMarked, Idle, Unconverged, Finished, Find, LedgerAfter,
      SetEnabled, Queued, DistinctNames, Moved, LockedOut, ReadsBack, OnlyEnabledCertified, EnabledProtocols,
      NotEnabled, DefaultState, TreeFor, SameButFlags;
    var switched := SwitchRecord(s, name, on);
    if !switched {
      return None;
    }
    var applied := ApplyFor(s, name);
    return Some(applied);
  }

  /** The part of the switch that comes before the apply; only a disabling queues a revocation. */
  method SwitchRecord(s: Server, name: string, on: bool) returns (ok: bool)
    requires s.Sound()
    modifies s.store
    ensures s.Sound() && s.EnabledNow() == old(s.EnabledNow())
    ensures s.store.users in [old(s.store.users), SetEnabled(old(s.store.users), name, on)]
    ensures ok ==>
      var l := old(LedgerOf(s.box, s.store));
      && Find(l.users, name).Some?
      && LedgerOf(s.box, s.store) ==
           l.(users := SetEnabled(l.users, name, on),
              queue := if on then l.queue else Queued(l.queue, Find(l.users, name).value))
    ensures !ok && s.store.obliging ==> LedgerOf(s.box, s.store) == old(LedgerOf(s.box, s.store))
    ensures old(Accounted(LedgerOf(s.box, s.store))) ==> Accounted(LedgerOf(s.box, s.store))
    ensures old(Guarded(s)) && !on ==> Guarded(s)
    ensures ok && !on && old(Legible(s)) ==> Legible(s) && NotEnabled(s.store.users, name)
    ensures s.store.obliging && Find(old(s.store.users), name).Some? ==> ok
  {
    hide MarkSound, Nameable, Accounted, AllMarked, Find, Removable, SetEnabled, Queued, DistinctNames,
      ReadsBack, EnabledProtocols, NotEnabled, DefaultState;
    var users := Locate(s, name, !on);
    if users.None? {
      return false;
    }
    var changed := SetEnabled(users.value, name, on);
    ghost var l := LedgerOf(s.box, s.store);
    SwitchingKeepsIdentity(l, name, on);
    if Accounted(l) && AllMarked(l) && !on {
      DisablingKeepsMarked(l, name);
    }
    if old(Legible(s)) && !on {
      DisabledIsLegible(Loaded(s.secrets.files, s.bytes), users.value, name, s.EnabledNow());
    }
    SwitchedNames(users.value, name, on);
    ok := s.store.SaveUsers(changed);
  }

  /** Every name is one that was there before, and as nameable. */
  lemma SwitchedNames(users: seq<User>, name: string, on: bool)
    requires forall u | u in users :: Nameable(u.name)
    ensures forall u | u in SetEnabled(users, name, on) :: Nameable(u.name)
  {
    hide Nameable, SetEnabled;
    SwitchedIsNamed(users, name, on);
  }

  lemma SwitchingKeepsIdentity(l: Ledger, name: string, on: bool)
    ensures Accounted(l) ==> Accounted(l.(users := SetEnabled(l.users, name, on)))
  {
    hide SetEnabled, Accounted;
    if Accounted(l) {
      SetEnabledKeepsIdentity(l, name, on);
    }
  }

  lemma SwitchedIsNamed(users: seq<User>, name: string, on: bool)
    ensures forall v | v in SetEnabled(users, name, on) :: exists u :: u in users && u.name == v.name
  {
    hide Lower;
    var vs := SetEnabled(users, name, on);
    forall v | v in vs ensures exists u :: u in users && u.name == v.name {
      var i :| 0 <= i < |vs| && vs[i] == v;
      assert users[i] in users;
    }
  }

  lemma DisabledIsLegible(keyring: Keyring, users: seq<User>, name: string, enabled: seq<Protocol>)
    requires ReadsBack(keyring, users, enabled) && DistinctNames(users)
    ensures var vs := SetEnabled(users, name, false);
      ReadsBack(keyring, vs, enabled) && DistinctNames(vs) && NotEnabled(vs, name)
  {
    hide PlainName, Strip, Lower, ReadsBack, DistinctNames, SetEnabled;
    var vs := SetEnabled(users, name, false);
    SetEnabledHits(users, name, false);
    forall v | v in vs && v.enabled ensures v in users {
      var i :| 0 <= i < |vs| && vs[i] == v;
      assert vs[i] == users[i];
    }
    FewerReadBack(keyring, users, vs, enabled);
  }

  // ------------------------------------------------------------- protocols and the keyring

  function Off(names: seq<string>, name: string): (r: seq<string>)
    ensures forall n :: n in r <==> n in names && n != name
  {
    if names == [] then [] else
      assert names == [names[0]] + names[1..];
      (if names[0] == name then [] else [names[0]]) + Off(names[1..], name)
  }

  /** The pair only the tunnel's own binary can make, when the private half is missing. */
  method PrepareSecrets(s: Server, p: Protocol, mint: nat) returns (ok: bool)
    modifies s.secrets
    ensures p != DNSTT || Bootstrap.Has(old(s.secrets.files), "dnstt.server.key") ==>
      ok && s.secrets.files == old(s.secrets.files)
    ensures ok && p == DNSTT ==> "dnstt.server.key" in Loaded(s.secrets.files, s.bytes)
    ensures forall n | n !in ["dnstt.server.key", "dnstt.server.pub"] ::
      Bootstrap.SameAt(old(s.secrets.files), s.secrets.files, n)
    ensures s.secrets.obliging && s.undisturbed ==> ok
  {
    ok := true;
    if p != DNSTT || Bootstrap.Has(s.secrets.files, "dnstt.server.key") {
      return;
    }
    var built: bool := *;
    if !built && !s.undisturbed {
      return false;
    }
    var written;
    ok, written := Bootstrap.WriteSet(s.secrets, ["dnstt.server.key", "dnstt.server.pub"], mint);
    if ok {
      assert written[0] == "dnstt.server.key";
    }
  }

  /** Saves another set of enabled protocols, and nothing else. */
  method SaveEnabled(s: Server, st: State, names: seq<string>) returns (ok: bool)
    requires s.Sound() && st.(enabled := s.store.Current().enabled) == s.store.Current()
    modifies s.store`file
    ensures s.Sound() && s.View() == old(s.View())
    ensures LedgerOf(s.box, s.store) == old(LedgerOf(s.box, s.store))
    ensures ok ==> s.store.Current() == old(s.store.Current()).(enabled := names)
    ensures !ok ==> s.store.file == old(s.store.file)
    ensures s.store.obliging ==> ok
  {
    hide MarkSound, Nameable, DefaultState;
    ok := s.store.SaveState(st.(enabled := names));
  }

  /** The protocol is known, is not already so, and is not short of its configuration. */
  predicate CanToggle(st: State, name: string, on: bool, configured: bool)
  {
    Lookup(name).Some? && (on <==> name !in st.enabled) && (on ==> configured)
  }

  /** The part of the toggle that comes before the apply. One whose keys cannot be made is taken back. */
  method Toggle(s: Server, name: string, on: bool, configured: bool, mint: nat) returns (ok: bool)
    requires s.Sound()
    modifies s.store`file, s.secrets
    ensures s.Sound() && s.View() == old(s.View())
    ensures LedgerOf(s.box, s.store) == old(LedgerOf(s.box, s.store))
    ensures ok ==> Lookup(name).Some?
    ensures ok && on ==> configured
    ensures ok && on && Lookup(name) == Some(DNSTT) ==> "dnstt.server.key" in Loaded(s.secrets.files, s.bytes)
    ensures !on || Lookup(name) != Some(DNSTT) || Bootstrap.Has(old(s.secrets.files), "dnstt.server.key") ==>
      s.secrets.files == old(s.secrets.files)
    ensures forall n | n !in ["dnstt.server.key", "dnstt.server.pub"] ::
      Bootstrap.SameAt(old(s.secrets.files), s.secrets.files, n)
    ensures ok ==> forall n :: n in s.store.Current().enabled <==>
      (if n == name then on else n in old(s.store.Current()).enabled)
    ensures !ok && s.store.obliging ==>
      forall n :: n in s.store.Current().enabled <==> n in old(s.store.Current()).enabled
    ensures s.store.obliging && s.secrets.obliging && s.undisturbed ==>
      (CanToggle(old(s.store.Current()), name, on, configured) ==> ok)
  {
    hide Bootstrap.SameAt, Bootstrap.Has, Loaded, EnabledProtocols, Off, CanToggle;
    SameSecrets(s.secrets.files);
    ToggleMeans(s.store.Current(), name, on, configured);
    hide MarkSound, Nameable, DefaultState, Lookup, Sorted, Server.Sound, Server.View, LedgerOf;
    var proto := Lookup(name);
    if proto.None? {
      return false;
    }
    var st := s.store.LoadState();
    if st.None? || (on <==> name in st.value.enabled) || (on && !configured) {
      return false;
    }
    var names := if on then Sorted(SetOf(st.value.enabled) + {name}) else Off(st.value.enabled, name);
    ok := SaveEnabled(s, st.value, names);
    if ok && on {
      ok := PrepareOrTakeBack(s, st.value, names, proto.value, mint);
    }
  }

  /** A protocol that was switched on and whose keys cannot be made is switched off again. */
  method PrepareOrTakeBack(s: Server, st: State, names: seq<string>, p: Protocol, mint: nat) returns (ok: bool)
    requires s.Sound() && st.(enabled := names) == s.store.Current()
    modifies s.store`file, s.secrets
    ensures s.Sound() && s.View() == old(s.View())
    ensures LedgerOf(s.box, s.store) == old(LedgerOf(s.box, s.store))
    ensures ok ==> s.store.file == old(s.store.file)
    ensures !ok && s.store.obliging ==> s.store.Current().enabled == Off(names, p.name)
    ensures ok && p == DNSTT ==> "dnstt.server.key" in Loaded(s.secrets.files, s.bytes)
    ensures p != DNSTT || Bootstrap.Has(old(s.secrets.files), "dnstt.server.key") ==>
      s.secrets.files == old(s.secrets.files)
    ensures forall n | n !in ["dnstt.server.key", "dnstt.server.pub"] ::
      Bootstrap.SameAt(old(s.secrets.files), s.secrets.files, n)
    ensures s.secrets.obliging && s.undisturbed ==> ok
  {
    hide MarkSound, Nameable, DefaultState, Server.Sound, Server.View, LedgerOf;
    hide Bootstrap.SameAt, Bootstrap.Has, Loaded, EnabledProtocols, Off;
    ok := PrepareSecrets(s, p, mint);
    if !ok {
      var back := SaveEnabled(s, st, Off(names, p.name));
    }
  }

  lemma SameSecrets(fs: Bootstrap.Files)
    ensures forall n :: Bootstrap.SameAt(fs, fs, n)
  {
  }

  lemma ToggleMeans(st: State, name: string, on: bool, configured: bool)
    ensures CanToggle(st, name, on, configured) <==>
      Lookup(name).Some? && (on <==> name !in st.enabled) && (on ==> configured)
  {
  }

  /** `protocol on` and `protocol off`. */
  method SetProtocol(s: Server, name: string, on: bool, configured: bool, mint: nat) returns (r: Option<Applied>)
    requires s.Sound()
    modifies s.docker, s.disk, s.store, s.box, s.ufw, s.iptables, s.watch, s.around, s.secrets
    ensures s.Sound()
    ensures old(Accounted(LedgerOf(s.box, s.store))) && !WasAborted(r) ==> Accounted(LedgerOf(s.box, s.store))
    ensures r.Some? ==> Lookup(name).Some? && (on ==> configured)
    ensures r.Some? ==> forall n :: n in s.store.Current().enabled <==>
      (if n == name then on else n in old(s.store.Current()).enabled)
    ensures r.None? && s.store.obliging ==>
      forall n :: n in s.store.Current().enabled <==> n in old(s.store.Current()).enabled
    ensures SameButFlags(old(s.store.users), s.store.users)
    ensures old(Guarded(s)) ==> Accounted(LedgerOf(s.box, s.store))
    ensures s.store.obliging && s.secrets.obliging && s.undisturbed ==>
      (CanToggle(old(s.store.Current()), name, on, configured) ==> r.Some?)
    ensures s.EverythingWorks() && r.Some? && s.CanServe() ==> r.value.end == Complete(true)
    ensures !on || Lookup(name) != Some(DNSTT) || Bootstrap.Has(old(s.secrets.files), "dnstt.server.key") ==>
      s.secrets.files == old(s.secrets.files)
  {
    hide SaysTrue, Moves, AskedFor, RunsExactly, Server.ForwardsThePool, Server.ForwardTaken,
      Server.EachOnItsOwn;
    hide AllMarked, CanToggle;
    hide MarkSound, Nameable, Accounted, Idle, Unconverged, Finished, LedgerAfter, Moved, EnabledProtocols,
      DefaultState, TreeFor, Lookup;
    ghost var l := LedgerOf(s.box, s.store);
    var toggled := Toggle(s, name, on, configured, mint);
    if !toggled {
      return None;
    }
    var applied, mid, tree := Apply(s, true);
    AppliedLedger(l, LedgerOf(s.box, s.store), applied);
    StillCanServe(s, l.users, s.store.users);
    return Some(applied);
  }

  /** `bootstrap`: new credentials are rendered at once, and served from the next apply on. */
  method RunBootstrap(s: Server, mint: nat, force: bool) returns (b: Bootstrap.Ending, r: Option<Applied>)
    requires s.Sound()
    modifies s.docker, s.disk, s.store, s.box, s.ufw, s.iptables, s.watch, s.around, s.secrets
    ensures s.Sound()
    ensures old(Accounted(LedgerOf(s.box, s.store))) && !WasAborted(r) ==> Accounted(LedgerOf(s.box, s.store))
    ensures r.Some? ==> b == Bootstrap.Complete(true) && old(s.store.users) != []
    ensures r.Some? ==> !r.value.end.Complete? && (r.value.end.Unfinished? ==> s.store.Current().convergePending)
    ensures force && b.Complete? ==>
      s.secrets.files == Bootstrap.Overwritten(old(s.secrets.files), Bootstrap.AllNames(Bootstrap.MINTERS), mint)
    ensures b.Refused? ==> b.partial == Bootstrap.Refusals(old(s.secrets.files), Bootstrap.MINTERS) && b.partial != []
    ensures !force && b.Cut? ==> Bootstrap.Gentle(Bootstrap.MINTERS, old(s.secrets.files), s.secrets.files, mint)
    ensures !force && !b.Cut? ==> Bootstrap.GentleDone(Bootstrap.MINTERS, old(s.secrets.files), s.secrets.files, mint)
    ensures !force && b == Bootstrap.Complete(false) ==> s.Desired() == old(s.Desired())
    ensures b.Complete? ==> MintedLackNothing(Loaded(s.secrets.files, s.bytes))
    ensures old(Guarded(s)) ==> Accounted(LedgerOf(s.box, s.store))
    ensures s.secrets.obliging ==> !b.Cut?
    ensures s.store.obliging && b == Bootstrap.Complete(true) && old(s.store.users) != [] ==> r.Some?
    ensures s.EverythingWorks() && r.Some? && s.CanServe() ==> r.value.end.Unfinished?
  {
    hide SaysTrue, Moves, AskedFor, RunsExactly, Server.ForwardsThePool, Server.ForwardTaken,
      Server.EachOnItsOwn;
    hide AllMarked, SameButFlags, MintedLackNothing, Bootstrap.GentleDone, Bootstrap.Gentle,
      Bootstrap.Overwritten, Bootstrap.Refusals;
    hide MarkSound, Nameable, Accounted, Idle, Unconverged, Finished, LedgerAfter, Moved, EnabledProtocols,
      DefaultState, TreeFor;
    b := MintSecrets(s, mint, force);
    r := None;
    var loaded := s.store.LoadUsers();
    if b == Bootstrap.Complete(true) && loaded.Some? && loaded.value != [] {
      ghost var l := LedgerOf(s.box, s.store);
      ghost var a := s.View();
      ghost var services := Services(s.EnabledNow());
      var applied, mid, tree := Apply(s, false);
      AppliedLedger(l, LedgerOf(s.box, s.store), applied);
      StillCanServe(s, l.users, s.store.users);
      if applied.end.Unfinished? {
        UnfinishedIsMarked(a, mid, s.View(), applied, tree, services);
      }
      r := Some(applied);
    }
  }

  /** The keyring's part of it. */
  method MintSecrets(s: Server, mint: nat, force: bool) returns (b: Bootstrap.Ending)
    modifies s.secrets
    ensures force && b.Complete? ==>
      s.secrets.files == Bootstrap.Overwritten(old(s.secrets.files), Bootstrap.AllNames(Bootstrap.MINTERS), mint)
    ensures b.Refused? ==> b.partial == Bootstrap.Refusals(old(s.secrets.files), Bootstrap.MINTERS) && b.partial != []
    ensures !force && b.Cut? ==> Bootstrap.Gentle(Bootstrap.MINTERS, old(s.secrets.files), s.secrets.files, mint)
    ensures !force && !b.Cut? ==> Bootstrap.GentleDone(Bootstrap.MINTERS, old(s.secrets.files), s.secrets.files, mint)
    ensures !force && b == Bootstrap.Complete(false) ==> s.Desired() == old(s.Desired())
    ensures b.Complete? ==> MintedLackNothing(Loaded(s.secrets.files, s.bytes))
    ensures s.secrets.obliging ==> !b.Cut?
  {
    hide EnabledProtocols, DefaultState, TreeFor, Bootstrap.GentleDone, Bootstrap.Gentle, Bootstrap.Fresh,
      Bootstrap.Separate, Bootstrap.NothingToWrite, Bootstrap.Overwritten, MintedLackNothing;
    Bootstrap.MintersAreSeparate();
    ghost var files := s.secrets.files;
    var written;
    b, written := Bootstrap.BootstrapKeyring(s.secrets, Bootstrap.MINTERS, mint, force);
    if b.Complete? {
      AllMinted(files, s.secrets.files, mint, s.bytes);
    }
    if !force && b == Bootstrap.Complete(false) {
      AllEnabledKnown(s.store.Current().enabled);
      RebuildingChangesNoTree(files, s.secrets.files, mint, s.bytes, s.common, s.store.users, s.EnabledNow());
    }
  }

  /** Every protocol the bootstrap mints for can be rendered, as far as secrets go. */
  predicate MintedLackNothing(keyring: Keyring)
  {
    NothingLacks(keyring, VLESS) && NothingLacks(keyring, HYSTERIA2) && NothingLacks(keyring, IKEV2)
  }

  lemma AllMinted(before: Bootstrap.Files, after: Bootstrap.Files, mint: nat, bytes: Bootstrap.Secret -> string)
    requires || after == Bootstrap.Overwritten(before, Bootstrap.AllNames(Bootstrap.MINTERS), mint)
             || (&& Bootstrap.GentleDone(Bootstrap.MINTERS, before, after, mint)
                 && Bootstrap.Refusals(before, Bootstrap.MINTERS) == [])
    ensures MintedLackNothing(Loaded(after, bytes))
  {
    hide NothingLacks, Loaded, Bootstrap.GentleDone, Bootstrap.Refusals, Bootstrap.Overwritten;
    BootstrappedLacksNothing(before, after, mint, bytes, VLESS);
    BootstrappedLacksNothing(before, after, mint, bytes, HYSTERIA2);
    BootstrappedLacksNothing(before, after, mint, bytes, IKEV2);
  }

  lemma UnfinishedIsMarked(a: Machine, mid: Machine, b: Machine, r: Applied, tree: Tree, services: seq<string>)
    requires Moved(a, mid, b, r, tree, services) && r.end.Unfinished?
    ensures b.pending
  {
  }

  lemma AllEnabledKnown(names: seq<string>)
    ensures AllKnown(EnabledProtocols(names))
  {
  }

  // ------------------------------------------------------------------- applying again

  /** A second apply of the same desired state: the diff is empty and nothing is nudged. */
  method ApplyTwice(s: Server) returns (first: Applied, second: Applied)
    requires s.Sound()
    modifies s.docker, s.disk, s.store, s.box, s.ufw, s.iptables, s.watch, s.around
    ensures s.Sound()
    ensures first.end == Complete(true) && !second.end.Stopped? ==> second.changed == Some(map[]) && second.nudged == []
  {
    hide SaysTrue, Moves, AskedFor, RunsExactly, Server.ForwardsThePool, Server.ForwardTaken,
      Server.EachOnItsOwn;
    hide MarkSound, Nameable, Accounted, Idle, Unconverged, Finished, LedgerAfter, EnabledProtocols,
      DefaultState, TreeFor, SameButFlags;
    ghost var l := LedgerOf(s.box, s.store);
    ghost var mid;
    ghost var tree;
    ghost var mid2;
    ghost var tree2;
    first, mid, tree := Apply(s, true);
    ApplyKeepsUsers(l, LedgerOf(s.box, s.store), first);
    FlagsDoNotChangeTheTree(s.common, Loaded(s.secrets.files, s.bytes), l.users, s.store.users, s.EnabledNow());
    if first.end == Complete(true) {
      CompleteIsCleared(mid, s.View(), tree, Services(old(s.EnabledNow())), first.changed);
    }
    second, mid2, tree2 := Apply(s, true);
  }

  // ------------------------------------------------------------------------- sessions

  datatype Request =
    | Converging(restart: bool)
    | Adding(user: User)
    | Removing(name: string)
    | Switching(name: string, on: bool)
    | Toggling(protocol: string, on: bool, configured: bool, mint: nat)
    | Minting(mint: nat, force: bool)
    | Waiting

  /** A new record is enabled, has no certificate yet, and has a name every reader can carry. */
  predicate Admissible(q: Request)
  {
    q.Adding? ==>
      && q.user.enabled && !q.user.provisioned
      && (Renderable(q.user.name) ==> PlainName(q.user.name) && q.user.name != "Client")
  }

  /** Each request found every name that could be issued for marked, and asked for no other. */
  ghost predicate NeverExposed(ledgers: seq<Ledger>, requests: seq<Request>)
    requires |requests| <= |ledgers|
  {
    forall i | 0 <= i < |requests| :: AllMarked(ledgers[i]) && AsksForNone(requests[i])
  }

  /**
   Any number of commands in any order, each with whatever failures, and the host acting in
   between: the mark stays sound, the live tree safe, and every certificate accounted for, as
   long as no reconciliation was cut short, or none could have exposed anything.
   */
  method RunSession(s: Server, requests: seq<Request>) returns (aborted: bool, ghost ledgers: seq<Ledger>)
    requires s.Sound() && forall q | q in requests :: Admissible(q)
    modifies s.docker, s.disk, s.store, s.box, s.ufw, s.iptables, s.watch, s.around, s.secrets
    ensures s.Sound()
    ensures |ledgers| == |requests| + 1
    ensures ledgers[0] == old(LedgerOf(s.box, s.store)) && ledgers[|requests|] == LedgerOf(s.box, s.store)
    ensures Accounted(ledgers[0]) && (!aborted || NeverExposed(ledgers, requests)) ==> Accounted(ledgers[|requests|])
  {
    hide Server.Sound, Accounted, LedgerOf, Renderable, PlainName, AllMarked, AsksForNone;
    aborted := false;
    ledgers := [LedgerOf(s.box, s.store)];
    for i := 0 to |requests|
      invariant s.Sound()
      invariant |ledgers| == i + 1 && ledgers[0] == old(LedgerOf(s.box, s.store))
      invariant ledgers[i] == LedgerOf(s.box, s.store)
      invariant Accounted(ledgers[0]) && (!aborted || NeverExposed(ledgers, requests[..i])) ==> Accounted(ledgers[i])
    {
      assert requests[..i + 1] == requests[..i] + [requests[i]];
      ghost var was := ledgers;
      var cut := Serve(s, requests[i]);
      aborted := aborted || cut;
      ledgers := ledgers + [LedgerOf(s.box, s.store)];
      EarlierExposure(was, ledgers, requests, i);
    }
    assert requests[..|requests|] == requests;
  }

  lemma EarlierExposure(was: seq<Ledger>, now: seq<Ledger>, requests: seq<Request>, i: nat)
    requires i < |requests| && |was| == i + 1 && was <= now && |now| == i + 2
    ensures NeverExposed(now, requests[..i + 1]) ==>
      NeverExposed(was, requests[..i]) && AllMarked(was[i]) && AsksForNone(requests[i])
  {
    hide AllMarked, AsksForNone;
    assert forall k | 0 <= k < i :: requests[..i][k] == requests[..i + 1][k] && was[k] == now[k];
    assert requests[..i + 1][i] == requests[i] && was[i] == now[i];
  }

  /** A request that asks for no certificate that was not there. */
  predicate AsksForNone(q: Request)
  {
    !q.Adding? && !(q.Switching? && q.on)
  }

  method Serve(s: Server, q: Request) returns (aborted: bool)
    requires s.Sound() && Admissible(q)
    modifies s.docker, s.disk, s.store, s.box, s.ufw, s.iptables, s.watch, s.around, s.secrets
    ensures s.Sound()
    ensures old(Accounted(LedgerOf(s.box, s.store))) && !aborted ==> Accounted(LedgerOf(s.box, s.store))
    ensures old(Guarded(s)) && AsksForNone(q) ==> Accounted(LedgerOf(s.box, s.store))
  {
    hide SaysTrue, Moves, AskedFor, RunsExactly, Server.ForwardsThePool, Server.ForwardTaken,
      Server.EachOnItsOwn;
    hide AllMarked;
    hide MarkSound, Nameable, Accounted, Idle, Unconverged, Finished, LedgerAfter, EnabledProtocols,
      DefaultState, Moved, TreeFor, SameButFlags, Renderable, PlainName, ReadsBack, LockedOut,
      OnlyEnabledCertified, Without, SetEnabled, Find;
    var r: Option<Applied> := None;
    match q {
      case Converging(restart) =>
        ghost var l := LedgerOf(s.box, s.store);
        var applied, mid, tree := Apply(s, restart);
        AppliedLedger(l, LedgerOf(s.box, s.store), applied);
        r := Some(applied);
      case Adding(user) => r := UserAdd(s, user);
      case Removing(name) => r := UserRm(s, name);
      case Switching(name, on) => r := UserSetEnabled(s, name, on);
      case Toggling(protocol, on, configured, mint) => r := SetProtocol(s, protocol, on, configured, mint);
      case Minting(mint, force) =>
        var b;
        b, r := RunBootstrap(s, mint, force);
      case Waiting => WaitAWhile(s);
    }
    aborted := WasAborted(r);
  }

  /** The host stops, starts and removes containers, and may lose the volume the certificates are in. */
  method WaitAWhile(s: Server)
    requires s.Sound()
    modifies s.docker`containers, s.box, s.around
    ensures s.Sound()
    ensures old(Accounted(LedgerOf(s.box, s.store))) ==> Accounted(LedgerOf(s.box, s.store))
  {
    hide MarkSound, Idle, Nameable, DefaultState, Accounted;
    ghost var a := s.View();
    ghost var l := LedgerOf(s.box, s.store);
    HostActs(s);
    assert Step(a, s.View());
    StepKeepsMark(a, s.View());
    s.around.Change();
    s.box.LoseCertificates();
    LosingKeepsIdentity(l, LedgerOf(s.box, s.store));
  }

  lemma LosingKeepsIdentity(l: Ledger, l': Ledger)
    requires l' == l.(certs := l.certs - (l.certs.Keys - l'.certs.Keys))
    ensures Accounted(l) ==> Accounted(l')
  {
    hide Accounted;
    if Accounted(l) {
      assert LedgerStep(l, l');
      StepKeepsIdentity(l, l');
    }
  }

  // ------------------------------------------------------------- when everything works

  /**
   Recovery. From any sound server, however stale, stopped or missing its containers are: when
   everything works and the desired state can be rendered, one apply makes every expected service
   run what the desired state asks for, clears the mark, leaves nothing else running, and gives
   each enabled user, and nobody else, a certificate of their own.
   */
  method Recover(s: Server) returns (r: Applied, ghost tree: Tree)
    requires s.Sound() && s.EverythingWorks() && s.CanServe()
    modifies s.docker, s.disk, s.store, s.box, s.ufw, s.iptables, s.watch, s.around
    ensures s.Sound() && r.end == Complete(true) && NothingFailed(r.verdict)
    ensures s.View().live == Some(tree) && Ok(tree) == old(s.Desired()) && !s.View().pending
    ensures AllRunning(Services(s.EnabledNow()), s.docker.containers)
    ensures NoneRuns(Stale(s.EnabledNow()), s.docker.containers)
    ensures s.NamesThePool(r.verdict.iface, r.verdict.net, r.verdict.ikev2Up)
    ensures forall x | x in Services(s.EnabledNow()) && x in s.docker.containers ::
      (Feeds(tree, x) || old(s.View()).pending) ==> Current(tree, x, s.docker.containers[x])
    ensures old(Accounted(LedgerOf(s.box, s.store))) && IKEV2 in s.EnabledNow() ==>
      Certified(LedgerOf(s.box, s.store))
  {
    hide Moves, AskedFor, Server.ForwardTaken, Server.EachOnItsOwn, Server.IsThePool;
    hide MarkSound, Nameable, Accounted, Idle, Unconverged, Finished, LedgerAfter, EnabledProtocols,
      DefaultState, TreeFor, Certified, Current, AllRunning, NoneRuns, WentCleanly, SharedAfter, SeenReady,
      Services, Stale, Feeds;
    ghost var l := LedgerOf(s.box, s.store);
    ghost var a := s.View();
    ghost var mid;
    r, mid, tree := Apply(s, true);
    ghost var services := Services(s.EnabledNow());
    assert services == Services(old(s.EnabledNow()));
    CompleteIsCleared(mid, s.View(), tree, services, r.changed);
    FedIsCurrent(s.View(), tree);
    if a.pending {
      ApplyRecovers(a, mid, s.View(), r, tree, services);
    }
    CleanApplyCertifies(l, LedgerOf(s.box, s.store), r);
  }

  lemma FedIsCurrent(m: Machine, tree: Tree)
    requires MarkSound(m) && !m.pending && m.live == Some(tree)
    ensures forall x | x in m.containers && Feeds(tree, x) :: Current(tree, x, m.containers[x])
  {
    hide Feeds, Current, WellFormed;
  }

  /** Each enabled user holds a valid certificate of their own, and there is no other. */
  ghost predicate Certified(l: Ledger)
  {
    && l.orphans == {} && l.queue == [] && ValidNames(l.certs) == Wanted(l.users)
    && (forall u | u in l.users && u.enabled :: u.name in l.certs && l.certs[u.name] == Cert(u.holder, false))
    && (forall u | u in l.users :: u.provisioned <==> u.enabled)
  }

  lemma CleanApplyCertifies(l: Ledger, l': Ledger, r: Applied)
    requires LedgerAfter(l, l', r.reconcile)
    ensures Accounted(l) && WentCleanly(r.reconcile) ==> Certified(l')
  {
    hide Accounted, Reconciled, CutShort, Wanted, ValidNames;
    if Accounted(l) && WentCleanly(r.reconcile) {
      ReconcileIsCorrect(l, l', r.reconcile.value.report);
      ReconcileKeepsIdentity(l, l', r.reconcile.value.report);
      NoOrphans(l');
    }
  }

  lemma NoOrphans(l: Ledger)
    requires Accounted(l)
    ensures l.orphans == {}
  {
    hide DistinctNames;
  }
}
