/**
 Making the container's certificates match the enabled users, and keeping every valid
 certificate accounted for while names are removed, reused, disabled and enabled again.
 */
module Reconcile {
  import opened Strings
  import opened Users
  import opened Certificates

  /** The part of the server that decides who can connect with a certificate. */
  datatype Ledger = Ledger(
    users: seq<User>,
    queue: seq<string>,
    certs: Listed,
    orphans: set<(string, nat)>)

  function Wanted(users: seq<User>): set<string>
  {
    set u | u in users && u.enabled :: u.name
  }

  /** Whom a certificate under this name would be issued to. */
  function HolderOf(users: seq<User>, name: string): nat
  {
    if users == [] then 0
    else if users[0].enabled && users[0].name == name then users[0].holder
    else HolderOf(users[1..], name)
  }

  lemma {:induction false} HolderIsTheUser(users: seq<User>, u: User)
    requires DistinctNames(users) && u in users && u.enabled
    ensures HolderOf(users, u.name) == u.holder
  {
    if u != users[0] {
      assert users[1..][..] == users[1..];
      var i :| 0 < i < |users| && users[i] == u;
      assert Lower(users[0].name) != Lower(users[i].name);
      HolderIsTheUser(users[1..], u);
    }
  }

  ghost predicate DistinctNames(users: seq<User>)
  {
    forall i, j | 0 <= i < j < |users| :: Lower(users[i].name) != Lower(users[j].name)
  }

  function QueueAfter(queue: seq<string>, failed: seq<string>): (r: seq<string>)
    ensures forall n :: n in r <==> n in queue && n in failed
  {
    if queue == [] then [] else
      assert queue == [queue[0]] + queue[1..];
      (if queue[0] in failed then [queue[0]] else []) + QueueAfter(queue[1..], failed)
  }

  function Flagged(users: seq<User>, valid: set<string>): (r: seq<User>)
    ensures |r| == |users|
    ensures forall i | 0 <= i < |users| :: r[i] == users[i].(provisioned := users[i].name in valid)
  {
    if users == [] then [] else [users[0].(provisioned := users[0].name in valid)] + Flagged(users[1..], valid)
  }

  // ------------------------------------------------------------------- the two directions

  /** The names the first loop goes through: every queued one, and every certificate nobody wants. */
  function Doomed(l: Ledger): set<string>
  {
    SetOf(l.queue) + (ValidNames(l.certs) - Wanted(l.users))
  }

  ghost predicate Withdrew(c0: Listed, c1: Listed, doomed: set<string>,
                           withdrawn: seq<string>, failed: seq<string>)
  {
    && (forall n :: n in withdrawn || n in failed <==> n in doomed && n in c0)
    && (forall n | n in withdrawn :: n !in failed && n !in c1)
    && (forall n | n !in withdrawn && n !in failed :: (n in c1 <==> n in c0) && (n in c0 ==> c1[n] == c0[n]))
    && (forall n | n in failed && n in c1 ::
          n in c0 && c1[n].holder == c0[n].holder && (c0[n].revoked ==> c1[n].revoked))
  }

  ghost predicate Issued(c1: Listed, c2: Listed, wants: set<string>, users: seq<User>,
                         added: seq<string>, failed: seq<string>)
  {
    && (forall n :: n in added || n in failed <==> n in wants)
    && (forall n | n in added :: n !in failed && n in c2 && c2[n] == Cert(HolderOf(users, n), false))
    && (forall n | n !in wants :: (n in c2 <==> n in c1) && (n in c1 ==> c2[n] == c1[n]))
    && (forall n | n in failed && n in c2 :: n in c1 && c2[n] == c1[n])
  }

  datatype Report = Report(
    added: seq<string>,
    withdrawn: seq<string>,
    revokeFailed: seq<string>,
    addFailed: seq<string>)

  predicate NoFailures(r: Report)
  {
    r.revokeFailed == [] && r.addFailed == []
  }

  function StillValid(l: Ledger, r: Report): set<string>
  {
    ValidNames(l.certs) - SetOf(r.withdrawn)
  }

  ghost predicate ReconciledVia(l: Ledger, mid: Listed, l': Ledger, r: Report)
  {
    && Withdrew(l.certs, mid, Doomed(l), r.withdrawn, r.revokeFailed)
    && Issued(mid, l'.certs, Wanted(l.users) - StillValid(l, r), l.users, r.added, r.addFailed)
    && l'.queue == QueueAfter(l.queue, r.revokeFailed)
    && l'.users == Flagged(l.users, StillValid(l, r) + SetOf(r.added))
    && l'.orphans == l.orphans
  }

  /** What one run of the reconciliation may do, whichever of its container operations fail. */
  ghost predicate Reconciled(l: Ledger, l': Ledger, r: Report)
  {
    exists mid :: ReconciledVia(l, mid, l', r)
  }

  // ------------------------------------------------------------------ certificate identity

  ghost predicate Owned(users: seq<User>, name: string, holder: nat)
  {
    exists u :: u in users && u.name == name && u.holder == holder && u.provisioned
  }

  /**
   Every certificate that still opens the door has its name queued for revocation, or belongs
   to the current record of that name, which is marked as provisioned.
   */
  ghost predicate Accounted(l: Ledger)
  {
    && DistinctNames(l.users)
    && l.orphans == {}
    && forall n | n in l.certs && !l.certs[n].revoked :: n in l.queue || Owned(l.users, n, l.certs[n].holder)
  }

  lemma FlaggedKeepsOwner(users: seq<User>, valid: set<string>, name: string, holder: nat)
    requires name in valid
    requires exists u :: u in users && u.name == name && u.holder == holder
    ensures Owned(Flagged(users, valid), name, holder)
  {
    var i :| 0 <= i < |users| && users[i].name == name && users[i].holder == holder;
    assert Flagged(users, valid)[i] in Flagged(users, valid);
  }

  lemma FlaggedKeepsDistinct(users: seq<User>, valid: set<string>)
    requires DistinctNames(users)
    ensures DistinctNames(Flagged(users, valid))
  {
  }

  /** A reconciliation keeps every certificate accounted for, whatever failed in it. */
  lemma ReconcileKeepsIdentity(l: Ledger, l': Ledger, r: Report)
    requires Accounted(l) && Reconciled(l, l', r)
    ensures Accounted(l')
  {
    hide Lower;
    var mid :| ReconciledVia(l, mid, l', r);
    FlaggedKeepsDistinct(l.users, StillValid(l, r) + SetOf(r.added));
    forall n | n in l'.certs && !l'.certs[n].revoked
      ensures n in l'.queue || Owned(l'.users, n, l'.certs[n].holder)
    {
      CertStaysAccounted(l, mid, l', r, n);
    }
  }

  lemma CertStaysAccounted(l: Ledger, mid: Listed, l': Ledger, r: Report, n: string)
    requires Accounted(l) && ReconciledVia(l, mid, l', r)
    requires n in l'.certs && !l'.certs[n].revoked
    ensures n in l'.queue || Owned(l'.users, n, l'.certs[n].holder)
  {
    hide Lower, Flagged;
    var valid := StillValid(l, r) + SetOf(r.added);
    if n in r.added {
      var u :| u in l.users && u.enabled && u.name == n;
      HolderIsTheUser(l.users, u);
      FlaggedKeepsOwner(l.users, valid, n, u.holder);
    } else {
      assert n in mid && l'.certs[n] == mid[n];
      assert n in l.certs && n !in r.withdrawn;
      if n in r.revokeFailed && n in l.queue {
      } else {
        assert n !in l.queue;
        FlaggedKeepsOwner(l.users, valid, n, l.certs[n].holder);
      }
    }
  }

  // ------------------------------------------------------------------- the user commands

  function Queued(queue: seq<string>, u: User): seq<string>
  {
    if u.provisioned && u.name !in queue then queue + [u.name] else queue
  }

  predicate NewRecord(l: Ledger, u: User)
  {
    Find(l.users, u.name).None? && !u.provisioned
  }

  function SetEnabled(users: seq<User>, name: string, enabled: bool): (r: seq<User>)
    ensures |r| == |users|
    ensures forall i | 0 <= i < |users| ::
      r[i] == users[i] || (Lower(users[i].name) == Lower(name) && r[i] == users[i].(enabled := enabled))
  {
    if users == [] then []
    else if Lower(users[0].name) == Lower(name) then [users[0].(enabled := enabled)] + users[1..]
    else [users[0]] + SetEnabled(users[1..], name, enabled)
  }

  /** What the commands, the host and a reconciliation do to the ledger, one write at a time. */
  ghost predicate LedgerStep(l: Ledger, l': Ledger)
  {
    || (exists u :: NewRecord(l, u) && l' == l.(users := l.users + [u]))
    || (exists u :: u in l.users && l' == l.(queue := Queued(l.queue, u)))
    || (exists name :: Removable(l, name) && l' == l.(users := Without(l.users, name)))
    || (exists name, on :: (on || Removable(l, name)) && l' == l.(users := SetEnabled(l.users, name, on)))
    || (exists lost :: l' == l.(certs := l.certs - lost))
    || (exists r :: Reconciled(l, l', r))
  }

  /** The intent to revoke was written before the record goes. */
  predicate Removable(l: Ledger, name: string)
  {
    forall u | u in l.users && Lower(u.name) == Lower(name) && u.provisioned :: u.name in l.queue
  }

  lemma AddKeepsIdentity(l: Ledger, u: User)
    requires Accounted(l) && NewRecord(l, u)
    ensures Accounted(l.(users := l.users + [u]))
  {
    hide Lower;
    forall n | n in l.certs && !l.certs[n].revoked && n !in l.queue
      ensures Owned(l.users + [u], n, l.certs[n].holder)
    {
      var v :| v in l.users && v.name == n && v.holder == l.certs[n].holder && v.provisioned;
      assert v in l.users + [u];
    }
  }

  lemma {:induction false} WithoutIsDistinct(users: seq<User>, name: string)
    requires DistinctNames(users)
    ensures DistinctNames(Without(users, name))
  {
    hide Lower;
    if users != [] {
      WithoutIsDistinct(users[1..], name);
      var rest := Without(users[1..], name);
      forall j | 0 <= j < |rest| ensures Lower(rest[j].name) != Lower(users[0].name) {
        assert rest[j] in rest;
        var i :| 0 <= i < |users| - 1 && users[1..][i] == rest[j];
        assert users[i + 1] == rest[j];
      }
    }
  }

  lemma RemoveKeepsIdentity(l: Ledger, name: string)
    requires Accounted(l) && Removable(l, name)
    ensures Accounted(l.(users := Without(l.users, name)))
  {
    hide Lower, Without;
    WithoutIsDistinct(l.users, name);
    forall n | n in l.certs && !l.certs[n].revoked && n !in l.queue
      ensures Owned(Without(l.users, name), n, l.certs[n].holder)
    {
      var v :| v in l.users && v.name == n && v.holder == l.certs[n].holder && v.provisioned;
      assert v in Without(l.users, name);
    }
  }

  lemma SetEnabledKeepsIdentity(l: Ledger, name: string, on: bool)
    requires Accounted(l)
    ensures Accounted(l.(users := SetEnabled(l.users, name, on)))
  {
    hide Lower, SetEnabled;
    var us := SetEnabled(l.users, name, on);
    forall n | n in l.certs && !l.certs[n].revoked && n !in l.queue
      ensures Owned(us, n, l.certs[n].holder)
    {
      var v :| v in l.users && v.name == n && v.holder == l.certs[n].holder && v.provisioned;
      var i :| 0 <= i < |l.users| && l.users[i] == v;
      assert us[i] in us;
    }
  }

  lemma StepKeepsIdentity(l: Ledger, l': Ledger)
    requires Accounted(l) && LedgerStep(l, l')
    ensures Accounted(l')
  {
    hide Lower, Reconciled, Removable, NewRecord, SetEnabled, Without, DistinctNames;
    if u :| NewRecord(l, u) && l' == l.(users := l.users + [u]) {
      AddKeepsIdentity(l, u);
    } else if name :| Removable(l, name) && l' == l.(users := Without(l.users, name)) {
      RemoveKeepsIdentity(l, name);
    } else if name, on :| (on || Removable(l, name)) && l' == l.(users := SetEnabled(l.users, name, on)) {
      SetEnabledKeepsIdentity(l, name, on);
    } else if r :| Reconciled(l, l', r) {
      ReconcileKeepsIdentity(l, l', r);
    }
  }

  ghost predicate LedgerRun(ls: seq<Ledger>)
  {
    forall i | 0 <= i < |ls| - 1 :: LedgerStep(ls[i], ls[i + 1])
  }

  /** Certificate identity, at every point of every run. */
  lemma {:induction false} CertificateIdentity(ls: seq<Ledger>, i: nat)
    requires LedgerRun(ls) && i < |ls| && Accounted(ls[0])
    ensures Accounted(ls[i])
    decreases i
  {
    hide Accounted, LedgerStep;
    if i > 0 {
      CertificateIdentity(ls, i - 1);
      StepKeepsIdentity(ls[i - 1], ls[i]);
    }
  }

  /** The container was changed and the files were not, or not both: what an interruption leaves. */
  ghost predicate CutShort(l: Ledger, l': Ledger, r: Report)
  {
    && l'.users == l.users && l'.orphans == l.orphans
    && (l'.queue == l.queue || l'.queue == QueueAfter(l.queue, r.revokeFailed))
    && exists mid :: BothDirections(l, mid, l'.certs, r)
  }

  ghost predicate BothDirections(l: Ledger, mid: Listed, certs: Listed, r: Report)
  {
    && Withdrew(l.certs, mid, Doomed(l), r.withdrawn, r.revokeFailed)
    && Issued(mid, certs, Wanted(l.users) - StillValid(l, r), l.users, r.added, r.addFailed)
  }

  /**
   Cut short before anything is saved, a reconciliation has changed certificates only. What is
   left is accounted for exactly when each certificate it got to issue went to somebody who was
   already marked as provisioned, or under a name still queued.
   */
  lemma InterruptedIsAccountedIff(l: Ledger, mid: Listed, certs: Listed, doomed: set<string>, wants: set<string>,
                                  withdrawn: seq<string>, failed: seq<string>,
                                  added: seq<string>, addFailed: seq<string>)
    requires Accounted(l) && wants <= Wanted(l.users)
    requires Withdrew(l.certs, mid, doomed, withdrawn, failed)
    requires Issued(mid, certs, wants, l.users, added, addFailed)
    ensures Accounted(l.(certs := certs)) <==>
      forall n | n in added :: n in l.queue || AlreadyProvisioned(l.users, n)
  {
    hide Lower, DistinctNames, HolderOf;
    if Accounted(l.(certs := certs)) {
      forall n | n in added && n !in l.queue ensures AlreadyProvisioned(l.users, n) {
        assert n in certs && !certs[n].revoked;
        var v :| v in l.users && v.name == n && v.holder == certs[n].holder && v.provisioned;
        var u :| u in l.users && u.enabled && u.name == n;
        UniqueName(l.users, u, v);
      }
    }
    if forall n | n in added :: n in l.queue || AlreadyProvisioned(l.users, n) {
      forall n | n in certs && !certs[n].revoked && n !in l.queue
        ensures Owned(l.users, n, certs[n].holder)
      {
        if n in added {
          var u :| u in l.users && u.enabled && u.name == n && u.provisioned;
          HolderIsTheUser(l.users, u);
        } else {
          assert n in mid && n in l.certs;
        }
      }
    }
  }

  /**
   Cut short between the two saves, the trimmed queue is on disk and the flags are not. What is
   left is accounted for exactly when each certificate issued went to somebody already marked, or
   under a name whose withdrawal failed and which is therefore still queued.
   */
  lemma BetweenSavesIsAccountedIff(l: Ledger, mid: Listed, certs: Listed, doomed: set<string>, wants: set<string>,
                                   withdrawn: seq<string>, failed: seq<string>,
                                   added: seq<string>, addFailed: seq<string>)
    requires Accounted(l) && wants <= Wanted(l.users) && SetOf(l.queue) <= doomed
    requires Withdrew(l.certs, mid, doomed, withdrawn, failed)
    requires Issued(mid, certs, wants, l.users, added, addFailed)
    ensures Accounted(l.(certs := certs, queue := QueueAfter(l.queue, failed))) <==>
      forall n | n in added :: (n in l.queue && n in failed) || AlreadyProvisioned(l.users, n)
  {
    hide Lower, DistinctNames, HolderOf;
    var l' := l.(certs := certs, queue := QueueAfter(l.queue, failed));
    if Accounted(l') {
      forall n | n in added && !(n in l.queue && n in failed) ensures AlreadyProvisioned(l.users, n) {
        assert n in certs && !certs[n].revoked;
        var v :| v in l.users && v.name == n && v.holder == certs[n].holder && v.provisioned;
        var u :| u in l.users && u.enabled && u.name == n;
        UniqueName(l.users, u, v);
      }
    }
    if forall n | n in added :: (n in l.queue && n in failed) || AlreadyProvisioned(l.users, n) {
      forall n | n in certs && !certs[n].revoked && n !in l'.queue
        ensures Owned(l.users, n, certs[n].holder)
      {
        if n in added {
          var u :| u in l.users && u.enabled && u.name == n && u.provisioned;
          HolderIsTheUser(l.users, u);
        } else {
          assert n in mid && n in l.certs;
          assert n in l.queue ==> n in withdrawn || n in failed;
        }
      }
    }
  }

  /** How far an interrupted reconciliation had got: the names it had been through, and their fate. */
  datatype Stage = Stage(doomed: set<string>, wants: set<string>, mid: Listed, report: Report)

  ghost predicate InterruptedAt(l: Ledger, l': Ledger, p: Stage)
  {
    && l'.users == l.users && l'.orphans == l.orphans
    && p.doomed <= Doomed(l) && p.wants <= Wanted(l.users) - StillValid(l, p.report)
    && (p.wants != {} || l'.queue != l.queue ==> p.doomed == Doomed(l))
    && Withdrew(l.certs, p.mid, p.doomed, p.report.withdrawn, p.report.revokeFailed)
    && Issued(p.mid, l'.certs, p.wants, l.users, p.report.added, p.report.addFailed)
    && (l'.queue == l.queue || l'.queue == QueueAfter(l.queue, p.report.revokeFailed))
  }

  /** Stopped between any two of its operations or saves. */
  ghost predicate Interrupted(l: Ledger, l': Ledger)
  {
    exists p :: InterruptedAt(l, l', p)
  }

  lemma CutShortIsInterrupted(l: Ledger, l': Ledger, r: Report)
    requires CutShort(l, l', r)
    ensures Interrupted(l, l')
  {
    hide Withdrew, Issued, Doomed, Wanted;
    var mid :| BothDirections(l, mid, l'.certs, r);
    assert InterruptedAt(l, l', Stage(Doomed(l), Wanted(l.users) - StillValid(l, r), mid, r));
  }

  /** The names a reconciliation may issue a certificate for: wanted, and queued or without a valid one. */
  function ToIssue(l: Ledger): set<string>
  {
    Wanted(l.users) - (ValidNames(l.certs) - SetOf(l.queue))
  }

  /** All the names that may be issued for are marked as provisioned already. */
  ghost predicate AllMarked(l: Ledger)
  {
    forall n | n in ToIssue(l) :: AlreadyProvisioned(l.users, n)
  }

  /**
   What can be checked beforehand. Every interruption of a reconciliation leaves every certificate
   accounted for exactly when all the names it may issue for are marked as provisioned already.
   */
  lemma EveryInterruptionIsAccountedIff(l: Ledger)
    requires Accounted(l)
    ensures (forall l' | Interrupted(l, l') :: Accounted(l')) <==> AllMarked(l)
  {
    hide Accounted, AlreadyProvisioned, InterruptedAt, ToIssue;
    if AllMarked(l) {
      forall l' | Interrupted(l, l') ensures Accounted(l') {
        var p :| InterruptedAt(l, l', p);
        InterruptionIsAccounted(l, l', p);
      }
    } else {
      var n :| n in ToIssue(l) && !AlreadyProvisioned(l.users, n);
      FullRunUnmarked(l, n);
    }
  }

  /** Cut short at either save, a reconciliation that was safe to start leaves all accounted for. */
  lemma CutShortIsAccounted(l: Ledger, l': Ledger, r: Report)
    requires Accounted(l) && AllMarked(l) && CutShort(l, l', r)
    ensures Accounted(l')
  {
    hide Accounted, AllMarked, Interrupted, CutShort;
    CutShortIsInterrupted(l, l', r);
    EveryInterruptionIsAccountedIff(l);
  }

  /** Queueing the revocation of a provisioned record keeps all names marked. */
  lemma QueueingKeepsMarked(l: Ledger, u: User)
    requires Accounted(l) && AllMarked(l) && u in l.users
    ensures AllMarked(l.(queue := Queued(l.queue, u)))
  {
    hide Lower, DistinctNames;
    var l' := l.(queue := Queued(l.queue, u));
    forall n | n in ToIssue(l') ensures AlreadyProvisioned(l.users, n) {
      if n !in ToIssue(l) {
        assert n == u.name && u.provisioned;
        var v :| v in l.users && v.enabled && v.name == n;
        UniqueName(l.users, u, v);
      }
    }
  }

  /** So does removing a record, or disabling it: fewer names are wanted. */
  lemma RemovingKeepsMarked(l: Ledger, name: string)
    requires AllMarked(l)
    ensures AllMarked(l.(users := Without(l.users, name)))
  {
    hide Lower, Without;
    var l' := l.(users := Without(l.users, name));
    forall n | n in ToIssue(l') ensures AlreadyProvisioned(l'.users, n) {
      var v :| v in l'.users && v.enabled && v.name == n;
      assert v in l.users && n in ToIssue(l);
      var u :| u in l.users && u.enabled && u.name == n && u.provisioned;
      assert u in l'.users;
    }
  }

  lemma DisablingKeepsMarked(l: Ledger, name: string)
    requires Accounted(l) && AllMarked(l)
    ensures AllMarked(l.(users := SetEnabled(l.users, name, false)))
  {
    hide Lower, SetEnabled, DistinctNames;
    var l' := l.(users := SetEnabled(l.users, name, false));
    forall n | n in ToIssue(l') ensures AlreadyProvisioned(l'.users, n) {
      var v :| v in l'.users && v.enabled && v.name == n;
      var j :| 0 <= j < |l'.users| && l'.users[j] == v;
      assert v == l.users[j] && v in l.users && n in ToIssue(l);
      var u :| u in l.users && u.enabled && u.name == n && u.provisioned;
      UniqueName(l.users, u, v);
    }
  }

  lemma InterruptionIsAccounted(l: Ledger, l': Ledger, p: Stage)
    requires Accounted(l) && InterruptedAt(l, l', p) && AllMarked(l)
    ensures Accounted(l')
  {
    hide Accounted, AlreadyProvisioned, Wanted;
    var r := p.report;
    assert l' == l.(certs := l'.certs, queue := l'.queue);
    forall n | n in r.added ensures AlreadyProvisioned(l.users, n) {
      assert n in p.wants;
      assert n in ToIssue(l);
    }
    if l'.queue == l.queue {
      InterruptedIsAccountedIff(l, p.mid, l'.certs, p.doomed, p.wants, r.withdrawn, r.revokeFailed,
                                r.added, r.addFailed);
    } else {
      BetweenSavesIsAccountedIff(l, p.mid, l'.certs, p.doomed, p.wants, r.withdrawn, r.revokeFailed,
                                 r.added, r.addFailed);
    }
  }

  lemma FullWithdrawal(certs: Listed, doomed: set<string>)
    ensures Withdrew(certs, certs - doomed, doomed, Sorted(doomed * certs.Keys), [])
  {
    hide Sorted, Ascending;
  }

  function AllIssued(certs: Listed, users: seq<User>, wants: set<string>): Listed
  {
    certs + map n | n in wants :: Cert(HolderOf(users, n), false)
  }

  lemma FullIssue(certs: Listed, users: seq<User>, wants: set<string>)
    ensures Issued(certs, AllIssued(certs, users, wants), wants, users, Sorted(wants), [])
  {
    hide Sorted, Ascending, HolderOf;
    var certs', added := AllIssued(certs, users, wants), Sorted(wants);
    assert forall n | n in wants :: n in certs' && certs'[n] == Cert(HolderOf(users, n), false);
    assert forall n | n !in wants :: (n in certs' <==> n in certs) && (n in certs ==> certs'[n] == certs[n]);
  }

  lemma FullRunIssues(l: Ledger, n: string, withdrawn: seq<string>)
    requires n in ToIssue(l) && forall m :: m in withdrawn <==> m in Doomed(l) * l.certs.Keys
    ensures n in Wanted(l.users) - (ValidNames(l.certs) - SetOf(withdrawn))
    ensures SetOf(l.queue) <= Doomed(l)
  {
    hide Wanted;
  }

  /** The run in which everything works, up to the save of the queue. */
  lemma FullRunUnmarked(l: Ledger, n: string)
    requires Accounted(l) && n in ToIssue(l) && !AlreadyProvisioned(l.users, n)
    ensures exists l' :: Interrupted(l, l') && !Accounted(l')
  {
    hide Accounted, AlreadyProvisioned, HolderOf, Wanted, Doomed, ValidNames, Withdrew, Issued, AllIssued,
      ToIssue, Ascending, Sorted, InterruptedAt, QueueAfter;
    var doomed := Doomed(l);
    var withdrawn := Sorted(doomed * l.certs.Keys);
    var wants := Wanted(l.users) - (ValidNames(l.certs) - SetOf(withdrawn));
    var mid := l.certs - doomed;
    var p := Stage(doomed, wants, mid, Report(Sorted(wants), withdrawn, [], []));
    FullRunIssues(l, n, withdrawn);
    FullWithdrawal(l.certs, doomed);
    FullIssue(mid, l.users, wants);
    var l' := l.(certs := AllIssued(mid, l.users, wants), queue := QueueAfter(l.queue, []));
    QueueSavedIsInterrupted(l, l', p);
    assert Interrupted(l, l');
    BetweenSavesIsAccountedIff(l, mid, l'.certs, doomed, wants, withdrawn, [], Sorted(wants), []);
    assert n in Sorted(wants);
  }

  lemma QueueSavedIsInterrupted(l: Ledger, l': Ledger, p: Stage)
    requires l'.users == l.users && l'.orphans == l.orphans
    requires p.doomed == Doomed(l) && p.wants == Wanted(l.users) - (ValidNames(l.certs) - SetOf(p.report.withdrawn))
    requires Withdrew(l.certs, p.mid, p.doomed, p.report.withdrawn, p.report.revokeFailed)
    requires Issued(p.mid, l'.certs, p.wants, l.users, p.report.added, p.report.addFailed)
    requires l'.queue == QueueAfter(l.queue, p.report.revokeFailed)
    ensures InterruptedAt(l, l', p)
  {
    hide Withdrew, Issued, Doomed, Wanted, ValidNames, QueueAfter;
  }

  ghost predicate AlreadyProvisioned(users: seq<User>, name: string)
  {
    exists u :: u in users && u.enabled && u.name == name && u.provisioned
  }

  // --------------------------------------------------------------- reconcile correctness

  lemma UniqueName(users: seq<User>, u: User, v: User)
    requires DistinctNames(users) && u in users && v in users && u.name == v.name
    ensures u == v
  {
    hide Lower;
    var i :| 0 <= i < |users| && users[i] == u;
    var j :| 0 <= j < |users| && users[j] == v;
    assert i < j ==> Lower(users[i].name) != Lower(users[j].name);
    assert j < i ==> Lower(users[j].name) != Lower(users[i].name);
  }

  lemma ValidAreWanted(l: Ledger, mid: Listed, l': Ledger, r: Report, n: string)
    requires ReconciledVia(l, mid, l', r) && NoFailures(r)
    ensures n in ValidNames(l'.certs) <==> n in Wanted(l.users)
    ensures n !in l'.queue
  {
    hide HolderOf, Flagged, Wanted;
  }

  lemma CorrectSets(l: Ledger, mid: Listed, l': Ledger, r: Report)
    requires DistinctNames(l.users) && ReconciledVia(l, mid, l', r) && NoFailures(r)
    ensures ValidNames(l'.certs) == Wanted(l'.users) == Wanted(l.users)
    ensures l'.queue == []
    ensures forall u | u in l'.users :: u.provisioned <==> u.enabled
  {
    FlaggedWanted(l.users, StillValid(l, r) + SetOf(r.added));
    assert Wanted(l'.users) == Wanted(l.users);
    hide HolderOf, Flagged, Wanted, QueueAfter, DistinctNames, Withdrew, Issued, Doomed, StillValid;
    forall n ensures (n in ValidNames(l'.certs) <==> n in Wanted(l.users)) && n !in l'.queue {
      ValidAreWanted(l, mid, l', r, n);
    }
    assert ValidNames(l'.certs) == Wanted(l.users);
    EmptySeq(l'.queue);
    FlagsAreMembership(l, mid, l', r);
  }

  /**
   When no container operation failed, the valid certificates are the enabled users', each
   issued to the person now holding the name, nothing is queued, and the flags say so.
   */
  lemma ReconcileIsCorrect(l: Ledger, l': Ledger, r: Report)
    requires Accounted(l) && Reconciled(l, l', r) && NoFailures(r)
    ensures ValidNames(l'.certs) == Wanted(l'.users) == Wanted(l.users)
    ensures l'.queue == []
    ensures forall u | u in l'.users :: u.provisioned <==> u.enabled
    ensures forall u | u in l'.users && u.enabled :: u.name in l'.certs && l'.certs[u.name] == Cert(u.holder, false)
  {
    ReconcileKeepsIdentity(l, l', r);
    var mid :| ReconciledVia(l, mid, l', r);
    hide Lower, ReconciledVia, DistinctNames, Owned;
    CorrectSets(l, mid, l', r);
    hide Accounted;
    forall u | u in l'.users && u.enabled
      ensures u.name in l'.certs && l'.certs[u.name] == Cert(u.holder, false)
    {
      assert u.name in Wanted(l'.users);
      OwnerIsTheUser(l', u);
    }
  }

  lemma FlaggedWanted(users: seq<User>, valid: set<string>)
    ensures Wanted(Flagged(users, valid)) == Wanted(users)
  {
    var fs := Flagged(users, valid);
    forall n ensures n in Wanted(fs) <==> n in Wanted(users) {
      if n in Wanted(fs) {
        var i :| 0 <= i < |fs| && fs[i].enabled && fs[i].name == n;
        assert users[i] in users;
      }
      if n in Wanted(users) {
        var i :| 0 <= i < |users| && users[i].enabled && users[i].name == n;
        assert fs[i] in fs;
      }
    }
  }

  lemma FlagsAreMembership(l: Ledger, mid: Listed, l': Ledger, r: Report)
    requires DistinctNames(l.users) && ReconciledVia(l, mid, l', r)
    requires ValidNames(l'.certs) == Wanted(l.users) && NoFailures(r)
    ensures forall u | u in l'.users :: u.provisioned <==> u.enabled
  {
    hide Lower;
    forall u | u in l'.users ensures u.provisioned <==> u.enabled {
      var i :| 0 <= i < |l'.users| && l'.users[i] == u;
      var w := l.users[i];
      assert w in l.users;
      if u.name in Wanted(l.users) {
        var v :| v in l.users && v.enabled && v.name == u.name;
        UniqueName(l.users, v, w);
      }
      ValidAreWanted(l, mid, l', r, u.name);
    }
  }

  lemma OwnerIsTheUser(l: Ledger, u: User)
    requires Accounted(l) && l.queue == [] && u in l.users && u.name in ValidNames(l.certs)
    ensures l.certs[u.name].holder == u.holder
  {
    hide DistinctNames;
    var v :| v in l.users && v.name == u.name && v.holder == l.certs[u.name].holder && v.provisioned;
    UniqueName(l.users, u, v);
  }

  /** A second run after such a one has nothing to withdraw and nothing to issue. */
  lemma SecondReconcileIsIdle(l: Ledger, l': Ledger, r: Report, l'': Ledger, r': Report)
    requires Accounted(l) && Reconciled(l, l', r) && NoFailures(r) && Reconciled(l', l'', r')
    ensures Doomed(l') == {} && Wanted(l'.users) - ValidNames(l'.certs) == {}
    ensures r' == Report([], [], [], []) && l''.certs == l'.certs
  {
    ReconcileIsCorrect(l, l', r);
    var mid :| ReconciledVia(l', mid, l'', r');
    hide Reconciled, Accounted, HolderOf, Flagged, QueueAfter, Wanted;
    IdleVia(l', mid, l'', r');
  }

  lemma IdleVia(l: Ledger, mid: Listed, l': Ledger, r: Report)
    requires ValidNames(l.certs) == Wanted(l.users) && l.queue == []
    requires ReconciledVia(l, mid, l', r)
    ensures Doomed(l) == {} && Wanted(l.users) - ValidNames(l.certs) == {}
    ensures r == Report([], [], [], []) && l'.certs == l.certs
  {
    IdleBothWays(l, mid, l'.certs, r);
  }

  lemma IdleBothWays(l: Ledger, mid: Listed, certs: Listed, r: Report)
    requires ValidNames(l.certs) == Wanted(l.users) && l.queue == []
    requires BothDirections(l, mid, certs, r)
    ensures Doomed(l) == {} && Wanted(l.users) - ValidNames(l.certs) == {}
    ensures r == Report([], [], [], []) && certs == l.certs
  {
    hide HolderOf, Flagged, QueueAfter, Wanted;
    assert Doomed(l) == {};
    EmptySeq(r.withdrawn);
    EmptySeq(r.revokeFailed);
    assert StillValid(l, r) == ValidNames(l.certs);
    EmptySeq(r.added);
    EmptySeq(r.addFailed);
    assert mid == l.certs;
  }

  /** A name leaves the queue only by its own removal, or because there was nothing to remove. */
  lemma QueueExit(l: Ledger, l': Ledger, r: Report, name: string)
    requires Reconciled(l, l', r) && name in l.queue && name !in l'.queue
    ensures name in r.withdrawn || name !in l.certs
    ensures name in l'.certs && !l'.certs[name].revoked ==>
      name in r.added && l'.certs[name].holder == HolderOf(l.users, name)
  {
    hide Lower, HolderOf, Flagged;
    var mid :| ReconciledVia(l, mid, l', r);
    assert name in Doomed(l) && name !in r.revokeFailed;
  }
}
