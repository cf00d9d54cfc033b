/** The ikev2 container as the code drives it, and the reconciliation itself. */
module Ikev2Container {
  import opened Strings
  import opened Users
  import opened Stores
  import opened Certificates
  import opened Reconcile

  /** What the container was asked to do, and whether it said that it had. */
  datatype CertOp =
    | List(ok: bool)
    | Revoke(name: string, ok: bool)
    | Delete(name: string, ok: bool)
    | Add(name: string, ok: bool)

  datatype Outcome =
    | Skipped
    /** One of the two files could not be read: nothing was done. */
    | Unread
    | Done(report: Report)
    /** A write of one of the two files failed after the container had been changed. */
    | Aborted(report: Report)

  /** Names the listing carries faithfully. */
  predicate Nameable(name: string)
  {
    OneField(name) && name != "Client"
  }

  class Ikev2 {
    var certs: Listed
    /** Certificates that are accepted although nothing lists them. */
    var orphans: set<(string, nat)>
    var log: seq<CertOp>
    /** While the container runs, its tool does what it can do. */
    const obliging: bool

    constructor (obliging: bool)
      ensures Valid() && certs == map[] && orphans == {} && this.obliging == obliging
    {
      certs, orphans, log := map[], {}, [];
      this.obliging := obliging;
    }

    ghost predicate Valid()
      reads this
    {
      forall n | n in certs :: Nameable(n)
    }

    method ListClients() returns (ok: bool, lines: seq<string>)
      modifies this`log
      ensures log == old(log) + [List(ok)]
      ensures ok ==> IsListing(lines, certs)
      ensures obliging ==> ok
    {
      ok := *;
      ok := ok || obliging;
      log := log + [List(ok)];
      var order := Sorted(certs.Keys);
      lines := ListingLines(order, certs);
      assert Lists(order, certs);
    }

    /** A revocation that fails may have taken effect all the same. */
    method RevokeClient(name: string) returns (ok: bool)
      modifies this`certs, this`log
      ensures log == old(log) + [Revoke(name, ok)]
      ensures ok ==> name in old(certs) && !old(certs)[name].revoked
      ensures certs == old(certs)
        || (name in old(certs) && certs == old(certs)[name := old(certs)[name].(revoked := true)])
      ensures ok ==> name in certs && certs[name].revoked
      ensures obliging && name in old(certs) && !old(certs)[name].revoked ==> ok
    {
      ok := false;
      if name in certs && !certs[name].revoked {
        var effect: bool := *;
        if effect || obliging {
          certs := certs[name := certs[name].(revoked := true)];
          ok := *;
          ok := ok || obliging;
        }
      }
      log := log + [Revoke(name, ok)];
    }

    /**
     Frees a name. It withdraws nothing: a certificate that was still valid goes on being
     accepted, and is no longer listed.
     */
    method DeleteClient(name: string) returns (ok: bool)
      modifies this`certs, this`orphans, this`log
      ensures log == old(log) + [Delete(name, ok)]
      ensures certs == old(certs) || certs == old(certs) - {name}
      ensures ok ==> name !in certs
      ensures orphans == old(orphans) + if name in old(certs) && !old(certs)[name].revoked && name !in certs
                                        then {(name, old(certs)[name].holder)} else {}
      ensures obliging && name in old(certs) ==> ok
    {
      ok := false;
      if name in certs {
        var effect: bool := *;
        if effect || obliging {
          orphans := orphans + if certs[name].revoked then {} else {(name, certs[name].holder)};
          certs := certs - {name};
          ok := *;
          ok := ok || obliging;
        }
      }
      log := log + [Delete(name, ok)];
    }

    /** Fails for a name that is taken, even by a revoked certificate. A failure issues nothing. */
    method AddClient(name: string, holder: nat) returns (ok: bool)
      modifies this`certs, this`log
      ensures log == old(log) + [Add(name, ok)]
      ensures certs == if ok then old(certs)[name := Cert(holder, false)] else old(certs)
      ensures ok ==> name !in old(certs)
      ensures obliging && name !in old(certs) ==> ok
    {
      ok := *;
      ok := (ok || obliging) && name !in certs;
      if ok {
        certs := certs[name := Cert(holder, false)];
      }
      log := log + [Add(name, ok)];
    }

    /** Revokes, then deletes: two operations, and it can fail between them. */
    method RemoveClient(name: string) returns (ok: bool)
      modifies this`certs, this`orphans, this`log
      ensures orphans == old(orphans)
      ensures ok ==> name !in certs
      ensures forall n | n != name :: (n in certs <==> n in old(certs)) && (n in certs ==> certs[n] == old(certs)[n])
      ensures name in certs ==> name in old(certs)
      ensures name in certs ==> certs[name].holder == old(certs)[name].holder
      ensures name in certs && old(certs)[name].revoked ==> certs[name].revoked
      ensures obliging && name in old(certs) && !old(certs)[name].revoked ==> ok
      ensures
        || (!ok && log == old(log) + [Revoke(name, false)])
        || log == old(log) + [Revoke(name, true), Delete(name, ok)]
    {
      ok := RevokeClient(name);
      if !ok {
        return;
      }
      ok := DeleteClient(name);
    }

    /** The volume that holds the certificates loses some of them. */
    method LoseCertificates()
      requires Valid()
      modifies this`certs
      ensures Valid()
      ensures certs == old(certs) - (old(certs).Keys - certs.Keys)
    {
      var lost: set<string> := *;
      certs := certs - lost;
    }
  }

  function LedgerOf(box: Ikev2, store: Store): Ledger
    reads box, store
  {
    Ledger(store.users, store.Current().revokePending, box.certs, box.orphans)
  }

  /** What was asked of the container since it had been asked so much. */
  function AskedSince(log: seq<CertOp>, from: nat): seq<CertOp>
  {
    if from <= |log| then log[from..] else []
  }

  lemma AskedInTwo(was: seq<CertOp>, log: seq<CertOp>, now: seq<CertOp>)
    requires was <= log <= now
    ensures AskedSince(now, |was|) == AskedSince(log, |was|) + AskedSince(now, |log|)
    ensures AskedSince(now, |log|) == now[|log|..] && AskedSince(was, |was|) == []
  {
  }

  /**
   Every withdrawn name was revoked, unless it was listed as revoked already, and deleted; every one
   reported as failed was asked for, and the container said no.
   */
  ghost predicate WithdrawalsAsked(valid0: set<string>, withdrawn: seq<string>, failed: seq<string>, asked: seq<CertOp>)
  {
    && (forall n | n in withdrawn :: Delete(n, true) in asked && (n in valid0 ==> Revoke(n, true) in asked))
    && (forall n | n in failed && n in valid0 ::
          Revoke(n, false) in asked || (Revoke(n, true) in asked && Delete(n, false) in asked))
    && (forall n | n in failed && n !in valid0 :: Delete(n, false) in asked)
  }

  lemma WithdrawalAsked(valid0: set<string>, withdrawn: seq<string>, failed: seq<string>, asked: seq<CertOp>,
                        name: string, more: seq<CertOp>, ok: bool)
    requires WithdrawalsAsked(valid0, withdrawn, failed, asked)
    requires name in valid0 ==> more in [[Revoke(name, false)], [Revoke(name, true), Delete(name, ok)]]
    requires name in valid0 && ok ==> more == [Revoke(name, true), Delete(name, true)]
    requires name !in valid0 ==> more == [Delete(name, ok)]
    ensures WithdrawalsAsked(valid0, if ok then withdrawn + [name] else withdrawn,
                             if ok then failed else failed + [name], asked + more)
  {
    assert more != [] && more[0] in more && more[|more| - 1] in more;
    assert forall op | op in asked || op in more :: op in asked + more;
  }

  /** Withdraws one listed certificate: by revoking and deleting it, or by deleting it if it is revoked. */
  method WithdrawOne(box: Ikev2, name: string, listedValid: bool) returns (ok: bool)
    requires name in box.certs && box.certs[name].revoked == !listedValid
    modifies box`certs, box`orphans, box`log
    ensures box.orphans == old(box.orphans)
    ensures WithdrewOne(old(box.certs), box.certs, name, ok)
    ensures !listedValid ==> box.log == old(box.log) + [Delete(name, ok)]
    ensures listedValid ==>
      || (!ok && box.log == old(box.log) + [Revoke(name, false)])
      || box.log == old(box.log) + [Revoke(name, true), Delete(name, ok)]
    ensures box.obliging ==> ok
  {
    if listedValid {
      ok := box.RemoveClient(name);
    } else {
      ok := box.DeleteClient(name);
    }
  }

  ghost predicate WithdrewOne(was: Listed, now: Listed, name: string, ok: bool)
  {
    && (forall n | n != name :: (n in now <==> n in was) && (n in was ==> now[n] == was[n]))
    && (ok ==> name !in now)
    && (name in now ==>
          name in was && now[name].holder == was[name].holder && (was[name].revoked ==> now[name].revoked))
  }

  lemma WithdrewOneMore(c0: Listed, was: Listed, now: Listed, done: seq<string>, name: string,
                        withdrawn: seq<string>, failed: seq<string>, ok: bool)
    requires Withdrew(c0, was, SetOf(done), withdrawn, failed) && name !in done
    requires name in c0 && WithdrewOne(was, now, name, ok)
    ensures Withdrew(c0, now, SetOf(done + [name]), if ok then withdrawn + [name] else withdrawn,
                     if ok then failed else failed + [name])
  {
    assert SetOf(done + [name]) == SetOf(done) + {name};
    assert name !in withdrawn && name !in failed && name in was && was[name] == c0[name];
  }

  lemma PassedOver(c0: Listed, c: Listed, done: seq<string>, name: string, withdrawn: seq<string>, failed: seq<string>)
    requires Withdrew(c0, c, SetOf(done), withdrawn, failed) && name !in c0
    ensures Withdrew(c0, c, SetOf(done + [name]), withdrawn, failed)
  {
    assert SetOf(done + [name]) == SetOf(done) + {name};
  }

  lemma NotYetWithdrawn(c0: Listed, c: Listed, done: seq<string>, name: string, withdrawn: seq<string>,
                        failed: seq<string>, valid: set<string>, reserved: set<string>)
    requires Withdrew(c0, c, SetOf(done), withdrawn, failed) && name !in done
    requires valid == ValidNames(c0) - SetOf(withdrawn) && reserved == RevokedNames(c0) - SetOf(withdrawn)
    ensures name !in withdrawn && name !in failed
    ensures name in c0 <==> name in c
    ensures name in valid <==> name in c && !c[name].revoked
    ensures name in reserved <==> name in c && c[name].revoked
  {
  }

  /** The first direction: everything queued, and every working certificate nobody wants. */
  method Withdraw(box: Ikev2, doomed: seq<string>, valid0: set<string>, reserved0: set<string>)
    returns (valid: set<string>, reserved: set<string>, withdrawn: seq<string>, failed: seq<string>)
    requires NoRepeats(doomed)
    requires valid0 == ValidNames(box.certs) && reserved0 == RevokedNames(box.certs)
    modifies box`certs, box`orphans, box`log
    ensures box.orphans == old(box.orphans)
    ensures Withdrew(old(box.certs), box.certs, SetOf(doomed), withdrawn, failed)
    ensures valid == valid0 - SetOf(withdrawn)
    ensures reserved == reserved0 - SetOf(withdrawn)
    ensures (forall n | n in doomed :: n !in old(box.certs)) ==> box.log == old(box.log)
    ensures box.obliging ==> failed == []
    ensures old(box.log) <= box.log
    ensures WithdrawalsAsked(valid0, withdrawn, failed, AskedSince(box.log, |old(box.log)|))
  {
    hide WithdrawalsAsked, AskedSince, Withdrew, WithdrewOne, ValidNames, RevokedNames;
    valid, reserved, withdrawn, failed := valid0, reserved0, [], [];
    ghost var c0 := box.certs;
    NothingAsked(valid0);
    NothingWithdrawn(c0);
    AskedInTwo(box.log, box.log, box.log);
    assert doomed[..0] == [];
    for i := 0 to |doomed|
      invariant box.orphans == old(box.orphans)
      invariant Withdrew(c0, box.certs, SetOf(doomed[..i]), withdrawn, failed)
      invariant valid == valid0 - SetOf(withdrawn)
      invariant reserved == reserved0 - SetOf(withdrawn)
      invariant (forall n | n in doomed :: n !in c0) ==> box.log == old(box.log)
      invariant box.obliging ==> failed == []
      invariant old(box.log) <= box.log
      invariant WithdrawalsAsked(valid0, withdrawn, failed, AskedSince(box.log, |old(box.log)|))
    {
      var name := doomed[i];
      assert doomed[..i + 1] == doomed[..i] + [name] && name !in doomed[..i] && name in doomed;
      NotYetWithdrawn(c0, box.certs, doomed[..i], name, withdrawn, failed, valid, reserved);
      if name !in valid && name !in reserved {
        PassedOver(c0, box.certs, doomed[..i], name, withdrawn, failed);
        continue;
      }
      ghost var log, was := box.log, box.certs;
      var ok := WithdrawOne(box, name, name in valid);
      WithdrewOneMore(c0, was, box.certs, doomed[..i], name, withdrawn, failed, ok);
      AskedInTwo(old(box.log), log, box.log);
      WithdrawalAsked(valid0, withdrawn, failed, AskedSince(log, |old(box.log)|), name, box.log[|log|..], ok);
      if !ok {
        failed := failed + [name];
        continue;
      }
      withdrawn := withdrawn + [name];
      valid := valid - {name};
      reserved := reserved - {name};
    }
    assert doomed[..|doomed|] == doomed;
  }

  lemma NothingWithdrawn(certs: Listed)
    ensures Withdrew(certs, certs, SetOf([]), [], [])
  {
  }

  lemma NothingAsked(valid0: set<string>)
    ensures WithdrawalsAsked(valid0, [], [], [])
  {
  }

  /** Frees the name when a revoked certificate still holds it, then issues: in that order. */
  method IssueOne(box: Ikev2, users: seq<User>, name: string, reserved: set<string>) returns (ok: bool)
    requires name in box.certs ==> box.certs[name].revoked
    modifies box`certs, box`orphans, box`log
    ensures box.orphans == old(box.orphans)
    ensures ok ==> box.certs == old(box.certs)[name := Cert(HolderOf(users, name), false)]
    ensures !ok ==> box.certs == old(box.certs) || box.certs == old(box.certs) - {name}
    ensures name !in reserved ==> box.log == old(box.log) + [Add(name, ok)]
    ensures name in reserved ==>
      || (!ok && box.log == old(box.log) + [Delete(name, false)])
      || box.log == old(box.log) + [Delete(name, true), Add(name, ok)]
    ensures ok && name in old(box.certs) ==> name in reserved
    ensures box.obliging && (name in reserved <==> name in old(box.certs)) ==> ok
  {
    hide HolderOf;
    if name in reserved {
      ok := box.DeleteClient(name);
      if !ok {
        return;
      }
    }
    ok := box.AddClient(name, HolderOf(users, name));
  }

  /** Which of these names the listing showed as reserved is what the container holds of them. */
  predicate Matches(names: seq<string>, reserved: set<string>, certs: Listed)
  {
    forall n | n in names :: n in reserved <==> n in certs
  }

  /**
   Every name that got a certificate was asked for, after it had been freed if it was listed as
   reserved; every one reported as failed was asked for, and the container said no.
   */
  ghost predicate IssuesAsked(reserved: set<string>, added: seq<string>, failed: seq<string>, asked: seq<CertOp>)
  {
    && (forall n | n in added :: Add(n, true) in asked && (n in reserved ==> Delete(n, true) in asked))
    && (forall n | n in failed && n !in reserved :: Add(n, false) in asked)
    && (forall n | n in failed && n in reserved ::
          Delete(n, false) in asked || (Delete(n, true) in asked && Add(n, false) in asked))
  }

  lemma IssueAsked(reserved: set<string>, added: seq<string>, failed: seq<string>, asked: seq<CertOp>,
                   name: string, more: seq<CertOp>, ok: bool)
    requires IssuesAsked(reserved, added, failed, asked)
    requires name !in reserved ==> more == [Add(name, ok)]
    requires name in reserved ==> more == [Delete(name, true), Add(name, ok)] || (!ok && more == [Delete(name, false)])
    ensures IssuesAsked(reserved, if ok then added + [name] else added, if ok then failed else failed + [name],
                        asked + more)
  {
    assert more != [] && more[0] in more && more[|more| - 1] in more;
    assert forall op | op in asked || op in more :: op in asked + more;
  }

  ghost predicate Issuing(c1: Listed, c2: Listed, done: seq<string>, users: seq<User>, reserved: set<string>,
                          added: seq<string>, failed: seq<string>)
  {
    && Issued(c1, c2, SetOf(done), users, added, failed)
    && forall n | n in added && n in c1 :: n in reserved
  }

  lemma IssuingOneMore(c1: Listed, was: Listed, now: Listed, done: seq<string>, name: string, users: seq<User>,
                       reserved: set<string>, added: seq<string>, failed: seq<string>, ok: bool)
    requires Issuing(c1, was, done, users, reserved, added, failed) && name !in done
    requires ok ==> now == was[name := Cert(HolderOf(users, name), false)]
    requires !ok ==> now == was || now == was - {name}
    requires ok && name in was ==> name in reserved
    ensures Issuing(c1, now, done + [name], users, reserved, if ok then added + [name] else added,
                    if ok then failed else failed + [name])
  {
    hide HolderOf;
    assert SetOf(done + [name]) == SetOf(done) + {name};
    assert name !in added && name !in failed;
  }

  /**
   The other direction: a certificate for every enabled user without one. A name that was taken
   gets one only if the listing showed it as reserved, so that it was freed first.
   */
  method Issue(box: Ikev2, users: seq<User>, wants: seq<string>, valid0: set<string>, reserved: set<string>)
    returns (valid: set<string>, added: seq<string>, failed: seq<string>)
    requires NoRepeats(wants)
    requires forall n | n in wants && n in box.certs :: box.certs[n].revoked
    requires box.obliging ==> Matches(wants, reserved, box.certs)
    modifies box`certs, box`orphans, box`log
    ensures box.orphans == old(box.orphans)
    ensures Issued(old(box.certs), box.certs, SetOf(wants), users, added, failed)
    ensures forall n | n in added && n in old(box.certs) :: n in reserved
    ensures valid == valid0 + SetOf(added)
    ensures wants == [] ==> box.log == old(box.log)
    ensures box.obliging ==> failed == []
    ensures old(box.log) <= box.log
    ensures IssuesAsked(reserved, added, failed, AskedSince(box.log, |old(box.log)|))
  {
    hide HolderOf, Lower, Issued, IssuesAsked, AskedSince;
    NothingAskedFor(reserved);
    AskedInTwo(box.log, box.log, box.log);
    valid, added, failed := valid0, [], [];
    ghost var c1 := box.certs;
    NothingIssued(c1, users, reserved);
    assert wants[..0] == [];
    for i := 0 to |wants|
      invariant box.orphans == old(box.orphans)
      invariant Issuing(c1, box.certs, wants[..i], users, reserved, added, failed)
      invariant forall n | n in wants[i..] :: (n in box.certs <==> n in c1) && (n in c1 ==> box.certs[n] == c1[n])
      invariant valid == valid0 + SetOf(added)
      invariant wants == [] ==> box.log == old(box.log)
      invariant box.obliging ==> failed == []
      invariant old(box.log) <= box.log
      invariant IssuesAsked(reserved, added, failed, AskedSince(box.log, |old(box.log)|))
    {
      ghost var log := box.log;
      var name := wants[i];
      assert wants[..i + 1] == wants[..i] + [name] && wants[i..] == [name] + wants[i + 1..];
      assert name !in wants[..i] && name !in wants[i + 1..] && name in wants;
      ghost var was := box.certs;
      var ok := IssueOne(box, users, name, reserved);
      AskedInTwo(old(box.log), log, box.log);
      IssueAsked(reserved, added, failed, AskedSince(log, |old(box.log)|), name, box.log[|log|..], ok);
      IssuingOneMore(c1, was, box.certs, wants[..i], name, users, reserved, added, failed, ok);
      if !ok {
        failed := failed + [name];
        continue;
      }
      added := added + [name];
      valid := valid + {name};
    }
    assert wants[..|wants|] == wants;
  }

  lemma NothingAskedFor(reserved: set<string>)
    ensures IssuesAsked(reserved, [], [], [])
  {
  }

  lemma NothingIssued(certs: Listed, users: seq<User>, reserved: set<string>)
    ensures Issuing(certs, certs, [], users, reserved, [], [])
  {
  }

  /** Both directions, from what the listing showed. */
  method BothWays(box: Ikev2, ghost l: Ledger, queue: seq<string>, users: seq<User>,
                  valid0: set<string>, reserved0: set<string>)
    returns (valid: set<string>, report: Report, ghost mid: Listed)
    requires l.users == users && l.queue == queue && l.certs == box.certs
    requires valid0 == ValidNames(box.certs) && reserved0 == RevokedNames(box.certs)
    requires box.Valid() && forall u | u in users && u.enabled :: Nameable(u.name)
    modifies box`certs, box`orphans, box`log
    ensures box.Valid() && box.orphans == old(box.orphans)
    ensures Withdrew(l.certs, mid, Doomed(l), report.withdrawn, report.revokeFailed)
    ensures Issued(mid, box.certs, Wanted(users) - StillValid(l, report), users, report.added, report.addFailed)
    ensures valid == StillValid(l, report) + SetOf(report.added)
    ensures (forall n | n in Doomed(l) :: n !in l.certs) && Wanted(users) - valid0 == {} ==> box.log == old(box.log)
    ensures box.obliging ==> NoFailures(report)
    ensures old(box.log) <= box.log
    ensures AllAsked(l, report, AskedSince(box.log, |old(box.log)|))
  {
    hide WithdrawalsAsked, IssuesAsked, AskedSince, AllAsked;
    hide HolderOf, Lower, Sorted, Nameable, Wanted, Withdrew, Issued, Doomed, ValidNames, RevokedNames;
    var wanted := Wanted(users);
    var doomed := Sorted(SetOf(queue) + (valid0 - wanted));
    AscendingHasNoRepeats(doomed);
    assert SetOf(doomed) == Doomed(l) by { DoomedAre(l, doomed, valid0); }
    var reserved, withdrawn, revokeFailed;
    valid, reserved, withdrawn, revokeFailed := Withdraw(box, doomed, valid0, reserved0);
    mid := box.certs;
    var wants := Sorted(wanted - valid);
    AscendingHasNoRepeats(wants);
    assert SetOf(wants) == wanted - valid;
    WantsAreFree(l, mid, withdrawn, revokeFailed, wants);
    IdleWants(l, mid, withdrawn, revokeFailed, wants);
    if box.obliging {
      WantsMatch(l, mid, withdrawn, wants);
    }
    var added, addFailed;
    ghost var log := box.log;
    valid, added, addFailed := Issue(box, users, wants, valid, reserved);
    report := Report(added, withdrawn, revokeFailed, addFailed);
    AskedInTwo(old(box.log), log, box.log);
    BothAsked(l, report, reserved, AskedSince(log, |old(box.log)|), AskedSince(box.log, |log|));
    NamesStayNameable(l, mid, box.certs, report);
  }

  /**
   Nothing is reported that was not tried: whatever failed before, every name that a report names
   was asked for, and failed only if the container said no.
   */
  ghost predicate AllAsked(l: Ledger, r: Report, asked: seq<CertOp>)
  {
    && WithdrawalsAsked(ValidNames(l.certs), r.withdrawn, r.revokeFailed, asked)
    && IssuesAsked(RevokedNames(l.certs) - SetOf(r.withdrawn), r.added, r.addFailed, asked)
  }

  lemma BothAsked(l: Ledger, r: Report, reserved: set<string>, first: seq<CertOp>, second: seq<CertOp>)
    requires WithdrawalsAsked(ValidNames(l.certs), r.withdrawn, r.revokeFailed, first)
    requires reserved == RevokedNames(l.certs) - SetOf(r.withdrawn)
    requires IssuesAsked(reserved, r.added, r.addFailed, second)
    ensures AllAsked(l, r, first + second)
  {
    assert forall op | op in first || op in second :: op in first + second;
  }

  lemma DoomedAre(l: Ledger, doomed: seq<string>, valid: set<string>)
    requires valid == ValidNames(l.certs)
    requires forall n :: n in doomed <==> n in SetOf(l.queue) + (valid - Wanted(l.users))
    ensures SetOf(doomed) == Doomed(l)
  {
    hide Wanted;
  }

  /** When every withdrawal succeeded, the listing still tells which wanted names are taken. */
  lemma WantsMatch(l: Ledger, mid: Listed, withdrawn: seq<string>, wants: seq<string>)
    requires Withdrew(l.certs, mid, Doomed(l), withdrawn, [])
    requires SetOf(wants) == Wanted(l.users) - (ValidNames(l.certs) - SetOf(withdrawn))
    ensures Matches(wants, RevokedNames(l.certs) - SetOf(withdrawn), mid)
  {
    hide Wanted, Doomed;
    forall n | n in wants ensures n in RevokedNames(l.certs) - SetOf(withdrawn) <==> n in mid {
      assert n in SetOf(wants);
    }
  }

  lemma IdleWants(l: Ledger, mid: Listed, withdrawn: seq<string>, failed: seq<string>, wants: seq<string>)
    requires Withdrew(l.certs, mid, Doomed(l), withdrawn, failed)
    requires SetOf(wants) == Wanted(l.users) - (ValidNames(l.certs) - SetOf(withdrawn))
    ensures (forall n | n in Doomed(l) :: n !in l.certs) && Wanted(l.users) - ValidNames(l.certs) == {} ==> wants == []
  {
    hide Wanted;
    if (forall n | n in Doomed(l) :: n !in l.certs) && Wanted(l.users) - ValidNames(l.certs) == {} {
      assert SetOf(withdrawn) == {};
      assert ValidNames(l.certs) - SetOf(withdrawn) == ValidNames(l.certs);
      assert SetOf(wants) == {};
      forall n ensures n !in wants {
        assert n in wants ==> n in SetOf(wants);
      }
      EmptySeq(wants);
    }
  }

  /**
   Reconciles, when the container is up. A file that cannot be read or written ends it, before
   or after the container was changed; so it does the command it is part of.
   */
  method ReconcileIkev2(box: Ikev2, store: Store, up: bool) returns (outcome: Outcome)
    requires box.Valid() && forall u | u in store.users && u.enabled :: Nameable(u.name)
    modifies box`certs, box`orphans, box`log, store
    ensures box.Valid()
    ensures outcome.Skipped? || outcome.Unread? ==> LedgerOf(box, store) == old(LedgerOf(box, store))
    ensures outcome.Skipped? || outcome.Unread? ==> store.users == old(store.users) && store.file == old(store.file)
    ensures outcome.Done? ==> Reconciled(old(LedgerOf(box, store)), LedgerOf(box, store), outcome.report)
    ensures outcome.Aborted? ==> CutShort(old(LedgerOf(box, store)), LedgerOf(box, store), outcome.report)
    ensures store.Current() == old(store.Current()).(revokePending := store.Current().revokePending)
    ensures var l := old(LedgerOf(box, store));
      outcome.Done? && (forall n | n in Doomed(l) :: n !in l.certs) && Wanted(l.users) - ValidNames(l.certs) == {} ==>
        box.log == old(box.log) + [List(true)]
    ensures !up ==> outcome.Skipped? && box.log == old(box.log)
    ensures up && outcome.Skipped? ==> box.log == old(box.log) + [List(false)]
    ensures old(box.log) <= box.log
    ensures outcome.Done? || outcome.Aborted? ==>
      AllAsked(old(LedgerOf(box, store)), outcome.report, AskedSince(box.log, |old(box.log)| + 1))
    ensures store.obliging ==> !outcome.Unread? && !outcome.Aborted?
    ensures up && box.obliging && store.obliging ==> outcome.Done? && NoFailures(outcome.report)
  {
    hide AllAsked, AskedSince, CutShort, Reconciled, SetOf;
    hide Words, IsListing, HolderOf, Lower, Sorted, Nameable, Doomed, Wanted, Withdrew, Issued, StillValid,
      DefaultState, NoFailures;
    if !up {
      return Skipped;
    }
    var st := store.LoadState();
    if st.None? {
      return Unread;
    }
    var loaded := store.LoadUsers();
    if loaded.None? {
      return Unread;
    }
    ghost var l := LedgerOf(box, store);
    var users := loaded.value;
    var ok, lines := box.ListClients();
    if !ok {
      return Skipped;
    }
    var valid, reserved := ParseClients(lines);
    ParsedExactly(box, lines, valid, reserved);
    var report;
    ghost var mid;
    valid, report, mid := BothWays(box, l, st.value.revokePending, users, valid, reserved);
    outcome := WriteBooks(box, store, l, mid, valid, report);
  }

  /** First the queue, then the flags: a file that cannot be written ends it there. */
  method WriteBooks(box: Ikev2, store: Store, ghost l: Ledger, ghost mid: Listed, valid: set<string>, report: Report)
    returns (outcome: Outcome)
    requires BothDirections(l, mid, box.certs, report) && valid == StillValid(l, report) + SetOf(report.added)
    requires LedgerOf(box, store) == l.(certs := box.certs)
    modifies store
    ensures outcome == Done(report) || outcome == Aborted(report)
    ensures outcome.Done? ==> Reconciled(l, LedgerOf(box, store), report)
    ensures outcome.Aborted? ==> CutShort(l, LedgerOf(box, store), report)
    ensures store.Current() == old(store.Current()).(revokePending := store.Current().revokePending)
    ensures store.obliging ==> outcome.Done?
  {
    hide Withdrew, Issued, Doomed, Wanted, StillValid, DefaultState, SetOf;
    var queue, users := store.Current().revokePending, store.users;
    var ok := store.SaveState(store.Current().(revokePending := QueueAfter(queue, report.revokeFailed)));
    if ok {
      ok := store.SaveUsers(Flagged(users, valid));
    }
    if !ok {
      assert BothDirections(l, mid, box.certs, report);
      return Aborted(report);
    }
    assert ReconciledVia(l, mid, LedgerOf(box, store), report);
    return Done(report);
  }

  /** After a run without failures another one asks for the listing and does nothing more. */
  method ReconcileAgain(box: Ikev2, store: Store, ghost l: Ledger, ghost r: Report) returns (outcome: Outcome)
    requires box.Valid() && forall u | u in store.users && u.enabled :: Nameable(u.name)
    requires Accounted(l) && Reconciled(l, LedgerOf(box, store), r) && NoFailures(r)
    modifies box`certs, box`orphans, box`log, store
    ensures box.certs == old(box.certs)
    ensures outcome.Done? ==> outcome.report == Report([], [], [], []) && box.log == old(box.log) + [List(true)]
    ensures outcome.Done? ==> Accounted(LedgerOf(box, store)) && store.Current().revokePending == []
    ensures outcome.Done? ==> Wanted(store.users) == old(Wanted(store.users))
    ensures outcome.Done? ==> forall u | u in store.users :: u.provisioned <==> u.enabled
    ensures box.obliging && store.obliging ==> outcome.Done?
  {
    hide Nameable, Accounted, Reconciled, Doomed, Wanted, ValidNames, DefaultState, CutShort;
    ghost var l1 := LedgerOf(box, store);
    ReconcileIsCorrect(l, l1, r);
    ReconcileKeepsIdentity(l, l1, r);
    outcome := ReconcileIkev2(box, store, true);
    ghost var l2 := LedgerOf(box, store);
    if outcome.Done? {
      SecondReconcileIsIdle(l, l1, r, l2, outcome.report);
      assert NoFailures(outcome.report);
      ReconcileIsCorrect(l1, l2, outcome.report);
      ReconcileKeepsIdentity(l1, l2, outcome.report);
    } else if outcome.Aborted? {
      IdleCutIsIdle(l, l1, r, l2, outcome.report);
    }
  }

  lemma IdleCutIsIdle(l: Ledger, l': Ledger, r: Report, l'': Ledger, r': Report)
    requires Accounted(l) && Reconciled(l, l', r) && NoFailures(r) && CutShort(l', l'', r')
    ensures l''.certs == l'.certs
  {
    ReconcileIsCorrect(l, l', r);
    var mid :| BothDirections(l', mid, l''.certs, r');
    hide Reconciled, Accounted, HolderOf, Wanted;
    IdleBothWays(l', mid, l''.certs, r');
  }

  /**
   With a container and files that do as they are asked, one run leaves exactly the enabled users
   with a valid certificate, each their own, nothing queued and the flags saying so; and a second
   run has an empty report.
   */
  method ReconcileTwice(box: Ikev2, store: Store) returns (first: Outcome, second: Outcome)
    requires box.Valid() && forall u | u in store.users && u.enabled :: Nameable(u.name)
    requires box.obliging && store.obliging && Accounted(LedgerOf(box, store))
    modifies box`certs, box`orphans, box`log, store
    ensures first.Done? && second.Done? && second.report == Report([], [], [], [])
    ensures ValidNames(box.certs) == Wanted(store.users) == old(Wanted(store.users))
    ensures store.Current().revokePending == []
    ensures forall u | u in store.users :: u.provisioned <==> u.enabled
    ensures forall u | u in store.users && u.enabled ::
      u.name in box.certs && box.certs[u.name] == Cert(u.holder, false)
  {
    hide Nameable, Accounted, Reconciled, Doomed, Wanted, NoFailures, DefaultState, ValidNames;
    ghost var l := LedgerOf(box, store);
    first := ReconcileIkev2(box, store, true);
    ghost var l1 := LedgerOf(box, store);
    ReconcileIsCorrect(l, l1, first.report);
    WantedAreNameable(l.users, l1.users);
    second := ReconcileAgain(box, store, l, first.report);
    SettledCertificates(l1, LedgerOf(box, store));
  }

  lemma SettledCertificates(l: Ledger, l': Ledger)
    requires Accounted(l') && l'.queue == [] && l'.certs == l.certs
    requires ValidNames(l.certs) == Wanted(l.users) == Wanted(l'.users)
    ensures forall u | u in l'.users && u.enabled :: u.name in l'.certs && l'.certs[u.name] == Cert(u.holder, false)
  {
    hide Accounted;
    forall u | u in l'.users && u.enabled
      ensures u.name in l'.certs && l'.certs[u.name] == Cert(u.holder, false)
    {
      assert u.name in Wanted(l'.users);
      OwnerIsTheUser(l', u);
    }
  }

  lemma WantedAreNameable(us: seq<User>, vs: seq<User>)
    requires forall u | u in us && u.enabled :: Nameable(u.name)
    requires Wanted(us) == Wanted(vs)
    ensures forall u | u in vs && u.enabled :: Nameable(u.name)
  {
    hide Nameable;
    forall u | u in vs && u.enabled ensures Nameable(u.name) {
      assert u.name in Wanted(vs);
    }
  }

  lemma ParsedExactly(box: Ikev2, lines: seq<string>, valid: set<string>, reserved: set<string>)
    requires box.Valid() && IsListing(lines, box.certs)
    requires forall n :: n in valid <==> exists i :: 0 <= i < |lines| && RowSays(lines[i], n, "valid")
    requires forall n :: n in reserved <==> exists i :: 0 <= i < |lines| && RowSays(lines[i], n, "revoked")
    ensures valid == ValidNames(box.certs) && reserved == RevokedNames(box.certs)
  {
    hide RowSays, IsListing, OneField;
    forall n ensures (n in valid <==> n in ValidNames(box.certs)) && (n in reserved <==> n in RevokedNames(box.certs)) {
      ListingParses(lines, box.certs, n);
      assert n in valid <==> SomeRowSays(lines, n, "valid");
      assert n in reserved <==> SomeRowSays(lines, n, "revoked");
    }
  }

  /** A name still to be issued has no valid certificate left. */
  lemma WantsAreFree(l: Ledger, mid: Listed, withdrawn: seq<string>, failed: seq<string>, wants: seq<string>)
    requires Withdrew(l.certs, mid, Doomed(l), withdrawn, failed)
    requires SetOf(wants) == Wanted(l.users) - (ValidNames(l.certs) - SetOf(withdrawn))
    ensures forall n | n in wants && n in mid :: mid[n].revoked
  {
    hide Wanted;
    forall n | n in wants && n in mid ensures mid[n].revoked {
      assert n in SetOf(wants) && n !in withdrawn;
    }
  }

  lemma NamesStayNameable(l: Ledger, mid: Listed, certs: Listed, r: Report)
    requires forall n | n in l.certs :: Nameable(n)
    requires forall u | u in l.users && u.enabled :: Nameable(u.name)
    requires Withdrew(l.certs, mid, Doomed(l), r.withdrawn, r.revokeFailed)
    requires Issued(mid, certs, Wanted(l.users) - StillValid(l, r), l.users, r.added, r.addFailed)
    ensures forall n | n in certs :: Nameable(n)
  {
    hide Nameable, HolderOf;
    forall n | n in certs ensures Nameable(n) {
      if n in r.added {
        assert n in Wanted(l.users);
      } else {
        assert n in mid && n in l.certs;
      }
    }
  }
}
