/** Waiting for the enabled protocols' ports to be bound. */
module Readiness {
  import opened Registry

  datatype Observation = Observation(port: Port, bound: bool)

  /** Between two polls. */
  const PAUSE := 2000

  /** The clock, what `ss` answered, and how long each wait was asked to be; times are in milliseconds. */
  class Watch {
    var now: int
    var seen: seq<Observation>
    var naps: seq<nat>
    /** Every port one could ask for is bound. */
    const obliging: bool

    constructor (obliging: bool)
      ensures seen == [] && naps == [] && this.obliging == obliging
    {
      now, seen, naps := 0, [], [];
      this.obliging := obliging;
    }

    method IsBound(port: Port) returns (bound: bool)
      modifies this`now, this`seen
      ensures seen == old(seen) + [Observation(port, bound)]
      ensures now >= old(now)
      ensures obliging ==> bound
    {
      bound := *;
      bound := bound || obliging;
      seen := seen + [Observation(port, bound)];
      var spent: int := *;
      if spent > 0 {
        now := now + spent;
      }
    }

    method Sleep(time: nat)
      modifies this`now, this`naps
      ensures now >= old(now) + time && naps == old(naps) + [time]
    {
      naps := naps + [time];
      var extra: int := *;
      now := now + time + if extra > 0 then extra else 0;
    }
  }

  predicate Bound(seen: seq<Observation>, port: Port)
  {
    Observation(port, true) in seen
  }

  /** Exactly the ports of a list that were never observed bound. */
  predicate NeverBound(missing: seq<Port>, ports: seq<Port>, seen: seq<Observation>)
  {
    && (forall p | p in missing :: p in ports && !Bound(seen, p))
    && (forall p | p in ports :: p in missing || Bound(seen, p))
  }

  /** What has been observed since there were `from` observations. */
  function Since(seen: seq<Observation>, from: nat): seq<Observation>
  {
    if from <= |seen| then seen[from..] else []
  }

  /** How often a port was asked for. */
  function Asked(seen: seq<Observation>, port: Port): (n: nat)
  {
    if seen == [] then 0 else (if seen[0].port == port then 1 else 0) + Asked(seen[1..], port)
  }

  lemma {:induction false} AskedPlus(seen: seq<Observation>, o: Observation, port: Port)
    ensures Asked(seen + [o], port) == Asked(seen, port) + if o.port == port then 1 else 0
  {
    if seen == [] {
      assert [o][1..] == [] && [] + [o] == [o];
    } else {
      assert (seen + [o])[0] == seen[0] && (seen + [o])[1..] == seen[1..] + [o];
      AskedPlus(seen[1..], o, port);
    }
  }

  /** Each of these ports was asked for once more, and no other was. */
  ghost predicate AskedOnce(ports: seq<Port>, before: seq<Observation>, now: seq<Observation>)
  {
    forall p :: Asked(now, p) == Asked(before, p) + if p in ports then 1 else 0
  }

  lemma NoneAsked(seen: seq<Observation>)
    ensures AskedOnce([], seen, seen)
  {
  }

  lemma AskedOneMore(done: seq<Port>, before: seq<Observation>, was: seq<Observation>, o: Observation)
    requires AskedOnce(done, before, was) && o.port !in done
    ensures AskedOnce(done + [o.port], before, was + [o])
  {
    hide Asked;
    forall p ensures Asked(was + [o], p) == Asked(before, p) + if p in done + [o.port] then 1 else 0 {
      AskedPlus(was, o, p);
    }
  }

  /** Every wait was one pause, and in each of them these ports had just been asked for. */
  predicate AskedThroughout(missing: seq<Port>, seen: seq<Observation>, naps: seq<nat>)
  {
    (forall n | n in naps :: n == PAUSE) && forall p | p in missing :: Asked(seen, p) == |naps|
  }

  lemma AskedAgain(asked: seq<Port>, left: seq<Port>, was: seq<Observation>, seen: seq<Observation>, naps: seq<nat>)
    requires AskedThroughout(asked, was, naps) && AskedOnce(asked, was, seen) && forall p | p in left :: p in asked
    ensures AskedThroughout(left, seen, naps + [PAUSE])
    ensures left == [] ==> AskedThroughout(left, seen, naps)
  {
    hide Asked;
  }

  /** One poll of the ports still missing. */
  method Poll(watch: Watch, pending: seq<Port>, ghost from: nat) returns (left: seq<Port>)
    requires from <= |watch.seen|
    requires Distinct(pending) && forall p | p in pending :: !Bound(Since(watch.seen, from), p)
    modifies watch`now, watch`seen
    ensures watch.now >= old(watch.now) && old(watch.seen) <= watch.seen
    ensures forall p | p !in pending :: Bound(Since(watch.seen, from), p) <==> Bound(Since(old(watch.seen), from), p)
    ensures NeverBound(left, pending, Since(watch.seen, from)) && Distinct(left)
    ensures AskedOnce(pending, Since(old(watch.seen), from), Since(watch.seen, from))
    ensures watch.obliging ==> left == []
  {
    hide AskedOnce;
    left := [];
    ghost var before := watch.seen;
    NoneAsked(Since(before, from));
    assert pending[..0] == [];
    for i := 0 to |pending|
      invariant watch.now >= old(watch.now) && Distinct(left) && before <= watch.seen
      invariant forall p | p !in pending[..i] :: Bound(Since(watch.seen, from), p) <==> Bound(Since(before, from), p)
      invariant NeverBound(left, pending[..i], Since(watch.seen, from))
      invariant AskedOnce(pending[..i], Since(before, from), Since(watch.seen, from))
      invariant watch.obliging ==> left == []
    {
      var port := pending[i];
      assert pending[..i + 1] == pending[..i] + [port] && port !in pending[..i];
      ghost var was := watch.seen;
      var bound := watch.IsBound(port);
      SeenPlus(was, from, port, bound);
      AskedOneMore(pending[..i], Since(before, from), Since(was, from), Observation(port, bound));
      if !bound {
        left := left + [port];
      }
    }
    assert pending[..|pending|] == pending;
  }

  lemma SeenPlus(seen: seq<Observation>, from: nat, port: Port, bound: bool)
    requires from <= |seen|
    ensures Since(seen + [Observation(port, bound)], from) == Since(seen, from) + [Observation(port, bound)]
    ensures forall p :: Bound(Since(seen + [Observation(port, bound)], from), p)
                   <==> Bound(Since(seen, from), p) || (p == port && bound)
  {
    assert Since(seen + [Observation(port, bound)], from) == Since(seen, from) + [Observation(port, bound)];
  }

  /**
   Ends, because every round that leaves a port missing moves the clock on. It succeeds only if
   every wanted port was seen bound at some poll, and otherwise names exactly those that never were,
   each asked for once per pause, to the end.
   */
  method WaitReady(watch: Watch, enabled: seq<Protocol>, timeout: int) returns (ok: bool, missing: seq<Port>)
    requires Distinct(AllPorts(enabled))
    modifies watch
    ensures old(watch.seen) <= watch.seen
    ensures NeverBound(missing, AllPorts(enabled), Since(watch.seen, |old(watch.seen)|))
    ensures ok <==> forall p | p in AllPorts(enabled) :: Bound(Since(watch.seen, |old(watch.seen)|), p)
    ensures watch.obliging && timeout > 0 ==> ok
    ensures !ok ==> watch.now >= old(watch.now) + timeout
    ensures old(watch.naps) <= watch.naps
    ensures AskedThroughout(missing, Since(watch.seen, |old(watch.seen)|), watch.naps[|old(watch.naps)|..])
  {
    hide AllPorts, Asked, AskedOnce;
    ghost var from := |watch.seen|;
    forall p ensures Asked(Since(watch.seen, from), p) == 0 {
      NeverAsked(watch.seen, p);
    }
    var wanted := AllPorts(enabled);
    var deadline := watch.now + timeout;
    var pending := wanted;
    while pending != [] && watch.now < deadline
      invariant old(watch.seen) <= watch.seen
      invariant NeverBound(pending, wanted, Since(watch.seen, from)) && Distinct(pending)
      invariant watch.obliging && timeout > 0 ==> pending == [] || watch.now < deadline
      invariant old(watch.naps) <= watch.naps
      invariant AskedThroughout(pending, Since(watch.seen, from), watch.naps[|old(watch.naps)|..])
      decreases deadline - watch.now, |pending|
    {
      ghost var asked, seen, naps := pending, Since(watch.seen, from), watch.naps[|old(watch.naps)|..];
      pending := Poll(watch, pending, from);
      AskedAgain(asked, pending, seen, Since(watch.seen, from), naps);
      if pending != [] {
        watch.Sleep(PAUSE);
        assert watch.naps[|old(watch.naps)|..] == naps + [PAUSE];
      }
    }
    ok, missing := pending == [], pending;
    assert pending != [] ==> pending[0] in pending;
  }

  lemma NeverAsked(seen: seq<Observation>, port: Port)
    ensures Asked(Since(seen, |seen|), port) == 0
  {
    assert seen[|seen|..] == [];
  }
}
