/**
 The pair of accepts in the FORWARD chain that IKEv2 clients depend on. Identical rules cannot
 be told apart, so a copy somebody else inserted counts as ours.
 */
module Forwarding {
  datatype Rule =
    | Inward(iface: string, net: string)
    | Outward(iface: string, net: string)
    | Other(text: string)

  type Chain = seq<Rule>

  const BOUND := 8

  function Insert(c: Chain, r: Rule): Chain
  {
    if r in c then c else [r] + c
  }

  /** The pair inserted at the head, each half only if it is missing. */
  function Ensured(c: Chain, iface: string, net: string): Chain
  {
    Insert(Insert(c, Inward(iface, net)), Outward(iface, net))
  }

  function Count(c: Chain, r: Rule): (n: nat)
    ensures n > 0 <==> r in c
  {
    if c == [] then 0 else
      assert c == [c[0]] + c[1..];
      (if c[0] == r then 1 else 0) + Count(c[1..], r)
  }

  /** The chain without its first `n` copies of a rule. */
  function Minus(c: Chain, r: Rule, n: nat): Chain
  {
    if c == [] || n == 0 then c
    else if c[0] == r then Minus(c[1..], r, n - 1)
    else [c[0]] + Minus(c[1..], r, n)
  }

  function Removed(c: Chain, iface: string, net: string): Chain
  {
    Minus(Minus(c, Inward(iface, net), BOUND), Outward(iface, net), BOUND)
  }

  /** What is in the chain besides the pair, in order. */
  function Others(c: Chain, iface: string, net: string): Chain
  {
    if c == [] then []
    else (if c[0] == Inward(iface, net) || c[0] == Outward(iface, net) then [] else [c[0]])
         + Others(c[1..], iface, net)
  }

  function Min(a: nat, b: nat): nat
  {
    if a < b then a else b
  }

  // --------------------------------------------------------------------------- properties

  lemma InsertKeepsOthers(c: Chain, r: Rule, iface: string, net: string)
    requires r == Inward(iface, net) || r == Outward(iface, net)
    ensures Others(Insert(c, r), iface, net) == Others(c, iface, net)
    ensures forall q :: q in Insert(c, r) <==> q == r || q in c
  {
    assert ([r] + c)[1..] == c;
  }

  /** Ensuring twice is ensuring once, both halves are there, and everything else keeps its order. */
  /** Afterwards both halves are there, each new one just once and at the head; the rest is as it was. */
  lemma EnsureAddsOnlyThePair(c: Chain, iface: string, net: string, q: Rule)
    ensures var e := Ensured(c, iface, net);
      && Inward(iface, net) in e && Outward(iface, net) in e
      && Count(e, q) == (if (q == Inward(iface, net) || q == Outward(iface, net)) && q !in c then 1 else Count(c, q))
      && |c| <= |e| && e[|e| - |c|..] == c
  {
    var r0, r1 := Inward(iface, net), Outward(iface, net);
    var half := Insert(c, r0);
    InsertCounts(c, r0, q);
    InsertCounts(half, r1, q);
    assert half == c || (half == [r0] + c && half[1..] == c);
    assert Insert(half, r1) == half || Insert(half, r1) == [r1] + half;
  }

  lemma InsertCounts(c: Chain, r: Rule, q: Rule)
    ensures r in Insert(c, r) && (q in c ==> q in Insert(c, r))
    ensures Count(Insert(c, r), q) == if q == r && r !in c then 1 else Count(c, q)
  {
    if r !in c {
      assert ([r] + c)[1..] == c;
      assert q == r ==> Count(c, q) == 0;
    }
  }

  lemma EnsureIsIdempotent(c: Chain, iface: string, net: string)
    ensures var e := Ensured(c, iface, net);
      && Ensured(e, iface, net) == e
      && Inward(iface, net) in e && Outward(iface, net) in e
      && Others(e, iface, net) == Others(c, iface, net)
      && (Inward(iface, net) in c && Outward(iface, net) in c ==> e == c)
  {
    var r0, r1 := Inward(iface, net), Outward(iface, net);
    InsertKeepsOthers(c, r0, iface, net);
    InsertKeepsOthers(Insert(c, r0), r1, iface, net);
  }

  lemma {:induction false} LessCounts(c: Chain, r: Rule, n: nat, q: Rule)
    ensures Count(Minus(c, r, n), q) == if q == r then Count(c, r) - Min(n, Count(c, r)) else Count(c, q)
  {
    if c != [] && n != 0 {
      if c[0] == r {
        LessCounts(c[1..], r, n - 1, q);
      } else {
        LessCounts(c[1..], r, n, q);
        assert ([c[0]] + Minus(c[1..], r, n))[1..] == Minus(c[1..], r, n);
      }
    }
  }

  lemma {:induction false} LessKeepsOthers(c: Chain, r: Rule, n: nat, iface: string, net: string)
    requires r == Inward(iface, net) || r == Outward(iface, net)
    ensures Others(Minus(c, r, n), iface, net) == Others(c, iface, net)
  {
    if c != [] && n != 0 {
      if c[0] == r {
        LessKeepsOthers(c[1..], r, n - 1, iface, net);
      } else {
        LessKeepsOthers(c[1..], r, n, iface, net);
        assert ([c[0]] + Minus(c[1..], r, n))[1..] == Minus(c[1..], r, n);
      }
    }
  }

  /** Removal takes out at most eight copies of each half, and nothing else. */
  lemma RemoveTakesOnlyThePair(c: Chain, iface: string, net: string, q: Rule)
    ensures Count(Removed(c, iface, net), q)
         == if q == Inward(iface, net) || q == Outward(iface, net)
            then Count(c, q) - Min(BOUND, Count(c, q)) else Count(c, q)
    ensures Others(Removed(c, iface, net), iface, net) == Others(c, iface, net)
  {
    var r0, r1 := Inward(iface, net), Outward(iface, net);
    LessCounts(c, r0, BOUND, q);
    LessCounts(c, r0, BOUND, r1);
    LessCounts(Minus(c, r0, BOUND), r1, BOUND, q);
    LessKeepsOthers(c, r0, BOUND, iface, net);
    LessKeepsOthers(Minus(c, r0, BOUND), r1, BOUND, iface, net);
  }

  lemma {:induction false} LessAbsent(c: Chain, r: Rule, n: nat)
    requires r !in c
    ensures Minus(c, r, n) == c
  {
    if c != [] && n != 0 {
      assert c == [c[0]] + c[1..];
      LessAbsent(c[1..], r, n);
    }
  }

  /** Removing what ensuring inserted into a chain without the pair restores that chain. */
  lemma RemoveUndoesEnsure(c: Chain, iface: string, net: string)
    requires Inward(iface, net) !in c && Outward(iface, net) !in c
    ensures Removed(Ensured(c, iface, net), iface, net) == c
  {
    var r0, r1 := Inward(iface, net), Outward(iface, net);
    var e := [r1] + ([r0] + c);
    assert Ensured(c, iface, net) == e;
    assert e[1..] == [r0] + c && e[1..][1..] == c;
    LessAbsent(c, r0, BOUND - 1);
    assert Minus(e[1..], r0, BOUND) == c;
    assert Minus(e, r0, BOUND) == [r1] + c && ([r1] + c)[1..] == c;
    LessAbsent(c, r1, BOUND - 1);
  }

  lemma {:induction false} LessOneMore(c: Chain, r: Rule, n: nat)
    ensures Minus(Minus(c, r, n), r, 1) == Minus(c, r, n + 1)
  {
    if c != [] && n != 0 {
      if c[0] == r {
        LessOneMore(c[1..], r, n - 1);
      } else {
        LessOneMore(c[1..], r, n);
        assert ([c[0]] + Minus(c[1..], r, n))[1..] == Minus(c[1..], r, n);
      }
    }
  }

  // --------------------------------------------------------------------------------- the code

  class Iptables {
    var forward: Chain
    /** Every iptables command works. */
    const obliging: bool

    constructor (obliging: bool)
      ensures forward == [] && this.obliging == obliging
    {
      forward := [];
      this.obliging := obliging;
    }

    /** `-I FORWARD 1`; one that fails may have inserted the rule or not. */
    method InsertFirst(r: Rule) returns (ok: bool)
      modifies this
      ensures forward == old(forward) || forward == [r] + old(forward)
      ensures ok ==> forward == [r] + old(forward)
      ensures obliging ==> ok
    {
      var effect: bool := *;
      ok := false;
      if effect || obliging {
        forward := [r] + forward;
        ok := *;
        ok := ok || obliging;
      }
    }

    /** `-D FORWARD`: the first rule that matches. */
    method DeleteFirst(r: Rule) returns (ok: bool)
      modifies this
      ensures forward == old(forward) || forward == Minus(old(forward), r, 1)
      ensures ok ==> forward == Minus(old(forward), r, 1)
      ensures obliging ==> ok
    {
      var effect: bool := *;
      ok := false;
      if effect || obliging {
        forward := Minus(forward, r, 1);
        ok := *;
        ok := ok || obliging;
      }
    }
  }

  method EnsureForwarding(ipt: Iptables, iface: string, net: string) returns (ok: bool)
    modifies ipt
    ensures ok ==> ipt.forward == Ensured(old(ipt.forward), iface, net)
    ensures Others(ipt.forward, iface, net) == Others(old(ipt.forward), iface, net)
    ensures ipt.obliging ==> ok
  {
    var rules := [Inward(iface, net), Outward(iface, net)];
    ghost var c := ipt.forward;
    for i := 0 to |rules|
      invariant i == 0 ==> ipt.forward == c
      invariant i == 1 ==> ipt.forward == Insert(c, rules[0])
      invariant i == 2 ==> ipt.forward == Ensured(c, iface, net)
      invariant Others(ipt.forward, iface, net) == Others(c, iface, net)
    {
      ghost var was := ipt.forward;
      InsertKeepsOthers(was, rules[i], iface, net);
      if rules[i] in ipt.forward {
        continue;
      }
      ok := ipt.InsertFirst(rules[i]);
      if !ok {
        return false;
      }
    }
    return true;
  }

  method RemoveForwarding(ipt: Iptables, iface: string, net: string) returns (ok: bool, removed: nat)
    modifies ipt
    ensures ok ==> ipt.forward == Removed(old(ipt.forward), iface, net)
    ensures ok ==> removed == Min(BOUND, Count(old(ipt.forward), Inward(iface, net)))
                            + Min(BOUND, Count(old(ipt.forward), Outward(iface, net)))
    ensures Others(ipt.forward, iface, net) == Others(old(ipt.forward), iface, net)
    ensures ipt.obliging ==> ok
  {
    var rules := [Inward(iface, net), Outward(iface, net)];
    ghost var c := ipt.forward;
    removed := 0;
    for i := 0 to |rules|
      invariant i == 0 ==> ipt.forward == c && removed == 0
      invariant i == 1 ==> ipt.forward == Minus(c, rules[0], BOUND) && removed == Min(BOUND, Count(c, rules[0]))
      invariant i == 2 ==> ipt.forward == Removed(c, iface, net)
      invariant i == 2 ==> removed == Min(BOUND, Count(c, rules[0])) + Min(BOUND, Count(c, rules[1]))
      invariant Others(ipt.forward, iface, net) == Others(c, iface, net)
    {
      ghost var start, had := ipt.forward, removed;
      LessCounts(c, rules[0], BOUND, rules[1]);
      var more;
      ok, more := RemoveCopies(ipt, rules[i], iface, net);
      removed := removed + more;
      if !ok {
        return;
      }
    }
    ok := true;
  }

  /** Deletes one rule while it is still found, up to the bound. */
  method RemoveCopies(ipt: Iptables, r: Rule, iface: string, net: string) returns (ok: bool, removed: nat)
    requires r == Inward(iface, net) || r == Outward(iface, net)
    modifies ipt
    ensures ok ==> ipt.forward == Minus(old(ipt.forward), r, BOUND)
    ensures ok ==> removed == Min(BOUND, Count(old(ipt.forward), r))
    ensures Others(ipt.forward, iface, net) == Others(old(ipt.forward), iface, net)
    ensures ipt.obliging ==> ok
  {
    hide Minus, Count, Others;
    ghost var c := ipt.forward;
    removed := 0;
    NothingLess(c, r);
    while removed < BOUND
      invariant removed <= BOUND && removed <= Count(c, r)
      invariant ipt.forward == Minus(c, r, removed)
    {
      LessCounts(c, r, removed, r);
      LessOneMore(c, r, removed);
      LessKeepsOthers(c, r, removed, iface, net);
      LessKeepsOthers(c, r, removed + 1, iface, net);
      if r !in ipt.forward {
        NoneLeft(c, r, removed);
        return true, removed;
      }
      ok := ipt.DeleteFirst(r);
      if !ok {
        return;
      }
      removed := removed + 1;
    }
    LessKeepsOthers(c, r, BOUND, iface, net);
    ok := true;
  }

  lemma NothingLess(c: Chain, r: Rule)
    ensures Minus(c, r, 0) == c
  {
  }

  lemma {:induction false} NoneLeft(c: Chain, r: Rule, n: nat)
    requires n <= BOUND && r !in Minus(c, r, n)
    ensures Minus(c, r, n) == Minus(c, r, BOUND)
    decreases BOUND - n
  {
    if n < BOUND {
      LessOneMore(c, r, n);
      LessAbsent(Minus(c, r, n), r, 1);
      NoneLeft(c, r, n + 1);
    }
  }
}
