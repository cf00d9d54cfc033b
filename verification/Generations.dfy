/**
 The rendered generations on disk and the link that says which one is live. Every primitive
 file operation is a method of its own, so that what holds between any two of them is stated.
 */
module Generations {
  import opened Wrappers
  import opened Strings
  import opened Rendering

  /** A directory: the files in it so far, the ones it is meant to hold, and whether sing-box accepted it. */
  datatype Generation = Generation(files: Tree, wanted: Tree, accepted: bool)

  predicate Servable(g: Generation)
  {
    g.files == g.wanted && g.accepted
  }

  function NameOf(stamp: string, suffix: string): string
  {
    "rendered-" + stamp + "-" + suffix
  }

  /** Of two generations with stamps of one length, the later stamp is the greater name. */
  lemma LaterIsGreater(a: string, b: string, x: string, y: string)
    requires |a| == |b| && Less(a, b)
    ensures Less(NameOf(a, x), NameOf(b, y))
  {
    LessIff(a, b);
    assert !(a < b);
    var i :| DiffersFirstAt(a, b, i) && a[i] < b[i];
    var m, n, j := NameOf(a, x), NameOf(b, y), |"rendered-"| + i;
    assert m[..j] == "rendered-" + a[..i] && n[..j] == "rendered-" + b[..i];
    assert m[j] == a[i] && n[j] == b[i];
    assert DiffersFirstAt(m, n, j);
    LessIff(m, n);
  }

  /** The names of a set that come after `n`. */
  function Above(n: string, names: set<string>): set<string>
  {
    set m | m in names && Less(n, m)
  }

  lemma {:induction false} DistinctCount(r: seq<string>, k: nat)
    requires Ascending(r) && k <= |r|
    ensures |SetOf(r[k..])| == |r| - k
    decreases |r| - k
  {
    if k == |r| {
      assert SetOf(r[k..]) == {};
    } else {
      DistinctCount(r, k + 1);
      assert r[k..] == [r[k]] + r[k + 1..];
      assert SetOf(r[k..]) == {r[k]} + SetOf(r[k + 1..]);
      assert r[k] !in r[k + 1..] by {
        forall j | k < j < |r| ensures r[j] != r[k] { LessTotal(r[k], r[j]); }
      }
    }
  }

  /** The k-th name of an ascending listing has all the later ones above it, and only those. */
  lemma RankOf(r: seq<string>, k: nat, names: set<string>)
    requires Ascending(r) && k < |r| && forall x :: x in r <==> x in names
    ensures |Above(r[k], names)| == |r| - 1 - k
  {
    DistinctCount(r, k + 1);
    assert Above(r[k], names) == SetOf(r[k + 1..]) by {
      forall m ensures m in Above(r[k], names) <==> m in r[k + 1..] {
        if m in Above(r[k], names) {
          var j :| 0 <= j < |r| && r[j] == m;
          if j < k { LessTotal(r[j], r[k]); }
          if j == k { LessTotal(r[k], r[k]); }
          assert r[k + 1..][j - k - 1] == m;
        }
        if m in r[k + 1..] {
          var j :| 0 <= j < |r| - k - 1 && r[k + 1..][j] == m;
          assert r[k + 1 + j] == m;
        }
      }
    }
  }

  /** The `keep` greatest names of a set. */
  predicate Newest(n: string, names: set<string>, keep: nat)
  {
    |Above(n, names)| < keep
  }

  const KEEP := 5

  /** Nothing but the live generation and the newest ones. */
  ghost predicate Tidy(gens: map<string, Generation>, live: Option<string>)
  {
    forall n | n in gens :: Some(n) == live || Newest(n, gens.Keys, KEEP)
  }

  /** What is newest among more names is newest among fewer. */
  lemma NewestAmongFewer(n: string, fewer: set<string>, names: set<string>, keep: nat)
    requires fewer <= names && Newest(n, names, keep)
    ensures Newest(n, fewer, keep)
  {
    hide Less;
    Subset(Above(n, fewer), Above(n, names));
  }

  lemma {:induction false} Subset(a: set<string>, b: set<string>)
    requires a <= b
    ensures |a| <= |b|
  {
    if a != {} {
      var x :| x in a;
      Subset(a - {x}, b - {x});
    }
  }

  class RenderStore {
    var gens: map<string, Generation>
    var live: Option<string>
    /** A disk that does what it is asked to. */
    const obliging: bool

    constructor (obliging: bool)
      ensures gens == map[] && live == None && this.obliging == obliging
    {
      gens, live := map[], None;
      this.obliging := obliging;
    }

    /** `rendered` resolves to an existing, fully written generation that sing-box accepted. */
    ghost predicate LiveSafe()
      reads this
    {
      live.Some? ==> live.value in gens && Servable(gens[live.value])
    }

    function LiveFiles(): Option<Tree>
      reads this
    {
      if live.Some? && live.value in gens then Some(gens[live.value].files) else None
    }

    // --------------------------------------------------------------- single operations

    method MakeDirectory(wanted: Tree) returns (name: string)
      modifies this`gens
      ensures name !in old(gens) && gens == old(gens)[name := Generation(map[], wanted, false)]
      ensures old(LiveSafe()) ==> LiveSafe() && LiveFiles() == old(LiveFiles())
    {
      FreshName(gens.Keys);
      name :| name !in gens.Keys && "rendered-" <= name;
      gens := gens[name := Generation(map[], wanted, false)];
    }

    method WriteFile(name: string, rel: string, content: Content)
      requires name in gens && live != Some(name)
      modifies this`gens
      ensures gens == old(gens)[name := old(gens)[name].(files := old(gens)[name].files[rel := content])]
      ensures old(LiveSafe()) ==> LiveSafe() && LiveFiles() == old(LiveFiles())
    {
      gens := gens[name := gens[name].(files := gens[name].files[rel := content])];
    }

    method Accept(name: string)
      requires name in gens
      modifies this`gens
      ensures gens == old(gens)[name := old(gens)[name].(accepted := true)]
      ensures old(LiveSafe()) ==> LiveSafe() && LiveFiles() == old(LiveFiles())
    {
      gens := gens[name := gens[name].(accepted := true)];
    }

    /** Recursive deletion: it can stop anywhere, leaving a part of the directory. */
    method RemoveTree(name: string) returns (ok: bool)
      requires live != Some(name)
      modifies this`gens
      ensures forall n | n != name :: (n in gens <==> n in old(gens)) && (n in gens ==> gens[n] == old(gens)[n])
      ensures ok ==> name !in gens
      ensures name in gens ==> name in old(gens)
      ensures old(LiveSafe()) ==> LiveSafe() && LiveFiles() == old(LiveFiles())
      ensures obliging ==> ok
    {
      ok := *;
      ok := ok || obliging;
      if ok {
        gens := gens - {name};
      } else if name in gens {
        var left: set<string> := *;
        var g := gens[name];
        gens := gens[name := g.(files := map rel | rel in g.files && rel in left :: g.files[rel])];
      }
    }

    /** The atomic swap of the link. */
    method SwapLink(name: string)
      modifies this`live
      ensures live == Some(name)
      ensures name in gens && Servable(gens[name]) ==> LiveSafe() && LiveFiles() == Some(gens[name].wanted)
    {
      live := Some(name);
    }

    // ------------------------------------------------------------------------ the code

    /**
     Writes a whole tree beside the live one, under a name nothing has; None when it failed part
     of the way, which leaves a directory without a name to delete it by.
     */
    method WriteCandidate(tree: Tree) returns (r: Option<string>)
      modifies this`gens
      ensures r.Some? ==> r.value !in old(gens) && gens == old(gens)[r.value := Generation(tree, tree, false)]
      ensures r.None? && gens != old(gens) ==>
        exists n, part :: n !in old(gens) && gens == old(gens)[n := Generation(part, tree, false)]
      ensures old(LiveSafe()) ==> LiveSafe() && LiveFiles() == old(LiveFiles())
      ensures obliging && old(LiveSafe()) ==> r.Some?
    {
      var refused: bool := *;
      if refused && !obliging {
        return None;
      }
      ghost var before := gens;
      ghost var wasLive := live;
      var name := MakeDirectory(tree);
      if live == Some(name) {
        // A dangling link of that name: nothing can be written under it safely.
        return None;
      }
      var todo := tree.Keys;
      while todo != {}
        invariant todo <= tree.Keys && name !in before && live == wasLive && live != Some(name) && name in gens
        invariant gens == before[name := gens[name]]
        invariant gens[name] == Generation(map rel | rel in tree && rel !in todo :: tree[rel], tree, false)
        invariant old(LiveSafe()) ==> LiveSafe() && LiveFiles() == old(LiveFiles())
      {
        var rel :| rel in todo;
        var failed: bool := *;
        if failed && !obliging {
          return None;
        }
        ghost var files := gens[name].files;
        WriteFile(name, rel, tree[rel]);
        todo := todo - {rel};
        assert files[rel := tree[rel]] == map x | x in tree && x !in todo :: tree[x];
      }
      assert gens[name].files == tree;
      return Some(name);
    }

    /** Points `rendered` at the candidate, or fails and leaves it as it was. */
    method Promote(name: string) returns (ok: bool)
      modifies this`live
      ensures live == if ok then Some(name) else old(live)
      ensures ok && name in gens && Servable(gens[name]) ==>
        LiveSafe() && LiveFiles() == Some(gens[name].wanted)
      ensures !ok && old(LiveSafe()) ==> LiveSafe() && LiveFiles() == old(LiveFiles())
      ensures obliging ==> ok
    {
      ok := *;
      ok := ok || obliging;
      if ok {
        SwapLink(name);
      }
    }

    /** Deletes a generation, refusing the live one. */
    method RemoveNotLive(name: string) returns (ok: bool)
      modifies this`gens
      ensures forall n | n != name :: (n in gens <==> n in old(gens)) && (n in gens ==> gens[n] == old(gens)[n])
      ensures live == Some(name) ==> !ok && gens == old(gens)
      ensures ok ==> name !in gens
      ensures name in gens ==> name in old(gens)
      ensures old(LiveSafe()) ==> LiveSafe() && LiveFiles() == old(LiveFiles())
      ensures obliging && live != Some(name) ==> ok
    {
      if live == Some(name) {
        return false;
      }
      ok := RemoveTree(name);
    }

    /**
     Drops old generations. Whether or not it gets through, the live one is untouched; when it
     does, what is left is exactly the `keep` greatest names and the live one.
     */
    method Prune(keep: nat) returns (ok: bool, removed: seq<string>)
      modifies this`gens
      ensures old(LiveSafe()) ==> LiveSafe() && LiveFiles() == old(LiveFiles())
      ensures forall n | n in gens :: n in old(gens)
      ensures ok ==> forall n :: n in gens <==>
        n in old(gens) && (Some(n) == live || Newest(n, old(gens).Keys, keep))
      ensures ok ==> forall n :: n in removed <==> n in old(gens) && n !in gens
      ensures forall n | n in gens && (Some(n) == live || Newest(n, old(gens).Keys, keep)) :: gens[n] == old(gens)[n]
      ensures obliging ==> ok
    {
      hide *;
      var doomed := Older(gens.Keys, keep);
      ok, removed := RemoveOld(doomed);
    }

    /** The tidying up at the end of every apply. */
    method PruneGenerations() returns (ok: bool)
      modifies this`gens
      ensures old(LiveSafe()) ==> LiveSafe() && LiveFiles() == old(LiveFiles())
      ensures ok ==> Tidy(gens, live)
      ensures obliging ==> ok
    {
      hide Newest, Servable;
      ghost var names := gens.Keys;
      var removed;
      ok, removed := Prune(KEEP);
      if ok {
        forall n | n in gens && Some(n) != live ensures Newest(n, gens.Keys, KEEP) {
          NewestAmongFewer(n, gens.Keys, names, KEEP);
        }
      }
    }

    /** Goes through a list of generations, past the live one, until a removal fails. */
    method RemoveOld(doomed: seq<string>) returns (ok: bool, removed: seq<string>)
      requires forall x | x in doomed :: x in gens
      modifies this`gens
      ensures old(LiveSafe()) ==> LiveSafe() && LiveFiles() == old(LiveFiles())
      ensures forall x | x in gens :: x in old(gens)
      ensures forall x | x in old(gens) && (Some(x) == live || x !in doomed) :: x in gens && gens[x] == old(gens)[x]
      ensures ok ==> forall x | x in doomed && Some(x) != live :: x !in gens
      ensures ok ==> forall x :: x in removed <==> x in old(gens) && x !in gens
      ensures obliging ==> ok
    {
      hide *;
      ghost var before := gens;
      removed := [];
      ok := true;
      for i := 0 to |doomed|
        invariant forall x | x in gens :: x in before
        invariant forall x | x in before && (Some(x) == live || x !in doomed) :: x in gens && gens[x] == before[x]
        invariant forall x | x in doomed[..i] && Some(x) != live :: x !in gens
        invariant forall x :: x in removed <==> x in before && x !in gens
        invariant old(LiveSafe()) ==> LiveSafe() && LiveFiles() == old(LiveFiles())
      {
        var generation := doomed[i];
        assert generation in doomed && doomed[..i + 1] == doomed[..i] + [generation];
        if Some(generation) == live {
          continue;
        }
        ok := RemoveNotLive(generation);
        if !ok {
          return;
        }
        removed := removed + [generation];
      }
      assert doomed[..|doomed|] == doomed;
    }
  }

  function Reversed(xs: seq<string>): (r: seq<string>)
    ensures forall x :: x in r <==> x in xs
  {
    if xs == [] then [] else
      assert xs == [xs[0]] + xs[1..];
      Reversed(xs[1..]) + [xs[0]]
  }

  /** The names in descending order, without the first `keep` of them. */
  function Older(names: set<string>, keep: nat): (r: seq<string>)
    ensures forall x :: x in r <==> x in names && !Newest(x, names, keep)
  {
    var sorted := Sorted(names);
    var cut := if keep < |sorted| then |sorted| - keep else 0;
    assert forall x :: x in sorted[..cut] <==> x in names && !Newest(x, names, keep) by {
      forall x ensures x in sorted[..cut] <==> x in names && !Newest(x, names, keep) {
        OlderRank(names, sorted, cut, keep, x);
      }
    }
    Reversed(sorted[..cut])
  }

  lemma OlderRank(names: set<string>, sorted: seq<string>, cut: nat, keep: nat, x: string)
    requires sorted == Sorted(names) && cut == if keep < |sorted| then |sorted| - keep else 0
    ensures x in sorted[..cut] <==> x in names && !Newest(x, names, keep)
  {
    hide Less, Sorted, Above;
    if x in sorted[..cut] {
      var k :| 0 <= k < cut && sorted[..cut][k] == x;
      RankOf(sorted, k, names);
    }
    if x in names && !Newest(x, names, keep) {
      var k :| 0 <= k < |sorted| && sorted[k] == x;
      RankOf(sorted, k, names);
      assert sorted[..cut][k] == x;
    }
  }

  lemma FreshName(taken: set<string>)
    ensures exists name :: name !in taken && "rendered-" <= name
  {
    var longest := LongestIn(taken);
    var name := "rendered-" + seq(longest + 1, _ => 'x');
    assert |name| > longest;
    assert name !in taken && "rendered-" <= name;
  }

  ghost function LongestIn(s: set<string>): (n: nat)
    ensures forall x | x in s :: |x| <= n
    decreases |s|
  {
    if s == {} then 0 else
      var x :| x in s;
      var m := LongestIn(s - {x});
      assert forall y | y in s :: y == x || y in s - {x};
      if |x| > m then |x| else m
  }
}
