/**
 Which network the IKEv2 clients' addresses come from. Blocks are the ones of section 3.1 of
 RFC 4632: 2^k addresses, aligned to their size. A `Parser` stands for Python's `ipaddress`, whose
 parsing of one address or one network is not part of this model.
 */
module Pool {
  import opened Wrappers
  import opened Strings

  function Pow2(k: nat): (r: nat)
    ensures r >= 1
  {
    if k == 0 then 1 else 2 * Pow2(k - 1)
  }

  const WIDTH := 32

  datatype Net = Net(base: nat, bits: nat)

  predicate Normal(n: Net)
  {
    n.bits <= WIDTH && n.base % Pow2(n.bits) == 0 && n.base + Pow2(n.bits) <= Pow2(WIDTH)
  }

  function Last(n: Net): nat
  {
    n.base + Pow2(n.bits) - 1
  }

  predicate Holds(n: Net, first: nat, last: nat)
  {
    n.base <= first && last <= Last(n)
  }

  /** The smallest block holding a range: every block that holds the range holds this one. */
  ghost predicate SmallestHolding(n: Net, first: nat, last: nat)
  {
    && Normal(n) && Holds(n, first, last)
    && forall m | Normal(m) && Holds(m, first, last) :: m.bits > n.bits || m == n
  }

  // ------------------------------------------------------------------------- arithmetic

  lemma {:induction false} PowMonotone(j: nat, k: nat)
    requires j <= k
    ensures Pow2(j) <= Pow2(k) && (j < k ==> Pow2(j) < Pow2(k))
  {
    if j < k {
      PowMonotone(j, k - 1);
    }
  }

  lemma {:induction false} PowDivides(x: nat, j: nat, k: nat)
    requires j <= k && x % Pow2(k) == 0
    ensures x % Pow2(j) == 0
  {
    if j < k {
      HalfDivides(x, Pow2(k - 1));
      PowDivides(x, j, k - 1);
    }
  }

  lemma HalfDivides(x: nat, p: nat)
    requires p > 0 && x % (2 * p) == 0
    ensures x % p == 0
  {
    var q := x / (2 * p);
    assert x == p * (2 * q) by { assert x == 2 * p * q; }
    ModOfMultiple(p, 2 * q, 0);
  }

  /** Quotient and remainder are unique. */
  lemma ModOfMultiple(p: nat, q: nat, r: nat)
    requires p > 0 && r < p
    ensures (p * q + r) % p == r && (p * q + r) / p == q
  {
    var x := p * q + r;
    var a, b := x / p, x % p;
    assert x == p * a + b;
    if a < q {
      MulMonotone(p, a + 1, q);
    } else if a > q {
      MulMonotone(p, q + 1, a);
    }
  }

  lemma MulMonotone(p: nat, a: nat, b: nat)
    requires a <= b
    ensures p * a <= p * b
  {
    assert p * b == p * a + p * (b - a);
  }

  /** Two blocks of one size that share an address are the same block. */
  lemma SameSizeSameBlock(m: Net, n: Net, x: nat)
    requires Normal(m) && Normal(n) && m.bits == n.bits
    requires m.base <= x <= Last(m) && n.base <= x <= Last(n)
    ensures m == n
  {
    var p := Pow2(m.bits);
    AlignedBase(m.base, p, x);
    AlignedBase(n.base, p, x);
  }

  lemma AlignedBase(base: nat, p: nat, x: nat)
    requires p > 0 && base % p == 0 && base <= x < base + p
    ensures base == x - x % p
  {
    var q := base / p;
    assert base == p * q;
    ModOfMultiple(p, q, x - base);
  }

  // ----------------------------------------------------- the first block of a summarised range

  /** How many zero bits a number ends in; all of them for zero. */
  function TrailingZeros(x: nat, bits: nat): (n: nat)
    ensures n <= bits
  {
    if bits == 0 then 0
    else if x == 0 then bits
    else if x % 2 == 1 then 0
    else 1 + TrailingZeros(x / 2, bits - 1)
  }

  function BitLength(x: nat): nat
  {
    if x == 0 then 0 else 1 + BitLength(x / 2)
  }

  lemma {:induction false} TrailingZerosDivide(x: nat, bits: nat)
    ensures x % Pow2(TrailingZeros(x, bits)) == 0
  {
    if bits > 0 && x > 0 && x % 2 == 0 {
      TrailingZerosDivide(x / 2, bits - 1);
      var p := Pow2(TrailingZeros(x / 2, bits - 1));
      var q := x / 2 / p;
      assert x / 2 == p * q;
      assert x == (2 * p) * q;
      ModOfMultiple(2 * p, q, 0);
    }
  }

  lemma {:induction false} BitLengthBounds(x: nat)
    requires x > 0
    ensures BitLength(x) >= 1 && Pow2(BitLength(x) - 1) <= x
  {
    if x > 1 {
      BitLengthBounds(x / 2);
    }
  }

  function FirstBlock(first: nat, last: nat): Net
    requires first <= last
  {
    var zeros := TrailingZeros(first, WIDTH);
    var fits := BitLength(last - first + 1) - 1;
    Net(first, if zeros < fits then zeros else fits)
  }

  lemma FirstBlockIsNormal(first: nat, last: nat)
    requires first <= last < Pow2(WIDTH)
    ensures var b := FirstBlock(first, last);
      Normal(b) && b.base == first && Pow2(b.bits) <= last - first + 1
  {
    var b := FirstBlock(first, last);
    TrailingZerosDivide(first, WIDTH);
    BitLengthBounds(last - first + 1);
    PowDivides(first, b.bits, TrailingZeros(first, WIDTH));
    PowMonotone(b.bits, BitLength(last - first + 1) - 1);
  }

  // ----------------------------------------------------------------------------- supernets

  /** The block twice the size that contains this one; all addresses are their own supernet. */
  function Supernet(n: Net): Net
  {
    if n.bits >= WIDTH then n else Net(RoundedDown(n.base, Pow2(n.bits + 1)), n.bits + 1)
  }

  function RoundedDown(x: nat, p: nat): (r: nat)
    requires p > 0
    ensures r <= x < r + p && r % p == 0
  {
    ModOfMultiple(p, x / p, 0);
    x / p * p
  }

  lemma SupernetContains(n: Net)
    requires Normal(n) && n.bits < WIDTH
    ensures var s := Supernet(n); Normal(s) && s.base <= n.base && Last(n) <= Last(s)
  {
    var p, s := Pow2(n.bits), Supernet(n);
    assert Pow2(n.bits + 1) == 2 * p;
    hide Pow2;
    HalfOfABlock(n.base, p);
    FitsBelowTop(s.base, n.base, s.bits);
  }

  /** An aligned half does not stick out of the double it starts in. */
  lemma HalfOfABlock(base: nat, p: nat)
    requires p > 0 && base % p == 0
    ensures base + p <= RoundedDown(base, 2 * p) + 2 * p
  {
    var q := base / p;
    assert base == p * q;
    var h := base / (2 * p);
    assert RoundedDown(base, 2 * p) == p * (2 * h) by { assert h * (2 * p) == p * (2 * h); }
    assert p * (2 * h + 2) == p * (2 * h) + 2 * p;
    if q >= 2 * h + 2 {
      MulMonotone(p, 2 * h + 2, q);
    } else {
      MulMonotone(p, q, 2 * h + 1);
      assert p * (2 * h + 1) == p * (2 * h) + p;
    }
  }

  /** An aligned block that starts below the top ends at or below it. */
  lemma FitsBelowTop(base: nat, inside: nat, bits: nat)
    requires bits <= WIDTH && base % Pow2(bits) == 0 && base <= inside < Pow2(WIDTH)
    ensures base + Pow2(bits) <= Pow2(WIDTH)
  {
    hide Pow2;
    PowSplit(bits, WIDTH - bits);
    MultipleBelowMultiple(base, Pow2(bits), Pow2(WIDTH - bits));
  }

  lemma MultipleBelowMultiple(base: nat, p: nat, top: nat)
    requires p > 0 && base % p == 0 && base < p * top
    ensures base + p <= p * top
  {
    var q := base / p;
    assert base == p * q;
    if q >= top {
      MulMonotone(p, top, q);
    }
    MulMonotone(p, q + 1, top);
    assert p * (q + 1) == base + p;
  }

  lemma {:induction false} PowSplit(a: nat, b: nat)
    ensures Pow2(a + b) == Pow2(a) * Pow2(b)
  {
    if b > 0 {
      PowSplit(a, b - 1);
      assert Pow2(a + b) == 2 * Pow2(a + b - 1);
      assert Pow2(a) * (2 * Pow2(b - 1)) == 2 * (Pow2(a) * Pow2(b - 1));
    }
  }

  /** Anything that holds the range is larger than a block that starts in it and stops short of its end. */
  lemma ShortBlockIsTooSmall(c: Net, m: Net, first: nat, last: nat)
    requires Normal(c) && c.base <= first <= Last(c) < last
    requires Normal(m) && Holds(m, first, last) && first <= last
    requires m.bits >= c.bits
    ensures m.bits > c.bits
  {
    if m.bits == c.bits {
      SameSizeSameBlock(m, c, first);
    }
  }

  /** The loop: supernets of the first block until the last address is inside. */
  method Cover(first: nat, last: nat) returns (covering: Net)
    requires first <= last < Pow2(WIDTH)
    ensures SmallestHolding(covering, first, last)
  {
    hide Pow2, TrailingZeros, BitLength;
    covering := FirstBlock(first, last);
    FirstBlockIsNormal(first, last);
    forall m | Normal(m) && Holds(m, first, last) ensures m.bits >= covering.bits {
      if m.bits < covering.bits {
        PowMonotone(m.bits, covering.bits);
      }
    }
    while Last(covering) < last
      invariant Normal(covering) && covering.base <= first <= Last(covering)
      invariant forall m | Normal(m) && Holds(m, first, last) :: m.bits >= covering.bits
      decreases WIDTH - covering.bits
    {
      forall m | Normal(m) && Holds(m, first, last) ensures m.bits > covering.bits {
        ShortBlockIsTooSmall(covering, m, first, last);
      }
      WholeSpace(covering, last);
      SupernetContains(covering);
      covering := Supernet(covering);
    }
    forall m | Normal(m) && Holds(m, first, last) ensures m.bits > covering.bits || m == covering {
      if m.bits == covering.bits {
        SameSizeSameBlock(m, covering, first);
      }
    }
  }

  /** The loop ends at 0.0.0.0/0 at the latest. */
  lemma WholeSpace(n: Net, last: nat)
    requires Normal(n) && Last(n) < last < Pow2(WIDTH)
    ensures n.bits < WIDTH
  {
    hide Pow2;
    assert n.base + Pow2(n.bits) < Pow2(WIDTH) + 0;
    PowMonotone(n.bits, WIDTH);
  }

  lemma SmallestIsUnique(m: Net, n: Net, first: nat, last: nat)
    requires SmallestHolding(m, first, last) && SmallestHolding(n, first, last)
    ensures m == n
  {
  }

  /** A block is the smallest one holding its own addresses: a CIDR entry comes back as itself. */
  lemma BlockCoversItself(n: Net)
    requires Normal(n)
    ensures SmallestHolding(n, n.base, Last(n))
  {
    hide Pow2;
    forall m | Normal(m) && Holds(m, n.base, Last(n)) ensures m.bits > n.bits || m == n {
      if m.bits < n.bits {
        PowMonotone(m.bits, n.bits);
      } else if m.bits == n.bits {
        SameSizeSameBlock(m, n, n.base);
      }
    }
  }

  // ------------------------------------------------------------------- one entry of a pool

  type Address = a: nat | a < Pow2(WIDTH)

  type Block = n: Net | Normal(n) witness Net(0, 0)

  datatype Version<T> = V4(value: T) | V6

  /** What parsing a text as one address, or as one network, gives. */
  datatype Parser = Parser(
    address: string -> Option<Version<Address>>,
    network: string -> Option<Version<Block>>)

  /** `s.split(c)`. */
  function SplitOn(c: char, s: string): (r: seq<string>)
    ensures r != [] && Glue(c, r) == s
    ensures forall i | 0 <= i < |r| :: c !in r[i]
    decreases |s|
  {
    var n := FirstIndex(c, s);
    if n == |s| then [s] else
      assert s == s[..n] + [c] + s[n + 1..];
      var rest := SplitOn(c, s[n + 1..]);
      assert ([s[..n]] + rest)[1..] == rest;
      [s[..n]] + rest
  }

  function Glue(c: char, pieces: seq<string>): string
  {
    if pieces == [] then "" else if |pieces| == 1 then pieces[0] else pieces[0] + [c] + Glue(c, pieces[1..])
  }

  function NonEmptyStripped(pieces: seq<string>): (r: seq<string>)
    ensures forall b | b in r :: b != ""
  {
    if pieces == [] then [] else
      (if Strip(pieces[0]) == "" then [] else [Strip(pieces[0])]) + NonEmptyStripped(pieces[1..])
  }

  function Bounds(entry: string): seq<string>
  {
    NonEmptyStripped(SplitOn('-', Strip(entry)))
  }

  /** The IPv4 addresses an entry names, first and last; None for anything it does not parse as. */
  function RangeOf(ip: Parser, entry: string): (r: Option<(Address, Address)>)
    ensures r.Some? ==> r.value.0 <= r.value.1
  {
    var bounds := Bounds(entry);
    if bounds == [] then None
    else if |bounds| == 1 && '/' in bounds[0] then
      match ip.network(bounds[0])
      case Some(V4(n)) => Some((n.base, Last(n)))
      case _ => None
    else
      match (ip.address(bounds[0]), ip.address(bounds[|bounds| - 1]))
      case (Some(V4(first)), Some(V4(last))) => if last < first then None else Some((first, last))
      case _ => None
  }

  method CoveringNet(ip: Parser, entry: string) returns (r: Option<Net>)
    ensures r.Some? <==> RangeOf(ip, entry).Some?
    ensures r.Some? ==> SmallestHolding(r.value, RangeOf(ip, entry).value.0, RangeOf(ip, entry).value.1)
  {
    hide Pow2, Bounds;
    var range := RangeOf(ip, entry);
    if range.None? {
      return None;
    }
    var net := Cover(range.value.0, range.value.1);
    return Some(net);
  }

  // -------------------------------------------------------------- what the entries read as

  predicate AllSpace(s: string)
  {
    forall i | 0 <= i < |s| :: IsSpace(s[i])
  }

  /** One address or one network as it is written: no space in it, and no dash. */
  predicate Bare(text: string)
  {
    text != "" && NoSpace(text) && '-' !in text
  }

  lemma {:induction false} SplitWithout(c: char, s: string)
    requires c !in s
    ensures SplitOn(c, s) == [s]
  {
  }

  lemma {:induction false} SplitAt(c: char, a: string, b: string)
    requires c !in a
    ensures SplitOn(c, a + [c] + b) == [a] + SplitOn(c, b)
  {
    var s := a + [c] + b;
    var n := FirstIndex(c, s);
    assert s[|a|] == c && forall i | 0 <= i < |a| :: s[i] == a[i];
    assert s[..n] == a && s[n + 1..] == b;
  }

  /** Whitespace around a text that neither begins nor ends with any is what stripping takes off. */
  lemma {:induction false} StripPads(p: string, text: string, q: string)
    requires AllSpace(p) && AllSpace(q)
    requires text != "" && !IsSpace(text[0]) && !IsSpace(text[|text| - 1])
    ensures Strip(p + text + q) == text
    decreases |p| + |q|
  {
    hide IsSpace;
    var s := p + text + q;
    if p != "" {
      assert s[0] == p[0] && s[1..] == p[1..] + text + q;
      StripPads(p[1..], text, q);
    } else if q != "" {
      assert s[0] == text[0] && s[|s| - 1] == q[|q| - 1] && s[..|s| - 1] == p + text + q[..|q| - 1];
      StripPads(p, text, q[..|q| - 1]);
    } else {
      assert s == text;
    }
  }

  lemma PadsHaveNoDash(p: string)
    requires AllSpace(p)
    ensures '-' !in p
  {
    assert !IsSpace('-');
  }

  lemma BareStripped(p: string, text: string, q: string)
    requires AllSpace(p) && AllSpace(q) && Bare(text)
    ensures Strip(p + text + q) == text && '-' !in p + text + q
  {
    PadsHaveNoDash(p);
    PadsHaveNoDash(q);
    StripPads(p, text, q);
  }

  lemma OneBound(p: string, a: string, q: string)
    requires AllSpace(p) && AllSpace(q) && Bare(a)
    ensures Bounds(p + a + q) == [a]
  {
    BareStripped(p, a, q);
    BareStripped("", a, "");
    assert "" + a + "" == a;
    SplitWithout('-', a);
    assert [a][1..] == [] && NonEmptyStripped([]) == [];
  }

  lemma TwoBounds(p: string, a: string, q: string, r: string, b: string, s: string)
    requires AllSpace(p) && AllSpace(q) && AllSpace(r) && AllSpace(s) && Bare(a) && Bare(b)
    ensures Bounds(p + ((a + q) + "-" + (r + b)) + s) == [a, b]
  {
    hide *;
    PaddedAfter(a, q);
    PaddedBefore(r, b);
    DashedBounds(p, a + q, r + b, s);
  }

  lemma PaddedAfter(a: string, q: string)
    requires AllSpace(q) && Bare(a)
    ensures var t := a + q; t != "" && !IsSpace(t[0]) && '-' !in t && Strip(t) == a && a != ""
  {
    BareEnds(a);
    BareStripped("", a, q);
    hide *;
    assert "" + a + q == a + q;
  }

  lemma PaddedBefore(r: string, b: string)
    requires AllSpace(r) && Bare(b)
    ensures var t := r + b; t != "" && !IsSpace(t[|t| - 1]) && '-' !in t && Strip(t) == b && b != ""
  {
    BareEnds(b);
    BareStripped(r, b, "");
    hide *;
    assert r + b + "" == r + b;
  }

  lemma DashedBounds(p: string, first: string, second: string, s: string)
    requires AllSpace(p) && AllSpace(s) && '-' !in first && '-' !in second
    requires first != "" && !IsSpace(first[0]) && second != "" && !IsSpace(second[|second| - 1])
    requires Strip(first) != "" && Strip(second) != ""
    ensures Bounds(p + (first + "-" + second) + s) == [Strip(first), Strip(second)]
  {
    hide AllSpace, Strip, SplitOn, NonEmptyStripped, IsSpace;
    StripPads(p, first + "-" + second, s);
    SplitAt('-', first, second);
    SplitWithout('-', second);
    TwoPieces(first, second);
  }

  lemma BareEnds(a: string)
    requires Bare(a)
    ensures a != "" && !IsSpace(a[0]) && !IsSpace(a[|a| - 1])
  {
  }

  lemma TwoPieces(first: string, second: string)
    requires Strip(first) != "" && Strip(second) != ""
    ensures NonEmptyStripped([first] + [second]) == [Strip(first), Strip(second)]
  {
    hide Strip;
    assert ([first] + [second])[1..] == [second] && [second][1..] == [] && NonEmptyStripped([]) == [];
  }

  /** Nothing but whitespace before the first dash, between two, or after the last. */
  predicate Blank(piece: string)
  {
    Strip(piece) == ""
  }

  /** Of the pieces between the dashes, i and j are the first and the last that are not blank. */
  predicate Ends(pieces: seq<string>, i: nat, j: nat)
  {
    && i <= j < |pieces| && !Blank(pieces[i]) && !Blank(pieces[j])
    && (forall k | 0 <= k < i :: Blank(pieces[k])) && (forall k | j < k < |pieces| :: Blank(pieces[k]))
  }

  lemma {:induction false} AllBlank(pieces: seq<string>)
    requires forall k | 0 <= k < |pieces| :: Blank(pieces[k])
    ensures NonEmptyStripped(pieces) == []
  {
    hide Strip;
    if pieces != [] {
      assert Blank(pieces[0]) && forall k | 0 <= k < |pieces| - 1 :: pieces[1..][k] == pieces[k + 1];
      AllBlank(pieces[1..]);
    }
  }

  lemma {:induction false} BoundsAre(pieces: seq<string>, i: nat, j: nat)
    requires Ends(pieces, i, j)
    ensures var r := NonEmptyStripped(pieces);
      r != [] && r[0] == Strip(pieces[i]) && r[|r| - 1] == Strip(pieces[j]) && (|r| == 1 <==> i == j)
  {
    hide Strip;
    var rest := pieces[1..];
    assert forall k | 0 <= k < |rest| :: rest[k] == pieces[k + 1];
    if i > 0 {
      assert Blank(pieces[0]);
      BoundsAre(rest, i - 1, j - 1);
    } else if j == 0 {
      AllBlank(rest);
    } else {
      LastBound(rest, j - 1);
    }
  }

  lemma {:induction false} LastBound(pieces: seq<string>, j: nat)
    requires j < |pieces| && !Blank(pieces[j]) && forall k | j < k < |pieces| :: Blank(pieces[k])
    ensures var r := NonEmptyStripped(pieces); r != [] && r[|r| - 1] == Strip(pieces[j])
  {
    hide Strip;
    var rest := pieces[1..];
    assert forall k | 0 <= k < |rest| :: rest[k] == pieces[k + 1];
    if j == 0 {
      AllBlank(rest);
    } else {
      LastBound(rest, j - 1);
    }
  }

  /** The addresses from one text to another; none out of order, or when either is no IPv4 address. */
  predicate FromTo(ip: Parser, a: string, b: string, r: Option<(Address, Address)>)
  {
    match (ip.address(a), ip.address(b))
    case (Some(V4(v)), Some(V4(w))) => r == if v <= w then Some((v, w)) else None
    case _ => r == None
  }

  /** The addresses of the one IPv4 network a text is. */
  predicate TheNetwork(ip: Parser, text: string, r: Option<(Address, Address)>)
  {
    match ip.network(text)
    case Some(V4(n)) => r == Some((n.base, Last(n)))
    case _ => r == None
  }

  /**
   How any entry reads that is not all blank: from the first piece that is not to the last, or, when
   that is one piece with a slash in it, as a network.
   */
  lemma EntryReads(ip: Parser, entry: string, i: nat, j: nat)
    requires Ends(SplitOn('-', Strip(entry)), i, j)
    ensures var pieces := SplitOn('-', Strip(entry));
      if i == j && '/' in Strip(pieces[i]) then TheNetwork(ip, Strip(pieces[i]), RangeOf(ip, entry))
      else FromTo(ip, Strip(pieces[i]), Strip(pieces[j]), RangeOf(ip, entry))
  {
    hide Strip, SplitOn, Pow2, Blank, Last;
    BoundsAre(SplitOn('-', Strip(entry)), i, j);
  }

  /** And one that is: no range. */
  lemma BlankEntryReads(ip: Parser, entry: string)
    requires forall k | 0 <= k < |SplitOn('-', Strip(entry))| :: Blank(SplitOn('-', Strip(entry))[k])
    ensures RangeOf(ip, entry) == None
  {
    hide Strip, SplitOn, Pow2, Blank;
    AllBlank(SplitOn('-', Strip(entry)));
  }

  /**
   An entry `first-last`, with whitespace wherever it is allowed: the addresses from the one to
   the other. Out of order, or with an end that is no IPv4 address, it names none.
   */
  lemma RangeEntryReads(ip: Parser, p: string, a: string, q: string, r: string, b: string, s: string)
    requires AllSpace(p) && AllSpace(q) && AllSpace(r) && AllSpace(s) && Bare(a) && Bare(b)
    ensures var entry := p + ((a + q) + "-" + (r + b)) + s; var x, y := ip.address(a), ip.address(b);
      && (forall v: Address, w: Address | x == Some(V4(v)) && y == Some(V4(w)) ::
            RangeOf(ip, entry) == if v <= w then Some((v, w)) else None)
      && (x.None? || y.None? || x.value.V6? || y.value.V6? ==> RangeOf(ip, entry) == None)
  {
    hide Pow2, Bounds, AllSpace, Bare;
    TwoBounds(p, a, q, r, b, s);
  }

  /** One address alone is a range of one. */
  lemma AddressEntryReads(ip: Parser, p: string, a: string, q: string)
    requires AllSpace(p) && AllSpace(q) && Bare(a) && '/' !in a
    ensures var x := ip.address(a);
      && (forall v: Address | x == Some(V4(v)) :: RangeOf(ip, p + a + q) == Some((v, v)))
      && (x.None? || x.value.V6? ==> RangeOf(ip, p + a + q) == None)
  {
    hide Pow2, Bounds, AllSpace, Bare;
    OneBound(p, a, q);
  }

  /** An entry written as one network comes back as that same network. */
  lemma CidrEntryIsItself(ip: Parser, p: string, text: string, q: string)
    requires AllSpace(p) && AllSpace(q) && Bare(text) && '/' in text
    ensures var x := ip.network(text);
      && (x.None? || x.value.V6? ==> RangeOf(ip, p + text + q) == None)
      && (x.Some? && x.value.V4? ==>
            && RangeOf(ip, p + text + q) == Some((x.value.value.base, Last(x.value.value)))
            && SmallestHolding(x.value.value, x.value.value.base, Last(x.value.value)))
  {
    hide Pow2, SmallestHolding, Bounds, AllSpace, Bare;
    OneBound(p, text, q);
    var x := ip.network(text);
    if x.Some? && x.value.V4? {
      BlockCoversItself(x.value.value);
    }
  }

  // ------------------------------------------------------------------------ the whole choice

  /** The characters at which Python's `str.splitlines` breaks. */
  predicate IsBreak(c: char)
  {
    c in ['\n', '\r', '\U{000b}', '\U{000c}', '\U{001c}', '\U{001d}', '\U{001e}', '\U{0085}',
          '\U{2028}', '\U{2029}']
  }

  function BreakAt(s: string): (n: nat)
    ensures n <= |s|
  {
    if s == "" || IsBreak(s[0]) then 0 else 1 + BreakAt(s[1..])
  }

  function SplitLines(s: string): seq<string>
    decreases |s|
  {
    if s == "" then [] else
      var n := BreakAt(s);
      if n == |s| then [s] else
        var past := if s[n] == '\r' && n + 1 < |s| && s[n + 1] == '\n' then n + 2 else n + 1;
        [s[..n]] + SplitLines(s[past..])
  }

  predicate NoBreaks(s: string)
  {
    forall i | 0 <= i < |s| :: !IsBreak(s[i])
  }

  lemma {:induction false} BreakAtOf(a: string, c: char, b: string)
    requires NoBreaks(a) && IsBreak(c)
    ensures BreakAt(a + [c] + b) == |a|
  {
    hide IsBreak;
    if a != "" {
      assert (a + [c] + b)[1..] == a[1..] + [c] + b;
      BreakAtOf(a[1..], c, b);
    }
  }

  /** A line ends at the first break, and CR LF is one break. */
  lemma LinesBreak(a: string, c: char, b: string)
    requires NoBreaks(a) && IsBreak(c)
    ensures !(c == '\r' && b != "" && b[0] == '\n') ==> SplitLines(a + [c] + b) == [a] + SplitLines(b)
    ensures c == '\r' && b != "" && b[0] == '\n' ==> SplitLines(a + [c] + b) == [a] + SplitLines(b[1..])
  {
    var s := a + [c] + b;
    BreakAtOf(a, c, b);
    assert s[..|a|] == a && s[|a|] == c && s[|a| + 1..] == b;
    assert b != "" ==> s[|a| + 2..] == b[1..] && s[|a| + 1] == b[0];
  }

  lemma {:induction false} LastLine(a: string)
    requires NoBreaks(a) && a != ""
    ensures SplitLines(a) == [a]
  {
    NoBreakAt(a);
  }

  lemma {:induction false} NoBreakAt(a: string)
    requires NoBreaks(a)
    ensures BreakAt(a) == |a|
  {
    if a != "" {
      NoBreakAt(a[1..]);
    }
  }

  const POOL_KEY := "rightaddresspool="

  /** What the first line that sets the pool sets it to. */
  function PoolLine(lines: seq<string>): Option<string>
  {
    if lines == [] then None
    else if POOL_KEY <= Strip(lines[0]) then Some(Strip(lines[0])[|POOL_KEY|..])
    else PoolLine(lines[1..])
  }

  /** The first of some entries that is an IPv4 range. */
  function FirstRange(ip: Parser, entries: seq<string>): Option<(Address, Address)>
  {
    if entries == [] then None
    else if RangeOf(ip, entries[0]).Some? then RangeOf(ip, entries[0])
    else FirstRange(ip, entries[1..])
  }

  datatype Why =
    | Unreadable
    | NamesNoPool
    | NoIPv4Pool
    | XauthUnparseable(text: string)
    | XauthNotIPv4(text: string)

  datatype Provenance = FromPool | FromXauth | ImageDefault(why: Why)

  /** 192.168.43.0/24. */
  const DEFAULT := Net(192 * 0x100_0000 + 168 * 0x1_0000 + 43 * 0x100, 8)

  lemma DefaultIsNormal()
    ensures Normal(DEFAULT)
  {
    assert Pow2(8) == 256;
    PowSplit(16, 16);
    assert Pow2(16) == 0x1_0000;
  }

  // Only a text that is there and not empty is an answer.
  function Answered(s: Option<string>): Option<string>
  {
    if s == Some("") then None else s
  }

  /** The range the container's own configuration gives, when it gives one. */
  function ConfRange(ip: Parser, conf: Option<string>): Option<(Address, Address)>
  {
    match Answered(conf)
    case None => None
    case Some(text) =>
      match PoolLine(SplitLines(text))
      case None => None
      case Some(pool) => FirstRange(ip, SplitOn(',', pool))
  }

  // ------------------------------------------------------------------ the choice, by position

  /** Line i is the first that sets the pool, and this is what it sets it to. */
  predicate SetsPool(lines: seq<string>, i: nat, pool: string)
  {
    && i < |lines| && Strip(lines[i]) == POOL_KEY + pool
    && forall k | 0 <= k < i :: !(POOL_KEY <= Strip(lines[k]))
  }

  /** Entry e is the first that is an IPv4 range, and this is the range. */
  predicate GivesRange(ip: Parser, entries: seq<string>, e: nat, first: Address, last: Address)
  {
    && e < |entries| && RangeOf(ip, entries[e]) == Some((first, last))
    && forall k | 0 <= k < e :: RangeOf(ip, entries[k]) == None
  }

  /** The pool line of the configuration gives this range. */
  ghost predicate PoolRange(ip: Parser, conf: Option<string>, first: Address, last: Address)
  {
    conf.Some? && exists i, pool, e ::
      SetsPool(SplitLines(conf.value), i, pool) && GivesRange(ip, SplitOn(',', pool), e, first, last)
  }

  /** VPN_XAUTH_NET is this IPv4 network. */
  predicate XauthIs(ip: Parser, xauth: Option<string>, net: Net)
  {
    && xauth.Some? && xauth.value != ""
    && ip.network(Strip(xauth.value)).Some? && ip.network(Strip(xauth.value)).value.V4?
    && ip.network(Strip(xauth.value)).value.value == net
  }

  /** Why neither source gave a network: the last thing that went wrong. */
  ghost predicate Explains(ip: Parser, conf: Option<string>, xauth: Option<string>, why: Why)
  {
    var silent := xauth.None? || xauth.value == "";
    match why
    case XauthUnparseable(text) => !silent && text == Strip(xauth.value) && ip.network(text) == None
    case XauthNotIPv4(text) => !silent && text == Strip(xauth.value) && ip.network(text) == Some(V6)
    case Unreadable => silent && (conf.None? || conf.value == "")
    case NamesNoPool => silent && conf.Some? && conf.value != "" && NoPoolLine(SplitLines(conf.value))
    case NoIPv4Pool =>
      && silent && conf.Some?
      && exists i, pool :: SetsPool(SplitLines(conf.value), i, pool) && NoRange(ip, SplitOn(',', pool))
  }

  predicate NoPoolLine(lines: seq<string>)
  {
    forall k | 0 <= k < |lines| :: !(POOL_KEY <= Strip(lines[k]))
  }

  predicate NoRange(ip: Parser, entries: seq<string>)
  {
    forall k | 0 <= k < |entries| :: RangeOf(ip, entries[k]) == None
  }

  /** The network the clients' addresses come from, as far as the container tells. */
  ghost predicate IsPool(ip: Parser, conf: Option<string>, xauth: Option<string>, net: Net)
  {
    && Normal(net)
    && (forall first: Address, last: Address | PoolRange(ip, conf, first, last) :: SmallestHolding(net, first, last))
    && (|| (exists first: Address, last: Address :: PoolRange(ip, conf, first, last))
        || XauthIs(ip, xauth, net)
        || (net == Net(0xC0A8_2B00, 8) && forall n :: !XauthIs(ip, xauth, n)))
  }

  /** What the container tells leaves no choice. */
  lemma PoolIsUnique(ip: Parser, conf: Option<string>, xauth: Option<string>, m: Net, n: Net)
    requires IsPool(ip, conf, xauth, m) && IsPool(ip, conf, xauth, n)
    ensures m == n
  {
    hide SmallestHolding, PoolRange, Pow2;
    if first: Address, last: Address :| PoolRange(ip, conf, first, last) {
      SmallestIsUnique(m, n, first, last);
    }
  }

  lemma {:induction false} PoolLineAt(lines: seq<string>, i: nat, pool: string)
    requires SetsPool(lines, i, pool)
    ensures PoolLine(lines) == Some(pool)
  {
    hide Strip;
    if i > 0 {
      assert !(POOL_KEY <= Strip(lines[0]));
      assert forall k | 0 <= k < i - 1 :: lines[1..][k] == lines[k + 1];
      PoolLineAt(lines[1..], i - 1, pool);
    }
  }

  lemma {:induction false} PoolLineIsSet(lines: seq<string>) returns (i: nat)
    requires PoolLine(lines).Some?
    ensures SetsPool(lines, i, PoolLine(lines).value)
  {
    hide Strip;
    if POOL_KEY <= Strip(lines[0]) {
      i := 0;
      assert Strip(lines[0]) == POOL_KEY + Strip(lines[0])[|POOL_KEY|..];
    } else {
      i := PoolLineIsSet(lines[1..]);
      assert forall k | 0 < k < i + 1 :: lines[k] == lines[1..][k - 1];
      i := i + 1;
    }
  }

  lemma {:induction false} FirstRangeAt(ip: Parser, entries: seq<string>, e: nat, first: Address, last: Address)
    requires GivesRange(ip, entries, e, first, last)
    ensures FirstRange(ip, entries) == Some((first, last))
  {
    hide RangeOf, Pow2;
    if e > 0 {
      assert RangeOf(ip, entries[0]) == None;
      assert forall k | 0 <= k < e - 1 :: entries[1..][k] == entries[k + 1];
      FirstRangeAt(ip, entries[1..], e - 1, first, last);
    }
  }

  lemma {:induction false} FirstRangeIsGiven(ip: Parser, entries: seq<string>) returns (e: nat)
    requires FirstRange(ip, entries).Some?
    ensures GivesRange(ip, entries, e, FirstRange(ip, entries).value.0, FirstRange(ip, entries).value.1)
  {
    hide RangeOf, Pow2;
    if RangeOf(ip, entries[0]).Some? {
      e := 0;
    } else {
      e := FirstRangeIsGiven(ip, entries[1..]);
      assert forall k | 0 < k < e + 1 :: entries[k] == entries[1..][k - 1];
      e := e + 1;
    }
  }

  lemma RangeByPosition(ip: Parser, conf: Option<string>, first: Address, last: Address)
    ensures PoolRange(ip, conf, first, last) <==> ConfRange(ip, conf) == Some((first, last))
  {
    hide SetsPool, GivesRange, PoolLine, FirstRange, SplitOn, Pow2;
    if PoolRange(ip, conf, first, last) {
      var i, pool, e :| SetsPool(SplitLines(conf.value), i, pool) && GivesRange(ip, SplitOn(',', pool), e, first, last);
      PoolLineAt(SplitLines(conf.value), i, pool);
      FirstRangeAt(ip, SplitOn(',', pool), e, first, last);
      NothingSetsPool();
    }
    if ConfRange(ip, conf) == Some((first, last)) {
      var i := PoolLineIsSet(SplitLines(conf.value));
      var pool := PoolLine(SplitLines(conf.value)).value;
      var e := FirstRangeIsGiven(ip, SplitOn(',', pool));
    }
  }

  lemma NothingSetsPool()
    ensures PoolLine(SplitLines("")) == None
  {
  }

  /**
   The pool of the container's own configuration wins whatever VPN_XAUTH_NET says; that one is
   asked next; the image default is named exactly when neither gave a network.
   */
  method PoolNetwork(ip: Parser, conf: Option<string>, xauth: Option<string>) returns (net: Net, how: Provenance)
    ensures IsPool(ip, conf, xauth, net)
    ensures how.FromPool? <==> exists first: Address, last: Address :: PoolRange(ip, conf, first, last)
    ensures how.FromXauth? ==> XauthIs(ip, xauth, net)
    ensures how.ImageDefault? <==>
      && (forall first: Address, last: Address :: !PoolRange(ip, conf, first, last))
      && (forall n :: !XauthIs(ip, xauth, n))
    ensures how.ImageDefault? ==> Explains(ip, conf, xauth, how.why)
  {
    hide Pow2, RangeOf, SplitOn, SplitLines, PoolLine, Strip, PoolRange, SmallestHolding, NoPoolLine,
      NoRange, SetsPool;
    DefaultIsNormal();
    forall first: Address, last: Address
      ensures PoolRange(ip, conf, first, last) <==> ConfRange(ip, conf) == Some((first, last))
    {
      RangeByPosition(ip, conf, first, last);
    }
    var why := Unreadable;
    ghost var silent := Answered(xauth).None?;
    if Answered(conf).Some? {
      var pool := PoolLine(SplitLines(conf.value));
      if pool.None? {
        why := NamesNoPool;
        NothingSets(SplitLines(conf.value));
      } else {
        ghost var line := PoolLineIsSet(SplitLines(conf.value));
        var entries := SplitOn(',', pool.value);
        for i := 0 to |entries|
          invariant FirstRange(ip, entries) == FirstRange(ip, entries[i..])
        {
          assert entries[i..][1..] == entries[i + 1..];
          var r := CoveringNet(ip, entries[i]);
          if r.Some? {
            var range := ConfRange(ip, conf).value;
            assert PoolRange(ip, conf, range.0, range.1);
            SmallestIsNormal(r.value, range.0, range.1);
            return r.value, FromPool;
          }
        }
        why := NoIPv4Pool;
        NoneIsARange(ip, entries);
      }
    }
    assert silent ==> Explains(ip, conf, xauth, why);
    assert ConfRange(ip, conf) == None;
    if Answered(xauth).Some? {
      match ip.network(Strip(xauth.value))
      case None => why := XauthUnparseable(Strip(xauth.value));
      case Some(V4(block)) =>
        assert XauthIs(ip, xauth, block);
        return block, FromXauth;
      case Some(V6) => why := XauthNotIPv4(Strip(xauth.value));
    }
    return DEFAULT, ImageDefault(why);
  }

  lemma {:induction false} NothingSets(lines: seq<string>)
    requires PoolLine(lines) == None
    ensures NoPoolLine(lines)
  {
    hide Strip;
    if lines != [] {
      NothingSets(lines[1..]);
      assert forall k | 0 < k < |lines| :: lines[k] == lines[1..][k - 1];
    }
  }

  lemma {:induction false} NoneIsARange(ip: Parser, entries: seq<string>)
    requires FirstRange(ip, entries) == None
    ensures NoRange(ip, entries)
  {
    hide RangeOf, Pow2;
    if entries != [] {
      NoneIsARange(ip, entries[1..]);
      assert forall k | 0 < k < |entries| :: entries[k] == entries[1..][k - 1];
    }
  }

  lemma SmallestIsNormal(n: Net, first: nat, last: nat)
    requires SmallestHolding(n, first, last)
    ensures Normal(n)
  {
  }
}
