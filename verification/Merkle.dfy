/**
 The RFC 9162 tree of internal/relay/audit/merkle.go: the recursive root and
 proof builders (sections 2.1.1, 2.1.3.1 and 2.1.4.1) and, for the two
 bit-shifting verifiers (sections 2.1.3.2 and 2.1.4.2), a recursive meaning
 that follows the tree.  SHA-256 over a node preimage is the parameter `node`.
 */
module Merkle {
  import opened Options
  type Hash = seq<bv8>


  // ---------------------------------------------------------------- arithmetic

  function Pow2(e: nat): (p: nat)
    ensures p > 0
  {
    if e == 0 then 1 else 2 * Pow2(e - 1)
  }

  /** bits.Len64 */
  function BitLen(v: nat): (b: nat)
    ensures v == 0 ==> b == 0
    ensures v > 0 ==> b > 0 && Pow2(b - 1) <= v < Pow2(b)
  {
    if v == 0 then 0 else 1 + BitLen(v / 2)
  }

  /** The largest k * 2^j below n. */
  function SplitFrom(k: nat, n: nat): (r: nat)
    requires 0 < k < n
    ensures k <= r < n <= 2 * r
    decreases n - k
  {
    if n <= 2 * k then k else SplitFrom(2 * k, n)
  }

  /** The left part of a tree of n leaves: the largest power of two below n. */
  function Split(n: nat): (k: nat)
    requires n >= 2
    ensures 0 < k < n <= 2 * k
  {
    SplitFrom(1, n)
  }

  /** uint64(1) << (bits.Len64(value-1) - 1) */
  function LargestPowerLessThan(value: nat): (k: nat)
    requires value >= 2
    ensures k == Split(value)
  {
    SplitUnique(value, BitLen(value - 1) - 1);
    Pow2(BitLen(value - 1) - 1)
  }

  lemma {:induction false} Pow2Monotone(a: nat, b: nat)
    requires a <= b
    ensures Pow2(a) <= Pow2(b)
    decreases b
  {
    if a < b { Pow2Monotone(a, b - 1); }
  }

  lemma {:induction false} SplitFromPower(e: nat, n: nat) returns (h: nat)
    requires Pow2(e) < n
    ensures SplitFrom(Pow2(e), n) == Pow2(h)
    decreases n - Pow2(e)
  {
    h := e;
    if n > 2 * Pow2(e) { h := SplitFromPower(e + 1, n); }
  }

  /** A tree splits at a power of two. */
  lemma SplitIsPower(n: nat) returns (h: nat)
    requires n >= 2
    ensures Split(n) == Pow2(h)
  {
    h := SplitFromPower(0, n);
  }

  /** Only one power of two lies below n and not below n / 2. */
  lemma SplitUnique(n: nat, h: nat)
    requires n >= 2 && Pow2(h) < n <= 2 * Pow2(h)
    ensures Split(n) == Pow2(h)
  {
    var g := SplitIsPower(n);
    if g < h {
      Pow2Monotone(g + 1, h);
    } else if h < g {
      Pow2Monotone(h + 1, g);
    }
  }

  // ------------------------------------------------------------ tree and paths

  function MerkleRoot(empty: Hash, node: (Hash, Hash) -> Hash, leaves: seq<Hash>): Hash
    decreases |leaves|
  {
    if |leaves| == 0 then empty
    else if |leaves| == 1 then leaves[0]
    else
      var k := Split(|leaves|);
      node(MerkleRoot(empty, node, leaves[..k]), MerkleRoot(empty, node, leaves[k..]))
  }

  /** Sibling roots from the leaf upwards. */
  function InclusionPath(empty: Hash, node: (Hash, Hash) -> Hash, leaves: seq<Hash>, index: nat): seq<Hash>
    requires index < |leaves|
    decreases |leaves|
  {
    if |leaves| == 1 then []
    else
      var k := Split(|leaves|);
      if index < k then
        InclusionPath(empty, node, leaves[..k], index) + [MerkleRoot(empty, node, leaves[k..])]
      else
        InclusionPath(empty, node, leaves[k..], index - k) + [MerkleRoot(empty, node, leaves[..k])]
  }

  function ConsistencyPath(empty: Hash, node: (Hash, Hash) -> Hash, leaves: seq<Hash>, first: nat,
                           complete: bool): seq<Hash>
    requires 0 < first <= |leaves|
    decreases |leaves|
  {
    if first == |leaves| then
      if complete then [] else [MerkleRoot(empty, node, leaves)]
    else
      var k := Split(|leaves|);
      if first <= k then
        ConsistencyPath(empty, node, leaves[..k], first, complete) + [MerkleRoot(empty, node, leaves[k..])]
      else
        ConsistencyPath(empty, node, leaves[k..], first - k, false) + [MerkleRoot(empty, node, leaves[..k])]
  }

  // ------------------------------------------- bit walk = climb along the tree

  /** How a verifier folds a sibling standing left or right of its running value. */
  datatype Fold<!V> = Fold(left: (Hash, V) -> V, right: (V, Hash) -> V)

  /** Folds a path into the value of the root of an n-leaf tree, split by split. */
  function Climb<V>(fold: Fold<V>, i: nat, n: nat, v: V, path: seq<Hash>): Option<V>
    requires i < n
    decreases n
  {
    if n == 1 then
      if path == [] then Some(v) else None
    else if path == [] then None
    else
      var k := Split(n);
      var last := path[|path| - 1];
      var inner := path[..|path| - 1];
      if i < k then AndRight(fold, Climb(fold, i, k, v, inner), last)
      else AndLeft(fold, Climb(fold, i - k, n - k, v, inner), last)
  }

  function AndLeft<V>(fold: Fold<V>, o: Option<V>, x: Hash): Option<V> {
    if o.Some? then Some(fold.left(x, o.value)) else None
  }

  function AndRight<V>(fold: Fold<V>, o: Option<V>, x: Hash): Option<V> {
    if o.Some? then Some(fold.right(o.value, x)) else None
  }

  /** The inner loop of both verifiers: shift until fn is odd or zero. */
  function Skip(fn: nat, sn: nat): (nat, nat) {
    if fn != 0 && fn % 2 == 0 then Skip(fn / 2, sn / 2) else (fn, sn)
  }

  /** The outer loop of both verifiers over the two shifted indices. */
  function Walk<V>(fold: Fold<V>, fn: nat, sn: nat, v: V, path: seq<Hash>): Option<V>
    decreases |path|
  {
    if path == [] then
      if sn == 0 then Some(v) else None
    else if sn == 0 then None
    else if fn % 2 == 1 || fn == sn then
      var (f, s) := if fn % 2 == 0 then Skip(fn, sn) else (fn, sn);
      Walk(fold, f / 2, s / 2, fold.left(path[0], v), path[1..])
    else
      Walk(fold, fn / 2, sn / 2, fold.right(v, path[0]), path[1..])
  }

  /** Below a left child the walk behaves as in the complete tree of that child. */
  lemma {:induction false} WalkLeftChild<V>(fold: Fold<V>, h: nat, f: nat, s: nat, v: V, p: seq<Hash>, x: Hash)
    requires f < Pow2(h) <= s < 2 * Pow2(h)
    ensures Walk(fold, f, s, v, p + [x]) == AndRight(fold, Walk(fold, f, Pow2(h) - 1, v, p), x)
    decreases |p|
  {
    if p == [] {
      assert p + [x] == [x];
      assert h == 0 ==> f == 0 && s == 1;
    } else {
      assert (p + [x])[1..] == p[1..] + [x];
      if h == 0 {
        assert f == 0 && s == 1;
      } else if f % 2 == 1 {
        WalkLeftChild(fold, h - 1, f / 2, s / 2, fold.left(p[0], v), p[1..], x);
      } else {
        WalkLeftChild(fold, h - 1, f / 2, s / 2, fold.right(v, p[0]), p[1..], x);
      }
    }
  }

  lemma {:induction false} SkipPower(h: nat)
    ensures Skip(Pow2(h), Pow2(h)) == (1, 1)
  {
    if h > 0 { SkipPower(h - 1); }
  }

  /** Skipping commutes with removing the common top bit. */
  lemma {:induction false} SkipUnderTopBit(h: nat, f: nat, s: nat) returns (g: nat)
    requires 0 < f <= s < Pow2(h)
    ensures g < h
    ensures var (a, b) := Skip(f, s);
            a % 2 == 1 && a <= b < Pow2(h - g) &&
            Skip(f + Pow2(h), s + Pow2(h)) == (a + Pow2(h - g), b + Pow2(h - g))
    decreases f
  {
    assert h > 0;
    HalveUnderTopBit(h, f);
    HalveUnderTopBit(h, s);
    hide Pow2;
    if f % 2 == 0 {
      g := SkipUnderTopBit(h - 1, f / 2, s / 2);
      g := g + 1;
    } else {
      g := 0;
    }
  }

  /** Below a right child both indices carry the split's bit, which the walk only meets last. */
  lemma {:induction false} WalkRightChild<V>(fold: Fold<V>, h: nat, f: nat, s: nat, v: V, p: seq<Hash>, x: Hash)
    requires f <= s < Pow2(h)
    ensures Walk(fold, f + Pow2(h), s + Pow2(h), v, p + [x]) == AndLeft(fold, Walk(fold, f, s, v, p), x)
    decreases |p|
  {
    var q := p + [x];
    if s == 0 {
      SkipPower(h);
      assert Walk(fold, Pow2(h), Pow2(h), v, q) == Walk(fold, 0, 0, fold.left(q[0], v), q[1..]);
      return;
    }
    var g, w, a, b := WalkRightStep(fold, h, f, s, v, q, p);
    if p != [] {
      assert q[1..] == p[1..] + [x];
      WalkRightChild(fold, g, a, b, w, p[1..], x);
    }
  }

  lemma HalveUnderTopBit(h: nat, f: nat)
    requires h > 0
    ensures (f + Pow2(h)) / 2 == f / 2 + Pow2(h - 1) && (f + Pow2(h)) % 2 == f % 2
    ensures f < Pow2(h) ==> f / 2 < Pow2(h - 1)
  {}

  /** Where one sibling takes the indices below a right child of height h, and the running value. */
  lemma WalkRightPlain<V>(fold: Fold<V>, h: nat, f: nat, s: nat, v: V, p: seq<Hash>, high: bool)
    requires h > 0 && f <= s < Pow2(h) && s > 0 && p != [] && !(f == s && f % 2 == 0)
    ensures var w := if f % 2 == 1 || f == s then fold.left(p[0], v) else fold.right(v, p[0]);
            if high then Walk(fold, f + Pow2(h), s + Pow2(h), v, p) ==
                Walk(fold, f / 2 + Pow2(h - 1), s / 2 + Pow2(h - 1), w, p[1..])
            else Walk(fold, f, s, v, p) == Walk(fold, f / 2, s / 2, w, p[1..])
  {
    hide Pow2, Skip;
    HalveUnderTopBit(h, f);
    HalveUnderTopBit(h, s);
  }

  lemma WalkSkips<V>(fold: Fold<V>, fn: nat, sn: nat, v: V, p: seq<Hash>)
    requires fn == sn > 0 && fn % 2 == 0 && p != []
    ensures Walk(fold, fn, sn, v, p) ==
            Walk(fold, Skip(fn, sn).0 / 2, Skip(fn, sn).1 / 2, fold.left(p[0], v), p[1..])
  {
    hide Skip;
  }

  /** Where the skip of one sibling lands, with and without the split's bit. */
  lemma SkipHalves(h: nat, f: nat) returns (g: nat, a: nat, b: nat)
    requires 0 < f < Pow2(h) && f % 2 == 0
    ensures a <= b < Pow2(g) && (f + Pow2(h)) % 2 == 0
    ensures Skip(f, f).0 / 2 == a && Skip(f, f).1 / 2 == b
    ensures Skip(f + Pow2(h), f + Pow2(h)).0 / 2 == a + Pow2(g)
    ensures Skip(f + Pow2(h), f + Pow2(h)).1 / 2 == b + Pow2(g)
  {
    hide Pow2, Skip;
    var skipped := SkipUnderTopBit(h, f, f);
    HalveUnderTopBit(h, f);
    g, a, b := h - skipped - 1, Skip(f, f).0 / 2, Skip(f, f).1 / 2;
    HalveUnderTopBit(h - skipped, Skip(f, f).0);
    HalveUnderTopBit(h - skipped, Skip(f, f).1);
  }

  lemma WalkRightSkip<V>(fold: Fold<V>, h: nat, f: nat, v: V, q: seq<Hash>, p: seq<Hash>)
    returns (g: nat, a: nat, b: nat)
    requires 0 < f < Pow2(h) && f % 2 == 0 && q != []
    ensures a <= b < Pow2(g)
    ensures Walk(fold, f + Pow2(h), f + Pow2(h), v, q) ==
            Walk(fold, a + Pow2(g), b + Pow2(g), fold.left(q[0], v), q[1..])
    ensures p != [] ==> Walk(fold, f, f, v, p) == Walk(fold, a, b, fold.left(p[0], v), p[1..])
  {
    hide Pow2, Skip, Walk;
    g, a, b := SkipHalves(h, f);
    WalkSkips(fold, f + Pow2(h), f + Pow2(h), v, q);
    if p != [] { WalkSkips(fold, f, f, v, p); }
  }

  /** One sibling consumed below a right child, with and without the split's bit. */
  lemma WalkRightStep<V>(fold: Fold<V>, h: nat, f: nat, s: nat, v: V, q: seq<Hash>, p: seq<Hash>)
    returns (g: nat, w: V, a: nat, b: nat)
    requires f <= s < Pow2(h) && s > 0 && q != [] && (p == [] || p[0] == q[0])
    ensures a <= b < Pow2(g)
    ensures Walk(fold, f + Pow2(h), s + Pow2(h), v, q) == Walk(fold, a + Pow2(g), b + Pow2(g), w, q[1..])
    ensures p != [] ==> Walk(fold, f, s, v, p) == Walk(fold, a, b, w, p[1..])
  {
    assert h > 0;
    hide Pow2, Skip, Walk;
    if f == s && f % 2 == 0 {
      g, a, b := WalkRightSkip(fold, h, f, v, q, p);
      w := fold.left(q[0], v);
    } else {
      HalveUnderTopBit(h, s);
      g, a, b := h - 1, f / 2, s / 2;
      w := if f % 2 == 1 || f == s then fold.left(q[0], v) else fold.right(v, q[0]);
      WalkRightPlain(fold, h, f, s, v, q, true);
      if p != [] { WalkRightPlain(fold, h, f, s, v, p, false); }
    }
  }

  /** The bit walk started at (i, n - 1) is the climb from leaf i of an n-leaf tree. */
  lemma {:induction false} WalkIsClimb<V>(fold: Fold<V>, i: nat, n: nat, v: V, path: seq<Hash>)
    requires i < n
    ensures Walk(fold, i, n - 1, v, path) == Climb(fold, i, n, v, path)
    decreases n
  {
    if n == 1 || path == [] {
      return;
    }
    hide Walk, Pow2, SplitFrom, Split, AndLeft, AndRight;
    var h := SplitIsPower(n);
    var inner, last := path[..|path| - 1], path[|path| - 1];
    assert path == inner + [last];
    if i < Pow2(h) {
      WalkLeftChild(fold, h, i, n - 1, v, inner, last);
      WalkIsClimb(fold, i, Pow2(h), v, inner);
    } else {
      WalkRightChild(fold, h, i - Pow2(h), n - 1 - Pow2(h), v, inner, last);
      WalkIsClimb(fold, i - Pow2(h), n - Pow2(h), v, inner);
    }
  }
}
