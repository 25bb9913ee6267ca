/**
 BuildConsistencyProof and VerifyConsistency of internal/relay/audit/merkle.go,
 with completeness and soundness of consistency proofs.
 */
module MerkleConsistency {
  import opened Interop
  import opened Options
  import opened Merkle
  import opened MerkleInclusion

  datatype ConsistencyProof = ConsistencyProof(firstSize: nat, secondSize: nat, path: seq<Hash>)

  // ---------------------------------------------------------- powers of two

  /** a & b, bit by bit. */
  function BitAnd(a: nat, b: nat): nat
    decreases a
  {
    if a == 0 || b == 0 then 0 else 2 * BitAnd(a / 2, b / 2) + (if a % 2 == 1 && b % 2 == 1 then 1 else 0)
  }

  ghost predicate IsPowerOfTwo(m: nat) {
    exists e: nat :: Pow2(e) == m
  }

  lemma {:induction false} BitAndSelf(a: nat)
    ensures BitAnd(a, a) == a
  {
    if a > 0 {
      BitAndSelf(a / 2);
    }
  }

  /** m & (m - 1) is zero exactly for the powers of two. */
  lemma {:induction false} PowerOfTwoTest(m: nat)
    requires m > 0
    ensures BitAnd(m, m - 1) == 0 <==> IsPowerOfTwo(m)
  {
    if m == 1 {
      assert Pow2(0) == 1;
    } else if m % 2 == 0 {
      PowerOfTwoTest(m / 2);
      assert BitAnd(m, m - 1) == 2 * BitAnd(m / 2, m / 2 - 1);
      if IsPowerOfTwo(m / 2) {
        var e: nat :| Pow2(e) == m / 2;
        assert Pow2(e + 1) == m;
      }
      if IsPowerOfTwo(m) {
        var e: nat :| Pow2(e) == m;
        assert Pow2(e - 1) == m / 2;
      }
    } else {
      BitAndSelf(m / 2);
      assert BitAnd(m, m - 1) == 2 * BitAnd(m / 2, m / 2);
      assert forall e: nat :: Pow2(e) != m;
    }
  }

  lemma PowerFitsLeft(m: nat, n: nat)
    requires IsPowerOfTwo(m) && m < n && n >= 2
    ensures m <= Split(n)
  {
    var e: nat :| Pow2(e) == m;
    var h := SplitIsPower(n);
    if e > h { Pow2Monotone(h + 1, e); } else { Pow2Monotone(e, h); }
  }

  /** A first tree that reaches into the right part splits where the second does. */
  lemma SplitOfPrefix(m: nat, n: nat)
    requires n >= 2 && Split(n) < m <= n
    ensures Split(m) == Split(n)
  {
    var h := SplitIsPower(n);
    SplitUnique(m, h);
  }

  // ------------------------------------------------- meaning of the verifier

  datatype Roots = Roots(first: Hash, second: Hash)

  function ConsistencyFold(node: (Hash, Hash) -> Hash): Fold<Roots> {
    Fold((sibling: Hash, roots: Roots) => Roots(node(sibling, roots.first), node(sibling, roots.second)),
         (roots: Roots, sibling: Hash) => Roots(roots.first, node(roots.second, sibling)))
  }

  /** The two roots a path determines; its first element is the shared subtree. */
  function FoldConsistency(node: (Hash, Hash) -> Hash, m: nat, n: nat, path: seq<Hash>): Option<Roots>
    requires 0 < m <= n
    decreases n
  {
    if m == n then
      if |path| == 1 then Some(Roots(path[0], path[0])) else None
    else if path == [] then None
    else
      var k := Split(n);
      var last := path[|path| - 1];
      var inner := path[..|path| - 1];
      if m <= k then AndRight(ConsistencyFold(node), FoldConsistency(node, m, k, inner), last)
      else AndLeft(ConsistencyFold(node), FoldConsistency(node, m - k, n - k, inner), last)
  }

  ghost function Seeded(firstSize: nat, firstRoot: Hash, path: seq<Hash>): seq<Hash> {
    if IsPowerOfTwo(firstSize) then [firstRoot] + path else path
  }

  /** What VerifyConsistency decides, said over the tree instead of over index bits. */
  ghost predicate AcceptsConsistency(empty: Hash, node: (Hash, Hash) -> Hash, firstRoot: Hash, secondRoot: Hash,
                                     proof: ConsistencyProof) {
    && proof.firstSize <= proof.secondSize <= MAX_SAFE_INTEGER
    && |proof.path| <= MAX_PROOF_NODES
    && if proof.firstSize == 0 then proof.path == [] && firstRoot == empty
       else if proof.firstSize == proof.secondSize then proof.path == [] && firstRoot == secondRoot
       else proof.path != [] &&
            FoldConsistency(node, proof.firstSize, proof.secondSize, Seeded(proof.firstSize, firstRoot, proof.path))
              == Some(Roots(firstRoot, secondRoot))
  }

  lemma {:induction false} SplitFromHalved(k: nat, n: nat)
    requires 0 < 2 * k < n
    ensures SplitFrom(2 * k, n) == 2 * SplitFrom(k, (n + 1) / 2)
    decreases n - k
  {
    if n > 4 * k { SplitFromHalved(2 * k, n); }
  }

  lemma SplitHalved(n: nat, half: nat)
    requires n > 2 && n <= 2 * half <= n + 1
    ensures Split(n) == 2 * Split(half)
  {
    SplitFromHalved(1, n);
  }

  lemma FoldUnfolds(node: (Hash, Hash) -> Hash, m: nat, n: nat, path: seq<Hash>)
    requires 0 < m < n && path != []
    ensures var k, last, inner := Split(n), path[|path| - 1], path[..|path| - 1];
            FoldConsistency(node, m, n, path) ==
            if m <= k then AndRight(ConsistencyFold(node), FoldConsistency(node, m, k, inner), last)
            else AndLeft(ConsistencyFold(node), FoldConsistency(node, m - k, n - k, inner), last)
  {
    hide SplitFrom, Split, ConsistencyFold, AndLeft, AndRight;
  }

  /** Dropping a trailing zero of the first size drops one level of both trees. */
  lemma {:induction false} HalveSizes(node: (Hash, Hash) -> Hash, a: nat, n: nat, half: nat, path: seq<Hash>)
    requires 0 < 2 * a <= n && n <= 2 * half <= n + 1
    ensures FoldConsistency(node, 2 * a, n, path) == FoldConsistency(node, a, half, path)
    decreases n
  {
    if 2 * a == n || path == [] {
      return;
    }
    hide FoldConsistency, SplitFrom, Split, ConsistencyFold, AndLeft, AndRight;
    SplitHalved(n, half);
    FoldUnfolds(node, 2 * a, n, path);
    FoldUnfolds(node, a, half, path);
    var k, inner := Split(half), path[..|path| - 1];
    if a <= k {
      HalveSizes(node, a, 2 * k, k, inner);
    } else {
      HalveSizes(node, a - k, n - 2 * k, half - k, inner);
    }
  }

  lemma SplitParity(n: nat)
    requires n >= 2
    ensures Split(n) == 1 || Split(n) % 2 == 0
  {
    var h := SplitIsPower(n);
  }

  /** For an odd first size the fold climbs from the last leaf of the first tree. */
  lemma {:induction false} OddSizeClimbs(node: (Hash, Hash) -> Hash, m: nat, n: nat, path: seq<Hash>)
    requires m % 2 == 1 && (m < n || n == m == 1) && path != []
    ensures FoldConsistency(node, m, n, path)
         == Climb(ConsistencyFold(node), m - 1, n, Roots(path[0], path[0]), path[1..])
    decreases n
  {
    if n > 1 && |path| > 1 {
      var k := Split(n);
      SplitParity(n);
      hide Pow2, SplitFrom, Split, ConsistencyFold;
      var inner, rest := path[..|path| - 1], path[1..];
      assert inner[1..] == rest[..|rest| - 1] && rest[|rest| - 1] == path[|path| - 1];
      if m <= k {
        OddSizeClimbs(node, m, k, inner);
      } else {
        OddSizeClimbs(node, m - k, n - k, inner);
      }
    }
  }

  /** Shifting a trailing one bit out of both indices. */
  lemma ShiftOdd(node: (Hash, Hash) -> Hash, fn: nat, sn: nat, path: seq<Hash>)
    requires fn % 2 == 1 && fn < sn
    ensures fn / 2 < sn / 2
    ensures FoldConsistency(node, fn + 1, sn + 1, path) == FoldConsistency(node, fn / 2 + 1, sn / 2 + 1, path)
  {
    hide FoldConsistency;
    HalveSizes(node, fn / 2 + 1, sn + 1, sn / 2 + 1, path);
  }

  /** From an even first index the fold is the bit walk. */
  lemma EvenIndexWalks(node: (Hash, Hash) -> Hash, fn: nat, sn: nat, path: seq<Hash>)
    requires fn % 2 == 0 && fn < sn && path != []
    ensures FoldConsistency(node, fn + 1, sn + 1, path) ==
            Walk(ConsistencyFold(node), fn, sn, Roots(path[0], path[0]), path[1..])
  {
    hide FoldConsistency, Walk, Climb;
    OddSizeClimbs(node, fn + 1, sn + 1, path);
    WalkIsClimb(ConsistencyFold(node), fn, sn + 1, Roots(path[0], path[0]), path[1..]);
  }

  method VerifyConsistency(empty: Hash, node: (Hash, Hash) -> Hash, firstRoot: Hash, secondRoot: Hash,
                           proof: ConsistencyProof) returns (ok: bool)
    ensures ok <==> AcceptsConsistency(empty, node, firstRoot, secondRoot, proof)
    ensures ok ==> proof.firstSize <= proof.secondSize < 9_007_199_254_740_992 && |proof.path| <= 54
  {
    hide FoldConsistency, Walk, Climb, Split, SplitFrom, ConsistencyFold, IsPowerOfTwo;
    if proof.firstSize > proof.secondSize || proof.secondSize > MAX_SAFE_INTEGER || |proof.path| > MAX_PROOF_NODES {
      return false;
    }
    if proof.firstSize == 0 {
      return |proof.path| == 0 && firstRoot == empty;
    }
    if proof.firstSize == proof.secondSize {
      return |proof.path| == 0 && firstRoot == secondRoot;
    }
    if |proof.path| == 0 {
      return false;
    }
    var path := proof.path;
    PowerOfTwoTest(proof.firstSize);
    if BitAnd(proof.firstSize, proof.firstSize - 1) == 0 {
      path := [firstRoot] + proof.path;
    }
    ghost var meaning := FoldConsistency(node, proof.firstSize, proof.secondSize, path);
    var fn: nat, sn: nat := proof.firstSize - 1, proof.secondSize - 1;
    while fn % 2 == 1
      invariant fn < sn
      invariant FoldConsistency(node, fn + 1, sn + 1, path) == meaning
      decreases fn
    {
      ShiftOdd(node, fn, sn, path);
      fn, sn := fn / 2, sn / 2;
    }
    EvenIndexWalks(node, fn, sn, path);
    var roots := FoldPath(node, fn, sn, path);
    return roots == Some(Roots(firstRoot, secondRoot));
  }

  /** The main loop of VerifyConsistency; None where it returns false early or ends with sn != 0. */
  method FoldPath(node: (Hash, Hash) -> Hash, fn0: nat, sn0: nat, path: seq<Hash>) returns (roots: Option<Roots>)
    requires path != []
    ensures roots == Walk(ConsistencyFold(node), fn0, sn0, Roots(path[0], path[0]), path[1..])
  {
    var fn: nat, sn: nat, first, second := fn0, sn0, path[0], path[0];
    ghost var fold := ConsistencyFold(node);
    for j := 1 to |path|
      invariant Walk(fold, fn, sn, Roots(first, second), path[j..]) ==
          Walk(fold, fn0, sn0, Roots(path[0], path[0]), path[1..])
    {
      assert path[j..][1..] == path[j + 1..];
      if sn == 0 {
        return None;
      }
      if fn % 2 == 1 || fn == sn {
        first := node(path[j], first);
        second := node(path[j], second);
        if fn % 2 == 0 {
          ghost var skipped := Skip(fn, sn);
          while fn != 0 && fn % 2 == 0
            invariant Skip(fn, sn) == skipped
            decreases fn
          {
            fn, sn := fn / 2, sn / 2;
          }
        }
      } else {
        second := node(second, path[j]);
      }
      fn, sn := fn / 2, sn / 2;
    }
    return if sn == 0 then Some(Roots(first, second)) else None;
  }

  method BuildConsistencyPath(empty: Hash, node: (Hash, Hash) -> Hash, leaves: seq<Hash>, firstSize: nat,
                              complete: bool, path: PathBuffer)
    requires 0 < firstSize <= |leaves|
    modifies path
    ensures path.nodes == old(path.nodes) + ConsistencyPath(empty, node, leaves, firstSize, complete)
    decreases |leaves|
  {
    if firstSize == |leaves| {
      if !complete {
        path.nodes := path.nodes + [MerkleRoot(empty, node, leaves)];
      }
      return;
    }
    var k := LargestPowerLessThan(|leaves|);
    if firstSize <= k {
      BuildConsistencyPath(empty, node, leaves[..k], firstSize, complete, path);
      path.nodes := path.nodes + [MerkleRoot(empty, node, leaves[k..])];
      return;
    }
    BuildConsistencyPath(empty, node, leaves[k..], firstSize - k, false, path);
    path.nodes := path.nodes + [MerkleRoot(empty, node, leaves[..k])];
  }

  /** Every proof handed out is one the verifier accepts for the two true roots. */
  method BuildConsistencyProof(empty: Hash, node: (Hash, Hash) -> Hash, leaves: seq<Hash>, firstSize: nat)
    returns (proof: Option<ConsistencyProof>)
    ensures proof.None? <==> |leaves| > MAX_SAFE_INTEGER || firstSize > |leaves|
    ensures proof.Some? ==>
              && proof.value.firstSize == firstSize && proof.value.secondSize == |leaves|
              && AcceptsConsistency(empty, node, MerkleRoot(empty, node, leaves[..firstSize]),
                                    MerkleRoot(empty, node, leaves), proof.value)
  {
    if |leaves| > MAX_SAFE_INTEGER || firstSize > |leaves| {
      return None;
    }
    ConsistencyComplete(empty, node, leaves, firstSize);
    if firstSize == 0 || firstSize == |leaves| {
      return Some(ConsistencyProof(firstSize, |leaves|, []));
    }
    var path := new PathBuffer();
    BuildConsistencyPath(empty, node, leaves, firstSize, true, path);
    assert path.nodes == BuiltPath(empty, node, leaves, firstSize);
    return Some(ConsistencyProof(firstSize, |leaves|, path.nodes));
  }

  // -------------------------------------------------------------- completeness

  ghost function BuiltPath(empty: Hash, node: (Hash, Hash) -> Hash, leaves: seq<Hash>, m: nat): seq<Hash>
    requires m <= |leaves|
  {
    if m == 0 || m == |leaves| then [] else ConsistencyPath(empty, node, leaves, m, true)
  }

  lemma {:induction false} ConsistencyPathLength(empty: Hash, node: (Hash, Hash) -> Hash, leaves: seq<Hash>, m: nat,
                                                 complete: bool, depth: nat)
    requires 0 < m <= |leaves| <= Pow2(depth)
    ensures |ConsistencyPath(empty, node, leaves, m, complete)| <= depth + 1
    decreases |leaves|
  {
    if m < |leaves| {
      var k := Split(|leaves|);
      SplitBelowDepth(|leaves|, depth);
      if m <= k {
        ConsistencyPathLength(empty, node, leaves[..k], m, complete, depth - 1);
      } else {
        ConsistencyPathLength(empty, node, leaves[k..], m - k, false, depth - 1);
      }
    }
  }

  /** One level of the fold, with the inner result known. */
  lemma FoldStep(node: (Hash, Hash) -> Hash, m: nat, n: nat, inner: seq<Hash>, last: Hash, below: Roots)
    requires 0 < m < n
    requires var k := Split(n);
             Some(below) ==
             if m <= k then FoldConsistency(node, m, k, inner) else FoldConsistency(node, m - k, n - k, inner)
    ensures FoldConsistency(node, m, n, inner + [last]) ==
            Some(if m <= Split(n) then Roots(below.first, node(below.second, last))
                 else Roots(node(last, below.first), node(last, below.second)))
  {
    hide SplitFrom, Split;
    var path := inner + [last];
    assert path[..|path| - 1] == inner;
  }

  lemma RootStep(empty: Hash, node: (Hash, Hash) -> Hash, leaves: seq<Hash>)
    requires |leaves| >= 2
    ensures var k := Split(|leaves|);
            MerkleRoot(empty, node, leaves) ==
            node(MerkleRoot(empty, node, leaves[..k]), MerkleRoot(empty, node, leaves[k..]))
  {
    hide SplitFrom, Split;
  }

  lemma PathStep(empty: Hash, node: (Hash, Hash) -> Hash, leaves: seq<Hash>, m: nat)
    requires 0 < m < |leaves|
    ensures var k := Split(|leaves|);
            ConsistencyPath(empty, node, leaves, m, false) ==
            if m <= k
            then ConsistencyPath(empty, node, leaves[..k], m, false) + [MerkleRoot(empty, node, leaves[k..])]
            else ConsistencyPath(empty, node, leaves[k..], m - k, false) + [MerkleRoot(empty, node, leaves[..k])]
  {
    hide Split, MerkleRoot;
  }

  lemma {:induction false} FoldOfBuiltPath(empty: Hash, node: (Hash, Hash) -> Hash, leaves: seq<Hash>, m: nat)
    requires 0 < m <= |leaves|
    ensures FoldConsistency(node, m, |leaves|, ConsistencyPath(empty, node, leaves, m, false))
         == Some(Roots(MerkleRoot(empty, node, leaves[..m]), MerkleRoot(empty, node, leaves)))
    decreases |leaves|
  {
    if m == |leaves| {
      assert leaves[..m] == leaves;
      return;
    }
    hide SplitFrom, Split, FoldConsistency, MerkleRoot, TreePairs, ConsistencyPath;
    var k, n := Split(|leaves|), |leaves|;
    RootStep(empty, node, leaves);
    PathStep(empty, node, leaves, m);
    if m <= k {
      FoldOfBuiltPath(empty, node, leaves[..k], m);
      assert leaves[..k][..m] == leaves[..m];
      FoldStep(node, m, n, ConsistencyPath(empty, node, leaves[..k], m, false), MerkleRoot(empty, node, leaves[k..]),
               Roots(MerkleRoot(empty, node, leaves[..m]), MerkleRoot(empty, node, leaves[..k])));
    } else {
      FoldOfBuiltPath(empty, node, leaves[k..], m - k);
      TreeOfPrefix(empty, node, leaves, m, k);
      FoldStep(node, m, n, ConsistencyPath(empty, node, leaves[k..], m - k, false),
               MerkleRoot(empty, node, leaves[..k]),
               Roots(MerkleRoot(empty, node, leaves[k..][..m - k]), MerkleRoot(empty, node, leaves[k..])));
    }
  }

  /** Leaving out the shared subtree when it is the whole first tree is what Seeded puts back. */
  lemma {:induction false} SeededPath(empty: Hash, node: (Hash, Hash) -> Hash, leaves: seq<Hash>, m: nat)
    requires 0 < m <= |leaves| && (m < |leaves| || IsPowerOfTwo(m))
    ensures Seeded(m, MerkleRoot(empty, node, leaves[..m]), ConsistencyPath(empty, node, leaves, m, true))
         == ConsistencyPath(empty, node, leaves, m, false)
    decreases |leaves|
  {
    if m == |leaves| {
      assert leaves[..m] == leaves;
      return;
    }
    var k := Split(|leaves|);
    if IsPowerOfTwo(m) { PowerFitsLeft(m, |leaves|); }
    var h := SplitIsPower(|leaves|);
    if m <= k {
      SeededPath(empty, node, leaves[..k], m);
      assert leaves[..k][..m] == leaves[..m];
    }
  }

  /** Completeness within the node limit, for every pair of sizes. */
  lemma ConsistencyComplete(empty: Hash, node: (Hash, Hash) -> Hash, leaves: seq<Hash>, m: nat)
    requires m <= |leaves| <= MAX_SAFE_INTEGER
    ensures AcceptsConsistency(empty, node, MerkleRoot(empty, node, leaves[..m]), MerkleRoot(empty, node, leaves),
                               ConsistencyProof(m, |leaves|, BuiltPath(empty, node, leaves, m)))
  {
    if m == |leaves| {
      assert leaves[..m] == leaves;
    } else if m > 0 {
      SafeSequenceFitsInDepth53();
      ConsistencyPathLength(empty, node, leaves, m, true, 53);
      FoldOfBuiltPath(empty, node, leaves, m);
      SeededPath(empty, node, leaves, m);
    }
  }

  // ----------------------------------------------------------------- soundness

  /** The node preimages hashed while folding a consistency path. */
  function FoldPairs(node: (Hash, Hash) -> Hash, m: nat, n: nat, path: seq<Hash>): set<(Hash, Hash)>
    requires 0 < m <= n
    decreases n
  {
    if m == n || path == [] then {}
    else
      var k := Split(n);
      var last := path[|path| - 1];
      var inner := path[..|path| - 1];
      if m <= k then
        var below := FoldConsistency(node, m, k, inner);
        FoldPairs(node, m, k, inner) + if below.Some? then {(below.value.second, last)} else {}
      else
        var below := FoldConsistency(node, m - k, n - k, inner);
        FoldPairs(node, m - k, n - k, inner) +
        if below.Some? then {(last, below.value.first), (last, below.value.second)} else {}
  }

  /** Lists of equal length with equal roots are equal, or two of their nodes collide. */
  lemma {:induction false} RootDeterminesLeaves(empty: Hash, node: (Hash, Hash) -> Hash, a: seq<Hash>, b: seq<Hash>,
                                                all: set<(Hash, Hash)>)
    requires |a| == |b| && MerkleRoot(empty, node, a) == MerkleRoot(empty, node, b)
    requires TreePairs(empty, node, a) + TreePairs(empty, node, b) <= all
    ensures a == b || Collision(node, all)
    decreases |a|
  {
    hide TreePairs, MerkleRoot, Split;
    if |a| == 1 {
      TreeOfOne(empty, node, a[0]);
      TreeOfOne(empty, node, b[0]);
      assert a == [a[0]] && b == [b[0]];
    } else if |a| >= 2 && !Collision(node, all) {
      var k := Split(|a|);
      TreeAtSplit(empty, node, a, k);
      TreeAtSplit(empty, node, b, k);
      var p := (MerkleRoot(empty, node, a[..k]), MerkleRoot(empty, node, a[k..]));
      var q := (MerkleRoot(empty, node, b[..k]), MerkleRoot(empty, node, b[k..]));
      assert p in all && q in all && node(p.0, p.1) == node(q.0, q.1);
      RootDeterminesLeaves(empty, node, a[..k], b[..k], all);
      RootDeterminesLeaves(empty, node, a[k..], b[k..], all);
      assert a == a[..k] + a[k..] && b == b[..k] + b[k..];
    }
  }

  lemma TreeOfOne(empty: Hash, node: (Hash, Hash) -> Hash, leaf: Hash)
    ensures MerkleRoot(empty, node, [leaf]) == leaf
  {}

  /** One split of a tree: its root and the preimages hashed for it. */
  lemma TreeAtSplit(empty: Hash, node: (Hash, Hash) -> Hash, leaves: seq<Hash>, k: nat)
    requires |leaves| >= 2 && k == Split(|leaves|)
    ensures var left, right := MerkleRoot(empty, node, leaves[..k]), MerkleRoot(empty, node, leaves[k..]);
            && MerkleRoot(empty, node, leaves) == node(left, right)
            && (left, right) in TreePairs(empty, node, leaves)
    ensures TreePairs(empty, node, leaves[..k]) + TreePairs(empty, node, leaves[k..]) <= TreePairs(empty, node, leaves)
  {}

  lemma FoldAtLeft(node: (Hash, Hash) -> Hash, m: nat, n: nat, k: nat, path: seq<Hash>) returns (below: Roots)
    requires 0 < m < n && m <= k == Split(n) && FoldConsistency(node, m, n, path).Some?
    ensures path != [] && FoldConsistency(node, m, k, path[..|path| - 1]) == Some(below)
    ensures FoldConsistency(node, m, n, path).value == Roots(below.first, node(below.second, path[|path| - 1]))
    ensures FoldPairs(node, m, n, path) == FoldPairs(node, m, k, path[..|path| - 1])
              + {(below.second, path[|path| - 1])}
  {
    below := FoldConsistency(node, m, k, path[..|path| - 1]).value;
  }

  lemma FoldAtRight(node: (Hash, Hash) -> Hash, m: nat, n: nat, k: nat, path: seq<Hash>) returns (below: Roots)
    requires 0 < m < n && m > k == Split(n) && FoldConsistency(node, m, n, path).Some?
    ensures path != [] && FoldConsistency(node, m - k, n - k, path[..|path| - 1]) == Some(below)
    ensures var last := path[|path| - 1];
            && FoldConsistency(node, m, n, path).value == Roots(node(last, below.first), node(last, below.second))
            && FoldPairs(node, m, n, path) ==
               FoldPairs(node, m - k, n - k, path[..|path| - 1]) + {(last, below.first), (last, below.second)}
  {
    below := FoldConsistency(node, m - k, n - k, path[..|path| - 1]).value;
  }

  /** Folding a path to the root of a list gives the root of the list's prefix, along the built path. */
  ghost predicate FoldsAsBuilt(empty: Hash, node: (Hash, Hash) -> Hash, x: Hash, b: seq<Hash>, m: nat,
                               path: seq<Hash>, all: set<(Hash, Hash)>)
    requires 0 < m <= |b|
  {
    && x == MerkleRoot(empty, node, b[..m]) && path == ConsistencyPath(empty, node, b, m, false)
    && TreePairs(empty, node, b[..m]) <= all
  }

  lemma {:induction false} FoldSound(empty: Hash, node: (Hash, Hash) -> Hash, x: Hash, b: seq<Hash>, m: nat,
                                     path: seq<Hash>, all: set<(Hash, Hash)>)
    requires 0 < m <= |b|
    requires FoldConsistency(node, m, |b|, path) == Some(Roots(x, MerkleRoot(empty, node, b)))
    requires TreePairs(empty, node, b) + FoldPairs(node, m, |b|, path) <= all
    ensures FoldsAsBuilt(empty, node, x, b, m, path, all) || Collision(node, all)
    decreases |b|
  {
    if Collision(node, all) {
      return;
    }
    if m == |b| {
      assert b[..m] == b && path == [x];
    } else if m <= Split(|b|) {
      FoldSoundLeft(empty, node, x, b, m, path, all);
    } else {
      FoldSoundRight(empty, node, x, b, m, path, all);
    }
  }

  /** A sibling right of the first tree is the root of the second list's right part. */
  lemma {:induction false} FoldSoundLeft(empty: Hash, node: (Hash, Hash) -> Hash, x: Hash, b: seq<Hash>, m: nat,
                                         path: seq<Hash>, all: set<(Hash, Hash)>)
    requires 0 < m < |b| && m <= Split(|b|)
    requires FoldConsistency(node, m, |b|, path) == Some(Roots(x, MerkleRoot(empty, node, b)))
    requires TreePairs(empty, node, b) + FoldPairs(node, m, |b|, path) <= all
    requires !Collision(node, all)
    ensures FoldsAsBuilt(empty, node, x, b, m, path, all)
    decreases |b|, 0
  {
    hide FoldConsistency, FoldPairs, TreePairs, MerkleRoot, Split;
    var k := Split(|b|);
    TreeAtSplit(empty, node, b, k);
    var below := FoldAtLeft(node, m, |b|, k, path);
    var inner, last := path[..|path| - 1], path[|path| - 1];
    var q := (MerkleRoot(empty, node, b[..k]), MerkleRoot(empty, node, b[k..]));
    assert q in all && (below.second, last) in all && node(q.0, q.1) == node(below.second, last);
    FoldSound(empty, node, x, b[..k], m, inner, all);
    assert b[..k][..m] == b[..m] && path == inner + [last];
  }

  /** A sibling left of the first tree's end is the root of the second list's left part. */
  lemma {:induction false} FoldSoundRight(empty: Hash, node: (Hash, Hash) -> Hash, x: Hash, b: seq<Hash>, m: nat,
                                          path: seq<Hash>, all: set<(Hash, Hash)>)
    requires |b| >= 2 && Split(|b|) < m < |b|
    requires FoldConsistency(node, m, |b|, path) == Some(Roots(x, MerkleRoot(empty, node, b)))
    requires TreePairs(empty, node, b) + FoldPairs(node, m, |b|, path) <= all
    requires !Collision(node, all)
    ensures FoldsAsBuilt(empty, node, x, b, m, path, all)
    decreases |b|, 0
  {
    hide FoldConsistency, FoldPairs, TreePairs, MerkleRoot, Split;
    var k := Split(|b|);
    SplitOfPrefix(m, |b|);
    TreeAtSplit(empty, node, b, k);
    var below := FoldAtRight(node, m, |b|, k, path);
    var inner, last := path[..|path| - 1], path[|path| - 1];
    var q := (MerkleRoot(empty, node, b[..k]), MerkleRoot(empty, node, b[k..]));
    assert q in all && (last, below.second) in all && node(q.0, q.1) == node(last, below.second);
    FoldSound(empty, node, below.first, b[k..], m - k, inner, all);
    assert b[..m][..k] == b[..k] && b[..m][k..] == b[k..][..m - k] && path == inner + [last];
    TreeOfPrefix(empty, node, b, m, k);
  }

  /** The preimages of a prefix that reaches into the right part. */
  lemma TreeOfPrefix(empty: Hash, node: (Hash, Hash) -> Hash, b: seq<Hash>, m: nat, k: nat)
    requires |b| >= 2 && k == Split(|b|) < m < |b|
    ensures var left, right := MerkleRoot(empty, node, b[..k]), MerkleRoot(empty, node, b[k..][..m - k]);
            && MerkleRoot(empty, node, b[..m]) == node(left, right)
            && TreePairs(empty, node, b[..m]) ==
               TreePairs(empty, node, b[..k]) + TreePairs(empty, node, b[k..][..m - k]) + {(left, right)}
  {
    SplitOfPrefix(m, |b|);
    hide Split;
    assert b[..m][..k] == b[..k] && b[..m][k..] == b[k..][..m - k];
  }

  /** The preimages at hand when a consistency proof for a first root is checked against a list. */
  ghost function ConsistencyPairs(empty: Hash, node: (Hash, Hash) -> Hash, x: Hash, b: seq<Hash>,
                                  proof: ConsistencyProof): set<(Hash, Hash)> {
    TreePairs(empty, node, b) +
    if 0 < proof.firstSize < |b|
    then FoldPairs(node, proof.firstSize, |b|, Seeded(proof.firstSize, x, proof.path)) else {}
  }

  /** Whatever first root is accepted against the root of a list is the root of the list's prefix, and the path
      is the built one, or two hashed preimages collide. */
  lemma FirstRootSound(empty: Hash, node: (Hash, Hash) -> Hash, x: Hash, b: seq<Hash>, proof: ConsistencyProof)
    requires proof.secondSize == |b| && AcceptsConsistency(empty, node, x, MerkleRoot(empty, node, b), proof)
    ensures var m, all := proof.firstSize, ConsistencyPairs(empty, node, x, b, proof);
            || (x == MerkleRoot(empty, node, b[..m]) && proof.path == BuiltPath(empty, node, b, m)
                && TreePairs(empty, node, b[..m]) <= all)
            || Collision(node, all)
  {
    var m, all := proof.firstSize, ConsistencyPairs(empty, node, x, b, proof);
    if m == |b| {
      assert b[..m] == b;
    } else if m > 0 {
      var built := ConsistencyPath(empty, node, b, m, true);
      FoldSound(empty, node, x, b, m, Seeded(m, x, proof.path), all);
      SeededPath(empty, node, b, m);
      assert ([x] + proof.path)[1..] == proof.path && ([x] + built)[1..] == built;
    }
  }

  /** If the verifier accepts the roots of two lists, the first list is a prefix of the
      second and the path is the built one, or two hashed preimages collide. */
  lemma ConsistencySound(empty: Hash, node: (Hash, Hash) -> Hash, a: seq<Hash>, b: seq<Hash>, proof: ConsistencyProof)
    requires proof.firstSize == |a| && proof.secondSize == |b|
    requires AcceptsConsistency(empty, node, MerkleRoot(empty, node, a), MerkleRoot(empty, node, b), proof)
    ensures || (a == b[..|a|] && proof.path == BuiltPath(empty, node, b, |a|))
            || Collision(node, TreePairs(empty, node, a)
                         + ConsistencyPairs(empty, node, MerkleRoot(empty, node, a), b, proof))
  {
    var root := MerkleRoot(empty, node, a);
    var pairs := ConsistencyPairs(empty, node, root, b, proof);
    var all := TreePairs(empty, node, a) + pairs;
    FirstRootSound(empty, node, root, b, proof);
    if Collision(node, pairs) {
      CollisionGrows(node, pairs, all);
    } else {
      RootDeterminesLeaves(empty, node, a, b[..|a|], all);
    }
  }
}
