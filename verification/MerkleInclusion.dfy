/**
 BuildInclusionProof and VerifyInclusion of internal/relay/audit/merkle.go,
 with completeness, soundness and uniqueness of inclusion proofs.
 */
module MerkleInclusion {
  import opened Interop
  import opened Options
  import opened Merkle

  const MAX_PROOF_NODES: nat := 54

  datatype InclusionProof = InclusionProof(leafIndex: nat, treeSize: nat, path: seq<Hash>)

  /** The slice the recursive builders append to through a pointer. */
  class PathBuffer {
    var nodes: seq<Hash>
    constructor ()
      ensures nodes == []
    {
      nodes := [];
    }
  }

  function InclusionFold(node: (Hash, Hash) -> Hash): Fold<Hash> {
    Fold((sibling: Hash, running: Hash) => node(sibling, running),
         (running: Hash, sibling: Hash) => node(running, sibling))
  }

  /** What VerifyInclusion decides, said over the tree instead of over index bits. */
  ghost predicate AcceptsInclusion(node: (Hash, Hash) -> Hash, leaf: Hash, root: Hash, proof: InclusionProof) {
    && 0 < proof.treeSize <= MAX_SAFE_INTEGER
    && proof.leafIndex < proof.treeSize
    && |proof.path| <= MAX_PROOF_NODES
    && Climb(InclusionFold(node), proof.leafIndex, proof.treeSize, leaf, proof.path) == Some(root)
  }

  method VerifyInclusion(node: (Hash, Hash) -> Hash, leaf: Hash, root: Hash, proof: InclusionProof) returns (ok: bool)
    ensures ok <==> AcceptsInclusion(node, leaf, root, proof)
    ensures ok ==> proof.leafIndex < proof.treeSize < 9_007_199_254_740_992 && |proof.path| <= 54
  {
    if proof.treeSize == 0 || proof.treeSize > MAX_SAFE_INTEGER || proof.leafIndex >= proof.treeSize
        || |proof.path| > MAX_PROOF_NODES {
      return false;
    }
    var fn: nat, sn: nat, result := proof.leafIndex, proof.treeSize - 1, leaf;
    ghost var fold := InclusionFold(node);
    WalkIsClimb(fold, fn, proof.treeSize, leaf, proof.path);
    for j := 0 to |proof.path|
      invariant Walk(fold, fn, sn, result, proof.path[j..]) ==
          Climb(fold, proof.leafIndex, proof.treeSize, leaf, proof.path)
    {
      assert proof.path[j..][1..] == proof.path[j + 1..];
      var sibling := proof.path[j];
      if sn == 0 {
        return false;
      }
      if fn % 2 == 1 || fn == sn {
        result := node(sibling, result);
        if fn % 2 == 0 {
          ghost var skipped := Skip(fn, sn);
          while fn != 0 && fn % 2 == 0
            invariant Skip(fn, sn) == skipped
            decreases fn
          {
            fn, sn := fn / 2, sn / 2;
          }
        }
      } else {
        result := node(result, sibling);
      }
      fn, sn := fn / 2, sn / 2;
    }
    return sn == 0 && result == root;
  }

  method BuildInclusionPath(empty: Hash, node: (Hash, Hash) -> Hash, leaves: seq<Hash>, index: nat, path: PathBuffer)
    requires index < |leaves|
    modifies path
    ensures path.nodes == old(path.nodes) + InclusionPath(empty, node, leaves, index)
    decreases |leaves|
  {
    if |leaves| == 1 {
      return;
    }
    var k := LargestPowerLessThan(|leaves|);
    if index < k {
      BuildInclusionPath(empty, node, leaves[..k], index, path);
      path.nodes := path.nodes + [MerkleRoot(empty, node, leaves[k..])];
      return;
    }
    BuildInclusionPath(empty, node, leaves[k..], index - k, path);
    path.nodes := path.nodes + [MerkleRoot(empty, node, leaves[..k])];
  }

  /** Every proof handed out is one the verifier accepts for the true leaf and root. */
  method BuildInclusionProof(empty: Hash, node: (Hash, Hash) -> Hash, leaves: seq<Hash>, leafIndex: nat)
    returns (proof: Option<InclusionProof>)
    ensures proof.None? <==> |leaves| > MAX_SAFE_INTEGER || leafIndex >= |leaves|
    ensures proof.Some? ==>
              && proof.value.leafIndex == leafIndex && proof.value.treeSize == |leaves|
              && proof.value.path == InclusionPath(empty, node, leaves, leafIndex)
              && AcceptsInclusion(node, leaves[leafIndex], MerkleRoot(empty, node, leaves), proof.value)
  {
    if |leaves| == 0 || |leaves| > MAX_SAFE_INTEGER || leafIndex >= |leaves| {
      return None;
    }
    var path := new PathBuffer();
    BuildInclusionPath(empty, node, leaves, leafIndex, path);
    InclusionComplete(empty, node, leaves, leafIndex);
    return Some(InclusionProof(leafIndex, |leaves|, path.nodes));
  }

  // -------------------------------------------------------------- completeness

  lemma SplitBelowDepth(n: nat, depth: nat)
    requires 2 <= n <= Pow2(depth)
    ensures depth > 0 && Split(n) <= Pow2(depth - 1)
  {
    var h := SplitIsPower(n);
    if h >= depth { Pow2Monotone(depth, h); } else { Pow2Monotone(h, depth - 1); }
  }

  lemma {:induction false} InclusionPathLength(empty: Hash, node: (Hash, Hash) -> Hash, leaves: seq<Hash>, index: nat,
                                               depth: nat)
    requires index < |leaves| <= Pow2(depth)
    ensures |InclusionPath(empty, node, leaves, index)| <= depth
    decreases |leaves|
  {
    if |leaves| > 1 {
      var k := Split(|leaves|);
      SplitBelowDepth(|leaves|, depth);
      if index < k {
        InclusionPathLength(empty, node, leaves[..k], index, depth - 1);
      } else {
        InclusionPathLength(empty, node, leaves[k..], index - k, depth - 1);
      }
    }
  }

  lemma {:induction false} ClimbOfBuiltPath(empty: Hash, node: (Hash, Hash) -> Hash, leaves: seq<Hash>, index: nat)
    requires index < |leaves|
    ensures Climb(InclusionFold(node), index, |leaves|, leaves[index], InclusionPath(empty, node, leaves, index))
         == Some(MerkleRoot(empty, node, leaves))
    decreases |leaves|
  {
    if |leaves| > 1 {
      var k := Split(|leaves|);
      var path := InclusionPath(empty, node, leaves, index);
      if index < k {
        ClimbOfBuiltPath(empty, node, leaves[..k], index);
        assert path[..|path| - 1] == InclusionPath(empty, node, leaves[..k], index);
      } else {
        ClimbOfBuiltPath(empty, node, leaves[k..], index - k);
        assert path[..|path| - 1] == InclusionPath(empty, node, leaves[k..], index - k);
      }
    }
  }

  lemma SafeSequenceFitsInDepth53()
    ensures Pow2(53) == MAX_SAFE_INTEGER + 1
  {
    assert Pow2(10) == 1024;
    assert Pow2(20) == 1024 * Pow2(10);
    assert Pow2(30) == 1024 * Pow2(20);
    assert Pow2(40) == 1024 * Pow2(30);
    assert Pow2(50) == 1024 * Pow2(40);
    assert Pow2(53) == 8 * Pow2(50);
  }

  /** Completeness within the node limit, for every tree size and index. */
  lemma InclusionComplete(empty: Hash, node: (Hash, Hash) -> Hash, leaves: seq<Hash>, index: nat)
    requires index < |leaves| <= MAX_SAFE_INTEGER
    ensures AcceptsInclusion(node, leaves[index], MerkleRoot(empty, node, leaves),
                             InclusionProof(index, |leaves|, InclusionPath(empty, node, leaves, index)))
  {
    SafeSequenceFitsInDepth53();
    InclusionPathLength(empty, node, leaves, index, 53);
    ClimbOfBuiltPath(empty, node, leaves, index);
  }

  // ----------------------------------------------------------------- soundness

  /** The node preimages hashed while computing the root of a list. */
  function TreePairs(empty: Hash, node: (Hash, Hash) -> Hash, leaves: seq<Hash>): set<(Hash, Hash)>
    decreases |leaves|
  {
    if |leaves| < 2 then {}
    else
      var k := Split(|leaves|);
      TreePairs(empty, node, leaves[..k]) + TreePairs(empty, node, leaves[k..]) +
      {(MerkleRoot(empty, node, leaves[..k]), MerkleRoot(empty, node, leaves[k..]))}
  }

  /** The node preimages hashed while folding an inclusion path. */
  function InclusionPairs(node: (Hash, Hash) -> Hash, i: nat, n: nat, leaf: Hash, path: seq<Hash>): set<(Hash, Hash)>
    requires i < n
    decreases n
  {
    if n == 1 || path == [] then {}
    else
      var k := Split(n);
      var last := path[|path| - 1];
      var inner := path[..|path| - 1];
      if i < k then
        var below := Climb(InclusionFold(node), i, k, leaf, inner);
        InclusionPairs(node, i, k, leaf, inner) + if below.Some? then {(below.value, last)} else {}
      else
        var below := Climb(InclusionFold(node), i - k, n - k, leaf, inner);
        InclusionPairs(node, i - k, n - k, leaf, inner) + if below.Some? then {(last, below.value)} else {}
  }

  /** Two different node preimages of the given finite set with the same hash. */
  ghost predicate Collision(node: (Hash, Hash) -> Hash, pairs: set<(Hash, Hash)>) {
    exists p, q :: p in pairs && q in pairs && p != q && node(p.0, p.1) == node(q.0, q.1)
  }

  lemma CollisionGrows(node: (Hash, Hash) -> Hash, small: set<(Hash, Hash)>, large: set<(Hash, Hash)>)
    requires small <= large && Collision(node, small)
    ensures Collision(node, large)
  {
    var p, q :| p in small && q in small && p != q && node(p.0, p.1) == node(q.0, q.1);
    assert p in large && q in large;
  }

  /** Soundness and uniqueness, or a collision among the preimages actually hashed. */
  lemma {:induction false} ClimbSound(empty: Hash, node: (Hash, Hash) -> Hash, leaves: seq<Hash>, i: nat, leaf: Hash,
                                      path: seq<Hash>)
    requires i < |leaves|
    requires Climb(InclusionFold(node), i, |leaves|, leaf, path) == Some(MerkleRoot(empty, node, leaves))
    ensures || (leaf == leaves[i] && path == InclusionPath(empty, node, leaves, i))
            || Collision(node, TreePairs(empty, node, leaves) + InclusionPairs(node, i, |leaves|, leaf, path))
    decreases |leaves|, 0
  {
    hide SplitFrom, Split;
    if |leaves| == 1 {
      return;
    }
    var n, fold := |leaves|, InclusionFold(node);
    var k := Split(n);
    var last, inner := path[|path| - 1], path[..|path| - 1];
    assert path == inner + [last];
    var all := TreePairs(empty, node, leaves) + InclusionPairs(node, i, n, leaf, path);
    var lr := (MerkleRoot(empty, node, leaves[..k]), MerkleRoot(empty, node, leaves[k..]));
    assert lr in all && node(lr.0, lr.1) == MerkleRoot(empty, node, leaves);
    if i < k {
      var below := Climb(fold, i, k, leaf, inner).value;
      assert (below, last) in all && node(below, last) == node(lr.0, lr.1);
      if (below, last) == lr {
        ClimbSoundBelow(empty, node, leaves[..k], i, leaf, inner, all);
      }
    } else {
      var below := Climb(fold, i - k, n - k, leaf, inner).value;
      assert (last, below) in all && node(last, below) == node(lr.0, lr.1);
      if (last, below) == lr {
        ClimbSoundBelow(empty, node, leaves[k..], i - k, leaf, inner, all);
      }
    }
  }

  /** The induction step of ClimbSound: the collision of a subtree is one of the tree. */
  lemma {:induction false} ClimbSoundBelow(empty: Hash, node: (Hash, Hash) -> Hash, leaves: seq<Hash>, i: nat,
                                           leaf: Hash, path: seq<Hash>, all: set<(Hash, Hash)>)
    requires i < |leaves|
    requires Climb(InclusionFold(node), i, |leaves|, leaf, path) == Some(MerkleRoot(empty, node, leaves))
    requires TreePairs(empty, node, leaves) + InclusionPairs(node, i, |leaves|, leaf, path) <= all
    ensures (leaf == leaves[i] && path == InclusionPath(empty, node, leaves, i)) || Collision(node, all)
    decreases |leaves|, 1
  {
    ClimbSound(empty, node, leaves, i, leaf, path);
    var sub := TreePairs(empty, node, leaves) + InclusionPairs(node, i, |leaves|, leaf, path);
    if Collision(node, sub) { CollisionGrows(node, sub, all); }
  }

  /** If the verifier accepts against the true root, leaf and path are the true ones. */
  lemma InclusionSound(empty: Hash, node: (Hash, Hash) -> Hash, leaves: seq<Hash>, leaf: Hash, proof: InclusionProof)
    requires proof.treeSize == |leaves|
    requires AcceptsInclusion(node, leaf, MerkleRoot(empty, node, leaves), proof)
    ensures || (leaf == leaves[proof.leafIndex] && proof.path == InclusionPath(empty, node, leaves, proof.leafIndex))
            || Collision(node, TreePairs(empty, node, leaves) +
                               InclusionPairs(node, proof.leafIndex, proof.treeSize, leaf, proof.path))
  {
    ClimbSound(empty, node, leaves, proof.leafIndex, leaf, proof.path);
  }
}
