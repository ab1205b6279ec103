/**
 RFC 6962 Merkle logs over a free term algebra of hashes.

 A hash is a term: two hashes are equal only when they were built the same way, which is what
 collision resistance gives the source. Roots come from an untrusted party, so a root need not be
 the hash of any tree; `LeafAt` says what a root commits to at one position, whatever the root is.
 */
module MerkleLog {
  import opened Common

  datatype Hash<L> =
    | Malformed(text: string)              // a string that is not a canonical SHA-256 digest
    | Opaque(preimage: seq<int>)           // a digest that was not built by this module
    | Empty                                // the root of the empty tree
    | Leaf(leaf: L)
    | Node(left: Hash<L>, right: Hash<L>)

  datatype Checkpoint<L> = Checkpoint(size: Uint64, root: Hash<L>)

  predicate ValidCheckpoint<L(==)>(c: Checkpoint<L>) {
    !c.root.Malformed? && (c.size == 0 ==> c.root == Empty)
  }

  predicate DecodesAll<L(==)>(path: seq<Hash<L>>) {
    forall i | 0 <= i < |path| :: !path[i].Malformed?
  }

  /** The largest power of two smaller than `n` (section 2.1 of RFC 6962). */
  function Split(n: nat): (k: nat)
    requires 2 <= n
    ensures 1 <= k < n <= 2 * k
  {
    if n == 2 then 1 else 2 * Split((n + 1) / 2)
  }

  /** A smaller tree that still reaches past the split point splits at the same place. */
  lemma {:induction false} SplitStable(m: nat, n: nat)
    requires 2 <= n && Split(n) < m <= n
    ensures 2 <= m && Split(m) == Split(n)
  {
    if n > 2 {
      SplitStable((m + 1) / 2, (n + 1) / 2);
    }
  }

  // ---------------------------------------------------------------- trees and what a root commits to

  /** Merkle Tree Hash (section 2.1 of RFC 6962). */
  function TreeHash<L>(leaves: seq<L>): (root: Hash<L>)
  {
    if |leaves| == 0 then Empty
    else if |leaves| == 1 then Leaf(leaves[0])
    else
      var k := Split(|leaves|);
      Node(TreeHash(leaves[..k]), TreeHash(leaves[k..]))
  }

  /** The hash that `root`, read as a tree of `n` leaves, commits to at position `i`. */
  function LeafAt<L>(root: Hash<L>, i: nat, n: nat): (h: Option<Hash<L>>)
    requires i < n
    decreases n
  {
    if n == 1 then Some(root)
    else if !root.Node? then None
    else
      var k := Split(n);
      if i < k then LeafAt(root.left, i, k) else LeafAt(root.right, i - k, n - k)
  }

  lemma {:induction false} LeafAtTree<L>(leaves: seq<L>, i: nat)
    requires i < |leaves|
    ensures LeafAt(TreeHash(leaves), i, |leaves|) == Some(Leaf(leaves[i]))
    decreases |leaves|
  {
    if |leaves| > 1 {
      var k := Split(|leaves|);
      if i < k {
        LeafAtTree(leaves[..k], i);
      } else {
        LeafAtTree(leaves[k..], i - k);
      }
    }
  }

  /** `root` commits to exactly `leaves`. */
  ghost predicate Opens<L(!new)>(root: Hash<L>, leaves: seq<L>) {
    forall i | 0 <= i < |leaves| :: LeafAt(root, i, |leaves|) == Some(Leaf(leaves[i]))
  }

  /** A root that commits to every leaf of a non-empty sequence is that sequence's tree hash. */
  lemma {:induction false} OpensIsTree<L(!new)>(root: Hash<L>, leaves: seq<L>)
    requires |leaves| > 0 && Opens(root, leaves)
    ensures root == TreeHash(leaves)
    decreases |leaves|
  {
    var n := |leaves|;
    assert LeafAt(root, 0, n) == Some(Leaf(leaves[0]));
    if n > 1 {
      var k := Split(n);
      assert root.Node?;
      forall i | 0 <= i < k
        ensures LeafAt(root.left, i, k) == Some(Leaf(leaves[..k][i]))
      {
        assert LeafAt(root, i, n) == Some(Leaf(leaves[i]));
      }
      OpensIsTree(root.left, leaves[..k]);
      forall i | 0 <= i < n - k
        ensures LeafAt(root.right, i, n - k) == Some(Leaf(leaves[k..][i]))
      {
        assert LeafAt(root, i + k, n) == Some(Leaf(leaves[i + k]));
      }
      OpensIsTree(root.right, leaves[k..]);
    }
  }

  /** Equal tree hashes of equally many leaves come from equal leaves. */
  lemma TreeHashInjective<L(!new)>(a: seq<L>, b: seq<L>)
    requires |a| == |b| && TreeHash(a) == TreeHash(b)
    ensures a == b
  {
    forall i | 0 <= i < |a|
      ensures a[i] == b[i]
    {
      LeafAtTree(a, i);
      LeafAtTree(b, i);
    }
  }

  // ---------------------------------------------------------------- inclusion

  /** Folds an audit path (section 2.1.1 of RFC 6962; the sibling nearest the root is last). */
  function RootFromPath<L>(leaf: Hash<L>, i: nat, n: nat, path: seq<Hash<L>>): (root: Option<Hash<L>>)
    requires i < n
    decreases n
  {
    if n == 1 then (if path == [] then Some(leaf) else None)
    else if path == [] then None
    else
      var k := Split(n);
      var rest, sibling := path[..|path| - 1], path[|path| - 1];
      if i < k then
        match RootFromPath(leaf, i, k, rest)
        case None => None
        case Some(below) => Some(Node(below, sibling))
      else
        match RootFromPath(leaf, i - k, n - k, rest)
        case None => None
        case Some(below) => Some(Node(sibling, below))
  }

  predicate VerifyInclusion<L(==)>(i: nat, n: nat, leaf: Hash<L>, path: seq<Hash<L>>, root: Hash<L>) {
    i < n && DecodesAll(path) && RootFromPath(leaf, i, n, path) == Some(root)
  }

  /** The audit path that a root itself prescribes for one position. */
  function PathIn<L>(root: Hash<L>, i: nat, n: nat): (path: seq<Hash<L>>)
    requires i < n
    decreases n
  {
    if n == 1 || !root.Node? then []
    else
      var k := Split(n);
      if i < k then PathIn(root.left, i, k) + [root.right]
      else PathIn(root.right, i - k, n - k) + [root.left]
  }

  /** An audit path folds to `root` exactly when `root` commits to the leaf there and prescribes that path. */
  lemma {:induction false} PathExact<L>(leaf: Hash<L>, i: nat, n: nat, path: seq<Hash<L>>, root: Hash<L>)
    requires i < n
    ensures RootFromPath(leaf, i, n, path) == Some(root)
            <==> LeafAt(root, i, n) == Some(leaf) && path == PathIn(root, i, n)
    decreases n
  {
    hide Split;
    if n > 1 {
      var k := Split(n);
      if path != [] {
        var rest, sibling := path[..|path| - 1], path[|path| - 1];
        assert path == rest + [sibling];
        if root.Node? {
          if i < k {
            PathExact(leaf, i, k, rest, root.left);
          } else {
            PathExact(leaf, i - k, n - k, rest, root.right);
          }
        }
      }
    }
  }

  /** An accepted inclusion proof shows what the root commits to. */
  lemma InclusionSound<L>(i: nat, n: nat, leaf: Hash<L>, path: seq<Hash<L>>, root: Hash<L>)
    requires VerifyInclusion(i, n, leaf, path, root)
    ensures LeafAt(root, i, n) == Some(leaf)
  {
    PathExact(leaf, i, n, path, root);
  }

  // ---------------------------------------------------------------- consistency

  datatype Roots<L> = Roots(older: Hash<L>, newer: Hash<L>)

  /**
   Replays SUBPROOF (section 2.1.2 of RFC 6962): the pair of roots of sizes `m` and `n` that `proof`
   reconstructs. `complete` says the old tree is a whole subtree whose hash the verifier already has.
   */
  function RootsFromProof<L>(m: nat, n: nat, proof: seq<Hash<L>>, complete: bool, known: Hash<L>)
    : (roots: Option<Roots<L>>)
    requires 0 < m <= n
    decreases n
  {
    if m == n then
      if complete then (if proof == [] then Some(Roots(known, known)) else None)
      else (if |proof| == 1 then Some(Roots(proof[0], proof[0])) else None)
    else if proof == [] then None
    else
      var k := Split(n);
      var rest, top := proof[..|proof| - 1], proof[|proof| - 1];
      if m <= k then
        match RootsFromProof(m, k, rest, complete, known)
        case None => None
        case Some(pair) => Some(Roots(pair.older, Node(pair.newer, top)))
      else
        match RootsFromProof(m - k, n - k, rest, false, known)
        case None => None
        case Some(pair) => Some(Roots(Node(top, pair.older), Node(top, pair.newer)))
  }

  predicate VerifyConsistency<L(==)>(m: nat, n: nat, proof: seq<Hash<L>>, oldRoot: Hash<L>, newRoot: Hash<L>) {
    0 < m <= n && DecodesAll(proof) && RootsFromProof(m, n, proof, true, oldRoot) == Some(Roots(oldRoot, newRoot))
  }

  /** Both reconstructed roots commit to the same thing at every position of the smaller tree. */
  lemma {:induction false} RootsAgree<L>(m: nat, n: nat, proof: seq<Hash<L>>, complete: bool, known: Hash<L>, i: nat)
    requires i < m <= n
    requires RootsFromProof(m, n, proof, complete, known).Some?
    ensures var pair := RootsFromProof(m, n, proof, complete, known).value;
            LeafAt(pair.older, i, m) == LeafAt(pair.newer, i, n)
    decreases n
  {
    if m < n {
      var k := Split(n);
      var rest, top := proof[..|proof| - 1], proof[|proof| - 1];
      var pair := RootsFromProof(m, n, proof, complete, known).value;
      if m <= k {
        RootsAgree(m, k, rest, complete, known, i);
        var below := RootsFromProof(m, k, rest, complete, known).value;
        assert pair == Roots(below.older, Node(below.newer, top));
        assert LeafAt(pair.newer, i, n) == LeafAt(below.newer, i, k);
      } else {
        SplitStable(m, n);
        var below := RootsFromProof(m - k, n - k, rest, false, known).value;
        assert pair == Roots(Node(top, below.older), Node(top, below.newer));
        if i >= k {
          RootsAgree(m - k, n - k, rest, false, known, i - k);
        }
        SplitNode(top, below.older, i, m, k);
        SplitNode(top, below.newer, i, n, k);
      }
    }
  }

  lemma SplitNode<L>(left: Hash<L>, right: Hash<L>, i: nat, n: nat, k: nat)
    requires 2 <= n && k == Split(n) && i < n
    ensures LeafAt(Node(left, right), i, n) == if i < k then LeafAt(left, i, k) else LeafAt(right, i - k, n - k)
  {
  }

  /** `b` is an append-only continuation of `a`: no position of `a` means anything else in `b`. */
  ghost predicate Continues<L(!new)>(a: Checkpoint<L>, b: Checkpoint<L>) {
    && a.size <= b.size
    && forall i: nat | i < a.size :: LeafAt(a.root, i, a.size) == LeafAt(b.root, i, b.size)
  }

  lemma ContinuesTransitive<L(!new)>(a: Checkpoint<L>, b: Checkpoint<L>, c: Checkpoint<L>)
    requires Continues(a, b) && Continues(b, c)
    ensures Continues(a, c)
  {
    forall i: nat | i < a.size
      ensures LeafAt(a.root, i, a.size) == LeafAt(c.root, i, c.size)
    {
      assert LeafAt(b.root, i, b.size) == LeafAt(c.root, i, c.size);
    }
  }

  lemma ConsistencySound<L(!new)>(a: Checkpoint<L>, b: Checkpoint<L>, proof: seq<Hash<L>>)
    requires VerifyConsistency(a.size, b.size, proof, a.root, b.root)
    ensures Continues(a, b)
  {
    forall i: nat | i < a.size
      ensures LeafAt(a.root, i, a.size) == LeafAt(b.root, i, b.size)
    {
      RootsAgree(a.size, b.size, proof, true, a.root, i);
    }
  }

  /** The source's check of a checkpoint transition, with its cases for an empty and an unchanged log. */
  predicate VerifyAdvance<L(==)>(previous: Checkpoint<L>, next: Checkpoint<L>, consistency: seq<Hash<L>>) {
    && ValidCheckpoint(previous)
    && ValidCheckpoint(next)
    && previous.size <= next.size
    && DecodesAll(consistency)
    && (if previous.size == 0 then consistency == []
        else if previous.size == next.size then consistency == [] && previous.root == next.root
        else VerifyConsistency(previous.size, next.size, consistency, previous.root, next.root))
  }

  /** A verified transition only appends. */
  lemma AdvanceSound<L(!new)>(previous: Checkpoint<L>, next: Checkpoint<L>, consistency: seq<Hash<L>>)
    requires VerifyAdvance(previous, next, consistency)
    ensures Continues(previous, next)
  {
    if previous.size != 0 && previous.size != next.size {
      ConsistencySound(previous, next, consistency);
    }
  }

  /** Appending one leaf with both proofs turns the tree of `leaves` into the tree of `leaves + [leaf]`. */
  lemma AppendSound<L(!new)>(leaves: seq<L>, leaf: L, newRoot: Hash<L>, inclusion: seq<Hash<L>>,
                             consistency: seq<Hash<L>>)
    requires VerifyInclusion(|leaves|, |leaves| + 1, Leaf(leaf), inclusion, newRoot)
    requires |leaves| > 0 ==> VerifyConsistency(|leaves|, |leaves| + 1, consistency, TreeHash(leaves), newRoot)
    ensures newRoot == TreeHash(leaves + [leaf])
  {
    var n := |leaves|;
    var longer := leaves + [leaf];
    forall i | 0 <= i < n + 1
      ensures LeafAt(newRoot, i, n + 1) == Some(Leaf(longer[i]))
    {
      if i == n {
        InclusionSound(n, n + 1, Leaf(leaf), inclusion, newRoot);
      } else {
        RootsAgree(n, n + 1, consistency, true, TreeHash(leaves), i);
        LeafAtTree(leaves, i);
      }
    }
    OpensIsTree(newRoot, longer);
  }

  // ---------------------------------------------------------------- honest proofs

  /** SUBPROOF of section 2.1.2 of RFC 6962. */
  function ProveConsistency<L>(m: nat, leaves: seq<L>, complete: bool): (proof: seq<Hash<L>>)
    requires 0 < m <= |leaves|
    decreases |leaves|
  {
    var n := |leaves|;
    if m == n then (if complete then [] else [TreeHash(leaves)])
    else
      var k := Split(n);
      if m <= k then ProveConsistency(m, leaves[..k], complete) + [TreeHash(leaves[k..])]
      else ProveConsistency(m - k, leaves[k..], false) + [TreeHash(leaves[..k])]
  }

  /** One step of `RootsFromProof`, with the proof given as its parts. */
  lemma RootsStep<L>(m: nat, n: nat, rest: seq<Hash<L>>, top: Hash<L>, complete: bool, known: Hash<L>)
    requires 0 < m < n
    ensures var k := Split(n);
            RootsFromProof(m, n, rest + [top], complete, known) ==
            if m <= k then
              match RootsFromProof(m, k, rest, complete, known)
              case None => None
              case Some(pair) => Some(Roots(pair.older, Node(pair.newer, top)))
            else
              match RootsFromProof(m - k, n - k, rest, false, known)
              case None => None
              case Some(pair) => Some(Roots(Node(top, pair.older), Node(top, pair.newer)))
  {
    assert (rest + [top])[..|rest|] == rest;
  }

  /** `proof` reconstructs the trees of `leaves[..m]` and of `leaves`. */
  ghost predicate Reconstructs<L>(m: nat, leaves: seq<L>, proof: seq<Hash<L>>, complete: bool, known: Hash<L>)
    requires 0 < m <= |leaves|
  {
    RootsFromProof(m, |leaves|, proof, complete, known) == Some(Roots(TreeHash(leaves[..m]), TreeHash(leaves)))
  }

  lemma ReconstructsLow<L>(m: nat, leaves: seq<L>, rest: seq<Hash<L>>, complete: bool, known: Hash<L>)
    requires 0 < m < |leaves| && m <= Split(|leaves|)
    requires Reconstructs(m, leaves[..Split(|leaves|)], rest, complete, known)
    ensures Reconstructs(m, leaves, rest + [TreeHash(leaves[Split(|leaves|)..])], complete, known)
  {
    hide RootsFromProof;
    var k := Split(|leaves|);
    assert leaves[..k][..m] == leaves[..m];
    RootsStep(m, |leaves|, rest, TreeHash(leaves[k..]), complete, known);
  }

  lemma ReconstructsHigh<L>(m: nat, leaves: seq<L>, rest: seq<Hash<L>>, complete: bool, known: Hash<L>)
    requires 2 <= |leaves| && Split(|leaves|) < m < |leaves|
    requires Reconstructs(m - Split(|leaves|), leaves[Split(|leaves|)..], rest, false, known)
    ensures Reconstructs(m, leaves, rest + [TreeHash(leaves[..Split(|leaves|)])], complete, known)
  {
    hide RootsFromProof, Split;
    var k := Split(|leaves|);
    RootsStep(m, |leaves|, rest, TreeHash(leaves[..k]), complete, known);
    TreeHashSplit(m, leaves);
  }

  lemma {:induction false} HonestRoots<L>(m: nat, leaves: seq<L>, complete: bool, known: Hash<L>)
    requires 0 < m <= |leaves|
    requires complete ==> known == TreeHash(leaves[..m])
    ensures Reconstructs(m, leaves, ProveConsistency(m, leaves, complete), complete, known)
    decreases |leaves|
  {
    if m == |leaves| {
      assert leaves[..m] == leaves;
    } else {
      hide Reconstructs;
      var k := Split(|leaves|);
      if m <= k {
        assert leaves[..k][..m] == leaves[..m];
        HonestRoots(m, leaves[..k], complete, known);
        ReconstructsLow(m, leaves, ProveConsistency(m, leaves[..k], complete), complete, known);
      } else {
        HonestRoots(m - k, leaves[k..], false, known);
        ReconstructsHigh(m, leaves, ProveConsistency(m - k, leaves[k..], false), complete, known);
      }
    }
  }

  /** A prefix that reaches past the split point shares the whole left subtree. */
  lemma TreeHashSplit<L>(m: nat, leaves: seq<L>)
    requires 2 <= |leaves| && Split(|leaves|) < m <= |leaves|
    ensures var k := Split(|leaves|);
            TreeHash(leaves[..m]) == Node(TreeHash(leaves[..k]), TreeHash(leaves[k..][..m - k]))
  {
    var k := Split(|leaves|);
    SplitStable(m, |leaves|);
    assert leaves[..m][..k] == leaves[..k];
    assert leaves[..m][k..] == leaves[k..][..m - k];
  }

  lemma {:induction false} HonestProofDecodes<L>(m: nat, leaves: seq<L>, complete: bool)
    requires 0 < m <= |leaves|
    ensures DecodesAll(ProveConsistency(m, leaves, complete))
    decreases |leaves|
  {
    if m < |leaves| {
      var k := Split(|leaves|);
      if m <= k {
        HonestProofDecodes(m, leaves[..k], complete);
      } else {
        HonestProofDecodes(m - k, leaves[k..], false);
      }
    }
  }

  /** The proof an honest log builds between two of its own sizes is accepted. */
  lemma ConsistencyComplete<L>(m: nat, leaves: seq<L>)
    requires 0 < m <= |leaves|
    ensures VerifyConsistency(m, |leaves|, ProveConsistency(m, leaves, true), TreeHash(leaves[..m]), TreeHash(leaves))
  {
    HonestRoots(m, leaves, true, TreeHash(leaves[..m]));
    HonestProofDecodes(m, leaves, true);
  }

  /** The checkpoint of an honest log at one of its sizes. */
  function CheckpointAt<L>(leaves: seq<L>, n: nat): (c: Checkpoint<L>)
    requires n <= |leaves| && n <= MAX_UINT64
  {
    Checkpoint(n, TreeHash(leaves[..n]))
  }

  /** The consistency proof an honest log sends between two of its sizes. */
  function BuildAdvance<L>(leaves: seq<L>, m: nat, n: nat): (proof: seq<Hash<L>>)
    requires m <= n <= |leaves|
  {
    if m == 0 || m == n then [] else ProveConsistency(m, leaves[..n], true)
  }

  lemma CheckpointAtValid<L>(leaves: seq<L>, n: nat)
    requires n <= |leaves| && n <= MAX_UINT64
    ensures ValidCheckpoint(CheckpointAt(leaves, n))
  {
  }

  /** Any two sizes of one honest log are linked by a transition that the verifier accepts. */
  lemma AdvanceComplete<L>(leaves: seq<L>, m: nat, n: nat)
    requires m <= n <= |leaves| && n <= MAX_UINT64
    ensures VerifyAdvance(CheckpointAt(leaves, m), CheckpointAt(leaves, n), BuildAdvance(leaves, m, n))
  {
    CheckpointAtValid(leaves, m);
    CheckpointAtValid(leaves, n);
    if 0 < m < n {
      ConsistencyComplete(m, leaves[..n]);
      assert leaves[..n][..m] == leaves[..m];
    }
  }

  lemma {:induction false} HonestPathDecodes<L>(leaves: seq<L>, i: nat)
    requires i < |leaves|
    ensures DecodesAll(PathIn(TreeHash(leaves), i, |leaves|))
    decreases |leaves|
  {
    if |leaves| > 1 {
      var k := Split(|leaves|);
      if i < k {
        HonestPathDecodes(leaves[..k], i);
      } else {
        HonestPathDecodes(leaves[k..], i - k);
      }
    }
  }

  /** The audit path of an honest log is accepted, and no other path or leaf is. */
  lemma InclusionComplete<L>(leaves: seq<L>, i: nat, leaf: Hash<L>, path: seq<Hash<L>>)
    requires i < |leaves|
    ensures VerifyInclusion(i, |leaves|, leaf, path, TreeHash(leaves))
            <==> leaf == Leaf(leaves[i]) && path == PathIn(TreeHash(leaves), i, |leaves|)
  {
    LeafAtTree(leaves, i);
    HonestPathDecodes(leaves, i);
    PathExact(leaf, i, |leaves|, path, TreeHash(leaves));
  }
}
