/**
 The honest side of trust model v3: heads, history updates and map updates as a holder of the whole map
 builds them (poc/trust-model-v3/protocol/types.go). Whatever is built here, the verifier accepts.
 */
module TrustMapBuilder {
  import opened Common
  import opened TrustProtocol
  import MerkleLog
  import SparseMap

  /** The head of a history. */
  function HeadFor(identity: Digest, es: seq<KeyLeaf>): Head
    requires |es| <= MAX_UINT64
  {
    Head(KEY_HISTORY_HEAD_PROTOCOL, identity, |es|, MerkleLog.TreeHash(es),
         if es == [] then NO_DIGEST else es[|es| - 1].resulting)
  }

  /** One append to an identity's key-event log. */
  function BuildHistoryUpdate(identity: Digest, es: seq<KeyLeaf>, leaf: KeyLeaf): KeyHistoryUpdate
    requires |es| < MAX_UINT64
  {
    var longer := es + [leaf];
    KeyHistoryUpdate(
      HeadFor(identity, es), KeyRecord(leaf, MerkleLog.Leaf(leaf)), HeadFor(identity, longer),
      MerkleLog.PathIn(MerkleLog.TreeHash(longer), |es|, |longer|),
      if es == [] then [] else MerkleLog.ProveConsistency(|es|, longer, true))
  }

  ghost predicate Appendable(identity: Digest, es: seq<KeyLeaf>, leaf: KeyLeaf) {
    && |es| < MAX_UINT64
    && identity != NO_DIGEST
    && leaf.identity == identity && leaf.sequence == |es| && leaf.resulting != NO_DIGEST
    && (es != [] ==> es[|es| - 1].resulting != NO_DIGEST)
  }

  lemma TreeNotMalformed<L>(leaves: seq<L>)
    ensures !MerkleLog.TreeHash(leaves).Malformed?
    ensures leaves == [] ==> MerkleLog.TreeHash(leaves) == MerkleLog.Empty
  {
  }

  lemma BuiltHistoryAccepted(identity: Digest, es: seq<KeyLeaf>, leaf: KeyLeaf)
    requires Appendable(identity, es, leaf)
    ensures VerifyKeyHistoryUpdate(HeadFor(identity, es), BuildHistoryUpdate(identity, es, leaf))
  {
    var longer := es + [leaf];
    TreeNotMalformed(es);
    TreeNotMalformed(longer);
    MerkleLog.InclusionComplete(longer, |es|, MerkleLog.Leaf(leaf),
                                MerkleLog.PathIn(MerkleLog.TreeHash(longer), |es|, |longer|));
    if es != [] {
      MerkleLog.ConsistencyComplete(|es|, longer);
      assert longer[..|es|] == es;
    }
  }

  /** The history a map of heads holds for an identity: none, or the one its head commits to. */
  ghost predicate Holds(cfg: Config, heads: map<SparseMap.Path, Head>, identity: Digest, es: seq<KeyLeaf>)
    requires |es| <= MAX_UINT64
  {
    if es == [] then cfg.path(identity) !in heads
    else SparseMap.Get(heads, cfg.path(identity)) == Some(HeadFor(identity, es))
  }

  /** Replacement of one identity's leaf in the map of all heads. */
  ghost function BuildMapUpdate(cfg: Config, heads: map<SparseMap.Path, Head>, identity: Digest, es: seq<KeyLeaf>,
                                leaf: KeyLeaf): MapUpdate
    requires |es| < MAX_UINT64
  {
    var path := cfg.path(identity);
    var history := BuildHistoryUpdate(identity, es, leaf);
    MapUpdate(
      SparseMap.TreeOf(cfg.tenant, heads, []), SparseMap.TreeOf(cfg.tenant, heads[path := history.head], []),
      SparseMap.Get(heads, path), history, SparseMap.CompressFrom(cfg.tenant, heads, path, 0),
      None, None, None, [])
  }

  /** The verifier accepts what the map holder builds, and lands on the root of the updated map. */
  lemma BuiltMapUpdateAccepted(cfg: Config, heads: map<SparseMap.Path, Head>, identity: Digest, es: seq<KeyLeaf>,
                               leaf: KeyLeaf)
    requires cfg.tenant != ""
    requires Appendable(identity, es, leaf) && Holds(cfg, heads, identity, es)
    ensures var u := BuildMapUpdate(cfg, heads, identity, es, leaf);
            && VerifyMapUpdate(cfg, SparseMap.TreeOf(cfg.tenant, heads, []), u) == Ok(HeadFor(identity, es + [leaf]))
            && u.root == SparseMap.TreeOf(cfg.tenant, heads[cfg.path(identity) := HeadFor(identity, es + [leaf])], [])
  {
    hide VerifyKeyHistoryUpdate, SparseMap.RootFromProof;
    var path := cfg.path(identity);
    var u := BuildMapUpdate(cfg, heads, identity, es, leaf);
    BuiltHistoryAccepted(identity, es, leaf);
    SparseMap.HonestProofAccepted(cfg.tenant, heads, path);
    SparseMap.ReplacementRefinesUpdate(cfg.tenant, heads, path, u.previousHead, u.history.head, u.proof);
    if es == [] {
      assert HeadFor(identity, es) == EmptyHead(identity);
    }
  }

  /** On the root of a map of heads, an accepted update acts as one assignment to that map. */
  lemma AcceptedUpdateIsAssignment(cfg: Config, heads: map<SparseMap.Path, Head>, u: MapUpdate)
    requires VerifyMapUpdate(cfg, SparseMap.TreeOf(cfg.tenant, heads, []), u).Ok?
    ensures u.previousHead == SparseMap.Get(heads, cfg.path(u.history.record.leaf.identity))
    ensures u.root == SparseMap.TreeOf(cfg.tenant, heads[cfg.path(u.history.record.leaf.identity) := u.history.head],
              [])
  {
    SparseMap.ReplacementRefinesUpdate(cfg.tenant, heads, cfg.path(u.history.record.leaf.identity), u.previousHead,
                                       u.history.head, u.proof);
  }
}
