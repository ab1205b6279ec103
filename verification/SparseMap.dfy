/**
 The 256-level CONIKS sparse map over a free term algebra of hashes.

 Leaf and empty-subtree hashes are bound to their position; an empty subtree is one `Empty` term and
 not a node of two empty children. `Lookup` reads the value that a root commits to at one position.
 */
module SparseMap {
  import opened Common

  const HEIGHT: nat := 256

  /** Position of a key: the bits of its SHA-256 digest, most significant first. */
  type Path = p: seq<bool> | |p| == HEIGHT witness seq(HEIGHT, _ => false)

  datatype MapHash<V> =
    | Malformed(text: string)
    | Opaque(preimage: seq<int>)
    | Empty(domain: string, at: seq<bool>)
    | Leaf(domain: string, at: seq<bool>, value: V)
    | Node(left: MapHash<V>, right: MapHash<V>)

  /** A compressed sibling path: bit `i` of the bitmap is level `i`, counted from the leaf. */
  datatype MapProof<V> = MapProof(bitmap: seq<bool>, hashes: seq<MapHash<V>>)

  function EmptyMap<V>(domain: string): MapHash<V> {
    Empty(domain, [])
  }

  /** The node beside the one at depth `d` on `path`. */
  function SiblingAt(path: Path, d: nat): (id: seq<bool>)
    requires 0 < d <= HEIGHT
  {
    path[..d - 1] + [!path[d - 1]]
  }

  // ---------------------------------------------------------------- reconstructing roots

  /** The parent, at depth `d`, of the hash `below` on `path` and of its sibling: two empty children collapse. */
  function Join<V(==)>(domain: string, path: Path, d: nat, below: MapHash<V>, sibling: MapHash<V>): (h: MapHash<V>)
    requires d < HEIGHT
  {
    if below == Empty(domain, path[..d + 1]) && sibling == Empty(domain, SiblingAt(path, d + 1))
    then Empty(domain, path[..d])
    else if path[d] then Node(sibling, below)
    else Node(below, sibling)
  }

  /** A parent determines both children. */
  lemma JoinInjective<V>(domain: string, path: Path, d: nat, b: MapHash<V>, s: MapHash<V>, b': MapHash<V>,
                         s': MapHash<V>)
    requires d < HEIGHT && Join(domain, path, d, b, s) == Join(domain, path, d, b', s')
    ensures b == b' && s == s'
  {
  }

  /** The hash at depth `d` on `path` of a tree holding `value` there, given the siblings from the leaf up. */
  function Climb<V(==)>(domain: string, path: Path, value: Option<V>, siblings: seq<MapHash<V>>,
                        d: nat): (h: MapHash<V>)
    requires |siblings| == HEIGHT && d <= HEIGHT
    decreases HEIGHT - d
  {
    if d == HEIGHT then
      match value
      case Some(v) => Leaf(domain, path, v)
      case None => Empty(domain, path)
    else
      Join(domain, path, d, Climb(domain, path, value, siblings, d + 1), siblings[HEIGHT - 1 - d])
  }

  /** Restores the siblings that a compressed proof omits because they are empty subtrees. */
  function Expand<V(==)>(domain: string, path: Path, bitmap: seq<bool>, hashes: seq<MapHash<V>>, i: nat)
    : (full: Option<seq<MapHash<V>>>)
    requires |bitmap| == HEIGHT && i <= HEIGHT
    ensures full.Some? ==> |full.value| == HEIGHT - i
    decreases HEIGHT - i
  {
    if i == HEIGHT then (if hashes == [] then Some([]) else None)
    else
      var omitted: MapHash<V> := Empty(domain, SiblingAt(path, HEIGHT - i));
      if !bitmap[i] then
        match Expand(domain, path, bitmap, hashes, i + 1)
        case None => None
        case Some(rest) => Some([omitted] + rest)
      else if hashes == [] || hashes[0].Malformed? || hashes[0] == omitted then None
      else
        match Expand(domain, path, bitmap, hashes[1..], i + 1)
        case None => None
        case Some(rest) => Some([hashes[0]] + rest)
  }

  /** The root that a compressed proof gives when `value` (or nothing) is stored at `path`. */
  function RootFromProof<V(==)>(domain: string, path: Path, value: Option<V>,
                                proof: MapProof<V>): (root: Option<MapHash<V>>)
  {
    if |proof.bitmap| != HEIGHT then None
    else
      match Expand(domain, path, proof.bitmap, proof.hashes, 0)
      case None => None
      case Some(siblings) => Some(Climb(domain, path, value, siblings, 0))
  }

  // ---------------------------------------------------------------- what a root commits to

  function LookupFrom<V>(domain: string, h: MapHash<V>, path: Path, d: nat): (v: Option<V>)
    requires d <= HEIGHT
    decreases HEIGHT - d
  {
    if d == HEIGHT then
      if h.Leaf? && h.domain == domain && h.at == path then Some(h.value) else None
    else if !h.Node? then None
    else LookupFrom(domain, if path[d] then h.right else h.left, path, d + 1)
  }

  function Lookup<V>(domain: string, root: MapHash<V>, path: Path): (v: Option<V>) {
    LookupFrom(domain, root, path, 0)
  }

  lemma {:induction false} ClimbStores<V>(domain: string, path: Path, value: Option<V>, siblings: seq<MapHash<V>>,
                                          d: nat)
    requires |siblings| == HEIGHT && d <= HEIGHT
    ensures LookupFrom(domain, Climb(domain, path, value, siblings, d), path, d) == value
    decreases HEIGHT - d
  {
    if d < HEIGHT {
      ClimbStores(domain, path, value, siblings, d + 1);
    }
  }

  /** Two climbs over the same siblings agree everywhere off the climbed path. */
  lemma {:induction false} ClimbFrame<V>(domain: string, path: Path, u: Option<V>, v: Option<V>,
                                         siblings: seq<MapHash<V>>, other: Path, d: nat)
    requires |siblings| == HEIGHT && d <= HEIGHT
    requires other != path && other[..d] == path[..d]
    ensures LookupFrom(domain, Climb(domain, path, u, siblings, d), other, d)
            == LookupFrom(domain, Climb(domain, path, v, siblings, d), other, d)
    decreases HEIGHT - d
  {
    assert other[..HEIGHT] == other && path[..HEIGHT] == path;
    if other[d] == path[d] {
      assert other[..d + 1] == other[..d] + [other[d]];
      assert path[..d + 1] == path[..d] + [path[d]];
      ClimbFrame(domain, path, u, v, siblings, other, d + 1);
    }
  }

  /** A verified membership proof shows the value stored at its path. */
  lemma MembershipSound<V>(domain: string, path: Path, value: Option<V>, proof: MapProof<V>)
    requires RootFromProof(domain, path, value, proof).Some?
    ensures Lookup(domain, RootFromProof(domain, path, value, proof).value, path) == value
  {
    ClimbStores(domain, path, value, Expand(domain, path, proof.bitmap, proof.hashes, 0).value, 0);
  }

  /** Replacing the leaf over an unchanged sibling path leaves every other position as it was. */
  lemma ReplacementFrame<V>(domain: string, path: Path, u: Option<V>, v: Option<V>, proof: MapProof<V>, other: Path)
    requires RootFromProof(domain, path, u, proof).Some? && other != path
    ensures RootFromProof(domain, path, v, proof).Some?
    ensures Lookup(domain, RootFromProof(domain, path, u, proof).value, other)
            == Lookup(domain, RootFromProof(domain, path, v, proof).value, other)
  {
    ClimbFrame(domain, path, u, v, Expand(domain, path, proof.bitmap, proof.hashes, 0).value, other, 0);
  }

  // ---------------------------------------------------------------- the map a root stands for

  predicate Under(path: Path, at: seq<bool>) {
    |at| <= HEIGHT && path[..|at|] == at
  }

  /** The hash at position `at` of the tree that stores exactly `m`. */
  ghost function TreeOf<V>(domain: string, m: map<Path, V>, at: seq<bool>): (h: MapHash<V>)
    requires |at| <= HEIGHT
    decreases HEIGHT - |at|
  {
    if forall p | p in m :: !Under(p, at) then Empty(domain, at)
    else if |at| == HEIGHT then
      assert forall p: Path | p in m :: p[..HEIGHT] == p;
      Leaf(domain, at, m[at])
    else Node(TreeOf(domain, m, at + [false]), TreeOf(domain, m, at + [true]))
  }

  ghost function Get<V>(m: map<Path, V>, path: Path): Option<V> {
    if path in m then Some(m[path]) else None
  }

  lemma UnderChild(p: Path, path: Path, d: nat)
    requires d < HEIGHT
    ensures Under(p, path[..d]) <==> Under(p, path[..d + 1]) || Under(p, SiblingAt(path, d + 1))
  {
    assert path[..d + 1] == path[..d] + [path[d]];
    assert p[..d + 1] == p[..d] + [p[d]];
    assert p[..d] == p[..d + 1][..d] && path[..d] == path[..d + 1][..d] == SiblingAt(path, d + 1)[..d];
    assert |SiblingAt(path, d + 1)| == d + 1 && SiblingAt(path, d + 1) == path[..d] + [!path[d]];
    if Under(p, path[..d]) && p[d] != path[d] {
      assert p[..d + 1] == SiblingAt(path, d + 1);
    }
  }

  /** One level of `TreeOf`, phrased along a path. */
  lemma TreeStep<V>(domain: string, m: map<Path, V>, path: Path, d: nat)
    requires d < HEIGHT
    ensures TreeOf(domain, m, path[..d])
            == Join(domain, path, d, TreeOf(domain, m, path[..d + 1]), TreeOf(domain, m, SiblingAt(path, d + 1)))
  {
    forall p: Path
      ensures Under(p, path[..d]) <==> Under(p, path[..d + 1]) || Under(p, SiblingAt(path, d + 1))
    {
      UnderChild(p, path, d);
    }
    assert path[..d + 1] == path[..d] + [path[d]];
    assert SiblingAt(path, d + 1) == path[..d] + [!path[d]];
  }

  lemma TreeLeaf<V>(domain: string, m: map<Path, V>, path: Path)
    ensures path[..HEIGHT] == path
    ensures TreeOf(domain, m, path) == if path in m then Leaf(domain, path, m[path]) else Empty(domain, path)
  {
    assert forall p: Path :: p[..HEIGHT] == p;
  }

  /** Changing the entry at `path` changes no subtree that `path` does not pass through. */
  lemma {:induction false} TreeFrame<V>(domain: string, m: map<Path, V>, path: Path, v: V, at: seq<bool>)
    requires |at| <= HEIGHT && !Under(path, at)
    ensures TreeOf(domain, m[path := v], at) == TreeOf(domain, m, at)
    decreases HEIGHT - |at|
  {
    assert forall p | p in m[path := v] :: Under(p, at) ==> p in m;
    if |at| < HEIGHT {
      assert (at + [false])[..|at|] == at && (at + [true])[..|at|] == at;
      assert path[..|at| + 1][..|at|] == path[..|at|];
      TreeFrame(domain, m, path, v, at + [false]);
      TreeFrame(domain, m, path, v, at + [true]);
    }
  }

  /**
   When siblings rebuild the tree of `m`, the leaf they start from is the entry of `m`, and starting
   from another value over the same siblings rebuilds the tree of `m` with that one entry replaced.
   */
  lemma {:induction false} ClimbReplaces<V>(domain: string, m: map<Path, V>, path: Path, u: Option<V>, v: V,
                                            siblings: seq<MapHash<V>>, d: nat)
    requires |siblings| == HEIGHT && d <= HEIGHT
    requires Climb(domain, path, u, siblings, d) == TreeOf(domain, m, path[..d])
    ensures u == Get(m, path)
    ensures Climb(domain, path, Some(v), siblings, d) == TreeOf(domain, m[path := v], path[..d])
    decreases HEIGHT - d
  {
    if d == HEIGHT {
      TreeLeaf(domain, m, path);
      TreeLeaf(domain, m[path := v], path);
    } else {
      var beside := SiblingAt(path, d + 1);
      var sibling := siblings[HEIGHT - 1 - d];
      TreeStep(domain, m, path, d);
      JoinInjective(domain, path, d, Climb(domain, path, u, siblings, d + 1), sibling,
                    TreeOf(domain, m, path[..d + 1]), TreeOf(domain, m, beside));
      ClimbReplaces(domain, m, path, u, v, siblings, d + 1);
      TreeStep(domain, m[path := v], path, d);
      assert beside[d] != path[..d + 1][d];
      TreeFrame(domain, m, path, v, beside);
    }
  }

  /** Verified replacement proofs act on roots exactly as one map update acts on maps. */
  lemma ReplacementRefinesUpdate<V>(domain: string, m: map<Path, V>, path: Path, u: Option<V>, v: V, proof: MapProof<V>)
    requires RootFromProof(domain, path, u, proof) == Some(TreeOf(domain, m, []))
    ensures u == Get(m, path)
    ensures RootFromProof(domain, path, Some(v), proof) == Some(TreeOf(domain, m[path := v], []))
  {
    var siblings := Expand(domain, path, proof.bitmap, proof.hashes, 0).value;
    assert path[..0] == [];
    ClimbReplaces(domain, m, path, u, v, siblings, 0);
  }

  /** Looking a key up in the tree of a map is looking it up in the map. */
  lemma {:induction false} LookupIsGet<V>(domain: string, m: map<Path, V>, path: Path, d: nat)
    requires d <= HEIGHT
    ensures LookupFrom(domain, TreeOf(domain, m, path[..d]), path, d) == Get(m, path)
    decreases HEIGHT - d
  {
    if d == HEIGHT {
      TreeLeaf(domain, m, path);
    } else {
      LookupIsGet(domain, m, path, d + 1);
      TreeStep(domain, m, path, d);
    }
  }

  // ---------------------------------------------------------------- honest proofs

  /** The siblings of `path` in the tree of `m`, from depth `HEIGHT - i` upward. */
  ghost function SiblingsOf<V>(domain: string, m: map<Path, V>, path: Path, i: nat): (full: seq<MapHash<V>>)
    requires i <= HEIGHT
    ensures |full| == HEIGHT - i
    ensures forall j | 0 <= j < |full| :: full[j] == TreeOf(domain, m, SiblingAt(path, HEIGHT - i - j))
    decreases HEIGHT - i
  {
    if i == HEIGHT then []
    else [TreeOf(domain, m, SiblingAt(path, HEIGHT - i))] + SiblingsOf(domain, m, path, i + 1)
  }

  /** The canonical compressed proof an honest map holder sends: only the non-empty siblings. */
  ghost function CompressFrom<V>(domain: string, m: map<Path, V>, path: Path, i: nat): (proof: MapProof<V>)
    requires i <= HEIGHT
    ensures |proof.bitmap| == HEIGHT - i
    decreases HEIGHT - i
  {
    if i == HEIGHT then MapProof([], [])
    else
      var rest := CompressFrom(domain, m, path, i + 1);
      var sibling := TreeOf(domain, m, SiblingAt(path, HEIGHT - i));
      if sibling == Empty(domain, SiblingAt(path, HEIGHT - i)) then MapProof([false] + rest.bitmap, rest.hashes)
      else MapProof([true] + rest.bitmap, [sibling] + rest.hashes)
  }

  lemma {:induction false} ExpandCompressed<V>(domain: string, m: map<Path, V>, path: Path, bitmap: seq<bool>, i: nat)
    requires i <= HEIGHT && |bitmap| == HEIGHT
    requires bitmap[i..] == CompressFrom(domain, m, path, i).bitmap
    ensures Expand(domain, path, bitmap, CompressFrom(domain, m, path, i).hashes, i)
              == Some(SiblingsOf(domain, m, path, i))
    decreases HEIGHT - i
  {
    if i < HEIGHT {
      var here, rest := CompressFrom(domain, m, path, i), CompressFrom(domain, m, path, i + 1);
      assert bitmap[i + 1..] == bitmap[i..][1..] == rest.bitmap;
      assert bitmap[i] == bitmap[i..][0];
      ExpandCompressed(domain, m, path, bitmap, i + 1);
      if bitmap[i] {
        assert here.hashes[1..] == rest.hashes;
      }
    }
  }

  lemma {:induction false} ClimbHonest<V>(domain: string, m: map<Path, V>, path: Path, siblings: seq<MapHash<V>>,
                                          d: nat)
    requires d <= HEIGHT && siblings == SiblingsOf(domain, m, path, 0)
    ensures Climb(domain, path, Get(m, path), siblings, d) == TreeOf(domain, m, path[..d])
    decreases HEIGHT - d
  {
    if d == HEIGHT {
      TreeLeaf(domain, m, path);
    } else {
      ClimbHonest(domain, m, path, siblings, d + 1);
      TreeStep(domain, m, path, d);
      assert siblings[HEIGHT - 1 - d] == TreeOf(domain, m, SiblingAt(path, d + 1));
    }
  }

  /** The compressed proof of an honest map holder reconstructs the map's root. */
  lemma HonestProofAccepted<V>(domain: string, m: map<Path, V>, path: Path)
    ensures RootFromProof(domain, path, Get(m, path), CompressFrom(domain, m, path, 0)) == Some(TreeOf(domain, m, []))
  {
    var proof := CompressFrom(domain, m, path, 0);
    assert proof.bitmap[0..] == proof.bitmap;
    ExpandCompressed(domain, m, path, proof.bitmap, 0);
    ClimbHonest(domain, m, path, SiblingsOf(domain, m, path, 0), 0);
    assert path[..0] == [];
  }
}
