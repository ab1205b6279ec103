/**
 The objects that the client, the resource manager and the delivery agent of trust model v3 exchange,
 and the pure checks on them (poc/trust-model-v3/protocol).

 A digest is a term over the object it digests, and a signature a term over the key, the purpose and
 the message. `Text` stands for a string that is not a canonical digest; the empty string is `Text("")`.
 */
module TrustProtocol {
  import opened Common
  import MerkleLog
  import SparseMap

  const ENROLLMENT_PROTOCOL := "user-key-enrollment-v1"
  const CONTINUITY_STATE_PROTOCOL := "fleetshift.dev/trust-v3/continuity-state/v1"
  const ROTATION_PROTOCOL := "fleetshift.dev/trust-v3/rotation/v1"
  const DELIVERY_PROTOCOL := "fleetshift.dev/trust-v3/content-delivery/v1"
  const KEY_HISTORY_HEAD_PROTOCOL := "fleetshift.dev/trust-v3/key-history-head/v1"

  const ENROLLMENT := "enrollment"
  const ROTATION := "rotation"
  const DELIVERY := "delivery"
  const PUT := "put"
  const REMOVE := "remove"

  const PUBLIC_KEY_SIZE := 32

  newtype Byte = n: int | 0 <= n < 256
  type Bytes = seq<Byte>

  datatype Digest =
    | Text(text: string)
    | BytesDigest(bytes: Bytes)
    | IdentityDigest(tenant: string, issuer: string, subject: string)
    | IntentDigest(intent: EnrollmentIntent)
    | StateDigest(state: ContinuityState)
    | TransitionDigest(transition: RotationTransition)
    | DeliveryDigest(delivery: SignedDelivery)
    | RotationDigest(rotation: RotationPackage)

  const NO_DIGEST: Digest := Text("")

  datatype Message =
    | IntentMessage(intent: EnrollmentIntent)
    | AuthorizationMessage(authorization: RotationAuthorization)
    | AttestationMessage(attestation: ContentAttestation)

  datatype Signature =
    | Signed(key: Bytes, purpose: string, message: Message)
    | Garbage(bytes: Bytes)

  datatype EnrollmentIntent = EnrollmentIntent(
    protocol: string, tenant: string, issuer: string, clientId: string, keyDigest: Digest, enrollmentId: string)

  datatype EnrollmentPackage = EnrollmentPackage(
    intent: EnrollmentIntent, identity: Digest, key: Bytes, possession: Signature, idToken: string)

  datatype ContinuityState = ContinuityState(
    protocol: string, tenant: string, identity: Digest, generation: Uint64, key: Bytes, keyDigest: Digest,
    recoveryPolicy: Digest, previous: Digest, transition: Digest)

  datatype RotationTransition = RotationTransition(
    tenant: string, identity: Digest, previous: Digest, newGeneration: Uint64, newKeyDigest: Digest,
      recoveryPolicy: Digest)

  datatype RotationAuthorization = RotationAuthorization(
    protocol: string, tenant: string, identity: Digest, previous: Digest, next: Digest)

  datatype RotationPackage = RotationPackage(
    authorization: RotationAuthorization, newGeneration: Uint64, newKey: Bytes, byOldKey: Signature,
      byNewKey: Signature)

  datatype ContentAttestation = ContentAttestation(
    protocol: string, tenant: string, identity: Digest, signingState: Digest, target: string, deliveryId: string,
    fulfillment: string, generation: Uint64, action: string, contentDigest: Digest)

  datatype SignedDelivery = SignedDelivery(attestation: ContentAttestation, content: Bytes, signature: Signature)

  // ---------------------------------------------------------------- delivery log

  datatype DeliveryCommitment = DeliveryCommitment(
    tenant: string, deliveryId: string, fulfillment: string, target: string, generation: Uint64, action: string,
    signingIdentity: Digest, signingState: Digest, package: Digest)

  datatype RotationMarker = RotationMarker(tenant: string, identity: Digest, rotation: Digest)

  datatype LogEvent = LogEvent(kind: string, commitment: Option<DeliveryCommitment>, marker: Option<RotationMarker>)

  type LogHash = MerkleLog.Hash<LogEvent>
  type LogCheckpoint = MerkleLog.Checkpoint<LogEvent>

  datatype LogReference = LogReference(index: Uint64, hash: LogHash)

  /** One log leaf plus the support material that is not part of the leaf. */
  datatype DeliveryRecord = DeliveryRecord(
    index: Uint64, event: LogEvent, hash: LogHash, delivery: Option<SignedDelivery>, rotation: Option<RotationPackage>)

  datatype LogEntry = LogEntry(record: DeliveryRecord, inclusion: seq<LogHash>)

  datatype LogUpdate = LogUpdate(
    from: LogCheckpoint, checkpoint: LogCheckpoint, consistency: seq<LogHash>, entries: seq<LogEntry>)

  // ---------------------------------------------------------------- key histories and the map

  datatype KeyEvent = KeyEvent(
    kind: string, enrollment: Option<EnrollmentPackage>, rotation: Option<RotationPackage>,
      marker: Option<LogReference>)

  /** What the leaf hash of a key event covers. */
  datatype KeyLeaf = KeyLeaf(identity: Digest, sequence: Uint64, event: KeyEvent, resulting: Digest)

  type KeyHash = MerkleLog.Hash<KeyLeaf>

  datatype KeyRecord = KeyRecord(leaf: KeyLeaf, hash: KeyHash)

  datatype KeyEventProof = KeyEventProof(record: KeyRecord, inclusion: seq<KeyHash>)

  datatype Head = Head(protocol: string, identity: Digest, size: Uint64, root: KeyHash, current: Digest)

  datatype KeyHistoryUpdate = KeyHistoryUpdate(
    previousHead: Head, record: KeyRecord, head: Head, inclusion: seq<KeyHash>, consistency: seq<KeyHash>)

  type MapRoot = SparseMap.MapHash<Head>
  type HeadProof = SparseMap.MapProof<Head>

  datatype MapUpdate = MapUpdate(
    previousRoot: MapRoot, root: MapRoot, previousHead: Option<Head>, history: KeyHistoryUpdate, proof: HeadProof,
    predecessor: Option<KeyEventProof>, rotationRecord: Option<DeliveryRecord>,
    markerCheckpoint: Option<LogCheckpoint>, markerInclusion: seq<LogHash>)

  datatype MembershipProof = MembershipProof(head: Head, proof: HeadProof)

  datatype IdentityProof = IdentityProof(
    membership: MembershipProof, signing: KeyEventProof, successor: Option<KeyEventProof>)

  datatype DeliveryProof = DeliveryProof(mapUpdates: seq<MapUpdate>, log: LogUpdate, identity: IdentityProof)

  // ---------------------------------------------------------------- trust configuration

  /**
   What an agent is provisioned with. `path` gives the sparse-map position of an identity; the model
   assumes nothing about it, not even that two identities have different positions.
   */
  datatype Config = Config(
    tenant: string, target: string, issuer: string, clientId: string, capacity: nat, path: Digest -> SparseMap.Path)

  /** One outcome of the OIDC check: this token, for this nonce, authenticated this subject. */
  datatype TokenFact = TokenFact(nonce: Digest, token: string, issuer: string, subject: string)

  datatype Subject = Subject(issuer: string, subject: string)

  /** The identity provider as it answers during one call: nonce and raw token to authenticated subject. */
  type Oidc = (Digest, string) -> Option<Subject>

  // ---------------------------------------------------------------- signatures and states

  predicate Verify(key: Bytes, purpose: string, message: Message, signature: Signature) {
    |key| == PUBLIC_KEY_SIZE && signature == Signed(key, purpose, message)
  }

  const POSSESSION_PURPOSE := "enrollment-proof-of-possession/v1"
  const OLD_KEY_PURPOSE := "continuity-rotation-old-key/v1"
  const NEW_KEY_PURPOSE := "continuity-rotation-new-key/v1"
  const DELIVERY_PURPOSE := "content-delivery/v1"

  predicate MatchesIntent(cfg: Config, intent: EnrollmentIntent) {
    && intent.protocol == ENROLLMENT_PROTOCOL
    && intent.tenant == cfg.tenant
    && intent.issuer == cfg.issuer
    && intent.clientId == cfg.clientId
  }

  predicate VerifyPossession(e: EnrollmentPackage) {
    && e.intent.protocol == ENROLLMENT_PROTOCOL
    && |e.key| != 0 && e.intent.keyDigest != NO_DIGEST
    && BytesDigest(e.key) == e.intent.keyDigest
    && Verify(e.key, POSSESSION_PURPOSE, IntentMessage(e.intent), e.possession)
  }

  function EnrolledState(tenant: string, identity: Digest, key: Bytes): ContinuityState {
    ContinuityState(CONTINUITY_STATE_PROTOCOL, tenant, identity, 0, key, BytesDigest(key), NO_DIGEST, NO_DIGEST,
      NO_DIGEST)
  }

  /** `uint64` increment, which wraps. */
  function NextGeneration(g: Uint64): Uint64 {
    if g == MAX_UINT64 then 0 else g + 1
  }

  datatype Successor = Successor(state: ContinuityState, authorization: RotationAuthorization)

  /** The client side: the successor state and the authorization that both keys sign. */
  function SuccessorState(previous: ContinuityState, previousDigest: Digest, newKey: Bytes): Option<Successor> {
    if previousDigest == NO_DIGEST then None
    else
      var generation := NextGeneration(previous.generation);
      var transition := RotationTransition(
        previous.tenant, previous.identity, previousDigest, generation, BytesDigest(newKey), previous.recoveryPolicy);
      var state := ContinuityState(
        CONTINUITY_STATE_PROTOCOL, previous.tenant, previous.identity, generation, newKey, BytesDigest(newKey),
        previous.recoveryPolicy, previousDigest, TransitionDigest(transition));
      Some(Successor(state, RotationAuthorization(
        ROTATION_PROTOCOL, previous.tenant, previous.identity, previousDigest, StateDigest(state))))
  }

  /** The verifier side: the successor state that a rotation package claims, if its authorization binds it. */
  function ReconstructSuccessor(r: RotationPackage): Option<ContinuityState> {
    var a := r.authorization;
    if a.protocol != ROTATION_PROTOCOL || a.identity == NO_DIGEST || a.previous == NO_DIGEST then None
    else
      var transition := RotationTransition(
        a.tenant, a.identity, a.previous, r.newGeneration, BytesDigest(r.newKey), NO_DIGEST);
      var state := ContinuityState(
        CONTINUITY_STATE_PROTOCOL, a.tenant, a.identity, r.newGeneration, r.newKey, BytesDigest(r.newKey),
        NO_DIGEST, a.previous, TransitionDigest(transition));
      if StateDigest(state) != a.next then None else Some(state)
  }

  /**
   Client and verifier agree on the successor state exactly when the predecessor has an empty recovery
   policy and a named identity: the verifier always rebuilds the state with an empty policy.
   */
  lemma SuccessorAgreement(previous: ContinuityState, previousDigest: Digest, newKey: Bytes, byOldKey: Signature,
                           byNewKey: Signature)
    requires previousDigest != NO_DIGEST
    ensures var s := SuccessorState(previous, previousDigest, newKey).value;
            var r := RotationPackage(s.authorization, s.state.generation, newKey, byOldKey, byNewKey);
            ReconstructSuccessor(r) ==
            if previous.recoveryPolicy == NO_DIGEST && previous.identity != NO_DIGEST then Some(s.state) else None
  {
    var s := SuccessorState(previous, previousDigest, newKey).value;
    if previous.recoveryPolicy != NO_DIGEST {
      assert s.state.recoveryPolicy != NO_DIGEST;
    }
  }

  predicate VerifyRotationAuthorization(r: RotationPackage, oldKey: Bytes) {
    && r.authorization.protocol == ROTATION_PROTOCOL
    && |r.newKey| != 0
    && Verify(oldKey, OLD_KEY_PURPOSE, AuthorizationMessage(r.authorization), r.byOldKey)
    && Verify(r.newKey, NEW_KEY_PURPOSE, AuthorizationMessage(r.authorization), r.byNewKey)
  }

  // ---------------------------------------------------------------- log records

  function CommitmentFromDelivery(d: SignedDelivery): Option<DeliveryCommitment> {
    var a := d.attestation;
    if a.deliveryId == "" || a.fulfillment == "" || a.target == "" then None
    else Some(DeliveryCommitment(
      a.tenant, a.deliveryId, a.fulfillment, a.target, a.generation, a.action, a.identity, a.signingState,
        DeliveryDigest(d)))
  }

  function MarkerFromRotation(r: RotationPackage): RotationMarker {
    RotationMarker(r.authorization.tenant, r.authorization.identity, RotationDigest(r))
  }

  predicate DeliveryMatchesCommitment(d: SignedDelivery, c: DeliveryCommitment) {
    CommitmentFromDelivery(d) == Some(c) && BytesDigest(d.content) == d.attestation.contentDigest
  }

  /** The leaf that a rotation occupies in the delivery log. */
  function MarkerLeaf(r: RotationPackage): LogHash {
    MerkleLog.Leaf(LogEvent(ROTATION, None, Some(MarkerFromRotation(r))))
  }

  predicate VerifyDeliveryRecord(r: DeliveryRecord) {
    r.hash == MerkleLog.Leaf(r.event)
  }

  function Reference(r: DeliveryRecord): LogReference {
    LogReference(r.index, r.hash)
  }

  predicate VerifyLogEntry(c: LogCheckpoint, e: LogEntry) {
    && e.record.index < c.size
    && VerifyDeliveryRecord(e.record)
    && MerkleLog.VerifyInclusion(e.record.index, c.size, e.record.hash, e.inclusion, c.root)
  }

  predicate DistinctIndexes(entries: seq<LogEntry>) {
    forall i, j | 0 <= i < j < |entries| :: entries[i].record.index != entries[j].record.index
  }

  /** What `VerifyDeliveryLogUpdate` accepts. */
  predicate AcceptsLogUpdate(previous: LogCheckpoint, u: LogUpdate) {
    && MerkleLog.VerifyAdvance(previous, u.checkpoint, u.consistency)
    && DistinctIndexes(u.entries)
    && forall i | 0 <= i < |u.entries| :: VerifyLogEntry(u.checkpoint, u.entries[i])
  }

  /** The source's loop over disclosed entries, with its set of indexes already seen. */
  method VerifyDeliveryLogUpdate(previous: LogCheckpoint, u: LogUpdate) returns (ok: bool)
    ensures ok <==> AcceptsLogUpdate(previous, u)
  {
    if !MerkleLog.VerifyAdvance(previous, u.checkpoint, u.consistency) {
      return false;
    }
    var seen: set<Uint64> := {};
    var i := 0;
    while i < |u.entries|
      invariant 0 <= i <= |u.entries|
      invariant DistinctIndexes(u.entries[..i])
      invariant forall j | 0 <= j < i :: VerifyLogEntry(u.checkpoint, u.entries[j])
      invariant forall x: Uint64 :: x in seen <==> exists j | 0 <= j < i :: u.entries[j].record.index == x
    {
      var e := u.entries[i];
      if e.record.index in seen || !VerifyLogEntry(u.checkpoint, e) {
        return false;
      }
      seen := seen + {e.record.index};
      i := i + 1;
    }
    assert u.entries[..i] == u.entries;
    return true;
  }

  /** An accepted update only appends, and every record it discloses is what the new root commits to. */
  lemma LogUpdateSound(previous: LogCheckpoint, u: LogUpdate)
    requires AcceptsLogUpdate(previous, u)
    ensures MerkleLog.Continues(previous, u.checkpoint)
    ensures MerkleLog.ValidCheckpoint(u.checkpoint)
    ensures forall i | 0 <= i < |u.entries| ::
              MerkleLog.LeafAt(u.checkpoint.root, u.entries[i].record.index, u.checkpoint.size)
                == Some(u.entries[i].record.hash)
  {
    MerkleLog.AdvanceSound(previous, u.checkpoint, u.consistency);
    forall i | 0 <= i < |u.entries|
      ensures MerkleLog.LeafAt(u.checkpoint.root, u.entries[i].record.index, u.checkpoint.size)
                == Some(u.entries[i].record.hash)
    {
      var e := u.entries[i];
      MerkleLog.InclusionSound(e.record.index, u.checkpoint.size, e.record.hash, e.inclusion, u.checkpoint.root);
    }
  }

  // ---------------------------------------------------------------- key-history heads

  function EmptyHead(identity: Digest): Head {
    Head(KEY_HISTORY_HEAD_PROTOCOL, identity, 0, MerkleLog.Empty, NO_DIGEST)
  }

  predicate ValidHead(h: Head) {
    && h.protocol == KEY_HISTORY_HEAD_PROTOCOL && h.identity != NO_DIGEST
    && MerkleLog.ValidCheckpoint(MerkleLog.Checkpoint(h.size, h.root))
    && (h.size == 0 <==> h.current == NO_DIGEST)
  }

  predicate VerifyKeyRecord(r: KeyRecord) {
    r.hash == MerkleLog.Leaf(r.leaf)
  }

  predicate VerifyKeyHistoryUpdate(previous: Head, u: KeyHistoryUpdate) {
    var leaf := u.record.leaf;
    && ValidHead(previous)
    && u.previousHead == previous
    && previous.size != MAX_UINT64
    && leaf.identity == previous.identity && leaf.sequence == previous.size && leaf.resulting != NO_DIGEST
    && VerifyKeyRecord(u.record)
    && u.head == Head(KEY_HISTORY_HEAD_PROTOCOL, previous.identity, previous.size + 1, u.head.root, leaf.resulting)
    && ValidHead(u.head)
    && MerkleLog.VerifyInclusion(leaf.sequence, u.head.size, u.record.hash, u.inclusion, u.head.root)
    && MerkleLog.DecodesAll(u.consistency)
    && (if previous.size == 0 then u.consistency == []
        else MerkleLog.VerifyConsistency(previous.size, u.head.size, u.consistency, previous.root, u.head.root))
  }

  predicate VerifyKeyEventInclusion(h: Head, p: KeyEventProof) {
    var leaf := p.record.leaf;
    && ValidHead(h)
    && leaf.identity == h.identity && leaf.sequence < h.size
    && VerifyKeyRecord(p.record)
    && MerkleLog.VerifyInclusion(leaf.sequence, h.size, p.record.hash, p.inclusion, h.root)
  }

  datatype MapError = InvalidMapProof | InvalidKeyHistory

  /** Both proof layers: the identity's history extends its head, and only that map leaf is replaced. */
  function VerifyMapUpdate(cfg: Config, root: MapRoot, u: MapUpdate): Result<Head, MapError> {
    var identity := u.history.record.leaf.identity;
    var previous := match u.previousHead case Some(h) => h case None => EmptyHead(identity);
    if cfg.tenant == "" || u.previousRoot != root then Err(InvalidMapProof)
    else if previous != u.history.previousHead || !VerifyKeyHistoryUpdate(previous, u.history)
      then Err(InvalidKeyHistory)
    else if root.Malformed? || u.root.Malformed?
         || SparseMap.RootFromProof(cfg.tenant, cfg.path(identity), u.previousHead, u.proof) != Some(root)
         || SparseMap.RootFromProof(cfg.tenant, cfg.path(identity), Some(u.history.head), u.proof) != Some(u.root)
    then Err(InvalidMapProof)
    else Ok(u.history.head)
  }

  predicate VerifyMembership(cfg: Config, root: MapRoot, p: MembershipProof) {
    && !root.Malformed?
    && ValidHead(p.head)
    && SparseMap.RootFromProof(cfg.tenant, cfg.path(p.head.identity), Some(p.head), p.proof) == Some(root)
  }

  // ---------------------------------------------------------------- what a map root says about identities

  /** The head a map root holds for an identity. */
  function HeadOf(cfg: Config, root: MapRoot, identity: Digest): Option<Head> {
    match SparseMap.Lookup(cfg.tenant, root, cfg.path(identity))
    case None => None
    case Some(h) => if h.identity == identity then Some(h) else None
  }

  /** The head a map root holds at a position is filed under its own identity's position. */
  ghost predicate FiledCorrectly(cfg: Config, root: MapRoot) {
    forall p: SparseMap.Path ::
      SparseMap.Lookup(cfg.tenant, root, p).Some? ==>
        cfg.path(SparseMap.Lookup(cfg.tenant, root, p).value.identity) == p
  }

  /** Position by position, an accepted update replaces one value and no other. */
  lemma MapUpdateLookups(cfg: Config, root: MapRoot, u: MapUpdate)
    requires VerifyMapUpdate(cfg, root, u).Ok?
    ensures var path := cfg.path(u.history.record.leaf.identity);
            && SparseMap.Lookup(cfg.tenant, root, path) == u.previousHead
            && SparseMap.Lookup(cfg.tenant, u.root, path) == Some(u.history.head)
            && forall p: SparseMap.Path | p != path ::
                 SparseMap.Lookup(cfg.tenant, u.root, p) == SparseMap.Lookup(cfg.tenant, root, p)
  {
    hide VerifyKeyHistoryUpdate, SparseMap.RootFromProof, SparseMap.Lookup;
    var path := cfg.path(u.history.record.leaf.identity);
    SparseMap.MembershipSound(cfg.tenant, path, u.previousHead, u.proof);
    SparseMap.MembershipSound(cfg.tenant, path, Some(u.history.head), u.proof);
    forall p: SparseMap.Path | p != path
      ensures SparseMap.Lookup(cfg.tenant, u.root, p) == SparseMap.Lookup(cfg.tenant, root, p)
    {
      SparseMap.ReplacementFrame(cfg.tenant, path, u.previousHead, Some(u.history.head), u.proof, p);
    }
  }

  lemma UpdateKeepsIdentity(cfg: Config, root: MapRoot, u: MapUpdate)
    requires VerifyMapUpdate(cfg, root, u).Ok?
    ensures u.history.head.identity == u.history.record.leaf.identity
    ensures u.previousHead.Some? ==> u.previousHead.value.identity == u.history.record.leaf.identity
    ensures u.history.previousHead
              == match u.previousHead case Some(h) => h case None => EmptyHead(u.history.record.leaf.identity)
    ensures VerifyKeyHistoryUpdate(u.history.previousHead, u.history)
    ensures u.history.record.hash == MerkleLog.Leaf(u.history.record.leaf)
  {
  }

  /**
   An accepted map update changes exactly one identity's head: the updated identity moves from the
   claimed previous head to the new one, and every other identity keeps what it had, even one whose
   position collides with the updated identity's.
   */
  lemma MapUpdateSound(cfg: Config, root: MapRoot, u: MapUpdate)
    requires FiledCorrectly(cfg, root)
    requires VerifyMapUpdate(cfg, root, u).Ok?
    ensures FiledCorrectly(cfg, u.root)
    ensures HeadOf(cfg, root, u.history.record.leaf.identity) == u.previousHead
    ensures HeadOf(cfg, u.root, u.history.record.leaf.identity) == Some(u.history.head)
    ensures forall other: Digest | other != u.history.record.leaf.identity ::
              HeadOf(cfg, u.root, other) == HeadOf(cfg, root, other)
  {
    hide VerifyMapUpdate, VerifyKeyHistoryUpdate, SparseMap.Lookup;
    MapUpdateLookups(cfg, root, u);
    UpdateKeepsIdentity(cfg, root, u);
    var identity := u.history.record.leaf.identity;
    var path := cfg.path(identity);
    forall p: SparseMap.Path | SparseMap.Lookup(cfg.tenant, u.root, p).Some?
      ensures cfg.path(SparseMap.Lookup(cfg.tenant, u.root, p).value.identity) == p
    {
      if p != path {
        assert SparseMap.Lookup(cfg.tenant, root, p) == SparseMap.Lookup(cfg.tenant, u.root, p);
      }
    }
    forall other: Digest | other != identity
      ensures HeadOf(cfg, u.root, other) == HeadOf(cfg, root, other)
    {
      if cfg.path(other) != path {
        assert SparseMap.Lookup(cfg.tenant, root, cfg.path(other))
          == SparseMap.Lookup(cfg.tenant, u.root, cfg.path(other));
      }
    }
  }

  lemma MembershipIsHead(cfg: Config, root: MapRoot, p: MembershipProof)
    requires VerifyMembership(cfg, root, p)
    ensures HeadOf(cfg, root, p.head.identity) == Some(p.head)
  {
    SparseMap.MembershipSound(cfg.tenant, cfg.path(p.head.identity), Some(p.head), p.proof);
  }

  /** `h` is the head of the history `es`. */
  ghost predicate HeadCommits(h: Head, es: seq<KeyLeaf>) {
    && ValidHead(h)
    && |es| == h.size && h.size > 0
    && h.root == MerkleLog.TreeHash(es)
    && h.current == es[|es| - 1].resulting
    && forall k | 0 <= k < |es| :: es[k].identity == h.identity && es[k].sequence == k
  }

  /** A head commits to one history only. */
  lemma HistoryUnique(h: Head, a: seq<KeyLeaf>, b: seq<KeyLeaf>)
    requires HeadCommits(h, a) && HeadCommits(h, b)
    ensures a == b
  {
    MerkleLog.TreeHashInjective(a, b);
  }

  /** An accepted history update extends the committed history by exactly the disclosed event. */
  lemma HistoryUpdateSound(previous: Head, u: KeyHistoryUpdate, es: seq<KeyLeaf>)
    requires VerifyKeyHistoryUpdate(previous, u)
    requires if previous.size == 0 then es == [] else HeadCommits(previous, es)
    ensures HeadCommits(u.head, es + [u.record.leaf])
  {
    MerkleLog.AppendSound(es, u.record.leaf, u.head.root, u.inclusion, u.consistency);
  }

  /** A proven event is the event of the committed history at its sequence number. */
  lemma EventProofSound(h: Head, p: KeyEventProof, es: seq<KeyLeaf>)
    requires HeadCommits(h, es) && VerifyKeyEventInclusion(h, p)
    ensures p.record.leaf.sequence < |es| && es[p.record.leaf.sequence] == p.record.leaf
  {
    var i := p.record.leaf.sequence;
    MerkleLog.InclusionSound(i, h.size, p.record.hash, p.inclusion, h.root);
    MerkleLog.LeafAtTree(es, i);
  }
}
