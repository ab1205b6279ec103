/**
 Honest parties of trust model v3 meet the agent: enrollments and rotations built from a whole history are judged
 valid, an agent that was told of a rotation refuses the retired key beyond its marker, and one from which the
 rotation is withheld acts on its own view (poc/trust-model-v3/deliveryagent/agent.go).
 */
module TrustHonestRuns {
  import opened Common
  import opened TrustProtocol
  import opened KeyChain
  import opened TrustAgentModel
  import opened TrustAgentProofs
  import opened TrustAgentRuns
  import opened TrustMapBuilder
  import MerkleLog
  import SparseMap

  // ---------------------------------------------------------------- honest events

  function EnrollmentLeaf(cfg: Config, e: EnrollmentPackage): KeyLeaf {
    KeyLeaf(e.identity, 0, KeyEvent(ENROLLMENT, Some(e), None, None),
            StateDigest(EnrolledState(cfg.tenant, e.identity, e.key)))
  }

  /** An enrollment that the identity provider confirms enters the map and is judged valid. */
  lemma HonestEnrollmentAccepted(cfg: Config, oidc: Oidc, log: LogCheckpoint, heads: map<SparseMap.Path, Head>,
                                 e: EnrollmentPackage)
    requires cfg.tenant != "" && VerifyEnrollment(cfg, oidc, e).Some? && cfg.path(e.identity) !in heads
    ensures var leaf := EnrollmentLeaf(cfg, e);
            var u := BuildMapUpdate(cfg, heads, e.identity, [], leaf);
            && VerifyMapUpdate(cfg, SparseMap.TreeOf(cfg.tenant, heads, []), u) == Ok(HeadFor(e.identity, [leaf]))
            && ValidateMapEvent(cfg, oidc, log, HeadFor(e.identity, [leaf]), u) == Accepted
  {
    hide SparseMap.TreeOf, VerifyMapUpdate;
    var leaf := EnrollmentLeaf(cfg, e);
    assert [] + [leaf] == [leaf];
    BuiltMapUpdateAccepted(cfg, heads, e.identity, [], leaf);
  }

  function MarkerEvent(r: RotationPackage): LogEvent {
    LogEvent(ROTATION, None, Some(MarkerFromRotation(r)))
  }

  function MarkerRecord(r: RotationPackage, index: Uint64): DeliveryRecord {
    DeliveryRecord(index, MarkerEvent(r), MarkerLeaf(r), None, Some(r))
  }

  function RotationLeaf(identity: Digest, sequence: Uint64, r: RotationPackage, next: ContinuityState,
                        index: Uint64): KeyLeaf {
    KeyLeaf(identity, sequence, KeyEvent(ROTATION, None, Some(r), Some(LogReference(index, MarkerLeaf(r)))),
      StateDigest(next))
  }

  /** A rotation as the holder of the map and of the first `n` log entries sends it. */
  ghost function BuildRotationUpdate(cfg: Config, heads: map<SparseMap.Path, Head>, es: seq<KeyLeaf>, leaf: KeyLeaf,
                                     record: DeliveryRecord, leaves: seq<LogEvent>, n: nat): MapUpdate
    requires 0 < |es| < MAX_UINT64 && n <= |leaves| && n <= MAX_UINT64
  {
    var last := es[|es| - 1];
    BuildMapUpdate(cfg, heads, last.identity, es, leaf).(
      predecessor := Some(KeyEventProof(KeyRecord(last, MerkleLog.Leaf(last)),
                                        MerkleLog.PathIn(MerkleLog.TreeHash(es), |es| - 1, |es|))),
      rotationRecord := Some(record),
      markerCheckpoint := Some(MerkleLog.CheckpointAt(leaves, n)),
      markerInclusion := if record.index < n
        then MerkleLog.PathIn(MerkleLog.TreeHash(leaves[..n]), record.index, n) else [])
  }

  /** The marker of a rotation, when the agent's log already covers it, is where the rotation says. */
  ghost predicate MarkerPlaced(r: RotationPackage, index: Uint64, leaves: seq<LogEvent>, n: nat) {
    && n <= |leaves| && n <= MAX_UINT64
    && (index < n ==> leaves[index] == MarkerEvent(r))
  }

  lemma MarkerProven(r: RotationPackage, index: Uint64, leaves: seq<LogEvent>, n: nat)
    requires MarkerPlaced(r, index, leaves, n) && index < n
    ensures EagerMarkerProven(MerkleLog.CheckpointAt(leaves, n), MarkerRecord(r, index),
              Some(MerkleLog.CheckpointAt(leaves, n)),
                              MerkleLog.PathIn(MerkleLog.TreeHash(leaves[..n]), index, n))
  {
    hide MerkleLog.VerifyAdvance, MerkleLog.VerifyInclusion, MerkleLog.PathIn, MerkleLog.TreeHash;
    var path := MerkleLog.PathIn(MerkleLog.TreeHash(leaves[..n]), index, n);
    MerkleLog.AdvanceComplete(leaves, n, n);
    MerkleLog.InclusionComplete(leaves[..n], index, MarkerLeaf(r), path);
  }

  /** The last event of a history opens the history's head. */
  lemma LastEventOpens(identity: Digest, es: seq<KeyLeaf>)
    requires 0 < |es| <= MAX_UINT64 && identity != NO_DIGEST
    requires es[|es| - 1].identity == identity && es[|es| - 1].sequence == |es| - 1
               && es[|es| - 1].resulting != NO_DIGEST
    ensures VerifyKeyEventInclusion(HeadFor(identity, es),
              KeyEventProof(KeyRecord(es[|es| - 1], MerkleLog.Leaf(es[|es| - 1])),
                            MerkleLog.PathIn(MerkleLog.TreeHash(es), |es| - 1, |es|)))
  {
    TreeNotMalformed(es);
    MerkleLog.InclusionComplete(es, |es| - 1, MerkleLog.Leaf(es[|es| - 1]),
                                MerkleLog.PathIn(MerkleLog.TreeHash(es), |es| - 1, |es|));
  }

  /** What an update says about predecessor and marker is no part of its map and history proofs. */
  lemma ExtrasIrrelevant(cfg: Config, root: MapRoot, u: MapUpdate, v: MapUpdate)
    requires v == u.(predecessor := v.predecessor, rotationRecord := v.rotationRecord,
                     markerCheckpoint := v.markerCheckpoint, markerInclusion := v.markerInclusion)
    ensures VerifyMapUpdate(cfg, root, v) == VerifyMapUpdate(cfg, root, u)
  {
    hide VerifyKeyHistoryUpdate, SparseMap.RootFromProof;
  }

  /** The state that an authorized rotation leads to is the one its package describes. */
  lemma RotationNames(cfg: Config, r: RotationPackage, current: ContinuityState)
    requires VerifyRotation(cfg, r, current).Some?
    ensures ReconstructSuccessor(r) == VerifyRotation(cfg, r, current)
    ensures VerifyRotation(cfg, r, current).value.identity == current.identity
  {
  }

  /**
   A rotation that the current key of an audited history authorizes, with its predecessor and its marker, enters
   the map and is judged valid, whether the agent's log already covers the marker or not.
   */
  lemma HonestRotationAccepted(cfg: Config, oidc: Oidc, facts: set<TokenFact>, heads: map<SparseMap.Path, Head>,
                               es: seq<KeyLeaf>, r: RotationPackage, index: Uint64, leaves: seq<LogEvent>, n: nat)
    requires cfg.tenant != "" && 0 < |es| < MAX_UINT64
    requires Replay(cfg, facts, es).Some? && VerifyRotation(cfg, r, Replay(cfg, facts, es).value).Some?
    requires Holds(cfg, heads, es[0].identity, es) && MarkerPlaced(r, index, leaves, n)
    requires es[|es| - 1].event.marker.Some? ==> es[|es| - 1].event.marker.value.index < index
    ensures var current := Replay(cfg, facts, es).value;
            var leaf := RotationLeaf(current.identity, |es|, r, VerifyRotation(cfg, r, current).value, index);
            var u := BuildRotationUpdate(cfg, heads, es, leaf, MarkerRecord(r, index), leaves, n);
            var head := HeadFor(current.identity, es + [leaf]);
            && VerifyMapUpdate(cfg, SparseMap.TreeOf(cfg.tenant, heads, []), u) == Ok(head)
            && ValidateMapEvent(cfg, oidc, MerkleLog.CheckpointAt(leaves, n), head, u) == Accepted
  {
    hide SparseMap.TreeOf, VerifyMapUpdate, VerifyRotation, Replay, ValidateMapEvent;
    var current := Replay(cfg, facts, es).value;
    ReplayShape(cfg, facts, es);
    var leaf := RotationLeaf(current.identity, |es|, r, VerifyRotation(cfg, r, current).value, index);
    var plain := BuildMapUpdate(cfg, heads, current.identity, es, leaf);
    var u := BuildRotationUpdate(cfg, heads, es, leaf, MarkerRecord(r, index), leaves, n);
    BuiltMapUpdateAccepted(cfg, heads, current.identity, es, leaf);
    ExtrasIrrelevant(cfg, SparseMap.TreeOf(cfg.tenant, heads, []), plain, u);
    RotationJudged(cfg, oidc, facts, es, r, index, leaves, n, u);
  }

  lemma RotationJudged(cfg: Config, oidc: Oidc, facts: set<TokenFact>, es: seq<KeyLeaf>, r: RotationPackage,
                       index: Uint64, leaves: seq<LogEvent>, n: nat, u: MapUpdate)
    requires 0 < |es| < MAX_UINT64 && MarkerPlaced(r, index, leaves, n)
    requires Replay(cfg, facts, es).Some? && VerifyRotation(cfg, r, Replay(cfg, facts, es).value).Some?
    requires es[|es| - 1].event.marker.Some? ==> es[|es| - 1].event.marker.value.index < index
    requires var current, last := Replay(cfg, facts, es).value, es[|es| - 1];
             && u.history.record.leaf == RotationLeaf(current.identity, |es|, r, VerifyRotation(cfg, r, current).value,
                index)
             && u.history.previousHead == HeadFor(current.identity, es)
             && u.predecessor == Some(KeyEventProof(KeyRecord(last, MerkleLog.Leaf(last)),
                                                    MerkleLog.PathIn(MerkleLog.TreeHash(es), |es| - 1, |es|)))
             && u.rotationRecord == Some(MarkerRecord(r, index))
             && u.markerCheckpoint == Some(MerkleLog.CheckpointAt(leaves, n))
             && (index < n ==> u.markerInclusion == MerkleLog.PathIn(MerkleLog.TreeHash(leaves[..n]), index, n))
    ensures ValidateMapEvent(cfg, oidc, MerkleLog.CheckpointAt(leaves, n),
              HeadFor(Replay(cfg, facts, es).value.identity, es + [u.history.record.leaf]), u) == Accepted
  {
    hide VerifyKeyEventInclusion, ReconstructAccepted, VerifyRotation, Replay, EagerMarkerProven,
      MerkleLog.CheckpointAt,
         MerkleLog.PathIn, MerkleLog.TreeHash;
    ReplayShape(cfg, facts, es);
    ShortcutLast(cfg, facts, es);
    LastEventOpens(Replay(cfg, facts, es).value.identity, es);
    CheckpointSize(leaves, n);
    if index < n {
      MarkerProven(r, index, leaves, n);
    }
    assert ENROLLMENT[0] != ROTATION[0];
  }

  lemma CheckpointSize(leaves: seq<LogEvent>, n: nat)
    requires n <= |leaves| && n <= MAX_UINT64
    ensures MerkleLog.CheckpointAt(leaves, n).size == n
  {
  }

  // ---------------------------------------------------------------- a story in two versions

  /** One user enrolls, rotates away from the enrolled key, and still signs a delivery with it. */
  datatype Story = Story(cfg: Config, oidc: Oidc, enrollment: EnrollmentPackage, rotation: RotationPackage,
                         delivery: SignedDelivery)

  function FirstState(y: Story): ContinuityState {
    EnrolledState(y.cfg.tenant, y.enrollment.identity, y.enrollment.key)
  }

  /** Every step is genuine: enrollment confirmed, rotation authorized by the enrolled key, delivery signed with it. */
  ghost predicate Genuine(y: Story) {
    var a := y.delivery.attestation;
    && y.cfg.tenant != ""
    && VerifyEnrollment(y.cfg, y.oidc, y.enrollment).Some?
    && VerifyRotation(y.cfg, y.rotation, FirstState(y)).Some?
    && CommitmentFromDelivery(y.delivery).Some?
    && a.protocol == DELIVERY_PROTOCOL && a.tenant == y.cfg.tenant && a.target == y.cfg.target
    && (a.action == PUT || a.action == REMOVE)
    && a.identity == y.enrollment.identity && a.signingState == StateDigest(FirstState(y))
    && a.contentDigest == BytesDigest(y.delivery.content)
    && y.delivery.signature == Signed(y.enrollment.key, DELIVERY_PURPOSE, AttestationMessage(a))
  }

  /** The log: first the rotation's marker, then the delivery. */
  function StoryLog(y: Story): seq<LogEvent> {
    [MarkerEvent(y.rotation), LogEvent(DELIVERY, CommitmentFromDelivery(y.delivery), None)]
  }

  function DeliveryEntry(y: Story): DeliveryRecord {
    DeliveryRecord(1, StoryLog(y)[1], MerkleLog.Leaf(StoryLog(y)[1]), Some(y.delivery), None)
  }

  function EntryAt(y: Story, record: DeliveryRecord): LogEntry
    requires record.index < 2
  {
    LogEntry(record, MerkleLog.PathIn(MerkleLog.TreeHash(StoryLog(y)), record.index, 2))
  }

  /** Both entries, disclosed from the empty log. */
  function StoryUpdate(y: Story): LogUpdate {
    LogUpdate(MerkleLog.CheckpointAt(StoryLog(y), 0), MerkleLog.CheckpointAt(StoryLog(y), 2), [],
              [EntryAt(y, MarkerRecord(y.rotation, 0)), EntryAt(y, DeliveryEntry(y))])
  }

  lemma EntryVerifies(y: Story, record: DeliveryRecord)
    requires record.index < 2 && record.event == StoryLog(y)[record.index]
               && record.hash == MerkleLog.Leaf(record.event)
    ensures VerifyLogEntry(MerkleLog.CheckpointAt(StoryLog(y), 2), EntryAt(y, record))
  {
    assert StoryLog(y)[..2] == StoryLog(y);
    MerkleLog.InclusionComplete(StoryLog(y), record.index, record.hash, EntryAt(y, record).inclusion);
  }

  lemma StoryUpdateAccepted(y: Story)
    ensures AcceptsLogUpdate(Init(y.cfg).log, StoryUpdate(y))
  {
    hide VerifyLogEntry, MerkleLog.PathIn, MerkleLog.VerifyAdvance;
    MerkleLog.AdvanceComplete(StoryLog(y), 0, 2);
    EntryVerifies(y, MarkerRecord(y.rotation, 0));
    EntryVerifies(y, DeliveryEntry(y));
    EmptyCheckpoint(StoryLog(y));
  }

  lemma EmptyCheckpoint(leaves: seq<LogEvent>)
    ensures MerkleLog.CheckpointAt(leaves, 0) == MerkleLog.Checkpoint(0, MerkleLog.Empty)
  {
  }

  lemma StoryObserved(y: Story)
    ensures ObserveAll(StoryUpdate(y).entries)
            == map[0 := Observe(MarkerRecord(y.rotation, 0)), 1 := Observe(DeliveryEntry(y))]
  {
    TwoObserved(EntryAt(y, MarkerRecord(y.rotation, 0)), EntryAt(y, DeliveryEntry(y)));
  }

  lemma TwoObserved(a: LogEntry, b: LogEntry)
    ensures ObserveAll([a, b]) == map[a.record.index := Observe(a.record)][b.record.index := Observe(b.record)]
  {
    hide Observe;
    assert [a, b][..1] == [a] && [a][..0] == [];
    assert ObserveAll([a]) == map[][a.record.index := Observe(a.record)];
  }

  ghost function EnrollUpdate(y: Story): MapUpdate {
    BuildMapUpdate(y.cfg, map[], y.enrollment.identity, [], EnrollmentLeaf(y.cfg, y.enrollment))
  }

  ghost function Enrolled(y: Story): map<SparseMap.Path, Head> {
    map[y.cfg.path(y.enrollment.identity) := HeadFor(y.enrollment.identity, [EnrollmentLeaf(y.cfg, y.enrollment)])]
  }

  function Retiring(y: Story): KeyLeaf
    requires VerifyRotation(y.cfg, y.rotation, FirstState(y)).Some?
  {
    RotationLeaf(y.enrollment.identity, 1, y.rotation, VerifyRotation(y.cfg, y.rotation, FirstState(y)).value, 0)
  }

  ghost function RotateUpdate(y: Story): MapUpdate
    requires VerifyRotation(y.cfg, y.rotation, FirstState(y)).Some?
  {
    BuildRotationUpdate(y.cfg, Enrolled(y), [EnrollmentLeaf(y.cfg, y.enrollment)], Retiring(y),
      MarkerRecord(y.rotation, 0), [], 0)
  }

  lemma EmptyTree(domain: string)
    ensures SparseMap.TreeOf<Head>(domain, map[], []) == SparseMap.EmptyMap(domain)
  {
  }

  /** After the enrollment the map holds the enrolled head, with the identity provider's answer on record. */
  lemma EnrollSynced(y: Story)
    requires Genuine(y)
    ensures ApplyUpdates(y.cfg, y.oidc, Init(y.cfg).log, MapPart(Init(y.cfg)), [EnrollUpdate(y)])
            == Ok(MapState(SparseMap.TreeOf(y.cfg.tenant, Enrolled(y), []), map[],
                           FactsFrom(y.oidc, EnrollmentLeaf(y.cfg, y.enrollment)), None))
  {
    hide SparseMap.TreeOf, VerifyMapUpdate, ValidateMapEvent, FactsFrom, ApplyUpdates, ApplyUpdate;
    var heads: map<SparseMap.Path, Head> := map[];
    var leaf, u, m := EnrollmentLeaf(y.cfg, y.enrollment), EnrollUpdate(y), MapPart(Init(y.cfg));
    EmptyTree(y.cfg.tenant);
    HonestEnrollmentAccepted(y.cfg, y.oidc, Init(y.cfg).log, heads, y.enrollment);
    assert [] + [leaf] == [leaf];
    assert heads[y.cfg.path(y.enrollment.identity) := HeadFor(y.enrollment.identity, [leaf])] == Enrolled(y);
    AcceptedApplies(y.cfg, y.oidc, Init(y.cfg).log, m, u);
    BatchOfOne(y.cfg, y.oidc, Init(y.cfg).log, m, [], u);
    assert [] + [u] == [u];
    assert {} + FactsFrom(y.oidc, leaf) == FactsFrom(y.oidc, leaf);
  }

  lemma AcceptedApplies(cfg: Config, oidc: Oidc, log: LogCheckpoint, m: MapState, u: MapUpdate)
    requires u.previousRoot == m.root && m.exceptions == map[]
    requires VerifyMapUpdate(cfg, m.root, u) == Ok(u.history.head)
    requires ValidateMapEvent(cfg, oidc, log, u.history.head, u) == Accepted
    ensures ApplyUpdate(cfg, oidc, log, m, u)
            == Ok(m.(root := u.root, facts := m.facts + FactsFrom(oidc, u.history.record.leaf)))
  {
    hide VerifyMapUpdate, ValidateMapEvent, FactsFrom;
  }

  /** A batch with one more update. */
  lemma BatchOfOne(cfg: Config, oidc: Oidc, log: LogCheckpoint, m: MapState, us: seq<MapUpdate>, u: MapUpdate)
    requires us == [] || ApplyUpdates(cfg, oidc, log, m, us).Ok?
    ensures ApplyUpdates(cfg, oidc, log, m, []) == Ok(m)
    ensures ApplyUpdates(cfg, oidc, log, m, us + [u])
            == ApplyUpdate(cfg, oidc, log, ApplyUpdates(cfg, oidc, log, m, us).value, u)
  {
    hide ApplyUpdate;
    assert (us + [u])[..|us|] == us;
  }

  /** Receiving the story's delivery comes down to the checks on its signing state. */
  lemma StoryReceived(y: Story, s: State, ip: IdentityProof)
    requires Genuine(y) && s.log == Init(y.cfg).log
    ensures var seen, t := ObserveAll(StoryUpdate(y).entries), s.(log := StoryUpdate(y).checkpoint);
            ReceiveDelivery(y.cfg, y.oidc, s, DeliveryEntry(y), DeliveryProof([], StoryUpdate(y), ip)) ==
            match SigningState(y.cfg, t, 1, y.delivery.attestation, ip, seen)
            case None => Outcome(t, Some(ErrSigningState))
            case Some(state) =>
              if !Verify(state.key, DELIVERY_PURPOSE, AttestationMessage(y.delivery.attestation), y.delivery.signature)
              then Outcome(t, Some(ErrSignature))
              else Act(t, DeliveryEntry(y), y.delivery, ip)
  {
    hide SigningState, AcceptsLogUpdate, ApplyUpdate, ObserveAll, VerifyEnrollment, VerifyRotation, Act, Verify;
    StoryUpdateAccepted(y);
    StoryObserved(y);
    StoryWellFormed(y);
  }

  lemma StoryWellFormed(y: Story)
    requires Genuine(y)
    ensures WellFormedDelivery(y.cfg, DeliveryEntry(y))
  {
    hide VerifyEnrollment, VerifyRotation;
  }

  // ---------------------------------------------------------------- the rotation is withheld

  /** The enrolled head, with the proofs that open it under the map of this one identity. */
  ghost function EnrolledProof(y: Story): IdentityProof {
    var leaf := EnrollmentLeaf(y.cfg, y.enrollment);
    IdentityProof(MembershipProof(HeadFor(y.enrollment.identity, [leaf]),
                                  SparseMap.CompressFrom(y.cfg.tenant, Enrolled(y), y.cfg.path(y.enrollment.identity),
                                    0)),
                  KeyEventProof(KeyRecord(leaf, MerkleLog.Leaf(leaf)),
                    MerkleLog.PathIn(MerkleLog.TreeHash([leaf]), 0, 1)), None)
  }

  lemma EnrolledOpens(y: Story)
    requires Genuine(y)
    ensures var ip := EnrolledProof(y);
            && VerifyMembership(y.cfg, SparseMap.TreeOf(y.cfg.tenant, Enrolled(y), []), ip.membership)
            && VerifyKeyEventInclusion(ip.membership.head, ip.signing)
  {
    hide SparseMap.CompressFrom, SparseMap.RootFromProof;
    var leaf := EnrollmentLeaf(y.cfg, y.enrollment);
    SparseMap.HonestProofAccepted(y.cfg.tenant, Enrolled(y), y.cfg.path(y.enrollment.identity));
    TreeNotMalformed([leaf]);
    assert SparseMap.Under(y.cfg.path(y.enrollment.identity), []);
    LastEventOpens(y.enrollment.identity, [leaf]);
  }

  /** The enrolled state signs for every index: no rotation of it is in the map. */
  lemma EnrolledSigns(y: Story, index: Uint64, seen: map<Uint64, Observed>)
    requires Genuine(y)
    ensures SigningStateOf(y.cfg, SparseMap.TreeOf(y.cfg.tenant, Enrolled(y), []), map[], index, y.delivery.attestation,
                           EnrolledProof(y), seen)
            == Some(FirstState(y))
  {
    hide SparseMap.TreeOf, VerifyMembership, VerifyKeyEventInclusion, SparseMap.CompressFrom;
    EnrolledOpens(y);
  }

  ghost function WithheldCalls(y: Story): seq<Call> {
    [CallSyncMap(y.oidc, [EnrollUpdate(y)]),
     CallReceive(y.oidc, DeliveryEntry(y), DeliveryProof([], StoryUpdate(y), EnrolledProof(y)))]
  }

  lemma TwoCalls(cfg: Config, s: State, a: Call, b: Call)
    ensures Run(cfg, s, [a, b]) == Step(cfg, Step(cfg, s, a).state, b).state
  {
    hide Step;
    assert [a, b][..1] == [a] && [a][..0] == [];
    assert Run(cfg, s, [a]) == Step(cfg, s, a).state;
  }

  /**
   A manager that withholds the rotation gets the delivery acted on: the agent acts on its own view, although the
   rotation's marker stands in its log before the delivery.
   */
  lemma WithheldRotationActs(y: Story)
    requires Genuine(y)
    ensures var t := Run(y.cfg, Init(y.cfg), WithheldCalls(y));
            && |t.effects| == 1 && t.effects[0].index == 1 && t.effects[0].delivery == y.delivery
            && LogHolds(t.log, 0, MarkerLeaf(y.rotation))
  {
    hide SparseMap.TreeOf, ApplyUpdates, SigningStateOf, ReceiveDelivery, EnrollUpdate, StoryUpdate, EnrolledProof, Run,
         FactsFrom, Enrolled, Genuine, VerifyEnrollment;
    EnrollSynced(y);
    var s := SyncMap(y.cfg, y.oidc, Init(y.cfg), [EnrollUpdate(y)]).state;
    StoryReceived(y, s, EnrolledProof(y));
    EnrolledSigns(y, 1, ObserveAll(StoryUpdate(y).entries));
    SignedByFirst(y);
    TwoCalls(y.cfg, Init(y.cfg), WithheldCalls(y)[0], WithheldCalls(y)[1]);
    MarkerStands(y);
  }

  lemma SignedByFirst(y: Story)
    requires Genuine(y)
    ensures Verify(FirstState(y).key, DELIVERY_PURPOSE, AttestationMessage(y.delivery.attestation),
              y.delivery.signature)
    ensures StoryUpdate(y).checkpoint == MerkleLog.CheckpointAt(StoryLog(y), 2)
  {
    hide VerifyRotation;
  }

  lemma MarkerStands(y: Story)
    ensures LogHolds(MerkleLog.CheckpointAt(StoryLog(y), 2), 0, MarkerLeaf(y.rotation))
  {
    assert StoryLog(y)[..2] == StoryLog(y);
    MerkleLog.LeafAtTree(StoryLog(y), 0);
  }

  // ---------------------------------------------------------------- the rotation is told

  function StoryHistory(y: Story): seq<KeyLeaf>
    requires VerifyRotation(y.cfg, y.rotation, FirstState(y)).Some?
  {
    [EnrollmentLeaf(y.cfg, y.enrollment), Retiring(y)]
  }

  ghost function Rotated(y: Story): map<SparseMap.Path, Head>
    requires VerifyRotation(y.cfg, y.rotation, FirstState(y)).Some?
  {
    Enrolled(y)[y.cfg.path(y.enrollment.identity) := HeadFor(y.enrollment.identity, StoryHistory(y))]
  }

  lemma EnrollmentReplays(y: Story)
    requires Genuine(y)
    ensures Replay(y.cfg, FactsFrom(y.oidc, EnrollmentLeaf(y.cfg, y.enrollment)), [EnrollmentLeaf(y.cfg, y.enrollment)])
            == Some(FirstState(y))
  {
  }

  lemma RotateSynced(y: Story)
    requires Genuine(y)
    ensures ApplyUpdates(y.cfg, y.oidc, Init(y.cfg).log, MapPart(Init(y.cfg)), [EnrollUpdate(y), RotateUpdate(y)])
            == Ok(MapState(SparseMap.TreeOf(y.cfg.tenant, Rotated(y), []), map[],
                           FactsFrom(y.oidc, EnrollmentLeaf(y.cfg, y.enrollment)), None))
  {
    hide SparseMap.TreeOf, VerifyMapUpdate, ValidateMapEvent, ApplyUpdates, ApplyUpdate, Replay, VerifyRotation,
      VerifyEnrollment,
         SparseMap.CompressFrom, BuildHistoryUpdate;
    var leaf, u, log := EnrollmentLeaf(y.cfg, y.enrollment), RotateUpdate(y), Init(y.cfg).log;
    var facts := FactsFrom(y.oidc, leaf);
    var m := MapState(SparseMap.TreeOf(y.cfg.tenant, Enrolled(y), []), map[], facts, None);
    EnrollSynced(y);
    EnrollmentReplays(y);
    EmptyCheckpoint([]);
    HonestRotationAccepted(y.cfg, y.oidc, facts, Enrolled(y), [leaf], y.rotation, 0, [], 0);
    assert [leaf] + [Retiring(y)] == StoryHistory(y);
    RotateShape(y);
    AcceptedApplies(y.cfg, y.oidc, log, m, u);
    BatchOfOne(y.cfg, y.oidc, log, MapPart(Init(y.cfg)), [EnrollUpdate(y)], u);
    assert [EnrollUpdate(y)] + [u] == [EnrollUpdate(y), u];
    assert ENROLLMENT[0] != ROTATION[0];
    assert facts + {} == facts;
  }

  lemma RotateShape(y: Story)
    requires VerifyRotation(y.cfg, y.rotation, FirstState(y)).Some?
    ensures var u := RotateUpdate(y);
            && u.previousRoot == SparseMap.TreeOf(y.cfg.tenant, Enrolled(y), [])
            && u.root == SparseMap.TreeOf(y.cfg.tenant, Rotated(y), [])
            && u.history.head == HeadFor(y.enrollment.identity, StoryHistory(y))
            && u.history.record.leaf == Retiring(y)
  {
    hide SparseMap.TreeOf, SparseMap.CompressFrom;
    assert [EnrollmentLeaf(y.cfg, y.enrollment)] + [Retiring(y)] == StoryHistory(y);
  }

  /** The state of an agent that accepted the rotation. */
  ghost function ToldAgent(y: Story): State
    requires VerifyRotation(y.cfg, y.rotation, FirstState(y)).Some?
  {
    Run(y.cfg, Init(y.cfg), [CallSyncMap(y.oidc, [EnrollUpdate(y), RotateUpdate(y)])])
  }

  lemma ToldAgentIs(y: Story)
    requires Genuine(y)
    ensures ToldAgent(y) == Init(y.cfg).(mapRoot := SparseMap.TreeOf(y.cfg.tenant, Rotated(y), []),
                                         facts := FactsFrom(y.oidc, EnrollmentLeaf(y.cfg, y.enrollment)))
    ensures Inv(y.cfg, ToldAgent(y))
  {
    hide SparseMap.TreeOf, ApplyUpdates, FactsFrom, Inv, Progress, Run, EnrollUpdate, RotateUpdate, Rotated;
    RotateSynced(y);
    var call := CallSyncMap(y.oidc, [EnrollUpdate(y), RotateUpdate(y)]);
    OneCall(y.cfg, Init(y.cfg), call);
    InitInv(y.cfg);
    RunKeeps(y.cfg, Init(y.cfg), [call]);
  }

  lemma OneCall(cfg: Config, s: State, a: Call)
    ensures Run(cfg, s, [a]) == Step(cfg, s, a).state
  {
    hide Step;
    assert [a][..0] == [];
  }

  /** Under the rotated map the identity's history is the enrollment and the rotation. */
  lemma ToldHistory(y: Story)
    requires Genuine(y)
    ensures var h := HeadFor(y.enrollment.identity, StoryHistory(y));
            && HeadOf(y.cfg, SparseMap.TreeOf(y.cfg.tenant, Rotated(y), []), y.enrollment.identity) == Some(h)
            && Committed(h) && History(h) == StoryHistory(y)
  {
    hide SparseMap.TreeOf, SparseMap.LookupFrom;
    var h, path := HeadFor(y.enrollment.identity, StoryHistory(y)), y.cfg.path(y.enrollment.identity);
    assert path[..0] == [];
    SparseMap.LookupIsGet(y.cfg.tenant, Rotated(y), path, 0);
    RotationNames(y.cfg, y.rotation, FirstState(y));
    TreeNotMalformed(StoryHistory(y));
    assert HeadCommits(h, StoryHistory(y));
    HistoryIs(h, StoryHistory(y));
  }

  /** No identity proof whatever places the delivery in the retired state's window. */
  lemma RetiredCannotSign(y: Story, s: State, ip: IdentityProof, seen: map<Uint64, Observed>)
    requires Genuine(y) && Inv(y.cfg, s) && SeenIsInLog(s.log, seen)
    requires s.mapRoot == SparseMap.TreeOf(y.cfg.tenant, Rotated(y), [])
    ensures SigningState(y.cfg, s, 1, y.delivery.attestation, ip, seen) == None
  {
    hide SparseMap.TreeOf, HeadOf, Inv, SigningState, Replay, VerifyRotation;
    ToldHistory(y);
    if SigningState(y.cfg, s, 1, y.delivery.attestation, ip, seen).Some? {
      SigningStateSound(y.cfg, s, 1, y.delivery.attestation, ip, seen);
      StateOnce(y.cfg, s.facts, StoryHistory(y), 0, ip.signing.record.leaf.sequence);
    }
  }

  /** An agent that was told of the rotation refuses the same delivery, whatever identity proof comes with it. */
  lemma ToldAgentRefuses(y: Story, ip: IdentityProof)
    requires Genuine(y)
    ensures var s := ToldAgent(y);
            var o := ReceiveDelivery(y.cfg, y.oidc, s, DeliveryEntry(y), DeliveryProof([], StoryUpdate(y), ip));
            && RetiredAt(y.cfg, s, y.enrollment.identity, StateDigest(FirstState(y)), 0)
            && o.error == Some(ErrSigningState) && o.state.effects == []
            && LogHolds(o.state.log, 1, DeliveryEntry(y).hash)
  {
    hide SparseMap.TreeOf, SigningState, ReceiveDelivery, StoryUpdate, Inv, Progress, FactsFrom, HeadOf, RetiredAt,
      ToldAgent,
         VerifyEnrollment, VerifyRotation, Rotated, AcceptsLogUpdate, ObserveAll, SeenIsInLog;
    var s := ToldAgent(y);
    ToldAgentIs(y);
    ToldRetires(y);
    StoryReceived(y, s, ip);
    StoryUpdateAccepted(y);
    AdvanceLogKeeps(y.cfg, s, StoryUpdate(y));
    RetiredCannotSign(y, s.(log := StoryUpdate(y).checkpoint), ip, ObserveAll(StoryUpdate(y).entries));
    SignedByFirst(y);
    DeliveryStands(y);
  }

  lemma DeliveryStands(y: Story)
    ensures LogHolds(MerkleLog.CheckpointAt(StoryLog(y), 2), 1, DeliveryEntry(y).hash)
  {
    assert StoryLog(y)[..2] == StoryLog(y);
    MerkleLog.LeafAtTree(StoryLog(y), 1);
  }

  lemma CommittedUnder(cfg: Config, s: State)
    requires Inv(cfg, s)
    ensures HeadsCommitted(cfg, s.mapRoot)
  {
    hide HeadOf, Justified, ChainsValid, FiledCorrectly;
  }

  lemma ToldRetires(y: Story)
    requires Genuine(y)
    ensures RetiredAt(y.cfg, ToldAgent(y), y.enrollment.identity, StateDigest(FirstState(y)), 0)
  {
    hide SparseMap.TreeOf, HeadOf, ToldAgent, Inv, FactsFrom, VerifyEnrollment, VerifyRotation, Rotated;
    ToldAgentIs(y);
    ToldHistory(y);
    CommittedUnder(y.cfg, ToldAgent(y));
    assert RetiredByEvent(StoryHistory(y), 0, StateDigest(FirstState(y)), 0);
  }

  // ---------------------------------------------------------------- such a story exists everywhere

  function Key(fill: Byte): Bytes {
    seq(PUBLIC_KEY_SIZE, _ => fill)
  }

  /** Every provisioned agent can meet the story: none of the above speaks of an empty set of runs. */
  lemma StoryExists(cfg: Config) returns (y: Story)
    requires cfg.tenant != "" && cfg.target != ""
    ensures y.cfg == cfg && Genuine(y)
  {
    var oidc: Oidc := (nonce, token) => Some(Subject(cfg.issuer, "user"));
    var identity := IdentityDigest(cfg.tenant, cfg.issuer, "user");
    var intent := EnrollmentIntent(ENROLLMENT_PROTOCOL, cfg.tenant, cfg.issuer, cfg.clientId, BytesDigest(Key(0)), "e");
    var enrollment := EnrollmentPackage(intent, identity, Key(0),
      Signed(Key(0), POSSESSION_PURPOSE, IntentMessage(intent)), "");
    var first := EnrolledState(cfg.tenant, identity, Key(0));
    var successor := SuccessorState(first, StateDigest(first), Key(1)).value;
    var message := AuthorizationMessage(successor.authorization);
    var rotation := RotationPackage(successor.authorization, 1, Key(1), Signed(Key(0), OLD_KEY_PURPOSE, message),
                                    Signed(Key(1), NEW_KEY_PURPOSE, message));
    SuccessorAgreement(first, StateDigest(first), Key(1), rotation.byOldKey, rotation.byNewKey);
    var attestation := ContentAttestation(DELIVERY_PROTOCOL, cfg.tenant, identity, StateDigest(first), cfg.target, "d",
      "f", 1, PUT,
                                          BytesDigest([]));
    var delivery := SignedDelivery(attestation, [], Signed(Key(0), DELIVERY_PURPOSE, AttestationMessage(attestation)));
    y := Story(cfg, oidc, enrollment, rotation, delivery);
  }
}
