/**
 The delivery agent of trust model v3 as functions from one agent state to the next
 (poc/trust-model-v3/deliveryagent/agent.go). The class in TrustAgent.dfy is proved against these.
 */
module TrustAgentModel {
  import opened Common
  import opened TrustProtocol
  import opened KeyChain
  import MerkleLog
  import SparseMap

  datatype Error =
    | ErrEnrollment | ErrRotation | ErrSignature | ErrAttestation | ErrSigningState
    | ErrMapFork | ErrLogFork | ErrGeneration | ErrExceptionCapacity
    | ErrAcknowledgementLost | ErrDeliveryUnavailable
    | ErrCheckpointStale(latest: LogCheckpoint)

  datatype ExceptionalEvent = ExceptionalEvent(identity: Digest, sequence: Uint64, event: KeyHash, resulting: Digest)

  type Exceptions = map<KeyHash, ExceptionalEvent>

  /** One delivery acted on: where it sits in the log and which head and event vouched for its signer. */
  datatype Effect = Effect(index: Uint64, delivery: SignedDelivery, head: Head, sequence: Uint64)

  /**
   The agent's state. `facts` (what the identity provider ever confirmed for an accepted enrollment) and
   `effects` (every delivery acted on, in order) are history that the source does not keep.
   */
  datatype State = State(
    mapRoot: MapRoot, log: LogCheckpoint, exceptions: Exceptions,
    applied: map<string, SignedDelivery>, digests: map<string, Digest>, generations: map<string, Uint64>,
    failBefore: nat, loseAck: bool, staleResponses: nat,
    facts: set<TokenFact>, effects: seq<Effect>)

  datatype Outcome = Outcome(state: State, error: Option<Error>)

  function Init(cfg: Config): State {
    State(SparseMap.EmptyMap(cfg.tenant), MerkleLog.Checkpoint(0, MerkleLog.Empty), map[], map[], map[], map[],
          0, false, 0, {}, [])
  }

  // ---------------------------------------------------------------- map updates

  predicate HasException(exceptions: Exceptions, identity: Digest) {
    exists k | k in exceptions :: exceptions[k].identity == identity
  }

  datatype Verdict =
    | Accepted
    | Exceptional(event: ExceptionalEvent, error: Error)
    | Rejected(error: Error)

  function ExceptionFor(record: KeyRecord, error: Error): Verdict {
    Exceptional(ExceptionalEvent(record.leaf.identity, record.leaf.sequence, record.hash, record.leaf.resulting), error)
  }

  predicate MarkerRecordMatches(r: RotationPackage, marker: LogReference, record: DeliveryRecord) {
    && VerifyDeliveryRecord(record)
    && Reference(record) == marker
    && record.event.kind == ROTATION && record.event.marker.Some? && record.event.commitment.None?
    && record.rotation.Some?
    && MarkerFromRotation(record.rotation.value) == record.event.marker.value
    && RotationDigest(r) == RotationDigest(record.rotation.value)
  }

  predicate EagerMarkerProven(log: LogCheckpoint, record: DeliveryRecord, proofCheckpoint: Option<LogCheckpoint>,
                              inclusion: seq<LogHash>) {
    && proofCheckpoint == Some(log)
    && AcceptsLogUpdate(log, LogUpdate(log, log, [], [LogEntry(record, inclusion)]))
  }

  function ValidateEnrollmentEvent(cfg: Config, oidc: Oidc, nextHead: Head, u: MapUpdate): Verdict {
    var record := u.history.record;
    var e := record.leaf.event;
    if u.history.previousHead.size != 0 then ExceptionFor(record, ErrEnrollment)
    else if u.predecessor.Some? || u.rotationRecord.Some? then Rejected(ErrEnrollment)
    else if e.enrollment.None? || e.rotation.Some? || e.marker.Some? then ExceptionFor(record, ErrEnrollment)
    else
      match VerifyEnrollment(cfg, oidc, e.enrollment.value)
      case None => ExceptionFor(record, ErrEnrollment)
      case Some(s) =>
        if s.identity != record.leaf.identity || StateDigest(s) != record.leaf.resulting
          || StateDigest(s) != nextHead.current
        then ExceptionFor(record, ErrEnrollment)
        else Accepted
  }

  function ValidateRotationEvent(cfg: Config, log: LogCheckpoint, nextHead: Head, u: MapUpdate): Verdict {
    var record := u.history.record;
    var e := record.leaf.event;
    var previousHead := u.history.previousHead;
    if previousHead.size == 0 || e.rotation.None? || e.marker.None? || e.enrollment.Some?
      then ExceptionFor(record, ErrRotation)
    else if u.predecessor.None? || !VerifyKeyEventInclusion(previousHead, u.predecessor.value)
      then Rejected(ErrRotation)
    else
      var predecessor := u.predecessor.value.record.leaf;
      if predecessor.sequence as int + 1 != previousHead.size || predecessor.resulting != previousHead.current
      then Rejected(ErrRotation)
      else
        match ReconstructAccepted(cfg, predecessor)
        case None => Rejected(ErrRotation)
        case Some(previous) =>
          if StateDigest(previous) != previousHead.current then Rejected(ErrRotation)
          else
            match VerifyRotation(cfg, e.rotation.value, previous)
            case None => ExceptionFor(record, ErrRotation)
            case Some(next) => ValidateMarker(log, nextHead, u, predecessor, StateDigest(next))
  }

  /** The last part of rotation validation: the committed state, and the marker's place in the delivery log. */
  function ValidateMarker(log: LogCheckpoint, nextHead: Head, u: MapUpdate, predecessor: KeyLeaf,
                          newDigest: Digest): Verdict
    requires u.history.record.leaf.event.rotation.Some? && u.history.record.leaf.event.marker.Some?
  {
    var record := u.history.record;
    var marker := record.leaf.event.marker.value;
    if newDigest != record.leaf.resulting || newDigest != nextHead.current then ExceptionFor(record, ErrRotation)
    else if marker.hash == MerkleLog.Malformed("") then ExceptionFor(record, ErrRotation)
    else if predecessor.event.marker.Some? && marker.index <= predecessor.event.marker.value.index
    then ExceptionFor(record, ErrRotation)
    else if u.rotationRecord.None? || Reference(u.rotationRecord.value) != marker then Rejected(ErrRotation)
    else if !MarkerRecordMatches(record.leaf.event.rotation.value, marker, u.rotationRecord.value)
    then ExceptionFor(record, ErrRotation)
    else if log.size > marker.index && !EagerMarkerProven(log, u.rotationRecord.value, u.markerCheckpoint,
      u.markerInclusion)
    then Rejected(ErrRotation)
    else Accepted
  }

  function ValidateMapEvent(cfg: Config, oidc: Oidc, log: LogCheckpoint, nextHead: Head, u: MapUpdate): Verdict {
    var kind := u.history.record.leaf.event.kind;
    if kind == ENROLLMENT then ValidateEnrollmentEvent(cfg, oidc, nextHead, u)
    else if kind == ROTATION then ValidateRotationEvent(cfg, log, nextHead, u)
    else ExceptionFor(u.history.record, ErrRotation)
  }

  /** The part of the state that a batch of map updates works on. */
  datatype MapState = MapState(root: MapRoot, exceptions: Exceptions, facts: set<TokenFact>, semantic: Option<Error>)

  /** What an accepted enrollment event makes the identity provider's answer worth remembering. */
  function FactsFrom(oidc: Oidc, leaf: KeyLeaf): set<TokenFact> {
    if leaf.event.kind != ENROLLMENT || leaf.event.enrollment.None? then {}
    else
      var p := leaf.event.enrollment.value;
      match oidc(IntentDigest(p.intent), p.idToken)
      case None => {}
      case Some(s) => {TokenFact(IntentDigest(p.intent), p.idToken, s.issuer, s.subject)}
  }

  function KeyEventError(kind: string): Error {
    if kind == ENROLLMENT then ErrEnrollment else ErrRotation
  }

  function ApplyUpdate(cfg: Config, oidc: Oidc, log: LogCheckpoint, m: MapState, u: MapUpdate)
    : Result<MapState, Error> {
    if u.previousRoot != m.root then Err(ErrMapFork)
    else
      match VerifyMapUpdate(cfg, m.root, u)
      case Err(InvalidMapProof) => Err(ErrMapFork)
      case Err(InvalidKeyHistory) => Err(KeyEventError(u.history.record.leaf.event.kind))
      case Ok(nextHead) =>
        if HasException(m.exceptions, u.history.record.leaf.identity) then Ok(m.(root := u.root))
        else
          match ValidateMapEvent(cfg, oidc, log, nextHead, u)
          case Rejected(e) => Err(e)
          case Accepted => Ok(m.(root := u.root, facts := m.facts + FactsFrom(oidc, u.history.record.leaf)))
          case Exceptional(event, e) =>
            if event.event !in m.exceptions && |m.exceptions| >= cfg.capacity then Err(ErrExceptionCapacity)
            else
              Ok(m.(root := u.root,
                    exceptions := if event.event in m.exceptions then m.exceptions
                      else m.exceptions[event.event := event],
                    semantic := if m.semantic.None? then Some(e) else m.semantic))
  }

  /** A batch of map updates, stopping at the first hard error. */
  function ApplyUpdates(cfg: Config, oidc: Oidc, log: LogCheckpoint, m: MapState, us: seq<MapUpdate>)
    : Result<MapState, Error>
    decreases |us|
  {
    if us == [] then Ok(m)
    else
      match ApplyUpdates(cfg, oidc, log, m, us[..|us| - 1])
      case Err(e) => Err(e)
      case Ok(m') => ApplyUpdate(cfg, oidc, log, m', us[|us| - 1])
  }

  function MapPart(s: State): MapState {
    MapState(s.mapRoot, s.exceptions, s.facts, None)
  }

  /** Commits a finished batch; a hard error leaves the state as it was. */
  function SyncMap(cfg: Config, oidc: Oidc, s: State, us: seq<MapUpdate>): Outcome {
    match ApplyUpdates(cfg, oidc, s.log, MapPart(s), us)
    case Err(e) => Outcome(s, Some(e))
    case Ok(m) => Outcome(s.(mapRoot := m.root, exceptions := m.exceptions, facts := m.facts), m.semantic)
  }

  // ---------------------------------------------------------------- log advancement

  datatype Observed = Observed(hash: LogHash, kind: string, rotation: Digest)

  function Observe(r: DeliveryRecord): Observed {
    Observed(r.hash, r.event.kind,
             if r.event.kind != ROTATION || r.event.marker.None? || r.rotation.None? then NO_DIGEST
             else RotationDigest(r.rotation.value))
  }

  function ObserveAll(entries: seq<LogEntry>): (seen: map<Uint64, Observed>)
    decreases |entries|
  {
    if entries == [] then map[]
    else
      var last := entries[|entries| - 1].record;
      ObserveAll(entries[..|entries| - 1])[last.index := Observe(last)]
  }

  function AdvanceLog(s: State, u: LogUpdate): Outcome {
    if AcceptsLogUpdate(s.log, u) then Outcome(s.(log := u.checkpoint), None) else Outcome(s, Some(ErrLogFork))
  }

  // ---------------------------------------------------------------- receiving a delivery

  datatype Boundary = NoBoundary | MalformedBoundary | Boundary(marker: LogReference, rotation: Digest)

  function BoundaryFor(leaf: KeyLeaf): Boundary {
    var e := leaf.event;
    if e.kind == ENROLLMENT then NoBoundary
    else if e.kind != ROTATION || e.rotation.None? || e.marker.None? || e.enrollment.Some?
         || e.marker.value.hash == MerkleLog.Malformed("") then MalformedBoundary
    else Boundary(e.marker.value, RotationDigest(e.rotation.value))
  }

  predicate BoundaryVerified(b: Boundary, seen: map<Uint64, Observed>)
    requires b.Boundary?
  {
    b.marker.index in seen && seen[b.marker.index] == Observed(b.marker.hash, ROTATION, b.rotation)
  }

  predicate RecordIncluded(s: State, record: DeliveryRecord, seen: map<Uint64, Observed>) {
    && record.index < s.log.size
    && VerifyDeliveryRecord(record)
    && record.index in seen && seen[record.index] == Observe(record)
  }

  predicate WellFormedDelivery(cfg: Config, record: DeliveryRecord) {
    && record.event.kind == DELIVERY && record.event.commitment.Some? && record.event.marker.None?
    && record.delivery.Some?
    && DeliveryMatchesCommitment(record.delivery.value, record.event.commitment.value)
    && var a := record.delivery.value.attestation;
       && a.protocol == DELIVERY_PROTOCOL && a.tenant == cfg.tenant && a.target == cfg.target
       && (a.action == PUT || a.action == REMOVE)
  }

  /** The signing state is established before `index`, by a marker proven in the log. */
  predicate Established(signing: KeyLeaf, index: Uint64, seen: map<Uint64, Observed>) {
    match BoundaryFor(signing)
    case NoBoundary => true
    case MalformedBoundary => false
    case Boundary(marker, _) => BoundaryVerified(BoundaryFor(signing), seen) && index > marker.index
  }

  /** The signing state is current, or retired only after `index`, by a marker proven in the log. */
  predicate NotRetired(cfg: Config, ip: IdentityProof, signing: KeyLeaf, index: Uint64, seen: map<Uint64, Observed>) {
    var head := ip.membership.head;
    var historical := signing.sequence as int + 1 < head.size;
    && (historical <==> ip.successor.Some?)
    && (!historical ==> head.current == signing.resulting)
    && (historical ==>
          var successor := ip.successor.value.record.leaf;
          && VerifyKeyEventInclusion(head, ip.successor.value)
          && successor.sequence as int == signing.sequence as int + 1
          && successor.event.kind == ROTATION && successor.event.rotation.Some?
          && successor.event.rotation.value.authorization.previous == signing.resulting
          && ReconstructAccepted(cfg, successor).Some?
          && BoundaryFor(successor).Boundary?
          && BoundaryVerified(BoundaryFor(successor), seen)
          && index < BoundaryFor(successor).marker.index)
  }

  /** The state whose key must have signed, if every check on the signing state passes. */
  function SigningStateOf(cfg: Config, root: MapRoot, exceptions: Exceptions, index: Uint64, a: ContentAttestation,
                          ip: IdentityProof, seen: map<Uint64, Observed>)
    : Option<ContinuityState>
  {
    var head := ip.membership.head;
    var signing := ip.signing.record.leaf;
    if head.identity != a.identity
       || !VerifyMembership(cfg, root, ip.membership)
       || HasException(exceptions, a.identity)
       || !VerifyKeyEventInclusion(head, ip.signing)
       || signing.resulting != a.signingState
    then None
    else
      match ReconstructAccepted(cfg, signing)
      case None => None
      case Some(state) =>
        if StateDigest(state) != a.signingState || state.identity != a.identity
           || !Established(signing, index, seen) || !NotRetired(cfg, ip, signing, index, seen)
        then None
        else Some(state)
  }

  function SigningState(cfg: Config, s: State, index: Uint64, a: ContentAttestation, ip: IdentityProof,
                        seen: map<Uint64, Observed>)
    : Option<ContinuityState>
  {
    SigningStateOf(cfg, s.mapRoot, s.exceptions, index, a, ip, seen)
  }

  /** Generation fencing and the effect itself. */
  function Act(s: State, record: DeliveryRecord, d: SignedDelivery, ip: IdentityProof): Outcome {
    var a := d.attestation;
    if a.fulfillment in s.generations && a.generation < s.generations[a.fulfillment]
      then Outcome(s, Some(ErrGeneration))
    else if a.fulfillment in s.generations && a.generation == s.generations[a.fulfillment] then
      if a.fulfillment in s.digests && s.digests[a.fulfillment] == DeliveryDigest(d) then Outcome(s, None)
      else Outcome(s, Some(ErrGeneration))
    else
      Outcome(s.(generations := s.generations[a.fulfillment := a.generation],
                 digests := s.digests[a.fulfillment := DeliveryDigest(d)],
                 applied := if a.action == REMOVE then s.applied - {a.fulfillment} else s.applied[a.fulfillment := d],
                 effects := s.effects + [Effect(record.index, d, ip.membership.head, ip.signing.record.leaf.sequence)]),
              None)
  }

  function ReceiveIncluded(cfg: Config, s: State, record: DeliveryRecord, ip: IdentityProof,
                           seen: map<Uint64, Observed>): Outcome {
    if !RecordIncluded(s, record, seen) then Outcome(s, Some(ErrLogFork))
    else if !WellFormedDelivery(cfg, record) then Outcome(s, Some(ErrAttestation))
    else
      var d := record.delivery.value;
      match SigningState(cfg, s, record.index, d.attestation, ip, seen)
      case None => Outcome(s, Some(ErrSigningState))
      case Some(state) =>
        if !Verify(state.key, DELIVERY_PURPOSE, AttestationMessage(d.attestation), d.signature)
        then Outcome(s, Some(ErrSignature))
        else Act(s, record, d, ip)
  }

  // ---------------------------------------------------------------- calls

  /** The strict entry point: log, then map, then delivery; a later failure keeps the earlier advances. */
  function ReceiveDelivery(cfg: Config, oidc: Oidc, s: State, record: DeliveryRecord, proof: DeliveryProof): Outcome {
    var advanced := AdvanceLog(s, proof.log);
    if advanced.error.Some? then advanced
    else
      match ApplyUpdates(cfg, oidc, advanced.state.log, MapPart(s), proof.mapUpdates)
      case Err(e) => Outcome(advanced.state, Some(e))
      case Ok(m) =>
        ReceiveIncluded(cfg, advanced.state.(mapRoot := m.root, exceptions := m.exceptions, facts := m.facts),
                        record, proof.identity, ObserveAll(proof.log.entries))
  }

  predicate IsStale(u: LogUpdate, retained: LogCheckpoint) {
    u.from.size < retained.size && (u.checkpoint == retained || u.checkpoint.size > retained.size)
  }

  /** The manager-facing push, with its two injected faults and the stale-checkpoint answer. */
  function Deliver(cfg: Config, oidc: Oidc, s: State, record: DeliveryRecord, proof: DeliveryProof): Outcome {
    if s.failBefore > 0 then Outcome(s.(failBefore := s.failBefore - 1), Some(ErrDeliveryUnavailable))
    else
      var advanced := AdvanceLog(s, proof.log);
      if IsStale(proof.log, s.log) then
        Outcome(advanced.state.(staleResponses := s.staleResponses + 1), Some(ErrCheckpointStale(s.log)))
      else if advanced.error.Some? then advanced
      else
        var received := ReceiveDelivery(cfg, oidc, s, record, proof);
        if received.error.None? && received.state.loseAck
        then Outcome(received.state.(loseAck := false), Some(ErrAcknowledgementLost))
        else received
  }

  datatype Call =
    | CallSyncMap(oidc: Oidc, updates: seq<MapUpdate>)
    | CallAdvanceLog(update: LogUpdate)
    | CallDeliver(oidc: Oidc, record: DeliveryRecord, proof: DeliveryProof)
    | CallReceive(oidc: Oidc, record: DeliveryRecord, proof: DeliveryProof)
    | CallFailNext(count: nat)
    | CallLoseAck

  function Step(cfg: Config, s: State, c: Call): Outcome {
    match c
    case CallSyncMap(oidc, us) => SyncMap(cfg, oidc, s, us)
    case CallAdvanceLog(u) => AdvanceLog(s, u)
    case CallDeliver(oidc, record, proof) => Deliver(cfg, oidc, s, record, proof)
    case CallReceive(oidc, record, proof) => ReceiveDelivery(cfg, oidc, s, record, proof)
    case CallFailNext(n) => Outcome(s.(failBefore := s.failBefore + n), None)
    case CallLoseAck => Outcome(s.(loseAck := true), None)
  }

  /** The state after a run of calls. */
  function Run(cfg: Config, s: State, calls: seq<Call>): State
    decreases |calls|
  {
    if calls == [] then s else Step(cfg, Run(cfg, s, calls[..|calls| - 1]), calls[|calls| - 1]).state
  }
}
