/**
 What the trust-model-v3 agent answers, said by its history and not by its code: deliveries by the effects so far,
 retries after a lost acknowledgement, and map events by the audit (poc/trust-model-v3/deliveryagent/agent.go).
 */
module TrustAgentAnswers {
  import opened Common
  import opened TrustProtocol
  import opened KeyChain
  import opened TrustAgentModel
  import opened TrustAgentProofs
  import opened TrustAgentRuns
  import MerkleLog

  // ---------------------------------------------------------------- deliveries

  /** The latest effect on a fulfillment. */
  function LatestOn(effects: seq<Effect>, fulfillment: string): (e: Option<Effect>)
    ensures e.Some? ==> FulfillmentOf(e.value) == fulfillment
    decreases |effects|
  {
    if effects == [] then None
    else if FulfillmentOf(effects[|effects| - 1]) == fulfillment then Some(effects[|effects| - 1])
    else LatestOn(effects[..|effects| - 1], fulfillment)
  }

  /** The folded target remembers of each fulfillment the generation and package of its latest effect. */
  lemma {:induction false} TargetRemembers(effects: seq<Effect>, f: string)
    ensures var t := TargetOf(effects);
            match LatestOn(effects, f)
            case None => f !in t.generations && f !in t.digests
            case Some(e) =>
              && f in t.generations && t.generations[f] == GenerationOf(e)
              && f in t.digests && t.digests[f] == DeliveryDigest(e.delivery)
    decreases |effects|
  {
    if effects != [] {
      TargetRemembers(effects[..|effects| - 1], f);
    }
  }

  /** Some effect on the fulfillment is at or beyond the generation. */
  ghost predicate Reached(effects: seq<Effect>, fulfillment: string, generation: Uint64) {
    exists i | 0 <= i < |effects| :: FulfillmentOf(effects[i]) == fulfillment && GenerationOf(effects[i]) >= generation
  }

  lemma {:induction false} LatestOccurs(effects: seq<Effect>, f: string) returns (i: nat)
    requires LatestOn(effects, f).Some?
    ensures i < |effects| && effects[i] == LatestOn(effects, f).value
    decreases |effects|
  {
    i := |effects| - 1;
    if FulfillmentOf(effects[i]) != f {
      i := LatestOccurs(effects[..i], f);
    }
  }

  lemma {:induction false} LatestPresent(effects: seq<Effect>, i: nat)
    requires i < |effects|
    ensures LatestOn(effects, FulfillmentOf(effects[i])).Some?
    decreases |effects|
  {
    if i < |effects| - 1 {
      LatestPresent(effects[..|effects| - 1], i);
    }
  }

  /** A fulfillment has reached a generation exactly when its latest effect has. */
  lemma LatestDecides(s: State, f: string, generation: Uint64)
    requires TargetOf(s.effects) == Target(s.applied, s.digests, s.generations)
    requires GenerationsIncrease(s.effects, s.generations)
    ensures Reached(s.effects, f, generation) <==>
              LatestOn(s.effects, f).Some? && GenerationOf(LatestOn(s.effects, f).value) >= generation
  {
    TargetRemembers(s.effects, f);
    if LatestOn(s.effects, f).Some? {
      var i := LatestOccurs(s.effects, f);
    }
    if Reached(s.effects, f, generation) {
      var i :| 0 <= i < |s.effects| && FulfillmentOf(s.effects[i]) == f && GenerationOf(s.effects[i]) >= generation;
      LatestPresent(s.effects, i);
    }
  }

  /** The delivery gets as far as the generation fence: included, well formed, signed by a state valid at its index. */
  ghost predicate Verified(cfg: Config, s: State, record: DeliveryRecord, ip: IdentityProof, seen: map<Uint64,
                           Observed>) {
    && record.delivery.Some?
    && RecordIncluded(s, record, seen)
    && WellFormedDelivery(cfg, record)
    && var d := record.delivery.value;
       var state := SigningState(cfg, s, record.index, d.attestation, ip, seen);
       && state.Some?
       && d.signature == Signed(state.value.key, DELIVERY_PURPOSE, AttestationMessage(d.attestation))
       && |state.value.key| == PUBLIC_KEY_SIZE
  }

  /**
   The answer to a verified delivery, by the effects so far: it is acted on exactly when its fulfillment has not
   reached its generation; otherwise nothing changes, and it is acknowledged exactly when the latest effect on the
   fulfillment is this very delivery, and refused for its generation if not.
   */
  lemma ReceiveAnswers(cfg: Config, s: State, record: DeliveryRecord, ip: IdentityProof, seen: map<Uint64, Observed>)
    requires Inv(cfg, s) && Verified(cfg, s, record, ip, seen)
    ensures var o, d := ReceiveIncluded(cfg, s, record, ip, seen), record.delivery.value;
            var f := d.attestation.fulfillment;
            if !Reached(s.effects, f, d.attestation.generation) then
              && o.error == None
              && o.state.effects
                 == s.effects + [Effect(record.index, d, ip.membership.head, ip.signing.record.leaf.sequence)]
            else
              && o.state == s
              && LatestOn(s.effects, f).Some?
              && o.error == (if LatestOn(s.effects, f).value.delivery == d then None else Some(ErrGeneration))
  {
    hide Verified, Inv, ReceiveIncluded, Reached;
    FenceReached(cfg, s, record, ip, seen);
    FoldOf(cfg, s);
    ActAnswers(s, record, record.delivery.value, ip);
  }

  lemma FoldOf(cfg: Config, s: State)
    requires Inv(cfg, s)
    ensures TargetOf(s.effects) == Target(s.applied, s.digests, s.generations)
              && GenerationsIncrease(s.effects, s.generations)
  {
    hide MapInv, Justified, TargetOf, GenerationsIncrease;
  }

  /** A verified delivery comes down to the fence. */
  lemma FenceReached(cfg: Config, s: State, record: DeliveryRecord, ip: IdentityProof, seen: map<Uint64, Observed>)
    requires Verified(cfg, s, record, ip, seen)
    ensures record.delivery.Some?
    ensures ReceiveIncluded(cfg, s, record, ip, seen) == Act(s, record, record.delivery.value, ip)
  {
    hide RecordIncluded, SigningState, Act;
  }

  // ---------------------------------------------------------------- whole calls

  /**
   What a push that is not stale comes to, part by part: one that is made to fail on its way uses up that fault; an
   update the retained log does not accept changes nothing; a batch that fails leaves only the log moved; and what
   the delivery itself is answered stands, except that an acknowledgement may get lost, once.
   */
  lemma DeliverAnswers(cfg: Config, oidc: Oidc, s: State, record: DeliveryRecord, proof: DeliveryProof)
    requires !(proof.log.from.size < s.log.size
               && (proof.log.checkpoint.size > s.log.size || proof.log.checkpoint == s.log))
    ensures var o := Deliver(cfg, oidc, s, record, proof);
            var moved := s.(log := proof.log.checkpoint);
            var batch := ApplyUpdates(cfg, oidc, moved.log, MapPart(s), proof.mapUpdates);
            if s.failBefore > 0 then o == Outcome(s.(failBefore := s.failBefore - 1), Some(ErrDeliveryUnavailable))
            else if !AcceptsLogUpdate(s.log, proof.log) then o == Outcome(s, Some(ErrLogFork))
            else if batch.Err? then o == Outcome(moved, Some(batch.error))
            else
              var mapped := moved.(mapRoot := batch.value.root, exceptions := batch.value.exceptions,
                facts := batch.value.facts);
              var r := ReceiveIncluded(cfg, mapped, record, proof.identity, ObserveAll(proof.log.entries));
              if r.error == None && r.state.loseAck
              then o == Outcome(r.state.(loseAck := false), Some(ErrAcknowledgementLost)) else o == r
  {
    hide ApplyUpdates, AcceptsLogUpdate, ReceiveIncluded, ObserveAll;
  }

  /**
   What stops a batch at an update: a root it does not start from or a map proof that does not hold is a fork; a
   history that does not hold is an error of its event's kind; and a new exception needs room. An update of an
   identity that is excepted already is taken as it comes.
   */
  lemma HardErrorAnswers(cfg: Config, oidc: Oidc, log: LogCheckpoint, m: MapState, u: MapUpdate)
    ensures var r, verified := ApplyUpdate(cfg, oidc, log, m, u), VerifyMapUpdate(cfg, m.root, u);
            && (u.previousRoot != m.root || verified == Err(InvalidMapProof) ==> r == Err(ErrMapFork))
            && (verified == Err(InvalidKeyHistory) ==>
                  r == Err(if u.history.record.leaf.event.kind == "enrollment" then ErrEnrollment else ErrRotation))
            && (verified.Ok? && HasException(m.exceptions, u.history.record.leaf.identity) ==>
                  r == Ok(m.(root := u.root)))
            && (r == Err(ErrExceptionCapacity) ==> |m.exceptions| >= cfg.capacity)
            && (r.Ok? ==> r.value.root == u.root && m.exceptions.Keys <= r.value.exceptions.Keys)
  {
    hide VerifyMapUpdate, ValidateMapEvent, FactsFrom;
    StartsHere(cfg, m.root, u);
    if VerifyMapUpdate(cfg, m.root, u).Ok? {
      RejectedAs(cfg, oidc, log, VerifyMapUpdate(cfg, m.root, u).value, u);
    }
  }

  lemma RejectedAs(cfg: Config, oidc: Oidc, log: LogCheckpoint, nextHead: Head, u: MapUpdate)
    ensures var v := ValidateMapEvent(cfg, oidc, log, nextHead, u);
            v.Rejected? ==> v.error == ErrEnrollment || v.error == ErrRotation
  {
    hide VerifyEnrollment, VerifyRotation, ReconstructAccepted, VerifyKeyEventInclusion, MarkerRecordMatches,
         EagerMarkerProven;
  }

  lemma StartsHere(cfg: Config, root: MapRoot, u: MapUpdate)
    ensures VerifyMapUpdate(cfg, root, u) != Err(InvalidMapProof) ==> u.previousRoot == root
  {
  }

  /** The record is in the log as far as the call's own update showed. */
  ghost predicate Shown(s: State, record: DeliveryRecord, seen: map<Uint64, Observed>) {
    && record.index < s.log.size && record.hash == MerkleLog.Leaf(record.event)
    && record.index in seen
    && seen[record.index] == Observed(record.hash, record.event.kind,
         if record.event.kind == ROTATION && record.event.marker.Some? && record.rotation.Some?
         then RotationDigest(record.rotation.value) else NO_DIGEST)
  }

  /** The record is that of a complete delivery for this target, whose content is what was attested. */
  ghost predicate Complete(cfg: Config, record: DeliveryRecord)
    requires record.delivery.Some?
  {
    var d := record.delivery.value;
    var a := d.attestation;
    && record.event == LogEvent(DELIVERY, Some(DeliveryCommitment(
         a.tenant, a.deliveryId, a.fulfillment, a.target, a.generation, a.action, a.identity, a.signingState,
         DeliveryDigest(d))), None)
    && a.deliveryId != "" && a.fulfillment != "" && a.target != ""
    && a.contentDigest == BytesDigest(d.content)
    && a.protocol == DELIVERY_PROTOCOL && a.tenant == cfg.tenant && a.target == cfg.target
    && (a.action == PUT || a.action == REMOVE)
  }

  /** The proof opens the accepted head at event `k`, and the markers at both ends of its window are disclosed. */
  ghost predicate Opened(cfg: Config, s: State, a: ContentAttestation, ip: IdentityProof, seen: map<Uint64, Observed>,
                         k: nat) {
    && OpensHeadAt(cfg, s, a, ip, k)
    && HeadsCommitted(cfg, s.mapRoot) && HeadOf(cfg, s.mapRoot, a.identity) == Some(ip.membership.head)
    && Committed(ip.membership.head)
    && var es := History(ip.membership.head);
       && (k > 0 ==> MarkerDisclosed(es, k, seen))
       && (k + 1 < |es| ==> MarkerDisclosed(es, k + 1, seen))
  }

  /**
   What keeps a delivery from the fence, by the log, the record and the signer's history: the first of the four
   that does not hold names the error, and nothing changes.
   */
  lemma RefusalAnswers(cfg: Config, s: State, record: DeliveryRecord, ip: IdentityProof, seen: map<Uint64, Observed>,
                       k: nat)
    requires Inv(cfg, s) && SeenIsInLog(s.log, seen) && record.delivery.Some?
    requires Opened(cfg, s, record.delivery.value.attestation, ip, seen, k)
    ensures var o, d, es := ReceiveIncluded(cfg, s, record, ip, seen), record.delivery.value,
                History(ip.membership.head);
            && k < |es| && es[k].resulting.StateDigest?
            && (!Shown(s, record, seen) ==> o == Outcome(s, Some(ErrLogFork)))
            && (Shown(s, record, seen) && !Complete(cfg, record) ==> o == Outcome(s, Some(ErrAttestation)))
            && (Shown(s, record, seen) && Complete(cfg, record) && !InWindow(es, k, record.index) ==>
                  o == Outcome(s, Some(ErrSigningState)))
            && (Shown(s, record, seen) && Complete(cfg, record) && InWindow(es, k, record.index) ==>
                  var signed := SignedBy(es[k].resulting.state.key, DELIVERY_PURPOSE, AttestationMessage(d.attestation),
                                         d.signature);
                  && (!signed ==> o == Outcome(s, Some(ErrSignature)))
                  && (signed <==> Verified(cfg, s, record, ip, seen)))
  {
    hide Inv, SigningState, History, OpensHeadAt, HeadsCommitted, HeadOf, MarkerDisclosed, Committed, InWindow,
         SeenIsInLog, Act;
    var a := record.delivery.value.attestation;
    WindowDecides(cfg, s, record.index, a, ip, seen, k);
    OpenedState(cfg, s, record.index, a, ip, seen, k);
    assert Shown(s, record, seen) <==> RecordIncluded(s, record, seen);
    assert Complete(cfg, record) <==> WellFormedDelivery(cfg, record);
  }

  /** The state that the checks find is the one that event `k` produced. */
  lemma OpenedState(cfg: Config, s: State, index: Uint64, a: ContentAttestation, ip: IdentityProof,
                    seen: map<Uint64, Observed>, k: nat)
    requires Inv(cfg, s) && Opened(cfg, s, a, ip, seen, k)
    ensures k < |History(ip.membership.head)| && History(ip.membership.head)[k].resulting.StateDigest?
    ensures var state := SigningState(cfg, s, index, a, ip, seen);
            state.Some? ==> StateDigest(state.value) == History(ip.membership.head)[k].resulting
  {
    hide Justified, TargetOf, GenerationsIncrease, Replay, MarkerDisclosed;
    var es := History(ip.membership.head);
    assert Live(cfg, s.mapRoot, s.exceptions, a.identity);
    EventProofSound(ip.membership.head, ip.signing, es);
    GenerationAt(cfg, s.facts, es, k);
  }

  lemma ActAnswers(s: State, record: DeliveryRecord, d: SignedDelivery, ip: IdentityProof)
    requires TargetOf(s.effects) == Target(s.applied, s.digests, s.generations)
               && GenerationsIncrease(s.effects, s.generations)
    ensures var o, f := Act(s, record, d, ip), d.attestation.fulfillment;
            if !Reached(s.effects, f, d.attestation.generation) then
              && o.error == None
              && o.state.effects
                 == s.effects + [Effect(record.index, d, ip.membership.head, ip.signing.record.leaf.sequence)]
            else
              && o.state == s
              && LatestOn(s.effects, f).Some?
              && o.error == (if LatestOn(s.effects, f).value.delivery == d then None else Some(ErrGeneration))
  {
    hide TargetOf, GenerationsIncrease, Reached, LatestOn;
    LatestDecides(s, d.attestation.fulfillment, d.attestation.generation);
    TargetRemembers(s.effects, d.attestation.fulfillment);
  }

  // ---------------------------------------------------------------- retries

  /** The same delivery once more, with its entries and identity proof, from the checkpoint that the agent retains. */
  function Resent(proof: DeliveryProof, retained: LogCheckpoint): DeliveryProof {
    DeliveryProof([], LogUpdate(retained, retained, [], proof.log.entries), proof.identity)
  }

  /** A delivery that was acted on or acknowledged is acknowledged again, and nothing changes. */
  lemma ActedIsAcknowledged(cfg: Config, oidc: Oidc, s: State, record: DeliveryRecord, proof: DeliveryProof,
                            again: Oidc)
    requires ReceiveDelivery(cfg, oidc, s, record, proof).error == None
    ensures var t := ReceiveDelivery(cfg, oidc, s, record, proof).state;
            ReceiveDelivery(cfg, again, t, record, Resent(proof, t.log)) == Outcome(t, None)
  {
    hide ApplyUpdate, SigningStateOf, WellFormedDelivery, VerifyLogEntry, DistinctIndexes, ObserveAll, Verify,
         VerifyDeliveryRecord;
    var t := ReceiveDelivery(cfg, oidc, s, record, proof).state;
    assert AcceptsLogUpdate(t.log, Resent(proof, t.log).log);
  }

  /**
   A lost acknowledgement is made good: the delivery, sent again from the retained checkpoint, is acknowledged
   once.
   */
  lemma LostAcknowledgementRetries(cfg: Config, oidc: Oidc, s: State, record: DeliveryRecord, proof: DeliveryProof,
                                   again: Oidc)
    requires Deliver(cfg, oidc, s, record, proof).error == Some(ErrAcknowledgementLost)
    ensures var t := Deliver(cfg, oidc, s, record, proof).state;
            Deliver(cfg, again, t, record, Resent(proof, t.log)) == Outcome(t, None)
  {
    hide ReceiveDelivery, AcceptsLogUpdate;
    var received := ReceiveDelivery(cfg, oidc, s, record, proof);
    ReceiveFrame(cfg, oidc, s, record, proof);
    NoStaleInside(cfg, oidc, s, record, proof);
    ActedIsAcknowledged(cfg, oidc, s, record, proof, again);
    var resent := Resent(proof, received.state.log);
    FaultFrame(cfg, again, received.state, record, resent, false, received.state.staleResponses);
    ResentAccepted(cfg, oidc, s, record, proof);
  }

  /** The state with other faults pending and another count of stale answers. */
  function With(s: State, loseAck: bool, n: nat): State {
    s.(loseAck := loseAck, staleResponses := n)
  }

  lemma IncludedFrame(cfg: Config, s: State, record: DeliveryRecord, ip: IdentityProof, seen: map<Uint64, Observed>,
                      lose: bool, n: nat)
    ensures var o := ReceiveIncluded(cfg, s, record, ip, seen);
            ReceiveIncluded(cfg, With(s, lose, n), record, ip, seen) == Outcome(With(o.state, lose, n), o.error)
  {
    hide SigningStateOf, WellFormedDelivery, VerifyDeliveryRecord, Verify;
  }

  lemma AdvanceFrame(s: State, u: LogUpdate, lose: bool, n: nat)
    ensures var o := AdvanceLog(s, u); AdvanceLog(With(s, lose, n), u) == Outcome(With(o.state, lose, n), o.error)
  {
    hide AcceptsLogUpdate;
  }

  /** Receiving neither looks at nor touches faults and counters. */
  lemma FaultFrame(cfg: Config, oidc: Oidc, s: State, record: DeliveryRecord, proof: DeliveryProof, lose: bool, n: nat)
    ensures var o := ReceiveDelivery(cfg, oidc, s, record, proof);
            ReceiveDelivery(cfg, oidc, With(s, lose, n), record, proof) == Outcome(With(o.state, lose, n), o.error)
  {
    hide ApplyUpdates, AdvanceLog, ReceiveIncluded, ObserveAll;
    AdvanceFrame(s, proof.log, lose, n);
    var updates := ApplyUpdates(cfg, oidc, AdvanceLog(s, proof.log).state.log, MapPart(s), proof.mapUpdates);
    assert MapPart(With(s, lose, n)) == MapPart(s);
    if updates.Ok? {
      var m := updates.value;
      var mid := AdvanceLog(s, proof.log).state.(mapRoot := m.root, exceptions := m.exceptions, facts := m.facts);
      IncludedFrame(cfg, mid, record, proof.identity, ObserveAll(proof.log.entries), lose, n);
    }
  }

  lemma ReceiveFrame(cfg: Config, oidc: Oidc, s: State, record: DeliveryRecord, proof: DeliveryProof)
    ensures ReceiveDelivery(cfg, oidc, s, record, proof).state.failBefore == s.failBefore
  {
    hide ApplyUpdates, SigningStateOf, AcceptsLogUpdate, WellFormedDelivery, ObserveAll;
  }

  lemma ResentAccepted(cfg: Config, oidc: Oidc, s: State, record: DeliveryRecord, proof: DeliveryProof)
    requires ReceiveDelivery(cfg, oidc, s, record, proof).error == None
    ensures var t := ReceiveDelivery(cfg, oidc, s, record, proof).state;
            AcceptsLogUpdate(t.log, Resent(proof, t.log).log)
  {
    hide ApplyUpdates, SigningStateOf, WellFormedDelivery, ObserveAll, VerifyLogEntry, DistinctIndexes;
  }

  /**
   The manager's first retry still starts from its older checkpoint. It is answered with the retained one, which
   stays, and the delivery sent again from there is acknowledged.
   */
  lemma StaleRetryRecovers(cfg: Config, oidc: Oidc, s: State, record: DeliveryRecord, proof: DeliveryProof,
                           retry: DeliveryProof,
                           again: Oidc)
    requires Deliver(cfg, oidc, s, record, proof).error == Some(ErrAcknowledgementLost)
    requires var t := Deliver(cfg, oidc, s, record, proof).state;
             retry.log.from.size < t.log.size && retry.log.checkpoint == t.log
    ensures var t := Deliver(cfg, oidc, s, record, proof).state;
            var o := Deliver(cfg, again, t, record, retry);
            && o.error == Some(ErrCheckpointStale(t.log))
            && o.state == t.(staleResponses := t.staleResponses + 1)
            && Deliver(cfg, again, o.state, record, Resent(proof, t.log)) == Outcome(o.state, None)
  {
    hide ReceiveDelivery, AcceptsLogUpdate;
    var t := Deliver(cfg, oidc, s, record, proof).state;
    LostAcknowledgementRetries(cfg, oidc, s, record, proof, again);
    ReceiveFrame(cfg, oidc, s, record, proof);
    FaultFrame(cfg, again, t, record, Resent(proof, t.log), t.loseAck, t.staleResponses + 1);
    NoStaleInside(cfg, oidc, s, record, proof);
  }
}
