/** Run-level theorems about the trust-model-v3 agent: from any first state, through any calls. */
module TrustAgentRuns {
  import opened Common
  import opened TrustProtocol
  import opened KeyChain
  import opened TrustAgentModel
  import opened TrustAgentProofs
  import MerkleLog
  import SparseMap

  // ---------------------------------------------------------------- why an effect was allowed

  /** The log commits to `hash` at `index`. */
  ghost predicate LogHolds(log: LogCheckpoint, index: nat, hash: LogHash) {
    index < log.size && MerkleLog.LeafAt(log.root, index, log.size) == Some(hash)
  }

  lemma LogHoldsLater(a: LogCheckpoint, b: LogCheckpoint, index: nat, hash: LogHash)
    requires MerkleLog.Continues(a, b) && LogHolds(a, index, hash)
    ensures LogHolds(b, index, hash)
  {
  }

  /** The rotation marker of event `k` is in the log at the position the event names. */
  ghost predicate MarkerInLog(log: LogCheckpoint, es: seq<KeyLeaf>, k: nat) {
    && k < |es| && es[k].event.marker.Some? && es[k].event.rotation.Some?
    && LogHolds(log, es[k].event.marker.value.index, MarkerLeaf(es[k].event.rotation.value))
  }

  /**
   Everything that must hold of a delivery acted on: it is addressed here and complete, the log commits to it at
   its index, its signer's history passes the audit, its signature is that of the key of the state it names, and
   its index lies in that state's window, both ends of which are rotation markers in the log.
   */
  ghost predicate Justified(cfg: Config, facts: set<TokenFact>, log: LogCheckpoint, e: Effect) {
    var a := e.delivery.attestation;
    && a.protocol == DELIVERY_PROTOCOL && a.tenant == cfg.tenant && a.target == cfg.target
    && (a.action == PUT || a.action == REMOVE) && a.contentDigest == BytesDigest(e.delivery.content)
    && CommitmentFromDelivery(e.delivery).Some?
    && LogHolds(log, e.index, MerkleLog.Leaf(LogEvent(DELIVERY, CommitmentFromDelivery(e.delivery), None)))
    && Committed(e.head) && e.head.identity == a.identity
    && var es := History(e.head);
       && Replay(cfg, facts, es).Some?
       && e.sequence < |es| && es[e.sequence].resulting == a.signingState
       && InWindow(es, e.sequence, e.index)
       && (e.sequence > 0 ==> MarkerInLog(log, es, e.sequence))
       && (e.sequence as int + 1 < |es| ==> MarkerInLog(log, es, e.sequence + 1))
       && Replay(cfg, facts, es[..e.sequence + 1]).Some?
       && SignedBy(Replay(cfg, facts, es[..e.sequence + 1]).value.key, DELIVERY_PURPOSE,
                   AttestationMessage(a), e.delivery.signature)
  }

  lemma JustifiedLater(cfg: Config, facts: set<TokenFact>, more: set<TokenFact>, a: LogCheckpoint, b: LogCheckpoint,
                       e: Effect)
    requires Justified(cfg, facts, a, e) && facts <= more && MerkleLog.Continues(a, b)
    ensures Justified(cfg, more, b, e)
  {
    var es := History(e.head);
    ReplayMonotone(cfg, facts, more, es);
    ReplayMonotone(cfg, facts, more, es[..e.sequence + 1]);
    LogHoldsLater(a, b, e.index, MerkleLog.Leaf(LogEvent(DELIVERY, CommitmentFromDelivery(e.delivery), None)));
    if e.sequence > 0 {
      LogHoldsLater(a, b, es[e.sequence].event.marker.value.index, MarkerLeaf(es[e.sequence].event.rotation.value));
    }
    if e.sequence as int + 1 < |es| {
      LogHoldsLater(a, b, es[e.sequence + 1].event.marker.value.index,
        MarkerLeaf(es[e.sequence + 1].event.rotation.value));
    }
  }

  // ---------------------------------------------------------------- the target as a fold of its effects

  datatype Target = Target(applied: map<string, SignedDelivery>, digests: map<string, Digest>,
                           generations: map<string, Uint64>)

  function TargetOf(effects: seq<Effect>): Target
    decreases |effects|
  {
    if effects == [] then Target(map[], map[], map[])
    else
      var t := TargetOf(effects[..|effects| - 1]);
      var d := effects[|effects| - 1].delivery;
      var f := d.attestation.fulfillment;
      Target(if d.attestation.action == REMOVE then t.applied - {f} else t.applied[f := d],
             t.digests[f := DeliveryDigest(d)],
             t.generations[f := d.attestation.generation])
  }

  /** Generations of one fulfillment strictly increase, and none exceeds the retained high-water mark. */
  ghost predicate GenerationsIncrease(effects: seq<Effect>, generations: map<string, Uint64>) {
    && (forall i, j | 0 <= i < j < |effects| && FulfillmentOf(effects[i]) == FulfillmentOf(effects[j]) ::
          GenerationOf(effects[i]) < GenerationOf(effects[j]))
    && (forall i | 0 <= i < |effects| ::
          FulfillmentOf(effects[i]) in generations
            && GenerationOf(effects[i]) <= generations[FulfillmentOf(effects[i])])
  }

  function FulfillmentOf(e: Effect): string { e.delivery.attestation.fulfillment }
  function GenerationOf(e: Effect): Uint64 { e.delivery.attestation.generation }

  // ---------------------------------------------------------------- invariant and progress of whole states

  ghost predicate Inv(cfg: Config, s: State) {
    && MapInv(cfg, MapPart(s))
    && MerkleLog.ValidCheckpoint(s.log)
    && (forall i | 0 <= i < |s.effects| :: Justified(cfg, s.facts, s.log, s.effects[i]))
    && TargetOf(s.effects) == Target(s.applied, s.digests, s.generations)
    && GenerationsIncrease(s.effects, s.generations)
  }

  ghost predicate Progress(cfg: Config, s: State, t: State) {
    && MapProgress(cfg, MapPart(s), MapPart(t))
    && MerkleLog.Continues(s.log, t.log)
    && IsPrefix(s.effects, t.effects)
    && (forall f | f in s.generations :: f in t.generations && s.generations[f] <= t.generations[f])
  }

  lemma ProgressReflexive(cfg: Config, s: State)
    requires Inv(cfg, s)
    ensures Progress(cfg, s, s)
  {
  }

  lemma ProgressTransitive(cfg: Config, a: State, b: State, c: State)
    requires Progress(cfg, a, b) && Progress(cfg, b, c)
    ensures Progress(cfg, a, c)
  {
    MapProgressTransitive(cfg, MapPart(a), MapPart(b), MapPart(c));
    MerkleLog.ContinuesTransitive(a.log, b.log, c.log);
    PrefixTransitive(a.effects, b.effects, c.effects);
  }

  lemma InitInv(cfg: Config)
    ensures Inv(cfg, Init(cfg))
  {
    var s := Init(cfg);
    assert forall p: SparseMap.Path :: SparseMap.Lookup(cfg.tenant, s.mapRoot, p).None?;
    assert forall id: Digest :: HeadOf(cfg, s.mapRoot, id).None?;
  }

  // ---------------------------------------------------------------- advancing the log and the map

  /** Moving the log and the map forward keeps the invariant: old effects stay justified. */
  lemma AdvanceKeeps(cfg: Config, s: State, t: State)
    requires Inv(cfg, s)
    requires MapInv(cfg, MapPart(t)) && MapProgress(cfg, MapPart(s), MapPart(t))
    requires MerkleLog.ValidCheckpoint(t.log) && MerkleLog.Continues(s.log, t.log)
    requires t.effects == s.effects && t.applied == s.applied && t.digests == s.digests
               && t.generations == s.generations
    ensures Inv(cfg, t) && Progress(cfg, s, t)
  {
    forall i | 0 <= i < |t.effects|
      ensures Justified(cfg, t.facts, t.log, t.effects[i])
    {
      JustifiedLater(cfg, s.facts, t.facts, s.log, t.log, s.effects[i]);
    }
  }

  lemma AdvanceLogKeeps(cfg: Config, s: State, u: LogUpdate)
    requires Inv(cfg, s)
    ensures Inv(cfg, AdvanceLog(s, u).state) && Progress(cfg, s, AdvanceLog(s, u).state)
    ensures AdvanceLog(s, u).error.None? ==> SeenIsInLog(u.checkpoint, ObserveAll(u.entries))
  {
    ProgressReflexive(cfg, s);
    if AcceptsLogUpdate(s.log, u) {
      LogUpdateSound(s.log, u);
      AdvanceKeeps(cfg, s, AdvanceLog(s, u).state);
      SeenFromEntries(u.checkpoint, u.entries);
    }
  }

  /** Every observed record is what the log commits to at its index. */
  ghost predicate SeenIsInLog(log: LogCheckpoint, seen: map<Uint64, Observed>) {
    forall i | i in seen :: LogHolds(log, i, seen[i].hash)
  }

  lemma {:induction false} SeenFromEntries(log: LogCheckpoint, entries: seq<LogEntry>)
    requires forall i | 0 <= i < |entries| ::
               && entries[i].record.index < log.size
               && MerkleLog.LeafAt(log.root, entries[i].record.index, log.size) == Some(entries[i].record.hash)
    ensures SeenIsInLog(log, ObserveAll(entries))
    decreases |entries|
  {
    if entries != [] {
      SeenFromEntries(log, entries[..|entries| - 1]);
    }
  }

  lemma SyncMapKeeps(cfg: Config, oidc: Oidc, s: State, us: seq<MapUpdate>)
    requires Inv(cfg, s)
    ensures Inv(cfg, SyncMap(cfg, oidc, s, us).state) && Progress(cfg, s, SyncMap(cfg, oidc, s, us).state)
  {
    ProgressReflexive(cfg, s);
    if ApplyUpdates(cfg, oidc, s.log, MapPart(s), us).Ok? {
      ApplyUpdatesKeeps(cfg, oidc, s.log, MapPart(s), us);
      SemanticIrrelevant(cfg, MapPart(s), ApplyUpdates(cfg, oidc, s.log, MapPart(s), us).value);
      AdvanceKeeps(cfg, s, SyncMap(cfg, oidc, s, us).state);
    }
  }

  /** The error remembered by a batch is no part of what the invariant speaks of. */
  lemma SemanticIrrelevant(cfg: Config, m: MapState, n: MapState)
    requires MapInv(cfg, n) && MapProgress(cfg, m, n)
    ensures MapInv(cfg, n.(semantic := None)) && MapProgress(cfg, m, n.(semantic := None))
  {
  }

  // ---------------------------------------------------------------- acting on a delivery

  /** The checks on the signing state place the delivery in the window of the state it names. */
  lemma SigningStateSound(cfg: Config, s: State, index: Uint64, a: ContentAttestation, ip: IdentityProof,
                          seen: map<Uint64, Observed>)
    requires Inv(cfg, s) && SeenIsInLog(s.log, seen)
    requires SigningState(cfg, s, index, a, ip, seen).Some?
    ensures var head, k := ip.membership.head, ip.signing.record.leaf.sequence;
            && HeadOf(cfg, s.mapRoot, a.identity) == Some(head)
            && Live(cfg, s.mapRoot, s.exceptions, a.identity)
            && Committed(head) && head.identity == a.identity
            && var es := History(head);
               && Replay(cfg, s.facts, es).Some?
               && k < |es| && es[k] == ip.signing.record.leaf && es[k].resulting == a.signingState
               && Replay(cfg, s.facts, es[..k + 1]) == SigningState(cfg, s, index, a, ip, seen)
               && InWindow(es, k, index)
               && (k > 0 ==> MarkerInLog(s.log, es, k))
               && (k as int + 1 < |es| ==> MarkerInLog(s.log, es, k + 1))
  {
    var head, k := ip.membership.head, ip.signing.record.leaf.sequence;
    MembershipIsHead(cfg, s.mapRoot, ip.membership);
    assert Live(cfg, s.mapRoot, s.exceptions, a.identity);
    var es := History(head);
    EventProofSound(head, ip.signing, es);
    ShortcutIsReplay(cfg, s.facts, es, k);
    EstablishedSound(cfg, s, index, es, k, seen);
    if k as int + 1 < |es| {
      NotRetiredSound(cfg, s, index, es, k, ip, seen);
    }
  }

  lemma EstablishedSound(cfg: Config, s: State, index: Uint64, es: seq<KeyLeaf>, k: nat, seen: map<Uint64, Observed>)
    requires SeenIsInLog(s.log, seen) && Replay(cfg, s.facts, es).Some? && k < |es|
    requires Established(es[k], index, seen)
    ensures k > 0 ==> MarkerInLog(s.log, es, k) && es[k].event.marker.value.index < index
  {
    if k > 0 {
      ReplayStep(cfg, s.facts, es, k);
      assert ROTATION[0] != ENROLLMENT[0];
    }
  }

  lemma SuccessorProven(cfg: Config, index: Uint64, k: nat, ip: IdentityProof, signing: KeyLeaf,
                        seen: map<Uint64, Observed>)
    requires signing.sequence == k && k + 1 < ip.membership.head.size
    requires NotRetired(cfg, ip, signing, index, seen)
    ensures ip.successor.Some?
    ensures var successor := ip.successor.value.record.leaf;
            && VerifyKeyEventInclusion(ip.membership.head, ip.successor.value)
            && successor.sequence == k + 1
            && BoundaryFor(successor).Boundary?
            && BoundaryVerified(BoundaryFor(successor), seen)
            && index < BoundaryFor(successor).marker.index
  {
  }

  lemma NotRetiredSound(cfg: Config, s: State, index: Uint64, es: seq<KeyLeaf>, k: nat, ip: IdentityProof,
                        seen: map<Uint64, Observed>)
    requires SeenIsInLog(s.log, seen) && Replay(cfg, s.facts, es).Some? && k + 1 < |es|
    requires HeadCommits(ip.membership.head, es)
    requires NotRetired(cfg, ip, es[k], index, seen)
    ensures MarkerInLog(s.log, es, k + 1) && index < es[k + 1].event.marker.value.index
  {
    SuccessorProven(cfg, index, k, ip, es[k], seen);
    EventProofSound(ip.membership.head, ip.successor.value, es);
    ReplayStep(cfg, s.facts, es, k + 1);
  }

  /** The disclosed records include the rotation marker of event `k`, with its rotation. */
  ghost predicate MarkerDisclosed(es: seq<KeyLeaf>, k: nat, seen: map<Uint64, Observed>) {
    && k < |es| && es[k].event.marker.Some? && es[k].event.rotation.Some?
    && es[k].event.marker.value.index in seen
    && seen[es[k].event.marker.value.index]
       == Observed(es[k].event.marker.value.hash, ROTATION, RotationDigest(es[k].event.rotation.value))
  }

  /** An identity proof that opens the accepted head at event `k` and, when there is one, at its successor. */
  ghost predicate OpensHeadAt(cfg: Config, s: State, a: ContentAttestation, ip: IdentityProof, k: nat) {
    var head := ip.membership.head;
    && head.identity == a.identity && VerifyMembership(cfg, s.mapRoot, ip.membership)
    && !HasException(s.exceptions, a.identity)
    && VerifyKeyEventInclusion(head, ip.signing) && ip.signing.record.leaf.sequence == k
    && ip.signing.record.leaf.resulting == a.signingState
    && (k + 1 < head.size <==> ip.successor.Some?)
    && (k + 1 < head.size ==>
          VerifyKeyEventInclusion(head, ip.successor.value) && ip.successor.value.record.leaf.sequence == k + 1)
  }

  /**
   The cutoff is exact: given proofs that open the accepted head and disclose the markers at both ends of
   the signing state's window, the signing-state checks pass if and only if the index lies in the window.
   */
  lemma WindowDecides(cfg: Config, s: State, index: Uint64, a: ContentAttestation, ip: IdentityProof,
                      seen: map<Uint64, Observed>, k: nat)
    requires Inv(cfg, s) && SeenIsInLog(s.log, seen) && OpensHeadAt(cfg, s, a, ip, k)
    requires HeadsCommitted(cfg, s.mapRoot) && HeadOf(cfg, s.mapRoot, a.identity) == Some(ip.membership.head)
    requires var es := History(ip.membership.head);
             && (k > 0 ==> MarkerDisclosed(es, k, seen))
             && (k + 1 < |es| ==> MarkerDisclosed(es, k + 1, seen))
    ensures SigningState(cfg, s, index, a, ip, seen).Some? <==> InWindow(History(ip.membership.head), k, index)
  {
    var es := History(ip.membership.head);
    if SigningState(cfg, s, index, a, ip, seen).Some? {
      SigningStateSound(cfg, s, index, a, ip, seen);
    } else if InWindow(es, k, index) {
      assert Live(cfg, s.mapRoot, s.exceptions, a.identity);
      assert Replay(cfg, s.facts, es).Some?;
      EventProofSound(ip.membership.head, ip.signing, es);
      ShortcutIsReplay(cfg, s.facts, es, k);
      ReplayPrefix(cfg, s.facts, es, k + 1);
      ReplayShape(cfg, s.facts, es[..k + 1]);
      EstablishedComplete(cfg, s.facts, index, es, k, seen);
      NotRetiredComplete(cfg, s.facts, index, es, k, ip, seen);
      PassesAll(cfg, s, index, a, ip, seen);
    }
  }

  /**
   The last state of the accepted head has no end: whatever else the log holds beyond it, a rotation marker of
   the same identity included, the checks pass for every index after the state's own marker.
   */
  lemma LastStateUnbounded(cfg: Config, s: State, index: Uint64, a: ContentAttestation, ip: IdentityProof,
                           seen: map<Uint64, Observed>, k: nat)
    requires Inv(cfg, s) && SeenIsInLog(s.log, seen) && OpensHeadAt(cfg, s, a, ip, k)
    requires HeadsCommitted(cfg, s.mapRoot) && HeadOf(cfg, s.mapRoot, a.identity) == Some(ip.membership.head)
    requires var es := History(ip.membership.head); k + 1 == |es| && (k > 0 ==> MarkerDisclosed(es, k, seen))
    ensures SigningState(cfg, s, index, a, ip, seen).Some? <==>
              (k > 0 ==> History(ip.membership.head)[k].event.marker.value.index < index)
  {
    WindowDecides(cfg, s, index, a, ip, seen, k);
  }

  lemma PassesAll(cfg: Config, s: State, index: Uint64, a: ContentAttestation, ip: IdentityProof,
                  seen: map<Uint64, Observed>)
    requires OpensHeadAt(cfg, s, a, ip, ip.signing.record.leaf.sequence)
    requires var state := ReconstructAccepted(cfg, ip.signing.record.leaf);
             state.Some? && StateDigest(state.value) == a.signingState && state.value.identity == a.identity
    requires Established(ip.signing.record.leaf, index, seen)
               && NotRetired(cfg, ip, ip.signing.record.leaf, index, seen)
    ensures SigningState(cfg, s, index, a, ip, seen).Some?
  {
  }

  lemma EstablishedComplete(cfg: Config, facts: set<TokenFact>, index: Uint64, es: seq<KeyLeaf>, k: nat,
                            seen: map<Uint64, Observed>)
    requires Replay(cfg, facts, es).Some? && InWindow(es, k, index)
    requires k > 0 ==> MarkerDisclosed(es, k, seen)
    ensures Established(es[k], index, seen)
  {
    if k == 0 {
      ReplayFirst(cfg, facts, es);
    } else {
      ReplayStep(cfg, facts, es, k);
      assert ROTATION[0] != ENROLLMENT[0];
    }
  }

  lemma NotRetiredComplete(cfg: Config, facts: set<TokenFact>, index: Uint64, es: seq<KeyLeaf>, k: nat,
                           ip: IdentityProof, seen: map<Uint64, Observed>)
    requires Replay(cfg, facts, es).Some? && InWindow(es, k, index) && HeadCommits(ip.membership.head, es)
    requires k + 1 < |es| <==> ip.successor.Some?
    requires k + 1 < |es| ==>
               && MarkerDisclosed(es, k + 1, seen)
               && VerifyKeyEventInclusion(ip.membership.head, ip.successor.value)
               && ip.successor.value.record.leaf.sequence == k + 1
    ensures NotRetired(cfg, ip, es[k], index, seen)
  {
    hide Replay, VerifyKeyEventInclusion;
    if k + 1 < |es| {
      EventProofSound(ip.membership.head, ip.successor.value, es);
      ReplayStep(cfg, facts, es, k + 1);
      ShortcutIsReplay(cfg, facts, es, k + 1);
      assert ROTATION[0] != ENROLLMENT[0];
    }
  }

  lemma GenerationsAppend(effects: seq<Effect>, generations: map<string, Uint64>, e: Effect)
    requires GenerationsIncrease(effects, generations)
    requires FulfillmentOf(e) in generations ==> generations[FulfillmentOf(e)] < GenerationOf(e)
    ensures GenerationsIncrease(effects + [e], generations[FulfillmentOf(e) := GenerationOf(e)])
  {
  }

  lemma AppendKeeps(cfg: Config, s: State, t: State, e: Effect)
    requires Inv(cfg, s) && Justified(cfg, s.facts, s.log, e)
    requires t.effects == s.effects + [e] && MapPart(t) == MapPart(s) && t.log == s.log
    requires TargetOf(t.effects) == Target(t.applied, t.digests, t.generations)
    requires t.generations == s.generations[FulfillmentOf(e) := GenerationOf(e)]
    requires FulfillmentOf(e) in s.generations ==> s.generations[FulfillmentOf(e)] < GenerationOf(e)
    ensures Inv(cfg, t) && Progress(cfg, s, t)
  {
    hide Justified, MapInv, MapProgress;
    GenerationsAppend(s.effects, s.generations, e);
    forall i | 0 <= i < |t.effects|
      ensures Justified(cfg, t.facts, t.log, t.effects[i])
    {
      assert t.effects[i] == if i < |s.effects| then s.effects[i] else e;
    }
    assert t.effects[..|s.effects|] == s.effects;
    ProgressReflexive(cfg, s);
  }

  /** Acting either changes nothing or appends one effect and folds it into the target. */
  lemma ActShape(s: State, record: DeliveryRecord, d: SignedDelivery, ip: IdentityProof)
    requires TargetOf(s.effects) == Target(s.applied, s.digests, s.generations)
    ensures var t := Act(s, record, d, ip).state;
            var e := Effect(record.index, d, ip.membership.head, ip.signing.record.leaf.sequence);
            || t == s
            || (&& t.effects == s.effects + [e] && MapPart(t) == MapPart(s) && t.log == s.log
                && TargetOf(t.effects) == Target(t.applied, t.digests, t.generations)
                && t.generations == s.generations[FulfillmentOf(e) := GenerationOf(e)]
                && (FulfillmentOf(e) in s.generations ==> s.generations[FulfillmentOf(e)] < GenerationOf(e)))
  {
    var t := Act(s, record, d, ip).state;
    if t != s {
      assert t.effects[..|t.effects| - 1] == s.effects;
    }
  }

  lemma ActKeeps(cfg: Config, s: State, record: DeliveryRecord, d: SignedDelivery, ip: IdentityProof)
    requires Inv(cfg, s)
    requires Justified(cfg, s.facts, s.log,
               Effect(record.index, d, ip.membership.head, ip.signing.record.leaf.sequence))
    ensures var t := Act(s, record, d, ip).state;
            && Inv(cfg, t) && Progress(cfg, s, t)
            && t.mapRoot == s.mapRoot && t.exceptions == s.exceptions
            && (t.effects == s.effects
                || t.effects == s.effects + [Effect(record.index, d, ip.membership.head,
                   ip.signing.record.leaf.sequence)])
  {
    ActShape(s, record, d, ip);
    var t := Act(s, record, d, ip).state;
    if t == s {
      ProgressReflexive(cfg, s);
    } else {
      AppendKeeps(cfg, s, t, Effect(record.index, d, ip.membership.head, ip.signing.record.leaf.sequence));
    }
  }

  /** A delivery that passes every check is justified. */
  lemma CheckedIsJustified(cfg: Config, s: State, record: DeliveryRecord, ip: IdentityProof,
                           seen: map<Uint64, Observed>)
    requires Inv(cfg, s) && SeenIsInLog(s.log, seen)
    requires RecordIncluded(s, record, seen) && WellFormedDelivery(cfg, record)
    requires var d := record.delivery.value;
             var state := SigningState(cfg, s, record.index, d.attestation, ip, seen);
             state.Some? && Verify(state.value.key, DELIVERY_PURPOSE, AttestationMessage(d.attestation), d.signature)
    ensures Justified(cfg, s.facts, s.log,
                      Effect(record.index, record.delivery.value, ip.membership.head, ip.signing.record.leaf.sequence))
    ensures var a := record.delivery.value.attestation;
            && Live(cfg, s.mapRoot, s.exceptions, a.identity)
            && HeadOf(cfg, s.mapRoot, a.identity) == Some(ip.membership.head)
  {
    hide Inv, SigningState, Replay, History, HeadOf;
    var d := record.delivery.value;
    SigningStateSound(cfg, s, record.index, d.attestation, ip, seen);
    assert record.event == LogEvent(DELIVERY, CommitmentFromDelivery(d), None);
  }

  /** New effects of a step come from identities that are mapped and not excepted afterwards, under the head of then. */
  ghost predicate EffectsLive(cfg: Config, s: State, t: State) {
    && |s.effects| <= |t.effects|
    && forall i | |s.effects| <= i < |t.effects| ::
         var a := t.effects[i].delivery.attestation;
         && Live(cfg, t.mapRoot, t.exceptions, a.identity)
         && HeadOf(cfg, t.mapRoot, a.identity) == Some(t.effects[i].head)
  }

  /** Acting on a delivery adds only justified effects, signed by an identity without an exception. */
  lemma ReceiveKeeps(cfg: Config, s: State, record: DeliveryRecord, ip: IdentityProof, seen: map<Uint64, Observed>)
    requires Inv(cfg, s) && SeenIsInLog(s.log, seen)
    ensures var t := ReceiveIncluded(cfg, s, record, ip, seen).state;
            Inv(cfg, t) && Progress(cfg, s, t) && EffectsLive(cfg, s, t)
  {
    hide Inv, Progress, Act, Justified, SigningState, Live, HeadOf, WellFormedDelivery, RecordIncluded;
    ProgressReflexive(cfg, s);
    if RecordIncluded(s, record, seen) && WellFormedDelivery(cfg, record) {
      assert record.delivery.Some? by { DeliveryPresent(cfg, record); }
      var d := record.delivery.value;
      var state := SigningState(cfg, s, record.index, d.attestation, ip, seen);
      if state.Some? && Verify(state.value.key, DELIVERY_PURPOSE, AttestationMessage(d.attestation), d.signature) {
        CheckedIsJustified(cfg, s, record, ip, seen);
        ActKeeps(cfg, s, record, d, ip);
      }
    }
  }

  lemma DeliveryPresent(cfg: Config, record: DeliveryRecord)
    requires WellFormedDelivery(cfg, record)
    ensures record.delivery.Some?
  {
  }

  // ---------------------------------------------------------------- steps and runs

  lemma NoNewEffects(cfg: Config, s: State, t: State)
    requires t.effects == s.effects
    ensures EffectsLive(cfg, s, t)
  {
  }

  lemma ReceiveDeliveryKeeps(cfg: Config, oidc: Oidc, s: State, record: DeliveryRecord, proof: DeliveryProof)
    requires Inv(cfg, s)
    ensures var t := ReceiveDelivery(cfg, oidc, s, record, proof).state;
            Inv(cfg, t) && Progress(cfg, s, t) && EffectsLive(cfg, s, t)
  {
    hide Inv, MapProgress, Justified, ReceiveIncluded, ApplyUpdates, Live, HeadOf, SeenIsInLog, AcceptsLogUpdate,
      ObserveAll;
    var advanced := AdvanceLog(s, proof.log);
    AdvanceLogKeeps(cfg, s, proof.log);
    if advanced.error.None? {
      var mid := SyncMap(cfg, oidc, advanced.state, proof.mapUpdates).state;
      SyncMapKeeps(cfg, oidc, advanced.state, proof.mapUpdates);
      if ApplyUpdates(cfg, oidc, advanced.state.log, MapPart(s), proof.mapUpdates).Ok? {
        var seen := ObserveAll(proof.log.entries);
        var t := ReceiveIncluded(cfg, mid, record, proof.identity, seen).state;
        ReceiveKeeps(cfg, mid, record, proof.identity, seen);
        ProgressTransitive(cfg, s, advanced.state, mid);
        ProgressTransitive(cfg, s, mid, t);
      }
    }
  }

  /** Fault counters are no part of what the invariant speaks of. */
  lemma FaultsIrrelevant(cfg: Config, s: State, t: State, failBefore: nat, loseAck: bool, staleResponses: nat)
    requires Inv(cfg, t) && Progress(cfg, s, t) && EffectsLive(cfg, s, t)
    ensures var t' := t.(failBefore := failBefore, loseAck := loseAck, staleResponses := staleResponses);
            Inv(cfg, t') && Progress(cfg, s, t') && EffectsLive(cfg, s, t')
  {
    hide MapInv, MapProgress, Justified, Live, HeadOf;
    assert MapPart(t.(failBefore := failBefore, loseAck := loseAck, staleResponses := staleResponses)) == MapPart(t);
  }

  lemma DeliverKeeps(cfg: Config, oidc: Oidc, s: State, record: DeliveryRecord, proof: DeliveryProof)
    requires Inv(cfg, s)
    ensures var t := Deliver(cfg, oidc, s, record, proof).state;
            Inv(cfg, t) && Progress(cfg, s, t) && EffectsLive(cfg, s, t)
  {
    hide Inv, Progress, EffectsLive, ReceiveDelivery, AcceptsLogUpdate;
    if s.failBefore > 0 {
      ProgressReflexive(cfg, s);
      NoNewEffects(cfg, s, s);
      FaultsIrrelevant(cfg, s, s, s.failBefore - 1, s.loseAck, s.staleResponses);
    } else {
      AdvanceLogKeeps(cfg, s, proof.log);
      var advanced := AdvanceLog(s, proof.log).state;
      NoNewEffects(cfg, s, advanced);
      if IsStale(proof.log, s.log) {
        FaultsIrrelevant(cfg, s, advanced, advanced.failBefore, advanced.loseAck, s.staleResponses + 1);
      } else {
        ReceiveDeliveryKeeps(cfg, oidc, s, record, proof);
        var t := ReceiveDelivery(cfg, oidc, s, record, proof).state;
        FaultsIrrelevant(cfg, s, t, t.failBefore, false, t.staleResponses);
      }
    }
  }

  /** Every call keeps the invariant, makes progress, and acts only for live identities. */
  lemma StepKeeps(cfg: Config, s: State, c: Call)
    requires Inv(cfg, s)
    ensures var t := Step(cfg, s, c).state;
            Inv(cfg, t) && Progress(cfg, s, t) && EffectsLive(cfg, s, t)
  {
    hide Inv, Progress, EffectsLive, Deliver, ReceiveDelivery, AcceptsLogUpdate, ApplyUpdates;
    ProgressReflexive(cfg, s);
    NoNewEffects(cfg, s, s);
    match c
    case CallSyncMap(oidc, us) =>
      SyncMapKeeps(cfg, oidc, s, us);
      NoNewEffects(cfg, s, SyncMap(cfg, oidc, s, us).state);
    case CallAdvanceLog(u) =>
      AdvanceLogKeeps(cfg, s, u);
      NoNewEffects(cfg, s, AdvanceLog(s, u).state);
    case CallReceive(oidc, record, proof) => ReceiveDeliveryKeeps(cfg, oidc, s, record, proof);
    case CallDeliver(oidc, record, proof) => DeliverKeeps(cfg, oidc, s, record, proof);
    case CallFailNext(n) => FaultsIrrelevant(cfg, s, s, s.failBefore + n, s.loseAck, s.staleResponses);
    case CallLoseAck => FaultsIrrelevant(cfg, s, s, s.failBefore, true, s.staleResponses);
  }

  /** Every reachable state satisfies the invariant. */
  lemma {:induction false} RunKeeps(cfg: Config, s: State, calls: seq<Call>)
    requires Inv(cfg, s)
    ensures Inv(cfg, Run(cfg, s, calls)) && Progress(cfg, s, Run(cfg, s, calls))
    decreases |calls|
  {
    ProgressReflexive(cfg, s);
    if calls != [] {
      var t := Run(cfg, s, calls[..|calls| - 1]);
      RunKeeps(cfg, s, calls[..|calls| - 1]);
      StepKeeps(cfg, t, calls[|calls| - 1]);
      ProgressTransitive(cfg, s, t, Run(cfg, s, calls));
    }
  }

  // ---------------------------------------------------------------- theorems

  /** `next` is a rotation that the key of the state `previous` produced has signed. */
  ghost predicate AuthorizedBy(previous: KeyLeaf, next: KeyLeaf) {
    && next.event.kind == ROTATION && next.event.rotation.Some?
    && previous.resulting.StateDigest?
    && Verify(previous.resulting.state.key, OLD_KEY_PURPOSE,
              AuthorizationMessage(next.event.rotation.value.authorization), next.event.rotation.value.byOldKey)
  }

  /** The history `es` behind the head `h` is a chain of authorized keys. */
  ghost predicate AuditedChain(cfg: Config, facts: set<TokenFact>, h: Head, es: seq<KeyLeaf>) {
    && HeadCommits(h, es)
    && Replay(cfg, facts, es).Some? && GoodHistory(cfg, facts, es)
    && h.current == StateDigest(Replay(cfg, facts, es).value)
    && es[0].event.kind == ENROLLMENT
    && MarkersAdvance(es)
    && (forall k | 0 <= k < |es| :: es[k].resulting.StateDigest? && es[k].resulting.state.generation == k)
    && (forall k | 0 < k < |es| :: AuthorizedBy(es[k - 1], es[k]))
  }

  lemma ReplayIsAudit(cfg: Config, facts: set<TokenFact>, h: Head, es: seq<KeyLeaf>)
    requires HeadCommits(h, es) && Replay(cfg, facts, es).Some?
    ensures AuditedChain(cfg, facts, h, es)
  {
    hide GoodHistory;
    AuditExact(cfg, facts, es);
    ReplayShape(cfg, facts, es);
    ReplayFirst(cfg, facts, es);
    MarkersOf(cfg, facts, es);
    forall k | 0 <= k < |es|
      ensures es[k].resulting.StateDigest? && es[k].resulting.state.generation == k
    {
      GenerationAt(cfg, facts, es, k);
    }
    forall k | 0 < k < |es|
      ensures AuthorizedBy(es[k - 1], es[k])
    {
      ReplayStep(cfg, facts, es, k);
      ReplayShape(cfg, facts, es[..k]);
    }
  }

  /**
   In every reachable state, an identity that is mapped and not excepted has a history that passes the
   full audit: event 0 is an enrollment the identity provider confirmed, every later event is a rotation
   signed by the key of the state before it, state `k` has generation `k`, and marker indexes increase.
   */
  lemma ReachableChainsValid(cfg: Config, calls: seq<Call>, id: Digest)
    requires var s := Run(cfg, Init(cfg), calls); Live(cfg, s.mapRoot, s.exceptions, id)
    ensures var s := Run(cfg, Init(cfg), calls);
            var h := HeadOf(cfg, s.mapRoot, id).value;
            Committed(h) && AuditedChain(cfg, s.facts, h, History(h))
  {
    hide Run, HeadOf, AuditedChain, Replay;
    var s := Run(cfg, Init(cfg), calls);
    InitInv(cfg);
    RunKeeps(cfg, Init(cfg), calls);
    var h := HeadOf(cfg, s.mapRoot, id).value;
    ReplayIsAudit(cfg, s.facts, h, History(h));
  }

  /** State `sd` of identity `id` is retired at log index `m` under the accepted map root. */
  ghost predicate RetiredAt(cfg: Config, s: State, id: Digest, sd: Digest, m: nat) {
    && HeadsCommitted(cfg, s.mapRoot)
    && Live(cfg, s.mapRoot, s.exceptions, id)
    && exists k: nat :: RetiredByEvent(History(HeadOf(cfg, s.mapRoot, id).value), k, sd, m)
  }

  ghost predicate RetiredByEvent(es: seq<KeyLeaf>, k: nat, sd: Digest, m: nat) {
    && k + 1 < |es| && es[k].resulting == sd
    && es[k + 1].event.marker.Some? && es[k + 1].event.marker.value.index == m
  }

  /** Once retired, a state stays retired at the same index unless its identity falls under an exception. */
  lemma RetirementPersists(cfg: Config, s: State, t: State, id: Digest, sd: Digest, m: nat)
    requires Progress(cfg, s, t) && RetiredAt(cfg, s, id, sd, m)
    ensures HasException(t.exceptions, id) || RetiredAt(cfg, t, id, sd, m)
  {
    var es, es' := History(HeadOf(cfg, s.mapRoot, id).value), History(HeadOf(cfg, t.mapRoot, id).value);
    var k: nat :| RetiredByEvent(es, k, sd, m);
    assert es == es'[..|es|];
    assert RetiredByEvent(es', k, sd, m);
  }

  /** A justified effect under a head that retires its signing state lies before the retiring marker. */
  lemma RetirementBounds(cfg: Config, facts: set<TokenFact>, log: LogCheckpoint, e: Effect, k: nat, m: nat)
    requires Justified(cfg, facts, log, e)
    requires RetiredByEvent(History(e.head), k, e.delivery.attestation.signingState, m)
    ensures e.index < m
  {
    hide Replay, Committed, LogHolds;
    StateOnce(cfg, facts, History(e.head), k, e.sequence);
  }

  /** An exception, once recorded, stays. */
  lemma ExceptionPersists(cfg: Config, s: State, t: State, id: Digest)
    requires Progress(cfg, s, t) && HasException(s.exceptions, id)
    ensures HasException(t.exceptions, id)
  {
    var k :| k in s.exceptions && s.exceptions[k].identity == id;
    assert k in MapPart(s).exceptions;
  }

  /** `id` signed a delivery under state `sd` at log index `m` or later. */
  ghost predicate Overruns(e: Effect, id: Digest, sd: Digest, m: nat) {
    e.delivery.attestation.identity == id && e.delivery.attestation.signingState == sd && e.index >= m
  }

  lemma {:induction false} CutoffFrom(cfg: Config, s: State, calls: seq<Call>, id: Digest, sd: Digest, m: nat)
    requires Inv(cfg, s) && (HasException(s.exceptions, id) || RetiredAt(cfg, s, id, sd, m))
    ensures var t := Run(cfg, s, calls);
            && Inv(cfg, t)
            && (HasException(t.exceptions, id) || RetiredAt(cfg, t, id, sd, m))
            && |s.effects| <= |t.effects|
            && forall i | |s.effects| <= i < |t.effects| :: !Overruns(t.effects[i], id, sd, m)
    decreases |calls|
  {
    hide Step, HeadOf, MapProgress, MapInv, Justified;
    if calls != [] {
      var mid := Run(cfg, s, calls[..|calls| - 1]);
      var t := Run(cfg, s, calls);
      CutoffFrom(cfg, s, calls[..|calls| - 1], id, sd, m);
      StepKeeps(cfg, mid, calls[|calls| - 1]);
      if HasException(mid.exceptions, id) {
        ExceptionPersists(cfg, mid, t, id);
      } else {
        RetirementPersists(cfg, mid, t, id, sd, m);
      }
      forall i | |s.effects| <= i < |t.effects|
        ensures !Overruns(t.effects[i], id, sd, m)
      {
        if i < |mid.effects| {
          assert t.effects[i] == mid.effects[i];
        } else if Overruns(t.effects[i], id, sd, m) {
          var k: nat :| RetiredByEvent(History(HeadOf(cfg, t.mapRoot, id).value), k, sd, m);
          RetirementBounds(cfg, t.facts, t.log, t.effects[i], k, m);
        }
      }
    }
  }

  /**
   Exact rotation cutoff over whole runs: once the agent has accepted a map root that retires state `sd`
   at log index `m`, no later call acts on a delivery signed under `sd` at index `m` or beyond.
   */
  lemma RotationCutoff(cfg: Config, before: seq<Call>, after: seq<Call>, id: Digest, sd: Digest, m: nat)
    requires RetiredAt(cfg, Run(cfg, Init(cfg), before), id, sd, m)
    ensures var s := Run(cfg, Init(cfg), before);
            var t := Run(cfg, s, after);
            && IsPrefix(s.effects, t.effects)
            && forall i | |s.effects| <= i < |t.effects| :: !Overruns(t.effects[i], id, sd, m)
  {
    InitInv(cfg);
    RunKeeps(cfg, Init(cfg), before);
    RunKeeps(cfg, Run(cfg, Init(cfg), before), after);
    CutoffFrom(cfg, Run(cfg, Init(cfg), before), after, id, sd, m);
  }

  lemma {:induction false} NoEffectsFrom(cfg: Config, s: State, calls: seq<Call>, id: Digest)
    requires Inv(cfg, s) && HasException(s.exceptions, id)
    ensures var t := Run(cfg, s, calls);
            && Inv(cfg, t) && HasException(t.exceptions, id) && |s.effects| <= |t.effects|
            && forall i | |s.effects| <= i < |t.effects| :: t.effects[i].delivery.attestation.identity != id
    decreases |calls|
  {
    hide Inv, Step, HeadOf, MapProgress;
    if calls != [] {
      var mid := Run(cfg, s, calls[..|calls| - 1]);
      NoEffectsFrom(cfg, s, calls[..|calls| - 1], id);
      StepKeeps(cfg, mid, calls[|calls| - 1]);
      ExceptionPersists(cfg, mid, Run(cfg, s, calls), id);
      var t := Run(cfg, s, calls);
      assert forall i | 0 <= i < |mid.effects| :: t.effects[i] == mid.effects[i];
    }
  }

  /**
   Exceptions never shrink, never exceed the capacity, hold at most one entry per identity, and from then
   on nothing the excepted identity signed is acted on.
   */
  lemma ExceptionsContain(cfg: Config, before: seq<Call>, after: seq<Call>)
    ensures var s := Run(cfg, Init(cfg), before);
            var t := Run(cfg, s, after);
            && |t.exceptions| <= cfg.capacity
            && (forall k | k in s.exceptions :: k in t.exceptions && t.exceptions[k] == s.exceptions[k])
            && (forall j, k | j in t.exceptions && k in t.exceptions
               && t.exceptions[j].identity == t.exceptions[k].identity :: j == k)
            && |s.effects| <= |t.effects|
            && (forall i | |s.effects| <= i < |t.effects| ::
                  !HasException(s.exceptions, t.effects[i].delivery.attestation.identity))
  {
    var s := Run(cfg, Init(cfg), before);
    var t := Run(cfg, s, after);
    InitInv(cfg);
    RunKeeps(cfg, Init(cfg), before);
    RunKeeps(cfg, s, after);
    assert ExceptionsWellFormed(cfg, MapPart(t).exceptions);
    forall i | |s.effects| <= i < |t.effects|
      ensures !HasException(s.exceptions, t.effects[i].delivery.attestation.identity)
    {
      if HasException(s.exceptions, t.effects[i].delivery.attestation.identity) {
        NoEffectsFrom(cfg, s, after, t.effects[i].delivery.attestation.identity);
      }
    }
    forall k | k in s.exceptions
      ensures k in t.exceptions && t.exceptions[k] == s.exceptions[k]
    {
      assert k in MapPart(s).exceptions;
    }
  }

  /** Whatever is acted on in any run is justified by the final log and the recorded facts. */
  lemma EveryEffectJustified(cfg: Config, calls: seq<Call>, i: nat)
    requires i < |Run(cfg, Init(cfg), calls).effects|
    ensures var s := Run(cfg, Init(cfg), calls);
            Justified(cfg, s.facts, s.log, s.effects[i]) && GoodHistory(cfg, s.facts, History(s.effects[i].head))
  {
    hide Run, GoodHistory;
    InitInv(cfg);
    RunKeeps(cfg, Init(cfg), calls);
    var s := Run(cfg, Init(cfg), calls);
    AuditExact(cfg, s.facts, History(s.effects[i].head));
  }

  /** One log index never carries two packages, however the log grew in between. */
  lemma OneIndexOnePackage(cfg: Config, calls: seq<Call>, i: nat, j: nat)
    requires i < |Run(cfg, Init(cfg), calls).effects| && j < |Run(cfg, Init(cfg), calls).effects|
    requires Run(cfg, Init(cfg), calls).effects[i].index == Run(cfg, Init(cfg), calls).effects[j].index
    ensures Run(cfg, Init(cfg), calls).effects[i].delivery == Run(cfg, Init(cfg), calls).effects[j].delivery
  {
    EveryEffectJustified(cfg, calls, i);
    EveryEffectJustified(cfg, calls, j);
  }

  /**
   A fulfillment and generation are acted on for at most one signed package, at most once; effects on one
   fulfillment have strictly increasing generations, and the target state is the fold of the effects.
   */
  lemma GenerationsActOnce(cfg: Config, calls: seq<Call>)
    ensures var s := Run(cfg, Init(cfg), calls);
            && TargetOf(s.effects) == Target(s.applied, s.digests, s.generations)
            && forall i, j | 0 <= i < j < |s.effects| && FulfillmentOf(s.effects[i]) == FulfillmentOf(s.effects[j]) ::
                 GenerationOf(s.effects[i]) < GenerationOf(s.effects[j])
  {
    InitInv(cfg);
    RunKeeps(cfg, Init(cfg), calls);
  }

  /** The retained log checkpoint only ever moves to an append-only continuation. */
  lemma LogNeverForks(cfg: Config, before: seq<Call>, after: seq<Call>)
    ensures var s := Run(cfg, Init(cfg), before); MerkleLog.Continues(s.log, Run(cfg, s, after).log)
  {
    InitInv(cfg);
    RunKeeps(cfg, Init(cfg), before);
    RunKeeps(cfg, Run(cfg, Init(cfg), before), after);
  }

  /**
   A batch of map updates commits whole: every identity's history grows by exactly the batch's events of that
   identity in order, and the exceptions by exactly the events judged exceptional. Or it changes nothing, and
   then some update is a hard error after a part that would have succeeded.
   */
  lemma BatchAllOrNothing(cfg: Config, oidc: Oidc, s: State, us: seq<MapUpdate>)
    requires Inv(cfg, s)
    ensures HeadsCommitted(cfg, s.mapRoot)
    ensures var t := SyncMap(cfg, oidc, s, us).state;
            if ApplyUpdates(cfg, oidc, s.log, MapPart(s), us).Ok? then
              && HeadsCommitted(cfg, t.mapRoot)
              && (forall id: Digest ::
                    PriorHistory(cfg, t.mapRoot, id) == PriorHistory(cfg, s.mapRoot, id) + EventsOf(us, id))
              && (forall h: KeyHash ::
                    h in t.exceptions <==> h in s.exceptions || RecordedBy(cfg, oidc, s.log, MapPart(s), us, h))
            else
              && t == s
              && exists k: nat :: FailsAt(cfg, oidc, s, us, k)
  {
    hide ApplyUpdates, MapInv, Justified, EventsOf, RecordedBy, PriorHistory, FailsAt, HeadsCommitted;
    if ApplyUpdates(cfg, oidc, s.log, MapPart(s), us).Ok? {
      BatchCommits(cfg, oidc, s.log, MapPart(s), us);
    } else {
      MapInvCommitted(cfg, MapPart(s));
      var k := BatchFailsSomewhere(cfg, oidc, s.log, MapPart(s), us);
      assert FailsAt(cfg, oidc, s, us, k) by { FailsThere(cfg, oidc, s, us, k); }
    }
  }

  lemma FailsThere(cfg: Config, oidc: Oidc, s: State, us: seq<MapUpdate>, k: nat)
    requires k < |us| && ApplyUpdates(cfg, oidc, s.log, MapPart(s), us[..k]).Ok?
               && ApplyUpdates(cfg, oidc, s.log, MapPart(s), us).Err?
    requires ApplyUpdate(cfg, oidc, s.log, ApplyUpdates(cfg, oidc, s.log, MapPart(s), us[..k]).value, us[k])
             == Err(ApplyUpdates(cfg, oidc, s.log, MapPart(s), us).error)
    ensures FailsAt(cfg, oidc, s, us, k)
  {
    hide ApplyUpdates, ApplyUpdate;
  }

  lemma BatchCommits(cfg: Config, oidc: Oidc, log: LogCheckpoint, m: MapState, us: seq<MapUpdate>)
    requires MapInv(cfg, m) && ApplyUpdates(cfg, oidc, log, m, us).Ok?
    ensures var n := ApplyUpdates(cfg, oidc, log, m, us).value;
            && HeadsCommitted(cfg, m.root) && HeadsCommitted(cfg, n.root)
            && (forall id: Digest :: PriorHistory(cfg, n.root, id) == PriorHistory(cfg, m.root, id) + EventsOf(us, id))
            && (forall h: KeyHash :: h in n.exceptions <==> h in m.exceptions || RecordedBy(cfg, oidc, log, m, us, h))
  {
    hide ApplyUpdates, MapInv, EventsOf, RecordedBy, PriorHistory, HeadsCommitted;
    ApplyUpdatesKeeps(cfg, oidc, log, m, us);
    var n := ApplyUpdates(cfg, oidc, log, m, us).value;
    MapInvCommitted(cfg, m);
    MapInvCommitted(cfg, n);
    forall id: Digest
      ensures PriorHistory(cfg, n.root, id) == PriorHistory(cfg, m.root, id) + EventsOf(us, id)
    {
      BatchExtendsHistories(cfg, oidc, log, m, us, id);
    }
    forall h: KeyHash
      ensures h in n.exceptions <==> h in m.exceptions || RecordedBy(cfg, oidc, log, m, us, h)
    {
      BatchRecords(cfg, oidc, log, m, us, h);
    }
  }

  /** The batch succeeds up to position `k`, and the update there is the hard error that the call reports. */
  ghost predicate FailsAt(cfg: Config, oidc: Oidc, s: State, us: seq<MapUpdate>, k: nat) {
    && k < |us|
    && ApplyUpdates(cfg, oidc, s.log, MapPart(s), us[..k]).Ok?
    && var r := ApplyUpdate(cfg, oidc, s.log, ApplyUpdates(cfg, oidc, s.log, MapPart(s), us[..k]).value, us[k]);
       r.Err? && SyncMap(cfg, oidc, s, us).error == Some(r.error)
  }

  /**
   A stale answer reports the checkpoint retained when the call arrived. It is still the retained one
   afterwards unless the update extended the log while claiming to start from an older checkpoint.
   */
  lemma StaleAnswer(cfg: Config, oidc: Oidc, s: State, record: DeliveryRecord, proof: DeliveryProof)
    requires Inv(cfg, s) && s.failBefore == 0
    ensures var o := Deliver(cfg, oidc, s, record, proof);
            var stale := proof.log.from.size < s.log.size
              && (proof.log.checkpoint.size > s.log.size || proof.log.checkpoint == s.log);
            && (o.error.Some? && o.error.value.ErrCheckpointStale? <==> stale)
            && (stale ==>
                  && o.error == Some(ErrCheckpointStale(s.log))
                  && o.state.effects == s.effects && o.state.mapRoot == s.mapRoot
                  && MerkleLog.Continues(s.log, o.state.log)
                  && (o.state.log == s.log <==>
                        !(AcceptsLogUpdate(s.log, proof.log) && proof.log.checkpoint.size > s.log.size)))
  {
    hide Inv, AcceptsLogUpdate, ReceiveDelivery;
    AdvanceLogKeeps(cfg, s, proof.log);
    NoStaleInside(cfg, oidc, s, record, proof);
  }

  /** An update that claims to start from one size of an honest log and carries the proof from another. */
  function ClaimedUpdate(leaves: seq<LogEvent>, claimed: nat, from: nat, to: nat): LogUpdate
    requires claimed <= |leaves| && from <= to <= |leaves| <= MAX_UINT64
  {
    LogUpdate(MerkleLog.CheckpointAt(leaves, claimed), MerkleLog.CheckpointAt(leaves, to),
              MerkleLog.BuildAdvance(leaves, from, to), [])
  }

  /**
   Such a stale answer exists for every honest log and any three of its sizes: the update claims the smallest,
   proves the step from the middle one, at which the agent is, to the largest, is answered with the middle
   one as the retained checkpoint, and leaves the largest retained.
   */
  lemma StaleYetAdvanced(cfg: Config, oidc: Oidc, leaves: seq<LogEvent>, m: nat, k: nat, n: nat,
                         record: DeliveryRecord, proof: DeliveryProof)
    requires m < k < n <= |leaves| <= MAX_UINT64
    requires proof.log == ClaimedUpdate(leaves, m, k, n)
    ensures var s := Run(cfg, Init(cfg), [CallAdvanceLog(ClaimedUpdate(leaves, 0, 0, k))]);
            var o := Deliver(cfg, oidc, s, record, proof);
            && s.log == MerkleLog.CheckpointAt(leaves, k)
            && o.error == Some(ErrCheckpointStale(MerkleLog.CheckpointAt(leaves, k)))
            && o.state.log == MerkleLog.CheckpointAt(leaves, n)
  {
    MerkleLog.AdvanceComplete(leaves, 0, k);
    MerkleLog.AdvanceComplete(leaves, k, n);
    var calls := [CallAdvanceLog(ClaimedUpdate(leaves, 0, 0, k))];
    assert calls[..0] == [];
    assert MerkleLog.CheckpointAt(leaves, 0) == Init(cfg).log;
  }

  /** An error of the checks themselves, and not of the transport around them. */
  predicate Inside(e: Error) {
    !e.ErrCheckpointStale? && e != ErrAcknowledgementLost && e != ErrDeliveryUnavailable
  }

  lemma NoStaleInside(cfg: Config, oidc: Oidc, s: State, record: DeliveryRecord, proof: DeliveryProof)
    ensures var e := ReceiveDelivery(cfg, oidc, s, record, proof).error; e.Some? ==> Inside(e.value)
  {
    hide AcceptsLogUpdate, ApplyUpdates, SigningState, WellFormedDelivery;
    var advanced := AdvanceLog(s, proof.log);
    if advanced.error.None? {
      UpdatesNeverStale(cfg, oidc, advanced.state.log, MapPart(s), proof.mapUpdates);
    }
  }

  lemma VerdictNeverStale(cfg: Config, oidc: Oidc, log: LogCheckpoint, nextHead: Head, u: MapUpdate)
    ensures var v := ValidateMapEvent(cfg, oidc, log, nextHead, u); v.Rejected? ==> Inside(v.error)
  {
    hide VerifyEnrollment, ReconstructAccepted, VerifyRotation, VerifyKeyEventInclusion, EagerMarkerProven,
         MarkerRecordMatches;
  }

  lemma UpdateNeverStale(cfg: Config, oidc: Oidc, log: LogCheckpoint, m: MapState, u: MapUpdate)
    ensures var r := ApplyUpdate(cfg, oidc, log, m, u); r.Err? ==> Inside(r.error)
  {
    hide VerifyMapUpdate, ValidateMapEvent;
    if VerifyMapUpdate(cfg, m.root, u).Ok? {
      VerdictNeverStale(cfg, oidc, log, VerifyMapUpdate(cfg, m.root, u).value, u);
    }
  }

  lemma {:induction false} UpdatesNeverStale(cfg: Config, oidc: Oidc, log: LogCheckpoint, m: MapState,
                                             us: seq<MapUpdate>)
    ensures var r := ApplyUpdates(cfg, oidc, log, m, us); r.Err? ==> Inside(r.error)
    decreases |us|
  {
    if us != [] {
      var before := ApplyUpdates(cfg, oidc, log, m, us[..|us| - 1]);
      UpdatesNeverStale(cfg, oidc, log, m, us[..|us| - 1]);
      if before.Ok? {
        UpdateNeverStale(cfg, oidc, log, before.value, us[|us| - 1]);
      }
    }
  }
}
