/**
 The agent's verdict on key events against the audit of histories: which events it accepts, which it sets aside as
 exceptions, and that one bad event holds up nobody else (poc/trust-model-v3/deliveryagent/agent.go).
 */
module TrustAudit {
  import opened Common
  import opened TrustProtocol
  import opened KeyChain
  import opened TrustAgentModel
  import opened TrustAgentProofs
  import opened TrustAgentRuns
  import MerkleLog

  // ---------------------------------------------------------------- one event

  /** The event passes the audit on top of a history; a first event with what the identity provider says now. */
  ghost predicate Replays(cfg: Config, oidc: Oidc, facts: set<TokenFact>, es: seq<KeyLeaf>, leaf: KeyLeaf) {
    if es == [] then Replay(cfg, FactsFrom(oidc, leaf), [leaf]).Some? else Replay(cfg, facts, es + [leaf]).Some?
  }

  /** A rotation with all its parts, on a history. */
  predicate WholeRotation(u: MapUpdate) {
    var e := u.history.record.leaf.event;
    u.history.previousHead.size != 0 && e.rotation.Some? && e.marker.Some? && e.enrollment.None?
  }

  /**
   The last event of the history is opened, and the rotation's marker record is there, proven where the log
   covers it.
   */
  ghost predicate RotationSupported(log: LogCheckpoint, u: MapUpdate)
    requires WholeRotation(u)
  {
    var e := u.history.record.leaf.event;
    && u.predecessor.Some?
    && VerifyKeyEventInclusion(u.history.previousHead, u.predecessor.value)
    && u.predecessor.value.record.leaf.sequence as int + 1 == u.history.previousHead.size
    && u.rotationRecord.Some?
    && var record := u.rotationRecord.value;
       && VerifyDeliveryRecord(record)
       && Reference(record) == e.marker.value
       && record.rotation == e.rotation
       && (e.marker.value.index < log.size ==> EagerMarkerProven(log, record, u.markerCheckpoint, u.markerInclusion))
  }

  /** The update carries the evidence that its kind of event needs, and an enrollment none that it does not. */
  ghost predicate Supported(log: LogCheckpoint, u: MapUpdate) {
    var kind := u.history.record.leaf.event.kind;
    && (kind == ENROLLMENT ==> u.predecessor.None? && u.rotationRecord.None?)
    && (kind == ROTATION && WholeRotation(u) ==> RotationSupported(log, u))
  }

  lemma EnrollmentVerdict(cfg: Config, oidc: Oidc, nextHead: Head, u: MapUpdate)
    requires u.history.record.leaf.event.kind == ENROLLMENT && u.history.previousHead.size == 0
    requires u.history.record.leaf.sequence == 0 && nextHead.current == u.history.record.leaf.resulting
    ensures var v := ValidateEnrollmentEvent(cfg, oidc, nextHead, u);
            var unasked := u.predecessor.None? && u.rotationRecord.None?;
            && (v == Accepted <==>
                  unasked && Replay(cfg, FactsFrom(oidc, u.history.record.leaf), [u.history.record.leaf]).Some?)
            && (v.Rejected? <==> !unasked)
            && (v.Exceptional? ==> v.error == ErrEnrollment)
  {
    hide MatchesIntent, VerifyPossession;
    var leaf := u.history.record.leaf;
    assert Replay(cfg, FactsFrom(oidc, leaf), [leaf]) == ReplayEnrollment(cfg, FactsFrom(oidc, leaf), leaf);
  }

  /** On an audited history the opened predecessor is its last event, and the state before is the audited one. */
  lemma PredecessorIsLast(cfg: Config, facts: set<TokenFact>, es: seq<KeyLeaf>, head: Head, p: KeyEventProof)
    requires HeadCommits(head, es) && Replay(cfg, facts, es).Some?
    requires VerifyKeyEventInclusion(head, p) && p.record.leaf.sequence as int + 1 == head.size
    ensures p.record.leaf == es[|es| - 1]
    ensures ReconstructAccepted(cfg, p.record.leaf) == Replay(cfg, facts, es)
    ensures StateDigest(Replay(cfg, facts, es).value) == head.current == p.record.leaf.resulting
  {
    EventProofSound(head, p, es);
    ShortcutLast(cfg, facts, es);
    ReplayShape(cfg, facts, es);
  }

  /** A marker record of this rotation matches exactly when the marker names the rotation's leaf. */
  lemma MarkerMatches(r: RotationPackage, marker: LogReference, record: DeliveryRecord)
    requires VerifyDeliveryRecord(record) && Reference(record) == marker && record.rotation == Some(r)
    ensures MarkerRecordMatches(r, marker, record) <==> marker.hash == MarkerLeaf(r)
  {
  }

  lemma MatchingRecord(r: RotationPackage, marker: LogReference, record: DeliveryRecord)
    requires MarkerRecordMatches(r, marker, record)
    ensures VerifyDeliveryRecord(record) && Reference(record) == marker && record.rotation == Some(r)
  {
  }

  lemma ReplayOneMore(cfg: Config, facts: set<TokenFact>, es: seq<KeyLeaf>, leaf: KeyLeaf)
    requires Replay(cfg, facts, es).Some?
    ensures Replay(cfg, facts, es + [leaf]) == ReplayRotation(cfg, Replay(cfg, facts, es).value, es[|es| - 1], leaf)
  {
    assert (es + [leaf])[..|es|] == es;
  }

  /** The last part of rotation validation, with the marker record given. */
  lemma MarkerVerdict(log: LogCheckpoint, nextHead: Head, u: MapUpdate, predecessor: KeyLeaf, next: Digest)
    requires u.history.record.leaf.event.rotation.Some? && u.history.record.leaf.event.marker.Some?
    requires nextHead.current == u.history.record.leaf.resulting
    requires u.rotationRecord.Some?
    requires var e, record := u.history.record.leaf.event, u.rotationRecord.value;
             && VerifyDeliveryRecord(record) && Reference(record) == e.marker.value && record.rotation == e.rotation
             && (e.marker.value.index < log.size ==> EagerMarkerProven(log, record, u.markerCheckpoint,
                u.markerInclusion))
    ensures var v, e := ValidateMarker(log, nextHead, u, predecessor, next), u.history.record.leaf.event;
            && !v.Rejected?
            && (v.Exceptional? ==> v.error == ErrRotation)
            && (v == Accepted <==>
                  && next == u.history.record.leaf.resulting
                  && e.marker.value.hash == MarkerLeaf(e.rotation.value)
                  && (predecessor.event.marker.Some? ==> predecessor.event.marker.value.index < e.marker.value.index))
  {
    hide EagerMarkerProven, MarkerRecordMatches;
    var e := u.history.record.leaf.event;
    MarkerMatches(e.rotation.value, e.marker.value, u.rotationRecord.value);
  }

  lemma RotationVerdict(cfg: Config, log: LogCheckpoint, facts: set<TokenFact>, es: seq<KeyLeaf>, nextHead: Head,
                        u: MapUpdate)
    requires u.history.record.leaf.event.kind == ROTATION && WholeRotation(u) && RotationSupported(log, u)
    requires HeadCommits(u.history.previousHead, es) && Replay(cfg, facts, es).Some?
    requires u.history.record.leaf.identity == u.history.previousHead.identity
    requires u.history.record.leaf.sequence == u.history.previousHead.size
    requires nextHead.current == u.history.record.leaf.resulting
    ensures var v := ValidateRotationEvent(cfg, log, nextHead, u);
            && !v.Rejected?
            && (v.Exceptional? ==> v.error == ErrRotation)
            && (v == Accepted <==> Replay(cfg, facts, es + [u.history.record.leaf]).Some?)
  {
    hide VerifyKeyEventInclusion, ReconstructAccepted, VerifyRotation, Replay, EagerMarkerProven, ValidateMarker;
    var leaf := u.history.record.leaf;
    var r := leaf.event.rotation.value;
    PredecessorIsLast(cfg, facts, es, u.history.previousHead, u.predecessor.value);
    ReplayShape(cfg, facts, es);
    ReplayOneMore(cfg, facts, es, leaf);
    var current := Replay(cfg, facts, es).value;
    if VerifyRotation(cfg, r, current).Some? {
      MarkerVerdict(log, nextHead, u, es[|es| - 1], StateDigest(VerifyRotation(cfg, r, current).value));
    }
  }

  /** An accepted rotation carried its evidence. */
  lemma AcceptedIsSupported(cfg: Config, log: LogCheckpoint, nextHead: Head, u: MapUpdate)
    requires ValidateRotationEvent(cfg, log, nextHead, u) == Accepted
    ensures WholeRotation(u) && RotationSupported(log, u)
  {
    hide VerifyKeyEventInclusion, ReconstructAccepted, VerifyRotation, EagerMarkerProven, MarkerRecordMatches;
    AcceptedRotationParts(cfg, log, nextHead, u);
    var e := u.history.record.leaf.event;
    if u.rotationRecord.Some? && MarkerRecordMatches(e.rotation.value, e.marker.value, u.rotationRecord.value) {
      MatchingRecord(e.rotation.value, e.marker.value, u.rotationRecord.value);
    }
  }

  /** Facts beyond those that a history rests on do not change its continuation. */
  lemma ReplaysMonotone(cfg: Config, oidc: Oidc, facts: set<TokenFact>, more: set<TokenFact>, es: seq<KeyLeaf>,
                        leaf: KeyLeaf)
    requires facts <= more && (es != [] ==> Replay(cfg, facts, es).Some?)
    ensures Replays(cfg, oidc, facts, es, leaf) <==> Replays(cfg, oidc, more, es, leaf)
  {
    hide Replay;
    if es != [] {
      ReplayMonotone(cfg, facts, more, es);
      ReplayOneMore(cfg, facts, es, leaf);
      ReplayOneMore(cfg, more, es, leaf);
    }
  }

  /** What an update says about heads, and what the map says about the identity's history. */
  lemma UpdateOnHistory(cfg: Config, m: MapState, u: MapUpdate)
    requires MapInv(cfg, m) && VerifyMapUpdate(cfg, m.root, u).Ok?
    ensures HeadsCommitted(cfg, m.root)
    ensures var leaf, head := u.history.record.leaf, u.history.previousHead;
            var es := PriorHistory(cfg, m.root, leaf.identity);
            && u.history.head.current == leaf.resulting && leaf.identity == head.identity && leaf.sequence == head.size
            && u.history.record.hash == MerkleLog.Leaf(leaf)
            && (head.size == 0 <==> es == [])
            && (es != [] ==> HeadCommits(head, es))
            && (es != [] && !HasException(m.exceptions, leaf.identity) ==> Replay(cfg, m.facts, es).Some?)
  {
    hide HeadOf, Replay, FiledCorrectly, VerifyMapUpdate, MerkleLog.VerifyInclusion, MerkleLog.VerifyConsistency;
    MapUpdateSound(cfg, m.root, u);
    UpdateKeepsIdentity(cfg, m.root, u);
    assert u.previousHead.Some? && !HasException(m.exceptions, u.history.record.leaf.identity) ==>
             Live(cfg, m.root, m.exceptions, u.history.record.leaf.identity);
  }

  lemma NotOfTheKind(cfg: Config, oidc: Oidc, facts: set<TokenFact>, es: seq<KeyLeaf>, leaf: KeyLeaf)
    requires es != [] ==> Replay(cfg, facts, es).Some?
    requires Replays(cfg, oidc, facts, es, leaf)
    ensures leaf.event.kind == if es == [] then ENROLLMENT else ROTATION
    ensures es != [] ==> leaf.event.rotation.Some? && leaf.event.marker.Some? && leaf.event.enrollment.None?
  {
    hide VerifyRotation, VerifyPossession, MatchesIntent;
    if es != [] {
      ReplayOneMore(cfg, facts, es, leaf);
    }
  }

  /**
   The verdict on an event of an identity that is not excepted: accepted exactly when it carries its evidence and
   the audit of the identity's history goes on with it; and with its evidence it is at worst set aside.
   */
  lemma VerdictIsAudit(cfg: Config, oidc: Oidc, log: LogCheckpoint, m: MapState, u: MapUpdate)
    requires MapInv(cfg, m) && VerifyMapUpdate(cfg, m.root, u).Ok?
    requires !HasException(m.exceptions, u.history.record.leaf.identity)
    ensures HeadsCommitted(cfg, m.root)
    ensures var leaf := u.history.record.leaf;
            var es, v := PriorHistory(cfg, m.root, leaf.identity), ValidateMapEvent(cfg, oidc, log, u.history.head, u);
            && (v == Accepted <==> Supported(log, u) && Replays(cfg, oidc, m.facts, es, leaf))
            && (Supported(log, u) ==> !v.Rejected?)
            && (v.Exceptional? ==> v.error == KeyEventError(leaf.event.kind))
  {
    hide MapInv, VerifyMapUpdate, PriorHistory, HeadsCommitted, HeadCommits, RotationSupported, Replay, HasException;
    var leaf := u.history.record.leaf;
    UpdateOnHistory(cfg, m, u);
    var es := PriorHistory(cfg, m.root, leaf.identity);
    assert ENROLLMENT[0] != ROTATION[0];
    if Replays(cfg, oidc, m.facts, es, leaf) {
      NotOfTheKind(cfg, oidc, m.facts, es, leaf);
    }
    if leaf.event.kind == ENROLLMENT {
      hide VerifyEnrollment;
      if es == [] {
        EnrollmentVerdict(cfg, oidc, u.history.head, u);
      }
    } else if leaf.event.kind == ROTATION {
      RotationVerdictExact(cfg, log, m.facts, es, u.history.head, u);
    }
  }

  lemma RotationVerdictExact(cfg: Config, log: LogCheckpoint, facts: set<TokenFact>, es: seq<KeyLeaf>, nextHead: Head,
                             u: MapUpdate)
    requires u.history.record.leaf.event.kind == ROTATION
    requires es != [] ==> HeadCommits(u.history.previousHead, es) && Replay(cfg, facts, es).Some?
    requires u.history.previousHead.size == 0 <==> es == []
    requires u.history.record.leaf.identity == u.history.previousHead.identity
    requires u.history.record.leaf.sequence == u.history.previousHead.size
    requires nextHead.current == u.history.record.leaf.resulting
    ensures var v := ValidateRotationEvent(cfg, log, nextHead, u);
            if !WholeRotation(u) then v == ExceptionFor(u.history.record, ErrRotation)
            else
              && (v == Accepted <==>
                    RotationSupported(log, u) && Replay(cfg, facts, es + [u.history.record.leaf]).Some?)
              && (RotationSupported(log, u) ==> !v.Rejected?)
              && (v.Exceptional? ==> v.error == ErrRotation)
  {
    hide HeadCommits, Replay, RotationSupported, VerifyKeyEventInclusion, ReconstructAccepted, VerifyRotation,
         EagerMarkerProven, MarkerRecordMatches;
    var v := ValidateRotationEvent(cfg, log, nextHead, u);
    if WholeRotation(u) && v == Accepted {
      AcceptedIsSupported(cfg, log, nextHead, u);
    }
    if WholeRotation(u) && RotationSupported(log, u) {
      RotationVerdict(cfg, log, facts, es, nextHead, u);
    }
  }

  // ---------------------------------------------------------------- batches

  /** A batch of updates, the map it starts from, and the circumstances of the call. */
  datatype Batch = Batch(cfg: Config, oidc: Oidc, log: LogCheckpoint, m: MapState, us: seq<MapUpdate>)

  function LeafOf(b: Batch, k: nat): KeyLeaf
    requires k < |b.us|
  {
    b.us[k].history.record.leaf
  }

  /** The root that the update at `k` has to start from. */
  function RootBefore(b: Batch, k: nat): MapRoot
    requires k <= |b.us|
  {
    if k == 0 then b.m.root else b.us[k - 1].root
  }

  /** Every update starts where the one before ended, and its map and history proofs verify. */
  ghost predicate Linked(b: Batch) {
    forall k: nat | k < |b.us| :: LinkedAt(b, k)
  }

  ghost predicate LinkedAt(b: Batch, k: nat)
    requires k < |b.us|
  {
    b.us[k].previousRoot == RootBefore(b, k) && VerifyMapUpdate(b.cfg, RootBefore(b, k), b.us[k]).Ok?
  }

  function FactsUpTo(b: Batch, k: nat): set<TokenFact>
    requires k <= |b.us|
  {
    if k == 0 then b.m.facts else FactsUpTo(b, k - 1) + FactsFrom(b.oidc, LeafOf(b, k - 1))
  }

  /** The audit of the identity's own history goes on with the event at `k`. */
  ghost predicate GoodAt(b: Batch, k: nat)
    requires k < |b.us| && HeadsCommitted(b.cfg, b.m.root)
  {
    var leaf := LeafOf(b, k);
    Replays(b.cfg, b.oidc, FactsUpTo(b, k),
      PriorHistory(b.cfg, b.m.root, leaf.identity) + EventsOf(b.us[..k], leaf.identity), leaf)
  }

  /**
   No exception stands against the identity before the event at `k`: none from earlier, and no bad event of
   its own.
   */
  ghost predicate CleanBefore(b: Batch, k: nat, id: Digest)
    requires k <= |b.us| && HeadsCommitted(b.cfg, b.m.root)
  {
    !HasException(b.m.exceptions, id) && forall j: nat | j < k && LeafOf(b, j).identity == id :: GoodAt(b, j)
  }

  /** The first event of its identity, not excepted before, that the audit does not go on with. */
  ghost predicate FirstBad(b: Batch, k: nat)
    requires k < |b.us| && HeadsCommitted(b.cfg, b.m.root)
  {
    CleanBefore(b, k, LeafOf(b, k).identity) && !GoodAt(b, k)
  }

  ghost function BadBelow(b: Batch, n: nat): (bad: set<nat>)
    requires n <= |b.us| && HeadsCommitted(b.cfg, b.m.root)
    ensures forall k | k in bad :: k < n
  {
    set k: nat | k < n && FirstBad(b, k)
  }

  /** Updates of identities with nothing against them carry their evidence. */
  ghost predicate AllSupported(b: Batch)
    requires HeadsCommitted(b.cfg, b.m.root)
  {
    forall k: nat | k < |b.us| && CleanBefore(b, k, LeafOf(b, k).identity) :: Supported(b.log, b.us[k])
  }

  /** The recorded events are those from before and the bad ones of the first `n`. */
  ghost predicate Records(b: Batch, n: nat, exceptions: Exceptions)
    requires n <= |b.us| && HeadsCommitted(b.cfg, b.m.root)
  {
    && |exceptions| == |b.m.exceptions| + |BadBelow(b, n)|
    && forall h: KeyHash :: h in exceptions <==> h in b.m.exceptions || BadHash(b, n, h)
  }

  ghost predicate BadHash(b: Batch, n: nat, h: KeyHash)
    requires n <= |b.us| && HeadsCommitted(b.cfg, b.m.root)
  {
    exists k: nat :: k in BadBelow(b, n) && b.us[k].history.record.hash == h
  }

  /** Exceptions stand against exactly the identities that are not clean. */
  ghost predicate Blocks(b: Batch, n: nat, exceptions: Exceptions)
    requires n <= |b.us| && HeadsCommitted(b.cfg, b.m.root)
  {
    forall id: Digest :: HasException(exceptions, id) <==> !CleanBefore(b, n, id)
  }

  /** The answer is the error of the first bad event, if there is any. */
  ghost predicate Answers(b: Batch, n: nat, answer: Option<Error>)
    requires n <= |b.us| && HeadsCommitted(b.cfg, b.m.root)
  {
    && (BadBelow(b, n) == {} ==> answer == None)
    && forall k: nat | k in BadBelow(b, n) && BadBelow(b, k) == {} ::
       answer == Some(KeyEventError(LeafOf(b, k).event.kind))
  }

  /** What the first `n` updates of the batch come to. */
  ghost predicate CameTo(b: Batch, n: nat, r: MapState)
    requires n <= |b.us| && HeadsCommitted(b.cfg, b.m.root)
  {
    && r.root == RootBefore(b, n)
    && r.facts <= FactsUpTo(b, n)
    && Records(b, n, r.exceptions)
    && Blocks(b, n, r.exceptions)
    && Answers(b, n, r.semantic)
  }

  lemma BadGrows(b: Batch, n: nat)
    requires n < |b.us| && HeadsCommitted(b.cfg, b.m.root)
    ensures BadBelow(b, n + 1) == BadBelow(b, n) + if FirstBad(b, n) then {n} else {}
  {
    hide FirstBad, HeadsCommitted;
  }

  lemma CleanGrows(b: Batch, n: nat, id: Digest)
    requires n < |b.us| && HeadsCommitted(b.cfg, b.m.root)
    ensures CleanBefore(b, n + 1, id) <==> CleanBefore(b, n, id) && (LeafOf(b, n).identity == id ==> GoodAt(b, n))
  {
    hide GoodAt, HeadsCommitted, HasException;
  }

  /** Along the batch, the audit with the facts that the agent has agrees with the audit with all facts so far. */
  lemma GoodIsReplay(b: Batch, n: nat, r: MapState)
    requires n < |b.us| && MapInv(b.cfg, b.m) && MapInv(b.cfg, r)
    requires ApplyUpdates(b.cfg, b.oidc, b.log, b.m, b.us[..n]) == Ok(r) && LinkedAt(b, n)
    requires r.root == RootBefore(b, n) && r.facts <= FactsUpTo(b, n)
               && !HasException(r.exceptions, LeafOf(b, n).identity)
    ensures HeadsCommitted(b.cfg, b.m.root) && HeadsCommitted(b.cfg, r.root)
    ensures Replays(b.cfg, b.oidc, r.facts, PriorHistory(b.cfg, r.root, LeafOf(b, n).identity), LeafOf(b, n)) <==>
              GoodAt(b, n)
  {
    hide ApplyUpdates, MapInv, PriorHistory, HeadsCommitted, Replays, VerifyMapUpdate, HeadCommits, HasException;
    var leaf := LeafOf(b, n);
    MapInvCommitted(b.cfg, b.m);
    UpdateOnHistory(b.cfg, r, b.us[n]);
    BatchExtendsHistories(b.cfg, b.oidc, b.log, b.m, b.us[..n], leaf.identity);
    ReplaysMonotone(b.cfg, b.oidc, r.facts, FactsUpTo(b, n), PriorHistory(b.cfg, r.root, leaf.identity), leaf);
  }

  /** An event that is no first bad one leaves the account as it is. */
  lemma AccountStays(b: Batch, n: nat, exceptions: Exceptions, answer: Option<Error>)
    requires n < |b.us| && HeadsCommitted(b.cfg, b.m.root) && !FirstBad(b, n)
    requires Records(b, n, exceptions) && Blocks(b, n, exceptions) && Answers(b, n, answer)
    ensures Records(b, n + 1, exceptions) && Blocks(b, n + 1, exceptions) && Answers(b, n + 1, answer)
  {
    hide HeadsCommitted, GoodAt, CleanBefore, HasException, BadBelow;
    BadGrows(b, n);
    assert BadBelow(b, n) + {} == BadBelow(b, n);
    assert forall h: KeyHash :: BadHash(b, n + 1, h) <==> BadHash(b, n, h);
    forall id: Digest
      ensures CleanBefore(b, n + 1, id) <==> CleanBefore(b, n, id)
    {
      CleanGrows(b, n, id);
    }
  }

  lemma StepExcepted(b: Batch, n: nat, r: MapState)
    requires n < |b.us| && HeadsCommitted(b.cfg, b.m.root) && CameTo(b, n, r) && LinkedAt(b, n)
    requires !CleanBefore(b, n, LeafOf(b, n).identity)
    ensures ApplyUpdate(b.cfg, b.oidc, b.log, r, b.us[n]).Ok?
    ensures CameTo(b, n + 1, ApplyUpdate(b.cfg, b.oidc, b.log, r, b.us[n]).value)
  {
    hide VerifyMapUpdate, ValidateMapEvent, HeadsCommitted, GoodAt, CleanBefore, HasException, FactsFrom, Records,
      Answers;
    AccountStays(b, n, r.exceptions, r.semantic);
    assert ApplyUpdate(b.cfg, b.oidc, b.log, r, b.us[n]) == Ok(r.(root := b.us[n].root));
  }

  lemma StepGood(b: Batch, n: nat, r: MapState)
    requires n < |b.us| && HeadsCommitted(b.cfg, b.m.root) && CameTo(b, n, r) && LinkedAt(b, n)
    requires CleanBefore(b, n, LeafOf(b, n).identity) && GoodAt(b, n)
    requires ValidateMapEvent(b.cfg, b.oidc, b.log, b.us[n].history.head, b.us[n]) == Accepted
    ensures ApplyUpdate(b.cfg, b.oidc, b.log, r, b.us[n]).Ok?
    ensures CameTo(b, n + 1, ApplyUpdate(b.cfg, b.oidc, b.log, r, b.us[n]).value)
  {
    hide VerifyMapUpdate, ValidateMapEvent, HeadsCommitted, GoodAt, CleanBefore, HasException, FactsFrom, Records,
      Answers;
    AccountStays(b, n, r.exceptions, r.semantic);
    VerifiedHead(b.cfg, r.root, b.us[n]);
    assert ApplyUpdate(b.cfg, b.oidc, b.log, r, b.us[n])
           == Ok(r.(root := b.us[n].root, facts := r.facts + FactsFrom(b.oidc, LeafOf(b, n))));
  }

  lemma NewException(exceptions: Exceptions, h: KeyHash, e: ExceptionalEvent, id: Digest)
    requires h !in exceptions
    ensures HasException(exceptions[h := e], id) <==> HasException(exceptions, id) || e.identity == id
  {
    var more := exceptions[h := e];
    assert h in more && more[h] == e;
    assert forall k | k in exceptions :: k in more && more[k] == exceptions[k];
    assert forall k | k in more :: k == h || k in exceptions;
  }

  lemma OneLarger(exceptions: Exceptions, h: KeyHash, e: ExceptionalEvent)
    requires h !in exceptions
    ensures |exceptions[h := e]| == |exceptions| + 1
  {
    assert exceptions[h := e].Keys == exceptions.Keys + {h};
  }

  /** A recorded key is an event of the identity it stands against. */
  lemma HashIsNew(cfg: Config, m: MapState, u: MapUpdate)
    requires ExceptionsWellFormed(cfg, m.exceptions) && !HasException(m.exceptions, u.history.record.leaf.identity)
    requires u.history.record.hash == MerkleLog.Leaf(u.history.record.leaf)
    ensures u.history.record.hash !in m.exceptions
  {
  }

  function EventFor(u: MapUpdate): ExceptionalEvent {
    var leaf := u.history.record.leaf;
    ExceptionalEvent(leaf.identity, leaf.sequence, u.history.record.hash, leaf.resulting)
  }

  /** How a bad event is set aside. */
  lemma BadApplied(b: Batch, n: nat, r: MapState)
    requires n < |b.us| && LinkedAt(b, n) && r.root == RootBefore(b, n) && |r.exceptions| < b.cfg.capacity
    requires ExceptionsWellFormed(b.cfg, r.exceptions) && !HasException(r.exceptions, LeafOf(b, n).identity)
    requires var v := ValidateMapEvent(b.cfg, b.oidc, b.log, b.us[n].history.head, b.us[n]);
             v.Exceptional? && v.error == KeyEventError(LeafOf(b, n).event.kind)
    ensures b.us[n].history.record.hash !in r.exceptions
    ensures ApplyUpdate(b.cfg, b.oidc, b.log, r, b.us[n])
            == Ok(r.(root := b.us[n].root, exceptions := r.exceptions[b.us[n].history.record.hash := EventFor(b.us[n])],
                     semantic := if r.semantic.None? then Some(KeyEventError(LeafOf(b, n).event.kind)) else r.semantic))
  {
    hide VerifyMapUpdate, ValidateMapEvent, HasException, FactsFrom, ExceptionsWellFormed;
    VerifiedHead(b.cfg, r.root, b.us[n]);
    UpdateKeepsIdentity(b.cfg, r.root, b.us[n]);
    ExceptionIsForRecord(b.cfg, b.oidc, b.log, b.us[n].history.head, b.us[n]);
    HashIsNew(b.cfg, r, b.us[n]);
  }

  lemma BadRecorded(b: Batch, n: nat, exceptions: Exceptions, e: ExceptionalEvent)
    requires n < |b.us| && HeadsCommitted(b.cfg, b.m.root) && Records(b, n, exceptions) && FirstBad(b, n)
    requires b.us[n].history.record.hash !in exceptions
    ensures Records(b, n + 1, exceptions[b.us[n].history.record.hash := e])
  {
    hide HeadsCommitted, FirstBad;
    var hash := b.us[n].history.record.hash;
    BadGrows(b, n);
    OneLarger(exceptions, hash, e);
    assert n !in BadBelow(b, n) && |BadBelow(b, n) + {n}| == |BadBelow(b, n)| + 1;
    forall h: KeyHash
      ensures BadHash(b, n + 1, h) <==> BadHash(b, n, h) || h == hash
    {
      BadHashGrows(b, n, h);
    }
  }

  lemma BadHashGrows(b: Batch, n: nat, h: KeyHash)
    requires n < |b.us| && HeadsCommitted(b.cfg, b.m.root) && FirstBad(b, n)
    ensures BadHash(b, n + 1, h) <==> BadHash(b, n, h) || h == b.us[n].history.record.hash
  {
    hide HeadsCommitted, FirstBad, BadBelow;
    BadGrows(b, n);
    assert n in BadBelow(b, n + 1);
    if BadHash(b, n, h) {
      var k: nat :| k in BadBelow(b, n) && b.us[k].history.record.hash == h;
      assert k in BadBelow(b, n + 1);
    }
    if BadHash(b, n + 1, h) {
      var k: nat :| k in BadBelow(b, n + 1) && b.us[k].history.record.hash == h;
      assert k == n || k in BadBelow(b, n);
    }
  }

  lemma BadBlocked(b: Batch, n: nat, exceptions: Exceptions, e: ExceptionalEvent)
    requires n < |b.us| && HeadsCommitted(b.cfg, b.m.root) && Blocks(b, n, exceptions) && FirstBad(b, n)
    requires b.us[n].history.record.hash !in exceptions && e.identity == LeafOf(b, n).identity
    ensures Blocks(b, n + 1, exceptions[b.us[n].history.record.hash := e])
  {
    hide HeadsCommitted, GoodAt, CleanBefore, HasException;
    var more := exceptions[b.us[n].history.record.hash := e];
    forall id: Digest
      ensures HasException(more, id) <==> !CleanBefore(b, n + 1, id)
    {
      CleanGrows(b, n, id);
      NewException(exceptions, b.us[n].history.record.hash, e, id);
    }
  }

  /** The first bad event of the batch decides the answer. */
  lemma BadAnswered(b: Batch, n: nat, answer: Option<Error>)
    requires n < |b.us| && HeadsCommitted(b.cfg, b.m.root) && Answers(b, n, answer) && FirstBad(b, n)
    ensures Answers(b, n + 1, if answer.None? then Some(KeyEventError(LeafOf(b, n).event.kind)) else answer)
  {
    hide HeadsCommitted, FirstBad;
    BadGrows(b, n);
    if BadBelow(b, n) != {} {
      var first := LeastBad(b, n);
      assert first in BadBelow(b, n) && BadBelow(b, first) == {};
    }
  }

  lemma StepBad(b: Batch, n: nat, r: MapState)
    requires n < |b.us| && HeadsCommitted(b.cfg, b.m.root) && CameTo(b, n, r) && LinkedAt(b, n)
    requires ExceptionsWellFormed(b.cfg, r.exceptions) && |b.m.exceptions| + |BadBelow(b, n)| < b.cfg.capacity
    requires CleanBefore(b, n, LeafOf(b, n).identity) && !GoodAt(b, n)
    requires var v := ValidateMapEvent(b.cfg, b.oidc, b.log, b.us[n].history.head, b.us[n]);
             v.Exceptional? && v.error == KeyEventError(LeafOf(b, n).event.kind)
    ensures ApplyUpdate(b.cfg, b.oidc, b.log, r, b.us[n]).Ok?
    ensures CameTo(b, n + 1, ApplyUpdate(b.cfg, b.oidc, b.log, r, b.us[n]).value)
  {
    hide VerifyMapUpdate, ValidateMapEvent, HeadsCommitted, GoodAt, CleanBefore, HasException, FactsFrom,
      ExceptionsWellFormed, ApplyUpdate,
         Answers, BadHash, BadBelow;
    BadApplied(b, n, r);
    BadRecorded(b, n, r.exceptions, EventFor(b.us[n]));
    BadBlocked(b, n, r.exceptions, EventFor(b.us[n]));
    BadAnswered(b, n, r.semantic);
  }

  lemma {:induction false} LeastBad(b: Batch, n: nat) returns (k: nat)
    requires n <= |b.us| && HeadsCommitted(b.cfg, b.m.root) && BadBelow(b, n) != {}
    ensures k in BadBelow(b, n) && BadBelow(b, k) == {}
    decreases n
  {
    hide HeadsCommitted, FirstBad;
    k :| k in BadBelow(b, n);
    if BadBelow(b, k) != {} {
      k := LeastBad(b, k);
    }
  }

  lemma {:induction false} BatchComesTo(b: Batch, n: nat) returns (r: MapState)
    requires n <= |b.us| && MapInv(b.cfg, b.m) && HeadsCommitted(b.cfg, b.m.root)
    requires Linked(b) && AllSupported(b) && |b.m.exceptions| + |BadBelow(b, |b.us|)| <= b.cfg.capacity
    requires b.m.semantic == None
    ensures ApplyUpdates(b.cfg, b.oidc, b.log, b.m, b.us[..n]) == Ok(r) && CameTo(b, n, r)
  {
    hide MapInv, HeadsCommitted, GoodAt, CleanBefore, ValidateMapEvent, ApplyUpdate, Supported, LinkedAt, HasException,
      CameTo;
    if n == 0 {
      r := b.m;
      CameFromStart(b);
      assert b.us[..0] == [];
    } else {
      var k := n - 1;
      var before := BatchComesTo(b, k);
      ApplyUpdatesKeeps(b.cfg, b.oidc, b.log, b.m, b.us[..k]);
      assert b.us[..n][..k] == b.us[..k] && b.us[..n][k] == b.us[k];
      assert LinkedAt(b, k);
      OneMore(b, k, before);
      r := ApplyUpdate(b.cfg, b.oidc, b.log, before, b.us[k]).value;
    }
  }

  lemma CameFromStart(b: Batch)
    requires HeadsCommitted(b.cfg, b.m.root) && b.m.semantic == None
    ensures CameTo(b, 0, b.m)
  {
    hide HeadsCommitted, GoodAt;
    assert BadBelow(b, 0) == {};
  }

  lemma OneMore(b: Batch, n: nat, r: MapState)
    requires n < |b.us| && MapInv(b.cfg, b.m) && HeadsCommitted(b.cfg, b.m.root) && MapInv(b.cfg, r)
    requires ApplyUpdates(b.cfg, b.oidc, b.log, b.m, b.us[..n]) == Ok(r) && CameTo(b, n, r) && LinkedAt(b, n)
               && AllSupported(b)
    requires |b.m.exceptions| + |BadBelow(b, |b.us|)| <= b.cfg.capacity
    ensures ApplyUpdate(b.cfg, b.oidc, b.log, r, b.us[n]).Ok?
    ensures CameTo(b, n + 1, ApplyUpdate(b.cfg, b.oidc, b.log, r, b.us[n]).value)
  {
    if !CleanBefore(b, n, LeafOf(b, n).identity) {
      StepExcepted(b, n, r);
    } else {
      hide MapInv, HeadsCommitted, GoodAt, CleanBefore, ValidateMapEvent, ApplyUpdate, ApplyUpdates, Supported,
        HasException, VerifyMapUpdate,
           Replays, PriorHistory;
      GoodIsReplay(b, n, r);
      VerdictIsAudit(b.cfg, b.oidc, b.log, r, b.us[n]);
      if GoodAt(b, n) {
        StepGood(b, n, r);
      } else {
        RoomForOne(b, n);
        WellFormedPart(b.cfg, r);
        StepBad(b, n, r);
      }
    }
  }

  lemma WellFormedPart(cfg: Config, m: MapState)
    requires MapInv(cfg, m)
    ensures ExceptionsWellFormed(cfg, m.exceptions)
  {
  }

  lemma RoomForOne(b: Batch, n: nat)
    requires n < |b.us| && HeadsCommitted(b.cfg, b.m.root) && FirstBad(b, n)
    ensures |BadBelow(b, n)| < |BadBelow(b, |b.us|)|
  {
    hide HeadsCommitted, GoodAt, CleanBefore;
    assert BadBelow(b, n) + {n} <= BadBelow(b, |b.us|);
    Smaller(BadBelow(b, n) + {n}, BadBelow(b, |b.us|));
  }

  lemma Smaller(a: set<nat>, c: set<nat>)
    requires a <= c
    ensures |a| <= |c|
  {
    assert c == a + (c - a);
  }

  /**
   One bad event holds up nobody else: a linked batch in which every update carries its evidence, and for whose bad
   events there is room, commits whole. It sets aside exactly the first event of each identity that the audit does
   not go on with, and the call answers with the error of the first of these, or with none.
   */
  lemma BadEventsAreIsolated(cfg: Config, oidc: Oidc, s: State, us: seq<MapUpdate>)
    requires Inv(cfg, s) && HeadsCommitted(cfg, s.mapRoot)
    requires var b := Batch(cfg, oidc, s.log, MapPart(s), us);
             Linked(b) && AllSupported(b) && |s.exceptions| + |BadBelow(b, |us|)| <= cfg.capacity
    ensures var b, o := Batch(cfg, oidc, s.log, MapPart(s), us), SyncMap(cfg, oidc, s, us);
            && o.state.mapRoot == RootBefore(b, |us|)
            && Records(b, |us|, o.state.exceptions) && Blocks(b, |us|, o.state.exceptions)
            && Answers(b, |us|, o.error)
  {
    hide HeadsCommitted, GoodAt, CleanBefore, Linked, AllSupported, Justified, MapInv, ApplyUpdates, HasException,
      BadBelow, Records, Blocks,
         Answers;
    var b := Batch(cfg, oidc, s.log, MapPart(s), us);
    var r := BatchComesTo(b, |us|);
    assert us[..|us|] == us;
  }
}
