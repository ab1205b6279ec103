/**
 What every run of the trust-model-v3 agent keeps: valid key chains behind every accepted identity, an
 append-only delivery log, bounded exceptions, and a justification for every delivery acted on.
 */
module TrustAgentProofs {
  import opened Common
  import opened TrustProtocol
  import opened KeyChain
  import opened TrustAgentModel
  import MerkleLog

  // ---------------------------------------------------------------- invariants of the map

  ghost predicate Committed(h: Head) {
    exists es :: HeadCommits(h, es)
  }

  /** The history behind a head. */
  ghost function History(h: Head): (es: seq<KeyLeaf>)
    requires Committed(h)
    ensures HeadCommits(h, es)
  {
    var es :| HeadCommits(h, es);
    es
  }

  lemma HistoryIs(h: Head, es: seq<KeyLeaf>)
    requires HeadCommits(h, es)
    ensures Committed(h) && History(h) == es
  {
    HistoryUnique(h, es, History(h));
  }

  /** The identity has a head under `root`, and that head is not under an exception. */
  ghost predicate Live(cfg: Config, root: MapRoot, exceptions: Exceptions, identity: Digest) {
    HeadOf(cfg, root, identity).Some? && !HasException(exceptions, identity)
  }

  ghost predicate HeadsCommitted(cfg: Config, root: MapRoot) {
    forall id: Digest | HeadOf(cfg, root, id).Some? :: Committed(HeadOf(cfg, root, id).value)
  }

  /** Every identity without an exception has a history that passes the full audit. */
  ghost predicate ChainsValid(cfg: Config, root: MapRoot, exceptions: Exceptions, facts: set<TokenFact>)
    requires HeadsCommitted(cfg, root)
  {
    forall id: Digest | Live(cfg, root, exceptions, id) ::
      Replay(cfg, facts, History(HeadOf(cfg, root, id).value)).Some?
  }

  ghost predicate ExceptionsWellFormed(cfg: Config, exceptions: Exceptions) {
    && |exceptions| <= cfg.capacity
    && (forall k | k in exceptions :: k.Leaf? && k.leaf.identity == exceptions[k].identity)
    && (forall j, k | j in exceptions && k in exceptions && exceptions[j].identity == exceptions[k].identity :: j == k)
  }

  ghost predicate MapInv(cfg: Config, m: MapState) {
    && FiledCorrectly(cfg, m.root)
    && HeadsCommitted(cfg, m.root)
    && ChainsValid(cfg, m.root, m.exceptions, m.facts)
    && ExceptionsWellFormed(cfg, m.exceptions)
  }

  /** Histories only grow, exceptions and facts are never forgotten. */
  ghost predicate MapProgress(cfg: Config, m: MapState, n: MapState) {
    && HeadsCommitted(cfg, m.root) && HeadsCommitted(cfg, n.root)
    && (forall id: Digest | HeadOf(cfg, m.root, id).Some? ::
          && HeadOf(cfg, n.root, id).Some?
          && IsPrefix(History(HeadOf(cfg, m.root, id).value), History(HeadOf(cfg, n.root, id).value)))
    && (forall k | k in m.exceptions :: k in n.exceptions && n.exceptions[k] == m.exceptions[k])
    && m.facts <= n.facts
  }

  lemma MapProgressTransitive(cfg: Config, a: MapState, b: MapState, c: MapState)
    requires MapProgress(cfg, a, b) && MapProgress(cfg, b, c)
    ensures MapProgress(cfg, a, c)
  {
    forall id: Digest | HeadOf(cfg, a.root, id).Some?
      ensures HeadOf(cfg, c.root, id).Some?
      ensures IsPrefix(History(HeadOf(cfg, a.root, id).value), History(HeadOf(cfg, c.root, id).value))
    {
      assert HeadOf(cfg, b.root, id).Some?;
      PrefixTransitive(History(HeadOf(cfg, a.root, id).value), History(HeadOf(cfg, b.root, id).value),
                       History(HeadOf(cfg, c.root, id).value));
    }
  }

  // ---------------------------------------------------------------- one map update

  /** The history an update extends: the identity's current one, or none. */
  ghost function PriorHistory(cfg: Config, root: MapRoot, id: Digest): seq<KeyLeaf>
    requires HeadsCommitted(cfg, root)
  {
    if HeadOf(cfg, root, id).Some? then History(HeadOf(cfg, root, id).value) else []
  }

  /** An accepted update appends exactly its event to its identity's history, and touches no other. */
  lemma UpdateExtendsHistory(cfg: Config, root: MapRoot, u: MapUpdate)
    requires FiledCorrectly(cfg, root) && HeadsCommitted(cfg, root)
    requires VerifyMapUpdate(cfg, root, u).Ok?
    ensures FiledCorrectly(cfg, u.root) && HeadsCommitted(cfg, u.root)
    ensures forall id: Digest ::
              PriorHistory(cfg, u.root, id) ==
              PriorHistory(cfg, root, id) + if id == u.history.record.leaf.identity then [u.history.record.leaf] else []
    ensures forall id: Digest | HeadOf(cfg, root, id).Some? :: HeadOf(cfg, u.root, id).Some?
  {
    hide VerifyMapUpdate, VerifyKeyHistoryUpdate, HeadOf, FiledCorrectly;
    var id := u.history.record.leaf.identity;
    MapUpdateSound(cfg, root, u);
    UpdateKeepsIdentity(cfg, root, u);
    var es := PriorHistory(cfg, root, id);
    HistoryUpdateSound(u.history.previousHead, u.history, es);
    HistoryIs(u.history.head, es + [u.history.record.leaf]);
    forall other: Digest
      ensures HeadOf(cfg, u.root, other).Some? ==> Committed(HeadOf(cfg, u.root, other).value)
      ensures HeadOf(cfg, root, other).Some? ==> HeadOf(cfg, u.root, other).Some?
    {
      if other != id {
        assert HeadOf(cfg, u.root, other) == HeadOf(cfg, root, other);
      }
    }
    forall other: Digest
      ensures PriorHistory(cfg, u.root, other) ==
              PriorHistory(cfg, root, other) + if other == id then [u.history.record.leaf] else []
    {
      if other != id {
        assert HeadOf(cfg, u.root, other) == HeadOf(cfg, root, other);
        assert PriorHistory(cfg, root, other) + [] == PriorHistory(cfg, root, other);
      }
    }
  }

  lemma AcceptedEnrollmentReplays(cfg: Config, oidc: Oidc, nextHead: Head, u: MapUpdate, facts: set<TokenFact>)
    requires u.history.record.leaf.event.kind == ENROLLMENT
    requires ValidateEnrollmentEvent(cfg, oidc, nextHead, u) == Accepted
    requires u.history.record.leaf.sequence == 0
    ensures Replay(cfg, facts + FactsFrom(oidc, u.history.record.leaf), [u.history.record.leaf]).Some?
  {
  }

  lemma AcceptedMarker(log: LogCheckpoint, nextHead: Head, u: MapUpdate, predecessor: KeyLeaf, newDigest: Digest)
    requires u.history.record.leaf.event.rotation.Some? && u.history.record.leaf.event.marker.Some?
    requires ValidateMarker(log, nextHead, u, predecessor, newDigest) == Accepted
    ensures var e := u.history.record.leaf.event;
            && newDigest == u.history.record.leaf.resulting
            && e.marker.value.hash == MarkerLeaf(e.rotation.value)
            && (predecessor.event.marker.Some? ==> predecessor.event.marker.value.index < e.marker.value.index)
  {
  }

  /** What an accepted rotation event says about the event before it. */
  lemma AcceptedRotationParts(cfg: Config, log: LogCheckpoint, nextHead: Head, u: MapUpdate)
    requires ValidateRotationEvent(cfg, log, nextHead, u) == Accepted
    ensures u.predecessor.Some?
    ensures var predecessor := u.predecessor.value.record.leaf;
            var e := u.history.record.leaf.event;
            && VerifyKeyEventInclusion(u.history.previousHead, u.predecessor.value)
            && predecessor.sequence as int + 1 == u.history.previousHead.size
            && e.rotation.Some? && e.marker.Some? && e.enrollment.None?
            && ReconstructAccepted(cfg, predecessor).Some?
            && VerifyRotation(cfg, e.rotation.value, ReconstructAccepted(cfg, predecessor).value).Some?
            && ValidateMarker(log, nextHead, u, predecessor,
                              StateDigest(VerifyRotation(cfg, e.rotation.value,
                                ReconstructAccepted(cfg, predecessor).value).value))
               == Accepted
  {
  }

  lemma AcceptedRotationReplays(cfg: Config, log: LogCheckpoint, nextHead: Head, u: MapUpdate, facts: set<TokenFact>,
                                es: seq<KeyLeaf>)
    requires u.history.record.leaf.event.kind == ROTATION
    requires ValidateRotationEvent(cfg, log, nextHead, u) == Accepted
    requires HeadCommits(u.history.previousHead, es) && Replay(cfg, facts, es).Some?
    requires u.history.record.leaf.identity == u.history.previousHead.identity
    requires u.history.record.leaf.sequence == u.history.previousHead.size
    ensures Replay(cfg, facts, es + [u.history.record.leaf]).Some?
  {
    AcceptedRotationParts(cfg, log, nextHead, u);
    var leaf := u.history.record.leaf;
    var predecessor := u.predecessor.value.record.leaf;
    EventProofSound(u.history.previousHead, u.predecessor.value, es);
    ShortcutLast(cfg, facts, es);
    ReplayShape(cfg, facts, es);
    var current := Replay(cfg, facts, es).value;
    AcceptedMarker(log, nextHead, u, predecessor,
      StateDigest(VerifyRotation(cfg, leaf.event.rotation.value, current).value));
    assert ReplayRotation(cfg, current, predecessor, leaf).Some?;
    var longer := es + [leaf];
    assert longer[..|longer| - 1] == es;
  }

  /** An event that validation accepts keeps its identity's history valid. */
  lemma AcceptedEventReplays(cfg: Config, oidc: Oidc, log: LogCheckpoint, m: MapState, u: MapUpdate)
    requires MapInv(cfg, m) && VerifyMapUpdate(cfg, m.root, u).Ok?
    requires !HasException(m.exceptions, u.history.record.leaf.identity)
    requires ValidateMapEvent(cfg, oidc, log, u.history.head, u) == Accepted
    ensures Replay(cfg, m.facts + FactsFrom(oidc, u.history.record.leaf),
                   PriorHistory(cfg, m.root, u.history.record.leaf.identity) + [u.history.record.leaf]).Some?
  {
    hide ValidateRotationEvent, HeadOf, Replay, FiledCorrectly;
    var leaf := u.history.record.leaf;
    var es := PriorHistory(cfg, m.root, leaf.identity);
    MapUpdateSound(cfg, m.root, u);
    UpdateKeepsIdentity(cfg, m.root, u);
    if leaf.event.kind == ENROLLMENT {
      AcceptedEnrollmentReplays(cfg, oidc, u.history.head, u, m.facts);
      assert es == [];
      assert es + [leaf] == [leaf];
    } else {
      AcceptedRotationParts(cfg, log, u.history.head, u);
      assert Live(cfg, m.root, m.exceptions, leaf.identity);
      AcceptedRotationReplays(cfg, log, u.history.head, u, m.facts, es);
      ReplayMonotone(cfg, m.facts, m.facts + FactsFrom(oidc, leaf), es + [leaf]);
    }
  }

  /** How one update may change exceptions and facts. */
  ghost predicate StepShape(cfg: Config, oidc: Oidc, log: LogCheckpoint, m: MapState, u: MapUpdate, n: MapState) {
    var id := u.history.record.leaf.identity;
    && VerifyMapUpdate(cfg, m.root, u).Ok?
    && n.root == u.root
    && m.facts <= n.facts
    && (|| (n.exceptions == m.exceptions && HasException(m.exceptions, id))
        || (n.exceptions == m.exceptions && !HasException(m.exceptions, id)
            && ValidateMapEvent(cfg, oidc, log, u.history.head, u) == Accepted
            && n.facts == m.facts + FactsFrom(oidc, u.history.record.leaf))
        || (!HasException(m.exceptions, id) && u.history.record.hash !in m.exceptions && |m.exceptions| < cfg.capacity
            && n.exceptions == m.exceptions[u.history.record.hash :=
                 ExceptionalEvent(id, u.history.record.leaf.sequence, u.history.record.hash,
                   u.history.record.leaf.resulting)]))
  }

  lemma ExceptionIsForRecord(cfg: Config, oidc: Oidc, log: LogCheckpoint, nextHead: Head, u: MapUpdate)
    ensures var v := ValidateMapEvent(cfg, oidc, log, nextHead, u);
            v.Exceptional? ==>
              v.event == ExceptionalEvent(u.history.record.leaf.identity, u.history.record.leaf.sequence,
                                          u.history.record.hash, u.history.record.leaf.resulting)
  {
  }

  lemma ApplyUpdateShape(cfg: Config, oidc: Oidc, log: LogCheckpoint, m: MapState, u: MapUpdate)
    requires ExceptionsWellFormed(cfg, m.exceptions)
    requires ApplyUpdate(cfg, oidc, log, m, u).Ok?
    ensures StepShape(cfg, oidc, log, m, u, ApplyUpdate(cfg, oidc, log, m, u).value)
  {
    ExceptionIsForRecord(cfg, oidc, log, u.history.head, u);
    assert VerifyMapUpdate(cfg, m.root, u) == Ok(u.history.head);
    assert u.history.record.hash == MerkleLog.Leaf(u.history.record.leaf);
  }

  lemma StepKeepsExceptions(cfg: Config, oidc: Oidc, log: LogCheckpoint, m: MapState, u: MapUpdate, n: MapState)
    requires ExceptionsWellFormed(cfg, m.exceptions) && StepShape(cfg, oidc, log, m, u, n)
    ensures ExceptionsWellFormed(cfg, n.exceptions)
    ensures forall k | k in m.exceptions :: k in n.exceptions && n.exceptions[k] == m.exceptions[k]
    ensures forall id: Digest | HasException(m.exceptions, id) :: HasException(n.exceptions, id)
    ensures !HasException(n.exceptions, u.history.record.leaf.identity) ==>
              && !HasException(m.exceptions, u.history.record.leaf.identity)
              && ValidateMapEvent(cfg, oidc, log, u.history.head, u) == Accepted
              && n.facts == m.facts + FactsFrom(oidc, u.history.record.leaf)
  {
    hide ValidateMapEvent, VerifyMapUpdate, VerifyKeyHistoryUpdate, FactsFrom;
    UpdateKeepsIdentity(cfg, m.root, u);
    if n.exceptions != m.exceptions {
      assert u.history.record.hash in n.exceptions;
    }
    forall id: Digest | HasException(m.exceptions, id)
      ensures HasException(n.exceptions, id)
    {
      var k :| k in m.exceptions && m.exceptions[k].identity == id;
      assert k in n.exceptions;
    }
  }

  /** One accepted update keeps the map invariant and only makes progress. */
  lemma ApplyUpdateKeeps(cfg: Config, oidc: Oidc, log: LogCheckpoint, m: MapState, u: MapUpdate)
    requires MapInv(cfg, m) && ApplyUpdate(cfg, oidc, log, m, u).Ok?
    ensures MapInv(cfg, ApplyUpdate(cfg, oidc, log, m, u).value)
    ensures MapProgress(cfg, m, ApplyUpdate(cfg, oidc, log, m, u).value)
  {
    var n := ApplyUpdate(cfg, oidc, log, m, u).value;
    ApplyUpdateShape(cfg, oidc, log, m, u);
    StepKeepsExceptions(cfg, oidc, log, m, u, n);
    UpdateExtendsHistory(cfg, m.root, u);
    StepKeepsChains(cfg, oidc, log, m, u, n);
    forall id: Digest | HeadOf(cfg, m.root, id).Some?
      ensures IsPrefix(History(HeadOf(cfg, m.root, id).value), History(HeadOf(cfg, n.root, id).value))
    {
      assert PriorHistory(cfg, n.root, id) ==
             PriorHistory(cfg, m.root, id) + if id == u.history.record.leaf.identity then [u.history.record.leaf]
               else [];
    }
  }

  lemma StepKeepsChains(cfg: Config, oidc: Oidc, log: LogCheckpoint, m: MapState, u: MapUpdate, n: MapState)
    requires MapInv(cfg, m) && StepShape(cfg, oidc, log, m, u, n) && HeadsCommitted(cfg, n.root)
    requires forall id: Digest ::
               PriorHistory(cfg, n.root, id) ==
               PriorHistory(cfg, m.root, id) + if id == u.history.record.leaf.identity
                 then [u.history.record.leaf] else []
    ensures ChainsValid(cfg, n.root, n.exceptions, n.facts)
  {
    StepKeepsExceptions(cfg, oidc, log, m, u, n);
    forall id: Digest | Live(cfg, n.root, n.exceptions, id)
      ensures Replay(cfg, n.facts, History(HeadOf(cfg, n.root, id).value)).Some?
    {
      var es := PriorHistory(cfg, m.root, id);
      assert PriorHistory(cfg, n.root, id) ==
             es + if id == u.history.record.leaf.identity then [u.history.record.leaf] else [];
      if id == u.history.record.leaf.identity {
        AcceptedEventReplays(cfg, oidc, log, m, u);
      } else {
        assert es + [] == es;
        assert es != [];
        assert Live(cfg, m.root, m.exceptions, id);
        ReplayMonotone(cfg, m.facts, n.facts, es);
      }
    }
  }

  lemma {:induction false} ApplyUpdatesKeeps(cfg: Config, oidc: Oidc, log: LogCheckpoint, m: MapState,
                                             us: seq<MapUpdate>)
    requires MapInv(cfg, m) && ApplyUpdates(cfg, oidc, log, m, us).Ok?
    ensures MapInv(cfg, ApplyUpdates(cfg, oidc, log, m, us).value)
    ensures MapProgress(cfg, m, ApplyUpdates(cfg, oidc, log, m, us).value)
    decreases |us|
  {
    if us != [] {
      var before := ApplyUpdates(cfg, oidc, log, m, us[..|us| - 1]).value;
      ApplyUpdatesKeeps(cfg, oidc, log, m, us[..|us| - 1]);
      ApplyUpdateKeeps(cfg, oidc, log, before, us[|us| - 1]);
      MapProgressTransitive(cfg, m, before, ApplyUpdates(cfg, oidc, log, m, us).value);
    }
  }

  // ---------------------------------------------------------------- what a whole batch does

  /** The events that a batch brings for one identity, in order. */
  function EventsOf(us: seq<MapUpdate>, id: Digest): seq<KeyLeaf>
    decreases |us|
  {
    if us == [] then []
    else
      var leaf := us[|us| - 1].history.record.leaf;
      EventsOf(us[..|us| - 1], id) + if leaf.identity == id then [leaf] else []
  }

  lemma MapInvCommitted(cfg: Config, m: MapState)
    requires MapInv(cfg, m)
    ensures FiledCorrectly(cfg, m.root) && HeadsCommitted(cfg, m.root)
  {
  }

  /** A batch appends to every identity's history exactly the batch's events of that identity, in order. */
  lemma {:induction false} BatchExtendsHistories(cfg: Config, oidc: Oidc, log: LogCheckpoint, m: MapState,
                                                 us: seq<MapUpdate>, id: Digest)
    requires MapInv(cfg, m) && ApplyUpdates(cfg, oidc, log, m, us).Ok?
    ensures var n := ApplyUpdates(cfg, oidc, log, m, us).value;
            && HeadsCommitted(cfg, n.root)
            && PriorHistory(cfg, n.root, id) == PriorHistory(cfg, m.root, id) + EventsOf(us, id)
    decreases |us|
  {
    hide ApplyUpdate, MapInv, FiledCorrectly, HeadsCommitted, PriorHistory;
    ApplyUpdatesKeeps(cfg, oidc, log, m, us);
    MapInvCommitted(cfg, m);
    MapInvCommitted(cfg, ApplyUpdates(cfg, oidc, log, m, us).value);
    if us == [] {
      assert PriorHistory(cfg, m.root, id) + [] == PriorHistory(cfg, m.root, id);
    } else {
      var earlier, u := us[..|us| - 1], us[|us| - 1];
      var before := ApplyUpdates(cfg, oidc, log, m, earlier).value;
      BatchExtendsHistories(cfg, oidc, log, m, earlier, id);
      ApplyUpdatesKeeps(cfg, oidc, log, m, earlier);
      OneExtendsHistory(cfg, oidc, log, before, u, id);
      var leaf := u.history.record.leaf;
      Regroup(PriorHistory(cfg, m.root, id), EventsOf(earlier, id), if leaf.identity == id then [leaf] else []);
    }
  }

  lemma Regroup(a: seq<KeyLeaf>, b: seq<KeyLeaf>, c: seq<KeyLeaf>)
    ensures a + b + c == a + (b + c)
  {
  }

  lemma OneExtendsHistory(cfg: Config, oidc: Oidc, log: LogCheckpoint, m: MapState, u: MapUpdate, id: Digest)
    requires MapInv(cfg, m) && ApplyUpdate(cfg, oidc, log, m, u).Ok?
    ensures var n, leaf := ApplyUpdate(cfg, oidc, log, m, u).value, u.history.record.leaf;
            && HeadsCommitted(cfg, m.root) && HeadsCommitted(cfg, n.root)
            && PriorHistory(cfg, n.root, id)
               == PriorHistory(cfg, m.root, id) + if leaf.identity == id then [leaf] else []
  {
    hide ApplyUpdate, MapInv, FiledCorrectly, HeadsCommitted, PriorHistory;
    MapInvCommitted(cfg, m);
    AppliedIsVerified(cfg, oidc, log, m, u);
    UpdateExtendsHistory(cfg, m.root, u);
  }

  lemma AppliedIsVerified(cfg: Config, oidc: Oidc, log: LogCheckpoint, m: MapState, u: MapUpdate)
    requires ApplyUpdate(cfg, oidc, log, m, u).Ok?
    ensures VerifyMapUpdate(cfg, m.root, u).Ok? && ApplyUpdate(cfg, oidc, log, m, u).value.root == u.root
  {
    hide VerifyMapUpdate, ValidateMapEvent, HasException, FactsFrom;
  }

  /** The update at position `k` of a batch is judged exceptional, its identity not being excepted before. */
  ghost predicate ExceptionalAt(cfg: Config, oidc: Oidc, log: LogCheckpoint, m: MapState, us: seq<MapUpdate>, k: nat) {
    && k < |us|
    && ApplyUpdates(cfg, oidc, log, m, us[..k]).Ok?
    && JudgedExceptional(cfg, oidc, log, ApplyUpdates(cfg, oidc, log, m, us[..k]).value, us[k])
  }

  lemma ExceptionalAtPrefix(cfg: Config, oidc: Oidc, log: LogCheckpoint, m: MapState, us: seq<MapUpdate>, n: nat,
                            k: nat)
    requires k < n <= |us|
    ensures ExceptionalAt(cfg, oidc, log, m, us[..n], k) <==> ExceptionalAt(cfg, oidc, log, m, us, k)
  {
    assert us[..n][..k] == us[..k];
  }

  lemma VerifiedHead(cfg: Config, root: MapRoot, u: MapUpdate)
    requires VerifyMapUpdate(cfg, root, u).Ok?
    ensures VerifyMapUpdate(cfg, root, u) == Ok(u.history.head)
  {
    hide VerifyKeyHistoryUpdate;
  }

  predicate JudgedExceptional(cfg: Config, oidc: Oidc, log: LogCheckpoint, m: MapState, u: MapUpdate) {
    && !HasException(m.exceptions, u.history.record.leaf.identity)
    && ValidateMapEvent(cfg, oidc, log, u.history.head, u).Exceptional?
  }

  /** One update records an exception exactly when it is judged exceptional. */
  lemma UpdateRecords(cfg: Config, oidc: Oidc, log: LogCheckpoint, m: MapState, u: MapUpdate)
    requires ApplyUpdate(cfg, oidc, log, m, u).Ok?
    ensures ApplyUpdate(cfg, oidc, log, m, u).value.exceptions.Keys
            == m.exceptions.Keys + if JudgedExceptional(cfg, oidc, log, m, u) then {u.history.record.hash} else {}
  {
    hide ValidateMapEvent, VerifyMapUpdate, HasException, FactsFrom;
    VerifiedHead(cfg, m.root, u);
    ExceptionIsForRecord(cfg, oidc, log, u.history.head, u);
  }

  /** An event of the batch with this hash was judged exceptional. */
  ghost predicate RecordedBy(cfg: Config, oidc: Oidc, log: LogCheckpoint, m: MapState, us: seq<MapUpdate>, h: KeyHash) {
    exists k: nat :: ExceptionalAt(cfg, oidc, log, m, us, k) && us[k].history.record.hash == h
  }

  /** The last update of a batch decides alone what it adds. */
  lemma RecordedByLast(cfg: Config, oidc: Oidc, log: LogCheckpoint, m: MapState, us: seq<MapUpdate>, h: KeyHash)
    requires us != [] && ApplyUpdates(cfg, oidc, log, m, us[..|us| - 1]).Ok?
    ensures var u, before := us[|us| - 1], ApplyUpdates(cfg, oidc, log, m, us[..|us| - 1]).value;
            RecordedBy(cfg, oidc, log, m, us, h) <==>
              || RecordedBy(cfg, oidc, log, m, us[..|us| - 1], h)
              || (JudgedExceptional(cfg, oidc, log, before, u) && u.history.record.hash == h)
  {
    hide ApplyUpdates, ValidateMapEvent, HasException;
    var last := |us| - 1;
    var earlier := us[..last];
    forall k: nat | k < last
      ensures ExceptionalAt(cfg, oidc, log, m, earlier, k) <==> ExceptionalAt(cfg, oidc, log, m, us, k)
    {
      ExceptionalAtPrefix(cfg, oidc, log, m, us, last, k);
    }
    assert ExceptionalAt(cfg, oidc, log, m, us, last)
           <==> JudgedExceptional(cfg, oidc, log, ApplyUpdates(cfg, oidc, log, m, earlier).value, us[last]);
    if RecordedBy(cfg, oidc, log, m, earlier, h) {
      var k: nat :| ExceptionalAt(cfg, oidc, log, m, earlier, k) && earlier[k].history.record.hash == h;
      assert ExceptionalAt(cfg, oidc, log, m, us, k);
    }
    if RecordedBy(cfg, oidc, log, m, us, h) {
      var k: nat :| ExceptionalAt(cfg, oidc, log, m, us, k) && us[k].history.record.hash == h;
      if k < last {
        assert ExceptionalAt(cfg, oidc, log, m, earlier, k) && earlier[k].history.record.hash == h;
      }
    }
  }

  /** After a batch the exceptions are those before and the events of the batch judged exceptional, no others. */
  lemma {:induction false} BatchRecords(cfg: Config, oidc: Oidc, log: LogCheckpoint, m: MapState, us: seq<MapUpdate>,
                                        h: KeyHash)
    requires ApplyUpdates(cfg, oidc, log, m, us).Ok?
    ensures h in ApplyUpdates(cfg, oidc, log, m, us).value.exceptions <==>
              h in m.exceptions || RecordedBy(cfg, oidc, log, m, us, h)
    decreases |us|
  {
    if us != [] {
      hide ApplyUpdate, JudgedExceptional, RecordedBy;
      var earlier := us[..|us| - 1];
      BatchRecords(cfg, oidc, log, m, earlier, h);
      RecordedByLast(cfg, oidc, log, m, us, h);
      UpdateRecords(cfg, oidc, log, ApplyUpdates(cfg, oidc, log, m, earlier).value, us[|us| - 1]);
    }
  }

  /** A batch that fails has a first update at which it fails, after a part that would have succeeded. */
  lemma {:induction false} BatchFailsSomewhere(cfg: Config, oidc: Oidc, log: LogCheckpoint, m: MapState,
                                               us: seq<MapUpdate>) returns (k: nat)
    requires ApplyUpdates(cfg, oidc, log, m, us).Err?
    ensures k < |us| && ApplyUpdates(cfg, oidc, log, m, us[..k]).Ok?
    ensures ApplyUpdate(cfg, oidc, log, ApplyUpdates(cfg, oidc, log, m, us[..k]).value, us[k])
            == Err(ApplyUpdates(cfg, oidc, log, m, us).error)
    decreases |us|
  {
    k := |us| - 1;
    if ApplyUpdates(cfg, oidc, log, m, us[..k]).Err? {
      var earlier := us[..k];
      k := BatchFailsSomewhere(cfg, oidc, log, m, earlier);
      assert earlier[..k] == us[..k];
    }
  }
}
