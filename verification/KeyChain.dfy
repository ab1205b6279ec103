/**
 Key histories: the full audit of a history from its first event (`Replay`), and the agent's shortcut
 that rebuilds one state from one disclosed event (`ReconstructAccepted`).
 */
module KeyChain {
  import opened Common
  import opened TrustProtocol
  import MerkleLog

  // ---------------------------------------------------------------- the agent's checks

  /** Enrollment as checked when its event enters the map: the identity provider is consulted. */
  function VerifyEnrollment(cfg: Config, oidc: Oidc, e: EnrollmentPackage): Option<ContinuityState> {
    if !MatchesIntent(cfg, e.intent) || !VerifyPossession(e) then None
    else
      match oidc(IntentDigest(e.intent), e.idToken)
      case None => None
      case Some(s) =>
        if e.identity != IdentityDigest(cfg.tenant, s.issuer, s.subject) then None
        else Some(EnrolledState(cfg.tenant, e.identity, e.key))
  }

  function ReconstructEnrollment(cfg: Config, e: EnrollmentPackage): Option<ContinuityState> {
    if !MatchesIntent(cfg, e.intent) || e.identity == NO_DIGEST || !VerifyPossession(e) then None
    else Some(EnrolledState(cfg.tenant, e.identity, e.key))
  }

  /** The state that one disclosed event of an accepted history produces. */
  function ReconstructAccepted(cfg: Config, leaf: KeyLeaf): Option<ContinuityState> {
    var e := leaf.event;
    if e.kind == ENROLLMENT then
      if leaf.sequence != 0 || e.enrollment.None? || e.rotation.Some? || e.marker.Some? then None
      else
        match ReconstructEnrollment(cfg, e.enrollment.value)
        case None => None
        case Some(s) => if s.identity != leaf.identity || StateDigest(s) != leaf.resulting then None else Some(s)
    else if e.kind == ROTATION then
      if leaf.sequence == 0 || e.rotation.None? || e.marker.None? || e.enrollment.Some? then None
      else
        var r := e.rotation.value;
        var a := r.authorization;
        if a.protocol != ROTATION_PROTOCOL || a.tenant != cfg.tenant || a.identity != leaf.identity
           || !Verify(r.newKey, NEW_KEY_PURPOSE, AuthorizationMessage(a), r.byNewKey)
        then None
        else
          match ReconstructSuccessor(r)
          case None => None
          case Some(s) => if StateDigest(s) != leaf.resulting then None else Some(s)
    else None
  }

  function VerifyRotation(cfg: Config, r: RotationPackage, current: ContinuityState): Option<ContinuityState> {
    var a := r.authorization;
    if a.protocol != ROTATION_PROTOCOL || a.tenant != cfg.tenant
       || a.identity != current.identity || a.previous != StateDigest(current)
       || r.newGeneration != NextGeneration(current.generation)
       || !VerifyRotationAuthorization(r, current.key)
    then None
    else ReconstructSuccessor(r)
  }

  // ---------------------------------------------------------------- the full audit

  /** The first event of a history, with the identity provider's past answers in `facts`. */
  function ReplayEnrollment(cfg: Config, facts: set<TokenFact>, leaf: KeyLeaf): Option<ContinuityState> {
    var e := leaf.event;
    if leaf.sequence != 0 || e.kind != ENROLLMENT || e.enrollment.None? || e.rotation.Some? || e.marker.Some? then None
    else
      var p := e.enrollment.value;
      if !MatchesIntent(cfg, p.intent) || !VerifyPossession(p)
         || !p.identity.IdentityDigest? || p.identity.tenant != cfg.tenant
         || TokenFact(IntentDigest(p.intent), p.idToken, p.identity.issuer, p.identity.subject) !in facts
      then None
      else
        var s := EnrolledState(cfg.tenant, p.identity, p.key);
        if leaf.identity != s.identity || leaf.resulting != StateDigest(s) then None else Some(s)
  }

  /** A later event: a rotation that the current state's key authorized, at a later log position. */
  function ReplayRotation(cfg: Config, current: ContinuityState, before: KeyLeaf,
                          leaf: KeyLeaf): Option<ContinuityState> {
    var e := leaf.event;
    if e.kind != ROTATION || e.rotation.None? || e.marker.None? || e.enrollment.Some?
       || leaf.identity != current.identity
       || leaf.sequence as int != before.sequence as int + 1
       || e.marker.value.hash != MarkerLeaf(e.rotation.value)
       || (before.event.marker.Some? && e.marker.value.index <= before.event.marker.value.index)
    then None
    else
      match VerifyRotation(cfg, e.rotation.value, current)
      case None => None
      case Some(s) => if leaf.resulting != StateDigest(s) then None else Some(s)
  }

  /** Audits a whole history, checking every signature, and returns its current state. */
  function Replay(cfg: Config, facts: set<TokenFact>, es: seq<KeyLeaf>): Option<ContinuityState>
    decreases |es|
  {
    if |es| == 0 then None
    else if |es| == 1 then ReplayEnrollment(cfg, facts, es[0])
    else
      match Replay(cfg, facts, es[..|es| - 1])
      case None => None
      case Some(current) => ReplayRotation(cfg, current, es[|es| - 2], es[|es| - 1])
  }

  /** More answers from the identity provider never invalidate a history. */
  lemma {:induction false} ReplayMonotone(cfg: Config, facts: set<TokenFact>, more: set<TokenFact>, es: seq<KeyLeaf>)
    requires Replay(cfg, facts, es).Some? && facts <= more
    ensures Replay(cfg, more, es) == Replay(cfg, facts, es)
    decreases |es|
  {
    if |es| > 1 {
      ReplayMonotone(cfg, facts, more, es[..|es| - 1]);
    }
  }

  /** Every prefix of a valid history is valid. */
  lemma {:induction false} ReplayPrefix(cfg: Config, facts: set<TokenFact>, es: seq<KeyLeaf>, n: nat)
    requires Replay(cfg, facts, es).Some? && 0 < n <= |es|
    ensures Replay(cfg, facts, es[..n]).Some?
    decreases |es|
  {
    if n < |es| {
      ReplayPrefix(cfg, facts, es[..|es| - 1], n);
      assert es[..|es| - 1][..n] == es[..n];
    } else {
      assert es[..n] == es;
    }
  }

  /**
   State `k` of a valid history has generation `k`, belongs to the enrolled identity and is what event `k`
   commits.
   */
  lemma {:induction false} ReplayShape(cfg: Config, facts: set<TokenFact>, es: seq<KeyLeaf>)
    requires Replay(cfg, facts, es).Some?
    ensures var s := Replay(cfg, facts, es).value;
            && s.generation == |es| - 1
            && s.tenant == cfg.tenant
            && s.identity == es[0].identity == es[|es| - 1].identity
            && StateDigest(s) == es[|es| - 1].resulting
            && es[|es| - 1].sequence == |es| - 1
            && s.identity != NO_DIGEST
    decreases |es|
  {
    if |es| > 1 {
      ReplayShape(cfg, facts, es[..|es| - 1]);
    }
  }

  /** Each rotation is signed by the key of the state before it, at a strictly later marker. */
  lemma ReplayStep(cfg: Config, facts: set<TokenFact>, es: seq<KeyLeaf>, k: nat)
    requires Replay(cfg, facts, es).Some? && 0 < k < |es|
    ensures Replay(cfg, facts, es[..k]).Some? && Replay(cfg, facts, es[..k + 1]).Some?
    ensures var e := es[k].event;
            && e.kind == ROTATION && e.rotation.Some? && e.marker.Some? && e.enrollment.None?
            && e.marker.value.hash == MarkerLeaf(e.rotation.value)
            && e.rotation.value.authorization.previous == es[k - 1].resulting
            && Verify(Replay(cfg, facts, es[..k]).value.key, OLD_KEY_PURPOSE,
                      AuthorizationMessage(e.rotation.value.authorization), e.rotation.value.byOldKey)
            && (es[k - 1].event.marker.Some? ==> es[k - 1].event.marker.value.index < e.marker.value.index)
  {
    ReplayPrefix(cfg, facts, es, k);
    ReplayPrefix(cfg, facts, es, k + 1);
    ReplayShape(cfg, facts, es[..k]);
    assert es[..k + 1][..k] == es[..k];
  }

  lemma ReplayFirst(cfg: Config, facts: set<TokenFact>, es: seq<KeyLeaf>)
    requires Replay(cfg, facts, es).Some?
    ensures es[0].event.kind == ENROLLMENT && es[0].event.marker.None? && es[0].event.enrollment.Some?
  {
    ReplayPrefix(cfg, facts, es, 1);
  }

  lemma GenerationAt(cfg: Config, facts: set<TokenFact>, es: seq<KeyLeaf>, k: nat)
    requires Replay(cfg, facts, es).Some? && k < |es|
    ensures es[k].resulting.StateDigest? && es[k].resulting.state.generation == k
  {
    ReplayPrefix(cfg, facts, es, k + 1);
    ReplayShape(cfg, facts, es[..k + 1]);
  }

  /** A state digest occurs once in a valid history. */
  lemma StateOnce(cfg: Config, facts: set<TokenFact>, es: seq<KeyLeaf>, j: nat, k: nat)
    requires Replay(cfg, facts, es).Some? && j < |es| && k < |es|
    requires es[j].resulting == es[k].resulting
    ensures j == k
  {
    GenerationAt(cfg, facts, es, j);
    GenerationAt(cfg, facts, es, k);
  }

  /** Every event but the first carries a marker, later than the marker before it. */
  ghost predicate MarkersAdvance(es: seq<KeyLeaf>) {
    && (forall k | 0 < k < |es| :: es[k].event.marker.Some?)
    && (forall k | 1 < k < |es| :: es[k - 1].event.marker.value.index < es[k].event.marker.value.index)
  }

  lemma MarkersOf(cfg: Config, facts: set<TokenFact>, es: seq<KeyLeaf>)
    requires Replay(cfg, facts, es).Some?
    ensures MarkersAdvance(es)
  {
    forall k | 0 < k < |es|
      ensures es[k].event.marker.Some?
      ensures es[k - 1].event.marker.Some? ==> es[k - 1].event.marker.value.index < es[k].event.marker.value.index
    {
      ReplayStep(cfg, facts, es, k);
    }
  }

  /** Rotation markers lie at strictly increasing log positions. */
  lemma {:induction false} MarkersIncrease(es: seq<KeyLeaf>, j: nat, k: nat)
    requires MarkersAdvance(es) && 0 < j < k < |es|
    ensures es[j].event.marker.value.index < es[k].event.marker.value.index
    decreases k
  {
    if j < k - 1 {
      MarkersIncrease(es, j, k - 1);
    }
  }

  /** Replaying an enrollment and reconstructing it give the same state. */
  lemma ShortcutEnrollment(cfg: Config, facts: set<TokenFact>, leaf: KeyLeaf)
    requires ReplayEnrollment(cfg, facts, leaf).Some?
    ensures ReconstructAccepted(cfg, leaf) == ReplayEnrollment(cfg, facts, leaf)
  {
  }

  lemma ShortcutRotation(cfg: Config, current: ContinuityState, before: KeyLeaf, leaf: KeyLeaf)
    requires ReplayRotation(cfg, current, before, leaf).Some?
    ensures ReconstructAccepted(cfg, leaf) == ReplayRotation(cfg, current, before, leaf)
  {
    assert ENROLLMENT[0] != ROTATION[0];
  }

  /** For the last event of a valid history, reconstruction gives what the audit gives. */
  lemma ShortcutLast(cfg: Config, facts: set<TokenFact>, es: seq<KeyLeaf>)
    requires Replay(cfg, facts, es).Some?
    ensures ReconstructAccepted(cfg, es[|es| - 1]) == Replay(cfg, facts, es)
  {
    if |es| == 1 {
      ShortcutEnrollment(cfg, facts, es[0]);
    } else {
      ShortcutRotation(cfg, Replay(cfg, facts, es[..|es| - 1]).value, es[|es| - 2], es[|es| - 1]);
    }
  }

  /**
   The shortcut refines the audit: for any event of a valid history, rebuilding the state from that one
   event gives the state that replaying the history up to it, with every signature check, gives.
   */
  lemma ShortcutIsReplay(cfg: Config, facts: set<TokenFact>, es: seq<KeyLeaf>, k: nat)
    requires Replay(cfg, facts, es).Some? && k < |es|
    ensures Replay(cfg, facts, es[..k + 1]).Some?
    ensures ReconstructAccepted(cfg, es[k]) == Replay(cfg, facts, es[..k + 1])
  {
    ReplayPrefix(cfg, facts, es, k + 1);
    ShortcutLast(cfg, facts, es[..k + 1]);
  }

  // ---------------------------------------------------------------- what the audit amounts to

  /** What a signature that verifies is: that of a full-length key over this purpose and message. */
  ghost predicate SignedBy(key: Bytes, purpose: string, message: Message, signature: Signature) {
    |key| == 32 && signature == Signed(key, purpose, message)
  }

  /**
   An enrollment that the provider confirmed: an intent for this tenant, issuer and client that names the enrolled
   key, signed with it; a token over that intent whose subject is the identity; and the first state of the key.
   */
  ghost predicate GoodEnrollment(cfg: Config, facts: set<TokenFact>, leaf: KeyLeaf) {
    && leaf.sequence == 0 && leaf.event.enrollment.Some?
    && leaf.event == KeyEvent(ENROLLMENT, leaf.event.enrollment, None, None)
    && var p := leaf.event.enrollment.value;
       && p.intent == EnrollmentIntent(ENROLLMENT_PROTOCOL, cfg.tenant, cfg.issuer, cfg.clientId, BytesDigest(p.key),
                                       p.intent.enrollmentId)
       && SignedBy(p.key, POSSESSION_PURPOSE, IntentMessage(p.intent), p.possession)
       && (exists issuer, subject ::
             && p.identity == IdentityDigest(cfg.tenant, issuer, subject)
             && TokenFact(IntentDigest(p.intent), p.idToken, issuer, subject) in facts)
       && leaf.identity == p.identity
       && leaf.resulting == StateDigest(ContinuityState(
         CONTINUITY_STATE_PROTOCOL, cfg.tenant, p.identity, 0, p.key, BytesDigest(p.key), NO_DIGEST, NO_DIGEST,
         NO_DIGEST))
  }

  /**
   A rotation from the state that `before` produced to the one that `leaf` names: both keys signed that very step,
   the new state has the new key and the next generation, and the log position is later than the one before.
   */
  ghost predicate GoodRotation(cfg: Config, before: KeyLeaf, leaf: KeyLeaf) {
    && before.resulting.StateDigest? && leaf.event.rotation.Some? && leaf.event.marker.Some?
    && leaf.event == KeyEvent(ROTATION, None, leaf.event.rotation, leaf.event.marker)
    && leaf.identity == before.identity && leaf.sequence as int == before.sequence as int + 1
    && var r, current, marker := leaf.event.rotation.value, before.resulting.state, leaf.event.marker.value;
       && r.authorization
          == RotationAuthorization(ROTATION_PROTOCOL, cfg.tenant, leaf.identity, before.resulting, leaf.resulting)
       && SignedBy(current.key, OLD_KEY_PURPOSE, AuthorizationMessage(r.authorization), r.byOldKey)
       && SignedBy(r.newKey, NEW_KEY_PURPOSE, AuthorizationMessage(r.authorization), r.byNewKey)
       && r.newGeneration as int == current.generation as int + 1
       && leaf.resulting == StateDigest(ContinuityState(
         CONTINUITY_STATE_PROTOCOL, cfg.tenant, leaf.identity, r.newGeneration, r.newKey, BytesDigest(r.newKey),
         NO_DIGEST, before.resulting, TransitionDigest(RotationTransition(
           cfg.tenant, leaf.identity, before.resulting, r.newGeneration, BytesDigest(r.newKey), NO_DIGEST))))
       && marker.hash == MerkleLog.Leaf(LogEvent(ROTATION, None,
         Some(RotationMarker(cfg.tenant, leaf.identity, RotationDigest(r)))))
       && (before.event.marker.Some? ==> before.event.marker.value.index < marker.index)
  }

  ghost predicate GoodHistory(cfg: Config, facts: set<TokenFact>, es: seq<KeyLeaf>) {
    && es != [] && GoodEnrollment(cfg, facts, es[0])
    && forall k | 0 < k < |es| :: GoodRotation(cfg, es[k - 1], es[k])
  }

  lemma EnrollmentExact(cfg: Config, facts: set<TokenFact>, leaf: KeyLeaf)
    ensures ReplayEnrollment(cfg, facts, leaf).Some? <==> GoodEnrollment(cfg, facts, leaf)
  {
    if ReplayEnrollment(cfg, facts, leaf).Some? {
      var p := leaf.event.enrollment.value;
      assert p.identity == IdentityDigest(cfg.tenant, p.identity.issuer, p.identity.subject);
    }
  }

  lemma RotationExact(cfg: Config, current: ContinuityState, before: KeyLeaf, leaf: KeyLeaf)
    requires before.resulting == StateDigest(current) && current.identity == before.identity != NO_DIGEST
    requires before.sequence == current.generation
    ensures ReplayRotation(cfg, current, before, leaf).Some? <==> GoodRotation(cfg, before, leaf)
  {
  }

  /** The audit passes exactly the good histories, and ends in the state that the last event names. */
  lemma {:induction false} AuditExact(cfg: Config, facts: set<TokenFact>, es: seq<KeyLeaf>)
    ensures Replay(cfg, facts, es).Some? <==> GoodHistory(cfg, facts, es)
    ensures Replay(cfg, facts, es).Some? ==> StateDigest(Replay(cfg, facts, es).value) == es[|es| - 1].resulting
    decreases |es|
  {
    if |es| == 1 {
      EnrollmentExact(cfg, facts, es[0]);
    } else if |es| > 1 {
      hide GoodEnrollment, GoodRotation, ReplayRotation;
      var shorter, last := es[..|es| - 1], |es| - 1;
      AuditExact(cfg, facts, shorter);
      LastGood(cfg, facts, es);
      if Replay(cfg, facts, shorter).Some? {
        ReplayShape(cfg, facts, shorter);
        RotationExact(cfg, Replay(cfg, facts, shorter).value, es[last - 1], es[last]);
        if Replay(cfg, facts, es).Some? {
          ReplayShape(cfg, facts, es);
        }
      }
    }
  }

  lemma LastGood(cfg: Config, facts: set<TokenFact>, es: seq<KeyLeaf>)
    requires |es| > 1
    ensures GoodHistory(cfg, facts, es) <==>
              GoodHistory(cfg, facts, es[..|es| - 1]) && GoodRotation(cfg, es[|es| - 2], es[|es| - 1])
  {
    hide GoodEnrollment, GoodRotation;
    var shorter := es[..|es| - 1];
    if GoodHistory(cfg, facts, shorter) && GoodRotation(cfg, es[|es| - 2], es[|es| - 1]) {
      forall k | 0 < k < |es|
        ensures GoodRotation(cfg, es[k - 1], es[k])
      {
        if k < |shorter| {
          assert GoodRotation(cfg, shorter[k - 1], shorter[k]);
        }
      }
    } else if GoodHistory(cfg, facts, es) {
      forall k | 0 < k < |shorter|
        ensures GoodRotation(cfg, shorter[k - 1], shorter[k])
      {
        assert GoodRotation(cfg, es[k - 1], es[k]);
      }
    }
  }

  // ---------------------------------------------------------------- validity windows in the delivery log

  /**
   Log index `i` lies in the window of state `k`: after the marker that established it, before the one that
   retired it.
   */
  ghost predicate InWindow(es: seq<KeyLeaf>, k: nat, i: nat) {
    && k < |es|
    && (k > 0 ==> es[k].event.marker.Some? && es[k].event.marker.value.index < i)
    && (k + 1 < |es| ==> es[k + 1].event.marker.Some? && i < es[k + 1].event.marker.value.index)
  }

  /** At any one history, each log index belongs to the window of at most one state. */
  lemma WindowsDisjoint(es: seq<KeyLeaf>, j: nat, k: nat, i: nat)
    requires MarkersAdvance(es) && InWindow(es, j, i) && InWindow(es, k, i)
    ensures j == k
  {
    if j + 1 < k {
      MarkersIncrease(es, j + 1, k);
    } else if k + 1 < j {
      MarkersIncrease(es, k + 1, j);
    }
  }
}
