/**
 The delivery agent itself: the fields that poc/trust-model-v3/deliveryagent/agent.go updates under its
 mutex, and the methods that update them, each proved against its function in TrustAgentModel.
 */
module TrustAgent {
  import opened Common
  import opened TrustProtocol
  import opened TrustAgentModel
  import MerkleLog
  import SparseMap

  class Agent {
    const cfg: Config

    var mapRoot: MapRoot
    var deliveryCheckpoint: LogCheckpoint
    var exceptionalEvents: Exceptions

    var applied: map<string, SignedDelivery>
    var appliedDigests: map<string, Digest>
    var generations: map<string, Uint64>

    var failBeforeAccepting: nat
    var loseNextAcknowledgement: bool
    var staleCheckpointResponses: nat

    // History that the source does not keep; no executable statement reads it.
    ghost var facts: set<TokenFact>
    ghost var effects: seq<Effect>

    ghost function View(): State
      reads this
    {
      State(mapRoot, deliveryCheckpoint, exceptionalEvents, applied, appliedDigests, generations,
            failBeforeAccepting, loseNextAcknowledgement, staleCheckpointResponses, facts, effects)
    }

    constructor (cfg: Config)
      ensures this.cfg == cfg && View() == Init(cfg)
    {
      this.cfg := cfg;
      mapRoot := SparseMap.EmptyMap(cfg.tenant);
      deliveryCheckpoint := MerkleLog.Checkpoint(0, MerkleLog.Empty);
      exceptionalEvents := map[];
      applied, appliedDigests, generations := map[], map[], map[];
      failBeforeAccepting, loseNextAcknowledgement, staleCheckpointResponses := 0, false, 0;
      facts, effects := {}, [];
    }

    /** The loop over a batch works on copies and commits them only if no update is a hard error. */
    method ApplyMapUpdates(oidc: Oidc, updates: seq<MapUpdate>) returns (semantic: Option<Error>, hard: Option<Error>)
      modifies this`mapRoot, this`exceptionalEvents, this`facts
      ensures match ApplyUpdates(cfg, oidc, deliveryCheckpoint, MapPart(old(View())), updates)
              case Err(e) => View() == old(View()) && hard == Some(e) && semantic == None
              case Ok(m) =>
                && hard == None && semantic == m.semantic
                && View() == old(View()).(mapRoot := m.root, exceptions := m.exceptions, facts := m.facts)
    {
      hide VerifyMapUpdate, ValidateMapEvent, FactsFrom;
      ghost var start := MapPart(View());
      var root := mapRoot;
      var exceptions := exceptionalEvents;
      ghost var known := facts;
      semantic := None;
      var i := 0;
      while i < |updates|
        invariant 0 <= i <= |updates|
        invariant View() == old(View())
        invariant ApplyUpdates(cfg, oidc, deliveryCheckpoint, start, updates[..i])
                    == Ok(MapState(root, exceptions, known, semantic))
      {
        var u := updates[i];
        assert updates[..i + 1][..i] == updates[..i];
        ghost var before := MapState(root, exceptions, known, semantic);
        assert ApplyUpdates(cfg, oidc, deliveryCheckpoint, start, updates[..i + 1])
            == ApplyUpdate(cfg, oidc, deliveryCheckpoint, before, u);
        if u.previousRoot != root {
          BatchFails(cfg, oidc, deliveryCheckpoint, start, updates, i + 1);
          return None, Some(ErrMapFork);
        }
        var verified := VerifyMapUpdate(cfg, root, u);
        if verified.Err? {
          BatchFails(cfg, oidc, deliveryCheckpoint, start, updates, i + 1);
          return None, Some(if verified.error.InvalidMapProof? then ErrMapFork
            else KeyEventError(u.history.record.leaf.event.kind));
        }
        if !HasException(exceptions, u.history.record.leaf.identity) {
          var verdict := ValidateMapEvent(cfg, oidc, deliveryCheckpoint, verified.value, u);
          match verdict {
            case Rejected(e) =>
              BatchFails(cfg, oidc, deliveryCheckpoint, start, updates, i + 1);
              return None, Some(e);
            case Accepted =>
              known := known + FactsFrom(oidc, u.history.record.leaf);
            case Exceptional(event, e) =>
              if event.event !in exceptions {
                if |exceptions| >= cfg.capacity {
                  BatchFails(cfg, oidc, deliveryCheckpoint, start, updates, i + 1);
                  return None, Some(ErrExceptionCapacity);
                }
                exceptions := exceptions[event.event := event];
              }
              if semantic == None {
                semantic := Some(e);
              }
          }
        }
        root := u.root;
        i := i + 1;
      }
      assert updates[..i] == updates;
      mapRoot := root;
      exceptionalEvents := exceptions;
      facts := known;
      hard := None;
    }

    method SyncMap(oidc: Oidc, updates: seq<MapUpdate>) returns (error: Option<Error>)
      modifies this`mapRoot, this`exceptionalEvents, this`facts
      ensures Outcome(View(), error) == TrustAgentModel.SyncMap(cfg, oidc, old(View()), updates)
    {
      var semantic, hard := ApplyMapUpdates(oidc, updates);
      error := if hard.Some? then hard else semantic;
    }

    /** Pins the new checkpoint and collects the disclosed records by index. */
    method AdvanceLog(u: LogUpdate) returns (error: Option<Error>, observed: map<Uint64, Observed>)
      modifies this`deliveryCheckpoint
      ensures Outcome(View(), error) == TrustAgentModel.AdvanceLog(old(View()), u)
      ensures error == None ==> observed == ObserveAll(u.entries)
    {
      observed := map[];
      var ok := VerifyDeliveryLogUpdate(deliveryCheckpoint, u);
      if !ok {
        return Some(ErrLogFork), observed;
      }
      var i := 0;
      while i < |u.entries|
        invariant 0 <= i <= |u.entries|
        invariant observed == ObserveAll(u.entries[..i])
      {
        assert u.entries[..i + 1][..i] == u.entries[..i];
        var record := u.entries[i].record;
        if record.index in observed && observed[record.index] != Observe(record) {
          // The source answers ErrLogFork here; verification has already ruled a repeated index out.
          IndexIsFresh(u.entries, i);
          assert false;
        }
        observed := observed[record.index := Observe(record)];
        i := i + 1;
      }
      assert u.entries[..i] == u.entries;
      deliveryCheckpoint := u.checkpoint;
      error := None;
    }

    method ReceiveIncludedDelivery(record: DeliveryRecord, ip: IdentityProof, observed: map<Uint64, Observed>)
      returns (error: Option<Error>)
      modifies this`applied, this`appliedDigests, this`generations, this`effects
      ensures Outcome(View(), error) == ReceiveIncluded(cfg, old(View()), record, ip, observed)
    {
      hide SigningStateOf, VerifyDeliveryRecord;
      if record.index >= deliveryCheckpoint.size || !VerifyDeliveryRecord(record)
         || record.index !in observed || observed[record.index] != Observe(record) {
        return Some(ErrLogFork);
      }
      if !WellFormedDelivery(cfg, record) {
        return Some(ErrAttestation);
      }
      var d := record.delivery.value;
      var a := d.attestation;
      var state := SigningStateOf(cfg, mapRoot, exceptionalEvents, record.index, a, ip, observed);
      if state == None {
        return Some(ErrSigningState);
      }
      if !Verify(state.value.key, DELIVERY_PURPOSE, AttestationMessage(a), d.signature) {
        return Some(ErrSignature);
      }
      if a.fulfillment in generations {
        var previous := generations[a.fulfillment];
        if a.generation < previous {
          return Some(ErrGeneration);
        }
        if a.generation == previous {
          if a.fulfillment in appliedDigests && appliedDigests[a.fulfillment] == DeliveryDigest(d) {
            return None;
          }
          return Some(ErrGeneration);
        }
      }
      generations := generations[a.fulfillment := a.generation];
      appliedDigests := appliedDigests[a.fulfillment := DeliveryDigest(d)];
      if a.action == REMOVE {
        applied := applied - {a.fulfillment};
      } else {
        applied := applied[a.fulfillment := d];
      }
      effects := effects + [Effect(record.index, d, ip.membership.head, ip.signing.record.leaf.sequence)];
      return None;
    }

    method ReceiveDelivery(oidc: Oidc, record: DeliveryRecord, proof: DeliveryProof) returns (error: Option<Error>)
      modifies this
      ensures Outcome(View(), error) == TrustAgentModel.ReceiveDelivery(cfg, oidc, old(View()), record, proof)
    {
      var failed, observed := AdvanceLog(proof.log);
      if failed.Some? {
        return failed;
      }
      var _, hard := ApplyMapUpdates(oidc, proof.mapUpdates);
      if hard.Some? {
        return hard;
      }
      error := ReceiveIncludedDelivery(record, proof.identity, observed);
    }

    method Deliver(oidc: Oidc, record: DeliveryRecord, proof: DeliveryProof) returns (error: Option<Error>)
      modifies this
      ensures Outcome(View(), error) == TrustAgentModel.Deliver(cfg, oidc, old(View()), record, proof)
    {
      hide AcceptsLogUpdate, ApplyUpdates, ReceiveIncluded;
      if failBeforeAccepting > 0 {
        failBeforeAccepting := failBeforeAccepting - 1;
        return Some(ErrDeliveryUnavailable);
      }
      var retained := deliveryCheckpoint;
      var failed, observed := AdvanceLog(proof.log);
      if IsStale(proof.log, retained) {
        staleCheckpointResponses := staleCheckpointResponses + 1;
        return Some(ErrCheckpointStale(retained));
      }
      if failed.Some? {
        return failed;
      }
      var _, hard := ApplyMapUpdates(oidc, proof.mapUpdates);
      if hard.Some? {
        return hard;
      }
      error := ReceiveIncludedDelivery(record, proof.identity, observed);
      if error == None && loseNextAcknowledgement {
        loseNextAcknowledgement := false;
        return Some(ErrAcknowledgementLost);
      }
    }

    method FailNextDeliveriesBeforeAccepting(count: nat)
      modifies this`failBeforeAccepting
      ensures View() == Step(cfg, old(View()), CallFailNext(count)).state
    {
      failBeforeAccepting := failBeforeAccepting + count;
    }

    method LoseNextAcknowledgement()
      modifies this`loseNextAcknowledgement
      ensures View() == Step(cfg, old(View()), CallLoseAck).state
    {
      loseNextAcknowledgement := true;
    }
  }

  /** What an operator provisions. */
  datatype Settings = Settings(tenant: string, target: string, manifestTenant: string, issuer: string, clientId: string,
                               capacity: int, path: Digest -> SparseMap.Path)

  const DEFAULT_CAPACITY := 64

  predicate Usable(s: Settings) {
    && s.tenant != "" && s.target != ""
    && s.manifestTenant == s.tenant && s.issuer != "" && s.clientId != ""
    && s.capacity >= 0
  }

  /** Refuses settings that name no tenant, target or trust manifest; no capacity means the default one. */
  method NewAgent(s: Settings) returns (agent: Option<Agent>)
    ensures agent.Some? <==> Usable(s)
    ensures agent.Some? ==>
              && fresh(agent.value)
              && agent.value.View() == Init(agent.value.cfg)
              && agent.value.cfg == Config(s.tenant, s.target, s.issuer, s.clientId,
                                           if s.capacity == 0 then DEFAULT_CAPACITY else s.capacity, s.path)
  {
    if s.tenant == "" || s.target == "" || s.manifestTenant != s.tenant || s.issuer == "" || s.clientId == ""
      || s.capacity < 0 {
      return None;
    }
    var capacity := s.capacity;
    if capacity == 0 {
      capacity := DEFAULT_CAPACITY;
    }
    var a := new Agent(Config(s.tenant, s.target, s.issuer, s.clientId, capacity, s.path));
    return Some(a);
  }

  /** An update that fails makes the whole batch fail with the same error. */
  lemma {:induction false} BatchFails(cfg: Config, oidc: Oidc, log: LogCheckpoint, m: MapState, us: seq<MapUpdate>,
                                      n: nat)
    requires n <= |us| && ApplyUpdates(cfg, oidc, log, m, us[..n]).Err?
    ensures ApplyUpdates(cfg, oidc, log, m, us) == ApplyUpdates(cfg, oidc, log, m, us[..n])
    decreases |us|
  {
    if n == |us| {
      assert us[..n] == us;
    } else {
      var shorter := us[..|us| - 1];
      assert shorter[..n] == us[..n];
      BatchFails(cfg, oidc, log, m, shorter, n);
    }
  }

  /** Accepted updates disclose each index once, so a disclosed record never meets an earlier one. */
  lemma {:induction false} IndexIsFresh(entries: seq<LogEntry>, n: nat)
    requires DistinctIndexes(entries) && n < |entries|
    ensures entries[n].record.index !in ObserveAll(entries[..n])
  {
    ObservedIndexes(entries[..n]);
  }

  lemma {:induction false} ObservedIndexes(entries: seq<LogEntry>)
    ensures forall x: Uint64 :: x in ObserveAll(entries) <==> exists j | 0 <= j < |entries| ::
              entries[j].record.index == x
    decreases |entries|
  {
    if entries != [] {
      ObservedIndexes(entries[..|entries| - 1]);
    }
  }
}
