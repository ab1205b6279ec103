/**
 The evidence log of the provenance suites: checkpoint transitions, and the binding of evidence
 identities to log positions (poc/provenance-suites/protocol/log.go, poc/provenance-suites/temporal/temporal.go).
 */
module EvidenceLog {
  import opened Common
  import MerkleLog

  datatype TypedEvidence = TypedEvidence(provenanceType: string, mediaType: string, bytes: seq<int>)

  /** The domain-separated digest of an evidence envelope. */
  datatype Identity = Identity(evidence: TypedEvidence)

  type LogHash = MerkleLog.Hash<Identity>
  type Checkpoint = MerkleLog.Checkpoint<Identity>

  const EMPTY_CHECKPOINT: Checkpoint := MerkleLog.Checkpoint(0, MerkleLog.Empty)

  datatype Update = Update(from: Checkpoint, checkpoint: Checkpoint, consistency: seq<LogHash>)
  datatype Inclusion = Inclusion(index: Uint64, path: seq<LogHash>)
  datatype Binding = Binding(index: Uint64, identity: Identity)

  predicate VerifyOccurrenceProof(c: Checkpoint, e: TypedEvidence, i: Inclusion) {
    && MerkleLog.ValidCheckpoint(c)
    && i.index < c.size
    && MerkleLog.VerifyInclusion(i.index, c.size, MerkleLog.Leaf(Identity(e)), i.path, c.root)
  }

  datatype LogError =
    | MissingUpdate
    | StaleCheckpoint(latest: Checkpoint)
    | InvalidLogUpdate
    | InvalidLogInclusion
    | SecondOccurrence

  /** The checkpoint to retain next, from the retained one and what a package carries about the log. */
  function Prepare(retained: Checkpoint, update: Option<Update>, root: TypedEvidence, inclusion: Option<Inclusion>)
    : Result<Checkpoint, LogError>
  {
    match update
    case None => if inclusion.Some? then Err(MissingUpdate) else Ok(retained)
    case Some(u) =>
      if u.from != retained then
        if u.from.size < retained.size then Err(StaleCheckpoint(retained)) else Err(InvalidLogUpdate)
      else if !MerkleLog.VerifyAdvance(retained, u.checkpoint, u.consistency) then Err(InvalidLogUpdate)
      else if inclusion.Some? && !VerifyOccurrenceProof(u.checkpoint, root, inclusion.value)
        then Err(InvalidLogInclusion)
      else Ok(u.checkpoint)
  }

  /**
   Whatever a package carries, the next retained checkpoint continues the retained one and is the one the package
   leads to; where the root comes with an inclusion, that checkpoint holds the root's identity at its index.
   */
  lemma PrepareContinues(retained: Checkpoint, update: Option<Update>, root: TypedEvidence,
                         inclusion: Option<Inclusion>)
    requires Prepare(retained, update, root, inclusion).Ok?
    ensures MerkleLog.Continues(retained, Prepare(retained, update, root, inclusion).value)
    ensures MerkleLog.ValidCheckpoint(retained) ==>
              MerkleLog.ValidCheckpoint(Prepare(retained, update, root, inclusion).value)
    ensures var next := Prepare(retained, update, root, inclusion).value;
            && next == (if update.Some? then update.value.checkpoint else retained)
            && (update.Some? ==> update.value.from == retained)
            && (inclusion.Some? ==>
                  && update.Some? && inclusion.value.index < next.size
                  && MerkleLog.LeafAt(next.root, inclusion.value.index, next.size)
                     == Some(MerkleLog.Leaf(Identity(root))))
  {
    if update.Some? {
      MerkleLog.AdvanceSound(retained, update.value.checkpoint, update.value.consistency);
      if inclusion.Some? {
        OccurrenceSound(update.value.checkpoint, root, inclusion.value);
      }
    }
  }

  /**
   What is refused as what: an inclusion without an update, an update from a smaller checkpoint, which is answered
   with the retained one, and any other update that does not start from the retained checkpoint.
   */
  lemma PrepareRefuses(retained: Checkpoint, update: Option<Update>, root: TypedEvidence, inclusion: Option<Inclusion>)
    ensures var r := Prepare(retained, update, root, inclusion);
            && (r == Err(MissingUpdate) <==> update.None? && inclusion.Some?)
            && (r.Err? && r.error.StaleCheckpoint? <==> update.Some? && update.value.from.size < retained.size)
            && (r.Err? && r.error.StaleCheckpoint? ==> r.error.latest == retained)
            && (update.Some? && update.value.from != retained && update.value.from.size >= retained.size ==>
                  r == Err(InvalidLogUpdate))
  {
  }

  datatype Memo = Memo(inclusion: Inclusion, binding: Binding)

  /** Verifies occurrences under one checkpoint and remembers the first inclusion of each identity. */
  class IdentityMemoLog {
    const checkpoint: Checkpoint
    var seen: map<Identity, Memo>

    /** Every remembered binding is what the checkpoint commits to at that index. */
    ghost predicate Valid()
      reads this
    {
      forall id | id in seen ::
        && seen[id].binding == Binding(seen[id].inclusion.index, id)
        && seen[id].binding.index < checkpoint.size
        && MerkleLog.LeafAt(checkpoint.root, seen[id].binding.index, checkpoint.size) == Some(MerkleLog.Leaf(id))
    }

    constructor (checkpoint: Checkpoint)
      ensures Valid() && this.checkpoint == checkpoint && seen == map[]
    {
      this.checkpoint := checkpoint;
      seen := map[];
    }

    /**
     The answer depends only on the first inclusion seen for the identity, and a success names the one
     identity that the checkpoint holds at the answered index.
     */
    method VerifyOccurrence(evidence: TypedEvidence, inclusion: Inclusion) returns (r: Result<Binding, LogError>)
      requires Valid()
      modifies this
      ensures Valid()
      ensures r.Ok? <==>
                if Identity(evidence) in old(seen) then old(seen)[Identity(evidence)].inclusion == inclusion
                else VerifyOccurrenceProof(checkpoint, evidence, inclusion)
      ensures r.Ok? ==>
                && r.value == Binding(inclusion.index, Identity(evidence))
                && r.value.index < checkpoint.size
                && MerkleLog.LeafAt(checkpoint.root, r.value.index, checkpoint.size)
                   == Some(MerkleLog.Leaf(r.value.identity))
      ensures r.Err? ==> r.error == if Identity(evidence) in old(seen) then SecondOccurrence else InvalidLogInclusion
      ensures seen == if r.Ok? then old(seen)[Identity(evidence) := Memo(inclusion, r.value)] else old(seen)
    {
      var identity := Identity(evidence);
      if identity in seen {
        if seen[identity].inclusion == inclusion {
          assert seen == seen[identity := Memo(inclusion, seen[identity].binding)];
          return Ok(seen[identity].binding);
        }
        return Err(SecondOccurrence);
      }
      if !VerifyOccurrenceProof(checkpoint, evidence, inclusion) {
        return Err(InvalidLogInclusion);
      }
      OccurrenceSound(checkpoint, evidence, inclusion);
      var binding := Binding(inclusion.index, identity);
      seen := seen[identity := Memo(inclusion, binding)];
      return Ok(binding);
    }
  }

  // ---------------------------------------------------------------- runs against arbitrary packages

  /** What a package carries about the log, and the occurrences its verification goes on to check. */
  datatype LogMaterial = LogMaterial(update: Option<Update>, root: TypedEvidence, inclusion: Option<Inclusion>,
                                     occurrences: seq<(TypedEvidence, Inclusion)>)

  /** The retained checkpoint and every binding verified so far. */
  datatype Observer = Observer(retained: Checkpoint, bindings: set<Binding>)

  function VerifiedIn(c: Checkpoint, occurrences: seq<(TypedEvidence, Inclusion)>): set<Binding> {
    set o | o in occurrences && VerifyOccurrenceProof(c, o.0, o.1) :: Binding(o.1.index, Identity(o.0))
  }

  function Observe(o: Observer, m: LogMaterial): Observer {
    match Prepare(o.retained, m.update, m.root, m.inclusion)
    case Err(_) => o
    case Ok(next) =>
      var rootOccurrence := if m.inclusion.Some? then [(m.root, m.inclusion.value)] else [];
      Observer(next, o.bindings + if m.update.None? then {} else VerifiedIn(next, rootOccurrence + m.occurrences))
  }

  function ObserveAll(o: Observer, ms: seq<LogMaterial>): Observer
    decreases |ms|
  {
    if ms == [] then o else Observe(ObserveAll(o, ms[..|ms| - 1]), ms[|ms| - 1])
  }

  ghost predicate BindingsHold(o: Observer) {
    && MerkleLog.ValidCheckpoint(o.retained)
    && forall b | b in o.bindings ::
         b.index < o.retained.size && MerkleLog.LeafAt(o.retained.root, b.index, o.retained.size)
           == Some(MerkleLog.Leaf(b.identity))
  }

  lemma OccurrenceSound(c: Checkpoint, e: TypedEvidence, i: Inclusion)
    requires VerifyOccurrenceProof(c, e, i)
    ensures MerkleLog.LeafAt(c.root, i.index, c.size) == Some(MerkleLog.Leaf(Identity(e)))
  {
    MerkleLog.InclusionSound(i.index, c.size, MerkleLog.Leaf(Identity(e)), i.path, c.root);
  }

  lemma ObserveKeeps(o: Observer, m: LogMaterial)
    requires BindingsHold(o)
    ensures BindingsHold(Observe(o, m)) && MerkleLog.Continues(o.retained, Observe(o, m).retained)
  {
    var r := Prepare(o.retained, m.update, m.root, m.inclusion);
    if r.Ok? {
      PrepareContinues(o.retained, m.update, m.root, m.inclusion);
      forall b | b in Observe(o, m).bindings
        ensures b.index < r.value.size && MerkleLog.LeafAt(r.value.root, b.index, r.value.size)
                  == Some(MerkleLog.Leaf(b.identity))
      {
        if b !in o.bindings {
          var x: (TypedEvidence, Inclusion) :| VerifyOccurrenceProof(r.value, x.0, x.1)
            && b == Binding(x.1.index, Identity(x.0));
          OccurrenceSound(r.value, x.0, x.1);
        }
      }
    }
  }

  lemma {:induction false} ObserveAllKeeps(o: Observer, ms: seq<LogMaterial>)
    requires BindingsHold(o)
    ensures BindingsHold(ObserveAll(o, ms)) && MerkleLog.Continues(o.retained, ObserveAll(o, ms).retained)
    decreases |ms|
  {
    if ms != [] {
      var mid := ObserveAll(o, ms[..|ms| - 1]);
      ObserveAllKeeps(o, ms[..|ms| - 1]);
      ObserveKeeps(mid, ms[|ms| - 1]);
      MerkleLog.ContinuesTransitive(o.retained, mid.retained, ObserveAll(o, ms).retained);
    }
  }

  /**
   Against any packages whatever, the retained checkpoint only moves to an extension, so over a whole run
   one log index never binds two evidence identities.
   */
  lemma OneIndexOneIdentity(ms: seq<LogMaterial>, a: Binding, b: Binding)
    requires var o := ObserveAll(Observer(EMPTY_CHECKPOINT, {}), ms); a in o.bindings && b in o.bindings
    requires a.index == b.index
    ensures a.identity == b.identity
  {
    ObserveAllKeeps(Observer(EMPTY_CHECKPOINT, {}), ms);
  }
}
