/**
 The projection of platform deliveries into a target's store, with its generation fence, and the reconciler
 that writes delivery status from cached copies
 (poc/fleetshift-controller-runtime/provider/provider.go and controllers/reconciler.go).
 */
module Projection {
  import opened Common

  /** A delivery object lives in its target's store under its delivery id. */
  datatype Place = Place(target: string, delivery: string)

  datatype Phase = NoPhase | Pending | AcceptedPhase | Progressing | Delivered | Failed | Partial | AuthFailed

  datatype Spec = Spec(generation: int, operation: string, manifestType: string, manifest: string, authToken: string)
  datatype Status = Status(phase: Phase, observed: int)
  datatype Delivery = Delivery(version: nat, spec: Spec, status: Status)

  const NO_STATUS := Status(NoPhase, 0)

  predicate IsTerminal(p: Phase) {
    p.Delivered? || p.Failed? || p.Partial? || p.AuthFailed?
  }

  /** The key under which a generation is fenced: plain concatenation, so that two places can share one. */
  function FenceKey(place: Place): string {
    place.target + "/" + place.delivery
  }

  // ---------------------------------------------------------------- the fence

  /** A generation passes when it is not older than the highest one accepted under the key. */
  predicate Passes(fence: map<string, int>, key: string, generation: int) {
    key in fence ==> fence[key] <= generation
  }

  class GenerationFence {
    var high: map<string, int>

    constructor ()
      ensures high == map[]
    {
      high := map[];
    }

    /** The accepted generations under every key only ever grow. */
    method AcceptGeneration(key: string, generation: int) returns (accepted: bool)
      modifies this
      ensures accepted <==> Passes(old(high), key, generation)
      ensures high == if accepted then old(high)[key := generation] else old(high)
      ensures forall k | k in old(high) :: k in high && old(high)[k] <= high[k]
    {
      if key in high && generation < high[key] {
        return false;
      }
      high := high[key := generation];
      return true;
    }
  }

  // ---------------------------------------------------------------- state

  /** One Deliver, Remove or recovery call between taking the in-flight mark and giving it back. */
  datatype Upsert =
    | Entered(place: Place, spec: Spec)
    | Accepted(place: Place, spec: Spec)
    | Fetched(place: Place, spec: Spec, existing: Option<Delivery>)

  /** One Reconcile call before its first and before its second status write, with the object it holds. */
  datatype Reconcile =
    | Starting(place: Place, held: Delivery)
    | Working(place: Place, held: Delivery)

  /** `versions` is everything ever stored, from which a cache may answer. */
  datatype World = World(fence: map<string, int>, inflight: set<string>, stored: map<Place, Delivery>,
                         revs: map<string, nat>, versions: set<(Place, Delivery)>,
                         upserts: map<nat, Upsert>, reconciles: map<nat, Reconcile>)

  const INITIAL := World(map[], {}, map[], map[], {}, map[], map[])

  datatype Step =
    | Call(id: nat, place: Place, spec: Spec)         // Deliver, Remove or recovery
    | Fence(id: nat)
    | GiveUp(id: nat)                                 // an error before the store is touched
    | Fetch(id: nat)
    | Project(id: nat)
    | WriteOther(target: string)                      // any other write in a target's store
    | Observe(id: nat, place: Place, cached: Delivery)
    | WriteProgress(id: nat, reported: bool)
    | WriteResult(id: nat, reported: bool)

  function Rev(w: World, target: string): nat {
    if target in w.revs then w.revs[target] else 0
  }

  /** A write gives the object the next revision of its target's store. */
  function Put(w: World, place: Place, d: Delivery): World {
    var rev := Rev(w, place.target) + 1;
    var next := d.(version := rev);
    w.(stored := w.stored[place := next], revs := w.revs[place.target := rev], versions := w.versions + {(place, next)})
  }

  /** Optimistic concurrency: an update is taken only when it was made from the stored version. */
  predicate CanUpdate(w: World, place: Place, d: Delivery) {
    place in w.stored && w.stored[place].version == d.version
  }

  // ---------------------------------------------------------------- steps of the provider

  function Leave(w: World, id: nat): World
    requires id in w.upserts
  {
    w.(inflight := w.inflight - {w.upserts[id].place.delivery}, upserts := w.upserts - {id})
  }

  /** A call for a delivery id that is already in flight returns at once, whatever its generation. */
  function DoCall(w: World, id: nat, place: Place, spec: Spec): World {
    if id in w.upserts || place.delivery in w.inflight then w
    else w.(inflight := w.inflight + {place.delivery}, upserts := w.upserts[id := Entered(place, spec)])
  }

  function DoFence(w: World, id: nat): World
    requires id in w.upserts && w.upserts[id].Entered?
  {
    var u := w.upserts[id];
    if Passes(w.fence, FenceKey(u.place), u.spec.generation) then
      w.(fence := w.fence[FenceKey(u.place) := u.spec.generation],
        upserts := w.upserts[id := Accepted(u.place, u.spec)])
    else Leave(w, id)
  }

  function DoFetch(w: World, id: nat): World
    requires id in w.upserts && w.upserts[id].Accepted?
  {
    var u := w.upserts[id];
    w.(upserts := w.upserts[id := Fetched(u.place, u.spec, if u.place in w.stored then Some(w.stored[u.place])
      else None)])
  }

  /** Creates the object, or replaces the fetched one's spec and clears its status. */
  function DoProject(w: World, id: nat): World
    requires id in w.upserts && w.upserts[id].Fetched?
  {
    var u := w.upserts[id];
    match u.existing
    case None =>
      if u.place in w.stored then Leave(w, id) else Put(Leave(w, id), u.place, Delivery(0, u.spec, NO_STATUS))
    case Some(d) =>
      if CanUpdate(w, u.place, d) then Put(Leave(w, id), u.place, d.(spec := u.spec, status := NO_STATUS))
        else Leave(w, id)
  }

  // ---------------------------------------------------------------- steps of the reconciler

  function DoObserve(w: World, id: nat, place: Place, cached: Delivery): World {
    if id in w.reconciles || (place, cached) !in w.versions then w
    else if cached.status.observed == cached.spec.generation && IsTerminal(cached.status.phase) then w
    else w.(reconciles := w.reconciles[id := Starting(place,
      cached.(status := Status(Progressing, cached.spec.generation)))])
  }

  function DoWriteProgress(w: World, id: nat, reported: bool): World
    requires id in w.reconciles && w.reconciles[id].Starting?
  {
    var r := w.reconciles[id];
    if !reported || !CanUpdate(w, r.place, r.held) then w.(reconciles := w.reconciles - {id})
    else
      var after := Put(w, r.place, r.held);
      var phase := if r.held.spec.authToken == "" then AuthFailed else Delivered;
      after.(reconciles := w.reconciles[id := Working(r.place,
        after.stored[r.place].(status := Status(phase, r.held.status.observed)))])
  }

  function DoWriteResult(w: World, id: nat, reported: bool): World
    requires id in w.reconciles && w.reconciles[id].Working?
  {
    var r := w.reconciles[id];
    var after := if reported && CanUpdate(w, r.place, r.held) then Put(w, r.place, r.held) else w;
    after.(reconciles := w.reconciles - {id})
  }

  /** One step; a step that is not enabled changes nothing. */
  function Next(w: World, step: Step): World {
    match step
    case Call(id, place, spec) => DoCall(w, id, place, spec)
    case Fence(id) => if id in w.upserts && w.upserts[id].Entered? then DoFence(w, id) else w
    case GiveUp(id) => if id in w.upserts then Leave(w, id) else w
    case Fetch(id) => if id in w.upserts && w.upserts[id].Accepted? then DoFetch(w, id) else w
    case Project(id) => if id in w.upserts && w.upserts[id].Fetched? then DoProject(w, id) else w
    case WriteOther(target) => w.(revs := w.revs[target := Rev(w, target) + 1])
    case Observe(id, place, cached) => DoObserve(w, id, place, cached)
    case WriteProgress(id, reported) =>
      if id in w.reconciles && w.reconciles[id].Starting? then DoWriteProgress(w, id, reported) else w
    case WriteResult(id, reported) =>
      if id in w.reconciles && w.reconciles[id].Working? then DoWriteResult(w, id, reported) else w
  }

  function Run(steps: seq<Step>): World
    decreases |steps|
  {
    if steps == [] then INITIAL else Next(Run(steps[..|steps| - 1]), steps[|steps| - 1])
  }

  // ---------------------------------------------------------------- the invariant

  /** A status with a phase speaks about the spec it is stored with. */
  predicate StatusMatches(d: Delivery) {
    d.status.phase != NoPhase ==> d.status.observed == d.spec.generation
  }

  /** Stored versions are told apart by their version, and none is from the future. */
  ghost predicate VersionsOk(w: World) {
    && (forall place | place in w.stored :: (place, w.stored[place]) in w.versions)
    && (forall v | v in w.versions :: v.1.version <= Rev(w, v.0.target) && StatusMatches(v.1))
    && (forall a, b | a in w.versions && b in w.versions && a.0 == b.0 && a.1.version == b.1.version :: a == b)
  }

  ghost predicate Fenced(w: World, place: Place, generation: int) {
    FenceKey(place) in w.fence && generation <= w.fence[FenceKey(place)]
  }

  ghost predicate FenceOk(w: World) {
    forall place | place in w.stored :: Fenced(w, place, w.stored[place].spec.generation)
  }

  /** Past the fence, a call's generation is between the stored one and the fence. */
  ghost predicate UpsertOk(w: World, u: Upsert) {
    && u.place.delivery in w.inflight
    && (!u.Entered? ==>
          && Fenced(w, u.place, u.spec.generation)
          && (u.place in w.stored ==> w.stored[u.place].spec.generation <= u.spec.generation))
    && (u.Fetched? && u.existing.Some? ==> (u.place, u.existing.value) in w.versions)
  }

  /** At most one call per delivery id is under way. */
  ghost predicate UpsertsOk(w: World) {
    && (forall i | i in w.upserts :: UpsertOk(w, w.upserts[i]))
    && (forall i, j | i in w.upserts && j in w.upserts && i != j ::
       w.upserts[i].place.delivery != w.upserts[j].place.delivery)
  }

  /** A reconciler holds a stored version with only its status changed. */
  ghost predicate ReconcileOk(w: World, r: Reconcile) {
    && r.held.status.observed == r.held.spec.generation
    && exists base :: (r.place, base) in w.versions && base.version == r.held.version && base.spec == r.held.spec
  }

  ghost predicate ReconcilesOk(w: World) {
    forall i | i in w.reconciles :: ReconcileOk(w, w.reconciles[i])
  }

  ghost predicate Inv(w: World) {
    VersionsOk(w) && FenceOk(w) && UpsertsOk(w) && ReconcilesOk(w)
  }

  /** What a step does to stored deliveries: none disappears and no generation goes down. */
  ghost predicate Advances(a: World, b: World) {
    && (forall place | place in a.stored ::
       place in b.stored && a.stored[place].spec.generation <= b.stored[place].spec.generation)
    && (forall key | key in a.fence :: key in b.fence && a.fence[key] <= b.fence[key])
  }

  // ---------------------------------------------------------------- writes

  /** Any write that keeps the version discipline. */
  lemma PutKeepsVersions(w: World, place: Place, d: Delivery)
    requires VersionsOk(w) && StatusMatches(d)
    ensures VersionsOk(Put(w, place, d))
  {
  }

  /** A status write made from the stored version changes no spec. */
  lemma StatusWriteKeepsSpec(w: World, r: Reconcile)
    requires VersionsOk(w) && ReconcileOk(w, r) && CanUpdate(w, r.place, r.held)
    ensures w.stored[r.place].spec == r.held.spec
  {
  }

  /** Writes never make an older version unknown. */
  lemma ReconcilesSurvivePut(w: World, place: Place, d: Delivery)
    requires ReconcilesOk(w)
    ensures ReconcilesOk(Put(w, place, d))
  {
    forall i | i in w.reconciles
      ensures ReconcileOk(Put(w, place, d), w.reconciles[i])
    {
      var r := w.reconciles[i];
      var base :| (r.place, base) in w.versions && base.version == r.held.version && base.spec == r.held.spec;
      assert (r.place, base) in Put(w, place, d).versions;
    }
  }

  /** A write that leaves the spec as stored disturbs no call. */
  lemma StatusPutKeeps(w: World, place: Place, d: Delivery)
    requires Inv(w) && StatusMatches(d) && place in w.stored && w.stored[place].spec == d.spec
    ensures Inv(Put(w, place, d)) && Advances(w, Put(w, place, d))
  {
    hide VersionsOk, ReconcilesOk, FenceOk, UpsertsOk, FenceKey;
    PutKeepsVersions(w, place, d);
    ReconcilesSurvivePut(w, place, d);
    StatusPutKeepsCalls(w, place, d);
  }

  lemma StatusPutKeepsCalls(w: World, place: Place, d: Delivery)
    requires FenceOk(w) && UpsertsOk(w) && place in w.stored && w.stored[place].spec == d.spec
    ensures FenceOk(Put(w, place, d)) && UpsertsOk(Put(w, place, d))
  {
    hide FenceKey;
    var after := Put(w, place, d);
    forall i | i in w.upserts
      ensures UpsertOk(after, w.upserts[i])
    {
      assert UpsertOk(w, w.upserts[i]);
    }
  }

  lemma LeaveKeeps(w: World, id: nat)
    requires Inv(w) && id in w.upserts
    ensures Inv(Leave(w, id))
  {
    var after := Leave(w, id);
    forall i | i in after.upserts
      ensures UpsertOk(after, after.upserts[i])
    {
      assert UpsertOk(w, w.upserts[i]);
    }
    assert ReconcilesOk(after) by { ReconcilesFrame(w, after); }
  }

  lemma ReconcilesFrame(a: World, b: World)
    requires ReconcilesOk(a) && a.reconciles == b.reconciles && a.versions <= b.versions
    ensures ReconcilesOk(b)
  {
    forall i | i in b.reconciles
      ensures ReconcileOk(b, b.reconciles[i])
    {
      var r := a.reconciles[i];
      assert ReconcileOk(a, r);
      var base :| (r.place, base) in a.versions && base.version == r.held.version && base.spec == r.held.spec;
      assert (r.place, base) in b.versions;
    }
  }

  /** Raising a fence and anything that is not stored leave the stored state as good as it was. */
  lemma StoreFrame(a: World, b: World)
    requires VersionsOk(a) && FenceOk(a)
    requires b.stored == a.stored && b.revs == a.revs && b.versions == a.versions
    requires forall k | k in a.fence :: k in b.fence && a.fence[k] <= b.fence[k]
    ensures VersionsOk(b) && FenceOk(b)
  {
  }

  lemma UpsertsFrame(a: World, b: World)
    requires UpsertsOk(a)
    requires b.stored == a.stored && b.versions == a.versions && b.fence == a.fence
    requires b.upserts == a.upserts && b.inflight == a.inflight
    ensures UpsertsOk(b)
  {
    forall i | i in b.upserts
      ensures UpsertOk(b, b.upserts[i])
    {
      assert UpsertOk(a, a.upserts[i]);
    }
  }

  // ---------------------------------------------------------------- every step keeps the invariant

  lemma CallKeeps(w: World, id: nat, place: Place, spec: Spec)
    requires Inv(w)
    ensures Inv(DoCall(w, id, place, spec))
  {
    hide VersionsOk, FenceOk, ReconcilesOk, UpsertsOk;
    var after := DoCall(w, id, place, spec);
    ReconcilesFrame(w, after);
    StoreFrame(w, after);
    CallKeepsUpserts(w, id, place, spec);
  }

  lemma CallKeepsUpserts(w: World, id: nat, place: Place, spec: Spec)
    requires UpsertsOk(w)
    ensures UpsertsOk(DoCall(w, id, place, spec))
  {
    hide Fenced;
    var after := DoCall(w, id, place, spec);
    forall i | i in after.upserts
      ensures UpsertOk(after, after.upserts[i])
    {
      if i in w.upserts {
        assert UpsertOk(w, w.upserts[i]);
        SameFence(w, after, w.upserts[i]);
      }
    }
  }

  lemma SameFence(a: World, b: World, u: Upsert)
    requires a.fence == b.fence
    ensures Fenced(a, u.place, u.spec.generation) <==> Fenced(b, u.place, u.spec.generation)
  {
  }

  lemma FenceBounds(w: World, u: Upsert)
    requires FenceOk(w) && Passes(w.fence, FenceKey(u.place), u.spec.generation)
    ensures u.place in w.stored ==> w.stored[u.place].spec.generation <= u.spec.generation
  {
  }

  lemma FenceKeeps(w: World, id: nat)
    requires Inv(w) && id in w.upserts && w.upserts[id].Entered?
    ensures Inv(DoFence(w, id)) && Advances(w, DoFence(w, id))
  {
    hide VersionsOk, FenceOk, ReconcilesOk, UpsertsOk, FenceKey;
    var u := w.upserts[id];
    if Passes(w.fence, FenceKey(u.place), u.spec.generation) {
      ReconcilesFrame(w, DoFence(w, id));
      StoreFrame(w, DoFence(w, id));
      FenceKeepsUpserts(w, id);
    } else {
      LeaveKeeps(w, id);
    }
  }

  lemma FenceKeepsUpserts(w: World, id: nat)
    requires UpsertsOk(w) && FenceOk(w) && id in w.upserts && w.upserts[id].Entered?
    requires Passes(w.fence, FenceKey(w.upserts[id].place), w.upserts[id].spec.generation)
    ensures UpsertsOk(DoFence(w, id))
  {
    hide FenceOk, FenceKey;
    var after := DoFence(w, id);
    FenceBounds(w, w.upserts[id]);
    forall i | i in after.upserts
      ensures UpsertOk(after, after.upserts[i])
    {
      assert UpsertOk(w, w.upserts[i]);
    }
  }

  lemma FetchKeeps(w: World, id: nat)
    requires Inv(w) && id in w.upserts && w.upserts[id].Accepted?
    ensures Inv(DoFetch(w, id))
  {
    hide VersionsOk, FenceOk, ReconcilesOk, UpsertsOk;
    ReconcilesFrame(w, DoFetch(w, id));
    StoreFrame(w, DoFetch(w, id));
    FetchKeepsUpserts(w, id);
  }

  lemma FetchKeepsUpserts(w: World, id: nat)
    requires VersionsOk(w) && UpsertsOk(w) && id in w.upserts && w.upserts[id].Accepted?
    ensures UpsertsOk(DoFetch(w, id))
  {
    hide FenceKey;
    var after := DoFetch(w, id);
    forall i | i in after.upserts
      ensures UpsertOk(after, after.upserts[i])
    {
      assert UpsertOk(w, w.upserts[i]);
    }
  }

  /** Once its call has left, nobody else is between fence and store for the same delivery id. */
  lemma ProjectPutKeeps(w: World, u: Upsert, d: Delivery)
    requires Inv(w) && d.spec == u.spec && StatusMatches(d)
    requires forall i | i in w.upserts :: w.upserts[i].place.delivery != u.place.delivery
    requires Fenced(w, u.place, u.spec.generation)
    requires u.place in w.stored ==> w.stored[u.place].spec.generation <= u.spec.generation
    ensures Inv(Put(w, u.place, d)) && Advances(w, Put(w, u.place, d))
  {
    hide VersionsOk, ReconcilesOk, FenceKey;
    var after := Put(w, u.place, d);
    PutKeepsVersions(w, u.place, d);
    ReconcilesSurvivePut(w, u.place, d);
    forall i | i in after.upserts
      ensures UpsertOk(after, after.upserts[i])
    {
      assert UpsertOk(w, w.upserts[i]);
    }
  }

  lemma ProjectKeeps(w: World, id: nat)
    requires Inv(w) && id in w.upserts && w.upserts[id].Fetched?
    ensures Inv(DoProject(w, id)) && Advances(w, DoProject(w, id))
  {
    hide VersionsOk, ReconcilesOk;
    var u := w.upserts[id];
    assert UpsertOk(w, u);
    LeaveKeeps(w, id);
    var left := Leave(w, id);
    match u.existing
    case None => if u.place !in w.stored { ProjectPutKeeps(left, u, Delivery(0, u.spec, NO_STATUS)); }
    case Some(d) => if CanUpdate(w, u.place, d) { ProjectPutKeeps(left, u, d.(spec := u.spec, status := NO_STATUS)); }
  }

  lemma DropReconcile(w: World, id: nat)
    requires Inv(w)
    ensures Inv(w.(reconciles := w.reconciles - {id}))
  {
    hide VersionsOk, FenceOk, UpsertsOk;
    var after := w.(reconciles := w.reconciles - {id});
    StoreFrame(w, after);
    UpsertsFrame(w, after);
    forall i | i in after.reconciles
      ensures ReconcileOk(after, after.reconciles[i])
    {
      assert ReconcileOk(w, w.reconciles[i]);
    }
  }

  lemma HoldReconcile(w: World, id: nat, r: Reconcile)
    requires Inv(w) && ReconcileOk(w, r)
    ensures Inv(w.(reconciles := w.reconciles[id := r]))
  {
    hide VersionsOk, FenceOk, UpsertsOk;
    var after := w.(reconciles := w.reconciles[id := r]);
    StoreFrame(w, after);
    UpsertsFrame(w, after);
    forall i | i in after.reconciles
      ensures ReconcileOk(after, after.reconciles[i])
    {
      assert i != id ==> ReconcileOk(w, w.reconciles[i]);
      assert ReconcileOk(w, after.reconciles[i]);
    }
  }

  lemma ObserveKeeps(w: World, id: nat, place: Place, cached: Delivery)
    requires Inv(w)
    ensures Inv(DoObserve(w, id, place, cached))
  {
    hide Inv;
    var after := DoObserve(w, id, place, cached);
    if after != w {
      assert (place, cached) in w.versions;
      HoldReconcile(w, id, after.reconciles[id]);
    }
  }

  lemma WriteProgressKeeps(w: World, id: nat, reported: bool)
    requires Inv(w) && id in w.reconciles && w.reconciles[id].Starting?
    ensures Inv(DoWriteProgress(w, id, reported)) && Advances(w, DoWriteProgress(w, id, reported))
  {
    var r := w.reconciles[id];
    assert ReconcileOk(w, r);
    if reported && CanUpdate(w, r.place, r.held) {
      StatusWriteKeepsSpec(w, r);
      StatusPutKeeps(w, r.place, r.held);
      var after := Put(w, r.place, r.held);
      var next := DoWriteProgress(w, id, reported).reconciles[id];
      assert ReconcileOk(after, next) by { assert (r.place, after.stored[r.place]) in after.versions; }
      HoldReconcile(after, id, next);
    } else {
      DropReconcile(w, id);
    }
  }

  lemma WriteResultKeeps(w: World, id: nat, reported: bool)
    requires Inv(w) && id in w.reconciles && w.reconciles[id].Working?
    ensures Inv(DoWriteResult(w, id, reported)) && Advances(w, DoWriteResult(w, id, reported))
  {
    var r := w.reconciles[id];
    assert ReconcileOk(w, r);
    if reported && CanUpdate(w, r.place, r.held) {
      StatusWriteKeepsSpec(w, r);
      StatusPutKeeps(w, r.place, r.held);
      DropReconcile(Put(w, r.place, r.held), id);
    } else {
      DropReconcile(w, id);
    }
  }

  lemma WriteOtherKeeps(w: World, target: string)
    requires Inv(w)
    ensures Inv(Next(w, WriteOther(target)))
  {
    var after := Next(w, WriteOther(target));
    ReconcilesFrame(w, after);
    forall i | i in after.upserts
      ensures UpsertOk(after, after.upserts[i])
    {
      assert UpsertOk(w, w.upserts[i]);
    }
  }

  lemma StepKeeps(w: World, step: Step)
    requires Inv(w)
    ensures Inv(Next(w, step)) && Advances(w, Next(w, step))
  {
    hide Inv, DoFence, DoFetch, DoProject, DoWriteProgress, DoWriteResult;
    match step
    case Call(id, place, spec) => CallKeeps(w, id, place, spec);
    case Fence(id) => if id in w.upserts && w.upserts[id].Entered? { FenceKeeps(w, id); }
    case GiveUp(id) => if id in w.upserts { LeaveKeeps(w, id); }
    case Fetch(id) => if id in w.upserts && w.upserts[id].Accepted? { FetchKeeps(w, id); FetchStores(w, id); }
    case Project(id) => if id in w.upserts && w.upserts[id].Fetched? { ProjectKeeps(w, id); }
    case WriteOther(target) => WriteOtherKeeps(w, target);
    case Observe(id, place, cached) => ObserveKeeps(w, id, place, cached);
    case WriteProgress(id, reported) => if id in w.reconciles
      && w.reconciles[id].Starting? { WriteProgressKeeps(w, id, reported); }
    case WriteResult(id, reported) => if id in w.reconciles
      && w.reconciles[id].Working? { WriteResultKeeps(w, id, reported); }
  }

  lemma FetchStores(w: World, id: nat)
    requires id in w.upserts && w.upserts[id].Accepted?
    ensures DoFetch(w, id).stored == w.stored && DoFetch(w, id).fence == w.fence
  {
  }

  lemma {:induction false} RunKeeps(steps: seq<Step>)
    ensures Inv(Run(steps))
    decreases |steps|
  {
    if steps != [] {
      RunKeeps(steps[..|steps| - 1]);
      StepKeeps(Run(steps[..|steps| - 1]), steps[|steps| - 1]);
    }
  }

  // ---------------------------------------------------------------- results

  /**
   Under any interleaving, every stored delivery is at or below its fence, and a non-empty phase always
   speaks about the stored generation.
   */
  lemma StoredIsFenced(steps: seq<Step>, place: Place)
    requires place in Run(steps).stored
    ensures Fenced(Run(steps), place, Run(steps).stored[place].spec.generation)
    ensures StatusMatches(Run(steps).stored[place])
  {
    RunKeeps(steps);
  }

  /** Under any interleaving, from any moment to any later one, no stored generation and no fence goes down. */
  lemma {:induction false} GenerationsNeverDecrease(steps: seq<Step>, later: seq<Step>)
    ensures Advances(Run(steps), Run(steps + later))
    decreases |later|
  {
    hide Run, Next, Inv;
    if later == [] {
      assert steps + later == steps;
    } else {
      var mid := steps + later[..|later| - 1];
      GenerationsNeverDecrease(steps, later[..|later| - 1]);
      RunKeeps(mid);
      StepKeeps(Run(mid), later[|later| - 1]);
      assert steps + later == mid + [later[|later| - 1]];
      RunOn(mid, later[|later| - 1]);
    }
  }

  lemma StatusPutKeepsSpecs(w: World, r: Reconcile, place: Place)
    requires VersionsOk(w) && ReconcileOk(w, r) && CanUpdate(w, r.place, r.held) && place in w.stored
    ensures Put(w, r.place, r.held).stored[place].spec == w.stored[place].spec
  {
    StatusWriteKeepsSpec(w, r);
  }

  /** Only a projection changes a stored spec: whatever a reconciler's cache held, its writes leave every spec alone. */
  lemma ReconcilerKeepsSpecs(steps: seq<Step>, step: Step, place: Place)
    requires !step.Project? && place in Run(steps).stored
    ensures place in Next(Run(steps), step).stored
    ensures Next(Run(steps), step).stored[place].spec == Run(steps).stored[place].spec
  {
    hide VersionsOk, ReconcileOk, UpsertsOk, FenceOk, Run;
    RunKeeps(steps);
    var w := Run(steps);
    if step.WriteProgress? || step.WriteResult? {
      if step.id in w.reconciles && CanUpdate(w, w.reconciles[step.id].place, w.reconciles[step.id].held) {
        StatusPutKeepsSpecs(w, w.reconciles[step.id], place);
      }
    }
  }

  lemma RunOn(steps: seq<Step>, step: Step)
    ensures Run(steps + [step]) == Next(Run(steps), step)
  {
    assert (steps + [step])[..|steps|] == steps;
  }

  /** The steps of one call, with nothing in between. */
  function CallSteps(steps: seq<Step>, id: nat, place: Place, spec: Spec): seq<Step> {
    steps + [Call(id, place, spec)] + [Fence(id)] + [Fetch(id)] + [Project(id)]
  }

  lemma CallUnfolds(steps: seq<Step>, id: nat, place: Place, spec: Spec)
    ensures Run(CallSteps(steps, id, place, spec)) ==
            Next(Next(Next(Next(Run(steps), Call(id, place, spec)), Fence(id)), Fetch(id)), Project(id))
  {
    hide Run, Next;
    var s1 := steps + [Call(id, place, spec)];
    RunOn(steps, Call(id, place, spec));
    RunOn(s1, Fence(id));
    RunOn(s1 + [Fence(id)], Fetch(id));
    RunOn(s1 + [Fence(id)] + [Fetch(id)], Project(id));
  }

  /** A call that nothing disturbs stores exactly its spec with an empty status, unless its generation is fenced off. */
  lemma UndisturbedCall(steps: seq<Step>, id: nat, place: Place, spec: Spec)
    requires id !in Run(steps).upserts && place.delivery !in Run(steps).inflight
    ensures var w, end := Run(steps), Run(CallSteps(steps, id, place, spec));
            if Passes(w.fence, FenceKey(place), spec.generation)
            then place in end.stored && end.stored[place] == Delivery(Rev(w, place.target) + 1, spec, NO_STATUS)
            else end.stored == w.stored && end.fence == w.fence
  {
    hide Run, FenceKey;
    CallUnfolds(steps, id, place, spec);
  }

  /**
   Exactly when a call takes effect, in every reachable state: it stores its spec under a new revision if and
   only if no call for the same delivery id is in flight and its generation passes the fence. Otherwise it
   changes neither store nor fence, and where the id is in flight it changes nothing at all.
   */
  lemma CallTakesEffect(steps: seq<Step>, id: nat, place: Place, spec: Spec)
    requires id !in Run(steps).upserts
    ensures var w, end := Run(steps), Run(CallSteps(steps, id, place, spec));
            var effective := place.delivery !in w.inflight && Passes(w.fence, FenceKey(place), spec.generation);
            && (effective <==>
                  place in end.stored && end.stored[place] == Delivery(Rev(w, place.target) + 1, spec, NO_STATUS))
            && (!effective ==> end.stored == w.stored && end.fence == w.fence)
            && (place.delivery in w.inflight <==> Next(w, Call(id, place, spec)) == w)
            && (place.delivery in w.inflight ==> end == w)
  {
    hide Run, FenceKey, UpsertsOk, ReconcilesOk, FenceOk;
    var w := Run(steps);
    RunKeeps(steps);
    if place.delivery in w.inflight {
      CallUnfolds(steps, id, place, spec);
    } else {
      UndisturbedCall(steps, id, place, spec);
      assert id in Next(w, Call(id, place, spec)).upserts;
    }
    assert place in w.stored ==> w.stored[place].version <= Rev(w, place.target);
  }

  /** The steps of one reconcile from a cached copy, both reports reaching the platform, with nothing in between. */
  function ReconcileSteps(steps: seq<Step>, id: nat, place: Place, cached: Delivery): seq<Step> {
    steps + [Observe(id, place, cached)] + [WriteProgress(id, true)] + [WriteResult(id, true)]
  }

  lemma ReconcileUnfolds(steps: seq<Step>, id: nat, place: Place, cached: Delivery)
    ensures Run(ReconcileSteps(steps, id, place, cached)) ==
            Next(Next(Next(Run(steps), Observe(id, place, cached)), WriteProgress(id, true)), WriteResult(id, true))
  {
    hide Run, Next;
    var s1 := steps + [Observe(id, place, cached)];
    RunOn(steps, Observe(id, place, cached));
    RunOn(s1, WriteProgress(id, true));
    RunOn(s1 + [WriteProgress(id, true)], WriteResult(id, true));
  }

  /** The delivery has ended, and its status says so about the generation it holds. */
  predicate Settled(d: Delivery) {
    d.status.observed == d.spec.generation && d.status.phase in {Delivered, Failed, Partial, AuthFailed}
  }

  /**
   An undisturbed reconcile in any reachable state, from any copy a cache may hold. A copy that is settled, or no
   longer the stored version, leaves the store alone. Otherwise the stored delivery is settled in two writes, with
   its spec as it was: as an authentication failure exactly when its token is empty, and as delivered otherwise.
   */
  lemma UndisturbedReconcile(steps: seq<Step>, id: nat, place: Place, cached: Delivery)
    requires id !in Run(steps).reconciles && (place, cached) in Run(steps).versions
    ensures Reconciled(Run(steps), Run(ReconcileSteps(steps, id, place, cached)), id, place, cached)
  {
    hide Run, Next, VersionsOk, FenceOk, UpsertsOk, ReconcilesOk, Reconciled;
    RunKeeps(steps);
    ReconcileUnfolds(steps, id, place, cached);
    ReconcileEnds(Run(steps), id, place, cached);
  }

  /** What an undisturbed reconcile from a cached copy comes to. */
  ghost predicate Reconciled(w: World, end: World, id: nat, place: Place, cached: Delivery) {
    && id !in end.reconciles && end.fence == w.fence && end.upserts == w.upserts
    && if Settled(cached) || place !in w.stored || w.stored[place] != cached then end.stored == w.stored
       else
         && place in end.stored && end.stored == w.stored[place := end.stored[place]]
         && end.stored[place].version == Rev(w, place.target) + 2
         && end.stored[place].spec == cached.spec
         && end.stored[place].status.observed == cached.spec.generation
         && end.stored[place].status.phase == (if cached.spec.authToken == "" then AuthFailed else Delivered)
         && Settled(end.stored[place])
  }

  lemma ReconcileEnds(w: World, id: nat, place: Place, cached: Delivery)
    requires VersionsOk(w) && id !in w.reconciles && (place, cached) in w.versions
    ensures Reconciled(w,
              Next(Next(Next(w, Observe(id, place, cached)), WriteProgress(id, true)), WriteResult(id, true)),
              id, place, cached)
  {
    hide Next, VersionsOk, Settled, InWork;
    var held := cached.(status := Status(Progressing, cached.spec.generation));
    ObserveStarts(w, id, place, cached);
    StoredByVersion(w, place, cached, held);
    if Settled(cached) {
      NoneLeft(w, id);
    } else {
      var w1 := w.(reconciles := w.reconciles[id := Starting(place, held)]);
      ProgressWritten(w1, id, place, held);
      if CanUpdate(w, place, held) {
        ResultWritten(w1, id, place, held);
      } else {
        NoneLeft(w1.(reconciles := w1.reconciles - {id}), id);
      }
    }
  }

  lemma ObserveStarts(w: World, id: nat, place: Place, cached: Delivery)
    requires id !in w.reconciles && (place, cached) in w.versions
    ensures Next(w, Observe(id, place, cached)) ==
            if Settled(cached) then w
            else w.(reconciles := w.reconciles[id := Starting(place,
              cached.(status := Status(Progressing, cached.spec.generation)))])
  {
  }

  /** A version names one object. */
  lemma StoredByVersion(w: World, place: Place, cached: Delivery, held: Delivery)
    requires VersionsOk(w) && (place, cached) in w.versions && held.version == cached.version
    ensures CanUpdate(w, place, held) <==> place in w.stored && w.stored[place] == cached
  {
  }

  lemma ProgressWritten(w: World, id: nat, place: Place, held: Delivery)
    requires id in w.reconciles && w.reconciles[id] == Starting(place, held)
    ensures Next(w, WriteProgress(id, true)) ==
            if CanUpdate(w, place, held) then InWork(w, id, place, held) else w.(reconciles := w.reconciles - {id})
  {
  }

  /** The world after the first status write: the stored object is the one held, and its result is at hand. */
  function InWork(w: World, id: nat, place: Place, held: Delivery): World {
    var rev := Rev(w, place.target) + 1;
    Put(w, place, held).(reconciles := w.reconciles[id := Working(place, Delivery(rev, held.spec,
      Status(if held.spec.authToken == "" then AuthFailed else Delivered, held.status.observed)))])
  }

  lemma ResultWritten(w: World, id: nat, place: Place, held: Delivery)
    requires held.status.observed == held.spec.generation
    ensures var end, rev := Next(InWork(w, id, place, held), WriteResult(id, true)), Rev(w, place.target);
            var phase := if held.spec.authToken == "" then AuthFailed else Delivered;
            var result := Delivery(rev + 2, held.spec, Status(phase, held.spec.generation));
            && Settled(result) && end.stored == w.stored[place := result]
            && id !in end.reconciles && end.fence == w.fence && end.upserts == w.upserts
  {
    var inWork := InWork(w, id, place, held);
    assert CanUpdate(inWork, place, inWork.reconciles[id].held);
    assert Rev(inWork, place.target) == Rev(w, place.target) + 1;
  }

  /** With no reconcile under way, the two writes do nothing. */
  lemma NoneLeft(w: World, id: nat)
    requires id !in w.reconciles
    ensures Next(w, WriteResult(id, true)) == w && Next(w, WriteProgress(id, true)) == w
  {
  }

  /**
   Deduplication looks at the delivery id alone: a call with a newer generation that arrives while an older
   one is in flight returns without an error and leaves no trace, so the store and the fence stay behind it.
   */
  lemma NewerGenerationDropped(place: Place, older: Spec, newer: Spec)
    requires older.generation < newer.generation
    ensures var end := Run([Call(0, place, older)] + [Call(1, place, newer)] + [Fence(0)] + [Fetch(0)] + [Project(0)]);
            && end.upserts == map[]
            && place in end.stored && end.stored[place].spec == older
            && FenceKey(place) in end.fence && end.fence[FenceKey(place)] < newer.generation
  {
    assert Run([]) == INITIAL;
    assert [] + [Call(0, place, older)] == [Call(0, place, older)];
    RunOn([], Call(0, place, older));
    var s1 := [Call(0, place, older)];
    RunOn(s1, Call(1, place, newer));
    var s2 := s1 + [Call(1, place, newer)];
    RunOn(s2, Fence(0));
    RunOn(s2 + [Fence(0)], Fetch(0));
    RunOn(s2 + [Fence(0)] + [Fetch(0)], Project(0));
  }
}
