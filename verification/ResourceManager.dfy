/**
 The resource manager of the provenance suites: accepting evidence, assigning log positions, and pushing
 dispatches to an agent (poc/provenance-suites/resourcemanager/manager.go).
 */
module ResourceManager {
  import opened Common
  import opened EvidenceLog
  import MerkleLog
  import Validity

  datatype Error =
    | PolicyError
    | LogFull
    | UnknownDispatch
    | UnknownDelivery
    | AgentUnavailable
    | InvalidAgentCheckpoint
    | AgentRefused
    | AgentStale

  datatype StoredDelivery = StoredDelivery(root: Identity, supporting: seq<Identity>)
  datatype DispatchState = Pending | Acknowledged
  datatype StoredDispatch = StoredDispatch(delivery: nat, target: string, state: DispatchState)
  datatype Transition = Transition(principal: string, publicKey: string)
  datatype Receipt = Receipt(delivery: nat, dispatches: seq<nat>)

  /** Whether policy or mechanism requires an evidence item to be logged; the lookup itself can fail. */
  type LogPolicy = TypedEvidence -> Result<bool, Error>

  /** What the agent answers to one push. */
  datatype Reply = Acked | Stale(latest: Checkpoint) | Refused

  // ---------------------------------------------------------------- ordering a package

  function Ids(es: seq<TypedEvidence>): (ids: seq<Identity>)
    ensures |ids| == |es|
    ensures forall i | 0 <= i < |es| :: ids[i] == Identity(es[i])
  {
    seq(|es|, i requires 0 <= i < |es| => Identity(es[i]))
  }

  predicate Distinct<T(==)>(s: seq<T>) {
    forall i, j | 0 <= i < j < |s| :: s[i] != s[j]
  }

  /** Each item once, at its first occurrence. */
  function FirstOccurrences(es: seq<TypedEvidence>): seq<TypedEvidence>
    decreases |es|
  {
    if es == [] then []
    else
      var last := es[|es| - 1];
      FirstOccurrences(es[..|es| - 1]) + if last in es[..|es| - 1] then [] else [last]
  }

  lemma FirstOccurrencesStep(es: seq<TypedEvidence>, item: TypedEvidence)
    ensures FirstOccurrences(es + [item]) == FirstOccurrences(es) + if item in es then [] else [item]
  {
    assert (es + [item])[..|es|] == es;
  }

  lemma {:induction false} FirstOccurrencesSound(es: seq<TypedEvidence>)
    ensures var ordered := FirstOccurrences(es);
            && Distinct(Ids(ordered))
            && (forall e :: e in ordered <==> e in es)
            && (es != [] ==> ordered != [] && ordered[0] == es[0])
    decreases |es|
  {
    if es != [] {
      FirstOccurrencesSound(es[..|es| - 1]);
      assert forall e :: e in es <==> e in es[..|es| - 1] || e == es[|es| - 1];
    }
  }

  /** Items keep the order of their first occurrences. */
  lemma {:induction false} OccurrencesInOrder(es: seq<TypedEvidence>, i: nat, j: nat) returns (p: nat, q: nat)
    requires i < j < |es| && es[i] !in es[..i] && es[j] !in es[..j]
    ensures p < q < |FirstOccurrences(es)| && FirstOccurrences(es)[p] == es[i] && FirstOccurrences(es)[q] == es[j]
    decreases |es|
  {
    var shorter := es[..|es| - 1];
    FirstOccurrencesSound(shorter);
    assert es[i] == shorter[i] && es[i] in FirstOccurrences(shorter);
    if j == |es| - 1 {
      p :| 0 <= p < |FirstOccurrences(shorter)| && FirstOccurrences(shorter)[p] == es[i];
      q := |FirstOccurrences(shorter)|;
    } else {
      assert shorter[..i] == es[..i] && shorter[..j] == es[..j];
      p, q := OccurrencesInOrder(shorter, i, j);
    }
  }

  /** The root first, then the supporting items in order, each once. */
  method PrependRoot(root: TypedEvidence, supporting: seq<TypedEvidence>) returns (ordered: seq<TypedEvidence>)
    ensures ordered == FirstOccurrences([root] + supporting)
    ensures ordered != [] && ordered[0] == root
    ensures Distinct(Ids(ordered))
    ensures forall e :: e in ordered <==> e == root || e in supporting
  {
    hide FirstOccurrences;
    ordered := [root];
    OneOccurrence(root);
    var seen := map[Identity(root) := root];
    var i := 0;
    assert [root] + supporting[..0] == [root];
    while i < |supporting|
      invariant 0 <= i <= |supporting|
      invariant ordered == FirstOccurrences([root] + supporting[..i])
      invariant forall id :: id in seen <==> id.evidence in [root] + supporting[..i]
    {
      var item := supporting[i];
      ghost var before := [root] + supporting[..i];
      assert [root] + supporting[..i + 1] == before + [item];
      FirstOccurrencesStep(before, item);
      if Identity(item) !in seen {
        seen := seen[Identity(item) := item];
        ordered := ordered + [item];
      }
      i := i + 1;
    }
    assert supporting[..i] == supporting;
    FirstOccurrencesSound([root] + supporting);
  }

  lemma OneOccurrence(root: TypedEvidence)
    ensures FirstOccurrences([root]) == [root]
  {
    assert [root][..0] == [];
  }

  // ---------------------------------------------------------------- what an acceptance registers

  predicate Required(e: TypedEvidence, force: bool, policy: LogPolicy) {
    force || policy(e) == Ok(true)
  }

  predicate Plannable(ordered: seq<TypedEvidence>, force: bool, policy: LogPolicy) {
    force || forall e | e in ordered :: policy(e).Ok?
  }

  /** The identities that an acceptance appends to the log, in package order. */
  function Registered(ordered: seq<TypedEvidence>, force: bool, policy: LogPolicy,
                      logged: set<Identity>): (ids: seq<Identity>)
    decreases |ordered|
  {
    if ordered == [] then []
    else
      var last := ordered[|ordered| - 1];
      Registered(ordered[..|ordered| - 1], force, policy, logged)
      + if Required(last, force, policy) && Identity(last) !in logged then [Identity(last)] else []
  }

  lemma LastIsNew(ordered: seq<TypedEvidence>)
    requires ordered != [] && Distinct(Ids(ordered))
    ensures Distinct(Ids(ordered[..|ordered| - 1])) && ordered[|ordered| - 1] !in ordered[..|ordered| - 1]
  {
    var shorter := ordered[..|ordered| - 1];
    assert Ids(shorter) == Ids(ordered)[..|shorter|];
    assert forall k | 0 <= k < |shorter| :: Ids(ordered)[k] == Identity(shorter[k]) && shorter[k] != ordered[|shorter|];
  }

  lemma {:induction false} RegisteredSound(ordered: seq<TypedEvidence>, force: bool, policy: LogPolicy,
                                           logged: set<Identity>)
    requires Distinct(Ids(ordered))
    ensures var ids := Registered(ordered, force, policy, logged);
            && Distinct(ids)
            && forall id :: id in ids <==>
                 id !in logged && id.evidence in ordered && Required(id.evidence, force, policy)
    decreases |ordered|
  {
    if ordered != [] {
      var shorter, last := ordered[..|ordered| - 1], ordered[|ordered| - 1];
      LastIsNew(ordered);
      RegisteredSound(shorter, force, policy, logged);
      assert forall e :: e in ordered <==> e in shorter || e == last;
    }
  }

  /** What an acceptance appends comes in package order. */
  lemma {:induction false} RegisteredInOrder(ordered: seq<TypedEvidence>, force: bool, policy: LogPolicy,
                                             logged: set<Identity>, i: nat, j: nat)
    returns (p: nat, q: nat)
    requires Distinct(Ids(ordered)) && i < j < |ordered|
    requires Identity(ordered[i]) in Registered(ordered, force, policy, logged)
    requires Identity(ordered[j]) in Registered(ordered, force, policy, logged)
    ensures var ids := Registered(ordered, force, policy, logged);
            p < q < |ids| && ids[p] == Identity(ordered[i]) && ids[q] == Identity(ordered[j])
    decreases |ordered|
  {
    var shorter := ordered[..|ordered| - 1];
    LastIsNew(ordered);
    RegisteredSound(ordered, force, policy, logged);
    RegisteredSound(shorter, force, policy, logged);
    assert ordered[i] == shorter[i] && ordered[i] in shorter;
    var before := Registered(shorter, force, policy, logged);
    if j == |ordered| - 1 {
      p :| 0 <= p < |before| && before[p] == Identity(ordered[i]);
      q := |before|;
    } else {
      assert ordered[j] == shorter[j] && ordered[j] in shorter;
      p, q := RegisteredInOrder(shorter, force, policy, logged, i, j);
    }
  }

  /** The table and the log say the same thing: a bijection between logged identities and positions. */
  ghost predicate Bijective(leaves: seq<Identity>, table: map<Identity, nat>) {
    && (forall i | 0 <= i < |leaves| :: leaves[i] in table && table[leaves[i]] == i)
    && (forall id | id in table :: table[id] < |leaves| && leaves[table[id]] == id)
  }

  /** Giving a fresh identity the position after the last one keeps the bijection. */
  lemma NextPositionKeepsBijection(leaves: seq<Identity>, table: map<Identity, nat>, id: Identity)
    requires Bijective(leaves, table) && id !in table
    ensures Bijective(leaves + [id], table[id := |leaves|])
  {
    var longer := table[id := |leaves|];
    assert forall other | other in longer :: longer[other] < |leaves + [id]| && (leaves + [id])[longer[other]] == other;
  }

  /** The targets of an acceptance: the one it names, or else every registered one, in order and each once. */
  ghost predicate Addressed(target: string, registered: set<string>, targets: seq<string>) {
    if target != "" then targets == [target]
    else Validity.Increasing(targets) && forall t :: t in targets <==> t in registered
  }

  /** The outbox gained exactly one pending entry per target, under new ids. */
  ghost predicate Issued(before: map<nat, StoredDispatch>, after: map<nat, StoredDispatch>,
                         delivery: nat, targets: seq<string>, issued: seq<nat>)
  {
    && |issued| == |targets|
    && Distinct(issued)
    && (forall i | 0 <= i < |issued| ::
          issued[i] !in before && issued[i] in after
            && after[issued[i]] == StoredDispatch(delivery, targets[i], Pending))
    && (forall x | x in before :: x in after && after[x] == before[x])
    && (forall x | x in after :: x in before || x in issued)
  }

  lemma NoneIssued(before: map<nat, StoredDispatch>, delivery: nat)
    ensures Issued(before, before, delivery, [], [])
  {
  }

  lemma IssuedGrows(before: map<nat, StoredDispatch>, after: map<nat, StoredDispatch>, delivery: nat,
                    targets: seq<string>, issued: seq<nat>, target: string, id: nat)
    requires Issued(before, after, delivery, targets, issued) && id !in after
    ensures Issued(before, after[id := StoredDispatch(delivery, target, Pending)], delivery, targets + [target],
                   issued + [id])
  {
  }

  // ---------------------------------------------------------------- the manager

  class Manager {
    var evidenceById: map<Identity, TypedEvidence>
    var logIndexById: map<Identity, nat>
    var tree: seq<Identity>
    var deliveries: map<nat, StoredDelivery>
    var dispatches: map<nat, StoredDispatch>
    var nextDeliveryId: nat
    var nextDispatchId: nat
    var routes: map<string, Checkpoint>
    var keys: map<string, string>

    /** The log-index table is a bijection onto the log, and every cached checkpoint is on this log. */
    ghost predicate LogValid()
      reads this`tree, this`logIndexById, this`routes
    {
      && |tree| <= MAX_UINT64
      && Bijective(tree, logIndexById)
      && (forall t | t in routes :: OnLog(routes[t]))
    }

    /** Evidence is stored under its own identity, and everything logged is stored. */
    ghost predicate StoreValid()
      reads this`evidenceById, this`logIndexById
    {
      && logIndexById.Keys <= evidenceById.Keys
      && (forall id | id in evidenceById :: Identity(evidenceById[id]) == id)
    }

    /** Every delivery's identities can be resolved, and every dispatch names a known delivery. */
    ghost predicate OutboxValid()
      reads this`evidenceById, this`deliveries, this`dispatches, this`nextDeliveryId, this`nextDispatchId
    {
      && (forall d | d in deliveries :: 0 < d <= nextDeliveryId && Resolvable(deliveries[d]))
      && (forall x | x in dispatches :: 0 < x <= nextDispatchId && dispatches[x].delivery in deliveries)
    }

    ghost predicate Valid()
      reads this
    {
      LogValid() && StoreValid() && OutboxValid()
    }

    predicate OnLog(c: Checkpoint)
      reads this`tree
      requires |tree| <= MAX_UINT64
    {
      c.size <= |tree| && c == MerkleLog.CheckpointAt(tree, c.size)
    }

    ghost predicate Resolvable(d: StoredDelivery)
      reads this`evidenceById
    {
      d.root in evidenceById && forall id | id in d.supporting :: id in evidenceById
    }

    /** What no later operation takes back. */
    twostate predicate Keeps()
      reads this
    {
      && IsPrefix(old(tree), tree)
      && (forall id | id in old(logIndexById) :: id in logIndexById && logIndexById[id] == old(logIndexById)[id])
      && (forall id | id in old(evidenceById) :: id in evidenceById && evidenceById[id] == old(evidenceById)[id])
      && (forall d | d in old(deliveries) :: d in deliveries && deliveries[d] == old(deliveries)[d])
      && (forall x | x in old(dispatches) ::
            && x in dispatches
            && dispatches[x].delivery == old(dispatches)[x].delivery
               && dispatches[x].target == old(dispatches)[x].target
            && (old(dispatches)[x].state == Acknowledged ==> dispatches[x].state == Acknowledged))
      && (forall p | p in old(keys) :: p in keys && keys[p] == old(keys)[p])
    }

    constructor ()
      ensures Valid() && tree == [] && deliveries == map[] && dispatches == map[] && routes == map[]
      ensures keys == map[]
    {
      evidenceById, logIndexById, tree := map[], map[], [];
      deliveries, dispatches, nextDeliveryId, nextDispatchId, routes, keys := map[], map[], 0, 0, map[], map[];
    }

    method RegisterAgent(target: string) returns (ok: bool)
      requires Valid()
      modifies this`routes
      ensures Valid() && ok == (target != "" && target !in old(routes))
      ensures routes == if ok then old(routes)[target := EMPTY_CHECKPOINT] else old(routes)
    {
      ok := target != "" && target !in routes;
      if ok {
        assert EMPTY_CHECKPOINT == MerkleLog.CheckpointAt(tree, 0);
        routes := routes[target := EMPTY_CHECKPOINT];
      }
    }

    /** Which items to append, found by one pass over the package. */
    method PlanEvidence(ordered: seq<TypedEvidence>, force: bool, policy: LogPolicy)
      returns (r: Result<seq<Identity>, Error>)
      requires Valid()
      ensures r.Ok? <==> Plannable(ordered, force, policy)
      ensures r.Err? ==> r.error == PolicyError
      ensures r.Ok? ==> r.value == Registered(ordered, force, policy, logIndexById.Keys)
    {
      var ids := [];
      var i := 0;
      while i < |ordered|
        invariant 0 <= i <= |ordered|
        invariant Plannable(ordered[..i], force, policy)
        invariant ids == Registered(ordered[..i], force, policy, logIndexById.Keys)
      {
        var e := ordered[i];
        assert ordered[..i + 1][..i] == ordered[..i];
        var required := force;
        if !force {
          var answer := policy(e);
          if answer.Err? {
            assert e in ordered;
            return Err(PolicyError);
          }
          required := answer.value;
        }
        if required && Identity(e) !in logIndexById {
          ids := ids + [Identity(e)];
        }
        i := i + 1;
      }
      assert ordered[..i] == ordered;
      return Ok(ids);
    }

    /**
     Accepting a package: appends exactly the required items that are not logged yet, in package order;
     stores every item; commits a prepared enrollment; records one delivery and one pending dispatch per target.
     It fails, changing nothing, exactly when policy lookup fails for an item or the log would exceed its
     maximum size. Preparing an enrollment has ruled out another key for its principal.
     */
    method CommitAcceptance(ordered: seq<TypedEvidence>, target: string, enrollment: Option<Transition>, force: bool,
                            policy: LogPolicy)
      returns (r: Result<Receipt, Error>)
      requires Valid() && ordered != [] && Distinct(Ids(ordered))
      requires enrollment.Some? && enrollment.value.principal in keys ==>
                 keys[enrollment.value.principal] == enrollment.value.publicKey
      modifies this
      ensures Valid() && Keeps()
      ensures r.Ok? <==>
                && Plannable(ordered, force, policy)
                && |old(tree)| + |Registered(ordered, force, policy, old(logIndexById).Keys)| <= MAX_UINT64
      ensures r.Err? ==> unchanged(this)
      ensures r.Err? ==> r.error == if Plannable(ordered, force, policy) then LogFull else PolicyError
      ensures r.Ok? ==>
                && tree == old(tree) + Registered(ordered, force, policy, old(logIndexById).Keys)
                && (forall e | e in ordered ::
                      && Identity(e) in evidenceById
                      && (Identity(e) in logIndexById <==>
                            Identity(e) in old(logIndexById) || Required(e, force, policy)))
                && r.value.delivery !in old(deliveries)
                && deliveries
                   == old(deliveries)[r.value.delivery := StoredDelivery(Identity(ordered[0]), Ids(ordered[1..]))]
                && routes == old(routes)
                && keys == (if enrollment.None? then old(keys)
                            else old(keys)[enrollment.value.principal := enrollment.value.publicKey])
                && exists targets :: Addressed(target, routes.Keys, targets)
                     && Issued(old(dispatches), dispatches, r.value.delivery, targets, r.value.dispatches)
    {
      hide LogValid, StoreValid, OutboxValid, Registered, Addressed, Required;
      var planned := PlanEvidence(ordered, force, policy);
      if planned.Err? {
        return Err(planned.error);
      }
      var ids := planned.value;
      if |tree| + |ids| > MAX_UINT64 {
        return Err(LogFull);
      }
      Register(ordered, force, policy, ids);
      if enrollment.Some? {
        keys := keys[enrollment.value.principal := enrollment.value.publicKey];
      }
      var receipt := Record(ordered, target);
      return Ok(receipt);
    }

    method Record(ordered: seq<TypedEvidence>, target: string) returns (receipt: Receipt)
      requires ordered != [] && OutboxValid() && forall e | e in ordered :: Identity(e) in evidenceById
      modifies this`deliveries, this`nextDeliveryId, this`dispatches, this`nextDispatchId
      ensures OutboxValid() && receipt.delivery !in old(deliveries)
      ensures deliveries == old(deliveries)[receipt.delivery := StoredDelivery(Identity(ordered[0]), Ids(ordered[1..]))]
      ensures exists targets :: Addressed(target, routes.Keys, targets)
                && Issued(old(dispatches), dispatches, receipt.delivery, targets, receipt.dispatches)
    {
      hide OutboxValid, Addressed, Issued;
      var delivery := RecordDelivery(ordered);
      var targets := DispatchTargets(target);
      var issued := Enqueue(delivery, targets);
      return Receipt(delivery, issued);
    }

    method Register(ordered: seq<TypedEvidence>, force: bool, policy: LogPolicy, ids: seq<Identity>)
      requires Valid() && Distinct(Ids(ordered)) && |tree| + |ids| <= MAX_UINT64
      requires ids == Registered(ordered, force, policy, logIndexById.Keys)
      modifies this`tree, this`logIndexById, this`evidenceById
      ensures Valid() && Keeps()
      ensures tree == old(tree) + ids
      ensures forall e | e in ordered ::
                && Identity(e) in evidenceById
                && (Identity(e) in logIndexById <==> Identity(e) in old(logIndexById) || Required(e, force, policy))
    {
      hide Bijective, OnLog, Registered;
      RegisteredSound(ordered, force, policy, logIndexById.Keys);
      AppendToLog(ids);
      StoreEvidence(ordered);
    }

    method AppendToLog(ids: seq<Identity>)
      requires LogValid() && |tree| + |ids| <= MAX_UINT64 && Distinct(ids) && forall id | id in ids ::
                 id !in logIndexById
      modifies this`tree, this`logIndexById
      ensures LogValid() && tree == old(tree) + ids
      ensures forall id :: id in logIndexById <==> id in old(logIndexById) || id in ids
      ensures forall id | id in old(logIndexById) :: logIndexById[id] == old(logIndexById)[id]
    {
      CheckpointsStayOnLog(tree, tree + ids);
      var next := |tree|;
      var i := 0;
      assert tree + ids[..0] == tree;
      while i < |ids|
        invariant 0 <= i <= |ids| && next == |tree| + i && tree == old(tree)
        invariant Bijective(tree + ids[..i], logIndexById)
        invariant forall id :: id in logIndexById <==> id in old(logIndexById) || id in ids[..i]
        invariant forall id | id in old(logIndexById) :: logIndexById[id] == old(logIndexById)[id]
      {
        assert ids[..i + 1] == ids[..i] + [ids[i]];
        assert tree + ids[..i + 1] == tree + ids[..i] + [ids[i]];
        NextPositionKeepsBijection(tree + ids[..i], logIndexById, ids[i]);
        logIndexById := logIndexById[ids[i] := next];
        next := next + 1;
        i := i + 1;
      }
      assert ids[..i] == ids;
      tree := tree + ids;
    }

    method RecordDelivery(ordered: seq<TypedEvidence>) returns (delivery: nat)
      requires ordered != [] && OutboxValid() && forall e | e in ordered :: Identity(e) in evidenceById
      modifies this`deliveries, this`nextDeliveryId
      ensures OutboxValid() && delivery !in old(deliveries)
      ensures deliveries == old(deliveries)[delivery := StoredDelivery(Identity(ordered[0]), Ids(ordered[1..]))]
    {
      nextDeliveryId := nextDeliveryId + 1;
      delivery := nextDeliveryId;
      var stored := StoredDelivery(Identity(ordered[0]), Ids(ordered[1..]));
      forall id | id in stored.supporting
        ensures id in evidenceById
      {
        var k :| 0 <= k < |ordered[1..]| && stored.supporting[k] == id;
        assert ordered[1..][k] in ordered;
      }
      deliveries := deliveries[delivery := stored];
    }

    method StoreEvidence(ordered: seq<TypedEvidence>)
      requires forall id | id in evidenceById :: Identity(evidenceById[id]) == id
      modifies this`evidenceById
      ensures forall id :: id in evidenceById <==> id in old(evidenceById) || id.evidence in ordered
      ensures forall id | id in evidenceById :: Identity(evidenceById[id]) == id
      ensures forall id | id in old(evidenceById) :: evidenceById[id] == old(evidenceById)[id]
    {
      var i := 0;
      while i < |ordered|
        invariant 0 <= i <= |ordered|
        invariant forall id :: id in evidenceById <==> id in old(evidenceById) || id.evidence in ordered[..i]
        invariant forall id | id in evidenceById :: Identity(evidenceById[id]) == id
        invariant forall id | id in old(evidenceById) :: evidenceById[id] == old(evidenceById)[id]
      {
        assert ordered[..i + 1] == ordered[..i] + [ordered[i]];
        if Identity(ordered[i]) !in evidenceById {
          evidenceById := evidenceById[Identity(ordered[i]) := ordered[i]];
        }
        i := i + 1;
      }
      assert ordered[..i] == ordered;
    }

    method DispatchTargets(target: string) returns (targets: seq<string>)
      ensures Addressed(target, routes.Keys, targets)
    {
      if target != "" {
        return [target];
      }
      targets := [];
      var rest := routes.Keys;
      while rest != {}
        invariant Validity.Increasing(targets)
        invariant rest <= routes.Keys
        invariant forall t :: t in targets <==> t in routes && t !in rest
      {
        var t :| t in rest;
        targets := Validity.Insert(targets, t);
        rest := rest - {t};
      }
    }

    method Enqueue(delivery: nat, targets: seq<string>) returns (issued: seq<nat>)
      requires OutboxValid() && delivery in deliveries
      modifies this`dispatches, this`nextDispatchId
      ensures OutboxValid()
      ensures Issued(old(dispatches), dispatches, delivery, targets, issued)
    {
      hide Resolvable, Issued;
      issued := [];
      NoneIssued(dispatches, delivery);
      var i := 0;
      while i < |targets|
        invariant 0 <= i <= |targets|
        invariant OutboxValid()
        invariant Issued(old(dispatches), dispatches, delivery, targets[..i], issued)
      {
        assert targets[..i + 1] == targets[..i] + [targets[i]];
        IssuedGrows(old(dispatches), dispatches, delivery, targets[..i], issued, targets[i], nextDispatchId + 1);
        nextDispatchId := nextDispatchId + 1;
        dispatches := dispatches[nextDispatchId := StoredDispatch(delivery, targets[i], Pending)];
        issued := issued + [nextDispatchId];
        i := i + 1;
      }
      assert targets[..i] == targets;
    }

    // -------------------------------------------------------------- pushing

    /** Is any item of the delivery logged, so that its package carries a log update. */
    predicate CarriesUpdate(d: StoredDelivery)
      reads this`logIndexById
    {
      d.root in logIndexById || exists id | id in d.supporting :: id in logIndexById
    }

    method MoveRoute(target: string, c: Checkpoint)
      requires LogValid() && OnLog(c) && target in routes
      modifies this`routes
      ensures LogValid() && routes == old(routes)[target := c] && c.size <= |tree|
    {
      routes := routes[target := c];
    }

    lemma LogIsShort()
      requires LogValid()
      ensures |tree| <= MAX_UINT64 && forall t | t in routes :: routes[t].size <= |tree|
    {
    }

    lemma CurrentIsOnLog()
      requires |tree| <= MAX_UINT64
      ensures OnLog(MerkleLog.CheckpointAt(tree, |tree|)) && MerkleLog.CheckpointAt(tree, |tree|).size == |tree|
    {
    }

    /**
     The retry loop, against an agent that answers attempt `k` with `replies(k)`, whatever that is. While
     the log does not grow it ends after at most one attempt per log position the route lacks, plus one;
     the cached checkpoint never moves back or off this log.
     */
    method PushToRoute(target: string, delivery: StoredDelivery, replies: nat -> Reply)
      returns (error: Option<Error>, attempts: nat)
      requires LogValid() && target in routes
      modifies this`routes
      ensures LogValid() && routes.Keys == old(routes).Keys
      ensures forall t | t in routes && t != target :: routes[t] == old(routes)[t]
      ensures old(routes)[target].size <= routes[target].size
      ensures 0 < attempts <= |tree| - old(routes)[target].size + 1
      ensures error == None <==> replies(attempts - 1) == Acked
      ensures forall k: nat | k < attempts - 1 :: replies(k).Stale?
      ensures error == None && CarriesUpdate(delivery) ==> routes[target] == MerkleLog.CheckpointAt(tree, |tree|)
      ensures error.Some? || !CarriesUpdate(delivery) ==>
                routes[target] == if attempts == 1 then old(routes)[target] else replies(attempts - 2).latest
      ensures error == Some(AgentRefused) <==> replies(attempts - 1) == Refused
      ensures replies(attempts - 1).Stale? ==>
                var latest := replies(attempts - 1).latest;
                && (latest.size <= routes[target].size || !OnLog(latest))
                && error == Some(if latest.size <= routes[target].size then AgentStale else InvalidAgentCheckpoint)
    {
      hide LogValid, OnLog, MerkleLog.CheckpointAt, CarriesUpdate;
      LogIsShort();
      attempts := 0;
      while true
        invariant LogValid() && target in routes && routes == old(routes)[target := routes[target]]
        invariant old(routes)[target].size <= routes[target].size <= |tree|
        invariant attempts <= routes[target].size - old(routes)[target].size
        invariant attempts == 0 ==> routes == old(routes)
        invariant attempts > 0 ==> replies(attempts - 1).Stale? && routes[target] == replies(attempts - 1).latest
        invariant forall k: nat | k < attempts :: replies(k).Stale?
        decreases |tree| - routes[target].size
      {
        var reply := replies(attempts);
        attempts := attempts + 1;
        match reply {
          case Refused =>
            return Some(AgentRefused), attempts;
          case Stale(latest) =>
            if latest.size <= routes[target].size {
              return Some(AgentStale), attempts;
            }
            if !OnLog(latest) {
              return Some(InvalidAgentCheckpoint), attempts;
            }
            MoveRoute(target, latest);
          case Acked =>
            if CarriesUpdate(delivery) {
              CurrentIsOnLog();
              MoveRoute(target, MerkleLog.CheckpointAt(tree, |tree|));
            }
            return None, attempts;
        }
      }
    }

    /** Pushing one outbox entry: only an acknowledgement acknowledges, and nothing takes that back. */
    method PushDispatch(dispatch: nat, replies: nat -> Reply) returns (error: Option<Error>, attempts: nat)
      requires Valid()
      modifies this`routes, this`dispatches
      ensures Valid() && Keeps()
      ensures dispatch !in old(dispatches) ==> error == Some(UnknownDispatch)
      ensures dispatch in old(dispatches) ==>
                var before := old(dispatches)[dispatch];
                if before.state == Acknowledged then error == None && attempts == 0
                else if before.target !in old(routes) then error == Some(AgentUnavailable) && attempts == 0
                else
                  && 0 < attempts <= |tree| - old(routes)[before.target].size + 1
                  && (error == None <==> replies(attempts - 1) == Acked)
      ensures attempts == 0 ==> unchanged(this)
      ensures dispatches == if error == None && attempts > 0
                            then old(dispatches)[dispatch := old(dispatches)[dispatch].(state := Acknowledged)]
                            else old(dispatches)
    {
      hide Bijective, OnLog, Resolvable, CarriesUpdate;
      if dispatch !in dispatches {
        return Some(UnknownDispatch), 0;
      }
      var stored := dispatches[dispatch];
      if stored.state == Acknowledged {
        return None, 0;
      }
      if stored.target !in routes {
        return Some(AgentUnavailable), 0;
      }
      error, attempts := PushToRoute(stored.target, deliveries[stored.delivery], replies);
      if error == None {
        dispatches := dispatches[dispatch := stored.(state := Acknowledged)];
      }
    }
  }

  /** Checkpoints of a log are checkpoints of every longer log. */
  lemma CheckpointsStayOnLog(a: seq<Identity>, b: seq<Identity>)
    requires IsPrefix(a, b) && |b| <= MAX_UINT64
    ensures forall n: nat | n <= |a| :: MerkleLog.CheckpointAt(b, n) == MerkleLog.CheckpointAt(a, n)
  {
    forall n: nat | n <= |a|
      ensures MerkleLog.CheckpointAt(b, n) == MerkleLog.CheckpointAt(a, n)
    {
      assert b[..n] == a[..n];
    }
  }
}
