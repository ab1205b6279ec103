/**
 What the evaluation of a package answers, for every verified root and whatever the application says of its
 progress (poc/provenance-suites/deliveryagent/verifier.go and predicates.go).
 */
module EvaluationAnswers {
  import opened Common
  import opened Selection
  import opened VerificationSession
  import opened DirectKey
  import opened DeliveryEvaluation
  import EvidenceCatalog

  // ---------------------------------------------------------------- scope

  /** Every part of the scope is there, and the action is a known one. */
  ghost predicate Complete(scope: DeliveryScope) {
    && scope.tenant.key.scheme != "" && scope.tenant.key.authority != ""
    && scope.target != "" && scope.name != ""
    && (scope.action == "put" || scope.action == "remove")
  }

  ghost predicate Addressed(config: Config, scope: DeliveryScope) {
    scope.tenant == config.tenant && scope.target == config.target
  }

  /** The scope is complete and this agent's, and the signer belongs to the agent's tenant. */
  ghost predicate InScope(config: Config, scope: DeliveryScope, signer: Principal) {
    Complete(scope) && Addressed(config, scope) && Tenant(signer.key, signer.partition) == config.tenant
  }

  // ---------------------------------------------------------------- ordinary work

  /** The root is verified and asks for ordinary work, in the form its predicate type announces. */
  ghost predicate AsksForWork(d: Delivery, id: string) {
    && id in d.env.items && d.env.verify(id).Some?
    && var root := NodeOf(d, id);
       || (PredicateTypeOf(root) == DEPLOYMENT && root.result.assertion.Deployment?)
       || (PredicateTypeOf(root) == MANAGED_RESOURCE && root.result.assertion.ManagedResource?)
  }

  /** The application says that the scope is not complete, or there is no application to ask. */
  ghost predicate WorkIsOpen(d: Delivery, scope: DeliveryScope) {
    d.progress.None? || d.progress.value(scope) == Ok(false)
  }

  /**
   A supporting item that can stand behind a managed resource: the first that claims the resource type, another
   item than the root, verified, a fulfillment relation by the provider tenant for that very type, with a media type.
   */
  ghost predicate RelationStands(d: Delivery, id: string, resourceType: string, relation: string) {
    && EvidenceCatalog.Scan(d.supporting, d.findings, resourceType) == EvidenceCatalog.Found(relation)
    && relation != id && relation in d.env.items && d.env.verify(relation).Some?
    && var support := NodeOf(d, relation);
       && PredicateTypeOf(support) == FULFILLMENT_RELATION
       && d.config.provider == Some(Tenant(PrincipalOf(support).key, PrincipalOf(support).partition))
       && support.result.assertion.FulfillmentRelation?
       && support.result.assertion.resourceType == resourceType
       && support.result.assertion.mediaType != ""
  }

  /** What is left to hold once there is work to do. */
  ghost predicate PremisesHold(d: Delivery, id: string)
    requires AsksForWork(d, id)
  {
    var a := NodeOf(d, id).result.assertion;
    if a.Deployment? then forall m | m in a.manifests :: m.mediaType != ""
    else exists relation :: RelationStands(d, id, a.resourceType, relation)
  }

  /** The manifests to apply: a deployment's own, or a managed resource's spec under the relation's media type. */
  ghost predicate ManifestsOf(d: Delivery, id: string, manifests: seq<Manifest>)
    requires AsksForWork(d, id)
  {
    var a := NodeOf(d, id).result.assertion;
    if a.Deployment? then manifests == a.manifests
    else exists relation ::
           && RelationStands(d, id, a.resourceType, relation)
           && manifests == [Manifest(NodeOf(d, relation).result.assertion.mediaType, a.spec)]
  }

  /** The session in which a verified root is evaluated. */
  ghost function RootSession(d: Delivery, id: string): State<Verdict>
    requires d.env.verify(id).Some?
  {
    State(map[id := Verified(NodeOf(d, id))], [id], {id}, {}, 0, {}, {})
  }

  lemma EvaluatesRoot(d: Delivery, id: string)
    requires id in d.env.items && d.env.verify(id).Some?
    ensures PackageEvaluated(d, id).1 == RootEvaluated(d, RootSession(d, id), NodeOf(d, id)).1
  {
    hide RootEvaluated;
    assert Entered(NewSession<Verdict>(), id).value.(memo := map[id := Verified(NodeOf(d, id))]) == RootSession(d, id);
  }

  /** From the root's session, the relation is verified exactly when one stands, and yields its media type. */
  lemma RelationExact(d: Delivery, id: string, resourceType: string)
    requires d.env.verify(id).Some?
    ensures var r := RelationVerified(d, AddContribution(RootSession(d, id), NodeOf(d, id)), id, resourceType).1;
            && (r.Ok? <==> exists relation :: RelationStands(d, id, resourceType, relation))
            && (forall relation | RelationStands(d, id, resourceType, relation) ::
                  r == Ok(NodeOf(d, relation).result.assertion.mediaType))
  {
    var s := AddContribution(RootSession(d, id), NodeOf(d, id));
    var found := EvidenceCatalog.Scan(d.supporting, d.findings, resourceType);
    if found.Found? && found.identity != id && found.identity in d.env.items && d.env.verify(found.identity).Some? {
      var entered := Entered(s, found.identity).value;
      assert VerifiedNode(d.env, entered, found.identity)
             == (entered.(memo := entered.memo[found.identity := Verified(NodeOf(d, found.identity))]),
                 Ok(NodeOf(d, found.identity)));
      if RelationVerified(d, s, id, resourceType).1.Ok? {
        assert RelationStands(d, id, resourceType, found.identity);
      }
    }
  }

  /**
   For every verified root that asks for work, whatever the application says. A scope that is incomplete, another
   agent's or another tenant's is refused. In scope, the package is complete exactly when the application says so;
   the application's error is the answer where it has one; and an action is authorized exactly when the work is
   open and the premises hold.
   */
  lemma WorkAnswers(d: Delivery, id: string)
    requires AsksForWork(d, id)
    ensures var root := NodeOf(d, id);
            var scope, signer, r := root.result.assertion.scope, PrincipalOf(root), PackageEvaluated(d, id).1;
            && (!Complete(scope) ==> r == Err(Malformed))
            && (Complete(scope) && !Addressed(d.config, scope) ==> r == Err(PolicyMismatch))
            && (Complete(scope) && Addressed(d.config, scope) && !InScope(d.config, scope, signer) ==>
                  r == Err(TenantMismatch))
            && (InScope(d.config, scope, signer) ==>
                  && (r == Ok(Completed) <==> d.progress.Some? && d.progress.value(scope) == Ok(true))
                  && (d.progress.Some? && d.progress.value(scope).Err? ==> r == Err(d.progress.value(scope).error))
                  && ((r.Ok? && r.value.Act?) <==> WorkIsOpen(d, scope) && PremisesHold(d, id))
                  && (r.Err? <==>
                        || (d.progress.Some? && d.progress.value(scope).Err?)
                        || (WorkIsOpen(d, scope) && !PremisesHold(d, id))))
  {
    hide RelationVerified, PackageEvaluated;
    var root := NodeOf(d, id);
    EvaluatesRoot(d, id);
    PredicatesDiffer();
    if root.result.assertion.ManagedResource? {
      RelationExact(d, id, root.result.assertion.resourceType);
    }
  }

  lemma PredicatesDiffer()
    ensures DEPLOYMENT != MANAGED_RESOURCE && DEPLOYMENT != ENROLLMENT && MANAGED_RESOURCE != ENROLLMENT
    ensures FULFILLMENT_RELATION !in {DEPLOYMENT, MANAGED_RESOURCE, ENROLLMENT}
    ensures TRUST_CONFIG_UPDATE !in {DEPLOYMENT, MANAGED_RESOURCE, ENROLLMENT}
  {
    assert DEPLOYMENT[0] == 'd' && DEPLOYMENT[1] == 'e' && MANAGED_RESOURCE[0] == 'm' && ENROLLMENT[1] == 'i';
    assert FULFILLMENT_RELATION[0] == 'f' && TRUST_CONFIG_UPDATE[0] == 't' && ENROLLMENT[0] == 'd';
  }

  /** An authorized action is the root's own request: its identity, signer, predicate, scope and manifests. */
  lemma ActionContent(d: Delivery, id: string)
    requires AsksForWork(d, id) && PackageEvaluated(d, id).1.Ok? && PackageEvaluated(d, id).1.value.Act?
    ensures var action, root := PackageEvaluated(d, id).1.value.action, NodeOf(d, id);
            && action.rootEvidence == id && action.principal == PrincipalOf(root)
            && action.predicateType == PredicateTypeOf(root) && action.scope == root.result.assertion.scope
            && ManifestsOf(d, id, action.manifests)
  {
    hide RelationVerified, PackageEvaluated;
    var root := NodeOf(d, id);
    EvaluatesRoot(d, id);
    PredicatesDiffer();
    if root.result.assertion.ManagedResource? {
      RelationExact(d, id, root.result.assertion.resourceType);
    }
  }

  /**
   Why a managed resource finds no relation: the first that fails of a configured provider, a findable claim of its
   type, another verified item behind that claim, a relation's predicate, the provider as its signer, its content and
   media type, and its resource type.
   */
  ghost predicate NoRelationFor(d: Delivery, id: string, resourceType: string, e: Error) {
    if d.config.provider.None? then e == TenantMismatch
    else match EvidenceCatalog.Scan(d.supporting, d.findings, resourceType)
      case Fault => e == InvalidLookup
      case Absent => e == RelationRequired
      case Found(relation) =>
        if relation == id then e == Cycle
        else if relation !in d.env.items then e == UnknownEvidence
        else if d.env.verify(relation).None? then e == VerificationFailed
        else
          var support := NodeOf(d, relation);
          if PredicateTypeOf(support) != FULFILLMENT_RELATION then e == UnknownPredicate
          else if Tenant(PrincipalOf(support).key, PrincipalOf(support).partition) != d.config.provider.value
            then e == TenantMismatch
          else if !support.result.assertion.FulfillmentRelation? || support.result.assertion.mediaType == ""
            then e == Malformed
          else support.result.assertion.resourceType != resourceType && e == PolicyMismatch
  }

  /** What open work in scope is refused with: a manifest without a media type, or the lack of a relation. */
  lemma RefusalAnswers(d: Delivery, id: string)
    requires AsksForWork(d, id) && WorkIsOpen(d, NodeOf(d, id).result.assertion.scope)
    requires InScope(d.config, NodeOf(d, id).result.assertion.scope, PrincipalOf(NodeOf(d, id)))
    requires !PremisesHold(d, id)
    ensures var r, a := PackageEvaluated(d, id).1, NodeOf(d, id).result.assertion;
            && r.Err?
            && (a.Deployment? ==> r.error == Malformed)
            && (a.ManagedResource? ==> NoRelationFor(d, id, a.resourceType, r.error))
  {
    hide PackageEvaluated, RelationVerified, NoRelationFor;
    EvaluatesRoot(d, id);
    PredicatesDiffer();
    if NodeOf(d, id).result.assertion.ManagedResource? {
      RelationRefused(d, id, NodeOf(d, id).result.assertion.resourceType);
    }
  }

  lemma RelationRefused(d: Delivery, id: string, resourceType: string)
    requires d.env.verify(id).Some? && !exists relation :: RelationStands(d, id, resourceType, relation)
    ensures var r := RelationVerified(d, AddContribution(RootSession(d, id), NodeOf(d, id)), id, resourceType).1;
            r.Err? && NoRelationFor(d, id, resourceType, r.error)
  {
    var s := AddContribution(RootSession(d, id), NodeOf(d, id));
    var found := EvidenceCatalog.Scan(d.supporting, d.findings, resourceType);
    if found.Found? && found.identity != id && found.identity in d.env.items && d.env.verify(found.identity).Some? {
      var entered := Entered(s, found.identity).value;
      assert VerifiedNode(d.env, entered, found.identity)
             == (entered.(memo := entered.memo[found.identity := Verified(NodeOf(d, found.identity))]),
                 Ok(NodeOf(d, found.identity)));
      assert !RelationStands(d, id, resourceType, found.identity);
    }
  }

  /** Everything else: enrollments go to their profile, and no other verified root is ever acted on. */
  lemma OtherAnswers(d: Delivery, id: string)
    requires !AsksForWork(d, id)
    ensures var r := PackageEvaluated(d, id).1;
            if id !in d.env.items then r == Err(UnknownEvidence)
            else if d.env.verify(id).None? then r == Err(VerificationFailed)
            else if PredicateTypeOf(NodeOf(d, id)) == ENROLLMENT then r == Ok(SuiteEvent(NodeOf(d, id).result))
            else r == Err(if PredicateTypeOf(NodeOf(d, id)) in {DEPLOYMENT, MANAGED_RESOURCE} then Malformed
              else UnknownPredicate)
  {
    if id in d.env.items && d.env.verify(id).Some? {
      hide RelationVerified, PackageEvaluated;
      EvaluatesRoot(d, id);
      PredicatesDiffer();
    }
  }
}
