/**
 The evaluation of one delivery package: its catalog, the handlers of deployments and managed resources, and
 the session in which they verify statements and account for what they used
 (poc/provenance-suites/deliveryagent/verifier.go, predicates.go and session.go).
 */
module DeliveryEvaluation {
  import opened Common
  import opened Selection
  import opened VerificationSession
  import opened DirectKey
  import EvidenceCatalog
  import Validity

  /** What an agent is authorized to do. */
  datatype Action = Action(rootEvidence: string, principal: Principal, predicateType: string, scope: DeliveryScope,
                           manifests: seq<Manifest>, basis: seq<string>)

  // ---------------------------------------------------------------- the package

  function Items(pkg: Package): seq<Evidence> {
    [pkg.root] + pkg.supporting
  }

  function Ids(identity: Evidence -> string, es: seq<Evidence>): (ids: seq<string>)
    ensures |ids| == |es| && forall i | 0 <= i < |es| :: ids[i] == identity(es[i])
  {
    seq(|es|, i requires 0 <= i < |es| => identity(es[i]))
  }

  /** Every item of the package under its own identity, and nothing else. */
  ghost predicate IsCatalog(identity: Evidence -> string, es: seq<Evidence>, catalog: map<string, Evidence>) {
    && Distinct(Ids(identity, es))
    && (forall i | 0 <= i < |es| :: identity(es[i]) in catalog && catalog[identity(es[i])] == es[i])
    && (forall id | id in catalog :: identity(catalog[id]) == id && catalog[id] in es)
  }

  lemma CatalogGrows(identity: Evidence -> string, es: seq<Evidence>, catalog: map<string, Evidence>, e: Evidence)
    requires IsCatalog(identity, es, catalog) && identity(e) !in catalog
    ensures IsCatalog(identity, es + [e], catalog[identity(e) := e])
  {
    assert forall j | 0 <= j < |es| :: identity(es[j]) in catalog;
  }

  lemma CatalogStarts(identity: Evidence -> string, e: Evidence)
    ensures IsCatalog(identity, [e], map[identity(e) := e])
  {
  }

  lemma CatalogDistinct(identity: Evidence -> string, es: seq<Evidence>, catalog: map<string, Evidence>)
    requires IsCatalog(identity, es, catalog)
    ensures Distinct(Ids(identity, es))
  {
  }

  lemma RepeatFound(identity: Evidence -> string, es: seq<Evidence>, i: nat, catalog: map<string, Evidence>)
    requires i < |es| && IsCatalog(identity, es[..i], catalog) && identity(es[i]) in catalog
    ensures !Distinct(Ids(identity, es))
  {
    var j :| 0 <= j < i && es[..i][j] == catalog[identity(es[i])];
    assert Ids(identity, es)[j] == Ids(identity, es)[i];
  }

  /** Refused exactly when two items have one identity. */
  method NewEvidenceCatalog(identity: Evidence -> string, pkg: Package) returns (r: Option<map<string, Evidence>>)
    ensures r.Some? <==> Distinct(Ids(identity, Items(pkg)))
    ensures r.Some? ==> IsCatalog(identity, Items(pkg), r.value)
  {
    hide IsCatalog, Distinct;
    var items := Items(pkg);
    assert items[..1] == [pkg.root];
    CatalogStarts(identity, pkg.root);
    var byId := map[identity(pkg.root) := pkg.root];
    for i := 1 to |items|
      invariant IsCatalog(identity, items[..i], byId)
    {
      var id := identity(items[i]);
      if id in byId {
        RepeatFound(identity, items, i, byId);
        return None;
      }
      CatalogGrows(identity, items[..i], byId, items[i]);
      assert items[..i + 1] == items[..i] + [items[i]];
      byId := byId[id := items[i]];
    }
    assert items[..|items|] == items;
    CatalogDistinct(identity, items, byId);
    return Some(byId);
  }

  function Findings(e: Evidence): EvidenceCatalog.Finding {
    match e
    case Foreign(_, _) => EvidenceCatalog.NotInstalled
    case Statement(_, FulfillmentRelation(t, _), _) => EvidenceCatalog.Relation(t)
    case _ => EvidenceCatalog.Unusable
  }

  function FindingsIn(catalog: map<string, Evidence>): string -> EvidenceCatalog.Finding {
    id => if id in catalog then Findings(catalog[id]) else EvidenceCatalog.LookupFault
  }

  // ---------------------------------------------------------------- semantic evaluation

  datatype Verdict = Verdict(selected: Selected, assertion: Assertion)

  type Progress = DeliveryScope -> Result<bool, Error>

  datatype Outcome = Act(action: Action) | Completed | SuiteEvent(verdict: Verdict)

  /** A delivery under evaluation: what it was built from, and the relations among its supporting items. */
  datatype Delivery = Delivery(config: Config, env: Environment<Verdict>, supporting: seq<string>,
                               findings: string -> EvidenceCatalog.Finding, progress: Option<Progress>)

  function PrincipalOf(n: Node<Verdict>): Principal {
    n.result.selected.authenticated.principal
  }

  function PredicateTypeOf(n: Node<Verdict>): string {
    n.result.selected.authenticated.predicateType
  }

  /** Whether there is work to do, once the scope is this agent's; the application may say it is complete. */
  function OrdinaryWorkRequired(config: Config, root: Node<Verdict>, scope: DeliveryScope,
                                progress: Option<Progress>): Result<bool, Error> {
    if scope.tenant.key.scheme == "" || scope.tenant.key.authority == "" || scope.target == "" || scope.name == ""
      || scope.action == ""
    then Err(Malformed)
    else if scope.action != PUT && scope.action != REMOVE then Err(Malformed)
    else if scope.tenant != config.tenant || scope.target != config.target then Err(PolicyMismatch)
    else if TenantOf(PrincipalOf(root)) != config.tenant then Err(TenantMismatch)
    else match progress
      case None => Ok(true)
      case Some(completed) => match completed(scope) case Err(e) => Err(e) case Ok(done) => Ok(!done)
  }

  ghost function AuthorizedAction(s: State<Verdict>, root: Node<Verdict>, scope: DeliveryScope,
                                  manifests: seq<Manifest>): Action {
    Action(root.identity, PrincipalOf(root), PredicateTypeOf(root), scope, manifests, SortedBasis(s))
  }

  /** A result together with the session it leaves. */
  type Evaluated<+R> = (State<Verdict>, Result<R, Error>)

  ghost function Deployed(d: Delivery, s: State<Verdict>, root: Node<Verdict>): Evaluated<Outcome> {
    if !root.result.assertion.Deployment? then (s, Err(Malformed))
    else
      var scope, manifests := root.result.assertion.scope, root.result.assertion.manifests;
      match OrdinaryWorkRequired(d.config, root, scope, d.progress)
      case Err(e) => (s, Err(e))
      case Ok(false) => (s, Ok(Completed))
      case Ok(true) =>
        var t := AddContribution(s, root);
        if exists i | 0 <= i < |manifests| :: manifests[i].mediaType == "" then (t, Err(Malformed))
        else (t, Ok(Act(AuthorizedAction(t, root, scope, manifests))))
  }

  /** The checks on a supporting relation, and the dependency recorded once they hold. */
  function RelationChecked(config: Config, parent: string, resourceType: string, s: State<Verdict>,
                           support: Node<Verdict>): Evaluated<string> {
    if PredicateTypeOf(support) != FULFILLMENT_RELATION then (s, Err(UnknownPredicate))
    else if Some(TenantOf(PrincipalOf(support))) != config.provider then (s, Err(TenantMismatch))
    else if !support.result.assertion.FulfillmentRelation? then (s, Err(Malformed))
    else if support.result.assertion.mediaType == "" then (s, Err(Malformed))
    else if support.result.assertion.resourceType != resourceType then (s, Err(PolicyMismatch))
    else
      var (t, error) := Recorded(s, parent, support.identity);
      (t, if error.Some? then Err(error.value) else Ok(support.result.assertion.mediaType))
  }

  /** The media type of the first supporting relation for the resource type. */
  function RelationVerified(d: Delivery, s: State<Verdict>, parent: string, resourceType: string): Evaluated<string> {
    if d.config.provider.None? then (s, Err(TenantMismatch))
    else match EvidenceCatalog.Scan(d.supporting, d.findings, resourceType)
      case Fault => (s, Err(InvalidLookup))
      case Absent => (s, Err(RelationRequired))
      case Found(id) => WithNode(d.env, s, id,
        (t, support) => RelationChecked(d.config, parent, resourceType, t, support))
  }

  ghost function Managed(d: Delivery, s: State<Verdict>, root: Node<Verdict>): Evaluated<Outcome> {
    if !root.result.assertion.ManagedResource? then (s, Err(Malformed))
    else
      var scope, resourceType := root.result.assertion.scope, root.result.assertion.resourceType;
      match OrdinaryWorkRequired(d.config, root, scope, d.progress)
      case Err(e) => (s, Err(e))
      case Ok(false) => (s, Ok(Completed))
      case Ok(true) =>
        var (t, relation) := RelationVerified(d, AddContribution(s, root), root.identity, resourceType);
        match relation
        case Err(e) => (t, Err(e))
        case Ok(mediaType) =>
          (t, Ok(Act(AuthorizedAction(t, root, scope, [Manifest(mediaType, root.result.assertion.spec)]))))
  }

  ghost function RootEvaluated(d: Delivery, s: State<Verdict>, root: Node<Verdict>): Evaluated<Outcome> {
    var t := PredicateTypeOf(root);
    if t == DEPLOYMENT then Deployed(d, s, root)
    else if t == MANAGED_RESOURCE then Managed(d, s, root)
    else if t == ENROLLMENT then (s, Ok(SuiteEvent(root.result)))
    else (s, Err(UnknownPredicate))
  }

  ghost function PackageEvaluated(d: Delivery, rootId: string): Evaluated<Outcome> {
    WithNode(d.env, NewSession(), rootId, (s, root) => RootEvaluated(d, s, root))
  }

  // ---------------------------------------------------------------- the handlers

  /** The lazy index is one of this delivery's supporting items. */
  ghost predicate IndexOf(d: Delivery, catalog: EvidenceCatalog.Catalog<string>)
    reads catalog
  {
    catalog.Valid() && catalog.supporting == d.supporting && catalog.findings == d.findings
  }

  method HandleDeployment(d: Delivery, session: Session<Verdict>, root: Node<Verdict>)
    returns (r: Result<Outcome, Error>)
    modifies session
    ensures (session.View(), r) == Deployed(d, old(session.View()), root)
  {
    if !root.result.assertion.Deployment? {
      return Err(Malformed);
    }
    var scope, manifests := root.result.assertion.scope, root.result.assertion.manifests;
    var required := OrdinaryWorkRequired(d.config, root, scope, d.progress);
    if required.Err? {
      return Err(required.error);
    }
    if !required.value {
      return Ok(Completed);
    }
    session.AddBasisContribution(root);
    for i := 0 to |manifests|
      invariant forall j | 0 <= j < i :: manifests[j].mediaType != ""
      invariant session.View() == AddContribution(old(session.View()), root)
    {
      if manifests[i].mediaType == "" {
        return Err(Malformed);
      }
    }
    var basis := session.SelectedBasis();
    return Ok(Act(Action(root.identity, PrincipalOf(root), PredicateTypeOf(root), scope, manifests, basis)));
  }

  method VerifyFulfillmentRelation(d: Delivery, catalog: EvidenceCatalog.Catalog<string>, session: Session<Verdict>,
                                   parent: string, resourceType: string)
    returns (r: Result<string, Error>)
    requires session.env == d.env && IndexOf(d, catalog)
    modifies session, catalog
    ensures catalog.Valid()
    ensures (session.View(), r) == RelationVerified(d, old(session.View()), parent, resourceType)
  {
    if d.config.provider.None? {
      return Err(TenantMismatch);
    }
    var found := catalog.SupportingRelation(resourceType);
    if found.Fault? {
      return Err(InvalidLookup);
    }
    if found.Absent? {
      return Err(RelationRequired);
    }
    var error := session.Enter(found.identity);
    if error.Some? {
      return Err(error.value);
    }
    var node := session.VerifyNode(found.identity);
    if node.Err? {
      session.Leave(found.identity);
      return Err(node.error);
    }
    r := CheckRelation(d, session, parent, resourceType, node.value);
    session.Leave(found.identity);
  }

  method CheckRelation(d: Delivery, session: Session<Verdict>, parent: string, resourceType: string,
                       support: Node<Verdict>)
    returns (r: Result<string, Error>)
    modifies session
    ensures (session.View(), r) == RelationChecked(d.config, parent, resourceType, old(session.View()), support)
  {
    if PredicateTypeOf(support) != FULFILLMENT_RELATION {
      return Err(UnknownPredicate);
    }
    if Some(TenantOf(PrincipalOf(support))) != d.config.provider {
      return Err(TenantMismatch);
    }
    var decoded := support.result.assertion;
    if !decoded.FulfillmentRelation? || decoded.mediaType == "" {
      return Err(Malformed);
    }
    if decoded.resourceType != resourceType {
      return Err(PolicyMismatch);
    }
    var error := session.RecordDependency(parent, support.identity);
    if error.Some? {
      return Err(error.value);
    }
    return Ok(decoded.mediaType);
  }

  method HandleManagedResource(d: Delivery, catalog: EvidenceCatalog.Catalog<string>, session: Session<Verdict>,
                               root: Node<Verdict>)
    returns (r: Result<Outcome, Error>)
    requires session.env == d.env && IndexOf(d, catalog)
    modifies session, catalog
    ensures catalog.Valid()
    ensures (session.View(), r) == Managed(d, old(session.View()), root)
  {
    if !root.result.assertion.ManagedResource? {
      return Err(Malformed);
    }
    var scope, resourceType := root.result.assertion.scope, root.result.assertion.resourceType;
    var required := OrdinaryWorkRequired(d.config, root, scope, d.progress);
    if required.Err? {
      return Err(required.error);
    }
    if !required.value {
      return Ok(Completed);
    }
    session.AddBasisContribution(root);
    var relation := VerifyFulfillmentRelation(d, catalog, session, root.identity, resourceType);
    if relation.Err? {
      return Err(relation.error);
    }
    var manifests := [Manifest(relation.value, root.result.assertion.spec)];
    var basis := session.SelectedBasis();
    return Ok(Act(Action(root.identity, PrincipalOf(root), PredicateTypeOf(root), scope, manifests, basis)));
  }

  /** Evaluates a package from a new session. */
  method VerifyPackage(d: Delivery, rootId: string) returns (r: Result<Outcome, Error>, session: Session<Verdict>)
    ensures (session.View(), r) == PackageEvaluated(d, rootId)
  {
    session := new Session(d.env);
    var catalog := new EvidenceCatalog.Catalog(d.supporting, d.findings);
    var error := session.Enter(rootId);
    assert error.None?; // in a new session nothing is active
    var root := session.VerifyNode(rootId);
    if root.Err? {
      session.Leave(rootId);
      return Err(root.error), session;
    }
    var predicateType := PredicateTypeOf(root.value);
    if predicateType == DEPLOYMENT {
      r := HandleDeployment(d, session, root.value);
    } else if predicateType == MANAGED_RESOURCE {
      r := HandleManagedResource(d, catalog, session, root.value);
    } else if predicateType == FULFILLMENT_RELATION || predicateType == TRUST_CONFIG_UPDATE {
      r := Err(UnknownPredicate);
    } else if predicateType == ENROLLMENT {
      r := Ok(SuiteEvent(root.value.result));
    } else {
      r := Err(UnknownPredicate);
    }
    session.Leave(rootId);
  }

  // ---------------------------------------------------------------- what an evaluation used

  /** The session in which the root, and nothing else, has been verified. */
  ghost predicate RootOnly(d: Delivery, s: State<Verdict>, root: Node<Verdict>) {
    && SessionOk(d.env, s)
    && IsNode(d.env, s, root.identity, root)
    && s.active == [root.identity] && s.activeSet == {root.identity}
    && s.edges == {} && s.contributors == {}
  }

  lemma RootStarts(d: Delivery, rootId: string)
    requires PackageEvaluated(d, rootId).1.Ok?
    ensures rootId in d.env.items && d.env.verify(rootId).Some?
    ensures var root := NodeOf(d, rootId);
            var s := Entered(NewSession<Verdict>(), rootId).value.(memo := map[rootId := Verified(root)]);
            && RootOnly(d, s, root)
            && PackageEvaluated(d, rootId) == (Left(RootEvaluated(d, s, root).0, rootId), RootEvaluated(d, s, root).1)
  {
    hide RootEvaluated;
    var start := NewSession<Verdict>();
    assert SessionOk(d.env, start);
    EnterKeeps(d.env, start, rootId);
    VerifyNodeKeeps(d.env, Entered(start, rootId).value, rootId);
  }

  function NodeOf(d: Delivery, id: string): Node<Verdict>
    requires d.env.verify(id).Some?
  {
    Node(id, d.env.verify(id).value.0, d.env.verify(id).value.1)
  }

  /** After a deployment is authorized, the root is the only contributor. */
  lemma DeployedAccounts(d: Delivery, s: State<Verdict>, root: Node<Verdict>)
    requires RootOnly(d, s, root) && Deployed(d, s, root).1.Ok? && Deployed(d, s, root).1.value.Act?
    ensures var (t, r) := Deployed(d, s, root);
            && SessionOk(d.env, t)
            && t == s.(contributors := {root.identity}, basis := t.basis)
            && r.value.action.basis == SortedBasis(t)
  {
    AddContributionKeeps(d.env, s, root);
  }

  /** The root has contributed and waits, active, for its premise. */
  ghost predicate RootWaits(d: Delivery, s: State<Verdict>, parent: string) {
    && SessionOk(d.env, s)
    && parent in s.memo && parent in s.activeSet
    && s.edges == {} && s.contributors == {parent}
  }

  /** The relation that was used: a verified item other than the root, now its only dependency. */
  lemma RelationAccounts(d: Delivery, s: State<Verdict>, parent: string, resourceType: string) returns (id: string)
    requires RootWaits(d, s, parent) && RelationVerified(d, s, parent, resourceType).1.Ok?
    ensures EvidenceCatalog.Scan(d.supporting, d.findings, resourceType) == EvidenceCatalog.Found(id)
    ensures id != parent && id in d.env.items && d.env.verify(id).Some?
    ensures var (t, r) := RelationVerified(d, s, parent, resourceType);
            var support := NodeOf(d, id);
            && SessionOk(d.env, t) && t.active == s.active && t.activeSet == s.activeSet
            && t.edges == {(parent, id)} && t.contributors == {parent, id}
            && d.config.provider == Some(TenantOf(PrincipalOf(support)))
            && PredicateTypeOf(support) == FULFILLMENT_RELATION
            && support.result.assertion == FulfillmentRelation(resourceType, r.value)
            && r.value != ""
  {
    hide SessionOk, Recorded;
    id := EvidenceCatalog.Scan(d.supporting, d.findings, resourceType).identity;
    var entered := Entered(s, id).value;
    EnterKeeps(d.env, s, id);
    VerifyNodeKeeps(d.env, entered, id);
    var (verified, node) := VerifiedNode(d.env, entered, id);
    var support := node.value;
    var recorded := Recorded(verified, parent, id).0;
    RecordKeeps(d.env, verified, parent, id);
    RecordsFirst(d.env, verified, parent, id);
    LeaveKeeps(d.env, s, recorded, id);
  }

  lemma RecordsFirst(env: Environment<Verdict>, s: State<Verdict>, parent: string, child: string)
    requires MemoOk(env, s) && s.edges == {} && s.contributors == {parent} && Recorded(s, parent, child).1 == None
    ensures Recorded(s, parent, child).0.edges == {(parent, child)}
    ensures Recorded(s, parent, child).0.contributors == {parent, child}
  {
  }

  /** After a managed resource is authorized, the root and one relation are the contributors. */
  lemma ManagedAccounts(d: Delivery, s: State<Verdict>, root: Node<Verdict>) returns (id: string)
    requires RootOnly(d, s, root) && Managed(d, s, root).1.Ok? && Managed(d, s, root).1.value.Act?
    ensures root.result.assertion.ManagedResource?
    ensures EvidenceCatalog.Scan(d.supporting, d.findings, root.result.assertion.resourceType)
              == EvidenceCatalog.Found(id)
    ensures id != root.identity && id in d.env.items && d.env.verify(id).Some?
    ensures var (t, r) := Managed(d, s, root);
            var support := NodeOf(d, id);
            && SessionOk(d.env, t) && t.active == s.active && t.activeSet == s.activeSet
            && t.edges == {(root.identity, id)} && t.contributors == {root.identity, id}
            && r.value.action.basis == SortedBasis(t)
            && d.config.provider == Some(TenantOf(PrincipalOf(support)))
            && PredicateTypeOf(support) == FULFILLMENT_RELATION
            && support.result.assertion.FulfillmentRelation?
            && support.result.assertion.resourceType == root.result.assertion.resourceType
            && r.value.action.manifests == [Manifest(support.result.assertion.mediaType, root.result.assertion.spec)]
  {
    hide RelationVerified, SessionOk;
    AddContributionKeeps(d.env, s, root);
    id := RelationAccounts(d, AddContribution(s, root), root.identity, root.result.assertion.resourceType);
  }

  /** The sorted union of the identities of selected items and the bases of their validity. */
  ghost predicate IsUnion(env: Environment<Verdict>, basis: seq<string>, selected: set<string>) {
    && Validity.Increasing(basis)
    && forall d :: d in basis <==> exists id :: id in selected && Brings(env, id, d)
  }

  ghost predicate Brings(env: Environment<Verdict>, id: string, d: string) {
    env.verify(id).Some? && (d == id || d in env.verify(id).value.1)
  }

  lemma BasisIsUnion(env: Environment<Verdict>, s: State<Verdict>)
    requires SessionOk(env, s)
    ensures IsUnion(env, SortedBasis(s), s.contributors)
  {
    forall d
      ensures d in SortedBasis(s) <==> exists id :: id in s.contributors && Brings(env, id, d)
    {
      assert forall id | id in s.contributors :: Contributes(s, id, d) <==> Brings(env, id, d);
    }
  }

  /**
   What an authorized action rests on: the root and, for a managed resource, one relation. The session ends
   with an empty stack, its edges go from the root to verified items other than the root, those items and the
   root are the contributors, and the action's basis is the sorted union of what they bring.
   */
  lemma ActionAccounts(d: Delivery, rootId: string) returns (relation: Option<string>)
    requires PackageEvaluated(d, rootId).1.Ok? && PackageEvaluated(d, rootId).1.value.Act?
    ensures rootId in d.env.items && d.env.verify(rootId).Some?
    ensures var (t, r) := PackageEvaluated(d, rootId);
            var selected := {rootId} + if relation.Some? then {relation.value} else {};
            && SessionOk(d.env, t) && t.active == []
            && OnlyChosen(t, {rootId}) && t.contributors == selected
            && (forall e | e in t.edges :: e.0 == rootId && e.1 != rootId && e.1 in d.env.items)
            && IsUnion(d.env, r.value.action.basis, selected)
    ensures relation.Some? <==> NodeOf(d, rootId).result.assertion.ManagedResource?
    ensures relation.Some? ==>
              && relation.value in d.env.items && d.env.verify(relation.value).Some? && relation.value != rootId
              && PremiseHolds(d, NodeOf(d, rootId), NodeOf(d, relation.value),
                 PackageEvaluated(d, rootId).1.value.action)
  {
    hide Deployed, Managed, SessionOk, PackageEvaluated;
    RootStarts(d, rootId);
    var root := NodeOf(d, rootId);
    var start := NewSession<Verdict>();
    var s := Entered(start, rootId).value.(memo := map[rootId := Verified(root)]);
    var (t, r) := RootEvaluated(d, s, root);
    StartsOk(d);
    relation := None;
    if PredicateTypeOf(root) == DEPLOYMENT {
      DeployedAccounts(d, s, root);
      DeployedIs(d, s, root);
    } else {
      var id := ManagedAccounts(d, s, root);
      relation := Some(id);
    }
    BasisIsUnion(d.env, t);
    LeaveKeeps(d.env, start, t, rootId);
    SameBasis(t, Left(t, rootId));
  }

  lemma StartsOk(d: Delivery)
    ensures SessionOk(d.env, NewSession<Verdict>())
  {
  }

  lemma DeployedIs(d: Delivery, s: State<Verdict>, root: Node<Verdict>)
    requires Deployed(d, s, root).1.Ok?
    ensures root.result.assertion.Deployment?
  {
  }

  lemma SameBasis(s: State<Verdict>, t: State<Verdict>)
    requires s.basis == t.basis
    ensures SortedBasis(s) == SortedBasis(t)
  {
    Validity.IncreasingUnique(SortedBasis(s), SortedBasis(t));
  }

  /**
   The relation premise of a managed resource: the first supporting claim, by the provider tenant, of the same
   type.
   */
  ghost predicate PremiseHolds(d: Delivery, root: Node<Verdict>, support: Node<Verdict>, action: Action) {
    && root.result.assertion.ManagedResource?
    && EvidenceCatalog.Scan(d.supporting, d.findings, root.result.assertion.resourceType)
       == EvidenceCatalog.Found(support.identity)
    && d.config.provider == Some(TenantOf(PrincipalOf(support)))
    && PredicateTypeOf(support) == FULFILLMENT_RELATION
    && support.result.assertion.FulfillmentRelation?
    && support.result.assertion.resourceType == root.result.assertion.resourceType
    && action.manifests == [Manifest(support.result.assertion.mediaType, root.result.assertion.spec)]
  }

  /** What the scope checks leave of an authorized action. */
  ghost predicate ScopeAdmitted(config: Config, scope: DeliveryScope, p: Principal) {
    && scope.name != ""
    && (scope.action == PUT || scope.action == REMOVE)
    && scope.tenant == config.tenant && scope.target == config.target
    && TenantOf(p) == config.tenant
  }

  /** The authorized action is what the root's assertion asks for, in this agent's scope. */
  lemma ActionIsAsserted(d: Delivery, rootId: string)
    requires PackageEvaluated(d, rootId).1.Ok? && PackageEvaluated(d, rootId).1.value.Act?
    ensures d.env.verify(rootId).Some?
    ensures var action, root := PackageEvaluated(d, rootId).1.value.action, NodeOf(d, rootId);
            var a := root.result.assertion;
            && action.rootEvidence == rootId
            && action.principal == PrincipalOf(root) && action.predicateType == PredicateTypeOf(root)
            && ScopeAdmitted(d.config, action.scope, action.principal)
            && (a.Deployment? || a.ManagedResource?)
            && action.scope == a.scope
            && (a.Deployment? ==> action.predicateType == DEPLOYMENT && action.manifests == a.manifests
                                  && forall m | m in a.manifests :: m.mediaType != "")
            && (a.ManagedResource? ==> action.predicateType == MANAGED_RESOURCE)
  {
    hide PackageEvaluated, RelationVerified;
    RootStarts(d, rootId);
  }
}
