/**
 Every run of deliveries to a target of the provenance suites, enrollments included, and the justification of
 everything the target acts on (poc/provenance-suites/deliveryagent/verifier.go and agent.go,
 poc/provenance-suites/directkey/target.go).
 */
module ProvenanceAgent {
  import opened Common
  import opened Selection
  import opened VerificationSession
  import opened DirectKey
  import opened DeliveryEvaluation
  import EvidenceCatalog
  import Validity

  // ---------------------------------------------------------------- deliveries

  /** A package on its way, with what the log and trusted time say and how far the application is. */
  datatype Arrival = Arrival(pkg: Package, temporal: TemporalOracle, progress: Option<Progress>)

  /** What an item's verification yields is the selection under the agent's bindings, with its validity basis. */
  ghost predicate Answers(config: Config, bindings: Bindings, temporal: TemporalOracle, e: Evidence,
                          answer: Option<(Verdict, seq<string>)>) {
    match answer
    case None => !exists s :: Verifies(config, bindings, temporal, e, s)
    case Some((verdict, basis)) =>
      && Verifies(config, bindings, temporal, e, verdict.selected)
      && AssertionOf(e) == Some(verdict.assertion)
      && Validity.Increasing(basis)
      && forall d :: d in basis <==> ValidityRestsOn(temporal, e, verdict.selected, d)
  }

  /** The delivery that the agent makes of an arrived package. */
  ghost predicate Prepares(config: Config, bindings: Bindings, x: Arrival, d: Delivery) {
    && d.config == config && d.progress == x.progress
    && d.supporting == Ids(config.identity, x.pkg.supporting)
    && exists catalog :: IsCatalog(config.identity, Items(x.pkg), catalog) && Reads(config, bindings, x, catalog, d)
  }

  ghost predicate Reads(config: Config, bindings: Bindings, x: Arrival, catalog: map<string, Evidence>, d: Delivery) {
    && d.findings == FindingsIn(catalog)
    && d.env.items == catalog.Keys
    && forall id | id in catalog :: Answers(config, bindings, x.temporal, catalog[id], d.env.verify(id))
  }

  /** The evaluation of the arrived package ends in this outcome. */
  ghost predicate Yields(config: Config, bindings: Bindings, x: Arrival, outcome: Outcome) {
    exists d :: Prepares(config, bindings, x, d) && PackageEvaluated(d, config.identity(x.pkg.root)).1 == Ok(outcome)
  }

  // ---------------------------------------------------------------- runs

  /** An action, with the arrival it came from and the bindings it was evaluated under. */
  datatype Acted = Acted(action: Action, arrival: Arrival, bindings: Bindings)

  /** The bindings, the enrollment that made each of them, and everything acted on. */
  datatype Agent = Agent(bindings: Bindings, enrolledBy: map<Principal, Evidence>, acted: seq<Acted>)

  const NEW_AGENT := Agent(map[], map[], [])

  ghost predicate Enrolls(config: Config, a: Agent, x: Arrival, b: Agent) {
    var root := x.pkg.root;
    && root.Enrollment?
    && (exists verdict :: Yields(config, a.bindings, x, SuiteEvent(verdict))
                          && verdict.selected.authenticated.principal == root.principal)
    && root.principal !in a.bindings
    && b == a.(bindings := Bind(a.bindings, root.principal, root.publicKey),
       enrolledBy := a.enrolledBy[root.principal := root])
  }

  ghost predicate Acts(config: Config, a: Agent, x: Arrival, b: Agent) {
    exists action ::
      Yields(config, a.bindings, x, Act(action)) && b == a.(acted := a.acted + [Acted(action, x, a.bindings)])
  }

  /**
   One delivery: nothing changes (it was rejected, already complete, fenced off, or an enrollment of the same
   key), or it enrolls a new principal, or the application accepts the action it authorizes.
   */
  ghost predicate Next(config: Config, a: Agent, x: Arrival, b: Agent) {
    b == a || Enrolls(config, a, x, b) || Acts(config, a, x, b)
  }

  ghost predicate IsRun(config: Config, agents: seq<Agent>, arrivals: seq<Arrival>) {
    && |agents| == |arrivals| + 1
    && agents[0] == NEW_AGENT
    && forall i | 0 <= i < |arrivals| :: Follows(config, agents, arrivals, i)
  }

  ghost predicate Follows(config: Config, agents: seq<Agent>, arrivals: seq<Arrival>, i: nat)
    requires i + 1 < |agents| && i < |arrivals|
  {
    Next(config, agents[i], arrivals[i], agents[i + 1])
  }

  // ---------------------------------------------------------------- justification

  /** The statement is signed with the key that its principal enrolled first, in proven possession. */
  ghost predicate SignedByEnrolledKey(a: Agent, e: Evidence) {
    && e.Statement?
    && e.principal in a.bindings
    && e.signature == SignedWith(a.bindings[e.principal], Asserted(e.principal, e.assertion))
    && e.principal in a.enrolledBy
    && a.enrolledBy[e.principal] == Proven(e.principal, a.bindings[e.principal])
  }

  /** An enrollment that proves possession of the key it enrolls. */
  function Proven(p: Principal, key: string): Evidence {
    Enrollment(p, key, SignedWith(key, Possession(p, key)))
  }

  /**
   The first policy for the principal's own predicate and partition, in its only authority, admits direct-key
   evidence.
   */
  ghost predicate PolicyAdmits(trust: Trust, p: Principal, predicateType: string) {
    exists a, i: nat ::
      && IsUniqueAuthority(trust, p.key, a)
      && IsFirstPolicy(a.policies, predicateType, p.partition, i)
      && (a.policies[i].provenance == Required || a.policies[i].provenance == Allowed)
      && DigestOf(Profile(DIRECT_KEY, [])) in a.policies[i].profiles
  }

  ghost predicate Endorsed(config: Config, a: Agent, e: Evidence) {
    SignedByEnrolledKey(a, e) && PolicyAdmits(config.trust, e.principal, PredicateOf(e.assertion))
  }

  /** A statement brings its own identity and what its validity, when it was acted on, rested on. */
  ghost predicate Contributes(config: Config, x: Acted, e: Evidence, d: string) {
    || d == config.identity(e)
    || exists s ::
         Verifies(config, x.bindings, x.arrival.temporal, e, s) && ValidityRestsOn(x.arrival.temporal, e, s, d)
  }

  /** The basis is the sorted union of what the statements bring. */
  ghost predicate RestsOn(config: Config, x: Acted, statements: set<Evidence>) {
    && Validity.Increasing(x.action.basis)
    && forall d :: d in x.action.basis <==> exists e :: e in statements && Contributes(config, x, e, d)
  }

  /** The statement verified, and every cutoff that applied to it held, when it was acted on. */
  ghost predicate Timely(config: Config, x: Acted, e: Evidence) {
    exists s :: Verifies(config, x.bindings, x.arrival.temporal, e, s) && s.policyIndex < |s.authority.policies|
                && TemporallyValid(x.arrival.temporal, e, s.authority.policies[s.policyIndex])
  }

  /** The relation behind a managed resource: the first item that claims its type, endorsed, by the provider tenant. */
  ghost predicate Premise(config: Config, a: Agent, x: Acted, relation: Evidence) {
    && x.arrival.pkg.root.Statement? && x.arrival.pkg.root.assertion.ManagedResource?
    && relation != x.arrival.pkg.root
    && (exists i: nat :: EvidenceCatalog.IsFirstClaim(x.arrival.pkg.supporting, Findings,
       x.arrival.pkg.root.assertion.resourceType, i)
                         && x.arrival.pkg.supporting[i] == relation)
    && Endorsed(config, a, relation) && Timely(config, x, relation)
    && config.provider == Some(TenantOf(relation.principal))
    && relation.assertion.FulfillmentRelation?
    && relation.assertion.resourceType == x.arrival.pkg.root.assertion.resourceType
    && x.action.manifests == [Manifest(relation.assertion.mediaType, x.arrival.pkg.root.assertion.spec)]
    && RestsOn(config, x, {x.arrival.pkg.root, relation})
  }

  ghost predicate Justified(config: Config, a: Agent, x: Acted) {
    var root := x.arrival.pkg.root;
    && Endorsed(config, a, root) && Timely(config, x, root)
    && x.action.rootEvidence == config.identity(root)
    && x.action.principal == root.principal
    && x.action.predicateType == PredicateOf(root.assertion)
    && ScopeAdmitted(config, x.action.scope, root.principal)
    && match root.assertion
       case Deployment(scope, manifests) => scope == x.action.scope && manifests == x.action.manifests
         && RestsOn(config, x, {root})
       case ManagedResource(scope, _, _) => scope == x.action.scope && exists relation ::
         Premise(config, a, x, relation)
       case _ => false
  }

  /** Every binding was made by an enrollment that proved possession of the bound key. */
  ghost predicate BindingsProven(a: Agent) {
    && a.enrolledBy.Keys == a.bindings.Keys
    && forall p | p in a.bindings :: a.enrolledBy[p] == Proven(p, a.bindings[p])
  }

  ghost predicate Inv(config: Config, a: Agent) {
    BindingsProven(a) && forall i | 0 <= i < |a.acted| :: Justified(config, a, a.acted[i])
  }

  /** What no delivery takes back. */
  ghost predicate Extends(a: Agent, b: Agent) {
    && (forall p | p in a.bindings :: p in b.bindings && b.bindings[p] == a.bindings[p])
    && (forall p | p in a.enrolledBy :: p in b.enrolledBy && b.enrolledBy[p] == a.enrolledBy[p])
    && IsPrefix(a.acted, b.acted)
  }

  // ---------------------------------------------------------------- from verification to endorsement

  /** A successful selection with direct-key attempts means an authentic, timely signature under an admitting policy. */
  lemma VerifiedIsAuthentic(config: Config, bindings: Bindings, temporal: TemporalOracle, e: Evidence, s: Selected)
    requires Verifies(config, bindings, temporal, e, s)
    ensures Authentic(bindings, e) && AssertionOf(e).Some?
    ensures s.authenticated.principal == e.principal
              && s.authenticated.predicateType == PredicateOf(AssertionOf(e).value)
    ensures PolicyAdmits(config.trust, e.principal, PredicateOf(AssertionOf(e).value))
    ensures s.policyIndex < |s.authority.policies| && TemporallyValid(temporal, e, s.authority.policies[s.policyIndex])
  {
    var attempts := AttemptsOn(bindings, temporal, e);
    var profiles: seq<Profile>, k: nat :| ChosenProfile(s, profiles, k, DIRECT_KEY, attempts);
    var policy := s.authority.policies[s.policyIndex];
    assert attempts(s.authority, policy, s.profile)
      == TryProfile(bindings, temporal, e, s.authority, policy, s.profile);
    assert s.profile == Profile(DIRECT_KEY, []);
    SelectedByAuthenticated(config.trust, HintsOf(e).value, DIRECT_KEY, attempts, s);
  }

  lemma StatementEndorsed(config: Config, a: Agent, x: Acted, e: Evidence, s: Selected)
    requires BindingsProven(a) && x.bindings == a.bindings
    requires Verifies(config, a.bindings, x.arrival.temporal, e, s) && e.Statement?
    ensures Endorsed(config, a, e) && Timely(config, x, e)
  {
    hide Verifies, TemporallyValid, PolicyAdmits;
    VerifiedIsAuthentic(config, a.bindings, x.arrival.temporal, e, s);
  }

  // ---------------------------------------------------------------- from the session's basis to statements

  /** What an item brings to the basis is what its statement contributes. */
  lemma BringsIsContribution(config: Config, x: Acted, catalog: map<string, Evidence>, d: Delivery, id: string)
    requires IsCatalog(config.identity, Items(x.arrival.pkg), catalog)
               && Reads(config, x.bindings, x.arrival, catalog, d)
    requires id in catalog && d.env.verify(id).Some?
    ensures forall digest :: Brings(d.env, id, digest) <==> Contributes(config, x, catalog[id], digest)
  {
    hide Verifies, ValidityRestsOn;
    var e, temporal := catalog[id], x.arrival.temporal;
    var s := d.env.verify(id).value.0.selected;
    assert Answers(config, x.bindings, temporal, e, d.env.verify(id));
    forall digest
      ensures Brings(d.env, id, digest) <==> Contributes(config, x, e, digest)
    {
      if other :|
          Verifies(config, x.bindings, temporal, e, other) && ValidityRestsOn(temporal, e, other, digest)
      {
        OneSelection(config, x.bindings, temporal, e, s, other);
      }
    }
  }

  lemma OneSelection(config: Config, bindings: Bindings, temporal: TemporalOracle, e: Evidence, s: Selected,
                     t: Selected)
    requires Verifies(config, bindings, temporal, e, s) && Verifies(config, bindings, temporal, e, t)
    ensures s == t
  {
    SelectionUnique(config.trust, HintsOf(e).value, DIRECT_KEY, AttemptsOn(bindings, temporal, e), s, t);
  }

  lemma RestsOnOne(config: Config, x: Acted, catalog: map<string, Evidence>, d: Delivery, root: string)
    requires IsCatalog(config.identity, Items(x.arrival.pkg), catalog)
               && Reads(config, x.bindings, x.arrival, catalog, d)
    requires root in catalog && d.env.verify(root).Some?
    requires IsUnion(d.env, x.action.basis, {root})
    ensures RestsOn(config, x, {catalog[root]})
  {
    hide Contributes, Reads;
    BringsIsContribution(config, x, catalog, d, root);
    forall digest
      ensures digest in x.action.basis <==> exists e :: e in {catalog[root]} && Contributes(config, x, e, digest)
    {
      assert digest in x.action.basis <==> Brings(d.env, root, digest);
    }
  }

  lemma RestsOnTwo(config: Config, x: Acted, catalog: map<string, Evidence>, d: Delivery, root: string, id: string)
    requires IsCatalog(config.identity, Items(x.arrival.pkg), catalog)
               && Reads(config, x.bindings, x.arrival, catalog, d)
    requires root in catalog && d.env.verify(root).Some? && id in catalog && d.env.verify(id).Some?
    requires IsUnion(d.env, x.action.basis, {root, id})
    ensures RestsOn(config, x, {catalog[root], catalog[id]})
  {
    hide Contributes, Reads;
    BringsIsContribution(config, x, catalog, d, root);
    BringsIsContribution(config, x, catalog, d, id);
    var statements := {catalog[root], catalog[id]};
    forall digest
      ensures digest in x.action.basis <==> exists e :: e in statements && Contributes(config, x, e, digest)
    {
      assert digest in x.action.basis <==> Brings(d.env, root, digest) || Brings(d.env, id, digest);
      assert catalog[root] in statements && catalog[id] in statements;
    }
  }

  // ---------------------------------------------------------------- from evaluation to justification

  /** What an evaluated package authorizes is justified. */
  lemma ActionJustified(config: Config, a: Agent, arrival: Arrival, action: Action)
    requires BindingsProven(a) && Yields(config, a.bindings, arrival, Act(action))
    ensures Justified(config, a, Acted(action, arrival, a.bindings))
  {
    hide BindingsProven, Justified, PackageEvaluated, Reads, IsCatalog;
    var d :| Prepares(config, a.bindings, arrival, d)
             && PackageEvaluated(d, config.identity(arrival.pkg.root)).1 == Ok(Act(action));
    var catalog :| IsCatalog(config.identity, Items(arrival.pkg), catalog)
      && Reads(config, a.bindings, arrival, catalog, d);
    EvaluatedJustified(config, a, Acted(action, arrival, a.bindings), catalog, d);
  }

  lemma CatalogRead(config: Config, x: Acted, catalog: map<string, Evidence>, d: Delivery)
    requires IsCatalog(config.identity, Items(x.arrival.pkg), catalog)
               && Reads(config, x.bindings, x.arrival, catalog, d)
    ensures d.env.items == catalog.Keys
    ensures config.identity(x.arrival.pkg.root) in catalog
    ensures catalog[config.identity(x.arrival.pkg.root)] == x.arrival.pkg.root
  {
    assert Items(x.arrival.pkg)[0] == x.arrival.pkg.root;
  }

  lemma EvaluatedJustified(config: Config, a: Agent, x: Acted, catalog: map<string, Evidence>, d: Delivery)
    requires BindingsProven(a) && x.bindings == a.bindings && d.config == config
    requires IsCatalog(config.identity, Items(x.arrival.pkg), catalog)
               && Reads(config, a.bindings, x.arrival, catalog, d)
    requires d.supporting == Ids(config.identity, x.arrival.pkg.supporting)
    requires PackageEvaluated(d, config.identity(x.arrival.pkg.root)).1 == Ok(Act(x.action))
    ensures Justified(config, a, x)
  {
    hide BindingsProven, Endorsed, Timely, RestsOn, PackageEvaluated, Reads, IsUnion, IsCatalog, ScopeAdmitted,
      SessionOk,
         OnlyChosen, PremiseHolds, Premise;
    var rootId := config.identity(x.arrival.pkg.root);
    CatalogRead(config, x, catalog, d);
    ActionIsAsserted(d, rootId);
    var relation := ActionAccounts(d, rootId);
    NodeAnswers(config, a, x, catalog, d, rootId);
    if relation.None? {
      assert {rootId} + {} == {rootId};
      RestsOnOne(config, x, catalog, d, rootId);
    } else {
      assert {rootId} + {relation.value} == {rootId, relation.value};
      RestsOnTwo(config, x, catalog, d, rootId, relation.value);
      PremiseFound(config, a, x, catalog, d, rootId, relation.value);
    }
  }

  /** A verified item of the package is an endorsed, timely statement with the asserted content. */
  lemma NodeAnswers(config: Config, a: Agent, x: Acted, catalog: map<string, Evidence>, d: Delivery, id: string)
    requires BindingsProven(a) && x.bindings == a.bindings && Reads(config, a.bindings, x.arrival, catalog, d)
    requires id in catalog && d.env.verify(id).Some?
    ensures var e, n := catalog[id], NodeOf(d, id);
            && AssertionOf(e) == Some(n.result.assertion)
            && PrincipalOf(n) == e.principal && PredicateTypeOf(n) == PredicateOf(n.result.assertion)
            && (!n.result.assertion.EnrollmentAssertion? ==> Endorsed(config, a, e) && Timely(config, x, e))
  {
    hide Endorsed, Timely, BindingsProven, Verifies;
    var e := catalog[id];
    assert Answers(config, a.bindings, x.arrival.temporal, e, d.env.verify(id));
    var s := d.env.verify(id).value.0.selected;
    VerifiedIsAuthentic(config, a.bindings, x.arrival.temporal, e, s);
    if e.Statement? {
      StatementEndorsed(config, a, x, e, s);
    }
  }

  lemma PremiseFound(config: Config, a: Agent, x: Acted, catalog: map<string, Evidence>, d: Delivery, rootId: string,
                     id: string)
    requires BindingsProven(a) && x.bindings == a.bindings && d.config == config
    requires IsCatalog(config.identity, Items(x.arrival.pkg), catalog)
               && Reads(config, a.bindings, x.arrival, catalog, d)
    requires rootId in catalog && catalog[rootId] == x.arrival.pkg.root && id in catalog && id != rootId
    requires d.env.verify(id).Some? && d.env.verify(rootId).Some?
    requires d.supporting == Ids(config.identity, x.arrival.pkg.supporting)
    requires PremiseHolds(d, NodeOf(d, rootId), NodeOf(d, id), x.action)
    requires RestsOn(config, x, {catalog[rootId], catalog[id]})
    ensures Premise(config, a, x, catalog[id])
  {
    hide Endorsed, Timely, BindingsProven, RestsOn, Reads;
    NodeAnswers(config, a, x, catalog, d, id);
    NodeAnswers(config, a, x, catalog, d, rootId);
    var relation := catalog[id];
    assert config.identity(relation) == id && relation in Items(x.arrival.pkg);
    var i := FirstClaimInPackage(config, x.bindings, x.arrival, catalog, d,
                                 NodeOf(d, rootId).result.assertion.resourceType, id);
  }

  /** The first claiming identity is that of the first claiming item. */
  lemma FirstClaimInPackage(config: Config, bindings: Bindings, x: Arrival, catalog: map<string, Evidence>,
                            d: Delivery, resourceType: string, id: string)
    returns (i: nat)
    requires IsCatalog(config.identity, Items(x.pkg), catalog) && Reads(config, bindings, x, catalog, d)
    requires d.supporting == Ids(config.identity, x.pkg.supporting)
    requires EvidenceCatalog.Scan(d.supporting, d.findings, resourceType) == EvidenceCatalog.Found(id) && id in catalog
    ensures EvidenceCatalog.IsFirstClaim(x.pkg.supporting, Findings, resourceType, i)
    ensures x.pkg.supporting[i] == catalog[id]
  {
    i := EvidenceCatalog.ScanFindsFirst(d.supporting, d.findings, resourceType);
    SupportingRead(config, bindings, x, catalog, d);
  }

  /** A prepared delivery sees every supporting item of its package under its identity. */
  lemma SupportingRead(config: Config, bindings: Bindings, x: Arrival, catalog: map<string, Evidence>, d: Delivery)
    requires IsCatalog(config.identity, Items(x.pkg), catalog) && Reads(config, bindings, x, catalog, d)
    requires d.supporting == Ids(config.identity, x.pkg.supporting)
    ensures forall j | 0 <= j < |d.supporting| ::
              && d.supporting[j] in catalog && catalog[d.supporting[j]] == x.pkg.supporting[j]
              && d.findings(d.supporting[j]) == Findings(x.pkg.supporting[j])
  {
    forall j | 0 <= j < |d.supporting|
      ensures d.supporting[j] in catalog && catalog[d.supporting[j]] == x.pkg.supporting[j]
    {
      assert Items(x.pkg)[j + 1] == x.pkg.supporting[j];
    }
  }

  // ---------------------------------------------------------------- every delivery keeps it

  /** Justifications stay good: no later delivery changes a binding. */
  lemma JustifiedStays(config: Config, a: Agent, b: Agent, x: Acted)
    requires Justified(config, a, x) && Extends(a, b)
    ensures Justified(config, b, x)
  {
    hide RestsOn, Timely, PolicyAdmits;
    if x.arrival.pkg.root.assertion.ManagedResource? {
      var relation :| Premise(config, a, x, relation);
      assert Premise(config, b, x, relation);
    }
  }

  lemma BindKeepsProven(a: Agent, p: Principal, key: string)
    requires BindingsProven(a) && p !in a.bindings
    ensures var b := a.(bindings := Bind(a.bindings, p, key), enrolledBy := a.enrolledBy[p := Proven(p, key)]);
            BindingsProven(b) && Extends(a, b)
  {
  }

  /** An evaluation that ends in a suite event has verified its root. */
  lemma SuiteEventIsVerified(config: Config, bindings: Bindings, x: Arrival, verdict: Verdict)
    requires Yields(config, bindings, x, SuiteEvent(verdict))
    ensures Verifies(config, bindings, x.temporal, x.pkg.root, verdict.selected)
  {
    hide PackageEvaluated, Deployed, Managed, Verifies;
    var d :| Prepares(config, bindings, x, d)
      && PackageEvaluated(d, config.identity(x.pkg.root)).1 == Ok(SuiteEvent(verdict));
    var catalog :| IsCatalog(config.identity, Items(x.pkg), catalog) && Reads(config, bindings, x, catalog, d);
    var rootId := config.identity(x.pkg.root);
    assert Items(x.pkg)[0] == x.pkg.root;
    RootStarts(d, rootId);
    OnlyHandlersAct(d, Entered(NewSession<Verdict>(),
      rootId).value.(memo := map[rootId := Verified(NodeOf(d, rootId))]), NodeOf(d, rootId));
    assert Answers(config, bindings, x.temporal, catalog[rootId], d.env.verify(rootId));
  }

  lemma OnlyHandlersAct(d: Delivery, s: State<Verdict>, root: Node<Verdict>)
    ensures var r := RootEvaluated(d, s, root).1; r.Ok? && r.value.SuiteEvent? ==> r.value.verdict == root.result
  {
    hide RelationVerified;
  }

  lemma EnrollmentKeeps(config: Config, a: Agent, x: Arrival, b: Agent)
    requires BindingsProven(a) && Enrolls(config, a, x, b)
    ensures BindingsProven(b) && Extends(a, b)
  {
    hide Verifies, BindingsProven, Extends, Yields, PolicyAdmits, TemporallyValid;
    var root := x.pkg.root;
    var verdict :| Yields(config, a.bindings, x, SuiteEvent(verdict));
    SuiteEventIsVerified(config, a.bindings, x, verdict);
    VerifiedIsAuthentic(config, a.bindings, x.temporal, root, verdict.selected);
    assert root == Proven(root.principal, root.publicKey);
    BindKeepsProven(a, root.principal, root.publicKey);
  }

  lemma StepKeeps(config: Config, a: Agent, x: Arrival, b: Agent)
    requires Inv(config, a) && Next(config, a, x, b)
    ensures Inv(config, b) && Extends(a, b)
  {
    hide Justified, Yields;
    if Enrolls(config, a, x, b) {
      EnrollmentKeeps(config, a, x, b);
      forall i | 0 <= i < |b.acted|
        ensures Justified(config, b, b.acted[i])
      {
        JustifiedStays(config, a, b, a.acted[i]);
      }
    } else if b != a {
      var action :| Yields(config, a.bindings, x, Act(action))
        && b == a.(acted := a.acted + [Acted(action, x, a.bindings)]);
      ActionJustified(config, a, x, action);
      forall i | 0 <= i < |b.acted|
        ensures Justified(config, b, b.acted[i])
      {
        JustifiedStays(config, a, b, b.acted[i]);
      }
    }
  }

  lemma {:induction false} RunKeeps(config: Config, agents: seq<Agent>, arrivals: seq<Arrival>, i: nat)
    requires IsRun(config, agents, arrivals) && i < |agents|
    ensures Inv(config, agents[i])
  {
    if i > 0 {
      RunKeeps(config, agents, arrivals, i - 1);
      assert Follows(config, agents, arrivals, i - 1);
      StepKeeps(config, agents[i - 1], arrivals[i - 1], agents[i]);
    }
  }

  /** Over any run of deliveries, everything ever acted on is justified by the agent's bindings at any later time. */
  lemma EveryActionJustified(config: Config, agents: seq<Agent>, arrivals: seq<Arrival>, i: nat, k: nat)
    requires IsRun(config, agents, arrivals) && i < |agents| && k < |agents[i].acted|
    ensures Justified(config, agents[i], agents[i].acted[k])
  {
    RunKeeps(config, agents, arrivals, i);
  }

  /** Over any run of deliveries, a principal keeps the key it enrolled first, and no action is forgotten. */
  lemma {:induction false} BindingsNeverChange(config: Config, agents: seq<Agent>, arrivals: seq<Arrival>, i: nat,
                                               j: nat)
    requires IsRun(config, agents, arrivals) && i <= j < |agents|
    ensures Extends(agents[i], agents[j])
    decreases j
  {
    hide Inv, Next;
    if i < j {
      BindingsNeverChange(config, agents, arrivals, i, j - 1);
      RunKeeps(config, agents, arrivals, j - 1);
      assert Follows(config, agents, arrivals, j - 1);
      StepKeeps(config, agents[j - 1], arrivals[j - 1], agents[j]);
      PrefixTransitive(agents[i].acted, agents[j - 1].acted, agents[j].acted);
    }
  }
}
