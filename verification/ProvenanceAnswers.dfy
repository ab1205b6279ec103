/**
 What a target of the provenance suites answers to an arrived package, in terms of the package itself
 (poc/provenance-suites/deliveryagent/verifier.go, predicates.go and agent.go).
 */
module ProvenanceAnswers {
  import opened Common
  import opened Selection
  import opened VerificationSession
  import opened DirectKey
  import opened DeliveryEvaluation
  import opened EvaluationAnswers
  import opened ProvenanceAgent
  import EvidenceCatalog
  import Validity

  // ---------------------------------------------------------------- every package can be prepared

  ghost predicate IsValidityBasis(temporal: TemporalOracle, e: Evidence, s: Selected, basis: seq<string>) {
    Validity.Increasing(basis) && forall d :: d in basis <==> ValidityRestsOn(temporal, e, s, d)
  }

  /** The digests of a statement's validity can be sorted. */
  lemma ValidityBasisExists(temporal: TemporalOracle, e: Evidence, s: Selected)
    requires s.policyIndex < |s.authority.policies| && temporal(e, s.authority.policies[s.policyIndex]).Some?
    ensures exists basis :: IsValidityBasis(temporal, e, s, basis)
  {
    var facts := temporal(e, s.authority.policies[s.policyIndex]).value;
    var cs := facts.established + facts.retired;
    var digests := set c, d | c in cs && d in c.basis && d != "" :: d;
    SortedExists(digests);
    var basis :| IsSorted(basis, digests);
    assert IsValidityBasis(temporal, e, s, basis);
  }

  /** The answer of an item's verification. */
  ghost function AnswerFor(config: Config, bindings: Bindings, temporal: TemporalOracle, e: Evidence)
    : (answer: Option<(Verdict, seq<string>)>)
    ensures Answers(config, bindings, temporal, e, answer)
  {
    if s :| Verifies(config, bindings, temporal, e, s) then
      VerifiedIsAuthentic(config, bindings, temporal, e, s);
      ValidityBasisExists(temporal, e, s);
      var basis :| IsValidityBasis(temporal, e, s, basis);
      Some((Verdict(s, AssertionOf(e).value), basis))
    else None
  }

  lemma {:induction false} CatalogExists(identity: Evidence -> string, es: seq<Evidence>)
    returns (catalog: map<string, Evidence>)
    requires Distinct(Ids(identity, es))
    ensures IsCatalog(identity, es, catalog)
    decreases |es|
  {
    if es == [] {
      catalog := map[];
    } else {
      var last := |es| - 1;
      assert Ids(identity, es[..last]) == Ids(identity, es)[..last];
      var rest := CatalogExists(identity, es[..last]);
      if identity(es[last]) in rest {
        RepeatFound(identity, es, last, rest);
      }
      CatalogGrows(identity, es[..last], rest, es[last]);
      assert es == es[..last] + [es[last]];
      catalog := rest[identity(es[last]) := es[last]];
    }
  }

  /** A package whose items have distinct identities can be prepared. */
  lemma PreparesAny(config: Config, bindings: Bindings, x: Arrival) returns (d: Delivery)
    requires Distinct(Ids(config.identity, Items(x.pkg)))
    ensures Prepares(config, bindings, x, d)
  {
    hide Answers, IsCatalog;
    var catalog := CatalogExists(config.identity, Items(x.pkg));
    var env := Environment(catalog.Keys, (id: string) =>
      if id in catalog then AnswerFor(config, bindings, x.temporal, catalog[id]) else None);
    d := Delivery(config, env, Ids(config.identity, x.pkg.supporting), FindingsIn(catalog), x.progress);
    assert Reads(config, bindings, x, catalog, d);
  }

  // ---------------------------------------------------------------- what a prepared delivery reads

  /** A verified root, with its own selection and assertion. */
  lemma RootRead(config: Config, bindings: Bindings, x: Arrival, s: Selected, d: Delivery)
    requires Prepares(config, bindings, x, d) && Verifies(config, bindings, x.temporal, x.pkg.root, s)
    ensures d.config == config && d.progress == x.progress
    ensures AssertionOf(x.pkg.root).Some?
    ensures var id := config.identity(x.pkg.root);
            && id in d.env.items && d.env.verify(id).Some?
            && NodeOf(d, id).result == Verdict(s, AssertionOf(x.pkg.root).value)
            && PrincipalOf(NodeOf(d, id)) == x.pkg.root.principal
            && PredicateTypeOf(NodeOf(d, id)) == PredicateOf(AssertionOf(x.pkg.root).value)
  {
    hide Verifies, IsUniqueAuthority, IsFirstPolicy, TemporallyValid, PolicyAdmits;
    var catalog :| IsCatalog(config.identity, Items(x.pkg), catalog) && Reads(config, bindings, x, catalog, d);
    assert Items(x.pkg)[0] == x.pkg.root;
    ItemRead(config, bindings, x, s, catalog, d, config.identity(x.pkg.root));
  }

  /** Any verified item of the package, with its own selection and assertion. */
  lemma ItemRead(config: Config, bindings: Bindings, x: Arrival, s: Selected, catalog: map<string, Evidence>,
                 d: Delivery, id: string)
    requires Reads(config, bindings, x, catalog, d) && id in catalog
    requires Verifies(config, bindings, x.temporal, catalog[id], s)
    ensures AssertionOf(catalog[id]).Some? && id in d.env.items && d.env.verify(id).Some?
    ensures NodeOf(d, id).result == Verdict(s, AssertionOf(catalog[id]).value)
    ensures PrincipalOf(NodeOf(d, id)) == catalog[id].principal
    ensures PredicateTypeOf(NodeOf(d, id)) == PredicateOf(AssertionOf(catalog[id]).value)
  {
    hide Verifies, TemporallyValid, PolicyAdmits, ValidityRestsOn;
    assert Answers(config, bindings, x.temporal, catalog[id], d.env.verify(id));
    VerifiedIsAuthentic(config, bindings, x.temporal, catalog[id], s);
    OneSelection(config, bindings, x.temporal, catalog[id], s, d.env.verify(id).value.0.selected);
  }

  // ---------------------------------------------------------------- packages that ask for work

  ghost predicate IsOpen(progress: Option<Progress>, scope: DeliveryScope) {
    progress.None? || progress.value(scope) == Ok(false)
  }

  /** The root is a verified statement that asks for work, and no two items of the package have one identity. */
  ghost predicate WorkVerified(config: Config, bindings: Bindings, x: Arrival, s: Selected) {
    && x.pkg.root.Statement? && (x.pkg.root.assertion.Deployment? || x.pkg.root.assertion.ManagedResource?)
    && Verifies(config, bindings, x.temporal, x.pkg.root, s)
    && Distinct(Ids(config.identity, Items(x.pkg)))
  }

  /** The first item of the package that claims the type is a verified relation of the provider with a media type. */
  ghost predicate RelationAvailable(config: Config, bindings: Bindings, x: Arrival, resourceType: string) {
    exists i: nat, s ::
      && EvidenceCatalog.IsFirstClaim(x.pkg.supporting, Findings, resourceType, i)
      && Verifies(config, bindings, x.temporal, x.pkg.supporting[i], s)
      && config.provider == Some(TenantOf(x.pkg.supporting[i].principal))
      && x.pkg.supporting[i].assertion.mediaType != ""
  }

  ghost predicate Supported(config: Config, bindings: Bindings, x: Arrival)
    requires x.pkg.root.Statement? && (x.pkg.root.assertion.Deployment? || x.pkg.root.assertion.ManagedResource?)
  {
    match x.pkg.root.assertion
    case Deployment(_, manifests) => forall m | m in manifests :: m.mediaType != ""
    case ManagedResource(_, resourceType, _) => RelationAvailable(config, bindings, x, resourceType)
  }

  lemma RelationRead(config: Config, bindings: Bindings, x: Arrival, s: Selected, d: Delivery)
    requires WorkVerified(config, bindings, x, s) && x.pkg.root.assertion.ManagedResource?
    requires Prepares(config, bindings, x, d)
    ensures var id, resourceType := config.identity(x.pkg.root), x.pkg.root.assertion.resourceType;
            (exists relation :: RelationStands(d, id, resourceType, relation)) <==>
            RelationAvailable(config, bindings, x, resourceType)
  {
    hide Verifies, IsCatalog, Reads, RelationStands, Distinct;
    var id, resourceType := config.identity(x.pkg.root), x.pkg.root.assertion.resourceType;
    var catalog :| IsCatalog(config.identity, Items(x.pkg), catalog) && Reads(config, bindings, x, catalog, d);
    if relation :| RelationStands(d, id, resourceType, relation) {
      RelationFound(config, bindings, x, catalog, d, id, resourceType, relation);
    }
    if i: nat, t :|
      && EvidenceCatalog.IsFirstClaim(x.pkg.supporting, Findings, resourceType, i)
      && Verifies(config, bindings, x.temporal, x.pkg.supporting[i], t)
      && config.provider == Some(TenantOf(x.pkg.supporting[i].principal))
      && x.pkg.supporting[i].assertion.mediaType != ""
    {
      RelationKept(config, bindings, x, catalog, d, resourceType, i, t);
    }
  }

  lemma RelationFound(config: Config, bindings: Bindings, x: Arrival, catalog: map<string, Evidence>, d: Delivery,
                      id: string, resourceType: string, relation: string)
    requires IsCatalog(config.identity, Items(x.pkg), catalog) && Reads(config, bindings, x, catalog, d)
    requires d.config == config && d.supporting == Ids(config.identity, x.pkg.supporting)
    requires RelationStands(d, id, resourceType, relation)
    ensures RelationAvailable(config, bindings, x, resourceType)
  {
    hide Verifies, TemporallyValid, PolicyAdmits, IsCatalog;
    var i := FirstClaimInPackage(config, bindings, x, catalog, d, resourceType, relation);
    var e, t := x.pkg.supporting[i], NodeOf(d, relation).result.selected;
    assert Answers(config, bindings, x.temporal, e, d.env.verify(relation));
    VerifiedIsAuthentic(config, bindings, x.temporal, e, t);
  }

  lemma RootInCatalog(config: Config, x: Arrival, catalog: map<string, Evidence>)
    requires IsCatalog(config.identity, Items(x.pkg), catalog)
    ensures config.identity(x.pkg.root) in catalog && catalog[config.identity(x.pkg.root)] == x.pkg.root
  {
    assert Items(x.pkg)[0] == x.pkg.root;
  }

  lemma RelationKept(config: Config, bindings: Bindings, x: Arrival, catalog: map<string, Evidence>, d: Delivery,
                     resourceType: string, i: nat, t: Selected)
    requires IsCatalog(config.identity, Items(x.pkg), catalog) && Reads(config, bindings, x, catalog, d)
    requires d.config == config && d.supporting == Ids(config.identity, x.pkg.supporting)
    requires x.pkg.root.Statement? && x.pkg.root.assertion.ManagedResource?
    requires EvidenceCatalog.IsFirstClaim(x.pkg.supporting, Findings, resourceType, i)
    requires Verifies(config, bindings, x.temporal, x.pkg.supporting[i], t)
    requires config.provider == Some(TenantOf(x.pkg.supporting[i].principal))
    requires x.pkg.supporting[i].assertion.mediaType != ""
    ensures RelationStands(d, config.identity(x.pkg.root), resourceType, d.supporting[i])
  {
    hide Verifies, Reads, IsCatalog;
    SupportingRead(config, bindings, x, catalog, d);
    EvidenceCatalog.ScanIsExact(d.supporting, d.findings, resourceType);
    assert EvidenceCatalog.IsFirstClaim(d.supporting, d.findings, resourceType, i);
    ItemRead(config, bindings, x, t, catalog, d, d.supporting[i]);
    RootInCatalog(config, x, catalog);
  }

  ghost predicate AnsweredBy(config: Config, bindings: Bindings, x: Arrival, r: Result<Outcome, Error>)
    requires x.pkg.root.Statement? && (x.pkg.root.assertion.Deployment? || x.pkg.root.assertion.ManagedResource?)
  {
    var scope := x.pkg.root.assertion.scope;
    if !InScope(config, scope, x.pkg.root.principal) then r.Err?
    else if IsOpen(x.progress, scope) then
      if Supported(config, bindings, x) then r.Ok? && r.value.Act? else r.Err?
    else if x.progress.value(scope) == Ok(true) then r == Ok(Completed)
    else x.progress.value(scope).Err? && r == Err(x.progress.value(scope).error)
  }

  /** What one prepared delivery is answered. */
  lemma PreparedAnswers(config: Config, bindings: Bindings, x: Arrival, s: Selected, d: Delivery)
    requires WorkVerified(config, bindings, x, s) && Prepares(config, bindings, x, d)
    ensures AnsweredBy(config, bindings, x, PackageEvaluated(d, config.identity(x.pkg.root)).1)
  {
    hide Verifies, PackageEvaluated, Prepares, InScope, RelationAvailable, RelationStands;
    var id := config.identity(x.pkg.root);
    RootRead(config, bindings, x, s, d);
    WorkAnswers(d, id);
    if !InScope(config, x.pkg.root.assertion.scope, x.pkg.root.principal) {
      OutOfScopeFails(d, id);
    }
    if x.pkg.root.assertion.ManagedResource? {
      RelationRead(config, bindings, x, s, d);
    }
    if x.progress.Some? {
      ThreeAnswers(x.progress.value(x.pkg.root.assertion.scope));
    }
  }

  lemma ThreeAnswers(answer: Result<bool, Error>)
    ensures answer.Err? || answer == Ok(true) || answer == Ok(false)
  {
    assert answer.Ok? ==> answer.value == true || answer.value == false;
  }

  lemma OutOfScopeFails(d: Delivery, id: string)
    requires AsksForWork(d, id)
    requires !InScope(d.config, NodeOf(d, id).result.assertion.scope, PrincipalOf(NodeOf(d, id)))
    ensures PackageEvaluated(d, id).1.Err?
  {
    WorkAnswers(d, id);
  }

  /**
   What an arrived package that asks for work ends in, for every package, whatever the application says of its
   progress. In scope it is complete exactly when the application says so, and an action is authorized exactly when
   the work is open and supported; out of scope, or where the application has an error, it ends in nothing.
   */
  lemma WorkYields(config: Config, bindings: Bindings, x: Arrival, s: Selected)
    requires WorkVerified(config, bindings, x, s)
    ensures var scope := x.pkg.root.assertion.scope;
            var mine := InScope(config, scope, x.pkg.root.principal);
            && (Yields(config, bindings, x, Completed) <==>
                  mine && x.progress.Some? && x.progress.value(scope) == Ok(true))
            && ((exists action :: Yields(config, bindings, x, Act(action))) <==>
                  mine && IsOpen(x.progress, scope) && Supported(config, bindings, x))
            && (forall verdict :: !Yields(config, bindings, x, SuiteEvent(verdict)))
  {
    hide Verifies, Prepares, PackageEvaluated, InScope, Supported;
    forall d | Prepares(config, bindings, x, d)
      ensures AnsweredBy(config, bindings, x, PackageEvaluated(d, config.identity(x.pkg.root)).1)
    {
      PreparedAnswers(config, bindings, x, s, d);
    }
    var d := PreparesAny(config, bindings, x);
    var r := PackageEvaluated(d, config.identity(x.pkg.root)).1;
    if r.Ok? && r.value.Act? {
      assert Yields(config, bindings, x, Act(r.value.action));
    }
  }

  /** A verified enrollment is handed to its profile. */
  lemma EnrollmentYields(config: Config, bindings: Bindings, x: Arrival, s: Selected)
    requires x.pkg.root.Enrollment? && Distinct(Ids(config.identity, Items(x.pkg)))
    requires Verifies(config, bindings, x.temporal, x.pkg.root, s)
    ensures Yields(config, bindings, x, SuiteEvent(Verdict(s, AssertionOf(x.pkg.root).value)))
  {
    hide Verifies, Prepares, PackageEvaluated;
    var d := PreparesAny(config, bindings, x);
    RootRead(config, bindings, x, s, d);
    PredicatesDiffer();
    OtherAnswers(d, config.identity(x.pkg.root));
  }

  // ---------------------------------------------------------------- a run that acts

  const SAMPLE_KEY := Key("scheme", "authority")
  const SAMPLE_USER := Principal(SAMPLE_KEY, "tenant", "user")
  const SAMPLE_PROFILE := Profile(DIRECT_KEY, [])
  const SAMPLE_AUTHORITY := Authority(SAMPLE_KEY, [SAMPLE_PROFILE],
                                      [Policy(Match(ENROLLMENT, None), false, Required, [DigestOf(SAMPLE_PROFILE)]),
                                       Policy(Match(DEPLOYMENT, None), false, Required, [DigestOf(SAMPLE_PROFILE)])])
  const SAMPLE_CONFIG := Config(e => "digest", TenantOf(SAMPLE_USER), "target", None, [SAMPLE_AUTHORITY])
  const SAMPLE_SCOPE := DeliveryScope(TenantOf(SAMPLE_USER), "target", "//service/resources/r", 1, PUT)
  const SAMPLE_ENROLLMENT := Proven(SAMPLE_USER, "key")
  const SAMPLE_STATEMENT :=
    Statement(SAMPLE_USER, Deployment(SAMPLE_SCOPE, []),
      SignedWith("key", Asserted(SAMPLE_USER, Deployment(SAMPLE_SCOPE, []))))
  const SAMPLE_FACTS: TemporalOracle := (e, policy: Policy) =>
    if policy.requireLog then None else Some(TemporalFacts(Validity.Subject(None, []), [], []))

  function SampleSelection(index: nat): Selected {
    Selected(SAMPLE_AUTHORITY, index, SAMPLE_PROFILE,
             Authenticated(SAMPLE_USER, if index == 0 then ENROLLMENT else DEPLOYMENT, DIRECT_KEY, SAMPLE_AUTHORITY,
                           DigestOf(SAMPLE_PROFILE)))
  }

  lemma Unconstrained(e: Evidence, policy: Policy)
    requires !policy.requireLog
    ensures TemporallyValid(SAMPLE_FACTS, e, policy)
  {
    assert Validity.InDomain([] + [], "");
  }

  /** The sample evidence verifies: the enrollment always, the statement once its key is bound. */
  lemma SampleVerifies(bindings: Bindings, e: Evidence, index: nat)
    requires (e == SAMPLE_ENROLLMENT && index == 0) || (e == SAMPLE_STATEMENT && index == 1)
    requires Authentic(bindings, e)
    ensures Verifies(SAMPLE_CONFIG, bindings, SAMPLE_FACTS, e, SampleSelection(index))
  {
    var a, s, attempts := SAMPLE_AUTHORITY, SampleSelection(index), AttemptsOn(bindings, SAMPLE_FACTS, e);
    var policy := a.policies[index];
    Unconstrained(e, policy);
    assert ENROLLMENT[1] != DEPLOYMENT[1];
    assert attempts(a, policy, SAMPLE_PROFILE) == TryProfile(bindings, SAMPLE_FACTS, e, a, policy, SAMPLE_PROFILE);
    assert ResolvesTo(a, policy.profiles[0], SAMPLE_PROFILE);
    assert ResolveAll(a, policy.profiles, [SAMPLE_PROFILE]);
    assert ChosenProfile(s, [SAMPLE_PROFILE], 0, DIRECT_KEY, attempts);
  }

  /** There is a run with an action: one user enrolls a key and deploys with it. */
  lemma SomeRunActs(progress: Option<Progress>) returns (agents: seq<Agent>, arrivals: seq<Arrival>)
    requires IsOpen(progress, SAMPLE_SCOPE)
    ensures IsRun(SAMPLE_CONFIG, agents, arrivals)
    ensures |agents| == 3 && agents[1].acted == [] && |agents[2].acted| == 1
    ensures forall i | 0 <= i < |arrivals| :: arrivals[i].temporal == SAMPLE_FACTS && arrivals[i].progress == progress
  {
    hide Verifies, Yields, InScope;
    var first := Arrival(Package(SAMPLE_ENROLLMENT, []), SAMPLE_FACTS, progress);
    var second := Arrival(Package(SAMPLE_STATEMENT, []), SAMPLE_FACTS, progress);
    var bound := Agent(map[SAMPLE_USER := "key"], map[SAMPLE_USER := SAMPLE_ENROLLMENT], []);
    SampleVerifies(map[], SAMPLE_ENROLLMENT, 0);
    assert Items(first.pkg) == [SAMPLE_ENROLLMENT] && Items(second.pkg) == [SAMPLE_STATEMENT];
    EnrollmentYields(SAMPLE_CONFIG, map[], first, SampleSelection(0));
    assert Enrolls(SAMPLE_CONFIG, NEW_AGENT, first, bound);
    SampleVerifies(bound.bindings, SAMPLE_STATEMENT, 1);
    SampleInScope();
    WorkYields(SAMPLE_CONFIG, bound.bindings, second, SampleSelection(1));
    var action :| Yields(SAMPLE_CONFIG, bound.bindings, second, Act(action));
    var done := bound.(acted := [Acted(action, second, bound.bindings)]);
    assert bound.acted + [Acted(action, second, bound.bindings)] == done.acted;
    agents, arrivals := [NEW_AGENT, bound, done], [first, second];
    assert Acts(SAMPLE_CONFIG, bound, second, done);
    assert Follows(SAMPLE_CONFIG, agents, arrivals, 0) && Follows(SAMPLE_CONFIG, agents, arrivals, 1);
  }

  lemma SampleInScope()
    ensures InScope(SAMPLE_CONFIG, SAMPLE_SCOPE, SAMPLE_USER)
  {
  }
}
