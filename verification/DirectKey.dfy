/**
 Evidence of the direct-key profile: enrollment of public keys, statements signed with them, and their
 verification under a trust configuration (poc/provenance-suites/directkey/target.go).
 */
module DirectKey {
  import opened Common
  import opened Selection
  import Validity

  const DIRECT_KEY := "direct-key/v1"
  const ENROLLMENT := "direct-key/enrollment/v1"
  const DEPLOYMENT := "deployment/v1"
  const MANAGED_RESOURCE := "managed-resource/v1"
  const FULFILLMENT_RELATION := "fulfillment-relation/v1"
  const TRUST_CONFIG_UPDATE := "trust-config-update/v1"
  const PUT := "put"
  const REMOVE := "remove"

  datatype Tenant = Tenant(key: Key, partition: string)

  function TenantOf(p: Principal): Tenant {
    Tenant(p.key, p.partition)
  }

  datatype DeliveryScope = DeliveryScope(tenant: Tenant, target: string, name: string, generation: Uint64,
                                         action: string)
  datatype Manifest = Manifest(mediaType: string, bytes: seq<int>)

  /** A purpose-typed assertion, decoded; anything that does not decode keeps only its predicate type. */
  datatype Assertion =
    | EnrollmentAssertion(principal: Principal, publicKey: string)
    | Deployment(scope: DeliveryScope, manifests: seq<Manifest>)
    | ManagedResource(scope: DeliveryScope, resourceType: string, spec: seq<int>)
    | FulfillmentRelation(resourceType: string, mediaType: string)
    | Undecodable(predicateType: string, bytes: seq<int>)

  function PredicateOf(a: Assertion): string {
    match a
    case EnrollmentAssertion(_, _) => ENROLLMENT
    case Deployment(_, _) => DEPLOYMENT
    case ManagedResource(_, _, _) => MANAGED_RESOURCE
    case FulfillmentRelation(_, _) => FULFILLMENT_RELATION
    case Undecodable(t, _) => t
  }

  /** What a signature is over; the purpose is part of the signed material. */
  datatype Material =
    | Possession(principal: Principal, publicKey: string)
    | Asserted(principal: Principal, assertion: Assertion)
  datatype Signature = SignedWith(key: string, material: Material) | Garbage(bytes: seq<int>)

  datatype Evidence =
    | Enrollment(principal: Principal, publicKey: string, proof: Signature)
    | Statement(principal: Principal, assertion: Assertion, signature: Signature)
    | Unparsable(bytes: seq<int>)
    | Foreign(provenanceType: string, bytes: seq<int>)

  datatype Package = Package(root: Evidence, supporting: seq<Evidence>)

  /** `identity` is the digest of an evidence envelope. */
  datatype Config = Config(identity: Evidence -> string, tenant: Tenant, target: string, provider: Option<Tenant>,
                           trust: Trust)

  /** What the log and trusted time say about a statement, and the cutoffs that its profile authenticated. */
  datatype TemporalFacts = TemporalFacts(subject: Validity.Subject, established: seq<Validity.Constraint>,
                                         retired: seq<Validity.Constraint>)

  /** `None` when the occurrence or a timestamp does not verify. Direct keys authenticate no cutoffs. */
  type TemporalOracle = (Evidence, Policy) -> Option<TemporalFacts>

  // ---------------------------------------------------------------- direct-key authentication

  type Bindings = map<Principal, string>

  function AssertionOf(e: Evidence): Option<Assertion> {
    match e
    case Enrollment(p, k, _) => Some(EnrollmentAssertion(p, k))
    case Statement(_, a, _) => Some(a)
    case _ => None
  }

  function HintsOf(e: Evidence): Option<Hints> {
    match AssertionOf(e)
    case None => None
    case Some(a) => if PredicateOf(a) == "" then None
      else Some(Hints(e.principal.key, e.principal.partition, e.principal.subject, PredicateOf(a)))
  }

  /** The evidence carries a signature by the key it has to be checked against. */
  predicate Authentic(bindings: Bindings, e: Evidence) {
    match e
    case Enrollment(p, k, proof) => proof == SignedWith(k, Possession(p, k))
    case Statement(p, a, signature) => p in bindings && signature == SignedWith(bindings[p], Asserted(p, a))
    case _ => false
  }

  ghost predicate TemporallyValid(temporal: TemporalOracle, e: Evidence, policy: Policy) {
    && temporal(e, policy).Some?
    && var facts := temporal(e, policy).value;
       Validity.EveryConstraintHolds(facts.subject, facts.established, facts.retired)
  }

  ghost function TryProfile(bindings: Bindings, temporal: TemporalOracle, e: Evidence, a: Authority, policy: Policy,
                            p: Profile): Attempt {
    if p.provenanceType != DIRECT_KEY || p.parameters != [] then AttemptFailed
    else if !Authentic(bindings, e) || a.key != e.principal.key || !TemporallyValid(temporal, e, policy)
      then AttemptFailed
    else Succeeded(Authenticated(e.principal, PredicateOf(AssertionOf(e).value), DIRECT_KEY, a, DigestOf(p)))
  }

  ghost function AttemptsOn(bindings: Bindings, temporal: TemporalOracle, e: Evidence): Attempts {
    (a, policy, p) => TryProfile(bindings, temporal, e, a, policy, p)
  }

  /** The evidence was selected and verified under the configured trust. */
  ghost predicate Verifies(config: Config, bindings: Bindings, temporal: TemporalOracle, e: Evidence, s: Selected) {
    HintsOf(e).Some? && IsSelection(config.trust, HintsOf(e).value, DIRECT_KEY, AttemptsOn(bindings, temporal, e), s)
  }

  /** The digests that the validity of a verified statement rests on. */
  ghost predicate ValidityRestsOn(temporal: TemporalOracle, e: Evidence, s: Selected, d: string) {
    && s.policyIndex < |s.authority.policies|
    && var facts := temporal(e, s.authority.policies[s.policyIndex]);
       facts.Some? && Validity.InBasis(d, facts.value.established + facts.value.retired)
  }

  class Target {
    var bindings: Bindings

    constructor ()
      ensures bindings == map[]
    {
      bindings := map[];
    }

    /** The first binding of a principal wins; repeating it is accepted and replacing it is not. */
    method ApplyEnrollment(e: Evidence, authenticated: Principal) returns (ok: bool)
      modifies this
      ensures ok <==> e.Enrollment? && e.principal == authenticated && Binds(old(bindings), e.principal, e.publicKey)
      ensures ok <==>
                && e.Enrollment? && e.principal == authenticated
                && (e.principal in old(bindings) ==> old(bindings)[e.principal] == e.publicKey)
      ensures ok ==> bindings == old(bindings)[e.principal := e.publicKey]
      ensures bindings == if ok then Bind(old(bindings), e.principal, e.publicKey) else old(bindings)
      ensures forall p | p in old(bindings) :: p in bindings && bindings[p] == old(bindings)[p]
    {
      if !e.Enrollment? || e.principal != authenticated {
        return false;
      }
      if e.principal in bindings {
        return bindings[e.principal] == e.publicKey;
      }
      bindings := bindings[e.principal := e.publicKey];
      return true;
    }
  }

  predicate Binds(bindings: Bindings, p: Principal, key: string) {
    p in bindings ==> bindings[p] == key
  }

  function Bind(bindings: Bindings, p: Principal, key: string): Bindings {
    if p in bindings then bindings else bindings[p := key]
  }
}
