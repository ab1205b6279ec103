/**
 Trust configuration and ordered policy selection with re-evaluation after authentication
 (poc/provenance-suites/protocol/trust.go and selection.go).
 */
module Selection {
  import opened Common

  datatype Key = Key(scheme: string, authority: string)
  datatype Principal = Principal(key: Key, partition: string, subject: string)

  datatype Profile = Profile(provenanceType: string, parameters: seq<int>)

  /** A configuration digest: the digest of a profile, or text that is no profile's digest. */
  datatype ProfileDigest = DigestOf(profile: Profile) | OtherDigest(text: string)

  datatype Requirement = NoProvenance | Allowed | Required | UnknownRequirement
  datatype Match = Match(predicateType: string, partition: Option<string>)
  datatype Policy = Policy(applies: Match, requireLog: bool, provenance: Requirement, profiles: seq<ProfileDigest>)
  datatype Authority = Authority(key: Key, profiles: seq<Profile>, policies: seq<Policy>)

  type Trust = seq<Authority>

  datatype Hints = Hints(key: Key, partition: string, subject: string, predicateType: string)

  datatype Authenticated = Authenticated(principal: Principal, predicateType: string, provenanceType: string,
                                         authority: Authority, profile: ProfileDigest)

  /** One profile attempt: it fails, exceeds a work limit, or authenticates. */
  datatype Attempt = AttemptFailed | LimitExceeded | Succeeded(authenticated: Authenticated)

  type Attempts = (Authority, Policy, Profile) -> Attempt

  /**
   An item as it arrives: its two types, the provenance type that the installed verifier for it reports, if
   there is one, and the hints that parsing yields.
   */
  datatype Item = Item(provenanceType: string, mediaType: string, installed: Option<string>, hints: Option<Hints>)

  /** Nothing about the item's form keeps selection from starting. */
  predicate Presentable(item: Item) {
    && item.provenanceType != "" && item.mediaType != ""
    && item.installed == Some(item.provenanceType)
    && item.hints.Some? && item.hints.value.predicateType != ""
  }

  datatype SelectionError =
    | MalformedEvidence
    | UnknownProvenanceType
    | UnknownAuthority
    | NoMatchingPolicy
    | InvalidConfiguration
    | WorkLimit
    | Reevaluation
    | NoSuccessfulProfile

  datatype Selected = Selected(authority: Authority, policyIndex: nat, profile: Profile, authenticated: Authenticated)

  // ---------------------------------------------------------------- meanings

  predicate Matches(m: Match, predicateType: string, partition: string) {
    m.predicateType == predicateType && (m.partition == None || m.partition == Some(partition))
  }

  /** Exactly one entry of the registry has the key. */
  ghost predicate IsUniqueAuthority(trust: Trust, key: Key, a: Authority) {
    && a in trust && a.key == key
    && forall i, j | 0 <= i < j < |trust| :: !(trust[i].key == key && trust[j].key == key)
  }

  /** The first policy that applies; earlier ones, however specific, do not. */
  ghost predicate IsFirstPolicy(policies: seq<Policy>, predicateType: string, partition: string, index: nat) {
    && index < |policies|
    && Matches(policies[index].applies, predicateType, partition)
    && forall i | 0 <= i < index :: !Matches(policies[i].applies, predicateType, partition)
  }

  ghost predicate Distinct<T(!new)>(s: seq<T>) {
    forall i, j | 0 <= i < j < |s| :: s[i] != s[j]
  }

  /** The reference is the digest of exactly one configured profile. */
  ghost predicate ResolvesTo(a: Authority, reference: ProfileDigest, p: Profile) {
    && reference == DigestOf(p) && p in a.profiles
    && forall i, j | 0 <= i < j < |a.profiles| :: !(a.profiles[i] == p && a.profiles[j] == p)
  }

  ghost predicate ResolveAll(a: Authority, references: seq<ProfileDigest>, profiles: seq<Profile>) {
    && Distinct(references)
    && |profiles| == |references|
    && forall k | 0 <= k < |profiles| :: ResolvesTo(a, references[k], profiles[k])
  }

  /** The first profile of the evidence's type whose attempt did not simply fail. */
  ghost predicate IsFirstAttempt(a: Authority, policy: Policy, profiles: seq<Profile>, provenanceType: string,
                                 attempts: Attempts, k: nat) {
    && k < |profiles|
    && profiles[k].provenanceType == provenanceType
    && attempts(a, policy, profiles[k]) != AttemptFailed
    && forall j | 0 <= j < k && profiles[j].provenanceType == provenanceType ::
       attempts(a, policy, profiles[j]) == AttemptFailed
  }

  /** What authentication must confirm about the hints that led to it. */
  ghost predicate Confirms(hints: Hints, a: Authority, index: nat, p: Profile, auth: Authenticated) {
    && auth.provenanceType != "" && auth.provenanceType == p.provenanceType
    && auth.predicateType == hints.predicateType
    && IsFirstPolicy(a.policies, auth.predicateType, auth.principal.partition, index)
    && auth.principal.key == hints.key
    && (hints.partition != "" ==> auth.principal.partition == hints.partition)
    && (hints.subject != "" ==> auth.principal.subject == hints.subject)
    && auth.authority == a
    && auth.profile == DigestOf(p)
  }

  /** A selection, said without any order of evaluation. */
  ghost predicate IsSelection(trust: Trust, hints: Hints, provenanceType: string, attempts: Attempts, s: Selected) {
    && IsUniqueAuthority(trust, hints.key, s.authority)
    && IsFirstPolicy(s.authority.policies, hints.predicateType, hints.partition, s.policyIndex)
    && (s.authority.policies[s.policyIndex].provenance == Required
       || s.authority.policies[s.policyIndex].provenance == Allowed)
    && exists profiles, k :: ChosenProfile(s, profiles, k, provenanceType, attempts)
         && Confirms(hints, s.authority, s.policyIndex, s.profile, s.authenticated)
  }

  ghost predicate ChosenProfile(s: Selected, profiles: seq<Profile>, k: nat, provenanceType: string,
                                attempts: Attempts) {
    && s.policyIndex < |s.authority.policies|
    && var policy := s.authority.policies[s.policyIndex];
    && ResolveAll(s.authority, policy.profiles, profiles)
    && IsFirstAttempt(s.authority, policy, profiles, provenanceType, attempts, k)
    && s.profile == profiles[k]
    && attempts(s.authority, policy, s.profile) == Succeeded(s.authenticated)
  }

  // ---------------------------------------------------------------- the loops

  method FindAuthority(trust: Trust, key: Key) returns (r: Option<Authority>)
    ensures r.Some? ==> IsUniqueAuthority(trust, key, r.value)
    ensures r.None? ==> !exists a :: IsUniqueAuthority(trust, key, a)
  {
    r := None;
    ghost var at := 0;
    for i := 0 to |trust|
      invariant r.Some? ==> 0 <= at < i && trust[at] == r.value && r.value.key == key
      invariant forall j | 0 <= j < i && trust[j].key == key :: r.Some? && j == at
    {
      if trust[i].key == key {
        if r.Some? {
          assert trust[at].key == key && trust[i].key == key;
          return None;
        }
        r, at := Some(trust[i]), i;
      }
    }
  }

  method FindProfile(a: Authority, reference: ProfileDigest) returns (r: Option<Profile>)
    ensures r.Some? ==> ResolvesTo(a, reference, r.value)
    ensures r.None? ==> !exists p :: ResolvesTo(a, reference, p)
  {
    r := None;
    ghost var at := 0;
    for i := 0 to |a.profiles|
      invariant r.Some? ==> 0 <= at < i && a.profiles[at] == r.value && DigestOf(r.value) == reference
      invariant forall j | 0 <= j < i && DigestOf(a.profiles[j]) == reference :: r.Some? && j == at
    {
      if DigestOf(a.profiles[i]) == reference {
        if r.Some? {
          assert a.profiles[at] == a.profiles[i];
          return None;
        }
        r, at := Some(a.profiles[i]), i;
      }
    }
    assert r.None? ==> forall j | 0 <= j < |a.profiles| :: DigestOf(a.profiles[j]) != reference;
  }

  method ResolveProfiles(a: Authority, references: seq<ProfileDigest>) returns (r: Option<seq<Profile>>)
    ensures r.Some? ==> ResolveAll(a, references, r.value)
    ensures r.None? ==> !exists profiles :: ResolveAll(a, references, profiles)
  {
    var out := [];
    var seen := {};
    for i := 0 to |references|
      invariant ResolveAll(a, references[..i], out)
      invariant forall x :: x in seen <==> x in references[..i]
    {
      if references[i] in seen {
        assert references[i] in references[..i];
        return None;
      }
      seen := seen + {references[i]};
      var p := FindProfile(a, references[i]);
      if p.None? {
        AllResolve(a, references, i);
        return None;
      }
      out := out + [p.value];
      assert references[..i + 1] == references[..i] + [references[i]];
    }
    assert references[..|references|] == references;
    return Some(out);
  }

  lemma AllResolve(a: Authority, references: seq<ProfileDigest>, i: nat)
    requires i < |references|
    ensures forall profiles | ResolveAll(a, references, profiles) ::
              i < |profiles| && ResolvesTo(a, references[i], profiles[i])
  {
  }

  method MatchPolicy(policies: seq<Policy>, predicateType: string, partition: string) returns (r: Option<nat>)
    ensures r.Some? ==> IsFirstPolicy(policies, predicateType, partition, r.value)
    ensures r.None? ==> !exists i :: IsFirstPolicy(policies, predicateType, partition, i)
  {
    for i := 0 to |policies|
      invariant forall j | 0 <= j < i :: !Matches(policies[j].applies, predicateType, partition)
    {
      if Matches(policies[i].applies, predicateType, partition) {
        return Some(i);
      }
    }
    return None;
  }

  method Reevaluate(hints: Hints, a: Authority, index: nat, p: Profile, auth: Authenticated) returns (ok: bool)
    ensures ok <==> Confirms(hints, a, index, p, auth)
  {
    if auth.provenanceType == "" || auth.provenanceType != p.provenanceType
      || auth.predicateType != hints.predicateType {
      return false;
    }
    var again := MatchPolicy(a.policies, auth.predicateType, auth.principal.partition);
    if again != Some(index) {
      if again.Some? { FirstPolicyUnique(a.policies, auth.predicateType, auth.principal.partition, again.value); }
      return false;
    }
    return && auth.principal.key == hints.key
           && (hints.partition == "" || auth.principal.partition == hints.partition)
           && (hints.subject == "" || auth.principal.subject == hints.subject)
           && auth.authority == a
           && auth.profile == DigestOf(p);
  }

  lemma FirstPolicyUnique(policies: seq<Policy>, predicateType: string, partition: string, i: nat)
    requires IsFirstPolicy(policies, predicateType, partition, i)
    ensures forall j: nat | IsFirstPolicy(policies, predicateType, partition, j) :: i == j
  {
    forall j: nat | IsFirstPolicy(policies, predicateType, partition, j)
      ensures i == j
    {
      assert Matches(policies[i].applies, predicateType, partition)
        && Matches(policies[j].applies, predicateType, partition);
    }
  }

  /** Tries profiles in order; `None` when every one of the evidence's type fails. */
  method FirstAttempt(a: Authority, policy: Policy, profiles: seq<Profile>, provenanceType: string, attempts: Attempts)
    returns (r: Option<nat>)
    ensures r.Some? ==> IsFirstAttempt(a, policy, profiles, provenanceType, attempts, r.value)
    ensures r.None? ==> !exists k :: IsFirstAttempt(a, policy, profiles, provenanceType, attempts, k)
  {
    for i := 0 to |profiles|
      invariant forall j | 0 <= j < i && profiles[j].provenanceType == provenanceType ::
                  attempts(a, policy, profiles[j]) == AttemptFailed
    {
      if profiles[i].provenanceType == provenanceType && attempts(a, policy, profiles[i]) != AttemptFailed {
        return Some(i);
      }
    }
    return None;
  }

  // ---------------------------------------------------------------- determinism of the meaning

  lemma AuthorityUnique(trust: Trust, key: Key, a: Authority, b: Authority)
    requires IsUniqueAuthority(trust, key, a) && IsUniqueAuthority(trust, key, b)
    ensures a == b
  {
    var i :| 0 <= i < |trust| && trust[i] == a;
    var j :| 0 <= j < |trust| && trust[j] == b;
    assert trust[i].key == key && trust[j].key == key;
  }

  lemma ResolutionUnique(a: Authority, references: seq<ProfileDigest>, p: seq<Profile>, q: seq<Profile>)
    requires ResolveAll(a, references, p) && ResolveAll(a, references, q)
    ensures p == q
  {
    forall k | 0 <= k < |p|
      ensures p[k] == q[k]
    {
      assert ResolvesTo(a, references[k], p[k]) && ResolvesTo(a, references[k], q[k]);
    }
  }

  lemma AttemptUnique(a: Authority, policy: Policy, profiles: seq<Profile>, provenanceType: string, attempts: Attempts,
                      i: nat, j: nat)
    requires IsFirstAttempt(a, policy, profiles, provenanceType, attempts, i)
    requires IsFirstAttempt(a, policy, profiles, provenanceType, attempts, j)
    ensures i == j
  {
  }

  /** A trust configuration, hints and attempts leave room for at most one selection. */
  lemma SelectionUnique(trust: Trust, hints: Hints, provenanceType: string, attempts: Attempts, s: Selected,
                        t: Selected)
    requires IsSelection(trust, hints, provenanceType, attempts, s)
               && IsSelection(trust, hints, provenanceType, attempts, t)
    ensures s == t
  {
    AuthorityUnique(trust, hints.key, s.authority, t.authority);
    FirstPolicyUnique(s.authority.policies, hints.predicateType, hints.partition, s.policyIndex);
    var p, i :| ChosenProfile(s, p, i, provenanceType, attempts);
    var q, j :| ChosenProfile(t, q, j, provenanceType, attempts);
    var policy := s.authority.policies[s.policyIndex];
    ResolutionUnique(s.authority, policy.profiles, p, q);
    AttemptUnique(s.authority, policy, p, provenanceType, attempts, i, j);
  }

  // ---------------------------------------------------------------- the algorithm

  /**
   Succeeds exactly when a selection exists, and returns it: the policy is the first one, in the only
   authority with that key, for the predicate and tenant partition that were authenticated, not merely
   hinted, and the profile is the first of that policy whose attempt succeeded.
   */
  method SelectAndVerify(trust: Trust, item: Item, attempts: Attempts) returns (r: Result<Selected, SelectionError>)
    ensures r.Ok? <==> Presentable(item) && exists s ::
              IsSelection(trust, item.hints.value, item.provenanceType, attempts, s)
    ensures r.Ok? ==> IsSelection(trust, item.hints.value, item.provenanceType, attempts, r.value)
  {
    if item.provenanceType == "" || item.mediaType == "" {
      return Err(MalformedEvidence);
    }
    if item.installed != Some(item.provenanceType) {
      return Err(UnknownProvenanceType);
    }
    if item.hints == None || item.hints.value.predicateType == "" {
      return Err(MalformedEvidence);
    }
    r := SelectByHints(trust, item.hints.value, item.provenanceType, attempts);
  }

  method SelectByHints(trust: Trust, hints: Hints, provenanceType: string, attempts: Attempts)
    returns (r: Result<Selected, SelectionError>)
    ensures r.Ok? <==> exists s :: IsSelection(trust, hints, provenanceType, attempts, s)
    ensures r.Ok? ==> IsSelection(trust, hints, provenanceType, attempts, r.value)
  {
    var a := FindAuthority(trust, hints.key);
    if a.None? {
      return Err(UnknownAuthority);
    }
    var index := MatchPolicy(a.value.policies, hints.predicateType, hints.partition);
    if index.None? {
      NoOther(trust, hints, provenanceType, attempts, a.value);
      return Err(NoMatchingPolicy);
    }
    NoOther(trust, hints, provenanceType, attempts, a.value);
    FirstPolicyUnique(a.value.policies, hints.predicateType, hints.partition, index.value);
    var policy := a.value.policies[index.value];
    if policy.provenance != Required && policy.provenance != Allowed {
      return Err(NoMatchingPolicy);
    }
    var profiles := ResolveProfiles(a.value, policy.profiles);
    if profiles.None? {
      return Err(InvalidConfiguration);
    }
    var k := FirstAttempt(a.value, policy, profiles.value, provenanceType, attempts);
    NoOtherProfile(trust, hints, provenanceType, attempts, a.value, index.value, profiles.value);
    if k.None? {
      return Err(NoSuccessfulProfile);
    }
    var profile := profiles.value[k.value];
    var outcome := attempts(a.value, policy, profile);
    NoOtherAttempt(a.value, policy, profiles.value, provenanceType, attempts, k.value);
    if outcome.LimitExceeded? {
      return Err(WorkLimit);
    }
    var s := Selected(a.value, index.value, profile, outcome.authenticated);
    assert ChosenProfile(s, profiles.value, k.value, provenanceType, attempts);
    var ok := Reevaluate(hints, a.value, index.value, profile, outcome.authenticated);
    if !ok {
      return Err(Reevaluation);
    }
    return Ok(s);
  }

  lemma NoOther(trust: Trust, hints: Hints, provenanceType: string, attempts: Attempts, a: Authority)
    requires IsUniqueAuthority(trust, hints.key, a)
    ensures forall s | IsSelection(trust, hints, provenanceType, attempts, s) :: s.authority == a
  {
    forall s | IsSelection(trust, hints, provenanceType, attempts, s)
      ensures s.authority == a
    {
      AuthorityUnique(trust, hints.key, a, s.authority);
    }
  }

  lemma NoOtherProfile(trust: Trust, hints: Hints, provenanceType: string, attempts: Attempts, a: Authority,
                       index: nat, profiles: seq<Profile>)
    requires IsUniqueAuthority(trust, hints.key, a)
    requires IsFirstPolicy(a.policies, hints.predicateType, hints.partition, index)
    requires ResolveAll(a, a.policies[index].profiles, profiles)
    ensures forall s | IsSelection(trust, hints, provenanceType, attempts, s) ::
              s.authority == a && s.policyIndex == index
              && exists k :: ChosenProfile(s, profiles, k, provenanceType, attempts)
  {
    NoOther(trust, hints, provenanceType, attempts, a);
    FirstPolicyUnique(a.policies, hints.predicateType, hints.partition, index);
    forall s | IsSelection(trust, hints, provenanceType, attempts, s)
      ensures s.authority == a && s.policyIndex == index && exists k ::
                ChosenProfile(s, profiles, k, provenanceType, attempts)
    {
      var q, j :| ChosenProfile(s, q, j, provenanceType, attempts);
      ResolutionUnique(a, a.policies[index].profiles, profiles, q);
    }
  }

  lemma NoOtherAttempt(a: Authority, policy: Policy, profiles: seq<Profile>, provenanceType: string,
                       attempts: Attempts, k: nat)
    requires IsFirstAttempt(a, policy, profiles, provenanceType, attempts, k)
    ensures forall j | IsFirstAttempt(a, policy, profiles, provenanceType, attempts, j) :: j == k
  {
  }

  /** The principal that was authenticated, and not only the hints, selects the returned authority and policy. */
  lemma SelectedByAuthenticated(trust: Trust, hints: Hints, provenanceType: string, attempts: Attempts, s: Selected)
    requires IsSelection(trust, hints, provenanceType, attempts, s)
    ensures IsUniqueAuthority(trust, s.authenticated.principal.key, s.authority)
    ensures IsFirstPolicy(s.authority.policies, s.authenticated.predicateType, s.authenticated.principal.partition,
              s.policyIndex)
    ensures s.profile in s.authority.profiles && s.authenticated.profile == DigestOf(s.profile)
              && s.authenticated.authority == s.authority
    ensures DigestOf(s.profile) in s.authority.policies[s.policyIndex].profiles
  {
    var profiles: seq<Profile>, k: nat :| ChosenProfile(s, profiles, k, provenanceType, attempts);
    var policy := s.authority.policies[s.policyIndex];
    assert ResolveAll(s.authority, policy.profiles, profiles);
    assert k < |profiles|;
    assert ResolvesTo(s.authority, s.authority.policies[s.policyIndex].profiles[k], profiles[k]);
  }
}
