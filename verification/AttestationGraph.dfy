/**
 The offline verifier of couriered attestation packages: inputs derived from prior inputs through update
 attestations, over a bundle that may refer to itself
 (poc/attestation/sigstore_tuf_bundle/verify.py and build.py; poc/attestation/hybrid/model.py has the same recursion).
 */
module AttestationGraph {
  import opened Common

  datatype ContentType = Deployment | ManagedResource

  function TypeName(t: ContentType): string {
    match t case Deployment => "deployment" case ManagedResource => "managed_resource"
  }

  datatype Content = Content(kind: ContentType, id: string, body: string)
  datatype Signed = Signed(content: Content, validUntil: int, constraints: seq<string>, generation: Option<int>,
                           bundle: string)

  datatype Input =
    | SignedInput(signed: Signed)
    | DerivedInput(priorContentId: string, priorContentType: string, priorInputId: string, updateId: string)

  datatype Manifest = Manifest(resourceType: string, content: string)
  datatype Placement = Placement(deploymentId: string, targets: seq<string>, bundle: string)

  datatype Output =
    | Put(manifests: seq<Manifest>, manifestBundle: Option<string>, placement: Option<Placement>)
    | Remove(deploymentId: string, placement: Option<Placement>)

  datatype Attestation = Attestation(id: string, input: Input, output: Output)

  datatype Package = Package(tenant: string, deliveryId: string, generation: int, attestation: Attestation,
                             priorInputs: map<string, Input>, updates: map<string, Attestation>)

  datatype TargetState = TargetState(contentId: string, generation: int)
  datatype Verified = Verified(content: Content, constraints: seq<string>, generation: Option<int>)
  datatype OutputContent = Manifests(manifests: seq<Manifest>) | Removed(deploymentId: string)

  /** A node of the bundle graph. */
  datatype Ref = InputRef(id: string) | AttestationRef(id: string)

  /**
   The agent's tenant, whether the package's trust update refreshes its trusted material, and signature checks under
   that material, expression evaluation and the clock, as deterministic functions.
   */
  datatype Oracle = Oracle(
    tenant: string, refreshes: bool,
    now: int,
    signedBy: Signed -> bool,
    manifestsSigned: (seq<Manifest>, string) -> bool,
    placementSigned: Placement -> bool,
    implied: Content -> seq<string>,
    evaluates: (string, Content, Output, string) -> bool,
    applyUpdate: (Content, string) -> Option<(string, string)>,      // the derived id and body; None when it fails
    addedConstraints: string -> Option<seq<string>>)                 // None when the update is malformed

  const MAX_NODES := 64

  // ---------------------------------------------------------------- the bundle

  function FindAttestation(p: Package, id: string): Option<Attestation> {
    if p.attestation.id == id then Some(p.attestation)
    else if id in p.updates then Some(p.updates[id]) else None
  }

  ghost predicate InPackage(p: Package, a: Attestation) {
    a == p.attestation || a in p.updates.Values
  }

  /** Every reference that verification can ever record. */
  ghost function Refs(p: Package): set<Ref> {
    (set id | id in p.priorInputs.Keys :: InputRef(id))
    + {AttestationRef(p.attestation.id)} + (set a | a in p.updates.Values :: AttestationRef(a.id))
  }

  /** How many references are left to visit: the measure that makes every bundle terminate, cyclic ones included. */
  ghost function Left(p: Package, visited: set<Ref>): nat {
    |Refs(p) - visited|
  }

  lemma VisitingLeavesLess(p: Package, visited: set<Ref>, r: Ref)
    requires r in Refs(p) && r !in visited
    ensures Left(p, visited + {r}) < Left(p, visited)
  {
    assert Refs(p) - (visited + {r}) == Refs(p) - visited - {r};
  }

  // ---------------------------------------------------------------- the verifier

  function VerifySigned(o: Oracle, s: Signed): Option<Verified> {
    if o.signedBy(s) && o.now <= s.validUntil then Some(Verified(s.content, s.constraints, s.generation)) else None
  }

  /** The content of the first update manifest. */
  function ExtractUpdate(out: OutputContent): Option<string> {
    if out.Manifests? then FirstUpdate(out.manifests) else None
  }

  function FirstUpdate(ms: seq<Manifest>): Option<string> {
    if ms == [] then None
    else if ms[0].resourceType == "spec_update" then Some(ms[0].content)
    else FirstUpdate(ms[1..])
  }

  function VerifyOutput(o: Oracle, v: Verified, output: Output, target: string): Option<OutputContent> {
    var signed := output.Put? && output.manifestBundle.Some? ==>
      o.manifestsSigned(output.manifests, output.manifestBundle.value);
    var named := output.Remove? ==> output.deploymentId == v.content.id;
    var placed := output.placement.Some? ==>
      o.placementSigned(output.placement.value) && output.placement.value.deploymentId == v.content.id;
    if signed && named && placed && forall c | c in o.implied(v.content) + v.constraints ::
      o.evaluates(c, v.content, output, target)
    then Some(if output.Put? then Manifests(output.manifests) else Removed(output.deploymentId))
    else None
  }

  /** Applies a verified update to a verified prior: same kind, same id, one generation on. */
  function Derive(o: Oracle, d: Input, prior: Verified, out: OutputContent): Option<Verified>
    requires d.DerivedInput?
  {
    match ExtractUpdate(out)
    case None => None
    case Some(update) =>
      match o.applyUpdate(prior.content, update)
      case None => None
      case Some(derived) =>
        match o.addedConstraints(update)
        case None => None
        case Some(added) =>
          if derived.0 != d.priorContentId then None
          else Some(Verified(Content(prior.content.kind, derived.0, derived.1), prior.constraints + added,
                             if prior.generation.Some? then Some(prior.generation.value + 1) else None))
  }

  function VerifyInput(o: Oracle, p: Package, input: Input, visited: set<Ref>): Option<Verified>
    decreases Left(p, visited)
  {
    match input
    case SignedInput(s) => VerifySigned(o, s)
    case DerivedInput(contentId, contentType, priorId, updateId) =>
      var update := FindAttestation(p, updateId);
      if priorId !in p.priorInputs || update.None? || InputRef(priorId) in visited then None
      else
        VisitingLeavesLess(p, visited, InputRef(priorId));
        var next := visited + {InputRef(priorId)};
        match VerifyInput(o, p, p.priorInputs[priorId], next)
        case None => None
        case Some(prior) =>
          if contentType != TypeName(prior.content.kind) || contentId != prior.content.id then None
          else
            match VerifyAttestation(o, p, update.value, next, contentId, None, None)
            case None => None
            case Some(out) => Derive(o, input, prior, out)
  }

  /** Only the root attestation of a delivery has a generation to check, and at most it has a target state. */
  predicate CheckGeneration(v: Verified, state: Option<TargetState>, generation: Option<int>) {
    generation.Some? ==>
      && generation.value > 0
      && (v.generation.Some? ==> v.generation == generation)
      && (state.Some? ==> state.value.contentId == v.content.id && generation.value == state.value.generation + 1)
  }

  function VerifyAttestation(o: Oracle, p: Package, a: Attestation, visited: set<Ref>, target: string,
                             state: Option<TargetState>, generation: Option<int>): Option<OutputContent>
    requires InPackage(p, a)
    decreases Left(p, visited)
  {
    if |visited| >= MAX_NODES || AttestationRef(a.id) in visited then None
    else
      VisitingLeavesLess(p, visited, AttestationRef(a.id));
      match VerifyInput(o, p, a.input, visited + {AttestationRef(a.id)})
      case None => None
      case Some(v) =>
        match VerifyOutput(o, v, a.output, target)
        case None => None
        case Some(out) => if CheckGeneration(v, state, generation) then Some(out) else None
  }

  function VerifyPackage(o: Oracle, p: Package, target: string, state: Option<TargetState>): Option<OutputContent> {
    if p.tenant != o.tenant || p.deliveryId != p.attestation.id || !o.refreshes then None
    else VerifyAttestation(o, p, p.attestation, {}, target, state, Some(p.generation))
  }

  // ---------------------------------------------------------------- derivation chains

  /** Follows prior inputs from `path[0]` down to a signed input. */
  ghost predicate IsChain(priors: map<string, Input>, path: seq<Input>) {
    && path != []
    && path[|path| - 1].SignedInput?
    && forall i | 0 <= i < |path| - 1 :: Links(priors, path[i], path[i + 1])
  }

  ghost predicate Links(priors: map<string, Input>, d: Input, prior: Input) {
    d.DerivedInput? && d.priorInputId in priors && priors[d.priorInputId] == prior
  }

  ghost function Base(path: seq<Input>): Signed
    requires path != [] && path[|path| - 1].SignedInput?
  {
    path[|path| - 1].signed
  }

  /** The generation after a number of derivations, when the base signed one. */
  function Later(g: Option<int>, derivations: nat): Option<int> {
    if g.Some? then Some(g.value + derivations) else None
  }

  /** Every derivation of the path declares the base's content. */
  ghost predicate DeclareBase(path: seq<Input>, base: Signed) {
    forall i | 0 <= i < |path| && path[i].DerivedInput? ::
      path[i].priorContentId == base.content.id && path[i].priorContentType == TypeName(base.content.kind)
  }

  /** What a verified input owes to its signed base: identity, kind, generation, and every signed constraint. */
  ghost predicate DescendsFrom(o: Oracle, v: Verified, path: seq<Input>)
    requires path != [] && path[|path| - 1].SignedInput?
  {
    var base := Base(path);
    && o.signedBy(base) && o.now <= base.validUntil
    && v.content.id == base.content.id
    && v.content.kind == base.content.kind
    && v.generation == Later(base.generation, |path| - 1)
    && IsPrefix(base.constraints, v.constraints)
    && DeclareBase(path, base)
  }

  /**
   An output stands for verified content: its manifests and placement are signed as far as they carry a bundle,
   it names that content, and every constraint on the content evaluates true on it.
   */
  ghost predicate OutputStands(o: Oracle, v: Verified, output: Output, target: string) {
    && (output.Put? && output.manifestBundle.Some? ==>
          o.manifestsSigned(output.manifests, output.manifestBundle.value))
    && (output.Remove? ==> output.deploymentId == v.content.id)
    && (output.placement.Some? ==>
          o.placementSigned(output.placement.value) && output.placement.value.deploymentId == v.content.id)
    && (forall c | c in o.implied(v.content) :: o.evaluates(c, v.content, output, target))
    && (forall c | c in v.constraints :: o.evaluates(c, v.content, output, target))
  }

  /** The manifest at `k` is the first one that holds an update. */
  ghost predicate IsFirstUpdate(ms: seq<Manifest>, k: nat) {
    && k < |ms| && ms[k].resourceType == "spec_update"
    && forall j | 0 <= j < k :: ms[j].resourceType != "spec_update"
  }

  /**
   An update turns verified content into the next: its first update manifest gives the body, under the same id
   and kind; the constraints it adds come after those there were; a signed generation goes up by one.
   */
  ghost predicate Updates(o: Oracle, id: string, prior: Verified, output: Output, next: Verified) {
    && output.Put?
    && exists k: nat, added ::
         && IsFirstUpdate(output.manifests, k)
         && o.applyUpdate(prior.content, output.manifests[k].content) == Some((id, next.content.body))
         && o.addedConstraints(output.manifests[k].content) == Some(added)
         && next == Verified(Content(prior.content.kind, id, next.content.body), prior.constraints + added,
                             if prior.generation == None then None else Some(prior.generation.value + 1))
  }

  /**
   One derivation: the input of an update attestation of the bundle verifies, the attestation's output stands for
   it with the prior content as its target, and the update it carries turns the prior stage into the next one.
   */
  ghost predicate DerivedBy(o: Oracle, p: Package, d: Input, prior: Verified, next: Verified) {
    && d.DerivedInput? && prior.content.id == d.priorContentId && TypeName(prior.content.kind) == d.priorContentType
    && exists a, v ::
         && IsUpdate(p, d.updateId, a)
         && InputHolds(o, p, a.input, v)
         && OutputStands(o, v, a.output, d.priorContentId)
         && Updates(o, d.priorContentId, prior, a.output, next)
  }

  /** The input verifies on some path through the bundle. */
  ghost predicate InputHolds(o: Oracle, p: Package, input: Input, v: Verified) {
    exists visited :: VerifyInput(o, p, input, visited) == Some(v)
  }

  lemma {:induction false} FirstUpdateExact(ms: seq<Manifest>)
    ensures FirstUpdate(ms).Some? <==> exists k: nat :: IsFirstUpdate(ms, k)
    ensures forall k: nat | IsFirstUpdate(ms, k) :: FirstUpdate(ms) == Some(ms[k].content)
  {
    if ms != [] {
      FirstUpdateExact(ms[1..]);
      if ms[0].resourceType == "spec_update" {
        assert IsFirstUpdate(ms, 0);
      } else {
        forall k: nat
          ensures IsFirstUpdate(ms, k) <==> k > 0 && IsFirstUpdate(ms[1..], k - 1)
        {
        }
        assert forall k: nat | IsFirstUpdate(ms[1..], k) :: IsFirstUpdate(ms, k + 1);
      }
    }
  }

  /** The derivation of the code is the update of the specification. */
  lemma DeriveExact(o: Oracle, d: Input, prior: Verified, output: Output, next: Verified)
    requires d.DerivedInput?
    ensures Derive(o, d, prior, Delivered(output)) == Some(next) <==> Updates(o, d.priorContentId, prior, output, next)
  {
    if output.Put? {
      FirstUpdateExact(output.manifests);
      if Derive(o, d, prior, Delivered(output)) == Some(next) {
        var k: nat :| IsFirstUpdate(output.manifests, k);
        assert o.addedConstraints(output.manifests[k].content).Some?;
      }
    }
  }

  /** What an accepted output hands on. */
  function Delivered(output: Output): OutputContent {
    match output case Put(ms, _, _) => Manifests(ms) case Remove(id, _) => Removed(id)
  }

  /** What the generation of a delivery must be, where one is checked. */
  ghost predicate GenerationStands(v: Verified, state: Option<TargetState>, generation: Option<int>) {
    generation == None ||
    (&& generation.value > 0
     && (v.generation == None || v.generation.value == generation.value)
     && (state == None || (v.content.id == state.value.contentId && generation.value - 1 == state.value.generation)))
  }

  /**
   Exactly when an attestation is accepted: it has not been visited, fewer than 64 nodes have, its input verifies,
   its output stands for that input and the generation fits. What is accepted is the output itself.
   */
  lemma AttestationExact(o: Oracle, p: Package, a: Attestation, visited: set<Ref>, target: string,
                         state: Option<TargetState>, generation: Option<int>)
    requires InPackage(p, a)
    ensures VerifyAttestation(o, p, a, visited, target, state, generation) ==
            var v := VerifyInput(o, p, a.input, visited + {AttestationRef(a.id)});
            if |visited| < 64 && AttestationRef(a.id) !in visited && v.Some?
              && OutputStands(o, v.value, a.output, target) && GenerationStands(v.value, state, generation)
            then Some(Delivered(a.output)) else None
  {
    var v := VerifyInput(o, p, a.input, visited + {AttestationRef(a.id)});
    if v.Some? {
      OutputExact(o, v.value, a.output, target);
    }
  }

  lemma OutputExact(o: Oracle, v: Verified, output: Output, target: string)
    ensures VerifyOutput(o, v, output, target) ==
            if OutputStands(o, v, output, target) then Some(Delivered(output)) else None
  {
    var all := o.implied(v.content) + v.constraints;
    assert forall c :: c in all <==> c in o.implied(v.content) || c in v.constraints;
  }

  /** Exactly when a signed input verifies, and to what. */
  lemma SignedInputExact(o: Oracle, p: Package, s: Signed, visited: set<Ref>, v: Verified)
    ensures VerifyInput(o, p, SignedInput(s), visited) == Some(v) <==>
              o.signedBy(s) && s.validUntil >= o.now && v == Verified(s.content, s.constraints, s.generation)
  {
  }

  /** The update attestation that a derived input names: the root's own id comes first. */
  ghost predicate IsUpdate(p: Package, id: string, a: Attestation) {
    if id == p.attestation.id then a == p.attestation else id in p.updates && a == p.updates[id]
  }

  /**
   Exactly when a derived input verifies, and to what: its prior is in the bundle and was not visited, verifies to
   the declared content, and an update attestation of the bundle that is itself accepted, with the prior visited,
   updates it to the result.
   */
  lemma DerivedInputExact(o: Oracle, p: Package, d: Input, visited: set<Ref>, v: Verified)
    requires d.DerivedInput?
    ensures VerifyInput(o, p, d, visited) == Some(v) <==>
              d.priorInputId in p.priorInputs && InputRef(d.priorInputId) !in visited
              && exists prior, a ::
                   && VerifyInput(o, p, p.priorInputs[d.priorInputId], visited + {InputRef(d.priorInputId)})
                      == Some(prior)
                   && prior.content.id == d.priorContentId && TypeName(prior.content.kind) == d.priorContentType
                   && IsUpdate(p, d.updateId, a) && InPackage(p, a)
                   && VerifyAttestation(o, p, a, visited + {InputRef(d.priorInputId)}, d.priorContentId, None, None)
                      == Some(Delivered(a.output))
                   && Updates(o, d.priorContentId, prior, a.output, v)
  {
    if d.priorInputId in p.priorInputs && FindAttestation(p, d.updateId).Some? {
      var next := visited + {InputRef(d.priorInputId)};
      var a := FindAttestation(p, d.updateId).value;
      assert IsUpdate(p, d.updateId, a);
      AttestationExact(o, p, a, next, d.priorContentId, None, None);
      var prior := VerifyInput(o, p, p.priorInputs[d.priorInputId], next);
      if prior.Some? {
        DeriveExact(o, d, prior.value, a.output, v);
      }
    }
  }

  /** The stages of a derivation: the signed base last, and each one derived from the one behind it. */
  ghost predicate Stages(o: Oracle, p: Package, path: seq<Input>, stages: seq<Verified>)
    requires path != [] && path[|path| - 1].SignedInput?
  {
    && |stages| == |path|
    && stages[|path| - 1] == Verified(Base(path).content, Base(path).constraints, Base(path).generation)
    && forall i | 0 <= i < |path| - 1 :: StageAt(o, p, path, stages, i)
  }

  ghost predicate StageAt(o: Oracle, p: Package, path: seq<Input>, stages: seq<Verified>, i: nat)
    requires i + 1 < |path| == |stages|
  {
    DerivedBy(o, p, path[i], stages[i + 1], stages[i])
  }

  lemma {:induction false} VerifiedDescends(o: Oracle, p: Package, input: Input, visited: set<Ref>)
    returns (path: seq<Input>, stages: seq<Verified>)
    requires VerifyInput(o, p, input, visited).Some?
    ensures IsChain(p.priorInputs, path) && path[0] == input
    ensures DescendsFrom(o, VerifyInput(o, p, input, visited).value, path)
    ensures Stages(o, p, path, stages) && stages[0] == VerifyInput(o, p, input, visited).value
    decreases Left(p, visited)
  {
    if input.SignedInput? {
      path, stages := [input], [VerifyInput(o, p, input, visited).value];
    } else {
      VisitingLeavesLess(p, visited, InputRef(input.priorInputId));
      var prior := p.priorInputs[input.priorInputId];
      var next := visited + {InputRef(input.priorInputId)};
      var tail, behind := VerifiedDescends(o, p, prior, next);
      path, stages := [input] + tail, [VerifyInput(o, p, input, visited).value] + behind;
      ChainGrows(p.priorInputs, input, tail);
      DescentGrows(o, p, input, visited, tail);
      StagesGrow(o, p, input, visited, tail, behind);
    }
  }

  lemma StagesGrow(o: Oracle, p: Package, input: Input, visited: set<Ref>, tail: seq<Input>, behind: seq<Verified>)
    requires input.DerivedInput? && VerifyInput(o, p, input, visited).Some?
    requires IsChain(p.priorInputs, tail) && Stages(o, p, tail, behind)
    requires VerifyInput(o, p, p.priorInputs[input.priorInputId], visited + {InputRef(input.priorInputId)})
               == Some(behind[0])
    ensures Stages(o, p, [input] + tail, [VerifyInput(o, p, input, visited).value] + behind)
  {
    hide DerivedBy, VerifyInput;
    var v := VerifyInput(o, p, input, visited).value;
    var path, stages := [input] + tail, [v] + behind;
    StageGrows(o, p, input, visited, behind[0], v);
    forall i | 0 <= i < |path| - 1
      ensures StageAt(o, p, path, stages, i)
    {
      if i > 0 {
        assert StageAt(o, p, tail, behind, i - 1);
      }
    }
  }

  lemma StageGrows(o: Oracle, p: Package, input: Input, visited: set<Ref>, prior: Verified, v: Verified)
    requires input.DerivedInput? && VerifyInput(o, p, input, visited) == Some(v)
    requires VerifyInput(o, p, p.priorInputs[input.priorInputId], visited + {InputRef(input.priorInputId)})
               == Some(prior)
    ensures DerivedBy(o, p, input, prior, v)
  {
    hide OutputStands, Updates, Derive;
    var next := visited + {InputRef(input.priorInputId)};
    var update := FindAttestation(p, input.updateId).value;
    AttestationExact(o, p, update, next, input.priorContentId, None, None);
    DeriveExact(o, input, prior, update.output, v);
    var base := VerifyInput(o, p, update.input, next + {AttestationRef(update.id)}).value;
    assert InputHolds(o, p, update.input, base);
    assert IsUpdate(p, input.updateId, update);
  }

  lemma ChainGrows(priors: map<string, Input>, input: Input, tail: seq<Input>)
    requires IsChain(priors, tail) && Links(priors, input, tail[0])
    ensures IsChain(priors, [input] + tail) && Base([input] + tail) == Base(tail)
  {
    var path := [input] + tail;
    forall i | 0 <= i < |path| - 1
      ensures Links(priors, path[i], path[i + 1])
    {
      if i > 0 {
        assert Links(priors, tail[i - 1], tail[i]);
      }
    }
  }

  lemma DescentGrows(o: Oracle, p: Package, input: Input, visited: set<Ref>, tail: seq<Input>)
    requires input.DerivedInput? && VerifyInput(o, p, input, visited).Some? && IsChain(p.priorInputs, tail)
    requires var next := visited + {InputRef(input.priorInputId)};
             && VerifyInput(o, p, p.priorInputs[input.priorInputId], next).Some?
             && DescendsFrom(o, VerifyInput(o, p, p.priorInputs[input.priorInputId], next).value, tail)
    ensures DescendsFrom(o, VerifyInput(o, p, input, visited).value, [input] + tail)
  {
    var next := visited + {InputRef(input.priorInputId)};
    var prior := VerifyInput(o, p, p.priorInputs[input.priorInputId], next).value;
    var v := VerifyInput(o, p, input, visited).value;
    var path := [input] + tail;
    assert Base(path) == Base(tail);
    assert IsPrefix(prior.constraints, v.constraints);
    PrefixTransitive(Base(tail).constraints, prior.constraints, v.constraints);
    forall i | 0 <= i < |path| && path[i].DerivedInput?
      ensures path[i].priorContentId == Base(path).content.id
                && path[i].priorContentType == TypeName(Base(path).content.kind)
    {
      if i > 0 {
        assert path[i] == tail[i - 1];
      }
    }
  }

  /** A bundle gives an input at most one chain. */
  lemma {:induction false} ChainUnique(priors: map<string, Input>, a: seq<Input>, b: seq<Input>)
    requires IsChain(priors, a) && IsChain(priors, b) && a[0] == b[0]
    ensures a == b
    decreases |a|
  {
    assert |b| > 1 ==> Links(priors, b[0], b[1]);
    if |a| > 1 {
      assert Links(priors, a[0], a[1]);
      assert |b| > 1;
      ChainTail(priors, a);
      ChainTail(priors, b);
      ChainUnique(priors, a[1..], b[1..]);
      assert a == [a[0]] + a[1..] && b == [b[0]] + b[1..];
    }
  }

  lemma ChainTail(priors: map<string, Input>, path: seq<Input>)
    requires IsChain(priors, path) && |path| > 1
    ensures IsChain(priors, path[1..]) && Base(path[1..]) == Base(path)
  {
    forall i | 0 <= i < |path[1..]| - 1
      ensures Links(priors, path[1..][i], path[1..][i + 1])
    {
      assert Links(priors, path[i + 1], path[i + 2]);
    }
  }

  // ---------------------------------------------------------------- the builder's generation

  /** The builder's recursion, cut off after a number of nested calls; it has no guard against cycles. */
  function Inferred(priors: map<string, Input>, input: Input, calls: nat): Option<int>
    decreases calls
  {
    if calls == 0 then None
    else if input.SignedInput? then
      Some(if input.signed.generation.None? || input.signed.generation.value == 0 then 1
        else input.signed.generation.value)
    else if input.priorInputId !in priors then Some(1)
    else
      match Inferred(priors, priors[input.priorInputId], calls - 1)
      case None => None
      case Some(g) => Some(g + 1)
  }

  /** Along a chain the builder ends after as many calls as the chain has inputs. */
  lemma {:induction false} InferredOnChain(priors: map<string, Input>, path: seq<Input>)
    requires IsChain(priors, path)
    ensures Inferred(priors, path[0], |path|) ==
            Some((if Base(path).generation.None? || Base(path).generation.value == 0 then 1
              else Base(path).generation.value) + |path| - 1)
    decreases |path|
  {
    if |path| > 1 {
      assert Links(priors, path[0], path[1]);
      ChainTail(priors, path);
      InferredOnChain(priors, path[1..]);
    }
  }

  // ---------------------------------------------------------------- results

  /**
   An accepted package rests on one signed input in date, reached by following prior inputs. The delivered
   content has that input's id and kind; every constraint its signer attached evaluated true on the delivered
   output, whatever was derived in between; and the delivery's generation is the signed one plus the number
   of derivations, where one was signed.
   */
  lemma AcceptedPackage(o: Oracle, p: Package, target: string, state: Option<TargetState>)
    returns (path: seq<Input>, stages: seq<Verified>, v: Verified)
    requires VerifyPackage(o, p, target, state).Some?
    ensures IsChain(p.priorInputs, path) && path[0] == p.attestation.input
    ensures VerifyInput(o, p, p.attestation.input, {AttestationRef(p.attestation.id)}) == Some(v)
    ensures DescendsFrom(o, v, path)
    ensures Stages(o, p, path, stages) && stages[0] == v
    ensures OutputStands(o, v, p.attestation.output, target)
    ensures o.tenant == p.tenant && o.refreshes
    ensures VerifyPackage(o, p, target, state) == Some(Delivered(p.attestation.output))
    ensures p.attestation.output.Put? && p.attestation.output.manifestBundle.Some? ==>
              o.manifestsSigned(p.attestation.output.manifests, p.attestation.output.manifestBundle.value)
    ensures p.attestation.output.placement.Some? ==>
              && o.placementSigned(p.attestation.output.placement.value)
              && p.attestation.output.placement.value.deploymentId == Base(path).content.id
    ensures forall c | c in Base(path).constraints :: o.evaluates(c, v.content, p.attestation.output, target)
    ensures p.generation > 0 && (Base(path).generation.Some? ==>
              p.generation == Base(path).generation.value + |path| - 1)
    ensures state.Some? ==> state.value.contentId == Base(path).content.id && p.generation == state.value.generation + 1
    ensures p.attestation.output.Remove? ==> p.attestation.output.deploymentId == Base(path).content.id
  {
    var visited := {AttestationRef(p.attestation.id)};
    assert {} + visited == visited;
    v := VerifyInput(o, p, p.attestation.input, visited).value;
    path, stages := VerifiedDescends(o, p, p.attestation.input, visited);
    AttestationExact(o, p, p.attestation, {}, target, state, Some(p.generation));
    assert forall c | c in Base(path).constraints :: c in v.constraints;
  }

  /**
   Exactly when a package is accepted: it is for the agent's tenant, its trust update is good, and it delivers its
   own attestation, whose input verifies, whose output stands for that input and whose generation fits.
   */
  lemma PackageExact(o: Oracle, p: Package, target: string, state: Option<TargetState>)
    ensures VerifyPackage(o, p, target, state) ==
            var v := VerifyInput(o, p, p.attestation.input, {AttestationRef(p.attestation.id)});
            if o.tenant == p.tenant && o.refreshes && p.attestation.id == p.deliveryId
              && v.Some? && OutputStands(o, v.value, p.attestation.output, target)
              && GenerationStands(v.value, state, Some(p.generation))
            then Some(Delivered(p.attestation.output)) else None
  {
    assert {} + {AttestationRef(p.attestation.id)} == {AttestationRef(p.attestation.id)};
    AttestationExact(o, p, p.attestation, {}, target, state, Some(p.generation));
  }

  /**
   What has been visited only ever refuses: whatever verifies along one path through the bundle verifies, to the
   same, along every path that has visited less.
   */
  lemma {:induction false} VisitedOnlyRefuses(o: Oracle, p: Package, input: Input, less: set<Ref>, more: set<Ref>)
    requires less <= more && VerifyInput(o, p, input, more).Some?
    ensures VerifyInput(o, p, input, less) == VerifyInput(o, p, input, more)
    decreases Left(p, more), 0
  {
    if input.DerivedInput? {
      var r := InputRef(input.priorInputId);
      VisitingLeavesLess(p, more, r);
      VisitedOnlyRefuses(o, p, p.priorInputs[input.priorInputId], less + {r}, more + {r});
      VisitedOnlyRefusesAttestation(o, p, FindAttestation(p, input.updateId).value, less + {r}, more + {r},
        input.priorContentId);
    }
  }

  lemma {:induction false} VisitedOnlyRefusesAttestation(o: Oracle, p: Package, a: Attestation, less: set<Ref>,
                                                         more: set<Ref>, target: string)
    requires InPackage(p, a) && less <= more && VerifyAttestation(o, p, a, more, target, None, None).Some?
    ensures VerifyAttestation(o, p, a, less, target, None, None) == VerifyAttestation(o, p, a, more, target, None, None)
    decreases Left(p, more), 1
  {
    var r := AttestationRef(a.id);
    VisitingLeavesLess(p, more, r);
    SubsetSmaller(less, more);
    VisitedOnlyRefuses(o, p, a.input, less + {r}, more + {r});
  }

  lemma SubsetSmaller(a: set<Ref>, b: set<Ref>)
    requires a <= b
    ensures |a| <= |b|
  {
    assert b == a + (b - a);
  }

  /** Two paths on which an input verifies agree on what it verifies to. */
  lemma InputHoldsOnce(o: Oracle, p: Package, input: Input, v: Verified, w: Verified)
    requires InputHolds(o, p, input, v) && InputHolds(o, p, input, w)
    ensures v == w && VerifyInput(o, p, input, {}) == Some(v)
  {
    var a :| VerifyInput(o, p, input, a) == Some(v);
    var b :| VerifyInput(o, p, input, b) == Some(w);
    VisitedOnlyRefuses(o, p, input, {}, a);
    VisitedOnlyRefuses(o, p, input, {}, b);
  }

  /**
   The builder infers the accepted generation exactly when the base signed one other than zero or, where it
   signed none, when the package claims the number of inputs on the chain.
   */
  lemma BuilderAgrees(o: Oracle, p: Package, target: string, state: Option<TargetState>, path: seq<Input>)
    requires VerifyPackage(o, p, target, state).Some?
    requires IsChain(p.priorInputs, path) && path[0] == p.attestation.input
    ensures Inferred(p.priorInputs, p.attestation.input, |path|) == Some(p.generation) <==>
              if Base(path).generation.Some? then Base(path).generation.value != 0 else p.generation == |path|
  {
    hide VerifyPackage, OutputStands, Stages, Inferred;
    var found, stages, v := AcceptedPackage(o, p, target, state);
    ChainUnique(p.priorInputs, found, path);
    InferredOnChain(p.priorInputs, path);
  }

  const ANYTHING_GOES := Oracle(
    "", true, 0, s => true, (ms, b) => true, pl => true, c => [], (e, c, out, t) => true,
      (c: Content, u) => Some((c.id, u)),
      u => Some([]))

  const ZERO_BASE := Signed(Content(Deployment, "web", ""), 0, [], Some(0), "")
  const UPDATE := Attestation("u", SignedInput(ZERO_BASE), Put([Manifest("spec_update", "new")], None, None))
  const ROOT := Attestation("r", DerivedInput("web", "deployment", "base", "u"), Put([], None, None))
  const ZERO_PACKAGE := Package("", "r", 1, ROOT, map["base" := SignedInput(ZERO_BASE)], map["u" := UPDATE])

  /** A base that signed generation zero: the package verifies at generation one, and the builder infers two. */
  lemma ZeroBaseVerifies()
    ensures VerifyPackage(ANYTHING_GOES, ZERO_PACKAGE, "", None).Some?
    ensures Inferred(ZERO_PACKAGE.priorInputs, ROOT.input, 2) == Some(2)
  {
    var o, p := ANYTHING_GOES, ZERO_PACKAGE;
    var entered := {AttestationRef("r")};
    var next := entered + {InputRef("base")};
    assert {} + entered == entered;
    assert "u"[0] != "r"[0];
    assert |next| == 2;
    assert p.updates["u"] == UPDATE;
    assert VerifyInput(o, p, UPDATE.input, next + {AttestationRef("u")})
      == Some(Verified(ZERO_BASE.content, [], Some(0)));
    assert VerifyAttestation(o, p, UPDATE, next, "web", None, None)
      == Some(Manifests([Manifest("spec_update", "new")]));
    assert VerifyInput(o, p, p.priorInputs["base"], next) == Some(Verified(ZERO_BASE.content, [], Some(0)));
    assert VerifyInput(o, p, ROOT.input, entered).value.generation == Some(1);
  }

  /** An input whose prior inputs run in a circle, or off the bundle, is never verified. */
  lemma NoChainNoVerification(o: Oracle, p: Package, input: Input, visited: set<Ref>)
    requires !exists path :: IsChain(p.priorInputs, path) && path[0] == input
    ensures VerifyInput(o, p, input, visited).None?
  {
    if VerifyInput(o, p, input, visited).Some? {
      var path, stages := VerifiedDescends(o, p, input, visited);
    }
  }
}
