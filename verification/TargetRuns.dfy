/**
 A whole target of the provenance suites in one run: the retained log checkpoint, the evaluation of packages under
 it, and the application's generation fence (poc/provenance-suites/deliveryagent/verifier.go, agent.go and
 application.go).
 */
module TargetRuns {
  import opened Common
  import opened Selection
  import opened DirectKey
  import opened DeliveryEvaluation
  import opened EvaluationAnswers
  import opened ProvenanceAgent
  import opened ProvenanceAnswers
  import EvidenceLog
  import MerkleLog
  import TargetApplication
  import Validity
  import VerificationSession

  /** The envelope whose identity the log holds. */
  type Envelopes = Evidence -> EvidenceLog.TypedEvidence

  /** What a package says about the log: its update, and an inclusion for some of its items. */
  datatype LogPart = LogPart(update: Option<EvidenceLog.Update>, inclusions: Evidence -> Option<EvidenceLog.Inclusion>)

  datatype Target = Target(agent: Agent, retained: EvidenceLog.Checkpoint, app: TargetApplication.App)

  const NEW_TARGET := Target(NEW_AGENT, EvidenceLog.EMPTY_CHECKPOINT, TargetApplication.EMPTY_APP)

  /** A package, and the application as the precheck found it: other packages may be accepted in between. */
  datatype Incoming = Incoming(arrival: Arrival, log: LogPart, seen: TargetApplication.App)

  // ---------------------------------------------------------------- the log behind temporal facts

  /**
   What occurrence verification makes of an item: a supplied inclusion has to verify under the prepared checkpoint,
   a required one has to be there, and the subject's log position is that of the verified inclusion.
   */
  ghost predicate OccurrenceChecked(envelopes: Envelopes, log: LogPart, c: EvidenceLog.Checkpoint, e: Evidence,
                                    policy: Policy, facts: TemporalFacts) {
    && (policy.requireLog ==> log.inclusions(e).Some?)
    && match log.inclusions(e)
       case None => facts.subject.position == None
       case Some(i) =>
         && log.update.Some?
         && EvidenceLog.VerifyOccurrenceProof(c, envelopes(e), i)
         && facts.subject.position == Some(Validity.LogPosition(Validity.TENANT_DOMAIN, i.index))
  }

  ghost predicate Checked(envelopes: Envelopes, x: Incoming, c: EvidenceLog.Checkpoint) {
    forall e: Evidence, policy: Policy | x.arrival.temporal(e, policy).Some? ::
      OccurrenceChecked(envelopes, x.log, c, e, policy, x.arrival.temporal(e, policy).value)
  }

  // ---------------------------------------------------------------- the fence

  /** What the application keeps of an action: its resource, generation, and what was put there. */
  function EffectOf(action: Action): TargetApplication.Scope {
    TargetApplication.Scope(action.scope.name, action.scope.generation,
                            if action.scope.action == REMOVE then TargetApplication.Remove
                            else TargetApplication.Put(action.rootEvidence))
  }

  function Effects(acted: seq<Acted>): (effects: seq<TargetApplication.Scope>)
    ensures |effects| == |acted| && forall i | 0 <= i < |acted| :: effects[i] == EffectOf(acted[i].action)
  {
    seq(|acted|, i requires 0 <= i < |acted| => EffectOf(acted[i].action))
  }

  /** What the application's precheck answers about a scope. */
  function Prechecked(app: TargetApplication.App, scope: DeliveryScope): Result<bool, VerificationSession.Error> {
    match TargetApplication.Completed(app, Fenced(scope))
    case Ok(done) => Ok(done)
    case Err(_) => Err(VerificationSession.StaleGeneration)
  }

  /** The fence looks at the resource and the generation of a scope. */
  function Fenced(scope: DeliveryScope): TargetApplication.Scope {
    TargetApplication.Scope(scope.name, scope.generation, TargetApplication.Remove)
  }

  /** The progress that a package is evaluated with is the precheck of the application at an earlier moment. */
  ghost predicate AsksApplication(t: Target, x: Incoming) {
    && x.arrival.progress.Some?
    && (forall scope :: x.arrival.progress.value(scope) == Prechecked(x.seen, scope))
    && (forall name | name in x.seen.generations ::
          name in t.app.generations && x.seen.generations[name] <= t.app.generations[name])
  }

  // ---------------------------------------------------------------- steps

  /** The application admits exactly what its fence lets through. */
  ghost predicate Admitted(t: Target, u: Target) {
    if |u.agent.acted| == |t.agent.acted| then u.app == t.app
    else
      && |u.agent.acted| == |t.agent.acted| + 1
      && var effect := EffectOf(u.agent.acted[|t.agent.acted|].action);
         TargetApplication.Completed(t.app, effect) == Ok(false) && u.app == TargetApplication.Admit(t.app, effect)
  }

  /** One package: a log part that does not verify changes nothing, and a verified one is retained whatever follows. */
  ghost predicate Receives(config: Config, envelopes: Envelopes, t: Target, x: Incoming, u: Target) {
    var root := x.arrival.pkg.root;
    match EvidenceLog.Prepare(t.retained, x.log.update, envelopes(root), x.log.inclusions(root))
    case Err(_) => u == t
    case Ok(next) =>
      && u.retained == next
      && Checked(envelopes, x, next) && AsksApplication(t, x)
      && ProvenanceAgent.Next(config, t.agent, x.arrival, u.agent)
      && Admitted(t, u)
  }

  ghost predicate IsTargetRun(config: Config, envelopes: Envelopes, ts: seq<Target>, xs: seq<Incoming>) {
    && |ts| == |xs| + 1
    && ts[0] == NEW_TARGET
    && forall i | 0 <= i < |xs| :: Then(config, envelopes, ts, xs, i)
  }

  ghost predicate Then(config: Config, envelopes: Envelopes, ts: seq<Target>, xs: seq<Incoming>, i: nat)
    requires i + 1 < |ts| && i < |xs|
  {
    Receives(config, envelopes, ts[i], xs[i], ts[i + 1])
  }

  // ---------------------------------------------------------------- the invariant

  /** The retained log holds the statement where its facts say, and holds it at all where the policy requires so. */
  ghost predicate Logged(envelopes: Envelopes, c: EvidenceLog.Checkpoint, e: Evidence, policy: Policy,
                         facts: TemporalFacts) {
    && (policy.requireLog ==> facts.subject.position.Some?)
    && (facts.subject.position.Some? ==>
          var p := facts.subject.position.value;
          && p.domain == Validity.TENANT_DOMAIN && p.index < c.size
          && MerkleLog.LeafAt(c.root, p.index, c.size) == Some(MerkleLog.Leaf(EvidenceLog.Identity(envelopes(e)))))
  }

  ghost predicate AllLogged(envelopes: Envelopes, c: EvidenceLog.Checkpoint, temporal: TemporalOracle) {
    forall e: Evidence, policy: Policy | temporal(e, policy).Some? ::
      Logged(envelopes, c, e, policy, temporal(e, policy).value)
  }

  ghost predicate TargetInv(config: Config, envelopes: Envelopes, t: Target) {
    && ProvenanceAgent.Inv(config, t.agent)
    && MerkleLog.ValidCheckpoint(t.retained)
    && (forall i | 0 <= i < |t.agent.acted| :: AllLogged(envelopes, t.retained, t.agent.acted[i].arrival.temporal))
    && TargetApplication.Increasing(Effects(t.agent.acted))
    && TargetApplication.Reflects(t.app, Effects(t.agent.acted))
  }

  /** What the log holds it goes on holding. */
  lemma LoggedStays(envelopes: Envelopes, a: EvidenceLog.Checkpoint, b: EvidenceLog.Checkpoint,
                    temporal: TemporalOracle)
    requires AllLogged(envelopes, a, temporal) && MerkleLog.Continues(a, b)
    ensures AllLogged(envelopes, b, temporal)
  {
    forall e: Evidence, policy: Policy | temporal(e, policy).Some?
      ensures Logged(envelopes, b, e, policy, temporal(e, policy).value)
    {
      assert Logged(envelopes, a, e, policy, temporal(e, policy).value);
    }
  }

  /** Checked occurrences are in the log. */
  lemma CheckedIsLogged(envelopes: Envelopes, x: Incoming, c: EvidenceLog.Checkpoint)
    requires Checked(envelopes, x, c)
    ensures AllLogged(envelopes, c, x.arrival.temporal)
  {
    var temporal := x.arrival.temporal;
    forall e: Evidence, policy: Policy | temporal(e, policy).Some?
      ensures Logged(envelopes, c, e, policy, temporal(e, policy).value)
    {
      assert OccurrenceChecked(envelopes, x.log, c, e, policy, temporal(e, policy).value);
      if x.log.inclusions(e).Some? {
        EvidenceLog.OccurrenceSound(c, envelopes(e), x.log.inclusions(e).value);
      }
    }
  }

  /** A delivery adds at most one action, made from its own arrival. */
  lemma OneAction(config: Config, a: Agent, x: Arrival, b: Agent)
    requires ProvenanceAgent.Next(config, a, x, b)
    ensures b.acted == a.acted || exists action :: b.acted == a.acted + [Acted(action, x, a.bindings)]
  {
    hide Yields;
  }

  lemma ReceiveKeeps(config: Config, envelopes: Envelopes, t: Target, x: Incoming, u: Target)
    requires TargetInv(config, envelopes, t) && Receives(config, envelopes, t, x, u)
    ensures TargetInv(config, envelopes, u)
    ensures MerkleLog.Continues(t.retained, u.retained) && Extends(t.agent, u.agent)
  {
    hide ProvenanceAgent.Inv, ProvenanceAgent.Next, AllLogged, TargetApplication.Reflects,
      TargetApplication.Increasing, Checked,
         EvidenceLog.Prepare, Extends;
    var root := x.arrival.pkg.root;
    var prepared := EvidenceLog.Prepare(t.retained, x.log.update, envelopes(root), x.log.inclusions(root));
    if prepared.Ok? {
      EvidenceLog.PrepareContinues(t.retained, x.log.update, envelopes(root), x.log.inclusions(root));
      ProvenanceAgent.StepKeeps(config, t.agent, x.arrival, u.agent);
      OneAction(config, t.agent, x.arrival, u.agent);
      CheckedIsLogged(envelopes, x, u.retained);
      forall i | 0 <= i < |u.agent.acted|
        ensures AllLogged(envelopes, u.retained, u.agent.acted[i].arrival.temporal)
      {
        if i < |t.agent.acted| {
          LoggedStays(envelopes, t.retained, u.retained, t.agent.acted[i].arrival.temporal);
        }
      }
      FenceKeeps(t, u);
    } else {
      Unmoved(t);
    }
  }

  lemma Unmoved(t: Target)
    ensures MerkleLog.Continues(t.retained, t.retained) && Extends(t.agent, t.agent)
  {
  }

  lemma FenceKeeps(t: Target, u: Target)
    requires TargetApplication.Increasing(Effects(t.agent.acted))
               && TargetApplication.Reflects(t.app, Effects(t.agent.acted))
    requires Admitted(t, u)
    requires u.agent.acted == t.agent.acted
               || (|u.agent.acted| > 0 && u.agent.acted[..|u.agent.acted| - 1] == t.agent.acted)
    ensures TargetApplication.Increasing(Effects(u.agent.acted))
              && TargetApplication.Reflects(u.app, Effects(u.agent.acted))
  {
    hide TargetApplication.Reflects, TargetApplication.Increasing, TargetApplication.Admit, TargetApplication.Completed;
    if u.agent.acted != t.agent.acted {
      var effect := EffectOf(u.agent.acted[|t.agent.acted|].action);
      TargetApplication.AdmitKeeps(t.app, Effects(t.agent.acted), effect);
      assert Effects(u.agent.acted) == Effects(t.agent.acted) + [effect];
    }
  }

  lemma {:induction false} TargetRunKeeps(config: Config, envelopes: Envelopes, ts: seq<Target>, xs: seq<Incoming>,
                                          i: nat)
    requires IsTargetRun(config, envelopes, ts, xs) && i < |ts|
    ensures TargetInv(config, envelopes, ts[i])
  {
    if i > 0 {
      TargetRunKeeps(config, envelopes, ts, xs, i - 1);
      assert Then(config, envelopes, ts, xs, i - 1);
      ReceiveKeeps(config, envelopes, ts[i - 1], xs[i - 1], ts[i]);
    }
  }

  // ---------------------------------------------------------------- results

  /**
   Over any run of a whole target, for everything it ever acted on: the action is justified by the bindings; whatever
   its policies require to be logged is in the log that the target retains now, at the position its validity was
   judged by; and effects on one resource have strictly increasing generations that determine what is live.
   */
  lemma TargetActsJustified(config: Config, envelopes: Envelopes, ts: seq<Target>, xs: seq<Incoming>, i: nat, k: nat)
    requires IsTargetRun(config, envelopes, ts, xs) && i < |ts| && k < |ts[i].agent.acted|
    ensures var t := ts[i];
            var x := t.agent.acted[k];
            && Justified(config, t.agent, x)
            && AllLogged(envelopes, t.retained, x.arrival.temporal)
            && TargetApplication.Increasing(Effects(t.agent.acted))
            && TargetApplication.Reflects(t.app, Effects(t.agent.acted))
  {
    TargetRunKeeps(config, envelopes, ts, xs, i);
  }

  /** Two actions of one run whose statements were judged at one log position rest on one and the same envelope. */
  lemma OnePositionOneStatement(config: Config, envelopes: Envelopes, ts: seq<Target>, xs: seq<Incoming>, i: nat,
                                j: nat, k: nat,
                                e: Evidence, p: Policy, f: Evidence, q: Policy)
    requires IsTargetRun(config, envelopes, ts, xs) && i < |ts| && j < |ts[i].agent.acted| && k < |ts[i].agent.acted|
    requires var x, y := ts[i].agent.acted[j].arrival.temporal, ts[i].agent.acted[k].arrival.temporal;
             && x(e, p).Some? && y(f, q).Some?
             && x(e, p).value.subject.position.Some?
             && x(e, p).value.subject.position == y(f, q).value.subject.position
    ensures envelopes(e) == envelopes(f)
  {
    TargetRunKeeps(config, envelopes, ts, xs, i);
    var t := ts[i];
    assert AllLogged(envelopes, t.retained, t.agent.acted[j].arrival.temporal);
    assert AllLogged(envelopes, t.retained, t.agent.acted[k].arrival.temporal);
    assert Logged(envelopes, t.retained, e, p, t.agent.acted[j].arrival.temporal(e, p).value);
    assert Logged(envelopes, t.retained, f, q, t.agent.acted[k].arrival.temporal(f, q).value);
  }

  // ---------------------------------------------------------------- progress

  /** What was complete or overtaken when the precheck ran is so when the action would be accepted. */
  lemma DoneStaysDone(t: Target, x: Incoming, scope: DeliveryScope)
    requires AsksApplication(t, x)
    ensures TargetApplication.Completed(t.app, Fenced(scope)) == Ok(false) ==>
              TargetApplication.Completed(x.seen, Fenced(scope)) == Ok(false)
  {
    var s := Fenced(scope);
    assert s.name in x.seen.generations ==>
        s.name in t.app.generations && x.seen.generations[s.name] <= t.app.generations[s.name];
  }

  /**
   What the evaluation of a package in scope ends in follows from the effects of the application it was prechecked
   against: an action exactly when none on its resource has its generation or a later one and it is supported, and
   completion exactly when the latest one has its generation.
   */
  lemma PrecheckDecides(config: Config, t: Target, x: Incoming, s: Selected, effects: seq<TargetApplication.Scope>)
    requires AsksApplication(t, x) && WorkVerified(config, t.agent.bindings, x.arrival, s)
    requires TargetApplication.Reflects(x.seen, effects) && TargetApplication.Increasing(effects)
    requires InScope(config, x.arrival.pkg.root.assertion.scope, x.arrival.pkg.root.principal)
    ensures var scope, latest := x.arrival.pkg.root.assertion.scope,
                TargetApplication.LatestOn(effects, x.arrival.pkg.root.assertion.scope.name);
            && ((exists action :: Yields(config, t.agent.bindings, x.arrival, Act(action))) <==>
                  && TargetApplication.IsNew(effects, Fenced(scope))
                  && Supported(config, t.agent.bindings, x.arrival))
            && (Yields(config, t.agent.bindings, x.arrival, Completed) <==>
                  latest.Some? && latest.value.generation == scope.generation)
  {
    hide WorkVerified, Yields, InScope, Supported, TargetApplication.Reflects, TargetApplication.Increasing,
         TargetApplication.IsNew, TargetApplication.Completed;
    var scope := RootScope(config, t.agent.bindings, x.arrival, s);
    WorkYields(config, t.agent.bindings, x.arrival, s);
    TargetApplication.FenceAnswers(x.seen, effects, Fenced(scope));
    assert x.arrival.progress.value(scope) == Prechecked(x.seen, scope);
  }

  lemma RootScope(config: Config, bindings: Bindings, x: Arrival, s: Selected) returns (scope: DeliveryScope)
    requires WorkVerified(config, bindings, x, s)
    ensures x.pkg.root.Statement? && (x.pkg.root.assertion.Deployment? || x.pkg.root.assertion.ManagedResource?)
    ensures scope == x.pkg.root.assertion.scope
  {
    scope := x.pkg.root.assertion.scope;
  }

  /** An action is authorized only where the application had not completed its scope. */
  lemma ActionWasOpen(config: Config, bindings: Bindings, x: Arrival, action: Action)
    requires Yields(config, bindings, x, Act(action)) && x.progress.Some?
    ensures x.progress.value(action.scope) == Ok(false)
  {
    hide PackageEvaluated, Prepares;
    var d :| Prepares(config, bindings, x, d) && PackageEvaluated(d, config.identity(x.pkg.root)).1 == Ok(Act(action));
    PreparedProgress(config, bindings, x, d);
    EvaluatedWasOpen(d, config.identity(x.pkg.root));
  }

  lemma PreparedProgress(config: Config, bindings: Bindings, x: Arrival, d: Delivery)
    requires Prepares(config, bindings, x, d)
    ensures d.progress == x.progress
  {
  }

  lemma EvaluatedWasOpen(d: Delivery, id: string)
    requires PackageEvaluated(d, id).1.Ok? && PackageEvaluated(d, id).1.value.Act?
    ensures WorkIsOpen(d, PackageEvaluated(d, id).1.value.action.scope)
  {
    hide PackageEvaluated;
    if AsksForWork(d, id) {
      WorkAnswers(d, id);
      ActionContent(d, id);
      OnlyInScope(d, id);
    } else {
      OtherAnswers(d, id);
    }
  }

  lemma OnlyInScope(d: Delivery, id: string)
    requires AsksForWork(d, id) && PackageEvaluated(d, id).1.Ok?
    ensures InScope(d.config, NodeOf(d, id).result.assertion.scope, PrincipalOf(NodeOf(d, id)))
  {
    WorkAnswers(d, id);
  }

  /**
   Over any run, a step that acts does so on a generation that the application had completed neither when it was
   prechecked nor when it was accepted, and that is higher than every earlier effect on its resource.
   */
  lemma ActsOnOpenWork(config: Config, envelopes: Envelopes, ts: seq<Target>, xs: seq<Incoming>, i: nat)
    requires IsTargetRun(config, envelopes, ts, xs) && i < |xs|
    requires |ts[i + 1].agent.acted| > |ts[i].agent.acted|
    ensures ts[i + 1].agent.acted[..|ts[i].agent.acted|] == ts[i].agent.acted
    ensures var action := ts[i + 1].agent.acted[|ts[i].agent.acted|].action;
            && Prechecked(xs[i].seen, action.scope) == Ok(false)
            && TargetApplication.Completed(ts[i].app, EffectOf(action)) == Ok(false)
            && TargetApplication.IsNew(Effects(ts[i].agent.acted), EffectOf(action))
  {
    hide TargetInv, Yields, TargetApplication.Completed, TargetApplication.Reflects, TargetApplication.Increasing,
         TargetApplication.IsNew;
    TargetRunKeeps(config, envelopes, ts, xs, i);
    assert Then(config, envelopes, ts, xs, i);
    var t, x, u := ts[i], xs[i], ts[i + 1];
    assert Acts(config, t.agent, x.arrival, u.agent);
    var action :| Yields(config, t.agent.bindings, x.arrival, Act(action))
                  && u.agent == t.agent.(acted := t.agent.acted + [Acted(action, x.arrival, t.agent.bindings)]);
    ActionWasOpen(config, t.agent.bindings, x.arrival, action);
    FencedEffects(config, envelopes, t);
    TargetApplication.FenceAnswers(t.app, Effects(t.agent.acted), EffectOf(action));
  }

  lemma FencedEffects(config: Config, envelopes: Envelopes, t: Target)
    requires TargetInv(config, envelopes, t)
    ensures TargetApplication.Increasing(Effects(t.agent.acted))
              && TargetApplication.Reflects(t.app, Effects(t.agent.acted))
  {
  }

  /**
   Over any run, a package delivered again after it took effect, while nothing later was done to its resource, ends
   as completed and cannot act; one that was overtaken ends in nothing.
   */
  lemma RetryCompletes(config: Config, envelopes: Envelopes, ts: seq<Target>, xs: seq<Incoming>, i: nat, x: Incoming,
                       s: Selected)
    requires IsTargetRun(config, envelopes, ts, xs) && i < |ts|
    requires x.seen == ts[i].app && AsksApplication(ts[i], x)
    requires WorkVerified(config, ts[i].agent.bindings, x.arrival, s)
    requires InScope(config, x.arrival.pkg.root.assertion.scope, x.arrival.pkg.root.principal)
    ensures var t, scope := ts[i], x.arrival.pkg.root.assertion.scope;
            var latest := TargetApplication.LatestOn(Effects(t.agent.acted), scope.name);
            && (latest.Some? && latest.value.generation == scope.generation <==>
                  Yields(config, t.agent.bindings, x.arrival, Completed))
            && (latest.Some? && latest.value.generation >= scope.generation ==>
                  forall action :: !Yields(config, t.agent.bindings, x.arrival, Act(action)))
            && (latest.None? || latest.value.generation < scope.generation ==>
                  (Supported(config, t.agent.bindings, x.arrival) <==>
                     exists action :: Yields(config, t.agent.bindings, x.arrival, Act(action))))
  {
    hide TargetInv, Yields, WorkVerified, InScope, Supported, AsksApplication,
         TargetApplication.Reflects, TargetApplication.Increasing;
    TargetRunKeeps(config, envelopes, ts, xs, i);
    FencedEffects(config, envelopes, ts[i]);
    var effects := Effects(ts[i].agent.acted);
    PrecheckDecides(config, ts[i], x, s, effects);
    var scope := RootScope(config, ts[i].agent.bindings, x.arrival, s);
    NewByLatest(effects, Fenced(scope));
  }

  /** New is judged by the latest effect. */
  lemma NewByLatest(effects: seq<TargetApplication.Scope>, s: TargetApplication.Scope)
    requires TargetApplication.Increasing(effects)
    ensures var latest := TargetApplication.LatestOn(effects, s.name);
            TargetApplication.IsNew(effects, s) <==> latest.None? || latest.value.generation < s.generation
  {
    var latest := TargetApplication.LatestOn(effects, s.name);
    forall i | 0 <= i < |effects| && effects[i].name == s.name
      ensures latest.Some? && effects[i].generation <= latest.value.generation
    {
      TargetApplication.LatestIsHighest(effects, s.name, i);
    }
    if latest.Some? {
      var j := TargetApplication.LatestOccurs(effects, s.name);
      assert effects[j].name == s.name;
    }
  }

  const NO_LOG := LogPart(None, e => None)

  /** There is a run of a whole target with an action, so none of the above speaks of an empty set of runs. */
  lemma SomeTargetRunActs(envelopes: Envelopes) returns (ts: seq<Target>, xs: seq<Incoming>)
    ensures IsTargetRun(SAMPLE_CONFIG, envelopes, ts, xs)
    ensures |ts| == 3 && |ts[2].agent.acted| == 1
  {
    hide ProvenanceAgent.Next;
    var progress: Option<Progress> := Some(scope => Prechecked(TargetApplication.EMPTY_APP, scope));
    var agents, arrivals := SomeRunActs(progress);
    assert Follows(SAMPLE_CONFIG, agents, arrivals, 0) && Follows(SAMPLE_CONFIG, agents, arrivals, 1);
    var effect := EffectOf(agents[2].acted[0].action);
    var c, app := EvidenceLog.EMPTY_CHECKPOINT, TargetApplication.EMPTY_APP;
    xs := [Incoming(arrivals[0], NO_LOG, app), Incoming(arrivals[1], NO_LOG, app)];
    ts := [NEW_TARGET, Target(agents[1], c, app), Target(agents[2], c, TargetApplication.Admit(app, effect))];
    assert Checked(envelopes, xs[0], c) && Checked(envelopes, xs[1], c);
    assert Then(SAMPLE_CONFIG, envelopes, ts, xs, 0) && Then(SAMPLE_CONFIG, envelopes, ts, xs, 1);
  }
}
