/**
 One manager, one target and the route between them, as interleaved steps
 (poc/provenance-suites/resourcemanager/manager.go, poc/provenance-suites/deliveryagent/agent.go and verifier.go).

 The manager's log grows at any moment, also while a push is under way. The route admits one push at a
 time. Every way a delivery can go wrong at the agent is a choice of the environment.
 */
module DeliveryRoute {
  import opened Common
  import opened EvidenceLog
  import opened TargetApplication
  import MerkleLog

  datatype Item = Item(evidence: TypedEvidence, inclusion: Option<Inclusion>)
  datatype Package = Package(root: Item, supporting: seq<Item>, update: Option<Update>)
  datatype Push = Push(root: TypedEvidence, supporting: seq<TypedEvidence>)

  /** What the agent's evaluation of a package yields once its log material has been verified. */
  datatype Evaluation = Rejected | Ordinary(scope: Scope, premisesHold: bool) | SuiteEvent(applies: bool)

  datatype Environment =
    | Unavailable                                               // lost on the way, before verification
    | Unreadable                                                // refused before its log material is looked at
    | Evaluated(evaluation: Evaluation, loseAcknowledgement: bool)

  datatype Reply = Acknowledged | Stale(latest: Checkpoint) | LogFork | Failed

  datatype Flight =
    | Idle
    | Ready(push: Push, retries: nat)
    | Sent(push: Push, retries: nat, package: Package)
    | Answered(push: Push, retries: nat, package: Package, reply: Reply)

  type Log = leaves: seq<Identity> | |leaves| <= MAX_UINT64

  datatype System = System(leaves: Log, route: Checkpoint, retained: Checkpoint, flight: Flight,
                           app: App, effects: seq<Scope>)

  datatype Step = Append(ids: seq<Identity>) | Start(push: Push) | Build | Receive(environment: Environment) | Record

  const INITIAL := System([], EMPTY_CHECKPOINT, EMPTY_CHECKPOINT, Idle, EMPTY_APP, [])

  // ---------------------------------------------------------------- the manager's side

  /** The position that the manager gave an identity. */
  function PositionOf(leaves: seq<Identity>, id: Identity): (p: nat)
    requires id in leaves
    ensures p < |leaves| && leaves[p] == id
    decreases |leaves|
  {
    if leaves[|leaves| - 1] == id then |leaves| - 1 else PositionOf(leaves[..|leaves| - 1], id)
  }

  function AssembleItem(leaves: Log, e: TypedEvidence): Item
  {
    if Identity(e) !in leaves then Item(e, None)
    else
      var p := PositionOf(leaves, Identity(e));
      Item(e, Some(Inclusion(p, MerkleLog.PathIn(MerkleLog.TreeHash(leaves), p, |leaves|))))
  }

  function AssembleItems(leaves: Log, es: seq<TypedEvidence>): (items: seq<Item>)
    ensures |items| == |es| && forall i | 0 <= i < |es| :: items[i] == AssembleItem(leaves, es[i])
  {
    seq(|es|, i requires 0 <= i < |es| => AssembleItem(leaves, es[i]))
  }

  predicate AnyLogged(items: seq<Item>) {
    exists i | 0 <= i < |items| :: items[i].inclusion.Some?
  }

  /** The package for a push, proving the way from the route's cached checkpoint to the current log. */
  function BuildPackage(leaves: Log, route: Checkpoint, push: Push): Package
    requires route.size <= |leaves|
  {
    var root, supporting := AssembleItem(leaves, push.root), AssembleItems(leaves, push.supporting);
    Package(root, supporting,
            if AnyLogged([root] + supporting)
            then Some(Update(route, MerkleLog.CheckpointAt(leaves, |leaves|),
              MerkleLog.BuildAdvance(leaves, route.size, |leaves|)))
            else None)
  }

  predicate OnLog(leaves: Log, c: Checkpoint)
  {
    c.size <= |leaves| && c == MerkleLog.CheckpointAt(leaves, c.size)
  }

  function RecordReply(s: System): System
    requires s.flight.Answered?
  {
    match s.flight.reply
    case Acknowledged =>
      s.(route := if s.flight.package.update.Some? then s.flight.package.update.value.checkpoint
        else s.route, flight := Idle)
    case Stale(latest) =>
      if latest.size <= s.route.size || !OnLog(s.leaves, latest) then s.(flight := Idle)
      else s.(route := latest, flight := Ready(s.flight.push, s.flight.retries + 1))
    case _ => s.(flight := Idle)
  }

  // ---------------------------------------------------------------- the agent's side

  function Answer(s: System, reply: Reply): System
    requires s.flight.Sent?
  {
    s.(flight := Answered(s.flight.push, s.flight.retries, s.flight.package, reply))
  }

  /** Ordinary work: the generation precheck, the remaining premises, then acceptance. */
  function Evaluate(s: System, evaluation: Evaluation): (System, bool) {
    match evaluation
    case Rejected => (s, false)
    case SuiteEvent(applies) => (s, applies)
    case Ordinary(scope, premisesHold) =>
      match Completed(s.app, scope)
      case Err(_) => (s, false)
      case Ok(true) => (s, true)
      case Ok(false) =>
        if premisesHold then (s.(app := Admit(s.app, scope), effects := s.effects + [scope]), true) else (s, false)
  }

  function Deliver(s: System, environment: Environment): System
    requires s.flight.Sent?
  {
    match environment
    case Unavailable => Answer(s, Failed)
    case Unreadable => Answer(s, Failed)
    case Evaluated(evaluation, lost) =>
      var package := s.flight.package;
      match Prepare(s.retained, package.update, package.root.evidence, package.root.inclusion)
      case Err(StaleCheckpoint(latest)) => Answer(s, Stale(latest))
      case Err(_) => Answer(s, LogFork)
      case Ok(next) =>
        // The verified checkpoint is retained whatever the evaluation says.
        var (after, ok) := Evaluate(s.(retained := next), evaluation);
        Answer(after, if ok && !lost then Acknowledged else Failed)
  }

  // ---------------------------------------------------------------- steps and runs

  /** One step; a step that is not enabled changes nothing. */
  function Next(s: System, step: Step): System
  {
    match step
    case Append(ids) => if |s.leaves| + |ids| <= MAX_UINT64 then s.(leaves := s.leaves + ids) else s
    case Start(push) => if s.flight.Idle? then s.(flight := Ready(push, 0)) else s
    case Build =>
      if !s.flight.Ready? then s
      else if !OnLog(s.leaves, s.route) then s.(flight := Idle)
      else
        s.(flight := Sent(s.flight.push, s.flight.retries, BuildPackage(s.leaves, s.route, s.flight.push)))
    case Receive(environment) => if s.flight.Sent? then Deliver(s, environment) else s
    case Record => if s.flight.Answered? then RecordReply(s) else s
  }

  /** Every inclusion the package carries is accepted under the package's own checkpoint. */
  ghost predicate Verifies(c: Checkpoint, item: Item) {
    item.inclusion.Some? ==> VerifyOccurrenceProof(c, item.evidence, item.inclusion.value)
  }

  /** A package that the manager built from its route while its log had `n` leaves. */
  ghost predicate BuiltAt(s: System, package: Package, n: nat)
    requires s.route.size <= n <= |s.leaves|
  {
    if package.update.None? then package.root.inclusion.None? && forall i | 0 <= i < |package.supporting| ::
      package.supporting[i].inclusion.None?
    else
      && package.update.value
         == Update(s.route, MerkleLog.CheckpointAt(s.leaves, n), MerkleLog.BuildAdvance(s.leaves, s.route.size, n))
      && Verifies(package.update.value.checkpoint, package.root)
      && forall i | 0 <= i < |package.supporting| :: Verifies(package.update.value.checkpoint, package.supporting[i])
  }

  /** The route's cached checkpoint, the agent's retained checkpoint and the log are prefixes in that order. */
  ghost predicate Ordered(s: System) {
    && s.route.size <= s.retained.size <= |s.leaves|
    && OnLog(s.leaves, s.route)
    && OnLog(s.leaves, s.retained)
  }

  ghost predicate FlightOk(s: System)
    requires Ordered(s)
  {
    match s.flight
    case Idle => true
    case Ready(_, retries) => retries <= 1 && (retries == 1 ==> s.route == s.retained)
    case Sent(_, retries, package) =>
      && retries <= 1 && (retries == 1 ==> s.route == s.retained)
      && exists n: nat :: s.retained.size <= n <= |s.leaves| && BuiltAt(s, package, n)
    case Answered(_, retries, package, reply) =>
      && retries <= 1
      && reply != LogFork
      && (reply == Acknowledged && package.update.Some? ==> package.update.value.checkpoint == s.retained)
      && (reply.Stale? ==> retries == 0 && reply.latest == s.retained && s.route.size < s.retained.size)
  }

  ghost predicate Inv(s: System) {
    Ordered(s) && FlightOk(s) && Increasing(s.effects) && Reflects(s.app, s.effects)
  }

  // ---------------------------------------------------------------- every step keeps the invariant

  lemma CheckpointStays(a: Log, ids: seq<Identity>, c: Checkpoint)
    requires |a + ids| <= MAX_UINT64 && OnLog(a, c)
    ensures OnLog(a + ids, c)
  {
    assert (a + ids)[..c.size] == a[..c.size];
  }

  lemma AdvanceStays(a: Log, ids: seq<Identity>, m: nat, n: nat)
    requires m <= n <= |a| && |a + ids| <= MAX_UINT64
    ensures MerkleLog.BuildAdvance(a + ids, m, n) == MerkleLog.BuildAdvance(a, m, n)
    ensures MerkleLog.CheckpointAt(a + ids, n) == MerkleLog.CheckpointAt(a, n)
  {
    assert (a + ids)[..n] == a[..n];
  }

  lemma AppendKeeps(s: System, ids: seq<Identity>)
    requires Inv(s) && |s.leaves| + |ids| <= MAX_UINT64
    ensures Inv(s.(leaves := s.leaves + ids))
  {
    hide MerkleLog.CheckpointAt, MerkleLog.BuildAdvance, Reflects, Increasing;
    var after := s.(leaves := s.leaves + ids);
    CheckpointStays(s.leaves, ids, s.route);
    CheckpointStays(s.leaves, ids, s.retained);
    if s.flight.Sent? {
      var n: nat :| s.retained.size <= n <= |s.leaves| && BuiltAt(s, s.flight.package, n);
      AdvanceStays(s.leaves, ids, s.route.size, n);
      assert BuiltAt(after, after.flight.package, n);
    }
  }

  /** Everything in an honest package verifies under the checkpoint that the package leads to. */
  lemma AssembledVerifies(leaves: Log, e: TypedEvidence)
    ensures Verifies(MerkleLog.CheckpointAt(leaves, |leaves|), AssembleItem(leaves, e))
  {
    if Identity(e) in leaves {
      var p := PositionOf(leaves, Identity(e));
      assert leaves[..|leaves|] == leaves;
      MerkleLog.CheckpointAtValid(leaves, |leaves|);
      MerkleLog.InclusionComplete(leaves, p, MerkleLog.Leaf(Identity(e)),
                                  MerkleLog.PathIn(MerkleLog.TreeHash(leaves), p, |leaves|));
    }
  }

  lemma NoneLogged(root: Item, supporting: seq<Item>)
    requires !AnyLogged([root] + supporting)
    ensures root.inclusion.None? && forall i | 0 <= i < |supporting| :: supporting[i].inclusion.None?
  {
    var items := [root] + supporting;
    assert items[0] == root;
    assert forall i | 0 <= i < |supporting| :: supporting[i] == items[i + 1];
  }

  lemma BuildKeeps(s: System)
    requires Inv(s) && s.flight.Ready?
    ensures Inv(Next(s, Build))
  {
    hide MerkleLog.CheckpointAt, MerkleLog.BuildAdvance, Reflects, Increasing, AssembleItem, Verifies, AnyLogged;
    var package := BuildPackage(s.leaves, s.route, s.flight.push);
    AssembledVerifies(s.leaves, s.flight.push.root);
    forall i | 0 <= i < |package.supporting|
      ensures Verifies(MerkleLog.CheckpointAt(s.leaves, |s.leaves|), package.supporting[i])
    {
      AssembledVerifies(s.leaves, s.flight.push.supporting[i]);
    }
    if package.update.None? {
      NoneLogged(package.root, package.supporting);
    }
    assert BuiltAt(Next(s, Build), package, |s.leaves|);
  }

  /** How an honest agent answers an honest package: stale exactly when the route lags, otherwise it moves. */
  lemma PrepareHonest(s: System)
    requires Inv(s) && s.flight.Sent?
    ensures var p := s.flight.package;
            var r := Prepare(s.retained, p.update, p.root.evidence, p.root.inclusion);
            if p.update.None? then r == Ok(s.retained)
            else if s.route != s.retained then s.route.size < s.retained.size && r == Err(StaleCheckpoint(s.retained))
            else r == Ok(p.update.value.checkpoint)
    ensures s.flight.package.update.Some? ==>
              var c := s.flight.package.update.value.checkpoint;
              s.retained.size <= c.size && OnLog(s.leaves, c)
  {
    var p := s.flight.package;
    var n: nat :| s.retained.size <= n <= |s.leaves| && BuiltAt(s, p, n);
    MerkleLog.AdvanceComplete(s.leaves, s.route.size, n);
  }

  lemma EvaluateKeeps(s: System, evaluation: Evaluation)
    requires Increasing(s.effects) && Reflects(s.app, s.effects)
    ensures var after := Evaluate(s, evaluation).0;
            && Increasing(after.effects) && Reflects(after.app, after.effects)
            && IsPrefix(s.effects, after.effects)
            && after == s.(app := after.app, effects := after.effects)
  {
    if evaluation.Ordinary? {
      AdmitKeeps(s.app, s.effects, evaluation.scope);
    }
  }

  lemma ReceiveKeeps(s: System, environment: Environment)
    requires Inv(s) && s.flight.Sent?
    ensures Inv(Deliver(s, environment))
  {
    hide MerkleLog.CheckpointAt, BuiltAt, Prepare, Evaluate, Reflects, Increasing;
    if environment.Evaluated? {
      PrepareHonest(s);
      var p := s.flight.package;
      var r := Prepare(s.retained, p.update, p.root.evidence, p.root.inclusion);
      if r.Ok? {
        EvaluateKeeps(s.(retained := r.value), environment.evaluation);
      }
    }
  }

  lemma RecordKeeps(s: System)
    requires Inv(s) && s.flight.Answered?
    ensures Inv(RecordReply(s))
  {
  }

  lemma StepKeeps(s: System, step: Step)
    requires Inv(s)
    ensures Inv(Next(s, step))
  {
    hide Reflects, Increasing, BuiltAt, Deliver, RecordReply, BuildPackage, OnLog;
    match step
    case Append(ids) => if |s.leaves| + |ids| <= MAX_UINT64 { AppendKeeps(s, ids); }
    case Start(push) =>
    case Build => if s.flight.Ready? { BuildKeeps(s); }
    case Receive(environment) => if s.flight.Sent? { ReceiveKeeps(s, environment); }
    case Record => if s.flight.Answered? { RecordKeeps(s); }
  }

  function Run(s: System, steps: seq<Step>): System
    decreases |steps|
  {
    if steps == [] then s else Next(Run(s, steps[..|steps| - 1]), steps[|steps| - 1])
  }

  lemma {:induction false} RunKeeps(s: System, steps: seq<Step>)
    requires Inv(s)
    ensures Inv(Run(s, steps))
    decreases |steps|
  {
    if steps != [] {
      RunKeeps(s, steps[..|steps| - 1]);
      StepKeeps(Run(s, steps[..|steps| - 1]), steps[|steps| - 1]);
    }
  }

  lemma RunFromStart(steps: seq<Step>)
    ensures Inv(Run(INITIAL, steps))
  {
    assert OnLog([], EMPTY_CHECKPOINT);
    RunKeeps(INITIAL, steps);
  }

  // ---------------------------------------------------------------- results

  /**
   After any interleaving of acceptances, pushes, transport failures, lost acknowledgements and rejected
   packages: route, agent and log are prefixes in that order; the honest agent has never called an honest
   package a fork; and no push is on more than its second attempt.
   */
  lemma RouteStaysOrdered(steps: seq<Step>)
    ensures var s := Run(INITIAL, steps);
            && Ordered(s)
            && (s.flight.Answered? ==> s.flight.reply != LogFork)
            && (!s.flight.Idle? ==> s.flight.retries <= 1)
            && (s.flight.Answered? && s.flight.retries == 1 ==> !s.flight.reply.Stale?)
  {
    RunFromStart(steps);
  }

  /**
   Over any run each resource's effects have strictly increasing generations, and they determine the target's
   state.
   */
  lemma EffectsInOrder(steps: seq<Step>)
    ensures var s := Run(INITIAL, steps); Increasing(s.effects) && Reflects(s.app, s.effects)
  {
    RunFromStart(steps);
  }

  /** A resource whose latest effect removed it is live again only through an effect of a greater generation. */
  lemma RemovedReturnsLater(steps: seq<Step>, i: nat, name: string)
    requires var s := Run(INITIAL, steps);
             i < |s.effects| && s.effects[i].action == Remove && s.effects[i].name == name && name in s.app.applied
    ensures var s := Run(INITIAL, steps); s.app.applied[name].generation > s.effects[i].generation
  {
    RunFromStart(steps);
    var s := Run(INITIAL, steps);
    LatestIsHighest(s.effects, name, i);
    var j := LatestOccurs(s.effects, name);
  }

  /** What no step takes back. */
  ghost predicate Grows(a: System, b: System) {
    && IsPrefix(a.leaves, b.leaves)
    && a.route.size <= b.route.size
    && a.retained.size <= b.retained.size
    && IsPrefix(a.effects, b.effects)
  }

  lemma StepGrows(s: System, step: Step)
    requires Inv(s)
    ensures Grows(s, Next(s, step))
  {
    hide Reflects, Increasing, BuiltAt, Prepare, BuildPackage;
    match step
    case Receive(environment) =>
      if s.flight.Sent? {
        PrepareHonest(s);
        if environment.Evaluated? {
          var p := s.flight.package;
          var r := Prepare(s.retained, p.update, p.root.evidence, p.root.inclusion);
          if r.Ok? {
            EvaluateKeeps(s.(retained := r.value), environment.evaluation);
          }
        }
      }
    case _ =>
  }

  /** Neither side ever forgets: log, route, agent and effects only grow along a run. */
  lemma {:induction false} RunGrows(s: System, steps: seq<Step>)
    requires Inv(s)
    ensures Grows(s, Run(s, steps))
    decreases |steps|
  {
    if steps != [] {
      var mid := Run(s, steps[..|steps| - 1]);
      RunGrows(s, steps[..|steps| - 1]);
      RunKeeps(s, steps[..|steps| - 1]);
      StepGrows(mid, steps[|steps| - 1]);
      PrefixTransitive(s.leaves, mid.leaves, Run(s, steps).leaves);
      PrefixTransitive(s.effects, mid.effects, Run(s, steps).effects);
    }
  }

  /** One attempt of a push that meets no transport fault. */
  function Attempt(s: System, evaluation: Evaluation): System {
    Next(Next(Next(s, Build), Receive(Evaluated(evaluation, false))), Record)
  }

  /** Where a push ends: the work of its evaluation done once, with route and agent at the end of the log. */
  function Settled(s: System, evaluation: Evaluation): System {
    var end := MerkleLog.CheckpointAt(s.leaves, |s.leaves|);
    Evaluate(s, evaluation).0.(route := end, retained := end, flight := Idle)
  }

  /**
   Whatever was lost before, a push that meets no fault and no rejection settles in one attempt, or in two
   when the route lags behind the agent, and its work is done once.
   */
  lemma PushSettles(steps: seq<Step>, push: Push, evaluation: Evaluation)
    requires Run(INITIAL, steps).flight == Ready(push, 0) && Evaluate(Run(INITIAL, steps), evaluation).1
    ensures var s := Run(INITIAL, steps);
            var once, twice := Attempt(s, evaluation), Attempt(Attempt(s, evaluation), evaluation);
            && Ordered(s)
            && if BuildPackage(s.leaves, s.route, push).update.None?
               then once == Evaluate(s, evaluation).0.(flight := Idle)
               else if s.route == s.retained then once == Settled(s, evaluation)
               else once == s.(route := s.retained, flight := Ready(push, 1)) && twice == Settled(s, evaluation)
  {
    hide Run, Attempt, BuildPackage;
    RunFromStart(steps);
    var s := Run(INITIAL, steps);
    AttemptSettles(s, evaluation);
    if s.route != s.retained && BuildPackage(s.leaves, s.route, push).update.Some? {
      var once := Attempt(s, evaluation);
      LoggedEitherWay(s.leaves, s.route, once.route, push);
      AttemptSettles(once, evaluation);
    }
  }

  /** Whether a package carries a log update does not depend on the route. */
  lemma LoggedEitherWay(leaves: Log, a: Checkpoint, b: Checkpoint, push: Push)
    requires a.size <= |leaves| && b.size <= |leaves|
    ensures BuildPackage(leaves, a, push).update.Some? <==> BuildPackage(leaves, b, push).update.Some?
  {
  }

  /** Evaluation neither looks at nor touches the route. */
  lemma EvaluateFrame(s: System, evaluation: Evaluation, route: Checkpoint, retained: Checkpoint, flight: Flight)
    ensures var t := s.(route := route, retained := retained, flight := flight);
            var (after, ok) := Evaluate(s, evaluation);
            Evaluate(t, evaluation) == (after.(route := route, retained := retained, flight := flight), ok)
  {
  }

  lemma AttemptSettles(s: System, evaluation: Evaluation)
    requires Inv(s) && s.flight.Ready? && Evaluate(s, evaluation).1
    ensures Attempt(s, evaluation) ==
            if BuildPackage(s.leaves, s.route, s.flight.push).update.None?
              then Evaluate(s, evaluation).0.(flight := Idle)
            else if s.route == s.retained then Settled(s, evaluation)
            else s.(route := s.retained, flight := Ready(s.flight.push, s.flight.retries + 1))
    ensures Inv(Attempt(s, evaluation))
  {
    hide Reflects, Increasing, BuiltAt, Prepare, Evaluate, MerkleLog.CheckpointAt;
    var built := Next(s, Build);
    StepKeeps(s, Build);
    PrepareHonest(built);
    var package := BuildPackage(s.leaves, s.route, s.flight.push);
    var next := if package.update.None? then s.retained else package.update.value.checkpoint;
    EvaluateFrame(s, evaluation, s.route, next, built.flight);
    EvaluateFrame(s, evaluation, s.route, s.retained, s.flight);
    StepKeeps(built, Receive(Evaluated(evaluation, false)));
    StepKeeps(Next(built, Receive(Evaluated(evaluation, false))), Record);
  }

  /**
   What ordinary work is answered, by the effects alone: new work is done and acknowledged when its premises hold,
   the work of the latest effect is acknowledged with nothing done, and overtaken work is refused.
   */
  lemma EvaluateAnswers(s: System, scope: Scope, premisesHold: bool)
    requires Increasing(s.effects) && Reflects(s.app, s.effects)
    ensures var (after, ok) := Evaluate(s, Ordinary(scope, premisesHold));
            && (after.effects == (if IsNew(s.effects, scope) && premisesHold then s.effects + [scope] else s.effects))
            && (!(IsNew(s.effects, scope) && premisesHold) ==> after == s)
            && (IsNew(s.effects, scope) ==> ok == premisesHold)
            && (!IsNew(s.effects, scope) ==>
                  && LatestOn(s.effects, scope.name).Some?
                  && (ok <==> LatestOn(s.effects, scope.name).value.generation == scope.generation))
  {
    hide Reflects, Increasing;
    FenceAnswers(s.app, s.effects, scope);
    if !IsNew(s.effects, scope) {
      var i :| 0 <= i < |s.effects| && s.effects[i].name == scope.name && s.effects[i].generation >= scope.generation;
      LatestIsHighest(s.effects, scope.name, i);
    }
    var fence := Completed(s.app, scope);
    assert fence.Ok? ==> fence.value == true || fence.value == false;
  }

  /** An attempt whose work is done and whose acknowledgement is lost. */
  function LostAttempt(s: System, scope: Scope): System {
    Next(Next(Next(s, Build), Receive(Evaluated(Ordinary(scope, true), true))), Record)
  }

  /**
   After any run, new work whose acknowledgement is lost is done, and the same push made again settles in one
   attempt or two with nothing done twice: the work is one effect, and route and agent agree.
   */
  lemma LostAcknowledgementSettles(steps: seq<Step>, push: Push, scope: Scope)
    requires var s := Run(INITIAL, steps);
             s.flight == Ready(push, 0) && s.route == s.retained && IsNew(s.effects, scope)
    ensures var s := Run(INITIAL, steps);
            var lost := LostAttempt(s, scope);
            var once := Attempt(Next(lost, Start(push)), Ordinary(scope, true));
            var end := if once.flight.Idle? then once else Attempt(once, Ordinary(scope, true));
            && lost.flight == Idle && lost.route == s.route && lost.effects == s.effects + [scope]
            && end.flight == Idle && end.effects == s.effects + [scope] && end.app == lost.app
            && end.route == end.retained == lost.retained
  {
    hide Run, Attempt, BuildPackage, Evaluate, LostAttempt, Next;
    RunFromStart(steps);
    var s := Run(INITIAL, steps);
    LostAttemptActs(s, scope);
    var lost := LostAttempt(s, scope);
    var again := lost.(flight := Ready(push, 0));
    assert Next(lost, Start(push)) == again by { StartsAgain(lost, push); }
    Repeated(again, scope);
    AttemptSettles(again, Ordinary(scope, true));
    if again.route != again.retained {
      var once := Attempt(again, Ordinary(scope, true));
      if once.flight.Ready? {
        LoggedEitherWay(again.leaves, again.route, once.route, push);
        Repeated(once, scope);
        AttemptSettles(once, Ordinary(scope, true));
      }
    }
  }

  lemma StartsAgain(s: System, push: Push)
    requires s.flight == Idle
    ensures Next(s, Start(push)) == s.(flight := Ready(push, 0))
  {
  }

  /** Work that is the latest effect is acknowledged and changes nothing. */
  lemma Repeated(s: System, scope: Scope)
    requires Increasing(s.effects) && Reflects(s.app, s.effects)
    requires s.effects != [] && s.effects[|s.effects| - 1] == scope
    ensures Evaluate(s, Ordinary(scope, true)) == (s, true)
  {
    hide Reflects, Increasing, Evaluate;
    EvaluateAnswers(s, scope, true);
    var last := |s.effects| - 1;
    assert s.effects[last].name == scope.name && !IsNew(s.effects, scope);
  }

  lemma LostAttemptActs(s: System, scope: Scope)
    requires Inv(s) && s.flight.Ready? && s.route == s.retained && IsNew(s.effects, scope)
    ensures var lost := LostAttempt(s, scope);
            var update := BuildPackage(s.leaves, s.route, s.flight.push).update;
            && Inv(lost) && lost.flight == Idle && lost.route == s.route && lost.leaves == s.leaves
            && lost.effects == s.effects + [scope]
            && lost.retained == if update.None? then s.retained else MerkleLog.CheckpointAt(s.leaves, |s.leaves|)
  {
    hide Reflects, Increasing, BuiltAt, Prepare, Evaluate, MerkleLog.CheckpointAt, IsNew;
    var built := Next(s, Build);
    StepKeeps(s, Build);
    PrepareHonest(built);
    var package := BuildPackage(s.leaves, s.route, s.flight.push);
    var next := if package.update.None? then s.retained else package.update.value.checkpoint;
    EvaluateAnswers(s, scope, true);
    EvaluateFrame(s, Ordinary(scope, true), s.route, next, built.flight);
    EvaluateKeeps(s, Ordinary(scope, true));
    StepKeeps(built, Receive(Evaluated(Ordinary(scope, true), true)));
    StepKeeps(Next(built, Receive(Evaluated(Ordinary(scope, true), true))), Record);
  }
}
