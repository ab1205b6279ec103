/**
 The target's memory application: generation fence, live actions, and effects
 (poc/provenance-suites/deliveryagent/application.go).
 */
module TargetApplication {
  import opened Common

  datatype Action = Put(content: string) | Remove

  /** An authorized ordinary action in its delivery scope. */
  datatype Scope = Scope(name: string, generation: Uint64, action: Action)

  datatype App = App(applied: map<string, Scope>, generations: map<string, Uint64>)

  const EMPTY_APP := App(map[], map[])

  /** `Ok(true)`: this generation is already complete; `Err`: it is older than the fence. */
  function Completed(app: App, s: Scope): Result<bool, ()> {
    if s.name !in app.generations then Ok(false)
    else if s.generation < app.generations[s.name] then Err(())
    else Ok(s.generation == app.generations[s.name])
  }

  /** What one admitted action does to the target. */
  function Perform(app: App, s: Scope): App {
    App(if s.action == Remove then app.applied - {s.name} else app.applied[s.name := s],
        app.generations[s.name := s.generation])
  }

  function Admit(app: App, s: Scope): App {
    if Completed(app, s) == Ok(false) then Perform(app, s) else app
  }

  class MemoryApplication {
    var applied: map<string, Scope>
    var generations: map<string, Uint64>

    ghost function View(): App
      reads this
    {
      App(applied, generations)
    }

    constructor ()
      ensures View() == EMPTY_APP
    {
      applied, generations := map[], map[];
    }

    method Precheck(s: Scope) returns (r: Result<bool, ()>)
      ensures r == Completed(View(), s)
      ensures r == Ok(false) <==> (s.name in generations ==> generations[s.name] < s.generation)
      ensures r == Ok(true) <==> s.name in generations && generations[s.name] == s.generation
      ensures r == Err(()) <==> s.name in generations && generations[s.name] > s.generation
    {
      if s.name !in generations {
        return Ok(false);
      }
      if s.generation < generations[s.name] {
        return Err(());
      }
      return Ok(s.generation == generations[s.name]);
    }

    /** Fences again, then performs the action; a completed generation is acknowledged without effect. */
    method Accept(s: Scope) returns (ok: bool)
      modifies this
      ensures View() == Admit(old(View()), s)
      ensures ok <==> Completed(old(View()), s).Ok?
      ensures ok <==> (s.name in old(generations) ==> old(generations)[s.name] <= s.generation)
      ensures s.name in old(generations) && old(generations)[s.name] >= s.generation ==> unchanged(this)
      ensures (s.name in old(generations) ==> old(generations)[s.name] < s.generation) ==>
                && generations == old(generations)[s.name := s.generation]
                && applied == match s.action case Put(_) => old(applied)[s.name := s]
                                             case Remove => old(applied) - {s.name}
    {
      var completed := Precheck(s);
      if completed.Err? || completed.value {
        return completed.Ok?;
      }
      generations := generations[s.name := s.generation];
      if s.action == Remove {
        applied := applied - {s.name};
      } else {
        applied := applied[s.name := s];
      }
      return true;
    }
  }

  // ---------------------------------------------------------------- effects over a run

  /** The most recent effect on one resource. */
  function LatestOn(effects: seq<Scope>, name: string): (s: Option<Scope>)
    ensures s.Some? ==> s.value.name == name
    decreases |effects|
  {
    if effects == [] then None
    else if effects[|effects| - 1].name == name then Some(effects[|effects| - 1])
    else LatestOn(effects[..|effects| - 1], name)
  }

  /** Effects on one resource have strictly increasing generations. */
  ghost predicate Increasing(effects: seq<Scope>) {
    forall i, j | 0 <= i < j < |effects| && effects[i].name == effects[j].name ::
      effects[i].generation < effects[j].generation
  }

  /**
   The target's state is a function of its effects: the fence of a resource is the generation of the
   latest effect on it, and what is live is that effect when it was a put.
   */
  ghost predicate Reflects(app: App, effects: seq<Scope>) {
    && (forall name :: name in app.generations <==> LatestOn(effects, name).Some?)
    && (forall name | name in app.generations :: app.generations[name] == LatestOn(effects, name).value.generation)
    && (forall name :: name in app.applied <==>
       LatestOn(effects, name).Some? && LatestOn(effects, name).value.action.Put?)
    && (forall name | name in app.applied :: app.applied[name] == LatestOn(effects, name).value)
  }

  /** In an increasing sequence the latest effect on a resource has its highest generation. */
  lemma {:induction false} LatestIsHighest(effects: seq<Scope>, name: string, i: nat)
    requires Increasing(effects) && i < |effects| && effects[i].name == name
    ensures LatestOn(effects, name).Some? && effects[i].generation <= LatestOn(effects, name).value.generation
    decreases |effects|
  {
    var last := |effects| - 1;
    if effects[last].name != name {
      LatestIsHighest(effects[..last], name, i);
    }
  }

  /** The latest effect on a resource is one of the effects. */
  lemma {:induction false} LatestOccurs(effects: seq<Scope>, name: string) returns (j: nat)
    requires LatestOn(effects, name).Some?
    ensures j < |effects| && effects[j] == LatestOn(effects, name).value
    decreases |effects|
  {
    j := |effects| - 1;
    if effects[j].name != name {
      j := LatestOccurs(effects[..j], name);
    }
  }

  lemma LatestAfter(effects: seq<Scope>, s: Scope)
    ensures forall name :: LatestOn(effects + [s], name) == if name == s.name then Some(s) else LatestOn(effects, name)
  {
    assert (effects + [s])[..|effects|] == effects;
  }

  lemma PerformReflects(app: App, effects: seq<Scope>, s: Scope)
    requires Reflects(app, effects)
    ensures Reflects(Perform(app, s), effects + [s])
  {
    hide LatestOn;
    LatestAfter(effects, s);
  }

  lemma AdmitKeeps(app: App, effects: seq<Scope>, s: Scope)
    requires Reflects(app, effects) && Increasing(effects)
    ensures Completed(app, s) == Ok(false) ==> Reflects(Admit(app, s), effects + [s]) && Increasing(effects + [s])
    ensures Completed(app, s) != Ok(false) ==> Admit(app, s) == app
  {
    if Completed(app, s) == Ok(false) {
      forall i | 0 <= i < |effects| && effects[i].name == s.name
        ensures effects[i].generation < s.generation
      {
        LatestIsHighest(effects, s.name, i);
        assert s.name in app.generations;
      }
      PerformReflects(app, effects, s);
    }
  }

  /** No effect on the resource has this generation or a later one. */
  ghost predicate IsNew(effects: seq<Scope>, s: Scope) {
    forall i | 0 <= i < |effects| && effects[i].name == s.name :: effects[i].generation < s.generation
  }

  /**
   What the fence answers, by the effects alone: not yet where no effect on the resource has this generation or a
   later one, complete where the latest effect has exactly this one, and an error where it has a later one.
   */
  lemma FenceAnswers(app: App, effects: seq<Scope>, s: Scope)
    requires Reflects(app, effects) && Increasing(effects)
    ensures Completed(app, s) == Ok(false) <==> IsNew(effects, s)
    ensures Completed(app, s) == Ok(true) <==>
              LatestOn(effects, s.name).Some? && LatestOn(effects, s.name).value.generation == s.generation
    ensures Completed(app, s) == Err(()) <==>
              exists i | 0 <= i < |effects| :: effects[i].name == s.name && effects[i].generation > s.generation
  {
    var latest := LatestOn(effects, s.name);
    forall i | 0 <= i < |effects| && effects[i].name == s.name
      ensures latest.Some? && effects[i].generation <= latest.value.generation
    {
      LatestIsHighest(effects, s.name, i);
    }
    if latest.Some? {
      var j := LatestOccurs(effects, s.name);
      assert effects[j].name == s.name;
    }
    assert s.name in app.generations <==> latest.Some?;
  }
}
