/**
 The verification session of one delivery: memoized authentication, the stack of active nodes, chosen
 dependencies, and the basis of the action they justify
 (poc/provenance-suites/deliveryagent/session.go).
 */
module VerificationSession {
  import opened Common
  import Validity

  const MAX_DEPTH := 32
  const MAX_EDGES := 512

  datatype Error =
    | Cycle
    | WorkLimit
    | UnknownEvidence
    | VerificationFailed
    | Malformed
    | PolicyMismatch
    | TenantMismatch
    | UnknownPredicate
    | InvalidLookup
    | RelationRequired
    | StaleGeneration

  /** An authenticated statement and the evidence that its validity rests on. */
  datatype Node<A> = Node(identity: string, result: A, basis: seq<string>)
  datatype Phase<A> = Verifying | Verified(node: Node<A>)

  /** The items of the package, and what selection and verification yield for each under the fixed trust. */
  datatype Environment<!A> = Environment(items: set<string>, verify: string -> Option<(A, seq<string>)>)

  datatype State<A> = State(memo: map<string, Phase<A>>, active: seq<string>, activeSet: set<string>,
                            edges: set<(string, string)>, edgeCount: nat,
                            contributors: set<string>, basis: set<string>)

  function NewSession<A>(): State<A> {
    State(map[], [], {}, {}, 0, {}, {})
  }

  // ---------------------------------------------------------------- operations

  function VerifiedNode<A>(env: Environment<A>, s: State<A>, id: string): (State<A>, Result<Node<A>, Error>) {
    if id !in env.items then (s, Err(UnknownEvidence))
    else if id in s.memo then (s, if s.memo[id].Verifying? then Err(Cycle) else Ok(s.memo[id].node))
    else
      match env.verify(id)
      case None => (s, Err(VerificationFailed))
      case Some(v) =>
        var node := Node(id, v.0, v.1);
        (s.(memo := s.memo[id := Verified(node)]), Ok(node))
  }

  /** Makes a node active, unless it already is or the stack is full. */
  function Entered<A>(s: State<A>, id: string): Result<State<A>, Error> {
    if id in s.activeSet then Err(Cycle)
    else if |s.active| >= MAX_DEPTH then Err(WorkLimit)
    else Ok(s.(active := s.active + [id], activeSet := s.activeSet + {id}))
  }

  function RemoveLast(stack: seq<string>, id: string): seq<string>
    decreases |stack|
  {
    if stack == [] then []
    else
      var n := |stack| - 1;
      if stack[n] == id then stack[..n] else RemoveLast(stack[..n], id) + [stack[n]]
  }

  function Left<A>(s: State<A>, id: string): State<A> {
    s.(active := RemoveLast(s.active, id), activeSet := s.activeSet - {id})
  }

  type Evaluation<!A, +R> = (State<A>, Node<A>) -> (State<A>, Result<R, Error>)

  /** Verifies a node and evaluates it while it is active; whatever happens, it is left again. */
  function WithNode<A, R>(env: Environment<A>, s: State<A>, id: string, evaluate: Evaluation<A, R>): (State<A>,
                          Result<R, Error>) {
    match Entered(s, id)
    case Err(e) => (s, Err(e))
    case Ok(entered) =>
      var (verified, node) := VerifiedNode(env, entered, id);
      match node
      case Err(e) => (Left(verified, id), Err(e))
      case Ok(n) =>
        var (evaluated, r) := evaluate(verified, n);
        (Left(evaluated, id), r)
  }

  predicate IsVerified<A(==)>(s: State<A>, id: string) {
    id in s.memo && s.memo[id].Verified?
  }

  /** A selected node contributes its own identity and the basis of its validity, once. */
  function AddContribution<A>(s: State<A>, node: Node<A>): State<A> {
    if node.identity in s.contributors then s
    else s.(contributors := s.contributors + {node.identity},
            basis := s.basis + {node.identity} + set d | d in node.basis)
  }

  function Recorded<A(==)>(s: State<A>, parent: string, child: string): (State<A>, Option<Error>) {
    if !IsVerified(s, parent) || !IsVerified(s, child) then (s, Some(PolicyMismatch))
    else if parent == child then (s, Some(Cycle))
    else if (parent, child) in s.edges then (s, None)
    else if s.edgeCount >= MAX_EDGES then (s, Some(WorkLimit))
    else
      var t := s.(edges := s.edges + {(parent, child)}, edgeCount := s.edgeCount + 1);
      (AddContribution(t, s.memo[child].node), None)
  }

  /** The sorted sequence of a set of digests. */
  ghost predicate IsSorted(q: seq<string>, digests: set<string>) {
    Validity.Increasing(q) && forall d :: d in q <==> d in digests
  }

  ghost function SortedBasis<A>(s: State<A>): (q: seq<string>)
    ensures IsSorted(q, s.basis)
  {
    SortedExists(s.basis);
    var q :| IsSorted(q, s.basis);
    q
  }

  lemma {:induction false} SortedExists(digests: set<string>)
    ensures exists q :: IsSorted(q, digests)
    decreases |digests|
  {
    if digests == {} {
      assert IsSorted([], digests);
    } else {
      var x :| x in digests;
      SortedExists(digests - {x});
      var q :| IsSorted(q, digests - {x});
      var t := InsertSorted(q, x);
      assert IsSorted(t, digests);
    }
  }

  lemma {:induction false} InsertSorted(q: seq<string>, x: string) returns (t: seq<string>)
    requires Validity.Increasing(q) && x !in q
    ensures Validity.Increasing(t) && forall d :: d in t <==> d in q || d == x
    decreases |q|
  {
    if q == [] {
      t := [x];
    } else {
      Validity.LessTotal(x, q[0]);
      assert q == [q[0]] + q[1..];
      if Validity.Less(x, q[0]) {
        t := [x] + q;
        forall i | 0 <= i < |q|
          ensures Validity.Less(x, q[i])
        {
          if i > 0 {
            Validity.LessTransitive(x, q[0], q[i]);
          }
        }
      } else {
        var rest := InsertSorted(q[1..], x);
        t := [q[0]] + rest;
        forall i | 0 <= i < |rest|
          ensures Validity.Less(q[0], rest[i])
        {
          if rest[i] != x {
            assert rest[i] in q[1..];
          }
        }
      }
    }
  }

  // ---------------------------------------------------------------- what every operation keeps

  /** What a verified identity brings to the basis. */
  ghost predicate Contributes<A(!new)>(s: State<A>, id: string, d: string) {
    id in s.memo && s.memo[id].Verified? && (d == id || d in s.memo[id].node.basis)
  }

  /** Every memo entry is a finished verification of an item of the package. */
  ghost predicate MemoOk<A(!new)>(env: Environment<A>, s: State<A>) {
    forall id | id in s.memo ::
      && id in env.items
      && s.memo[id].Verified?
      && s.memo[id].node.identity == id
      && env.verify(id) == Some((s.memo[id].node.result, s.memo[id].node.basis))
  }

  /** The stack holds each active node once, and never too many. */
  ghost predicate StackOk<A(!new)>(s: State<A>) {
    && |s.active| <= MAX_DEPTH
    && (forall i, j | 0 <= i < j < |s.active| :: s.active[i] != s.active[j])
    && (forall id :: id in s.activeSet <==> id in s.active)
  }

  /** Edges join different verified nodes, and are counted. */
  ghost predicate EdgesOk<A(!new)>(s: State<A>) {
    && s.edgeCount == |s.edges| <= MAX_EDGES
    && forall e | e in s.edges :: e.0 in s.memo && e.1 in s.memo && e.0 != e.1 && e.1 in s.contributors
  }

  /** The basis is exactly what the contributors bring. */
  ghost predicate BasisOk<A(!new)>(s: State<A>) {
    && (forall id | id in s.contributors :: id in s.memo)
    && forall d :: d in s.basis <==> exists id :: id in s.contributors && Contributes(s, id, d)
  }

  ghost predicate SessionOk<A(!new)>(env: Environment<A>, s: State<A>) {
    MemoOk(env, s) && StackOk(s) && EdgesOk(s) && BasisOk(s)
  }

  /** Contributors other than `roots` came in as the child of a chosen dependency. */
  ghost predicate OnlyChosen<A(!new)>(s: State<A>, roots: set<string>) {
    forall id :: id in s.contributors <==> id in roots || exists p :: (p, id) in s.edges
  }

  lemma VerifyNodeKeeps<A(!new)>(env: Environment<A>, s: State<A>, id: string)
    requires SessionOk(env, s)
    ensures var (t, r) := VerifiedNode(env, s, id);
            && SessionOk(env, t)
            && t == s.(memo := t.memo)
            && (forall k | k in s.memo :: k in t.memo && t.memo[k] == s.memo[k])
            && (r.Ok? ==> IsNode(env, t, id, r.value))
            && (r.Err? ==> t == s)
  {
    var (t, r) := VerifiedNode(env, s, id);
    forall d
      ensures d in t.basis <==> exists k :: k in t.contributors && Contributes(t, k, d)
    {
      assert forall k | k in s.contributors :: Contributes(s, k, d) <==> Contributes(t, k, d);
    }
  }

  /** The node that verification yields for an identity. */
  ghost predicate IsNode<A(!new)>(env: Environment<A>, s: State<A>, id: string, n: Node<A>) {
    && id in env.items && env.verify(id) == Some((n.result, n.basis)) && n.identity == id
    && id in s.memo && s.memo[id] == Verified(n)
  }

  lemma {:induction false} RemoveLastUndoes(stack: seq<string>, id: string)
    ensures RemoveLast(stack + [id], id) == stack
  {
    assert (stack + [id])[..|stack|] == stack;
  }

  lemma AddContributionKeeps<A(!new)>(env: Environment<A>, s: State<A>, n: Node<A>)
    requires SessionOk(env, s) && n.identity in s.memo && s.memo[n.identity] == Verified(n)
    ensures SessionOk(env, AddContribution(s, n))
  {
    var t := AddContribution(s, n);
    forall d
      ensures d in t.basis <==> exists k :: k in t.contributors && Contributes(t, k, d)
    {
      assert forall k :: Contributes(s, k, d) <==> Contributes(t, k, d);
      if d in t.basis && d !in s.basis {
        assert n.identity in t.contributors && Contributes(t, n.identity, d);
      }
    }
  }

  lemma EdgeKeeps<A(!new)>(env: Environment<A>, s: State<A>, parent: string, child: string)
    requires SessionOk(env, s) && s.edgeCount < MAX_EDGES && (parent, child) !in s.edges
    requires parent in s.memo && child in s.memo && parent != child && child in s.contributors
    ensures SessionOk(env, s.(edges := s.edges + {(parent, child)}, edgeCount := s.edgeCount + 1))
  {
    var t := s.(edges := s.edges + {(parent, child)}, edgeCount := s.edgeCount + 1);
    assert forall d, k :: Contributes(s, k, d) <==> Contributes(t, k, d);
  }

  lemma RecordKeeps<A(!new)>(env: Environment<A>, s: State<A>, parent: string, child: string)
    requires SessionOk(env, s)
    ensures var t := Recorded(s, parent, child).0;
            && SessionOk(env, t)
            && t == s.(edges := t.edges, edgeCount := t.edgeCount, contributors := t.contributors, basis := t.basis)
  {
    var t := Recorded(s, parent, child).0;
    if t != s {
      var node := s.memo[child].node;
      AddContributionKeeps(env, s, node);
      EdgeKeeps(env, AddContribution(s, node), parent, child);
    }
  }

  /** A recorded dependency is an edge, and its child the only new contributor. */
  lemma RecordChooses<A(!new)>(env: Environment<A>, s: State<A>, parent: string, child: string, roots: set<string>)
    requires SessionOk(env, s) && OnlyChosen(s, roots)
    ensures var (t, e) := Recorded(s, parent, child);
            && OnlyChosen(t, roots)
            && t.edges == (if e == None then s.edges + {(parent, child)} else s.edges)
  {
    hide SessionOk, OnlyChosen, AddContribution;
    var (t, e) := Recorded(s, parent, child);
    if e == None {
      RecordedParts(env, s, parent, child);
      ChosenGrows(s, t, parent, child, roots);
    }
  }

  lemma RecordedParts<A(!new)>(env: Environment<A>, s: State<A>, parent: string, child: string)
    requires SessionOk(env, s) && Recorded(s, parent, child).1 == None
    ensures var t := Recorded(s, parent, child).0;
            t.edges == s.edges + {(parent, child)} && t.contributors == s.contributors + {child}
  {
    hide BasisOk, StackOk;
  }

  lemma ChosenGrows<A(!new)>(s: State<A>, t: State<A>, parent: string, child: string, roots: set<string>)
    requires OnlyChosen(s, roots)
    requires t.edges == s.edges + {(parent, child)} && t.contributors == s.contributors + {child}
    ensures OnlyChosen(t, roots)
  {
    forall id
      ensures id in t.contributors <==> id in roots || exists p :: (p, id) in t.edges
    {
      if id == child {
        assert (parent, id) in t.edges;
      } else {
        assert forall p :: (p, id) in t.edges <==> (p, id) in s.edges;
      }
    }
  }

  lemma EnterKeeps<A(!new)>(env: Environment<A>, s: State<A>, id: string)
    requires SessionOk(env, s) && Entered(s, id).Ok?
    ensures SessionOk(env, Entered(s, id).value)
    ensures Left(Entered(s, id).value, id) == s
  {
    var t := Entered(s, id).value;
    RemoveLastUndoes(s.active, id);
    assert t.activeSet - {id} == s.activeSet;
    StackOnly(env, s, t);
  }

  /** Leaving undoes entering, whatever was memoized and recorded in between. */
  lemma LeaveKeeps<A(!new)>(env: Environment<A>, s: State<A>, t: State<A>, id: string)
    requires SessionOk(env, s) && Entered(s, id).Ok? && SessionOk(env, t)
    requires t.active == Entered(s, id).value.active && t.activeSet == Entered(s, id).value.activeSet
    ensures SessionOk(env, Left(t, id))
    ensures Left(t, id) == t.(active := s.active, activeSet := s.activeSet)
  {
    RemoveLastUndoes(s.active, id);
    assert t.activeSet - {id} == s.activeSet;
    StackOnly(env, t, Left(t, id));
  }

  /** Only the stack changed, and it is still a good one. */
  lemma StackOnly<A(!new)>(env: Environment<A>, s: State<A>, t: State<A>)
    requires SessionOk(env, s) && t == s.(active := t.active, activeSet := t.activeSet) && StackOk(t)
    ensures SessionOk(env, t)
  {
    assert forall d, k :: Contributes(s, k, d) <==> Contributes(t, k, d);
  }

  // ---------------------------------------------------------------- the session object

  class Session<A(==)> {
    const env: Environment<A>
    var memo: map<string, Phase<A>>
    var active: seq<string>
    var activeSet: set<string>
    var edges: set<(string, string)>
    var edgeCount: nat
    var contributors: set<string>
    var actionBasis: set<string>

    ghost function View(): State<A>
      reads this
    {
      State(memo, active, activeSet, edges, edgeCount, contributors, actionBasis)
    }

    constructor (env: Environment<A>)
      ensures this.env == env && View() == NewSession()
    {
      this.env := env;
      memo, active, activeSet, edges, edgeCount, contributors, actionBasis := map[], [], {}, {}, 0, {}, {};
    }

    method VerifyNode(id: string) returns (r: Result<Node<A>, Error>)
      modifies this
      ensures (View(), r) == VerifiedNode(env, old(View()), id)
      ensures r == Err(UnknownEvidence) <==> id !in env.items
      ensures r == Err(Cycle) <==> id in env.items && id in old(memo) && old(memo)[id] == Verifying
      ensures r == Err(VerificationFailed) <==> id in env.items && id !in old(memo) && env.verify(id) == None
      ensures r.Ok? <==> id in env.items && if id in old(memo) then old(memo)[id].Verified? else env.verify(id).Some?
      ensures r.Ok? ==> memo == old(memo)[id := Verified(r.value)]
    {
      if id !in env.items {
        return Err(UnknownEvidence);
      }
      if id in memo {
        if memo[id] == Verifying {
          return Err(Cycle);
        }
        return Ok(memo[id].node);
      }
      memo := memo[id := Verifying];
      var v := env.verify(id);
      if v.None? {
        memo := memo - {id};
        assert memo == old(memo);
        return Err(VerificationFailed);
      }
      var node := Node(id, v.value.0, v.value.1);
      memo := memo[id := Verified(node)];
      assert memo == old(memo)[id := Verified(node)];
      return Ok(node);
    }

    method Enter(id: string) returns (error: Option<Error>)
      modifies this
      ensures match Entered(old(View()), id)
              case Ok(t) => View() == t && error == None
              case Err(e) => View() == old(View()) && error == Some(e)
      ensures error == Some(Cycle) <==> id in old(activeSet)
      ensures error == Some(WorkLimit) <==> id !in old(activeSet) && |old(active)| >= 32
      ensures error == None <==> id !in old(activeSet) && |old(active)| < 32
      ensures error == None ==> active == old(active) + [id] && activeSet == old(activeSet) + {id}
    {
      if id in activeSet {
        return Some(Cycle);
      }
      if |active| >= MAX_DEPTH {
        return Some(WorkLimit);
      }
      active := active + [id];
      activeSet := activeSet + {id};
      return None;
    }

    /** Looks for the node from the top of the stack down. */
    method Leave(id: string)
      modifies this
      ensures View() == Left(old(View()), id)
    {
      activeSet := activeSet - {id};
      var i := |active|;
      assert active[..i] == active && active[i..] == [];
      while i > 0 && active[i - 1] != id
        invariant 0 <= i <= |active| && active == old(active)
        invariant RemoveLast(active, id) == RemoveLast(active[..i], id) + active[i..]
      {
        assert active[..i][..i - 1] == active[..i - 1];
        assert active[i - 1..] == [active[i - 1]] + active[i..];
        i := i - 1;
      }
      if i > 0 {
        assert active[..i][..i - 1] == active[..i - 1];
        active := active[..i - 1] + active[i..];
      } else {
        assert active[0..] == active;
      }
    }

    method AddBasisContribution(node: Node<A>)
      modifies this
      ensures View() == AddContribution(old(View()), node)
    {
      if node.identity in contributors {
        return;
      }
      contributors := contributors + {node.identity};
      actionBasis := actionBasis + {node.identity};
      for i := 0 to |node.basis|
        invariant View() == old(View()).(contributors := contributors, basis := actionBasis)
        invariant contributors == old(contributors) + {node.identity}
        invariant actionBasis == old(actionBasis) + {node.identity} + set d | d in node.basis[..i]
      {
        assert node.basis[..i + 1] == node.basis[..i] + [node.basis[i]];
        actionBasis := actionBasis + {node.basis[i]};
      }
      assert node.basis[..|node.basis|] == node.basis;
    }

    method RecordDependency(parent: string, child: string) returns (error: Option<Error>)
      modifies this
      ensures (View(), error) == Recorded(old(View()), parent, child)
      ensures error == Some(PolicyMismatch) <==> !IsVerified(old(View()), parent) || !IsVerified(old(View()), child)
      ensures IsVerified(old(View()), parent) && IsVerified(old(View()), child) ==>
                && (error == Some(Cycle) <==> parent == child)
                && (error == Some(WorkLimit) <==>
                      parent != child && (parent, child) !in old(edges) && old(edgeCount) >= 512)
      ensures error == None <==>
                (&& (parent, child) in edges && parent != child
                 && IsVerified(View(), parent) && IsVerified(View(), child))
    {
      if parent !in memo || memo[parent] == Verifying || child !in memo || memo[child] == Verifying {
        return Some(PolicyMismatch);
      }
      if parent == child {
        return Some(Cycle);
      }
      if (parent, child) in edges {
        return None;
      }
      if edgeCount >= MAX_EDGES {
        return Some(WorkLimit);
      }
      edges := edges + {(parent, child)};
      edgeCount := edgeCount + 1;
      AddBasisContribution(memo[child].node);
      return None;
    }

    method SelectedBasis() returns (q: seq<string>)
      ensures q == SortedBasis(View())
    {
      q := [];
      var rest := actionBasis;
      while rest != {}
        invariant rest <= actionBasis && IsSorted(q, actionBasis - rest)
      {
        var d :| d in rest;
        q := Validity.Insert(q, d);
        rest := rest - {d};
      }
      Validity.IncreasingUnique(q, SortedBasis(View()));
    }
  }
}
