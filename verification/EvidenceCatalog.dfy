/**
 The lazily built index of supporting fulfillment relations (poc/provenance-suites/deliveryagent/catalog.go).
 */
module EvidenceCatalog {
  import opened Common

  /** What looking at one supporting item yields, given the installed verifiers. */
  datatype Finding =
    | NotInstalled                      // no verifier for its provenance type: skipped
    | LookupFault                       // the lookup itself is unusable: everything after stays unknown
    | Unusable                          // its hints do not parse as a fulfillment relation: skipped
    | Relation(resourceType: string)

  datatype Answer<I> = Found(identity: I) | Absent | Fault

  /** The plain reading: the first item that claims the resource type, unless a lookup fault comes before it. */
  function Scan<I>(items: seq<I>, findings: I -> Finding, resourceType: string): Answer<I> {
    if items == [] then Absent
    else match findings(items[0])
      case LookupFault => Fault
      case Relation(t) => if t == resourceType then Found(items[0]) else Scan(items[1..], findings, resourceType)
      case _ => Scan(items[1..], findings, resourceType)
  }

  /** The item is the first to claim the resource type, and no lookup fault comes before it. */
  ghost predicate IsFirstClaim<I(!new)>(items: seq<I>, findings: I -> Finding, resourceType: string, i: nat) {
    && i < |items|
    && findings(items[i]) == Relation(resourceType)
    && forall j | 0 <= j < i :: findings(items[j]) != Relation(resourceType) && findings(items[j]) != LookupFault
  }

  /** What a scan finds is the first claim. */
  lemma {:induction false} ScanFindsFirst<I(!new)>(items: seq<I>, findings: I -> Finding, resourceType: string)
    returns (i: nat)
    requires Scan(items, findings, resourceType).Found?
    ensures IsFirstClaim(items, findings, resourceType, i)
    ensures items[i] == Scan(items, findings, resourceType).identity
    decreases |items|
  {
    if findings(items[0]) == Relation(resourceType) {
      i := 0;
    } else {
      i := ScanFindsFirst(items[1..], findings, resourceType);
      assert forall j | 0 < j < |items| :: items[j] == items[1..][j - 1];
      i := i + 1;
    }
  }

  /** The first claim is what a scan finds, and a scan without one finds nothing. */
  lemma {:induction false} ScanIsExact<I(!new)>(items: seq<I>, findings: I -> Finding, resourceType: string)
    ensures forall i: nat | IsFirstClaim(items, findings, resourceType, i) ::
              Scan(items, findings, resourceType) == Found(items[i])
    ensures Scan(items, findings, resourceType) == Absent <==>
              forall e | e in items :: findings(e) != Relation(resourceType) && findings(e) != LookupFault
    decreases |items|
  {
    if items != [] {
      ScanIsExact(items[1..], findings, resourceType);
      assert items == [items[0]] + items[1..];
      forall i: nat | IsFirstClaim(items, findings, resourceType, i)
        ensures Scan(items, findings, resourceType) == Found(items[i])
      {
        if i > 0 {
          assert findings(items[0]) != Relation(resourceType) && findings(items[0]) != LookupFault;
          assert IsFirstClaim(items[1..], findings, resourceType, i - 1);
        }
      }
    }
  }

  predicate NoFault<I>(items: seq<I>, findings: I -> Finding) {
    forall i | 0 <= i < |items| :: findings(items[i]) != LookupFault
  }

  /** A scan looks past a faultless beginning exactly when that beginning has no match. */
  lemma {:induction false} ScanSplits<I>(a: seq<I>, b: seq<I>, findings: I -> Finding, resourceType: string)
    requires NoFault(a, findings)
    ensures Scan(a + b, findings, resourceType) ==
            if Scan(a, findings, resourceType) == Absent then Scan(b, findings, resourceType)
              else Scan(a, findings, resourceType)
    ensures Scan(a, findings, resourceType) != Fault
    decreases |a|
  {
    if a == [] {
      assert a + b == b;
    } else {
      assert findings(a[0]) != LookupFault;
      assert (a + b)[1..] == a[1..] + b;
      ScanSplits(a[1..], b, findings, resourceType);
    }
  }

  /** The items whose hints a scan parses, in order. */
  function Parsed<I>(items: seq<I>, findings: I -> Finding): seq<I>
    decreases |items|
  {
    if items == [] then []
    else
      var last := items[|items| - 1];
      Parsed(items[..|items| - 1], findings)
      + if findings(last) == Unusable || findings(last).Relation? then [last] else []
  }

  class Catalog<I> {
    const supporting: seq<I>
    const findings: I -> Finding
    var relations: map<string, I>
    var cursor: nat
    var lookupFailed: bool
    ghost var parsed: seq<I>

    /** The index holds exactly what a plain scan of the items before the cursor finds. */
    ghost predicate Valid()
      reads this
    {
      && cursor <= |supporting|
      && NoFault(supporting[..cursor], findings)
      && (forall t :: Scan(supporting[..cursor], findings, t) == if t in relations then Found(relations[t]) else Absent)
      && (lookupFailed ==> cursor < |supporting| && findings(supporting[cursor]) == LookupFault)
      && parsed == Parsed(supporting[..cursor], findings)
    }

    constructor (supporting: seq<I>, findings: I -> Finding)
      ensures Valid() && this.supporting == supporting && this.findings == findings && parsed == []
    {
      this.supporting, this.findings := supporting, findings;
      relations, cursor, lookupFailed, parsed := map[], 0, false, [];
    }

    /** Moves past one item, entering its relation unless an earlier item already claimed the type. */
    method Advance()
      requires Valid() && cursor < |supporting| && findings(supporting[cursor]) != LookupFault
      modifies this
      ensures Valid() && cursor == old(cursor) + 1 && !lookupFailed
    {
      var identity := supporting[cursor];
      ghost var before := supporting[..cursor];
      assert supporting[..cursor + 1] == before + [identity];
      assert (before + [identity])[..|before|] == before;
      forall t
        ensures Scan(before + [identity], findings, t) ==
                if Scan(before, findings, t) == Absent then Scan([identity], findings, t) else Scan(before, findings, t)
      {
        ScanSplits(before, [identity], findings, t);
      }
      forall t
        ensures Scan([identity], findings, t) == if findings(identity) == Relation(t) then Found(identity) else Absent
      {
        assert [identity][1..] == [];
      }
      cursor := cursor + 1;
      var found := findings(identity);
      if found.NotInstalled? {
        return;
      }
      parsed := parsed + [identity];
      if found.Unusable? {
        return;
      }
      if found.resourceType !in relations {
        relations := relations[found.resourceType := identity];
      }
    }

    /** After any earlier requests, the answer is the plain scan's; no item's hints are parsed a second time. */
    method SupportingRelation(resourceType: string) returns (r: Answer<I>)
      requires Valid()
      modifies this
      ensures Valid() && cursor >= old(cursor)
      ensures r == Scan(supporting, findings, resourceType)
      ensures parsed == Parsed(supporting[..cursor], findings)
    {
      while cursor < |supporting| && resourceType !in relations && !lookupFailed
        invariant Valid() && cursor >= old(cursor)
        decreases |supporting| - cursor, !lookupFailed
      {
        if findings(supporting[cursor]) == LookupFault {
          lookupFailed := true;
        } else {
          Advance();
        }
      }
      ghost var rest := supporting[cursor..];
      assert supporting == supporting[..cursor] + rest;
      ScanSplits(supporting[..cursor], rest, findings, resourceType);
      if resourceType in relations {
        return Found(relations[resourceType]);
      }
      if lookupFailed {
        return Fault;
      }
      return Absent;
    }
  }

  /** Parsing keeps package order, so that with distinct items no item is parsed twice. */
  lemma {:induction false} ParsedOnce<I>(items: seq<I>, findings: I -> Finding)
    requires forall i, j | 0 <= i < j < |items| :: items[i] != items[j]
    ensures forall i, j | 0 <= i < j < |Parsed(items, findings)| ::
              Parsed(items, findings)[i] != Parsed(items, findings)[j]
    ensures forall x | x in Parsed(items, findings) :: x in items
    decreases |items|
  {
    if items != [] {
      var shorter, last := items[..|items| - 1], items[|items| - 1];
      ParsedOnce(shorter, findings);
      assert last !in shorter;
      assert forall x | x in Parsed(shorter, findings) :: x != last;
    }
  }
}
