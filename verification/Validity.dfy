/**
 Temporal validity: reducing authenticated constraints to one window and checking a subject against it
 (poc/provenance-suites/protocol/validity.go).
 */
module Validity {
  import opened Common

  /** Go's `time.Time` in nanoseconds: a signed 64-bit number of seconds plus a nanosecond part. */
  const MIN_INSTANT: int := -0x8000_0000_0000_0000 * 1_000_000_000
  const MAX_INSTANT: int := 0x8000_0000_0000_0000 * 1_000_000_000 - 1
  type Instant = t: int | MIN_INSTANT <= t <= MAX_INSTANT

  const TENANT_DOMAIN: string := "tenant-evidence/v1"

  datatype LogPosition = LogPosition(domain: string, index: Uint64)
  datatype LogBound = LogBound(position: LogPosition, inclusive: bool)
  datatype TimeBound = TimeBound(earliest: Instant, latest: Instant, observedBy: Option<string>, inclusive: bool)
  datatype Boundary = Boundary(log: Option<LogBound>, time: Option<TimeBound>)
  datatype Constraint = Constraint(boundary: Boundary, basis: seq<string>)
  datatype Window = Window(established: Option<Boundary>, retired: Option<Boundary>)
  datatype Validity = Validity(window: Window, basis: seq<string>)
  datatype SubjectTime = SubjectTime(earliest: Instant, latest: Instant)
  datatype Subject = Subject(position: Option<LogPosition>, times: seq<SubjectTime>)

  datatype Side = Established | Retired

  // ---------------------------------------------------------------- what one bound means

  predicate IndexMeets(i: Uint64, b: LogBound, side: Side) {
    match side
    case Established => if b.inclusive then i >= b.position.index else i > b.position.index
    case Retired => if b.inclusive then i <= b.position.index else i < b.position.index
  }

  /** An observation lies wholly on the right side of a bound that is itself an interval. */
  predicate TimeMeets(o: SubjectTime, b: TimeBound, side: Side) {
    match side
    case Established => if b.inclusive then o.earliest >= b.latest else o.earliest > b.latest
    case Retired => if b.inclusive then o.latest <= b.earliest else o.latest < b.earliest
  }

  // ---------------------------------------------------------------- what all constraints mean together

  predicate HasLog(cs: seq<Constraint>) {
    exists c | c in cs :: c.boundary.log.Some?
  }

  predicate HasTime(cs: seq<Constraint>) {
    exists c | c in cs :: c.boundary.time.Some?
  }

  ghost predicate IndexMeetsAll(i: Uint64, cs: seq<Constraint>, side: Side) {
    forall c | c in cs && c.boundary.log.Some? :: IndexMeets(i, c.boundary.log.value, side)
  }

  ghost predicate TimeMeetsAll(o: SubjectTime, cs: seq<Constraint>, side: Side) {
    forall c | c in cs && c.boundary.time.Some? :: TimeMeets(o, c.boundary.time.value, side)
  }

  predicate InDomain(cs: seq<Constraint>, domain: string) {
    forall c | c in cs && c.boundary.log.Some? :: c.boundary.log.value.position.domain == domain
  }

  predicate WellFormed(c: Constraint) {
    && (c.boundary.log.Some? || c.boundary.time.Some?)
    && (c.boundary.time.Some? ==> c.boundary.time.value.earliest <= c.boundary.time.value.latest)
  }

  // ---------------------------------------------------------------- the loops of normalization

  method ValidateConstraints(cs: seq<Constraint>) returns (ok: bool)
    ensures ok <==> forall c | c in cs :: WellFormed(c)
  {
    for i := 0 to |cs|
      invariant forall c | c in cs[..i] :: WellFormed(c)
    {
      var b := cs[i].boundary;
      if b.log.None? && b.time.None? {
        assert !WellFormed(cs[i]);
        return false;
      }
      if b.time.Some? && b.time.value.earliest > b.time.value.latest {
        assert !WellFormed(cs[i]);
        return false;
      }
      assert cs[..i + 1] == cs[..i] + [cs[i]];
    }
    assert cs[..|cs|] == cs;
    return true;
  }

  /** Fails when two log positions are in different domains. */
  method CollectLogDomain(cs: seq<Constraint>) returns (ok: bool, domain: string)
    ensures ok <==> exists d :: InDomain(cs, d)
    ensures ok ==> InDomain(cs, domain)
  {
    var seen := false;
    domain := "";
    for i := 0 to |cs|
      invariant InDomain(cs[..i], domain)
      invariant seen ==> exists c | c in cs[..i] ::
                  c.boundary.log.Some? && c.boundary.log.value.position.domain == domain
      invariant !seen ==> !HasLog(cs[..i])
    {
      assert cs[..i + 1] == cs[..i] + [cs[i]];
      assert forall c :: c in cs[..i + 1] <==> c in cs[..i] || c == cs[i];
      var log := cs[i].boundary.log;
      if log.Some? {
        if !seen {
          domain, seen := log.value.position.domain, true;
          assert cs[i] in cs[..i + 1];
        } else if log.value.position.domain != domain {
          var first :| first in cs[..i] && first.boundary.log.Some?
            && first.boundary.log.value.position.domain == domain;
          assert first in cs && cs[i] in cs;
          return false, "";
        }
      }
    }
    assert cs[..|cs|] == cs;
    return true, domain;
  }

  /** The bound that an index meets exactly when it meets every log bound of the side. */
  method PickLogBound(cs: seq<Constraint>, side: Side) returns (best: Option<LogBound>)
    ensures best.Some? <==> HasLog(cs)
    ensures best.Some? ==> exists c | c in cs :: c.boundary.log == best
    ensures best.Some? ==> forall i: Uint64 :: IndexMeets(i, best.value, side) <==> IndexMeetsAll(i, cs, side)
  {
    best := None;
    for i := 0 to |cs|
      invariant best.Some? <==> HasLog(cs[..i])
      invariant best.Some? ==> exists c | c in cs[..i] :: c.boundary.log == best
      invariant best.Some? ==> forall k: Uint64 :: IndexMeets(k, best.value, side) <==> IndexMeetsAll(k, cs[..i], side)
    {
      assert cs[..i + 1] == cs[..i] + [cs[i]];
      assert cs[i] in cs[..i + 1];
      var log := cs[i].boundary.log;
      ghost var before := best;
      if log.Some? {
        if best.None? {
          best := log;
        } else if side == Established {
          if log.value.position.index > best.value.position.index
             || (log.value.position.index == best.value.position.index && !log.value.inclusive
                && best.value.inclusive) {
            best := log;
          }
        } else if log.value.position.index < best.value.position.index
                  || (log.value.position.index == best.value.position.index && !log.value.inclusive
                     && best.value.inclusive) {
          best := log;
        }
      }
      IndexMeetsMore(cs[..i], cs[i], side);
    }
    assert cs[..|cs|] == cs;
  }

  lemma IndexMeetsMore(cs: seq<Constraint>, c: Constraint, side: Side)
    ensures forall k: Uint64 :: IndexMeetsAll(k, cs + [c], side) <==>
              IndexMeetsAll(k, cs, side) && (c.boundary.log.Some? ==> IndexMeets(k, c.boundary.log.value, side))
    ensures HasLog(cs + [c]) <==> HasLog(cs) || c.boundary.log.Some?
  {
    assert c in cs + [c];
    assert forall d :: d in cs + [c] <==> d in cs || d == c;
  }

  /** The same for observations and time bounds. */
  method PickTimeBound(cs: seq<Constraint>, side: Side) returns (best: Option<TimeBound>)
    ensures best.Some? <==> HasTime(cs)
    ensures best.Some? ==> exists c | c in cs :: c.boundary.time == best
    ensures best.Some? ==> forall o :: TimeMeets(o, best.value, side) <==> TimeMeetsAll(o, cs, side)
  {
    best := None;
    for i := 0 to |cs|
      invariant best.Some? <==> HasTime(cs[..i])
      invariant best.Some? ==> exists c | c in cs[..i] :: c.boundary.time == best
      invariant best.Some? ==> forall o :: TimeMeets(o, best.value, side) <==> TimeMeetsAll(o, cs[..i], side)
    {
      assert cs[..i + 1] == cs[..i] + [cs[i]];
      assert cs[i] in cs[..i + 1];
      var tb := cs[i].boundary.time;
      if tb.Some? {
        if best.None? {
          best := tb;
        } else if side == Established {
          if tb.value.latest > best.value.latest
             || (tb.value.latest == best.value.latest && !tb.value.inclusive && best.value.inclusive) {
            best := tb;
          }
        } else if tb.value.earliest < best.value.earliest
                  || (tb.value.earliest == best.value.earliest && !tb.value.inclusive && best.value.inclusive) {
          best := tb;
        }
      }
      TimeMeetsMore(cs[..i], cs[i], side);
    }
    assert cs[..|cs|] == cs;
  }

  lemma TimeMeetsMore(cs: seq<Constraint>, c: Constraint, side: Side)
    ensures forall o :: TimeMeetsAll(o, cs + [c], side) <==>
              TimeMeetsAll(o, cs, side) && (c.boundary.time.Some? ==> TimeMeets(o, c.boundary.time.value, side))
    ensures HasTime(cs + [c]) <==> HasTime(cs) || c.boundary.time.Some?
  {
    assert c in cs + [c];
    assert forall d :: d in cs + [c] <==> d in cs || d == c;
  }

  // ---------------------------------------------------------------- satisfiability

  /** Computed with the largest and smallest index treated apart, as the unsigned arithmetic requires. */
  function LogWindowSatisfiable(est: LogBound, ret: LogBound): (ok: bool)
    ensures ok <==> exists i: Uint64 :: IndexMeets(i, est, Established) && IndexMeets(i, ret, Retired)
  {
    if !est.inclusive && est.position.index == MAX_UINT64 then false
    else if !ret.inclusive && ret.position.index == 0 then false
    else
      var min: Uint64 := if est.inclusive then est.position.index else est.position.index + 1;
      var max: Uint64 := if ret.inclusive then ret.position.index else ret.position.index - 1;
      assert min <= max ==> IndexMeets(min, est, Established) && IndexMeets(min, ret, Retired);
      min <= max
  }

  /** One nanosecond later; at the end of time the seconds saturate and the nanoseconds roll over. */
  function NextInstant(t: Instant): Instant {
    if t < MAX_INSTANT then t + 1 else MAX_INSTANT - 999_999_999
  }

  function PreviousInstant(t: Instant): Instant {
    if t > MIN_INSTANT then t - 1 else MIN_INSTANT + 1_999_999_999
  }

  ghost predicate InstantMeets(t: Instant, est: TimeBound, ret: TimeBound) {
    TimeMeets(SubjectTime(t, t), est, Established) && TimeMeets(SubjectTime(t, t), ret, Retired)
  }

  function TimeWindowSatisfiable(est: TimeBound, ret: TimeBound): (ok: bool)
    ensures ok <==> exists t: Instant :: InstantMeets(t, est, ret)
  {
    if !est.inclusive && NextInstant(est.latest) <= est.latest then false
    else if !ret.inclusive && PreviousInstant(ret.earliest) >= ret.earliest then false
    else
      var min := if est.inclusive then est.latest else NextInstant(est.latest);
      var max := if ret.inclusive then ret.earliest else PreviousInstant(ret.earliest);
      assert min <= max ==> InstantMeets(min, est, ret);
      min <= max
  }

  // ---------------------------------------------------------------- the basis

  /** Go's order on strings. */
  predicate Less(a: string, b: string)
    decreases |a|
  {
    if b == "" then false
    else if a == "" then true
    else a[0] < b[0] || (a[0] == b[0] && Less(a[1..], b[1..]))
  }

  lemma {:induction false} LessTotal(a: string, b: string)
    ensures a == b || Less(a, b) || Less(b, a)
    ensures !(Less(a, b) && Less(b, a)) && !(a == b && Less(a, b))
    decreases |a|
  {
    if a != "" && b != "" {
      LessTotal(a[1..], b[1..]);
      if a[0] == b[0] && a[1..] == b[1..] {
        assert a == [a[0]] + a[1..] == [b[0]] + b[1..] == b;
      }
    }
  }

  lemma {:induction false} LessTransitive(a: string, b: string, c: string)
    requires Less(a, b) && Less(b, c)
    ensures Less(a, c)
    decreases |a|
  {
    if a != "" && a[0] == b[0] == c[0] {
      LessTransitive(a[1..], b[1..], c[1..]);
    }
  }

  /** Strictly increasing, so sorted and without duplicates. */
  ghost predicate Increasing(s: seq<string>) {
    forall i, j | 0 <= i < j < |s| :: Less(s[i], s[j])
  }

  ghost predicate InBasis(d: string, cs: seq<Constraint>) {
    d != "" && exists c | c in cs :: d in c.basis
  }

  /** The sorted duplicate-free union of every constraint's basis. */
  ghost predicate IsBasisOf(basis: seq<string>, cs: seq<Constraint>) {
    Increasing(basis) && forall d :: d in basis <==> InBasis(d, cs)
  }

  /** One insertion of an insertion sort. */
  method Insert(s: seq<string>, d: string) returns (t: seq<string>)
    requires Increasing(s) && d !in s
    ensures Increasing(t) && forall x :: x in t <==> x in s || x == d
  {
    var k := 0;
    while k < |s| && Less(s[k], d)
      invariant 0 <= k <= |s|
      invariant forall i | 0 <= i < k :: Less(s[i], d)
    {
      k := k + 1;
    }
    forall i | k <= i < |s|
      ensures Less(d, s[i])
    {
      LessTotal(d, s[k]);
      if i > k {
        LessTransitive(d, s[k], s[i]);
      }
    }
    t := s[..k] + [d] + s[k..];
    assert s == s[..k] + s[k..];
  }

  method UnionBasis(cs: seq<Constraint>) returns (basis: seq<string>)
    ensures IsBasisOf(basis, cs)
  {
    basis := [];
    for i := 0 to |cs|
      invariant IsBasisOf(basis, cs[..i])
    {
      ghost var before := basis;
      for j := 0 to |cs[i].basis|
        invariant Increasing(basis)
        invariant forall d :: d in basis <==> d in before || (d != "" && d in cs[i].basis[..j])
      {
        var d := cs[i].basis[j];
        assert cs[i].basis[..j + 1] == cs[i].basis[..j] + [d];
        if d != "" && d !in basis {
          basis := Insert(basis, d);
        }
      }
      assert cs[i].basis[..|cs[i].basis|] == cs[i].basis;
      BasisMore(cs[..i], cs[i]);
      assert cs[..i + 1] == cs[..i] + [cs[i]];
    }
    assert cs[..|cs|] == cs;
  }

  lemma BasisMore(cs: seq<Constraint>, c: Constraint)
    ensures forall d :: InBasis(d, cs + [c]) <==> InBasis(d, cs) || (d != "" && d in c.basis)
  {
    assert c in cs + [c];
    assert forall x :: x in cs + [c] <==> x in cs || x == c;
  }

  lemma {:induction false} IncreasingUnique(a: seq<string>, b: seq<string>)
    requires Increasing(a) && Increasing(b) && forall d :: d in a <==> d in b
    ensures a == b
    decreases |a|
  {
    assert b != [] ==> b[0] in b && b[0] in a;
    if a != [] {
      assert a[0] in b;
      var i :| 0 <= i < |a| && a[i] == b[0];
      var j :| 0 <= j < |b| && b[j] == a[0];
      LessTotal(a[0], b[0]);
      assert i == 0 && j == 0;
      forall d
        ensures d in a[1..] <==> d in b[1..]
      {
        TailMembers(a, d);
        TailMembers(b, d);
      }
      IncreasingUnique(a[1..], b[1..]);
      assert a == [a[0]] + a[1..];
      assert b == [b[0]] + b[1..];
    }
  }

  lemma TailMembers(a: seq<string>, d: string)
    requires a != [] && Increasing(a)
    ensures d in a[1..] <==> d in a && d != a[0]
  {
    LessTotal(a[0], a[0]);
    assert a == [a[0]] + a[1..];
    if d in a[1..] {
      var k :| 0 <= k < |a[1..]| && a[1..][k] == d;
      assert a[k + 1] == d;
    }
  }

  // ---------------------------------------------------------------- normalization

  /** A bound stands for the constraints of its side: it is met exactly when they all are. */
  ghost predicate SideMeans(b: Option<Boundary>, cs: seq<Constraint>, side: Side) {
    && (WindowLog(b).Some? <==> HasLog(cs))
    && (WindowTime(b).Some? <==> HasTime(cs))
    && (WindowLog(b).Some? ==> exists c | c in cs :: c.boundary.log == WindowLog(b))
    && (WindowLog(b).Some? ==> forall i: Uint64 ::
       IndexMeets(i, WindowLog(b).value, side) <==> IndexMeetsAll(i, cs, side))
    && (WindowTime(b).Some? ==> forall o :: TimeMeets(o, WindowTime(b).value, side) <==> TimeMeetsAll(o, cs, side))
  }

  function WindowLog(b: Option<Boundary>): Option<LogBound> {
    if b.None? then None else b.value.log
  }

  function WindowTime(b: Option<Boundary>): Option<TimeBound> {
    if b.None? then None else b.value.time
  }

  method NormalizeSide(cs: seq<Constraint>, side: Side) returns (b: Option<Boundary>)
    ensures SideMeans(b, cs, side)
  {
    var log := PickLogBound(cs, side);
    var time := PickTimeBound(cs, side);
    if log.None? && time.None? {
      return None;
    }
    return Some(Boundary(log, time));
  }

  /** Both sides bound the log and no 64-bit index fits between them. */
  ghost predicate LogUnsatisfiable(est: seq<Constraint>, ret: seq<Constraint>) {
    HasLog(est) && HasLog(ret) && !exists i: Uint64 ::
      IndexMeetsAll(i, est, Established) && IndexMeetsAll(i, ret, Retired)
  }

  ghost predicate TimeUnsatisfiable(est: seq<Constraint>, ret: seq<Constraint>) {
    HasTime(est) && HasTime(ret) && !exists t: Instant :: MomentMeetsAll(t, est, ret)
  }

  ghost predicate MomentMeetsAll(t: Instant, est: seq<Constraint>, ret: seq<Constraint>) {
    TimeMeetsAll(SubjectTime(t, t), est, Established) && TimeMeetsAll(SubjectTime(t, t), ret, Retired)
  }

  /** What normalization demands of its constraints, whatever the subject. */
  ghost predicate Normalizable(est: seq<Constraint>, ret: seq<Constraint>) {
    && (forall c | c in est + ret :: WellFormed(c))
    && (exists d :: InDomain(est + ret, d))
    && !LogUnsatisfiable(est, ret)
    && !TimeUnsatisfiable(est, ret)
  }

  method CheckWindowSatisfiable(e: Option<Boundary>, r: Option<Boundary>, ghost est: seq<Constraint>,
                                ghost ret: seq<Constraint>)
    returns (ok: bool)
    requires SideMeans(e, est, Established) && SideMeans(r, ret, Retired)
    ensures ok <==> !LogUnsatisfiable(est, ret) && !TimeUnsatisfiable(est, ret)
  {
    if e.None? || r.None? {
      return true;
    }
    if e.value.log.Some? && r.value.log.Some? && !LogWindowSatisfiable(e.value.log.value, r.value.log.value) {
      return false;
    }
    if e.value.time.Some? && r.value.time.Some? {
      assert forall t: Instant :: InstantMeets(t, e.value.time.value, r.value.time.value) <==>
        MomentMeetsAll(t, est, ret);
      if !TimeWindowSatisfiable(e.value.time.value, r.value.time.value) {
        return false;
      }
    }
    return true;
  }

  /** Succeeds exactly on well-formed, comparable, satisfiable constraints, with a window that means all of them. */
  method NormalizeValidityWindow(est: seq<Constraint>, ret: seq<Constraint>) returns (r: Option<Validity>)
    ensures r.Some? <==> Normalizable(est, ret)
    ensures r.Some? ==>
              && SideMeans(r.value.window.established, est, Established)
              && SideMeans(r.value.window.retired, ret, Retired)
              && IsBasisOf(r.value.basis, est + ret)
  {
    hide SideMeans, LogUnsatisfiable, TimeUnsatisfiable;
    var ok := ValidateConstraints(est + ret);
    if !ok {
      return None;
    }
    var comparable, domain := CollectLogDomain(est + ret);
    if !comparable {
      return None;
    }
    var e := NormalizeSide(est, Established);
    var t := NormalizeSide(ret, Retired);
    var satisfiable := CheckWindowSatisfiable(e, t, est, ret);
    if !satisfiable {
      return None;
    }
    var basis := UnionBasis(est + ret);
    return Some(Validity(Window(e, t), basis));
  }

  /** Some log bound of the side is exclusive at the given index. */
  ghost predicate ExcludesAt(cs: seq<Constraint>, index: Uint64) {
    exists c | c in cs :: c.boundary.log == Some(LogBound(LogPosition(DomainOf(c), index), false))
  }

  function DomainOf(c: Constraint): string {
    if c.boundary.log.Some? then c.boundary.log.value.position.domain else ""
  }

  /** Some time bound of the side is exclusive at the given instant. */
  ghost predicate ExcludesInstant(cs: seq<Constraint>, side: Side, t: Instant) {
    exists c | c in cs :: c.boundary.time.Some? && !c.boundary.time.value.inclusive
                          && t == if side == Established then c.boundary.time.value.latest
                             else c.boundary.time.value.earliest
  }

  /** A side admits the extreme index, and the extreme instant, unless a bound excludes just that. */
  lemma ExtremeMeets(cs: seq<Constraint>)
    ensures IndexMeetsAll(MAX_UINT64, cs, Established) <==> !ExcludesAt(cs, MAX_UINT64)
    ensures IndexMeetsAll(0, cs, Retired) <==> !ExcludesAt(cs, 0)
    ensures TimeMeetsAll(SubjectTime(MAX_INSTANT, MAX_INSTANT), cs, Established) <==>
              !ExcludesInstant(cs, Established, MAX_INSTANT)
    ensures TimeMeetsAll(SubjectTime(MIN_INSTANT, MIN_INSTANT), cs, Retired) <==>
              !ExcludesInstant(cs, Retired, MIN_INSTANT)
  {
  }

  /** If the extreme index or instant does not meet a side, nothing does. */
  lemma ExtremeDecides(cs: seq<Constraint>)
    ensures forall i: Uint64 | IndexMeetsAll(i, cs, Established) :: IndexMeetsAll(MAX_UINT64, cs, Established)
    ensures forall i: Uint64 | IndexMeetsAll(i, cs, Retired) :: IndexMeetsAll(0, cs, Retired)
    ensures forall t: Instant | TimeMeetsAll(SubjectTime(t, t), cs, Established) ::
              TimeMeetsAll(SubjectTime(MAX_INSTANT, MAX_INSTANT), cs, Established)
    ensures forall t: Instant | TimeMeetsAll(SubjectTime(t, t), cs, Retired) ::
              TimeMeetsAll(SubjectTime(MIN_INSTANT, MIN_INSTANT), cs, Retired)
  {
    forall t: Instant | TimeMeetsAll(SubjectTime(t, t), cs, Established)
      ensures TimeMeetsAll(SubjectTime(MAX_INSTANT, MAX_INSTANT), cs, Established)
    {
      assert forall c | c in cs && c.boundary.time.Some? ::
        TimeMeets(SubjectTime(t, t), c.boundary.time.value, Established);
    }
    forall t: Instant | TimeMeetsAll(SubjectTime(t, t), cs, Retired)
      ensures TimeMeetsAll(SubjectTime(MIN_INSTANT, MIN_INSTANT), cs, Retired)
    {
      assert forall c | c in cs && c.boundary.time.Some? ::
        TimeMeets(SubjectTime(t, t), c.boundary.time.value, Retired);
    }
  }

  /** Some index meets every log bound of both sides. */
  ghost predicate SomeIndexFits(est: seq<Constraint>, ret: seq<Constraint>) {
    exists i: Uint64 :: IndexMeetsAll(i, est, Established) && IndexMeetsAll(i, ret, Retired)
  }

  ghost predicate SomeInstantFits(est: seq<Constraint>, ret: seq<Constraint>) {
    exists t: Instant :: MomentMeetsAll(t, est, ret)
  }

  /**
   Normalization asks whether an index fits only when both sides bound the log. Constraints that pass are met by
   no index exactly when one side alone bounds the log and excludes everything up to its end of the range.
   */
  lemma LogWindowUnchecked(est: seq<Constraint>, ret: seq<Constraint>)
    requires Normalizable(est, ret)
    ensures !SomeIndexFits(est, ret) <==>
              || (HasLog(est) && !HasLog(ret) && ExcludesAt(est, MAX_UINT64))
              || (HasLog(ret) && !HasLog(est) && ExcludesAt(ret, 0))
  {
    NothingAsked(est, Established);
    NothingAsked(ret, Retired);
    ExtremeMeets(est);
    ExtremeMeets(ret);
    ExtremeDecides(est);
    ExtremeDecides(ret);
  }

  /** The same for instants. */
  lemma TimeWindowUnchecked(est: seq<Constraint>, ret: seq<Constraint>)
    requires Normalizable(est, ret)
    ensures !SomeInstantFits(est, ret) <==>
              || (HasTime(est) && !HasTime(ret) && ExcludesInstant(est, Established, MAX_INSTANT))
              || (HasTime(ret) && !HasTime(est) && ExcludesInstant(ret, Retired, MIN_INSTANT))
  {
    NothingAsked(est, Established);
    NothingAsked(ret, Retired);
    ExtremeMeets(est);
    ExtremeMeets(ret);
    ExtremeDecides(est);
    ExtremeDecides(ret);
    if HasTime(est) && !HasTime(ret) && !ExcludesInstant(est, Established, MAX_INSTANT) {
      assert MomentMeetsAll(MAX_INSTANT, est, ret);
    } else if HasTime(ret) && !HasTime(est) && !ExcludesInstant(ret, Retired, MIN_INSTANT) {
      assert MomentMeetsAll(MIN_INSTANT, est, ret);
    } else if !HasTime(est) && !HasTime(ret) {
      assert MomentMeetsAll(0, est, ret);
    }
  }

  function LogOnly(index: Uint64): Constraint {
    Constraint(Boundary(Some(LogBound(LogPosition(TENANT_DOMAIN, index), false)), None), [])
  }

  /** Established after the largest index: accepted, and met by nothing. */
  lemma EstablishedAfterTheLast()
    ensures Normalizable([LogOnly(MAX_UINT64)], []) && !SomeIndexFits([LogOnly(MAX_UINT64)], [])
  {
    var c := LogOnly(MAX_UINT64);
    assert [c] + [] == [c];
    assert InDomain([c], TENANT_DOMAIN);
    assert c in [c] && !IndexMeets(MAX_UINT64, c.boundary.log.value, Established);
  }

  function TimeOnly(t: Instant): Constraint {
    Constraint(Boundary(None, Some(TimeBound(t, t, None, false))), [])
  }

  /** Established after the last instant, or retired before the first one: accepted, and met by nothing. */
  lemma OutsideOfTime()
    ensures Normalizable([TimeOnly(MAX_INSTANT)], []) && !SomeInstantFits([TimeOnly(MAX_INSTANT)], [])
    ensures Normalizable([], [TimeOnly(MIN_INSTANT)]) && !SomeInstantFits([], [TimeOnly(MIN_INSTANT)])
  {
    var late, early := TimeOnly(MAX_INSTANT), TimeOnly(MIN_INSTANT);
    assert [late] + [] == [late] && [] + [early] == [early];
    assert InDomain([late], "") && InDomain([early], "");
    assert late in [late] && early in [early];
    TimeWindowUnchecked([late], []);
    TimeWindowUnchecked([], [early]);
  }

  /** Retired before the first index: accepted, and met by nothing. */
  lemma RetiredBeforeTheFirst()
    ensures Normalizable([], [LogOnly(0)]) && !SomeIndexFits([], [LogOnly(0)])
  {
    var c := LogOnly(0);
    assert [] + [c] == [c];
    assert InDomain([c], TENANT_DOMAIN);
    assert c in [c] && !IndexMeets(0, c.boundary.log.value, Retired);
  }

  // ---------------------------------------------------------------- checking a subject

  predicate TenantBound(b: Option<LogBound>) {
    b.Some? ==> b.value.position.domain == TENANT_DOMAIN
  }

  predicate CheckLogValidity(s: Subject, w: Window) {
    var est, ret := WindowLog(w.established), WindowLog(w.retired);
    (est.None? && ret.None?)
    || (&& TenantBound(est) && TenantBound(ret)
        && s.position.Some? && s.position.value.domain == TENANT_DOMAIN
        && (est.Some? ==> IndexMeets(s.position.value.index, est.value, Established))
        && (ret.Some? ==> IndexMeets(s.position.value.index, ret.value, Retired)))
  }

  predicate ObservationMeets(o: SubjectTime, w: Window) {
    && (WindowTime(w.established).Some? ==> TimeMeets(o, WindowTime(w.established).value, Established))
    && (WindowTime(w.retired).Some? ==> TimeMeets(o, WindowTime(w.retired).value, Retired))
  }

  predicate OrderedTimes(s: Subject) {
    forall o | o in s.times :: o.earliest <= o.latest
  }

  method CheckTimeValidity(s: Subject, w: Window) returns (ok: bool)
    ensures ok <==> || (WindowTime(w.established).None? && WindowTime(w.retired).None?)
                    || (OrderedTimes(s) && exists o | o in s.times :: ObservationMeets(o, w))
  {
    if WindowTime(w.established).None? && WindowTime(w.retired).None? {
      return true;
    }
    for i := 0 to |s.times|
      invariant forall o | o in s.times[..i] :: o.earliest <= o.latest
    {
      if s.times[i].earliest > s.times[i].latest {
        assert s.times[i] in s.times;
        return false;
      }
      assert s.times[..i + 1] == s.times[..i] + [s.times[i]];
    }
    assert s.times[..|s.times|] == s.times;
    for i := 0 to |s.times|
      invariant forall o | o in s.times[..i] :: !ObservationMeets(o, w)
    {
      assert s.times[..i + 1] == s.times[..i] + [s.times[i]];
      if ObservationMeets(s.times[i], w) {
        assert s.times[i] in s.times;
        return true;
      }
    }
    return false;
  }

  // ---------------------------------------------------------------- the whole decision

  /** The subject's position is in the tenant log and satisfies every log constraint, if there is any. */
  ghost predicate LogHolds(s: Subject, est: seq<Constraint>, ret: seq<Constraint>) {
    HasLog(est) || HasLog(ret) ==>
      && InDomain(est, TENANT_DOMAIN) && InDomain(ret, TENANT_DOMAIN)
      && s.position.Some? && s.position.value.domain == TENANT_DOMAIN
      && IndexMeetsAll(s.position.value.index, est, Established)
      && IndexMeetsAll(s.position.value.index, ret, Retired)
  }

  /** All observations are proper intervals and one of them satisfies every time constraint, if there is any. */
  ghost predicate TimeHolds(s: Subject, est: seq<Constraint>, ret: seq<Constraint>) {
    HasTime(est) || HasTime(ret) ==>
      && OrderedTimes(s)
      && exists o | o in s.times :: TimeMeetsAll(o, est, Established) && TimeMeetsAll(o, ret, Retired)
  }

  /** Every constraint, read on its own: no window, no chosen bound, no satisfiability. */
  ghost predicate EveryConstraintHolds(s: Subject, est: seq<Constraint>, ret: seq<Constraint>) {
    && (forall c | c in est + ret :: WellFormed(c))
    && (exists d :: InDomain(est + ret, d))
    && LogHolds(s, est, ret)
    && TimeHolds(s, est, ret)
  }

  /** Without log bounds a side asks nothing of an index; likewise for time. */
  lemma NothingAsked(cs: seq<Constraint>, side: Side)
    ensures !HasLog(cs) ==> forall i: Uint64 :: IndexMeetsAll(i, cs, side)
    ensures !HasTime(cs) ==> forall o :: TimeMeetsAll(o, cs, side)
  {
  }

  /** A position or observation that satisfies everything shows that the window is satisfiable. */
  lemma HoldingIsSatisfiable(s: Subject, est: seq<Constraint>, ret: seq<Constraint>)
    requires EveryConstraintHolds(s, est, ret)
    ensures Normalizable(est, ret)
  {
    if HasTime(est) && HasTime(ret) {
      var o :| o in s.times && TimeMeetsAll(o, est, Established) && TimeMeetsAll(o, ret, Retired);
      forall c | c in ret && c.boundary.time.Some?
        ensures TimeMeets(SubjectTime(o.earliest, o.earliest), c.boundary.time.value, Retired)
      {
        assert TimeMeets(o, c.boundary.time.value, Retired);
      }
      forall c | c in est && c.boundary.time.Some?
        ensures TimeMeets(SubjectTime(o.earliest, o.earliest), c.boundary.time.value, Established)
      {
        assert TimeMeets(o, c.boundary.time.value, Established);
      }
      assert MomentMeetsAll(o.earliest, est, ret);
    }
  }

  lemma LogCheckMeans(s: Subject, w: Window, est: seq<Constraint>, ret: seq<Constraint>)
    requires SideMeans(w.established, est, Established) && SideMeans(w.retired, ret, Retired)
    requires exists d :: InDomain(est + ret, d)
    ensures CheckLogValidity(s, w) <==> LogHolds(s, est, ret)
  {
    var d :| InDomain(est + ret, d);
    DomainSplits(est, ret, d);
    NothingAsked(est, Established);
    NothingAsked(ret, Retired);
    DomainDecided(est, d);
    DomainDecided(ret, d);
  }

  lemma DomainSplits(est: seq<Constraint>, ret: seq<Constraint>, d: string)
    requires InDomain(est + ret, d)
    ensures InDomain(est, d) && InDomain(ret, d)
  {
    assert forall c | c in est :: c in est + ret;
    assert forall c | c in ret :: c in est + ret;
  }

  lemma DomainDecided(cs: seq<Constraint>, d: string)
    requires InDomain(cs, d)
    ensures InDomain(cs, TENANT_DOMAIN) <==> !HasLog(cs) || d == TENANT_DOMAIN
  {
  }

  lemma TimeCheckMeans(s: Subject, w: Window, est: seq<Constraint>, ret: seq<Constraint>)
    requires SideMeans(w.established, est, Established) && SideMeans(w.retired, ret, Retired)
    ensures forall o :: ObservationMeets(o, w) <==> TimeMeetsAll(o, est, Established) && TimeMeetsAll(o, ret, Retired)
  {
    NothingAsked(est, Established);
    NothingAsked(ret, Retired);
  }

  /** Normalizing and then checking decides exactly whether every constraint holds of the subject. */
  method Decide(s: Subject, est: seq<Constraint>, ret: seq<Constraint>) returns (ok: bool)
    ensures ok <==> EveryConstraintHolds(s, est, ret)
  {
    var validity := NormalizeValidityWindow(est, ret);
    if validity.None? {
      if EveryConstraintHolds(s, est, ret) { HoldingIsSatisfiable(s, est, ret); }
      return false;
    }
    var w := validity.value.window;
    LogCheckMeans(s, w, est, ret);
    TimeCheckMeans(s, w, est, ret);
    if !CheckLogValidity(s, w) {
      return false;
    }
    ok := CheckTimeValidity(s, w);
  }

  // ---------------------------------------------------------------- order

  /** Neither the decision nor the basis depends on the order or repetition of constraints. */
  lemma OrderIrrelevant(s: Subject, est: seq<Constraint>, ret: seq<Constraint>, est': seq<Constraint>,
                        ret': seq<Constraint>,
                        basis: seq<string>, basis': seq<string>)
    requires forall c :: c in est <==> c in est'
    requires forall c :: c in ret <==> c in ret'
    requires IsBasisOf(basis, est + ret) && IsBasisOf(basis', est' + ret')
    ensures EveryConstraintHolds(s, est, ret) <==> EveryConstraintHolds(s, est', ret')
    ensures basis == basis'
  {
    SameMembers(s, est, ret, est', ret');
    assert forall c :: c in est + ret <==> c in est' + ret';
    forall d
      ensures InBasis(d, est + ret) <==> InBasis(d, est' + ret')
    {
    }
    IncreasingUnique(basis, basis');
  }

  lemma SameMembers(s: Subject, est: seq<Constraint>, ret: seq<Constraint>, est': seq<Constraint>,
                    ret': seq<Constraint>)
    requires forall c :: c in est <==> c in est'
    requires forall c :: c in ret <==> c in ret'
    ensures EveryConstraintHolds(s, est, ret) <==> EveryConstraintHolds(s, est', ret')
  {
    assert forall c :: c in est + ret <==> c in est' + ret';
    assert forall d :: InDomain(est + ret, d) <==> InDomain(est' + ret', d);
    assert forall i: Uint64 :: IndexMeetsAll(i, est, Established) <==> IndexMeetsAll(i, est', Established);
    assert forall i: Uint64 :: IndexMeetsAll(i, ret, Retired) <==> IndexMeetsAll(i, ret', Retired);
    assert forall o :: TimeMeetsAll(o, est, Established) <==> TimeMeetsAll(o, est', Established);
    assert forall o :: TimeMeetsAll(o, ret, Retired) <==> TimeMeetsAll(o, ret', Retired);
  }
}
