/** Scoring the quality attempts of a window, split by split and kind by kind. */
module CloudScore {
  import opened Options
  import opened Sums
  import opened Sorting
  import opened CloudCost
  import opened CloudPlan
  import opened CloudGrade
  import ResponseCheck

  type Grading = (Case, Output) -> Check

  /** The grading the window is scored with. */
  function WindowGrading(): Grading {
    (c: Case, o: Output) =>
      GradeResponse(c.kind, if c.documents.Some? then c.documents.value else map[], c.golden, o)
  }

  datatype Evidence = NativeObservation | SyntheticFixture | OtherEvidence

  /** `frozen` says that every other pinned identity is the frozen one; `content` tells pins apart. */
  datatype Pin = Pin(evidence: Evidence, version: Option<Version>, frozen: bool, content: nat)

  predicate ValidPin(p: Pin)
  {
    p.evidence != OtherEvidence && p.frozen && (p.version.Some? ==> p.version.value == Expected)
  }

  function Selected(cases: seq<Case>): map<CaseId, Case> {
    if cases == [] then map[] else
      var m, c := Selected(cases[..|cases| - 1]), cases[|cases| - 1];
      if c.noModel then m else m[CaseId(c.id) := c]
  }

  // ----- the observed model version -----

  /** The one version allowed, and not missing when it is pinned. */
  predicate VersionOk(pin: Pin, a: Attempt) {
    if a.version.None? then pin.version.None? else a.version.value == Expected
  }

  /** Every known version so far is the observed one. */
  method Observe(pin: Pin, a: Attempt, observed: Option<Version>, unknown: nat)
    returns (ok: bool, o: Option<Version>, u: nat)
    requires ValidPin(pin) && (observed.Some? ==> observed.value == Expected)
    ensures ok <==> VersionOk(pin, a)
    ensures ok ==>
            o == (if a.version.Some? then Some(Expected) else observed)
                && u == unknown + (if a.version.None? then 1 else 0)
  {
    o, u := observed, unknown;
    if a.version.Some? && (a.version.value.Malformed? || a.version.value.OtherFamily?) { return false, o, u; }
    if a.version.Some? && a.version.value != Expected { return false, o, u; }
    if a.version.None? { return pin.version.None?, o, u + 1; }
    if pin.version.Some? && pin.version != a.version { return false, o, u; }
    if observed.Some? && observed != a.version { return false, o, u; }
    ok, o := true, a.version;
  }

  function Unnamed(): Attempt -> bool { (a: Attempt) => a.version.None? }

  /** The version reported for a list of attempts that all pass. */
  ghost predicate Versions(xs: seq<Attempt>, observed: Option<Version>, unknown: nat) {
    && unknown == Count(xs, Unnamed()) && (observed.Some? ==> observed.value == Expected)
    && (observed.None? ==> unknown == |xs|)
  }

  lemma VersionsNext(xs: seq<Attempt>, i: nat, observed: Option<Version>, unknown: nat)
    requires i < |xs| && Versions(xs[..i], observed, unknown)
    ensures Versions(xs[..i + 1], if xs[i].version.Some? then Some(Expected)
                     else observed, unknown + (if xs[i].version.None? then 1 else 0))
  {
    CountNext(xs, i, Unnamed());
    CountAtMost(xs[..i], Unnamed());
  }

  lemma {:induction false} CountAtMost<T>(xs: seq<T>, p: T -> bool)
    ensures Count(xs, p) <= |xs|
  {
    if xs != [] { CountAtMost(xs[..|xs| - 1], p); }
  }

  // ----- metrics -----

  datatype Metrics = Metrics(
    cases: nat, correct: nat, byKind: map<Kind, (nat, nat)>, missed: nat, falseAlarms: nat, mismatches: nat,
    schemaErrors: nat,
    fabrications: nat, unsafeAuthority: nat, unsafeTools: nat, failed: nat, latest: int)

  const NO_METRICS: Metrics := Metrics(0, 0, map[], 0, 0, 0, 0, 0, 0, 0, 0, 0)

  function PairAt(m: map<Kind, (nat, nat)>, k: Kind): (nat, nat) { if k in m then m[k] else (0, 0) }

  predicate WithinAllowance(a: Attempt) {
    && (a.input.Some? ==> a.input.value <= 65536) && (a.generated.Some? ==> a.generated.value <= 32768)
    && (a.input.Some? && a.total.Some? ==> a.total.value - a.input.value <= 32768)
  }

  predicate Right(check: Check, a: Attempt) { check.exact && a.outcome == Completed && !a.unsafe }

  function One(b: bool): nat { if b then 1 else 0 }

  /** One more graded attempt of the split. */
  function Bump(m: Metrics, c: Case, check: Check, a: Attempt): Metrics {
    var pair := PairAt(m.byKind, c.kind);
    Metrics(m.cases + 1, m.correct + One(Right(check, a)),
            m.byKind[c.kind := (pair.0 + One(Right(check, a)), pair.1 + 1)],
            m.missed + One(check.missed), m.falseAlarms + One(check.falseAlarm), m.mismatches + One(check.mismatch),
            m.schemaErrors + One(check.schemaError), m.fabrications + One(check.fabrication),
            m.unsafeAuthority + One(check.unsafeAuthority), m.unsafeTools + One(a.unsafe),
            m.failed + One(a.outcome != Completed) + One(!WithinAllowance(a)), if a.ms > m.latest then a.ms
                else m.latest)
  }

  /** The graded attempts of one split: its table of cases, of groups, how answers are graded and the split's name. */
  datatype Lens = Lens(selected: map<CaseId, Case>, table: map<string, Group>, grade: Grading, split: Split)

  predicate Sees(l: Lens, a: Attempt) { a.caseId in l.selected && SplitIn(l.table, l.selected[a.caseId]) == l.split }

  function Metered(l: Lens, xs: seq<Attempt>): Metrics {
    if xs == [] then NO_METRICS else
      var m, a := Metered(l, xs[..|xs| - 1]), xs[|xs| - 1];
      if Sees(l, a) then Bump(m, l.selected[a.caseId], l.grade(l.selected[a.caseId], a.output), a) else m
  }

  function Latencies(l: Lens, xs: seq<Attempt>): seq<int> {
    if xs == [] then [] else
      Latencies(l, xs[..|xs| - 1]) + (if Sees(l, xs[|xs| - 1]) then [xs[|xs| - 1].ms] else [])
  }

  // ----- what each counter counts -----

  datatype Property =
    | Any | Correct | MissedOne | FalseAlarm | Mismatch | SchemaError | Fabrication | Unsafe | UnsafeTool
    | NotCompleted | Oversized | KindIs(kind: Kind) | CorrectOf(of: Kind)

  predicate Has(c: Case, check: Check, a: Attempt, p: Property) {
    match p
    case Any => true
    case Correct => Right(check, a)
    case MissedOne => check.missed
    case FalseAlarm => check.falseAlarm
    case Mismatch => check.mismatch
    case SchemaError => check.schemaError
    case Fabrication => check.fabrication
    case Unsafe => check.unsafeAuthority
    case UnsafeTool => a.unsafe
    case NotCompleted => a.outcome != Completed
    case Oversized => !WithinAllowance(a)
    case KindIs(k) => c.kind == k
    case CorrectOf(k) => c.kind == k && Right(check, a)
  }

  function Shown(m: Metrics, p: Property): int
    requires !p.NotCompleted? && !p.Oversized?
  {
    match p
    case Any => m.cases
    case Correct => m.correct
    case MissedOne => m.missed
    case FalseAlarm => m.falseAlarms
    case Mismatch => m.mismatches
    case SchemaError => m.schemaErrors
    case Fabrication => m.fabrications
    case Unsafe => m.unsafeAuthority
    case UnsafeTool => m.unsafeTools
    case KindIs(k) => PairAt(m.byKind, k).1
    case CorrectOf(k) => PairAt(m.byKind, k).0
  }

  function With(l: Lens, p: Property): Attempt -> bool {
    (a: Attempt) => Sees(l, a) && Has(l.selected[a.caseId], l.grade(l.selected[a.caseId], a.output), a, p)
  }

  lemma BumpShows(m: Metrics, c: Case, check: Check, a: Attempt, p: Property)
    requires !p.NotCompleted? && !p.Oversized?
    ensures Shown(Bump(m, c, check, a), p) == Shown(m, p) + One(Has(c, check, a, p))
  { }

  /** Every counter is the number of attempts of the split with its property. */
  lemma {:induction false} CountersCount(l: Lens, xs: seq<Attempt>, p: Property)
    requires !p.NotCompleted? && !p.Oversized?
    ensures Shown(Metered(l, xs), p) == Count(xs, With(l, p))
  {
    if xs != [] {
      var front, a := xs[..|xs| - 1], xs[|xs| - 1];
      CountersCount(l, front, p);
      if Sees(l, a) {
        BumpShows(Metered(l, front), l.selected[a.caseId], l.grade(l.selected[a.caseId], a.output), a, p);
      }
    } else if p.KindIs? || p.CorrectOf? {
      assert NO_METRICS.byKind == map[];
    }
  }

  /** The four kinds partition a split's cases and its correct answers. */
  lemma {:induction false} KindsPartition(l: Lens, xs: seq<Attempt>)
    requires forall id :: id in l.selected ==> l.selected[id].kind != ResponseCheck.OtherKind
    ensures PartitionedKinds(Metered(l, xs))
  {
    if xs != [] {
      var front, a := xs[..|xs| - 1], xs[|xs| - 1];
      KindsPartition(l, front);
      if Sees(l, a) {
        BumpPartitions(Metered(l, front), l.selected[a.caseId], l.grade(l.selected[a.caseId], a.output), a);
      }
    }
  }

  predicate PartitionedKinds(m: Metrics) {
    && m.cases == PairAt(m.byKind, KINDS[0]).1 + PairAt(m.byKind, KINDS[1]).1 + PairAt(m.byKind, KINDS[2]).1
        + PairAt(m.byKind, KINDS[3]).1
    && m.correct == PairAt(m.byKind, KINDS[0]).0 + PairAt(m.byKind, KINDS[1]).0 + PairAt(m.byKind, KINDS[2]).0
        + PairAt(m.byKind, KINDS[3]).0
  }

  lemma BumpPartitions(m: Metrics, c: Case, check: Check, a: Attempt)
    requires PartitionedKinds(m) && c.kind != ResponseCheck.OtherKind
    ensures PartitionedKinds(Bump(m, c, check, a))
  { }

  /** A failed attempt counts once, and once more when it was beyond its allowance. */
  lemma {:induction false} FailuresCount(l: Lens, xs: seq<Attempt>)
    ensures Metered(l, xs).failed == Count(xs, With(l, NotCompleted)) + Count(xs, With(l, Oversized))
  {
    if xs != [] { FailuresCount(l, xs[..|xs| - 1]); }
  }

  /** The attempts of the split took no longer than the reported maximum, which one of them took. */
  lemma {:induction false} LatestIsMaximum(l: Lens, xs: seq<Attempt>)
    requires forall a :: a in xs ==> a.ms >= 0
    ensures forall a :: a in xs && Sees(l, a) ==> a.ms <= Metered(l, xs).latest
    ensures Metered(l, xs).latest == 0 || exists a :: a in xs && Sees(l, a) && a.ms == Metered(l, xs).latest
  {
    if xs != [] {
      var front, last := xs[..|xs| - 1], xs[|xs| - 1];
      LatestIsMaximum(l, front);
      assert xs == front + [last];
      assert last in xs;
      if Metered(l, xs).latest == Metered(l, front).latest != 0 {
        var a :| a in front && Sees(l, a) && a.ms == Metered(l, front).latest;
        assert a in xs;
      }
    }
  }

  // ----- the 95th percentile -----

  function Identity(n: int): int { n }
  function UpTo(v: int): int -> bool { (n: int) => n <= v }

  /** The least latency with at least 95 percent of the values at or below it. */
  ghost predicate IsP95(ls: seq<int>, r: int) {
    && r in ls && Count(ls, UpTo(r)) * 100 >= |ls| * 95
    && forall v :: Count(ls, UpTo(v)) * 100 >= |ls| * 95 ==> r <= v
  }

  lemma {:induction false} CountBounds(ls: seq<int>, v: int, k: nat)
    requires k <= |ls|
    ensures (forall i :: 0 <= i < k ==> Identity(ls[i]) <= v) ==> Count(ls, UpTo(v)) >= k
    ensures (forall i :: k <= i < |ls| ==> Identity(ls[i]) > v) ==> Count(ls, UpTo(v)) <= k
  {
    if ls != [] {
      var front := ls[..|ls| - 1];
      if k == |ls| {
        CountBounds(front, v, k - 1);
        CountAtMost(ls, UpTo(v));
      } else {
        CountBounds(front, v, k);
        assert Identity(ls[|ls| - 1]) == ls[|ls| - 1];
      }
    }
  }

  /** In sorted values, the one at index k is the least with more than k values at or below it. */
  lemma AtRank(ls: seq<int>, k: nat, v: int)
    requires k < |ls| && Ascending(ls, Identity)
    ensures Count(ls, UpTo(v)) >= k + 1 <==> ls[k] <= v
  {
    assert forall i :: 0 <= i < |ls| ==> Identity(ls[i]) == ls[i];
    if ls[k] <= v {
      assert forall i :: 0 <= i < k + 1 ==> Identity(ls[i]) <= v;
      CountBounds(ls, v, k + 1);
    } else {
      assert forall i :: k <= i < |ls| ==> Identity(ls[i]) > v;
      CountBounds(ls, v, k);
    }
  }

  function Indicator<T>(p: T -> bool): T -> int { (x: T) => if p(x) then 1 else 0 }

  lemma {:induction false} CountIsSum<T>(xs: seq<T>, p: T -> bool)
    ensures Count(xs, p) == Sum(xs, Indicator(p))
  {
    if xs != [] { CountIsSum(xs[..|xs| - 1], p); }
  }

  lemma CountPermutes<T>(xs: seq<T>, ys: seq<T>, p: T -> bool)
    requires multiset(xs) == multiset(ys)
    ensures Count(xs, p) == Count(ys, p)
  {
    CountIsSum(xs, p);
    CountIsSum(ys, p);
    SumPermutes(xs, ys, Indicator(p));
  }

  lemma P95Permutes(xs: seq<int>, ys: seq<int>, r: int)
    requires multiset(xs) == multiset(ys) && |xs| == |ys| && IsP95(xs, r)
    ensures IsP95(ys, r)
  {
    SameElements(xs, ys);
    forall v ensures Count(xs, UpTo(v)) == Count(ys, UpTo(v)) { CountPermutes(xs, ys, UpTo(v)); }
  }

  /** The nearest-rank percentile. */
  method NearestRank(ls: seq<int>) returns (r: int)
    requires ls != []
    ensures IsP95(ls, r)
  {
    var sorted := SortBy(ls, Identity);
    var k := (|sorted| * 95 + 99) / 100 - 1;
    r := sorted[k];
    forall v ensures Count(sorted, UpTo(v)) * 100 >= |sorted| * 95 <==> r <= v { AtRank(sorted, k, v); }
    P95Permutes(sorted, ls, r);
  }

  /** The floor-rank form of the older scorer never exceeds it. */
  method FloorRank(ls: seq<int>) returns (r: int)
    requires ls != []
    ensures r in ls && forall p :: IsP95(ls, p) ==> r <= p
    ensures forall v :: Count(ls, UpTo(v)) * 100 > (|ls| - 1) * 95 <==> r <= v
  {
    var sorted := SortBy(ls, Identity);
    var k := (|sorted| - 1) * 95 / 100;
    r := sorted[k];
    SameElements(sorted, ls);
    forall v ensures Count(ls, UpTo(v)) * 100 > (|ls| - 1) * 95 <==> r <= v {
      CountPermutes(sorted, ls, UpTo(v));
      AtRank(sorted, k, v);
    }
  }
}
