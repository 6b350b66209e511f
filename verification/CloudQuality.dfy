/** The quality report: which attempts it accepts, what its splits add up to, when it is complete and when it passes. */
module CloudQuality {
  import opened Options
  import opened Sets
  import opened CloudCost
  import opened CloudPlan
  import ResponseCheck
  import opened CloudScore

  const SPLITS: seq<Split> := [Development, Tuning, Holdout]

  function Quota(s: Split): nat {
    match s case Development => 96 case Tuning => 64 case Holdout => 76 case OtherSplit => 0
  }

  function LensOf(corpus: Corpus, grade: Grading, s: Split): Lens {
    Lens(Selected(corpus.cases), GroupTable(corpus.groups), grade, s)
  }

  // ----- which attempts are scored -----

  /** The unchanged question of an eligible case, asked once by a single agent of the allowed version. */
  predicate Scorable(selected: map<CaseId, Case>, pin: Pin, a: Attempt) {
    && a.caseId in selected && a.role == Single && a.parent.None? && Valid(a) && a.inputSha == ModelInput(a.caseId, [])
    && VersionOk(pin, a)
  }

  predicate Apart(xs: seq<Attempt>) {
    forall i, j :: 0 <= i < j < |xs| ==>
                     xs[i].caseId != xs[j].caseId && xs[i].id != xs[j].id && xs[i].context != xs[j].context
  }

  predicate AllScorable(selected: map<CaseId, Case>, pin: Pin, xs: seq<Attempt>) {
    Apart(xs) && forall a :: a in xs ==> Scorable(selected, pin, a)
  }

  ghost predicate ScoreOk(selected: map<CaseId, Case>, pin: Pin, xs: seq<Attempt>) {
    ValidPin(pin) && Representable(xs) && AllScorable(selected, pin, xs)
  }

  datatype Marks = Marks(cases: set<CaseId>, ids: set<AttemptId>, contexts: set<Context>)

  function MarksOf(xs: seq<Attempt>): Marks {
    Marks(set a | a in xs :: a.caseId, set a | a in xs :: a.id, set a | a in xs :: a.context)
  }

  predicate Unmarked(m: Marks, a: Attempt) { a.caseId !in m.cases && a.id !in m.ids && a.context !in m.contexts }

  lemma MarksNext(xs: seq<Attempt>, i: nat)
    requires i < |xs|
    ensures MarksOf(xs[..i + 1]) == Marks(MarksOf(xs[..i]).cases + {xs[i].caseId}, MarksOf(xs[..i]).ids + {xs[i].id},
                                          MarksOf(xs[..i]).contexts + {xs[i].context})
  {
    assert xs[..i + 1] == xs[..i] + [xs[i]];
  }

  lemma ApartNext(xs: seq<Attempt>, i: nat)
    requires i < |xs| && Apart(xs[..i])
    ensures Apart(xs[..i + 1]) <==> Unmarked(MarksOf(xs[..i]), xs[i])
  {
    var ys, a := xs[..i + 1], xs[i];
    assert ys == xs[..i] + [a];
    if !Unmarked(MarksOf(xs[..i]), a) {
      var b :| b in xs[..i] && (b.caseId == a.caseId || b.id == a.id || b.context == a.context);
      var j :| 0 <= j < i && xs[j] == b;
      assert ys[j] == b && ys[i] == a;
    } else {
      assert forall j :: 0 <= j < i ==> ys[j] in xs[..i];
    }
  }

  lemma AllNext(selected: map<CaseId, Case>, pin: Pin, xs: seq<Attempt>, i: nat)
    requires i < |xs| && AllScorable(selected, pin, xs[..i])
    ensures AllScorable(selected, pin, xs[..i + 1]) <==>
            Unmarked(MarksOf(xs[..i]), xs[i]) && Scorable(selected, pin, xs[i])
    ensures AllScorable(selected, pin, xs) ==> AllScorable(selected, pin, xs[..i + 1])
  {
    hide Scorable, Unmarked, MarksOf;
    ApartNext(xs, i);
    assert xs[..i + 1] == xs[..i] + [xs[i]];
    assert forall a :: a in xs[..i + 1] ==> a in xs;
    assert xs[i] in xs[..i + 1];
  }

  // ----- metering -----

  ghost predicate MeteredAll(corpus: Corpus, grade: Grading, xs: seq<Attempt>, metrics: map<Split, Metrics>,
                             times: map<Split, seq<int>>) {
    forall s :: s in SPLITS ==>
                  && s in metrics && metrics[s] == Metered(LensOf(corpus, grade, s), xs)
                  && s in times && times[s] == Latencies(LensOf(corpus, grade, s), xs)
  }

  lemma MeteredNext(corpus: Corpus, grade: Grading, xs: seq<Attempt>, i: nat, metrics: map<Split, Metrics>,
                    times: map<Split, seq<int>>)
    requires i < |xs| && MeteredAll(corpus, grade, xs[..i], metrics, times) && xs[i].caseId in Selected(corpus.cases)
    requires SplitIn(GroupTable(corpus.groups), Selected(corpus.cases)[xs[i].caseId]) in SPLITS
    ensures var c := Selected(corpus.cases)[xs[i].caseId];
            var s := SplitIn(GroupTable(corpus.groups), c);
            MeteredAll(corpus, grade, xs[..i + 1], metrics[s := Bump(metrics[s], c, grade(c, xs[i].output), xs[i])],
                       times[s := times[s] + [xs[i].ms]])
  {
    hide Bump, Selected, GroupTable;
    assert xs[..i + 1][..i] == xs[..i];
  }

  lemma {:induction false} SelectedIs(cases: seq<Case>)
    requires DistinctCases(cases)
    ensures forall id :: id in Selected(cases) <==> exists c :: c in cases && !c.noModel && id == CaseId(c.id)
    ensures forall id :: id in Selected(cases) ==>
            Selected(cases)[id] in cases && !Selected(cases)[id].noModel && id == CaseId(Selected(cases)[id].id)
  {
    if cases != [] {
      var front, last := cases[..|cases| - 1], cases[|cases| - 1];
      SelectedIs(front);
      assert cases == front + [last];
      assert last in cases;
    }
  }

  lemma SelectedSound(corpus: Corpus)
    requires ValidCorpus(corpus)
    ensures forall id :: id in Selected(corpus.cases) ==>
            SplitIn(GroupTable(corpus.groups), Selected(corpus.cases)[id]) in SPLITS
    ensures forall id :: id in Selected(corpus.cases) ==> Selected(corpus.cases)[id].kind != ResponseCheck.OtherKind
  {
    hide CellCounts, GroupCounts, CaseCounts, Comparable;
    SelectedIs(corpus.cases);
    GroupSplits(corpus.groups);
    forall id | id in Selected(corpus.cases)
      ensures SplitIn(GroupTable(corpus.groups), Selected(corpus.cases)[id]) in SPLITS
              && Selected(corpus.cases)[id].kind != ResponseCheck.OtherKind
    {
      var c := Selected(corpus.cases)[id];
      assert SoundCase(GroupTable(corpus.groups), c);
    }
  }

  method SelectCases(cases: seq<Case>) returns (selected: map<CaseId, Case>)
    ensures selected == Selected(cases)
  {
    selected := map[];
    for i := 0 to |cases|
      invariant selected == Selected(cases[..i])
    {
      assert cases[..i + 1][..i] == cases[..i];
      if !cases[i].noModel { selected := selected[CaseId(cases[i].id) := cases[i]]; }
    }
    assert cases[..|cases|] == cases;
  }

  datatype Metering = Metering(
    metrics: map<Split, Metrics>, times: map<Split, seq<int>>, seen: set<CaseId>, observed: Option<Version>,
    unknown: nat)

  /** Grades the attempts in order and files each under its case's split. */
  method Meter(corpus: Corpus, selected: map<CaseId, Case>, pin: Pin, grade: Grading, xs: seq<Attempt>)
    returns (ok: bool, r: Metering)
    requires ValidCorpus(corpus) && selected == Selected(corpus.cases) && ValidPin(pin)
    ensures ok <==> AllScorable(selected, pin, xs)
    ensures ok ==>
            MeteredAll(corpus, grade, xs, r.metrics, r.times) && r.seen == MarksOf(xs).cases
                && Versions(xs, r.observed, r.unknown)
  {
    hide ValidCorpus, MeteredAll, AllScorable, Scorable, MarksOf, Bump, Selected, GroupTable, Versions, Count, Valid,
         VersionOk, Unmarked, ValidPin, SplitIn;
    r := Metering(map[], map[], {}, None, 0);
    SelectedSound(corpus);
    var table := GroupTable(corpus.groups);
    var metrics := map[Development := NO_METRICS, Tuning := NO_METRICS, Holdout := NO_METRICS];
    var times := map[Development := [], Tuning := [], Holdout := []];
    var marks, observed, unknown := Marks({}, {}, {}), None, 0;
    NothingMetered(corpus, selected, pin, grade, metrics, times, xs);
    for i := 0 to |xs|
      invariant AllScorable(selected, pin, xs[..i]) && MeteredAll(corpus, grade, xs[..i], metrics, times)
      invariant marks == MarksOf(xs[..i]) && Versions(xs[..i], observed, unknown)
    {
      var a := xs[i];
      AllNext(selected, pin, xs, i);
      VersionsKnown(xs[..i], observed, unknown);
      ScorableMeans(selected, pin, a);
      if a.caseId !in selected || !Unmarked(marks, a) || a.role != Single || a.parent.Some? { return false, r; }
      if !Valid(a) || a.inputSha != ModelInput(a.caseId, []) { return false, r; }
      MarksNext(xs, i);
      VersionsNext(xs, i, observed, unknown);
      var fine;
      fine, observed, unknown := Observe(pin, a, observed, unknown);
      if !fine { return false, r; }
      marks := Marks(marks.cases + {a.caseId}, marks.ids + {a.id}, marks.contexts + {a.context});
      var c := selected[a.caseId];
      var s := SplitIn(table, c);
      MeteredNext(corpus, grade, xs, i, metrics, times);
      MeteredKeys(corpus, grade, xs[..i], metrics, times);
      metrics, times := metrics[s := Bump(metrics[s], c, grade(c, a.output), a)], times[s := times[s] + [a.ms]];
    }
    assert xs[..|xs|] == xs;
    ok, r := true, Metering(metrics, times, marks.cases, observed, unknown);
  }

  lemma NothingMetered(corpus: Corpus, selected: map<CaseId, Case>, pin: Pin, grade: Grading,
                       metrics: map<Split, Metrics>,
                       times: map<Split, seq<int>>, xs: seq<Attempt>)
    requires metrics == map[Development := NO_METRICS, Tuning := NO_METRICS, Holdout := NO_METRICS]
    requires times == map[Development := [], Tuning := [], Holdout := []]
    ensures AllScorable(selected, pin, xs[..0]) && MeteredAll(corpus, grade, xs[..0], metrics, times)
    ensures MarksOf(xs[..0]) == Marks({}, {}, {}) && Versions(xs[..0], None, 0)
  { }

  lemma VersionsKnown(xs: seq<Attempt>, observed: Option<Version>, unknown: nat)
    requires Versions(xs, observed, unknown)
    ensures observed.Some? ==> observed.value == Expected
  { }

  lemma ScorableMeans(selected: map<CaseId, Case>, pin: Pin, a: Attempt)
    ensures Scorable(selected, pin, a)
            <==> && a.caseId in selected && a.role == Single && a.parent.None? && Valid(a)
                 && a.inputSha == ModelInput(a.caseId, []) && VersionOk(pin, a)
  { }

  lemma MeteredKeys(corpus: Corpus, grade: Grading, xs: seq<Attempt>, metrics: map<Split, Metrics>,
                    times: map<Split, seq<int>>)
    requires MeteredAll(corpus, grade, xs, metrics, times)
    ensures forall s :: s in SPLITS ==> s in metrics && s in times
  { }

  // ----- the report -----

  datatype SplitReport = SplitReport(metrics: Metrics, missing: int, p95: int, passed: bool)

  datatype Status = NoGo | Fixture | VersionUnavailable | CostUnknown | Pass

  datatype QualityReport = QualityReport(
    splits: map<Split, SplitReport>, complete: bool, passed: bool, cost: Tally, observed: Option<Version>,
    unknown: nat, status: Status)

  predicate KindsPass(m: Metrics) {
    forall k :: k in KINDS ==> PairAt(m.byKind, k).1 > 0 && PairAt(m.byKind, k).0 * 100 >= PairAt(m.byKind, k).1 * 85
  }

  predicate SplitPasses(m: Metrics, quota: nat, p95: int) {
    && m.cases == quota && m.correct * 100 >= m.cases * 90 && m.missed <= 1 && m.falseAlarms <= 1
    && m.schemaErrors + m.fabrications + m.unsafeAuthority + m.unsafeTools + m.failed == 0
    && p95 <= 60000 && m.latest <= 120000 && KindsPass(m)
  }

  ghost predicate SplitIs(l: Lens, xs: seq<Attempt>, r: SplitReport) {
    && r.metrics == Metered(l, xs) && r.missing == Quota(l.split) - r.metrics.cases
    && (if Latencies(l, xs) == [] then r.p95 == 0 else IsP95(Latencies(l, xs), r.p95))
    && r.passed == SplitPasses(r.metrics, Quota(l.split), r.p95)
  }

  /** When each status is given, by what was measured. */
  ghost predicate StatusIs(status: Status, passed: bool, evidence: Evidence, unknown: nat, full: bool) {
    && (status == NoGo <==> !passed)
    && (status == Fixture <==> passed && evidence == SyntheticFixture)
    && (status == VersionUnavailable <==> passed && evidence == NativeObservation && unknown > 0)
    && (status == Pass <==> passed && evidence == NativeObservation && unknown == 0 && full)
    && (status == CostUnknown <==> passed && evidence == NativeObservation && unknown == 0 && !full)
  }

  function StatusOf(passed: bool, pin: Pin, unknown: nat, full: bool): (status: Status)
    requires ValidPin(pin)
    ensures StatusIs(status, passed, pin.evidence, unknown, full)
  {
    if !passed then NoGo else if pin.evidence == SyntheticFixture then Fixture
    else if unknown > 0 then VersionUnavailable else if full then Pass else CostUnknown
  }

  ghost predicate ReportIs(corpus: Corpus, pin: Pin, grade: Grading, xs: seq<Attempt>, r: QualityReport) {
    && SplitsAre(corpus, grade, xs, SPLITS, r.splits)
    && (r.complete <==> |MarksOf(xs).cases| == 236 && |Selected(corpus.cases)| == 236)
    && (r.passed <==> r.complete && SplitsPass(SPLITS, r.splits))
    && ExactSum(r.cost, xs) && Versions(xs, r.observed, r.unknown)
    && StatusIs(r.status, r.passed, pin.evidence, r.unknown, r.cost.full)
  }

  method CheckKinds(m: Metrics) returns (ok: bool)
    ensures ok <==> KindsPass(m)
  {
    ok := true;
    for i := 0 to |KINDS|
      invariant ok <==> forall k :: k in KINDS[..i] ==>
                PairAt(m.byKind, k).1 > 0 && PairAt(m.byKind, k).0 * 100 >= PairAt(m.byKind, k).1 * 85
    {
      var pair := PairAt(m.byKind, KINDS[i]);
      assert KINDS[..i + 1] == KINDS[..i] + [KINDS[i]];
      ok := ok && pair.1 > 0 && pair.0 * 100 >= pair.1 * 85;
    }
  }

  method FinishSplit(ghost l: Lens, ghost xs: seq<Attempt>, quota: nat, m: Metrics, times: seq<int>)
    returns (r: SplitReport)
    requires m == Metered(l, xs) && times == Latencies(l, xs) && quota == Quota(l.split)
    ensures SplitIs(l, xs, r)
  {
    hide Metered, Latencies, IsP95, KindsPass;
    var p95 := 0;
    if |times| > 0 { p95 := NearestRank(times); }
    var passed := m.cases == quota && m.correct * 100 >= m.cases * 90 && m.missed <= 1 && m.falseAlarms <= 1
      && m.schemaErrors + m.fabrications + m.unsafeAuthority + m.unsafeTools + m.failed == 0 && p95 <= 60000
      && m.latest <= 120000;
    var kinds := CheckKinds(m);
    r := SplitReport(m, quota - m.cases, p95, passed && kinds);
  }

  ghost predicate SplitsAre(corpus: Corpus, grade: Grading, xs: seq<Attempt>, some: seq<Split>,
                            splits: map<Split, SplitReport>) {
    forall s :: s in some ==> s in splits && SplitIs(LensOf(corpus, grade, s), xs, splits[s])
  }

  predicate SplitsPass(some: seq<Split>, splits: map<Split, SplitReport>) {
    forall s :: s in some ==> s in splits && splits[s].passed
  }

  lemma SplitsNext(corpus: Corpus, grade: Grading, xs: seq<Attempt>, some: seq<Split>, splits: map<Split, SplitReport>,
                   s: Split, r: SplitReport)
    requires SplitsAre(corpus, grade, xs, some, splits) && s !in some && SplitIs(LensOf(corpus, grade, s), xs, r)
    ensures SplitsAre(corpus, grade, xs, some + [s], splits[s := r])
    ensures SplitsPass(some + [s], splits[s := r]) <==> SplitsPass(some, splits) && r.passed
  {
    hide SplitIs;
    assert s in some + [s];
    assert forall t :: t in some ==> t in some + [s];
  }

  method FinishAll(corpus: Corpus, grade: Grading, xs: seq<Attempt>, complete: bool, metrics: map<Split, Metrics>,
                   times: map<Split, seq<int>>)
    returns (splits: map<Split, SplitReport>, passed: bool)
    requires MeteredAll(corpus, grade, xs, metrics, times)
    ensures SplitsAre(corpus, grade, xs, SPLITS, splits)
    ensures passed <==> complete && SplitsPass(SPLITS, splits)
  {
    hide SplitIs, MeteredAll, Metered, Latencies;
    passed, splits := complete, map[];
    for i := 0 to |SPLITS|
      invariant SplitsAre(corpus, grade, xs, SPLITS[..i], splits)
      invariant passed <==> complete && SplitsPass(SPLITS[..i], splits)
    {
      hide SplitsAre, SplitsPass;
      var s := SPLITS[i];
      MeteredAt(corpus, grade, xs, metrics, times, s);
      var split := FinishSplit(LensOf(corpus, grade, s), xs, Quota(s), metrics[s], times[s]);
      assert SPLITS[..i + 1] == SPLITS[..i] + [s];
      SplitsNext(corpus, grade, xs, SPLITS[..i], splits, s, split);
      passed, splits := passed && split.passed, splits[s := split];
    }
    assert SPLITS[..|SPLITS|] == SPLITS;
  }

  /** Accepts exactly the scorable lists, after folding their cost, and reports on each split. */
  method Score(corpus: Corpus, approved: bool, pin: Pin, grade: Grading, xs: seq<Attempt>)
    returns (r: Option<QualityReport>)
    ensures r.Some? <==> approved && ValidCorpus(corpus) && ScoreOk(Selected(corpus.cases), pin, xs)
    ensures r.Some? ==> ReportIs(corpus, pin, grade, xs, r.value)
  {
    hide ValidCorpus, Representable, ExactSum, MeteredAll, AllScorable, Selected, MarksOf, Versions, SplitsAre,
         SplitsPass, Valid;
    var valid := ValidateCorpus(corpus);
    if !valid || !approved || pin.evidence == OtherEvidence || !pin.frozen
      || (pin.version.Some? && pin.version.value != Expected) {
      return None;
    }
    var sound := AllValid(xs);
    AcceptedAreValid(Selected(corpus.cases), pin, xs);
    if !sound { return None; }
    var cost := FoldCost(xs);
    if cost.None? { return None; }
    var selected := SelectCases(corpus.cases);
    var ok, m := Meter(corpus, selected, pin, grade, xs);
    if !ok { return None; }
    var complete := |m.seen| == 236 && |selected| == 236;
    var splits, passed := FinishAll(corpus, grade, xs, complete, m.metrics, m.times);
    r := Some(QualityReport(splits, complete, passed, cost.value, m.observed, m.unknown,
                            StatusOf(passed, pin, m.unknown, cost.value.full)));
  }

  lemma MeteredAt(corpus: Corpus, grade: Grading, xs: seq<Attempt>, metrics: map<Split, Metrics>,
                  times: map<Split, seq<int>>, s: Split)
    requires MeteredAll(corpus, grade, xs, metrics, times) && s in SPLITS
    ensures s in metrics && metrics[s] == Metered(LensOf(corpus, grade, s), xs)
    ensures s in times && times[s] == Latencies(LensOf(corpus, grade, s), xs)
  { }

  method AllValid(xs: seq<Attempt>) returns (ok: bool)
    ensures ok <==> forall a :: a in xs ==> Valid(a)
  {
    hide Valid;
    for i := 0 to |xs|
      invariant forall a :: a in xs[..i] ==> Valid(a)
    {
      assert xs[..i + 1] == xs[..i] + [xs[i]];
      assert xs[i] in xs;
      ok := CheckValid(xs[i]);
      if !ok { return; }
    }
    assert xs[..|xs|] == xs;
    ok := true;
  }

  lemma AcceptedAreValid(selected: map<CaseId, Case>, pin: Pin, xs: seq<Attempt>)
    ensures AllScorable(selected, pin, xs) ==> forall a :: a in xs ==> Valid(a)
  {
    hide Valid;
  }

  // ----- what an accepted report implies -----

  function CaseOf(a: Attempt): CaseId { a.caseId }
  function IdOf(c: Case): CaseId { CaseId(c.id) }

  /** The keys of the elements counted. */
  function Keys<T, K>(xs: seq<T>, p: T -> bool, key: T -> K): set<K> {
    if xs == [] then {} else Keys(xs[..|xs| - 1], p, key) + (if p(xs[|xs| - 1]) then {key(xs[|xs| - 1])} else {})
  }

  lemma {:induction false} InKeys<T, K>(xs: seq<T>, p: T -> bool, key: T -> K, k: K)
    ensures k in Keys(xs, p, key) <==> exists x :: x in xs && p(x) && key(x) == k
  {
    if xs != [] {
      var front, last := xs[..|xs| - 1], xs[|xs| - 1];
      InKeys(front, p, key, k);
      assert xs == front + [last];
      assert last in xs;
    }
  }

  /** With distinct keys, counting is the size of the set of keys counted. */
  lemma {:induction false} KeysCard<T, K>(xs: seq<T>, p: T -> bool, key: T -> K)
    requires forall i, j :: 0 <= i < j < |xs| ==> key(xs[i]) != key(xs[j])
    ensures |Keys(xs, p, key)| == Count(xs, p)
  {
    if xs != [] {
      var front, last := xs[..|xs| - 1], xs[|xs| - 1];
      KeysCard(front, p, key);
      InKeys(front, p, key, key(last));
    }
  }

  lemma SeenWithinQuota(corpus: Corpus, grade: Grading, xs: seq<Attempt>, s: Split)
    requires DistinctCases(corpus.cases)
    ensures Keys(xs, With(LensOf(corpus, grade, s), Any), CaseOf) <= Keys(corpus.cases,
        EligibleIn(GroupTable(corpus.groups), s), IdOf)
  {
    hide Selected, GroupTable, Keys;
    SelectedIs(corpus.cases);
    var l, table := LensOf(corpus, grade, s), GroupTable(corpus.groups);
    forall id | id in Keys(xs, With(l, Any), CaseOf) ensures id in Keys(corpus.cases, EligibleIn(table, s), IdOf) {
      InKeys(xs, With(l, Any), CaseOf, id);
      var a :| a in xs && With(l, Any)(a) && CaseOf(a) == id;
      assert Sees(l, a) && a.caseId == id;
      var c := l.selected[id];
      assert c in corpus.cases && EligibleIn(table, s)(c) && IdOf(c) == id;
      InKeys(corpus.cases, EligibleIn(table, s), IdOf, id);
    }
  }

  lemma QuotaCount(corpus: Corpus, s: Split)
    requires ValidCorpus(corpus) && s in SPLITS
    ensures DistinctCases(corpus.cases) && Count(corpus.cases, EligibleIn(GroupTable(corpus.groups), s)) == Quota(s)
  {
    hide SoundGroups, GroupCounts, CellCounts, Comparable, Count, SoundCase, GroupTable, CaseTable, EligibleIn;
  }

  /** No split is ever scored beyond its quota, so `missing` is never negative. */
  lemma MissingNotNegative(corpus: Corpus, pin: Pin, grade: Grading, xs: seq<Attempt>, s: Split)
    requires ValidCorpus(corpus) && ScoreOk(Selected(corpus.cases), pin, xs) && s in SPLITS
    ensures Metered(LensOf(corpus, grade, s), xs).cases <= Quota(s)
  {
    hide ValidCorpus, Representable, Count, Metered, With, Scorable, EligibleIn, Selected, GroupTable, LensOf, Quota,
         Keys, ValidPin;
    var l := LensOf(corpus, grade, s);
    QuotaCount(corpus, s);
    CountersCount(l, xs, Any);
    KeysCard(xs, With(l, Any), CaseOf);
    KeysCard(corpus.cases, EligibleIn(GroupTable(corpus.groups), s), IdOf);
    SeenWithinQuota(corpus, grade, xs, s);
    Smaller(Keys(xs, With(l, Any), CaseOf), Keys(corpus.cases, EligibleIn(GroupTable(corpus.groups), s), IdOf));
  }

  lemma SelectedKeys(cases: seq<Case>)
    requires DistinctCases(cases)
    ensures Selected(cases).Keys == Keys(cases, Open(), IdOf)
  {
    hide Selected, Keys;
    SelectedIs(cases);
    forall id ensures id in Selected(cases) <==> id in Keys(cases, Open(), IdOf) { InKeys(cases, Open(), IdOf, id); }
  }

  lemma SelectedCard(corpus: Corpus)
    requires ValidCorpus(corpus)
    ensures |Selected(corpus.cases)| == 236
  {
    hide ValidCorpus, Count, Selected, Eligible, Keys, Open, EligibleIn, GroupTable;
    QuotaCount(corpus, Development);
    SelectedKeys(corpus.cases);
    EligibleTotal(corpus);
    EligibleCount(corpus.cases);
    KeysCard(corpus.cases, Open(), IdOf);
  }

  /** Complete means that every eligible case was scored. */
  lemma CompleteExactly(corpus: Corpus, pin: Pin, grade: Grading, xs: seq<Attempt>, r: QualityReport)
    requires ValidCorpus(corpus) && ScoreOk(Selected(corpus.cases), pin, xs) && ReportIs(corpus, pin, grade, xs, r)
    ensures r.complete <==> MarksOf(xs).cases == Selected(corpus.cases).Keys
    ensures r.complete <==> |xs| == 236
  {
    hide ValidCorpus, Representable, Valid;
    SelectedCard(corpus);
    var seen, keys := MarksOf(xs).cases, Selected(corpus.cases).Keys;
    assert seen <= keys;
    if |seen| == 236 { SubsetEqual(seen, keys); }
    CaseCard(xs);
  }

  lemma {:induction false} CaseCard(xs: seq<Attempt>)
    requires Apart(xs)
    ensures |MarksOf(xs).cases| == |xs|
  {
    if xs != [] {
      var front, last := xs[..|xs| - 1], xs[|xs| - 1];
      CaseCard(front);
      assert xs == front + [last];
      assert MarksOf(xs).cases == MarksOf(front).cases + {last.caseId};
      assert forall b :: b in front ==> b.caseId != last.caseId;
    }
  }

  /** The three splits partition the scored attempts. */
  lemma {:induction false} SplitsPartition(corpus: Corpus, grade: Grading, xs: seq<Attempt>)
    requires ValidCorpus(corpus) && forall a :: a in xs ==> a.caseId in Selected(corpus.cases)
    ensures |xs| == Metered(LensOf(corpus, grade, Development), xs).cases
            + Metered(LensOf(corpus, grade, Tuning), xs).cases
                    + Metered(LensOf(corpus, grade, Holdout), xs).cases
  {
    hide ValidCorpus, Selected, GroupTable;
    if xs != [] {
      SelectedSound(corpus);
      assert xs[|xs| - 1] in xs;
      SplitsPartition(corpus, grade, xs[..|xs| - 1]);
    }
  }
}
