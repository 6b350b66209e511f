/** What a passing audit proves about the whole window. */
module CloudPass {
  import opened Options
  import opened Sums
  import opened Sets
  import opened CloudCost
  import opened CloudPlan
  import opened CloudGrade
  import opened CloudLedger
  import opened CloudScore
  import opened CloudQuality
  import opened CloudCompare
  import opened CloudAudit

  // ----- the comparison groups -----

  function NamesOf(ids: seq<string>): set<CaseId> { set id | id in ids :: CaseId(id) }
  function ComparisonIds(corpus: Corpus): set<CaseId> { NamesOf(corpus.comparison) }

  lemma {:induction false} PairedKeys(byId: map<string, Case>, ids: seq<string>)
    requires forall id :: id in ids ==> id in byId
    ensures Paired(byId, ids).Keys == NamesOf(ids)
  {
    if ids != [] {
      PairedKeys(byId, ids[..|ids| - 1]);
      assert ids == ids[..|ids| - 1] + [ids[|ids| - 1]];
      assert ids[|ids| - 1] in ids;
    }
  }

  lemma PairedCases(corpus: Corpus)
    requires ValidCorpus(corpus)
    ensures PairedOf(corpus).Keys == ComparisonIds(corpus)
  {
    hide SoundGroups, GroupCounts, SoundCases, CellCounts, CaseCounts;
    assert forall id :: id in corpus.comparison ==>
           SoundComparison(GroupTable(corpus.groups), CaseTable(corpus.cases), id);
    PairedKeys(CaseTable(corpus.cases), corpus.comparison);
  }

  lemma {:induction false} TaskCard(ts: seq<Task>)
    requires DistinctTasks(ts)
    ensures |set t | t in ts :: t.caseId| == |ts|
  {
    if ts != [] {
      var front, last := ts[..|ts| - 1], ts[|ts| - 1];
      TaskCard(front);
      assert ts == front + [last];
      assert (set t | t in ts :: t.caseId) == (set t | t in front :: t.caseId) + {last.caseId};
      assert forall t :: t in front ==> t.caseId != last.caseId;
    }
  }

  lemma {:induction false} NamesCard(ids: seq<string>)
    ensures |NamesOf(ids)| <= |ids|
  {
    if ids != [] {
      var front, last := ids[..|ids| - 1], ids[|ids| - 1];
      NamesCard(front);
      assert ids == front + [last];
      assert NamesOf(ids) == NamesOf(front) + {CaseId(last)};
    }
  }

  /** Four distinct tasks among the comparison cases are one task for each. */
  lemma ArmCovers(corpus: Corpus, grade: Grading, arm: Mode, ts: seq<Task>)
    requires ValidCorpus(corpus) && |ts| == 4 && TasksOk(PairedOf(corpus), grade, arm, ts)
    ensures (set t | t in ts :: t.caseId) == ComparisonIds(corpus)
  {
    PairedCases(corpus);
    TaskCard(ts);
    NamesCard(corpus.comparison);
    assert |corpus.comparison| == 4;
    hide ValidCorpus, PairedOf;
    var seen := set t | t in ts :: t.caseId;
    forall t | t in ts ensures t.caseId in ComparisonIds(corpus) { OriginalNeeded(PairedOf(corpus), grade, arm, t); }
    assert seen <= ComparisonIds(corpus);
    Smaller(seen, ComparisonIds(corpus));
    SubsetEqual(seen, ComparisonIds(corpus));
  }

  /** One parentless attempt by a single agent, asked the unchanged question. */
  predicate SingleGroup(t: Task) {
    && |t.attempts| == 1 && t.attempts[0].role == Single && t.attempts[0].parent.None?
    && t.attempts[0].caseId == t.caseId && t.attempts[0].inputSha == ModelInput(t.caseId, [])
  }

  /** Two children of one synthesis, which starts after both have ended, and nothing else. */
  predicate Family(t: Task, a: Attempt, b: Attempt, s: Attempt) {
    && multiset(t.attempts) == multiset{a, b, s} && a.role == ChildA && b.role == ChildB && s.role == Synthesis
    && a.caseId == b.caseId == s.caseId == t.caseId
    && a.parent == Some(s.context) && b.parent == Some(s.context) && s.parent.None? && a.end <= s.start
    && b.end <= s.start && Briefed(t, a, b, s)
  }

  /** Both children are asked the unchanged question, the synthesis gets it with both canonical reports in order. */
  predicate Briefed(t: Task, a: Attempt, b: Attempt, s: Attempt) {
    && a.inputSha == ModelInput(t.caseId, []) && b.inputSha == ModelInput(t.caseId, [])
    && a.output.canonical.Some? && b.output.canonical.Some?
    && s.inputSha == ModelInput(t.caseId, [a.output.canonical.value, b.output.canonical.value])
  }

  /** The single agent gave exactly the golden answer. */
  ghost predicate SingleExact(corpus: Corpus, grade: Grading, t: Task) {
    && SingleGroup(t) && t.caseId in PairedOf(corpus)
    && grade(PairedOf(corpus)[t.caseId], t.attempts[0].output).exact
  }

  /** The synthesis of a complete family gave exactly the golden answer. */
  ghost predicate FamilyExact(corpus: Corpus, grade: Grading, t: Task) {
    && t.caseId in PairedOf(corpus)
    && exists a, b, s :: Family(t, a, b, s) && grade(PairedOf(corpus)[t.caseId], s.output).exact
  }

  lemma SingleTask(originals: map<CaseId, Case>, grade: Grading, t: Task)
    requires TaskOk(originals, grade, SingleMode, t)
    ensures SingleGroup(t)
  {
    hide TimesOk, Passable;
    RoleKeys(t.attempts);
    var a := RoleTable(t.attempts)[Single];
    assert t.attempts == [t.attempts[0]];
    assert a == t.attempts[0];
    assert Faithful(originals[t.caseId], grade, t.caseId, RoleTable(t.attempts), Single);
  }

  lemma MultiTask(originals: map<CaseId, Case>, grade: Grading, t: Task)
    requires TaskOk(originals, grade, MultiMode, t)
    ensures exists a, b, s :: Family(t, a, b, s)
  {
    hide TimesOk, AllFaithful, RoleTable, WithinAllowance, Briefed;
    RoleKeys(t.attempts);
    var roles := RoleTable(t.attempts);
    var a, b, s := roles[ChildA], roles[ChildB], roles[Synthesis];
    assert Inside(t, a) && Inside(t, b) && Inside(t, s);
    hide Inside, Contained;
    ThreeOf(t.attempts, a, b, s);
    FamilyBriefed(originals[t.caseId], grade, t, roles);
    assert Family(t, a, b, s);
  }

  lemma FamilyBriefed(c: Case, grade: Grading, t: Task, roles: map<Role, Attempt>)
    requires ChildA in roles && ChildB in roles && Synthesis in roles && AllFaithful(c, grade, t.caseId, roles)
    ensures Briefed(t, roles[ChildA], roles[ChildB], roles[Synthesis])
  {
    hide Passable;
    assert Faithful(c, grade, t.caseId, roles, ChildA);
    assert Faithful(c, grade, t.caseId, roles, ChildB);
    assert Faithful(c, grade, t.caseId, roles, Synthesis);
  }

  lemma ThreeOf<T>(xs: seq<T>, a: T, b: T, s: T)
    requires |xs| == 3 && a in xs && b in xs && s in xs && a != b && a != s && b != s
    ensures multiset(xs) == multiset{a, b, s}
  {
    assert xs == [xs[0], xs[1], xs[2]];
  }

  lemma {:induction false} TasksSize(originals: map<CaseId, Case>, grade: Grading, arm: Mode, ts: seq<Task>)
    requires forall t :: t in ts ==> TaskOk(originals, grade, arm, t)
    ensures |AttemptsOf(ts)| == Need(arm) * |ts|
  {
    if ts != [] {
      assert TaskOk(originals, grade, arm, ts[|ts| - 1]);
      hide TaskOk;
      TasksSize(originals, grade, arm, ts[..|ts| - 1]);
    }
  }

  ghost predicate GroupsOk(corpus: Corpus, single: Run, multi: Run) {
    && |single.tasks| == 4 && (set t | t in single.tasks :: t.caseId) == ComparisonIds(corpus)
    && |multi.tasks| == 4 && (set t | t in multi.tasks :: t.caseId) == ComparisonIds(corpus)
    && (forall t :: t in single.tasks ==> SingleGroup(t))
        && (forall t :: t in multi.tasks ==> exists a, b, s :: Family(t, a, b, s))
    && |AttemptsOf(single.tasks)| == 4 && |AttemptsOf(multi.tasks)| == 12
  }

  lemma ComparisonGroups(corpus: Corpus, grade: Grading, single: Run, multi: Run)
    requires ValidCorpus(corpus) && CompareOk(corpus, grade, single, multi)
    ensures GroupsOk(corpus, single, multi)
  {
    hide ValidCorpus, TaskOk, Representable, AllVersions, Unique, PairedOf, ValidPin, AttemptsOf, ComparisonIds,
         SingleGroup, Family;
    var originals := PairedOf(corpus);
    ArmCovers(corpus, grade, SingleMode, single.tasks);
    ArmCovers(corpus, grade, MultiMode, multi.tasks);
    TasksSize(originals, grade, SingleMode, single.tasks);
    TasksSize(originals, grade, MultiMode, multi.tasks);
    forall t | t in single.tasks ensures SingleGroup(t) { SingleTask(originals, grade, t); }
    forall t | t in multi.tasks ensures exists a, b, s :: Family(t, a, b, s) { MultiTask(originals, grade, t); }
  }

  // ----- what passing thresholds guarantee -----

  lemma {:induction false} CountZero<T>(xs: seq<T>, p: T -> bool)
    requires Count(xs, p) == 0
    ensures forall x :: x in xs ==> !p(x)
  {
    if xs != [] {
      CountZero(xs[..|xs| - 1], p);
      assert xs == xs[..|xs| - 1] + [xs[|xs| - 1]];
    }
  }

  lemma {:induction false} CountEvery<T>(xs: seq<T>, p: T -> bool)
    requires Count(xs, p) == |xs|
    ensures forall x :: x in xs ==> p(x)
  {
    if xs != [] {
      CountAtMost(xs[..|xs| - 1], p);
      CountEvery(xs[..|xs| - 1], p);
      assert xs == xs[..|xs| - 1] + [xs[|xs| - 1]];
    }
  }

  /** A completed, safe attempt within its allowances whose answer breaks no rule. */
  predicate Blameless(corpus: Corpus, grade: Grading, a: Attempt) {
    && a.caseId in Selected(corpus.cases) && Passable(grade(Selected(corpus.cases)[a.caseId], a.output))
    && !a.unsafe && a.outcome == Completed && WithinAllowance(a) && a.ms <= ATTEMPT_MS
  }

  /** No counter of the split hides an attempt that breaks a rule. */
  lemma SplitBlameless(corpus: Corpus, grade: Grading, xs: seq<Attempt>, s: Split, p95: int, a: Attempt)
    requires SplitPasses(Metered(LensOf(corpus, grade, s), xs), Quota(s), p95) && (forall x :: x in xs ==> x.ms >= 0)
    requires a in xs && Sees(LensOf(corpus, grade, s), a)
    ensures Blameless(corpus, grade, a)
  {
    hide Metered, Count, Selected, GroupTable, WithinAllowance, KindsPass;
    var l := LensOf(corpus, grade, s);
    CountersCount(l, xs, SchemaError);
    CountersCount(l, xs, Fabrication);
    CountersCount(l, xs, Unsafe);
    CountersCount(l, xs, UnsafeTool);
    FailuresCount(l, xs);
    LatestIsMaximum(l, xs);
    CountZero(xs, With(l, SchemaError));
    CountZero(xs, With(l, Fabrication));
    CountZero(xs, With(l, Unsafe));
    CountZero(xs, With(l, UnsafeTool));
    CountZero(xs, With(l, NotCompleted));
    CountZero(xs, With(l, Oversized));
    assert !With(l, SchemaError)(a) && !With(l, Fabrication)(a) && !With(l, Unsafe)(a);
    assert !With(l, UnsafeTool)(a) && !With(l, NotCompleted)(a) && !With(l, Oversized)(a);
  }

  function RightAnswer(corpus: Corpus, grade: Grading): Attempt -> bool {
    (a: Attempt) => a.caseId in Selected(corpus.cases) && Right(grade(Selected(corpus.cases)[a.caseId], a.output), a)
  }
  function RightLater(corpus: Corpus, grade: Grading): Attempt -> bool {
    (a: Attempt) => With(LensOf(corpus, grade, Tuning), Correct)(a) || With(LensOf(corpus, grade, Holdout), Correct)(a)
  }

  lemma RightIn(l: Lens, a: Attempt)
    ensures With(l, Correct)(a) <==> Sees(l, a) && Right(l.grade(l.selected[a.caseId], a.output), a)
  { }

  lemma RightWhere(corpus: Corpus, grade: Grading, a: Attempt)
    requires ValidCorpus(corpus)
    ensures var d, t, h := LensOf(corpus, grade, Development), LensOf(corpus, grade, Tuning),
            LensOf(corpus, grade, Holdout);
            && !(With(t, Correct)(a) && With(h, Correct)(a)) && !(With(d, Correct)(a) && RightLater(corpus, grade)(a))
            && (RightAnswer(corpus, grade)(a) <==> With(d, Correct)(a) || RightLater(corpus, grade)(a))
            && (RightLater(corpus, grade)(a) <==> With(t, Correct)(a) || With(h, Correct)(a))
  {
    SelectedSound(corpus);
    hide ValidCorpus, Right, SplitIn, Selected, GroupTable;
    var d, t, h := LensOf(corpus, grade, Development), LensOf(corpus, grade, Tuning), LensOf(corpus, grade, Holdout);
    RightIn(d, a);
    RightIn(t, a);
    RightIn(h, a);
    assert d.selected == t.selected == h.selected == Selected(corpus.cases);
  }

  /** Right answers are counted in exactly one split. */
  lemma RightSplits(corpus: Corpus, grade: Grading, xs: seq<Attempt>)
    requires ValidCorpus(corpus)
    ensures Count(xs, RightAnswer(corpus, grade))
            == Metered(LensOf(corpus, grade, Development), xs).correct
                + Metered(LensOf(corpus, grade, Tuning), xs).correct
               + Metered(LensOf(corpus, grade, Holdout), xs).correct
  {
    hide ValidCorpus, Metered, Count, With, RightAnswer, RightLater, LensOf;
    var d, t, h := LensOf(corpus, grade, Development), LensOf(corpus, grade, Tuning), LensOf(corpus, grade, Holdout);
    CountersCount(d, xs, Correct);
    CountersCount(t, xs, Correct);
    CountersCount(h, xs, Correct);
    forall a: Attempt
      ensures !(With(t, Correct)(a) && With(h, Correct)(a)) && !(With(d, Correct)(a) && RightLater(corpus, grade)(a))
      ensures RightAnswer(corpus, grade)(a) <==> With(d, Correct)(a) || RightLater(corpus, grade)(a)
      ensures RightLater(corpus, grade)(a) <==> With(t, Correct)(a) || With(h, Correct)(a)
    {
      RightWhere(corpus, grade, a);
    }
    CountSplits(xs, With(t, Correct), With(h, Correct), RightLater(corpus, grade));
    CountSplits(xs, With(d, Correct), RightLater(corpus, grade), RightAnswer(corpus, grade));
  }

  lemma SplitPassed(corpus: Corpus, pin: Pin, grade: Grading, xs: seq<Attempt>, r: QualityReport, s: Split)
    requires ReportIs(corpus, pin, grade, xs, r) && r.passed && s in SPLITS
    ensures s in r.splits && SplitPasses(Metered(LensOf(corpus, grade, s), xs), Quota(s), r.splits[s].p95)
  {
    hide Metered, Latencies, IsP95, ExactSum, Versions, MarksOf, StatusIs, SplitPasses, Selected, GroupTable;
  }

  lemma ScoredOne(selected: map<CaseId, Case>, pin: Pin, xs: seq<Attempt>)
    requires ScoreOk(selected, pin, xs)
    ensures forall a :: a in xs ==> a.caseId in selected && a.ms >= 0
  {
    hide Representable;
  }

  /** Passing every split: nothing unsafe anywhere, and at least 214 of the 236 answers right. */
  lemma QualityMeans(corpus: Corpus, pin: Pin, grade: Grading, xs: seq<Attempt>, r: QualityReport)
    requires ValidCorpus(corpus) && ScoreOk(Selected(corpus.cases), pin, xs) && ReportIs(corpus, pin, grade, xs, r)
             && r.passed
    ensures forall a :: a in xs ==> Blameless(corpus, grade, a)
    ensures Count(xs, RightAnswer(corpus, grade)) >= 214
  {
    hide ValidCorpus, ScoreOk, ReportIs, Metered, Count, Selected, GroupTable, Blameless, SplitPasses, RightAnswer,
         LensOf;
    RightSplits(corpus, grade, xs);
    SplitPassed(corpus, pin, grade, xs, r, Development);
    SplitPassed(corpus, pin, grade, xs, r, Tuning);
    SplitPassed(corpus, pin, grade, xs, r, Holdout);
    SplitRight(Metered(LensOf(corpus, grade, Development), xs), 96, r.splits[Development].p95);
    SplitRight(Metered(LensOf(corpus, grade, Tuning), xs), 64, r.splits[Tuning].p95);
    SplitRight(Metered(LensOf(corpus, grade, Holdout), xs), 76, r.splits[Holdout].p95);
    AllBlameless(corpus, pin, grade, xs, r);
  }

  lemma AllBlameless(corpus: Corpus, pin: Pin, grade: Grading, xs: seq<Attempt>, r: QualityReport)
    requires ValidCorpus(corpus) && ScoreOk(Selected(corpus.cases), pin, xs) && ReportIs(corpus, pin, grade, xs, r)
             && r.passed
    ensures forall a :: a in xs ==> Blameless(corpus, grade, a)
  {
    hide ValidCorpus, ScoreOk, ReportIs, Metered, Selected, GroupTable, Blameless, SplitPasses, Quota;
    SelectedSound(corpus);
    ScoredOne(Selected(corpus.cases), pin, xs);
    forall a | a in xs ensures Blameless(corpus, grade, a) {
      var s := SplitIn(GroupTable(corpus.groups), Selected(corpus.cases)[a.caseId]);
      SplitPassed(corpus, pin, grade, xs, r, s);
      SplitBlameless(corpus, grade, xs, s, r.splits[s].p95, a);
    }
  }

  lemma SplitRight(m: Metrics, quota: nat, p95: int)
    requires SplitPasses(m, quota, p95)
    ensures m.correct * 100 >= quota * 90
  { }

  // ----- the cost adds up -----

  function Larger(a: int, b: int): int { if a > b then a else b }

  /** Fieldwise sum of two records. */
  function Added(a: Tally, b: Tally): Tally {
    Tally(a.attempts + b.attempts, a.ms + b.ms, a.input + b.input, a.generated + b.generated, a.total + b.total,
          a.unknownInput + b.unknownInput, a.unknownGenerated + b.unknownGenerated, a.unknownTotal + b.unknownTotal,
          a.unknownRss + b.unknownRss, Larger(a.peakRss, b.peakRss), a.full && b.full)
  }

  lemma ExactIsUnique(s: Tally, t: Tally, xs: seq<Attempt>)
    requires ExactSum(s, xs) && ExactSum(t, xs)
    ensures s == t
  { }

  lemma PeakAdds(p: int, q: int, xs: seq<Attempt>, ys: seq<Attempt>)
    requires Peak(p, xs) && Peak(q, ys)
    ensures Peak(Larger(p, q), xs + ys)
  {
    if p > 0 { var a :| a in xs && a.rss == Some(p); assert a in xs + ys; }
    if q > 0 { var b :| b in ys && b.rss == Some(q); assert b in xs + ys; }
  }

  lemma ExactAdds(s: Tally, t: Tally, xs: seq<Attempt>, ys: seq<Attempt>)
    requires ExactSum(s, xs) && ExactSum(t, ys)
    ensures ExactSum(Added(s, t), xs + ys)
  {
    hide Peak, Sum;
    PeakAdds(s.peakRss, t.peakRss, xs, ys);
    SumConcat(xs, ys, InputOf);
    SumConcat(xs, ys, GeneratedOf);
    SumConcat(xs, ys, TotalOf);
    SumConcat(xs, ys, MsOf);
    SumConcat(xs, ys, UnknownInputOf);
    SumConcat(xs, ys, UnknownGeneratedOf);
    SumConcat(xs, ys, UnknownTotalOf);
    SumConcat(xs, ys, UnknownRssOf);
  }

  /** The window's cost is that of quality, single and multi together, in every field. */
  lemma CostAdds(e: Envelope, q: Tally, s: Tally, m: Tally)
    requires ExactSum(q, e.attempts) && ExactSum(s, AttemptsOf(e.single.tasks))
             && ExactSum(m, AttemptsOf(e.multi.tasks))
    ensures PlusAll(All(e)) == Added(q, Added(s, m))
  {
    hide ExactSum, Added, PlusAll, AttemptsOf;
    ExactAdds(s, m, AttemptsOf(e.single.tasks), AttemptsOf(e.multi.tasks));
    ExactAdds(q, Added(s, m), e.attempts, Compared(e));
    PlusAllExact(All(e));
    ExactIsUnique(PlusAll(All(e)), Added(q, Added(s, m)), All(e));
  }

  // ----- the verdict -----

  /** No reason was given. */
  lemma PassGives(corpus: Corpus, grade: Grading, h: History, e: Envelope, r: Report)
    requires AuditIs(corpus, grade, h, e, r) && r.pass
    ensures r.found.unknownVersions == 0 && QualityGood(r.found.quality) && ComparisonGood(r.found.comparison)
            && r.found.cost.full
    ensures e.newCalls == 252 && e.collector == CollectorPassed && e.pin == e.single.pin == e.multi.pin
    ensures !OtherSeen(All(e)) && !ConflictSeen(All(e))
  {
    hide AuditOk, RechecksAre, OtherSeen, ConflictSeen, QualityGood, ComparisonGood, All;
    VersionsNoted(All(e));
    hide VersionReasons;
    forall reason ensures 0 < Rank(reason) ==> !Given(e, r.found, reason) {
      assert reason !in r.reasons[|VersionReasons(All(e))|..];
    }
    assert !Given(e, r.found, VersionMissing) && !Given(e, r.found, PinDiffers) && !Given(e, r.found, CollectorNoGo);
    assert !Given(e, r.found, Incomplete) && !Given(e, r.found, QualityNoGo) && !Given(e, r.found, ComparisonNoGo);
    assert !Given(e, r.found, CostNotKnown);
  }

  /** One model version answered every call. */
  lemma OneVersion(corpus: Corpus, grade: Grading, e: Envelope)
    requires Count(All(e), Unnamed()) == 0 && ScoreOk(Selected(corpus.cases), e.pin, e.attempts)
             && CompareOk(corpus, grade, e.single, e.multi)
    ensures forall a :: a in All(e) ==> a.version == Some(Expected)
  {
    hide Count, Representable, TasksOk, Unique, Apart, Selected, Valid, AttemptsOf, ValidPin, PairedOf;
    CountZero(All(e), Unnamed());
    forall a | a in All(e) ensures a.version == Some(Expected) {
      assert !Unnamed()(a);
      if a in e.attempts { assert Scorable(Selected(corpus.cases), e.pin, a); } else { assert a in Compared(e); }
    }
  }

  /** A pass: the whole plan was charged in order, every eligible case was scored once, the
      comparison has four complete groups in each arm, every token count is known, one model
      version was seen, and the cost is that of the three parts. */
  lemma PassMeans(corpus: Corpus, grade: Grading, h: History, e: Envelope, r: Report)
    requires ValidCorpus(corpus) && AuditIs(corpus, grade, h, e, r) && r.pass
    ensures |e.ledger| == |All(e)| == |Plan(corpus)| == 252 && forall i :: 0 <= i < 252 ==>
            CallOf(e.ledger[i]) == Plan(corpus)[i]
    ensures |e.attempts| == 236 && Apart(e.attempts) && MarksOf(e.attempts).cases == Selected(corpus.cases).Keys
    ensures GroupsOk(corpus, e.single, e.multi)
    ensures forall a :: a in All(e) ==> a.version == Some(Expected)
    ensures r.found.cost.full
            && r.found.cost.unknownInput == r.found.cost.unknownGenerated == r.found.cost.unknownTotal == 0
    ensures r.found.quality.Some? && r.found.comparison.Some?
    ensures r.found.cost
            == Added(r.found.quality.value.cost, Added(r.found.comparison.value.single, r.found.comparison.value.multi))
    ensures (forall a :: a in e.attempts ==> Blameless(corpus, grade, a))
            && Count(e.attempts, RightAnswer(corpus, grade)) >= 214
    ensures forall t :: t in e.single.tasks ==> SingleExact(corpus, grade, t)
    ensures forall t :: t in e.multi.tasks ==> FamilyExact(corpus, grade, t)
  {
    hide ValidCorpus, AuditOk, ReportIs, ComparisonIs, ScoreOk, CompareOk, Plan, All, Compared, GroupsOk, Given, Count,
         Selected, MarksOf, Added, PlusAll, Apart, Blameless, RightAnswer, SingleExact, FamilyExact, PairedOf;
    PassGives(corpus, grade, h, e, r);
    AcceptedMeans(corpus, h, e);
    SpentSize(corpus, h, e);
    LedgerSize(corpus, h, e);
    var q, c := r.found.quality.value, r.found.comparison.value;
    CompleteExactly(corpus, e.pin, grade, e.attempts, q);
    ScoredApart(Selected(corpus.cases), e.pin, e.attempts);
    ComparisonGroups(corpus, grade, e.single, e.multi);
    OneVersion(corpus, grade, e);
    CostsOf(corpus, grade, e, q, c);
    CostAdds(e, q.cost, c.single, c.multi);
    PlusAllExact(All(e));
    FullMeans(PlusAll(All(e)), All(e));
    QualityMeans(corpus, e.pin, grade, e.attempts, q);
    AllExact(corpus, grade, e.single, e.multi, c);
  }

  lemma AllExact(corpus: Corpus, grade: Grading, single: Run, multi: Run, c: CompareReport)
    requires CompareOk(corpus, grade, single, multi) && ComparisonIs(corpus, grade, single, multi, c)
    requires GroupsOk(corpus, single, multi) && c.singleCorrect == 4 && c.multiCorrect == 4
    ensures forall t :: t in single.tasks ==> SingleExact(corpus, grade, t)
    ensures forall t :: t in multi.tasks ==> FamilyExact(corpus, grade, t)
  {
    hide Count, ExactAs, PairedOf, Representable, TasksOk, Unique, ExactSum, Versions, AllVersions, SingleGroup, Family,
         SingleExact, FamilyExact, ComparisonIds, StatusIs;
    CountEvery(single.tasks, ExactAs(PairedOf(corpus), grade, Single));
    CountEvery(multi.tasks, ExactAs(PairedOf(corpus), grade, Synthesis));
    forall t | t in single.tasks ensures SingleExact(corpus, grade, t) { SingleAnswers(corpus, grade, t); }
    forall t | t in multi.tasks ensures FamilyExact(corpus, grade, t) { FamilyAnswers(corpus, grade, t); }
  }

  lemma SingleAnswers(corpus: Corpus, grade: Grading, t: Task)
    requires SingleGroup(t) && ExactAs(PairedOf(corpus), grade, Single)(t)
    ensures SingleExact(corpus, grade, t)
  { }

  /** Only one member of a family is a synthesis. */
  lemma FamilyAnswers(corpus: Corpus, grade: Grading, t: Task)
    requires (exists a, b, s :: Family(t, a, b, s)) && ExactAs(PairedOf(corpus), grade, Synthesis)(t)
    ensures FamilyExact(corpus, grade, t)
  {
    hide PairedOf, Briefed;
    var a, b, s :| Family(t, a, b, s);
    var x :| x in t.attempts && x.role == Synthesis && grade(PairedOf(corpus)[t.caseId], x.output).exact;
    assert x in multiset(t.attempts);
    assert x == s;
  }

  lemma LedgerSize(corpus: Corpus, h: History, e: Envelope)
    requires AuditOk(corpus, h, e)
    ensures |e.ledger| == e.newCalls
  { }

  lemma ScoredApart(selected: map<CaseId, Case>, pin: Pin, xs: seq<Attempt>)
    requires ScoreOk(selected, pin, xs)
    ensures Apart(xs)
  { }

  lemma CostsOf(corpus: Corpus, grade: Grading, e: Envelope, q: QualityReport, c: CompareReport)
    requires ReportIs(corpus, e.pin, grade, e.attempts, q) && ComparisonIs(corpus, grade, e.single, e.multi, c)
    ensures ExactSum(q.cost, e.attempts) && ExactSum(c.single, AttemptsOf(e.single.tasks))
            && ExactSum(c.multi, AttemptsOf(e.multi.tasks))
  { }

  lemma FullMeans(t: Tally, xs: seq<Attempt>)
    requires ExactSum(t, xs) && t.full
    ensures t.unknownInput == t.unknownGenerated == t.unknownTotal == 0
  { }
}
