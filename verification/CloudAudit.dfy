/** The offline audit of a whole window: what an accepted report proves, and what a pass adds. */
module CloudAudit {
  import opened Options
  import opened Sums
  import opened CloudCost
  import opened CloudPlan
  import opened CloudLedger
  import opened CloudSequence
  import opened CloudScore
  import opened CloudQuality
  import opened CloudCompare
  import opened CloudWitness
  import CloudHistory

  type History = CloudHistory.History

  datatype Collector = CollectorPassed | CollectorFailed | OtherCollector

  /** A decoded collector report; `trusted` stands for the identities that must equal the prepared
      ones: model, release, source, hardware, runtime, resources, window name and history. */
  datatype Envelope = Envelope(
    collector: Collector, trusted: bool, execution: bool, window: Window, newCalls: int, total: int, maximum: int,
    maximumNew: int,
    pin: Pin, attempts: seq<Attempt>, single: Run, multi: Run, ledger: seq<Row>)

  const MINUTE: int := 60_000 * MILLISECOND

  ghost predicate Admitted(e: Envelope) {
    var w := e.window;
    && e.collector != OtherCollector && e.trusted && !e.execution
    && w.start != 0 && w.start <= w.end && w.expires != 0 && w.start < w.expires <= w.start + 75 * MINUTE
    && e.maximum == w.baseline + 252 && e.maximumNew == 252 && 0 <= e.newCalls <= 252
    && e.total == w.baseline + e.newCalls
    && e.pin.evidence == NativeObservation && e.pin.version.None? && ValidPin(e.pin)
  }

  function Compared(e: Envelope): seq<Attempt> { AttemptsOf(e.single.tasks) + AttemptsOf(e.multi.tasks) }
  function All(e: Envelope): seq<Attempt> { e.attempts + Compared(e) }

  /** What the audit accepts. */
  ghost predicate AuditOk(corpus: Corpus, h: History, e: Envelope) {
    && Admitted(e) && CloudHistory.HistoryOk(h) && e.window.baseline == h.attempts
    && (forall a :: a in All(e) ==> Valid(a)) && Representable(All(e))
    && |All(e)| == |e.ledger| == e.newCalls <= |Plan(corpus)|
    && LedgerOk(e.window, CloudHistory.Runs(h.usage), Plan(corpus), e.ledger)
    && AttemptsOk(e.window, e.ledger, Compared(e), All(e)) && Sequential(All(e))
  }

  // ----- an accepted window -----

  /** The ledger is exactly the beginning of the plan, attempts and rows are in bijection, the
      folded cost is the ledger's, and the window ran one call at a time. */
  lemma AcceptedMeans(corpus: Corpus, h: History, e: Envelope)
    requires ValidCorpus(corpus) && AuditOk(corpus, h, e)
    ensures |Plan(corpus)| == 252 && forall i :: 0 <= i < |e.ledger| ==> CallOf(e.ledger[i]) == Plan(corpus)[i]
    ensures exists ys :: Arranged(e.window, e.ledger, Compared(e), All(e), ys)
    ensures LedgerCost(PlusAll(All(e)), e.ledger)
    ensures forall a, b :: a in All(e) && b in All(e) && a.id != b.id ==>
                             a.id.Native? && b.id.Native? && (a.id.ordinal < b.id.ordinal ==> a.end <= b.start)
    ensures Sum(All(e), MsOf) <= (e.window.end - e.window.start) / MILLISECOND + 2 * |e.ledger|
  {
    hide ValidCorpus, Valid, Representable, AttemptsOk, Sequential, LedgerCost, Follows, Arranged, Plan, ExactSum,
         PlusAll, All, Compared;
    PlanIsOk(corpus);
    forall i | 0 <= i < |e.ledger| ensures CallOf(e.ledger[i]) == Plan(corpus)[i] {
      FollowsMeans(e.window, CloudHistory.Runs(h.usage), Plan(corpus), e.ledger, i);
    }
    var ys := Bijection(e.window, e.ledger, Compared(e), All(e));
    PlusAllExact(All(e));
    CostIsLedgers(e.window, e.ledger, Compared(e), All(e), PlusAll(All(e)));
    forall a, b | a in All(e) && b in All(e) && a.id != b.id
      ensures a.id.Native? && b.id.Native? && (a.id.ordinal < b.id.ordinal ==> a.end <= b.start)
    {
      NeverOverlap(e.window, e.ledger, Compared(e), All(e), a, b);
    }
    ElapsedFits(e.window, e.ledger, Compared(e), All(e));
  }

  /** With a matching SQL journal, the folded cost is also the journal's. */
  lemma WitnessedCost(corpus: Corpus, h: History, e: Envelope, c: Claim, w: Witness)
    requires ValidCorpus(corpus) && AuditOk(corpus, h, e) && c.ledger == e.ledger && Corresponds(c, w)
    ensures JournalCost(PlusAll(All(e)), w.rows)
    ensures forall i :: 0 <= i < |w.rows| ==> SqlCall(w.rows[i]) == Plan(corpus)[i]
  {
    hide ValidCorpus, AuditOk, LedgerCost, JournalCost, PlusAll, Plan;
    AcceptedMeans(corpus, h, e);
    CostIsJournals(c, w, PlusAll(All(e)));
  }

  // ----- the verdict -----

  datatype Reason =
    | FamilyOther | VersionsConflict | VersionMissing | QualityDenied | ComparisonDenied | PinDiffers
    | CollectorNoGo | Incomplete | QualityNoGo | ComparisonNoGo | CostNotKnown

  /** What the audit found out before it judges. */
  datatype Found = Found(cost: Tally, unknownVersions: nat, quality: Option<QualityReport>,
                         comparison: Option<CompareReport>)

  datatype ModelFamily = FamilyUnavailable | FlashFamily | OtherReportedFamily

  /** The family of the last version reported. */
  ghost function FamilyOf(observed: Option<Version>): ModelFamily {
    if observed.None? then FamilyUnavailable
    else if observed.value.OtherFamily? || observed.value.Malformed? then OtherReportedFamily else FlashFamily
  }

  /** `input` and `output` are the history's known token subtotals. */
  datatype Report = Report(
    found: Found, attempts: seq<Safe>, input: int, output: int, family: ModelFamily, reasons: seq<Reason>, pass: bool)

  predicate OtherSeen(xs: seq<Attempt>) { exists a :: a in xs && a.version.Some? && a.version.value.OtherFamily? }

  predicate ConflictSeen(xs: seq<Attempt>) {
    exists a, b :: a in xs && b in xs && a.version.Some? && b.version.Some? && a.version != b.version
  }

  /** The last version reported. */
  function LastKnown(xs: seq<Attempt>): Option<Version> {
    if xs == [] then None
    else if xs[|xs| - 1].version.Some? then xs[|xs| - 1].version else LastKnown(xs[..|xs| - 1])
  }

  /** The reasons given while the attempts are read: one for each attempt of another family, and one
      for each change of version. */
  function VersionReasons(xs: seq<Attempt>): seq<Reason> {
    if xs == [] then []
    else
      var front, v := xs[..|xs| - 1], xs[|xs| - 1].version;
      VersionReasons(front)
      + (if v.Some? && v.value.OtherFamily? then [FamilyOther] else [])
      + (if v.Some? && LastKnown(front).Some? && LastKnown(front) != v then [VersionsConflict] else [])
  }

  lemma {:induction false} LastIsSeen(xs: seq<Attempt>)
    ensures LastKnown(xs).Some? ==> exists a :: a in xs && a.version == LastKnown(xs)
    ensures LastKnown(xs).None? ==> forall a :: a in xs ==> a.version.None?
  {
    if xs != [] {
      LastIsSeen(xs[..|xs| - 1]);
      assert xs == xs[..|xs| - 1] + [xs[|xs| - 1]];
      assert xs[|xs| - 1] in xs;
    }
  }

  /** Without a conflict every known version is the last one. */
  lemma {:induction false} NoConflict(xs: seq<Attempt>)
    ensures VersionsConflict !in VersionReasons(xs) ==> forall a :: a in xs && a.version.Some? ==>
            a.version == LastKnown(xs)
    ensures VersionsConflict in VersionReasons(xs) ==> ConflictSeen(xs)
  {
    if xs != [] {
      var front, last := xs[..|xs| - 1], xs[|xs| - 1];
      NoConflict(front);
      LastIsSeen(front);
      assert xs == front + [last];
      assert last in xs && forall a :: a in front ==> a in xs;
    }
  }

  lemma {:induction false} OtherNoted(xs: seq<Attempt>)
    ensures FamilyOther in VersionReasons(xs) <==> OtherSeen(xs)
  {
    if xs != [] {
      var front, last := xs[..|xs| - 1], xs[|xs| - 1];
      OtherNoted(front);
      assert xs == front + [last];
      assert last in xs && forall a :: a in front ==> a in xs;
    }
  }

  /** Reading on from version to version notices exactly the conflicts between any two attempts. */
  lemma VersionsNoted(xs: seq<Attempt>)
    ensures FamilyOther in VersionReasons(xs) <==> OtherSeen(xs)
    ensures VersionsConflict in VersionReasons(xs) <==> ConflictSeen(xs)
    ensures VersionReasons(xs) == [] <==> !OtherSeen(xs) && !ConflictSeen(xs)
  {
    hide VersionReasons;
    OtherNoted(xs);
    NoConflict(xs);
    OnlyVersions(xs);
    if VersionReasons(xs) != [] { assert VersionReasons(xs)[0] in VersionReasons(xs); }
  }

  lemma {:induction false} OnlyVersions(xs: seq<Attempt>)
    ensures forall x :: x in VersionReasons(xs) ==> x == FamilyOther || x == VersionsConflict
  {
    if xs != [] { OnlyVersions(xs[..|xs| - 1]); }
  }

  method ObserveFamilies(xs: seq<Attempt>) returns (reasons: seq<Reason>, unknown: nat, observed: Option<Version>)
    ensures reasons == VersionReasons(xs) && unknown == Count(xs, Unnamed()) && observed == LastKnown(xs)
  {
    hide Count;
    reasons, unknown, observed := [], 0, None;
    CountNothing();
    for i := 0 to |xs|
      invariant reasons == VersionReasons(xs[..i]) && observed == LastKnown(xs[..i])
                && unknown == Count(xs[..i], Unnamed())
    {
      var a := xs[i];
      CountNext(xs, i, Unnamed());
      assert xs[..i + 1][..i] == xs[..i];
      if a.version.None? {
        unknown := unknown + 1;
      } else {
        if a.version.value.OtherFamily? { reasons := reasons + [FamilyOther]; }
        if observed.Some? && observed != a.version { reasons := reasons + [VersionsConflict]; }
        observed := a.version;
      }
    }
    assert xs[..|xs|] == xs;
  }

  lemma CountNothing()
    ensures Count([], Unnamed()) == 0
  { }

  predicate QualityGood(q: Option<QualityReport>) {
    q.Some? && q.value.status == Pass && q.value.complete && q.value.passed && q.value.cost.full
  }

  predicate ComparisonGood(c: Option<CompareReport>) {
    && c.Some? && c.value.status == Pass && c.value.paired == 4 && c.value.singleCorrect == 4
    && c.value.multiCorrect == 4
    && c.value.passed && c.value.full
  }

  /** When a reason speaks against the window. */
  predicate Given(e: Envelope, f: Found, reason: Reason) {
    match reason
    case FamilyOther => OtherSeen(All(e))
    case VersionsConflict => ConflictSeen(All(e))
    case VersionMissing => f.unknownVersions > 0
    case QualityDenied => f.quality.None?
    case ComparisonDenied => f.comparison.None?
    case PinDiffers => e.pin != e.single.pin || e.pin != e.multi.pin
    case CollectorNoGo => e.collector != CollectorPassed
    case Incomplete => e.newCalls != 252
    case QualityNoGo => !QualityGood(f.quality)
    case ComparisonNoGo => !ComparisonGood(f.comparison)
    case CostNotKnown => !f.cost.full
  }

  /** The order in which the later reasons are given. */
  function Rank(reason: Reason): nat {
    match reason
    case FamilyOther => 0
    case VersionsConflict => 0
    case VersionMissing => 1
    case QualityDenied => 2
    case ComparisonDenied => 3
    case PinDiffers => 4
    case CollectorNoGo => 5
    case Incomplete => 6
    case QualityNoGo => 7
    case ComparisonNoGo => 8
    case CostNotKnown => 9
  }

  /** Of the reasons ranked 1 to `k`, exactly those given, in order and once each. */
  ghost predicate Judged(e: Envelope, f: Found, reasons: seq<Reason>, k: nat) {
    && (forall i, j :: 0 <= i < j < |reasons| ==> Rank(reasons[i]) < Rank(reasons[j]))
    && forall reason :: reason in reasons <==> 0 < Rank(reason) <= k && Given(e, f, reason)
  }

  lemma NotJudged(e: Envelope, f: Found)
    ensures Judged(e, f, [], 0)
  { }

  lemma SameRank(a: Reason, b: Reason)
    requires Rank(a) == Rank(b) > 0
    ensures a == b
  { }

  lemma JudgeNext(e: Envelope, f: Found, reasons: seq<Reason>, reason: Reason)
    requires Rank(reason) > 0 && Judged(e, f, reasons, Rank(reason) - 1)
    ensures Judged(e, f, if Given(e, f, reason) then reasons + [reason] else reasons, Rank(reason))
  {
    hide Given;
    var next := if Given(e, f, reason) then reasons + [reason] else reasons;
    forall i | 0 <= i < |reasons| ensures Rank(reasons[i]) < Rank(reason) { assert reasons[i] in reasons; }
    forall x ensures x in next <==> 0 < Rank(x) <= Rank(reason) && Given(e, f, x) {
      if Rank(x) == Rank(reason) { SameRank(x, reason); }
    }
  }

  lemma Judges(e: Envelope, f: Found, reasons: seq<Reason>, reason: Reason, found: bool, next: seq<Reason>)
    requires Rank(reason) > 0 && Judged(e, f, reasons, Rank(reason) - 1) && (found <==> Given(e, f, reason))
    requires next == if found then reasons + [reason] else reasons
    ensures Judged(e, f, next, Rank(reason))
  {
    JudgeNext(e, f, reasons, reason);
  }

  lemma RechecksGiven(e: Envelope, f: Found)
    ensures Rank(VersionMissing) == 1 && Rank(QualityDenied) == 2 && Rank(ComparisonDenied) == 3
            && Rank(PinDiffers) == 4
    ensures Given(e, f, VersionMissing) <==> f.unknownVersions > 0
    ensures Given(e, f, QualityDenied) <==> f.quality.None?
    ensures Given(e, f, ComparisonDenied) <==> f.comparison.None?
    ensures Given(e, f, PinDiffers) <==> e.pin != e.single.pin || e.pin != e.multi.pin
  { }

  lemma ResultsGiven(e: Envelope, f: Found)
    ensures Rank(CollectorNoGo) == 5 && Rank(Incomplete) == 6 && Rank(QualityNoGo) == 7 && Rank(ComparisonNoGo) == 8
    ensures Rank(CostNotKnown) == 9
    ensures Given(e, f, CollectorNoGo) <==> e.collector != CollectorPassed
    ensures Given(e, f, Incomplete) <==> e.newCalls != 252
    ensures Given(e, f, QualityNoGo) <==> !QualityGood(f.quality)
    ensures Given(e, f, ComparisonNoGo) <==> !ComparisonGood(f.comparison)
    ensures Given(e, f, CostNotKnown) <==> !f.cost.full
  { }

  /** What the rechecks say against the window. */
  method JudgeRechecks(e: Envelope, f: Found) returns (reasons: seq<Reason>)
    ensures Judged(e, f, reasons, 4)
  {
    hide Judged, Given, Rank;
    RechecksGiven(e, f);
    reasons := [];
    NotJudged(e, f);
    ghost var before := reasons;
    if f.unknownVersions > 0 { reasons := reasons + [VersionMissing]; }
    Judges(e, f, before, VersionMissing, f.unknownVersions > 0, reasons);
    before := reasons;
    if f.quality.None? { reasons := reasons + [QualityDenied]; }
    Judges(e, f, before, QualityDenied, f.quality.None?, reasons);
    before := reasons;
    if f.comparison.None? { reasons := reasons + [ComparisonDenied]; }
    Judges(e, f, before, ComparisonDenied, f.comparison.None?, reasons);
    before := reasons;
    if e.pin != e.single.pin || e.pin != e.multi.pin { reasons := reasons + [PinDiffers]; }
    Judges(e, f, before, PinDiffers, e.pin != e.single.pin || e.pin != e.multi.pin, reasons);
  }

  /** Adds what the collector, the counts and the thresholds say against it. */
  method Verdict(e: Envelope, f: Found) returns (reasons: seq<Reason>)
    ensures Judged(e, f, reasons, 9)
  {
    hide Judged, Given, Rank, QualityGood, ComparisonGood;
    ResultsGiven(e, f);
    reasons := JudgeRechecks(e, f);
    ghost var before := reasons;
    if e.collector != CollectorPassed { reasons := reasons + [CollectorNoGo]; }
    Judges(e, f, before, CollectorNoGo, e.collector != CollectorPassed, reasons);
    before := reasons;
    if e.newCalls != 252 { reasons := reasons + [Incomplete]; }
    Judges(e, f, before, Incomplete, e.newCalls != 252, reasons);
    before := reasons;
    if !QualityGood(f.quality) { reasons := reasons + [QualityNoGo]; }
    Judges(e, f, before, QualityNoGo, !QualityGood(f.quality), reasons);
    before := reasons;
    if !ComparisonGood(f.comparison) { reasons := reasons + [ComparisonNoGo]; }
    Judges(e, f, before, ComparisonNoGo, !ComparisonGood(f.comparison), reasons);
    before := reasons;
    if !f.cost.full { reasons := reasons + [CostNotKnown]; }
    Judges(e, f, before, CostNotKnown, !f.cost.full, reasons);
  }

  /** Nothing spent means that no full cost is known. */
  function WindowCost(xs: seq<Attempt>): Tally { if xs == [] then PlusAll(xs).(full := false) else PlusAll(xs) }

  /** First the reasons noticed attempt by attempt, then the later ones in order. */
  ghost predicate ReasonsAre(e: Envelope, f: Found, reasons: seq<Reason>) {
    var noticed := VersionReasons(All(e));
    noticed <= reasons && Judged(e, f, reasons[|noticed|..], 9)
  }

  ghost predicate RechecksAre(corpus: Corpus, grade: Grading, e: Envelope, f: Found) {
    && f.cost == WindowCost(All(e)) && f.unknownVersions == Count(All(e), Unnamed())
    && (f.quality.Some? <==> ScoreOk(Selected(corpus.cases), e.pin, e.attempts))
    && (f.quality.Some? ==> ReportIs(corpus, e.pin, grade, e.attempts, f.quality.value))
    && (f.comparison.Some? <==> CompareOk(corpus, grade, e.single, e.multi))
    && (f.comparison.Some? ==> ComparisonIs(corpus, grade, e.single, e.multi, f.comparison.value))
  }

  ghost predicate AuditIs(corpus: Corpus, grade: Grading, h: History, e: Envelope, r: Report) {
    && AuditOk(corpus, h, e) && RechecksAre(corpus, grade, e, r.found)
    && r.input == Sum(h.usage, CloudHistory.InputOf) && r.output == Sum(h.usage, CloudHistory.OutputOf)
    && r.family == FamilyOf(LastKnown(All(e))) && ReasonsAre(e, r.found, r.reasons) && (r.pass <==> r.reasons == [])
    && Listed(e.window.baseline, e.ledger, All(e), r.attempts)
  }

  /** The part of the audit that may deny: history, plan, ledger, attempts, order. */
  method Reconcile(corpus: Corpus, h: History, e: Envelope)
    returns (ok: bool, cost: Tally, sorted: seq<Safe>, input: int, output: int)
    requires ValidCorpus(corpus)
    ensures ok <==> AuditOk(corpus, h, e)
    ensures ok ==> cost == PlusAll(All(e)) && Listed(e.window.baseline, e.ledger, All(e), sorted)
    ensures ok ==> input == Sum(h.usage, CloudHistory.InputOf) && output == Sum(h.usage, CloudHistory.OutputOf)
  {
    hide ValidCorpus, Valid, Representable, LedgerOk, AttemptsOk, Sequential, Projects, Tabled, PlusAll, ExactSum,
         PlanOk,
         AttemptsOf, Plan, Admitted, CloudHistory.HistoryOk, CloudHistory.Runs, Sum, Listed;
    PlanIsOk(corpus);
    cost, sorted, input, output := NO_COST, [], 0, 0;
    AdmittedMeans(e);
    ok := Admit(e);
    if !ok || e.window.baseline != h.attempts { return false, cost, sorted, input, output; }
    var spent;
    ok, spent, input, output := CloudHistory.CheckHistory(h);
    if !ok { return; }
    var singles := Join(e.single.tasks);
    var multis := Join(e.multi.tasks);
    var compared := singles + multis;
    var xs := e.attempts + compared;
    assert compared == Compared(e) && xs == All(e);
    ok := AllValid(xs);
    if !ok { return; }
    var folded := FoldCost(xs);
    if folded.None? { return false, cost, sorted, input, output; }
    cost := folded.value;
    if |xs| != e.newCalls || |e.ledger| != e.newCalls { return false, cost, sorted, input, output; }
    var plan := MakePlan(corpus);
    var table, safe;
    ok, table := CheckLedger(e.window, e.total, spent, plan, e.ledger);
    if !ok { return; }
    ok, safe := CheckAttempts(e.window, e.ledger, table, e.attempts, compared);
    if !ok { return; }
    ok, sorted := CheckSequence(e.window, spent, plan, e.ledger, compared, xs, safe);
  }

  /** The checks on the envelope alone. */
  method Admit(e: Envelope) returns (ok: bool)
    ensures ok <==> Admitted(e)
  {
    var w := e.window;
    if e.collector == OtherCollector || !e.trusted || e.execution { return false; }
    if w.start == 0 || w.end < w.start || w.expires == 0 || w.expires <= w.start || w.expires - w.start > 75 * MINUTE {
      return false;
    }
    if e.maximum != w.baseline + 252 || e.maximumNew != 252 || e.newCalls < 0 || e.newCalls > 252
      || e.total != w.baseline + e.newCalls {
      return false;
    }
    ok := e.pin.evidence == NativeObservation && e.pin.version.None? && e.pin.frozen;
  }

  lemma AdmittedMeans(e: Envelope)
    ensures Admitted(e) ==> e.total == e.window.baseline + e.newCalls && 0 <= e.newCalls <= 252
  { }

  /** Scores and compares again, with the spend of the whole window. */
  method Recheck(corpus: Corpus, grade: Grading, e: Envelope, spent: Tally, unknown: nat) returns (f: Found)
    requires ValidCorpus(corpus) && spent == PlusAll(All(e)) && unknown == Count(All(e), Unnamed())
             && e.newCalls == |All(e)|
    ensures RechecksAre(corpus, grade, e, f)
  {
    hide ValidCorpus, ReportIs, ComparisonIs, ScoreOk, CompareOk, PlusAll, Count, All;
    var quality := Score(corpus, true, e.pin, grade, e.attempts);
    var comparison := Compare(corpus, true, grade, e.single, e.multi);
    var cost := if e.newCalls == 0 then spent.(full := false) else spent;
    f := Found(cost, unknown, quality, comparison);
  }

  /** Denies, or reports the whole spend with a verdict. */
  method Audit(corpus: Corpus, approved: bool, grade: Grading, h: History, e: Envelope) returns (r: Option<Report>)
    ensures r.Some? <==> approved && ValidCorpus(corpus) && AuditOk(corpus, h, e)
    ensures r.Some? ==> AuditIs(corpus, grade, h, e, r.value)
  {
    hide ValidCorpus, AuditOk, RechecksAre, PlusAll, Judged, VersionReasons, Count, Sum, Listed;
    var valid := ValidateCorpus(corpus);
    if !valid || !approved { return None; }
    var ok, cost, sorted, input, output := Reconcile(corpus, h, e);
    if !ok { return None; }
    var singles := Join(e.single.tasks);
    var multis := Join(e.multi.tasks);
    assert e.attempts + (singles + multis) == All(e);
    var noticed, unknown, observed := ObserveFamilies(e.attempts + (singles + multis));
    SpentSize(corpus, h, e);
    var found := Recheck(corpus, grade, e, cost, unknown);
    var later := Verdict(e, found);
    assert (noticed + later)[|noticed|..] == later;
    var family := FamilyUnavailable;
    if observed.Some? && (observed.value == Expected || observed.value.SameFamily?) { family := FlashFamily; }
    else if observed.Some? { family := OtherReportedFamily; }
    r := Some(Report(found, sorted, input, output, family, noticed + later, noticed + later == []));
  }

  lemma SpentSize(corpus: Corpus, h: History, e: Envelope)
    requires AuditOk(corpus, h, e)
    ensures e.newCalls == |All(e)|
  { }
}
