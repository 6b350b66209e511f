/** What a passing window proves about the answers themselves: every one of them, in the quality part and in both arms
    of the comparison, satisfies the original and the translated schema of its case. */
module CloudAnswers {
  import opened Options
  import opened CloudCost
  import opened CloudPlan
  import opened CloudGrade
  import opened CloudScore
  import opened CloudQuality
  import opened CloudCompare
  import opened CloudAudit
  import opened CloudPass
  import ResponseCheck

  /** The attempt answers a case of the corpus, and conforms to both schemas of that case. */
  ghost predicate Answers(corpus: Corpus, a: Attempt) {
    exists c :: c in corpus.cases && a.caseId == CaseId(c.id) && c.documents.Some?
                && Conforms(c.kind, c.documents.value, a.output)
  }

  lemma SchemaOf(corpus: Corpus, c: Case)
    requires ValidCorpus(corpus) && c in corpus.cases
    ensures c.documents.Some? && ResponseCheck.ResponseSchema(c.kind, c.documents.value).Some?
  {
    hide SoundGroups, GroupCounts, CellCounts, CaseCounts, Comparable, GoldenPasses;
    assert SoundCase(GroupTable(corpus.groups), c);
  }

  lemma CleanAnswers(corpus: Corpus, c: Case, a: Attempt)
    requires ValidCorpus(corpus) && c in corpus.cases && a.caseId == CaseId(c.id)
    requires Passable(WindowGrading()(c, a.output))
    ensures Answers(corpus, a)
  {
    hide ValidCorpus, Conforms, GradeResponse;
    SchemaOf(corpus, c);
    PassableConforms(c.kind, c.documents.value, c.golden, a.output);
  }

  /** The quality attempts. */
  lemma QualityAnswers(corpus: Corpus, xs: seq<Attempt>)
    requires ValidCorpus(corpus) && forall a :: a in xs ==> Blameless(corpus, WindowGrading(), a)
    ensures forall a :: a in xs ==> Answers(corpus, a)
  {
    QuotaCount(corpus, Development);
    hide ValidCorpus, Answers, Selected, WithinAllowance, WindowGrading;
    SelectedIs(corpus.cases);
    forall a | a in xs ensures Answers(corpus, a) {
      assert Blameless(corpus, WindowGrading(), a);
      CleanAnswers(corpus, Selected(corpus.cases)[a.caseId], a);
    }
  }

  lemma {:induction false} PairedIs(byId: map<string, Case>, ids: seq<string>)
    ensures forall x :: x in Paired(byId, ids) ==>
              exists id :: id in byId && x == CaseId(id) && Paired(byId, ids)[x] == byId[id]
  {
    if ids != [] { PairedIs(byId, ids[..|ids| - 1]); }
  }

  lemma PairedCase(corpus: Corpus, id: CaseId)
    requires id in PairedOf(corpus)
    ensures PairedOf(corpus)[id] in corpus.cases && id == CaseId(PairedOf(corpus)[id].id)
  {
    hide Paired, CaseTable;
    PairedIs(CaseTable(corpus.cases), corpus.comparison);
    CaseTableKeys(corpus.cases);
  }

  lemma TaskAnswers(corpus: Corpus, arm: Mode, t: Task)
    requires ValidCorpus(corpus) && TaskOk(PairedOf(corpus), WindowGrading(), arm, t)
    ensures forall a :: a in t.attempts ==> Answers(corpus, a)
  {
    hide ValidCorpus, Answers, PairedOf, TimesOk, Lineage, WindowGrading, RoleTable, WithinAllowance, MakeInput;
    PairedCase(corpus, t.caseId);
    RoleKeys(t.attempts);
    forall a | a in t.attempts ensures Answers(corpus, a) {
      assert Inside(t, a);
      assert Faithful(PairedOf(corpus)[t.caseId], WindowGrading(), t.caseId, RoleTable(t.attempts), a.role);
      CleanAnswers(corpus, PairedOf(corpus)[t.caseId], a);
    }
  }

  lemma {:induction false} ArmAnswers(corpus: Corpus, arm: Mode, ts: seq<Task>)
    requires ValidCorpus(corpus) && forall t :: t in ts ==> TaskOk(PairedOf(corpus), WindowGrading(), arm, t)
    ensures forall a :: a in AttemptsOf(ts) ==> Answers(corpus, a)
  {
    hide ValidCorpus, Answers, PairedOf, TaskOk, WindowGrading;
    if ts != [] {
      ArmAnswers(corpus, arm, ts[..|ts| - 1]);
      assert ts[|ts| - 1] in ts;
      TaskAnswers(corpus, arm, ts[|ts| - 1]);
    }
  }

  /** Every answer of a passing window satisfies the original and the translated schema of its case. */
  lemma PassConforms(corpus: Corpus, h: History, e: Envelope, r: Report)
    requires ValidCorpus(corpus) && AuditIs(corpus, WindowGrading(), h, e, r) && r.pass
    ensures forall a :: a in All(e) ==> Answers(corpus, a)
  {
    hide ValidCorpus, AuditIs, Answers, Blameless, AttemptsOf, PairedOf, WindowGrading, TaskOk, GroupsOk, Apart,
         MarksOf,
         SingleExact, FamilyExact, RightAnswer, Selected, Plan, Added;
    PassAccepted(corpus, WindowGrading(), h, e, r);
    PassMeans(corpus, WindowGrading(), h, e, r);
    QualityAnswers(corpus, e.attempts);
    ArmAnswers(corpus, SingleMode, e.single.tasks);
    ArmAnswers(corpus, MultiMode, e.multi.tasks);
  }

  lemma PassAccepted(corpus: Corpus, grade: Grading, h: History, e: Envelope, r: Report)
    requires AuditIs(corpus, grade, h, e, r) && r.pass
    ensures TasksOk(PairedOf(corpus), grade, SingleMode, e.single.tasks)
    ensures TasksOk(PairedOf(corpus), grade, MultiMode, e.multi.tasks)
  {
    hide AuditOk, ReasonsAre, ReportIs, ComparisonIs, ScoreOk, Representable, AllVersions, Unique, TasksOk, PairedOf;
    PassGives(corpus, grade, h, e, r);
  }
}
