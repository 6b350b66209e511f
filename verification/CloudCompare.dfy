/** Comparing one agent with two children and a synthesis on the four fixed cases. */
module CloudCompare {
  import opened Options
  import opened Sums
  import opened CloudCost
  import opened CloudPlan
  import opened CloudGrade
  import opened CloudScore
  import opened CloudQuality

  datatype Mode = SingleMode | MultiMode | OtherMode

  /** `original` is the digest of the original input, named by the case it belongs to. */
  datatype Task = Task(caseId: CaseId, original: CaseId, start: int, end: int, ms: int, attempts: seq<Attempt>)

  datatype Run = Run(mode: Mode, pin: Pin, tasks: seq<Task>)

  const ARM_MS: int := 480_000
  const ATTEMPT_MS: int := 120_000

  function AttemptsOf(tasks: seq<Task>): seq<Attempt> {
    if tasks == [] then [] else AttemptsOf(tasks[..|tasks| - 1]) + tasks[|tasks| - 1].attempts
  }

  // ----- identities are used once -----

  datatype Seen = Seen(ids: set<AttemptId>, contexts: set<Context>)

  function SeenOf(xs: seq<Attempt>): Seen { Seen(set a | a in xs :: a.id, set a | a in xs :: a.context) }

  predicate Unique(xs: seq<Attempt>) {
    forall i, j :: 0 <= i < j < |xs| ==> xs[i].id != xs[j].id && xs[i].context != xs[j].context
  }

  predicate Fresh(s: Seen, a: Attempt) { a.id !in s.ids && a.context !in s.contexts }

  lemma UniqueNext(xs: seq<Attempt>, a: Attempt)
    requires Unique(xs)
    ensures Unique(xs + [a]) <==> Fresh(SeenOf(xs), a)
    ensures SeenOf(xs + [a]) == Seen(SeenOf(xs).ids + {a.id}, SeenOf(xs).contexts + {a.context})
  {
    var ys := xs + [a];
    if !Fresh(SeenOf(xs), a) {
      var b :| b in xs && (b.id == a.id || b.context == a.context);
      var j :| 0 <= j < |xs| && xs[j] == b;
      assert ys[j] == b && ys[|xs|] == a;
    }
  }

  lemma UniquePrefix(xs: seq<Attempt>, ys: seq<Attempt>)
    ensures Unique(xs + ys) ==> Unique(xs)
  {
    assert forall i :: 0 <= i < |xs| ==> (xs + ys)[i] == xs[i];
  }

  // ----- the attempts of one task -----

  /** A completed, safe attempt inside its task's times and allowances. */
  ghost predicate Inside(t: Task, a: Attempt) {
    && Valid(a) && a.caseId == t.caseId && t.start <= a.start && a.end <= t.end
    && !a.unsafe && a.outcome == Completed && a.ms <= ATTEMPT_MS && WithinAllowance(a)
  }

  function RoleTable(xs: seq<Attempt>): map<Role, Attempt> {
    if xs == [] then map[] else RoleTable(xs[..|xs| - 1])[xs[|xs| - 1].role := xs[|xs| - 1]]
  }

  predicate DistinctRoles(xs: seq<Attempt>) { forall i, j :: 0 <= i < j < |xs| ==> xs[i].role != xs[j].role }

  ghost predicate Contained(t: Task, xs: seq<Attempt>) { DistinctRoles(xs) && forall a :: a in xs ==> Inside(t, a) }

  lemma {:induction false} RoleKeys(xs: seq<Attempt>)
    ensures forall r :: r in RoleTable(xs) <==> exists a :: a in xs && a.role == r
    ensures forall r :: r in RoleTable(xs) ==> RoleTable(xs)[r] in xs && RoleTable(xs)[r].role == r
    ensures DistinctRoles(xs) ==> forall a :: a in xs ==> RoleTable(xs)[a.role] == a
  {
    if xs != [] {
      var front, last := xs[..|xs| - 1], xs[|xs| - 1];
      RoleKeys(front);
      assert xs == front + [last];
      assert last in xs;
    }
  }

  lemma RolesNext(xs: seq<Attempt>, i: nat)
    requires i < |xs| && DistinctRoles(xs[..i])
    ensures DistinctRoles(xs[..i + 1]) <==> xs[i].role !in RoleTable(xs[..i])
  {
    hide RoleTable;
    var ys, a := xs[..i + 1], xs[i];
    RoleKeys(xs[..i]);
    if a.role in RoleTable(xs[..i]) {
      var b :| b in xs[..i] && b.role == a.role;
      var j :| 0 <= j < i && xs[j] == b;
      assert ys[j] == b && ys[i] == a;
    } else {
      forall j, k | 0 <= j < k < |ys| ensures ys[j].role != ys[k].role {
        assert ys[j] == xs[..i][j];
        if k < i { assert ys[k] == xs[..i][k]; } else { assert xs[..i][j] in xs[..i]; }
      }
    }
  }

  lemma ContainedNext(t: Task, xs: seq<Attempt>, i: nat)
    requires i < |xs| && Contained(t, xs[..i])
    ensures Contained(t, xs[..i + 1]) <==> Inside(t, xs[i]) && xs[i].role !in RoleTable(xs[..i])
    ensures Contained(t, xs) ==> Contained(t, xs[..i + 1])
  {
    hide Inside, RoleTable, DistinctRoles;
    RolesNext(xs, i);
    RolesPrefix(xs, i + 1);
    assert xs[..i + 1] == xs[..i] + [xs[i]];
    assert xs[i] in xs[..i + 1];
    assert forall b :: b in xs[..i + 1] ==> b in xs;
  }

  lemma RolesPrefix(xs: seq<Attempt>, i: nat)
    requires i <= |xs|
    ensures DistinctRoles(xs) ==> DistinctRoles(xs[..i])
  { }

  /** Checks a task's attempts one by one against everything recorded before. */
  method CheckTaskAttempts(t: Task, ghost done: seq<Attempt>, before: Seen)
    returns (ok: bool, roles: map<Role, Attempt>, seen: Seen)
    requires Unique(done) && before == SeenOf(done)
    ensures ok <==> Contained(t, t.attempts) && Unique(done + t.attempts)
    ensures ok ==> roles == RoleTable(t.attempts) && seen == SeenOf(done + t.attempts)
  {
    roles, seen := map[], before;
    assert done + t.attempts[..0] == done;
    for i := 0 to |t.attempts|
      invariant Contained(t, t.attempts[..i]) && Unique(done + t.attempts[..i])
      invariant roles == RoleTable(t.attempts[..i]) && seen == SeenOf(done + t.attempts[..i])
    {
      hide Inside, Contained, Unique, SeenOf, Fresh, RoleTable;
      var a := t.attempts[i];
      ContainedNext(t, t.attempts, i);
      UniqueNext(done + t.attempts[..i], a);
      OneMore(done, t.attempts, i);
      FreshMeans(seen, a);
      var inside := CheckInside(t, a);
      if !inside || a.id in seen.ids || a.context in seen.contexts || a.role in roles {
        return false, roles, seen;
      }
      roles := roles[a.role := a];
      seen := Seen(seen.ids + {a.id}, seen.contexts + {a.context});
    }
    assert t.attempts[..|t.attempts|] == t.attempts;
    ok := true;
  }

  method CheckInside(t: Task, a: Attempt) returns (ok: bool)
    ensures ok <==> Inside(t, a)
  {
    hide Valid;
    ok := CheckValid(a);
    if !ok { return; }
    if a.caseId != t.caseId || a.start < t.start || a.end > t.end || a.unsafe || a.outcome != Completed
      || a.ms > ATTEMPT_MS {
      return false;
    }
    if (a.input.Some? && a.input.value > 65536) || (a.generated.Some? && a.generated.value > 32768) { return false; }
    ok := a.input.None? || a.total.None? || a.total.value - a.input.value <= 32768;
  }

  lemma OneMore(done: seq<Attempt>, xs: seq<Attempt>, i: nat)
    requires i < |xs|
    ensures done + xs[..i] + [xs[i]] == done + xs[..i + 1]
    ensures Unique(done + xs) ==> Unique(done + xs[..i + 1])
    ensures RoleTable(xs[..i + 1]) == RoleTable(xs[..i])[xs[i].role := xs[i]]
  {
    hide Unique;
    assert done + xs[..i + 1] + xs[i + 1..] == done + xs;
    UniquePrefix(done + xs[..i + 1], xs[i + 1..]);
    assert xs[..i + 1][..i] == xs[..i];
  }

  lemma FreshMeans(s: Seen, a: Attempt)
    ensures Fresh(s, a) <==> a.id !in s.ids && a.context !in s.contexts
  { }

  // ----- one task -----

  /** Both children point at the synthesis, which starts after both have ended. */
  ghost predicate Lineage(arm: Mode, roles: map<Role, Attempt>) {
    if arm == SingleMode then Single in roles && roles[Single].parent.None?
    else
      && ChildA in roles && ChildB in roles && Synthesis in roles
      && roles[ChildA].parent == Some(roles[Synthesis].context)
      && roles[ChildB].parent == Some(roles[Synthesis].context)
      && roles[Synthesis].parent.None? && roles[ChildA].end <= roles[Synthesis].start
      && roles[ChildB].end <= roles[Synthesis].start
  }

  function FinalRole(arm: Mode): Role { if arm == SingleMode then Single else Synthesis }

  /** The unchanged question; the synthesis also gets both reports in canonical form. */
  function MakeInput(id: CaseId, role: Role, children: seq<Output>): Option<InputSha> {
    if role == OtherRole then None
    else if role != Synthesis then (if |children| != 0 then None else Some(ModelInput(id, [])))
    else if |children| != 2 || children[0].canonical.None? || children[1].canonical.None? then None
    else Some(ModelInput(id, [children[0].canonical.value, children[1].canonical.value]))
  }

  function ChildrenOf(role: Role, roles: map<Role, Attempt>): seq<Output> {
    if role == Synthesis && ChildA in roles && ChildB in roles then [roles[ChildA].output, roles[ChildB].output] else []
  }

  predicate Faithful(c: Case, grade: Grading, id: CaseId, roles: map<Role, Attempt>, role: Role)
    requires role in roles
  {
    && MakeInput(id, role, ChildrenOf(role, roles)) == Some(roles[role].inputSha)
    && Passable(grade(c, roles[role].output))
  }

  predicate AllFaithful(c: Case, grade: Grading, id: CaseId, roles: map<Role, Attempt>) {
    forall r :: r in roles ==> Faithful(c, grade, id, roles, r)
  }

  ghost predicate TimesOk(t: Task) {
    && t.original == t.caseId && t.start != 0 && t.start <= t.end && 0 <= t.ms <= ARM_MS
    && -2 <= Wall(t.start, t.end) - t.ms <= 2
  }

  function Need(arm: Mode): nat { if arm == SingleMode then 1 else 3 }

  ghost predicate TaskOk(originals: map<CaseId, Case>, grade: Grading, arm: Mode, t: Task) {
    && t.caseId in originals && TimesOk(t) && |t.attempts| == Need(arm) && Contained(t, t.attempts)
    && Lineage(arm, RoleTable(t.attempts)) && AllFaithful(originals[t.caseId], grade, t.caseId, RoleTable(t.attempts))
  }

  /** An attempt of the task in this role gave exactly the golden answer of its case. */
  ghost function ExactAs(originals: map<CaseId, Case>, grade: Grading, role: Role): Task -> bool {
    (t: Task) => t.caseId in originals
      && exists a :: a in t.attempts && a.role == role && grade(originals[t.caseId], a.output).exact
  }

  /** With one attempt for each role, the role's attempt decides. */
  lemma ExactByRole(originals: map<CaseId, Case>, grade: Grading, t: Task, role: Role)
    requires t.caseId in originals && DistinctRoles(t.attempts) && role in RoleTable(t.attempts)
    ensures ExactAs(originals, grade, role)(t)
            <==> grade(originals[t.caseId], RoleTable(t.attempts)[role].output).exact
  {
    hide RoleTable, DistinctRoles;
    RoleKeys(t.attempts);
  }

  const ANY_ROLE: seq<Role> := [Single, ChildA, ChildB, Synthesis, OtherRole]

  method CheckFaithful(c: Case, grade: Grading, id: CaseId, roles: map<Role, Attempt>) returns (ok: bool)
    ensures ok <==> AllFaithful(c, grade, id, roles)
  {
    hide Faithful;
    for i := 0 to |ANY_ROLE|
      invariant forall r :: r in roles && r in ANY_ROLE[..i] ==> Faithful(c, grade, id, roles, r)
    {
      var role := ANY_ROLE[i];
      if role in roles && !Faithful(c, grade, id, roles, role) { return false; }
    }
    assert ANY_ROLE[..|ANY_ROLE|] == ANY_ROLE;
    EveryRole();
    ok := true;
  }

  lemma EveryRole()
    ensures forall r: Role :: r in ANY_ROLE
  {
    forall r: Role ensures r in ANY_ROLE {
      match r case Single => case ChildA => case ChildB => case Synthesis => case OtherRole =>
    }
  }

  method CheckTask(originals: map<CaseId, Case>, grade: Grading, arm: Mode, t: Task, ghost done: seq<Attempt>,
                   before: Seen)
    returns (ok: bool, exact: bool, seen: Seen)
    requires arm != OtherMode && t.caseId in originals && Unique(done) && before == SeenOf(done)
    ensures ok <==> TaskOk(originals, grade, arm, t) && Unique(done + t.attempts)
    ensures ok ==> seen == SeenOf(done + t.attempts) && exact == ExactAs(originals, grade, FinalRole(arm))(t)
  {
    hide Contained, Unique, AllFaithful, SeenOf, RoleTable, Inside, ExactAs, DistinctRoles;
    exact, seen := false, before;
    if t.original != t.caseId || t.start == 0 || t.end < t.start || t.ms < 0 || t.ms > ARM_MS
      || Wall(t.start, t.end) - t.ms < -2 || Wall(t.start, t.end) - t.ms > 2 {
      return false, exact, seen;
    }
    if |t.attempts| != Need(arm) || |t.attempts| > 4 { return false, exact, seen; }
    var roles;
    ok, roles, seen := CheckTaskAttempts(t, done, before);
    if !ok { return; }
    ok := CheckLineage(arm, roles);
    if !ok { return; }
    ok := CheckFaithful(originals[t.caseId], grade, t.caseId, roles);
    if !ok { return; }
    var final := roles[FinalRole(arm)];
    var check := grade(originals[t.caseId], final.output);
    FinalClean(originals[t.caseId], grade, t.caseId, roles, FinalRole(arm));
    if !Passable(check) { return false, exact, seen; }
    ContainedRoles(t);
    ExactByRole(originals, grade, t, FinalRole(arm));
    exact := check.exact;
  }

  method CheckLineage(arm: Mode, roles: map<Role, Attempt>) returns (ok: bool)
    ensures ok <==> Lineage(arm, roles)
  {
    if arm == SingleMode { return Single in roles && roles[Single].parent.None?; }
    if ChildA !in roles || ChildB !in roles || Synthesis !in roles { return false; }
    var a, b, s := roles[ChildA], roles[ChildB], roles[Synthesis];
    if a.parent != Some(s.context) || b.parent != Some(s.context) || s.parent.Some? { return false; }
    ok := a.end <= s.start && b.end <= s.start;
  }

  lemma ContainedRoles(t: Task)
    requires Contained(t, t.attempts)
    ensures DistinctRoles(t.attempts)
  { }

  lemma FinalClean(c: Case, grade: Grading, id: CaseId, roles: map<Role, Attempt>, role: Role)
    requires AllFaithful(c, grade, id, roles) && role in roles
    ensures Passable(grade(c, roles[role].output))
  {
    assert Faithful(c, grade, id, roles, role);
  }

  // ----- one arm -----

  predicate DistinctTasks(ts: seq<Task>) { forall i, j :: 0 <= i < j < |ts| ==> ts[i].caseId != ts[j].caseId }

  ghost predicate TasksOk(originals: map<CaseId, Case>, grade: Grading, arm: Mode, ts: seq<Task>) {
    DistinctTasks(ts) && forall t :: t in ts ==> TaskOk(originals, grade, arm, t)
  }

  function TaskMs(t: Task): int { t.ms }

  lemma TasksNext(originals: map<CaseId, Case>, grade: Grading, arm: Mode, ts: seq<Task>, i: nat, seen: set<CaseId>)
    requires i < |ts| && TasksOk(originals, grade, arm, ts[..i]) && seen == set t | t in ts[..i] :: t.caseId
    ensures TasksOk(originals, grade, arm, ts[..i + 1]) <==>
            TaskOk(originals, grade, arm, ts[i]) && ts[i].caseId !in seen
    ensures TasksOk(originals, grade, arm, ts) ==> TasksOk(originals, grade, arm, ts[..i + 1])
    ensures seen + {ts[i].caseId} == set t | t in ts[..i + 1] :: t.caseId
  {
    hide TaskOk;
    var us, t := ts[..i + 1], ts[i];
    assert us == ts[..i] + [t];
    assert t in us;
    assert forall u :: u in us ==> u in ts;
    if t.caseId in seen {
      var u :| u in ts[..i] && u.caseId == t.caseId;
      var j :| 0 <= j < i && ts[j] == u;
      assert us[j] == u && us[i] == t;
    } else {
      assert forall j :: 0 <= j < i ==> us[j] in ts[..i];
    }
  }

  lemma {:induction false} AttemptsSplit(ts: seq<Task>, i: nat) returns (rest: seq<Attempt>)
    requires i <= |ts|
    ensures AttemptsOf(ts) == AttemptsOf(ts[..i]) + rest
  {
    if i == |ts| {
      assert ts[..i] == ts;
      rest := [];
    } else {
      rest := AttemptsSplit(ts[..|ts| - 1], i);
      assert ts[..|ts| - 1][..i] == ts[..i];
      rest := rest + ts[|ts| - 1].attempts;
    }
  }

  lemma AttemptsNext(ts: seq<Task>, i: nat)
    requires i < |ts|
    ensures AttemptsOf(ts[..i + 1]) == AttemptsOf(ts[..i]) + ts[i].attempts
  {
    assert ts[..i + 1][..i] == ts[..i];
  }

  /** Joining one more task's attempts. */
  lemma JoinNext(done: seq<Attempt>, ts: seq<Task>, i: nat)
    requires i < |ts|
    ensures done + AttemptsOf(ts[..i]) + ts[i].attempts == done + AttemptsOf(ts[..i + 1])
    ensures Unique(done + AttemptsOf(ts)) ==> Unique(done + AttemptsOf(ts[..i + 1]))
  {
    hide Unique, AttemptsOf;
    AttemptsNext(ts, i);
    var rest := AttemptsSplit(ts, i + 1);
    assert done + AttemptsOf(ts) == done + AttemptsOf(ts[..i + 1]) + rest;
    UniquePrefix(done + AttemptsOf(ts[..i + 1]), rest);
  }

  lemma TaskFits(originals: map<CaseId, Case>, grade: Grading, arm: Mode, t: Task)
    requires TaskOk(originals, grade, arm, t)
    ensures 0 <= t.ms <= ARM_MS
  { }

  /** Checks the tasks of one arm in order; the sum of their times cannot overflow. */
  method CheckArm(originals: map<CaseId, Case>, grade: Grading, arm: Mode, ts: seq<Task>, ghost done: seq<Attempt>,
                  before: Seen)
    returns (ok: bool, correct: nat, wall: int, seen: Seen)
    requires arm != OtherMode && Unique(done) && before == SeenOf(done)
    ensures ok <==> |ts| == 4 && TasksOk(originals, grade, arm, ts) && Unique(done + AttemptsOf(ts))
    ensures ok ==>
            correct == Count(ts, ExactAs(originals, grade, FinalRole(arm))) && wall == Sum(ts, TaskMs)
                && seen == SeenOf(done + AttemptsOf(ts))
  {
    hide TasksOk, TaskOk, Unique, SeenOf, ExactAs, AttemptsOf, Count, Sum, TaskMs;
    correct, wall, seen := 0, 0, before;
    if |ts| != 4 { return false, correct, wall, seen; }
    var cases: set<CaseId> := {};
    NoTasks(originals, grade, arm, ts, done);
    for i := 0 to |ts|
      invariant cases == set t | t in ts[..i] :: t.caseId
      invariant TasksOk(originals, grade, arm, ts[..i]) && Unique(done + AttemptsOf(ts[..i]))
                && seen == SeenOf(done + AttemptsOf(ts[..i]))
      invariant correct == Count(ts[..i], ExactAs(originals, grade, FinalRole(arm))) && wall == Sum(ts[..i], TaskMs)
                && 0 <= wall <= i * ARM_MS
    {
      var t := ts[i];
      TasksNext(originals, grade, arm, ts, i, cases);
      JoinNext(done, ts, i);
      OriginalNeeded(originals, grade, arm, t);
      if t.caseId !in originals || t.caseId in cases { return false, correct, wall, seen; }
      cases := cases + {t.caseId};
      var fine, exact;
      fine, exact, seen := CheckTask(originals, grade, arm, t, done + AttemptsOf(ts[..i]), seen);
      if !fine { return false, correct, wall, seen; }
      TaskFits(originals, grade, arm, t);
      if t.ms > MAX64 - wall { return false, correct, wall, seen; }
      CountNext(ts, i, ExactAs(originals, grade, FinalRole(arm)));
      WallNext(ts, i);
      correct, wall := if exact then correct + 1 else correct, wall + t.ms;
    }
    assert ts[..|ts|] == ts;
    ok := true;
  }

  lemma NoTasks(originals: map<CaseId, Case>, grade: Grading, arm: Mode, ts: seq<Task>, done: seq<Attempt>)
    ensures TasksOk(originals, grade, arm, ts[..0]) && done + AttemptsOf(ts[..0]) == done
    ensures Count(ts[..0], ExactAs(originals, grade, FinalRole(arm))) == 0 && Sum(ts[..0], TaskMs) == 0
  { }

  lemma WallNext(ts: seq<Task>, i: nat)
    requires i < |ts|
    ensures Sum(ts[..i + 1], TaskMs) == Sum(ts[..i], TaskMs) + ts[i].ms
  {
    assert ts[..i + 1][..i] == ts[..i];
  }

  lemma OriginalNeeded(originals: map<CaseId, Case>, grade: Grading, arm: Mode, t: Task)
    ensures TaskOk(originals, grade, arm, t) ==> t.caseId in originals
  { }

  // ----- both arms -----

  /** The comparison originals by identifier. */
  function Paired(byId: map<string, Case>, ids: seq<string>): map<CaseId, Case> {
    if ids == [] then map[] else
      var m, id := Paired(byId, ids[..|ids| - 1]), ids[|ids| - 1];
      if id in byId then m[CaseId(id) := byId[id]] else m
  }

  function PairedOf(corpus: Corpus): map<CaseId, Case> { Paired(CaseTable(corpus.cases), corpus.comparison) }

  predicate AllVersions(pin: Pin, xs: seq<Attempt>) { forall a :: a in xs ==> VersionOk(pin, a) }

  ghost predicate CompareOk(corpus: Corpus, grade: Grading, single: Run, multi: Run) {
    && single.mode == SingleMode && multi.mode == MultiMode && single.pin == multi.pin && ValidPin(single.pin)
    && Representable(AttemptsOf(single.tasks)) && Representable(AttemptsOf(multi.tasks))
    && AllVersions(single.pin, AttemptsOf(single.tasks) + AttemptsOf(multi.tasks))
    && |single.tasks| == 4 && TasksOk(PairedOf(corpus), grade, SingleMode, single.tasks)
    && |multi.tasks| == 4 && TasksOk(PairedOf(corpus), grade, MultiMode, multi.tasks)
    && Unique(AttemptsOf(single.tasks) + AttemptsOf(multi.tasks))
  }

  datatype CompareReport = CompareReport(
    single: Tally, multi: Tally, singleWall: int, multiWall: int, paired: nat, singleCorrect: nat, multiCorrect: nat,
    passed: bool, full: bool, observed: Option<Version>, unknown: nat, status: Status)

  ghost predicate ComparisonIs(corpus: Corpus, grade: Grading, single: Run, multi: Run, r: CompareReport) {
    && ExactSum(r.single, AttemptsOf(single.tasks)) && ExactSum(r.multi, AttemptsOf(multi.tasks))
    && r.singleWall == Sum(single.tasks, TaskMs) && r.multiWall == Sum(multi.tasks, TaskMs) && r.paired == 4
    && r.singleCorrect == Count(single.tasks, ExactAs(PairedOf(corpus), grade, Single))
    && r.multiCorrect == Count(multi.tasks, ExactAs(PairedOf(corpus), grade, Synthesis))
    && (r.passed <==> r.singleCorrect == 4 && r.multiCorrect == 4) && r.full == (r.single.full && r.multi.full)
    && Versions(AttemptsOf(single.tasks) + AttemptsOf(multi.tasks), r.observed, r.unknown)
    && StatusIs(r.status, r.passed, single.pin.evidence, r.unknown, r.full)
  }

  method PairCases(byId: map<string, Case>, ids: seq<string>) returns (originals: map<CaseId, Case>)
    ensures originals == Paired(byId, ids)
  {
    originals := map[];
    for i := 0 to |ids|
      invariant originals == Paired(byId, ids[..i])
    {
      assert ids[..i + 1][..i] == ids[..i];
      if ids[i] in byId { originals := originals[CaseId(ids[i]) := byId[ids[i]]]; }
    }
    assert ids[..|ids|] == ids;
  }

  method IndexById(cases: seq<Case>) returns (byId: map<string, Case>)
    ensures byId == CaseTable(cases)
  {
    byId := map[];
    for i := 0 to |cases|
      invariant byId == CaseTable(cases[..i])
    {
      assert cases[..i + 1][..i] == cases[..i];
      byId := byId[cases[i].id := cases[i]];
    }
    assert cases[..|cases|] == cases;
  }

  method Join(ts: seq<Task>) returns (xs: seq<Attempt>)
    ensures xs == AttemptsOf(ts)
  {
    xs := [];
    for i := 0 to |ts|
      invariant xs == AttemptsOf(ts[..i])
    {
      AttemptsNext(ts, i);
      xs := xs + ts[i].attempts;
    }
    assert ts[..|ts|] == ts;
  }

  method ObserveAll(pin: Pin, xs: seq<Attempt>) returns (ok: bool, observed: Option<Version>, unknown: nat)
    requires ValidPin(pin)
    ensures ok <==> AllVersions(pin, xs)
    ensures ok ==> Versions(xs, observed, unknown)
  {
    observed, unknown := None, 0;
    for i := 0 to |xs|
      invariant AllVersions(pin, xs[..i]) && Versions(xs[..i], observed, unknown)
    {
      hide Versions, VersionOk, Count;
      VersionsKnown(xs[..i], observed, unknown);
      VersionsNext(xs, i, observed, unknown);
      assert xs[..i + 1] == xs[..i] + [xs[i]];
      assert xs[i] in xs;
      ok, observed, unknown := Observe(pin, xs[i], observed, unknown);
      if !ok { return; }
    }
    assert xs[..|xs|] == xs;
    ok := true;
  }

  lemma {:induction false} TasksValid(originals: map<CaseId, Case>, grade: Grading, arm: Mode, ts: seq<Task>)
    ensures (forall t :: t in ts ==> TaskOk(originals, grade, arm, t)) ==> forall a :: a in AttemptsOf(ts) ==> Valid(a)
  {
    hide Valid;
    if ts != [] {
      TasksValid(originals, grade, arm, ts[..|ts| - 1]);
      assert ts[|ts| - 1] in ts;
    }
  }

  /** Accepts exactly the well-formed pairs of arms, after folding the cost of both. */
  method Compare(corpus: Corpus, approved: bool, grade: Grading, single: Run, multi: Run)
    returns (r: Option<CompareReport>)
    ensures r.Some? <==> approved && ValidCorpus(corpus) && CompareOk(corpus, grade, single, multi)
    ensures r.Some? ==> ComparisonIs(corpus, grade, single, multi, r.value)
  {
    hide ValidCorpus, ExactSum, Representable, TaskOk, Unique, AttemptsOf, SeenOf, Versions, AllVersions, Valid, Count,
         ExactAs, Paired, CaseTable;
    var valid := ValidateCorpus(corpus);
    if !valid || !approved { return None; }
    if single.mode != SingleMode || multi.mode != MultiMode || single.pin != multi.pin
      || single.pin.evidence == OtherEvidence
      || !single.pin.frozen || (single.pin.version.Some? && single.pin.version.value != Expected) {
      return None;
    }
    var byId := IndexById(corpus.cases);
    var originals := PairCases(byId, corpus.comparison);
    var xs := Join(single.tasks);
    var ys := Join(multi.tasks);
    TasksValid(originals, grade, SingleMode, single.tasks);
    TasksValid(originals, grade, MultiMode, multi.tasks);
    var fine := AllValid(xs);
    if !fine { return None; }
    fine := AllValid(ys);
    if !fine { return None; }
    var one := FoldCost(xs);
    if one.None? { return None; }
    var two := FoldCost(ys);
    if two.None? { return None; }
    var ok, observed, unknown := ObserveAll(single.pin, xs + ys);
    if !ok { return None; }
    NothingSeen(xs, ys);
    var singles, walls, seen;
    ok, singles, walls, seen := CheckArm(originals, grade, SingleMode, single.tasks, [], Seen({}, {}));
    assert [] + xs == xs;
    if !ok { return None; }
    var multis, wallm;
    ok, multis, wallm, seen := CheckArm(originals, grade, MultiMode, multi.tasks, xs, seen);
    if !ok { return None; }
    var passed, full := singles == 4 && multis == 4, one.value.full && two.value.full;
    r := Some(CompareReport(one.value, two.value, walls, wallm, 4, singles, multis, passed, full, observed, unknown,
                            StatusOf(passed, single.pin, unknown, full)));
  }

  lemma NothingSeen(xs: seq<Attempt>, ys: seq<Attempt>)
    ensures Unique([]) && SeenOf([]) == Seen({}, {}) && (Unique(xs + ys) ==> Unique(xs))
  {
    UniquePrefix(xs, ys);
  }
}
