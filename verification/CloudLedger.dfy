/** The charged ledger against the plan, and the recorded attempts against the ledger. */
module CloudLedger {
  import opened Options
  import opened Sorting
  import opened CloudCost
  import opened CloudPlan

  datatype Window = Window(baseline: int, start: int, end: int, expires: int)

  /** The digest of a canonical form, or a text that is no digest. */
  datatype OutputSha = Canonical(form: Json) | NotDigest(text: string)

  /** One charged call of the ledger. */
  datatype Row = Row(
    ordinal: int, context: Context, starts: bool, inputSha: InputSha, created: int, phase: Phase, caseId: CaseId,
    role: Role,
    outcome: Outcome, input: Option<int>, generated: Option<int>, total: Option<int>, outputSha: Option<OutputSha>,
    parent: Option<Context>)

  function ParentOf(baseline: int, caseId: CaseId, role: Role): Option<Context> {
    if role == ChildA || role == ChildB then Some(Shadow(baseline, Comparison, caseId, Synthesis)) else None
  }

  function CallOf(r: Row): Call { Call(r.phase, r.caseId, r.role) }

  // ----- the ledger follows the plan -----

  /** Row `i` was charged inside the window under its own ordinal and derived context. */
  predicate Charged(w: Window, spent: set<Context>, i: nat, r: Row) {
    && r.ordinal == w.baseline + 1 + i && r.context == Shadow(w.baseline, r.phase, r.caseId, r.role)
    && r.context !in spent
    && r.parent == ParentOf(w.baseline, r.caseId, r.role) && !r.inputSha.NotSha? && r.starts
    && w.start <= r.created <= w.end && r.created < w.expires
  }

  predicate Follows(w: Window, spent: set<Context>, plan: seq<Call>, rows: seq<Row>, i: nat)
    requires i < |rows| <= |plan|
  {
    Charged(w, spent, i, rows[i]) && CallOf(rows[i]) == plan[i] && (i > 0 ==> rows[i - 1].created <= rows[i].created)
  }

  predicate LedgerOk(w: Window, spent: set<Context>, plan: seq<Call>, rows: seq<Row>)
    requires |rows| <= |plan|
  {
    forall i :: 0 <= i < |rows| ==> Follows(w, spent, plan, rows, i)
  }

  /** Every planned call names a phase and a role, and an original is only asked once by a single agent. */
  predicate Meaningful(c: Call) {
    (c.phase == Quality && c.role == Single) || (c.phase == Comparison && c.role != OtherRole)
  }

  predicate PlanOk(plan: seq<Call>) {
    NoDuplicates(plan) && forall c :: c in plan ==> Meaningful(c)
  }

  lemma PlanIsOk(corpus: Corpus)
    requires ValidCorpus(corpus)
    ensures PlanOk(Plan(corpus)) && |Plan(corpus)| == 252
  {
    PlanIsFixed(corpus);
    PlannedMeaningful(Eligible(corpus.cases), corpus.comparison);
  }

  lemma PlannedMeaningful(eligible: seq<CaseId>, comparison: seq<string>)
    ensures forall c :: c in Planned(eligible, comparison) ==> Meaningful(c)
  {
    var plan := Planned(eligible, comparison);
    forall i | 0 <= i < |plan| ensures Meaningful(plan[i]) { }
  }

  /** The ledger as a table by attempt identifier. */
  ghost predicate Tabled(table: map<AttemptId, Row>, baseline: int, rows: seq<Row>) {
    && (forall n :: baseline < n <= baseline + |rows| ==> Native(n) in table)
    && forall id :: id in table ==>
        id.Native? && baseline < id.ordinal <= baseline + |rows| && table[id] == rows[id.ordinal - baseline - 1]
  }

  /** What the three `already seen` tables hold after `i` rows. */
  ghost predicate Marked(baseline: int, rows: seq<Row>, i: nat, ordinals: set<int>, contexts: set<Context>,
                         selections: set<Call>)
    requires i <= |rows|
  {
    && (forall n :: n in ordinals <==> baseline < n <= baseline + i)
    && (forall c :: c in contexts ==> exists j :: 0 <= j < i && rows[j].context == c)
    && (forall c :: c in selections ==> exists j :: 0 <= j < i && CallOf(rows[j]) == c)
  }

  /** A row that continues the plan repeats no ordinal, context or selection. */
  lemma NeverMarked(w: Window, spent: set<Context>, plan: seq<Call>, rows: seq<Row>, i: nat,
                    ordinals: set<int>, contexts: set<Context>, selections: set<Call>)
    requires i < |rows| <= |plan| && PlanOk(plan)
    requires forall j :: 0 <= j <= i ==> Follows(w, spent, plan, rows, j)
    requires Marked(w.baseline, rows, i, ordinals, contexts, selections)
    ensures rows[i].ordinal !in ordinals && rows[i].context !in contexts && CallOf(rows[i]) !in selections
    ensures rows[i].phase != OtherPhase && (rows[i].phase == Quality ==> rows[i].role == Single)
  {
    assert Follows(w, spent, plan, rows, i);
    assert plan[i] in plan;
    forall j | 0 <= j < i ensures CallOf(rows[j]) != CallOf(rows[i]) && rows[j].context != rows[i].context {
      assert Follows(w, spent, plan, rows, j);
    }
  }

  lemma MarkNext(w: Window, rows: seq<Row>, i: nat, ordinals: set<int>, contexts: set<Context>, selections: set<Call>)
    requires i < |rows| && Marked(w.baseline, rows, i, ordinals, contexts, selections)
             && rows[i].ordinal == w.baseline + 1 + i
    ensures Marked(w.baseline, rows, i + 1, ordinals + {rows[i].ordinal}, contexts + {rows[i].context},
                   selections + {CallOf(rows[i])})
  { }

  lemma TableNext(table: map<AttemptId, Row>, baseline: int, rows: seq<Row>, i: nat)
    requires i < |rows| && Tabled(table, baseline, rows[..i])
    ensures Tabled(table[Native(baseline + 1 + i) := rows[i]], baseline, rows[..i + 1])
  { }

  /** Reads the ledger in order. None of the `already seen` checks can fire on a ledger that
      follows the plan, so acceptance is exactly that it does. */
  method CheckLedger(w: Window, total: int, spent: set<Context>, plan: seq<Call>, rows: seq<Row>)
    returns (ok: bool, table: map<AttemptId, Row>)
    requires |rows| <= |plan| && PlanOk(plan) && total == w.baseline + |rows|
    ensures ok <==> LedgerOk(w, spent, plan, rows)
    ensures ok ==> Tabled(table, w.baseline, rows)
  {
    table := map[];
    var ordinals, contexts, selections := {}, {}, {};
    for i := 0 to |rows|
      invariant forall j :: 0 <= j < i ==> Follows(w, spent, plan, rows, j)
      invariant Tabled(table, w.baseline, rows[..i]) && Marked(w.baseline, rows, i, ordinals, contexts, selections)
    {
      hide Tabled, Marked, PlanOk, Follows;
      var r := rows[i];
      if Follows(w, spent, plan, rows, i) { NeverMarked(w, spent, plan, rows, i, ordinals, contexts, selections); }
      FollowsMeans(w, spent, plan, rows, i);
      if r.ordinal != w.baseline + 1 + i || r.ordinal > total || r.ordinal in ordinals || r.context in contexts
        || r.context in spent
        || CallOf(r) in selections || r.context != Shadow(w.baseline, r.phase, r.caseId, r.role)
        || r.parent != ParentOf(w.baseline, r.caseId, r.role) || r.inputSha.NotSha? || !r.starts
        || r.phase == OtherPhase
        || (r.phase == Quality && r.role != Single) || r.created < w.start || r.created > w.end
        || r.created >= w.expires {
        return false, table;
      }
      if i > 0 && r.created < rows[i - 1].created { return false, table; }
      var want := plan[r.ordinal - w.baseline - 1];
      if r.phase != want.phase || r.caseId != want.caseId || r.role != want.role { return false, table; }
      MarkNext(w, rows, i, ordinals, contexts, selections);
      TableNext(table, w.baseline, rows, i);
      ordinals, contexts, selections := ordinals + {r.ordinal}, contexts + {r.context}, selections + {CallOf(r)};
      table := table[Native(r.ordinal) := r];
    }
    assert rows[..|rows|] == rows;
    for n := w.baseline + 1 to total + 1 {
      if n !in ordinals { return false, table; }
    }
    ok := true;
  }

  lemma FollowsMeans(w: Window, spent: set<Context>, plan: seq<Call>, rows: seq<Row>, i: nat)
    requires i < |rows| <= |plan|
    ensures Follows(w, spent, plan, rows, i)
            <==> && Charged(w, spent, i, rows[i]) && CallOf(rows[i]) == plan[i]
                 && (i > 0 ==> rows[i - 1].created <= rows[i].created)
  { }

  // ----- the attempts match the ledger -----

  function IdsOf(xs: seq<Attempt>): set<AttemptId> { set a | a in xs :: a.id }

  /** An attempt recorded in both parts of the report counts as a comparison. */
  function PhaseOf(comparison: seq<Attempt>, id: AttemptId): Phase
  {
    if id in IdsOf(comparison) then Comparison else Quality
  }

  function OutputDigest(o: Output): Option<OutputSha> {
    if o.bytes == 0 || o.bytes > VISIBLE_BYTES || o.canonical.None? then None else Some(Canonical(o.canonical.value))
  }

  /** The attempt is the one its ledger row charged. */
  predicate Matches(w: Window, r: Row, phase: Phase, a: Attempt) {
    && a.role != OtherRole && r.phase == phase && r.context == a.context && r.inputSha == a.inputSha
    && r.caseId == a.caseId
    && r.role == a.role && r.parent == a.parent && r.outcome == a.outcome
    && r.input == a.input && r.generated == a.generated && r.total == a.total
    && w.start <= a.start && a.end <= w.end && a.start <= r.created <= a.end
    && (a.outcome == Completed ==> OutputDigest(a.output).Some? && r.outputSha == OutputDigest(a.output))
    && (a.outcome != Completed ==> r.outputSha.None?)
    && (a.version.Some? ==> !a.version.value.Malformed?)
  }

  predicate Recorded(w: Window, rows: seq<Row>, comparison: seq<Attempt>, a: Attempt) {
    && a.id.Native? && 0 <= a.id.ordinal - w.baseline - 1 < |rows|
    && Matches(w, rows[a.id.ordinal - w.baseline - 1], PhaseOf(comparison, a.id), a)
  }

  predicate DistinctIds(xs: seq<Attempt>) { forall i, j :: 0 <= i < j < |xs| ==> xs[i].id != xs[j].id }

  predicate AttemptsOk(w: Window, rows: seq<Row>, comparison: seq<Attempt>, xs: seq<Attempt>) {
    DistinctIds(xs) && forall a :: a in xs ==> Recorded(w, rows, comparison, a)
  }

  /** The content-free projection of an attempt and its ledger row. */
  datatype Safe = Safe(
    ordinal: int, context: Context, inputSha: InputSha, role: Role, charged: int, start: int, end: int, ms: int,
    outcome: Outcome,
    version: Option<Version>, input: Option<int>, generated: Option<int>, total: Option<int>, rss: Option<int>,
    phase: Phase, parent: Option<Context>)

  /** What the projection tells: when and how it was charged from the row, everything else from the attempt. */
  predicate Summarizes(s: Safe, r: Row, a: Attempt) {
    && s.ordinal == r.ordinal && s.charged == r.created && s.phase == r.phase && s.parent == r.parent
    && s.context == a.context && s.inputSha == a.inputSha && s.role == a.role && s.start == a.start && s.end == a.end
    && s.ms == a.ms && s.outcome == a.outcome && s.version == a.version && s.input == a.input
    && s.generated == a.generated && s.total == a.total && s.rss == a.rss
  }

  function SafeOf(r: Row, a: Attempt): (s: Safe)
    ensures Summarizes(s, r, a)
  {
    Safe(r.ordinal, a.context, a.inputSha, a.role, r.created, a.start, a.end, a.ms, a.outcome, a.version,
         a.input, a.generated, a.total, a.rss, r.phase, r.parent)
  }

  predicate Projects(baseline: int, rows: seq<Row>, xs: seq<Attempt>, safe: seq<Safe>) {
    && |safe| == |xs|
    && forall i :: 0 <= i < |xs| ==> xs[i].id.Native? && 0 <= xs[i].id.ordinal - baseline - 1 < |rows|
                                     && safe[i] == SafeOf(rows[xs[i].id.ordinal - baseline - 1], xs[i])
  }

  /** The phase table the collector's two lists fill. */
  method Phases(quality: seq<Attempt>, comparison: seq<Attempt>) returns (phases: map<AttemptId, Phase>)
    ensures phases.Keys == IdsOf(quality + comparison)
    ensures forall id :: id in phases ==> phases[id] == PhaseOf(comparison, id)
  {
    phases := map[];
    for i := 0 to |quality|
      invariant phases.Keys == IdsOf(quality[..i]) && forall id :: id in phases ==> phases[id] == Quality
    {
      assert quality[..i + 1] == quality[..i] + [quality[i]];
      phases := phases[quality[i].id := Quality];
    }
    assert quality[..|quality|] == quality;
    for i := 0 to |comparison|
      invariant phases.Keys == IdsOf(quality + comparison[..i])
      invariant forall id :: id in phases ==> phases[id] == PhaseOf(comparison[..i], id)
    {
      assert comparison[..i + 1] == comparison[..i] + [comparison[i]];
      assert quality + comparison[..i + 1] == quality + comparison[..i] + [comparison[i]];
      phases := phases[comparison[i].id := Comparison];
    }
    assert comparison[..|comparison|] == comparison;
  }

  lemma RecordedNext(w: Window, rows: seq<Row>, comparison: seq<Attempt>, xs: seq<Attempt>, i: nat)
    requires i < |xs| && AttemptsOk(w, rows, comparison, xs[..i])
    ensures AttemptsOk(w, rows, comparison, xs[..i + 1])
            <==> Recorded(w, rows, comparison, xs[i]) && xs[i].id !in IdsOf(xs[..i])
  {
    hide Recorded;
    assert xs[..i + 1] == xs[..i] + [xs[i]];
    assert xs[i] in xs[..i + 1];
    if xs[i].id in IdsOf(xs[..i]) {
      var b :| b in xs[..i] && b.id == xs[i].id;
      var j :| 0 <= j < i && xs[j] == b;
      assert xs[..i + 1][j].id == xs[..i + 1][i].id;
    }
  }

  lemma RecordedPrefix(w: Window, rows: seq<Row>, comparison: seq<Attempt>, xs: seq<Attempt>, i: nat)
    requires i <= |xs|
    ensures AttemptsOk(w, rows, comparison, xs) ==> AttemptsOk(w, rows, comparison, xs[..i])
  {
    hide Recorded;
    assert forall a :: a in xs[..i] ==> a in xs;
  }

  method MatchAttempt(w: Window, table: map<AttemptId, Row>, phases: map<AttemptId, Phase>, a: Attempt)
    returns (ok: bool)
    requires a.id in phases
    ensures ok <==> a.id in table && Matches(w, table[a.id], phases[a.id], a)
  {
    if a.id !in table { return false; }
    var r := table[a.id];
    if a.role == OtherRole || r.phase != phases[a.id] || r.context != a.context || r.inputSha != a.inputSha
      || r.caseId != a.caseId
      || r.role != a.role || r.parent != a.parent || r.outcome != a.outcome || r.input != a.input
      || r.generated != a.generated
      || r.total != a.total || a.start < w.start || a.end > w.end || r.created < a.start || r.created > a.end {
      return false;
    }
    if a.outcome == Completed {
      var hash := OutputDigest(a.output);
      if hash.None? || r.outputSha != hash { return false; }
    } else if r.outputSha.Some? {
      return false;
    }
    ok := a.version.None? || !a.version.value.Malformed?;
  }

  method CheckAttempts(w: Window, ghost rows: seq<Row>, table: map<AttemptId, Row>, quality: seq<Attempt>,
                       comparison: seq<Attempt>)
    returns (ok: bool, safe: seq<Safe>)
    requires Tabled(table, w.baseline, rows)
    ensures ok <==> AttemptsOk(w, rows, comparison, quality + comparison)
    ensures ok ==> Projects(w.baseline, rows, quality + comparison, safe)
  {
    hide Tabled, AttemptsOk, Matches, Recorded, Projects, IdsOf, PhaseOf;
    var phases := Phases(quality, comparison);
    var xs := quality + comparison;
    var seen: set<AttemptId> := {};
    safe := [];
    NothingRecorded(w, rows, comparison, xs);
    for i := 0 to |xs|
      invariant AttemptsOk(w, rows, comparison, xs[..i]) && seen == IdsOf(xs[..i])
      invariant Projects(w.baseline, rows, xs[..i], safe)
    {
      var a := xs[i];
      IdsNext(xs, i);
      RecordedNext(w, rows, comparison, xs, i);
      RecordedMeans(w, rows, comparison, table, a);
      var matched := MatchAttempt(w, table, phases, a);
      RecordedPrefix(w, rows, comparison, xs, i + 1);
      if !matched || a.id in seen { return false, safe; }
      ProjectNext(w.baseline, rows, xs, safe, i);
      seen := seen + {a.id};
      safe := safe + [SafeOf(table[a.id], a)];
    }
    assert xs[..|xs|] == xs;
    ok := true;
  }

  lemma NothingRecorded(w: Window, rows: seq<Row>, comparison: seq<Attempt>, xs: seq<Attempt>)
    ensures AttemptsOk(w, rows, comparison, xs[..0]) && IdsOf(xs[..0]) == {} && Projects(w.baseline, rows, xs[..0], [])
  { }

  lemma IdsNext(xs: seq<Attempt>, i: nat)
    requires i < |xs|
    ensures IdsOf(xs[..i + 1]) == IdsOf(xs[..i]) + {xs[i].id} && xs[i].id in IdsOf(xs)
  {
    assert xs[..i + 1] == xs[..i] + [xs[i]];
    assert xs[i] in xs;
  }

  lemma RecordedMeans(w: Window, rows: seq<Row>, comparison: seq<Attempt>, table: map<AttemptId, Row>, a: Attempt)
    requires Tabled(table, w.baseline, rows)
    ensures Recorded(w, rows, comparison, a) <==> a.id in table && Matches(w, table[a.id], PhaseOf(comparison, a.id), a)
    ensures a.id in table ==>
            a.id.Native? && 0 <= a.id.ordinal - w.baseline - 1 < |rows|
                && table[a.id] == rows[a.id.ordinal - w.baseline - 1]
  {
    hide Matches;
    assert a.id.Native? ==> a.id == Native(a.id.ordinal);
  }

  lemma ProjectNext(baseline: int, rows: seq<Row>, xs: seq<Attempt>, safe: seq<Safe>, i: nat)
    requires i < |xs| && Projects(baseline, rows, xs[..i], safe)
    requires xs[i].id.Native? && 0 <= xs[i].id.ordinal - baseline - 1 < |rows|
    ensures Projects(baseline, rows, xs[..i + 1], safe + [SafeOf(rows[xs[i].id.ordinal - baseline - 1], xs[i])])
  {
    assert xs[..i + 1][..i] == xs[..i];
  }
}
