/** The independent SQL journal of the same window, compared with the collector's ledger. */
module CloudWitness {
  import opened Options
  import opened Sums
  import opened CloudCost
  import opened CloudPlan
  import opened CloudLedger
  import opened CloudSequence

  datatype SqlRow = SqlRow(
    ordinal: int, phase: Phase, caseId: CaseId, role: Role, context: Context, inputSha: InputSha, created: int,
    outcome: Outcome,
    input: Option<int>, generated: Option<int>, total: Option<int>, outputSha: Option<OutputSha>,
    parent: Option<Context>)

  /** `current` says that the version text is the expected one and both hashes are well formed. */
  datatype Witness = Witness(
    current: bool, baseline: int, attempts: int, historySha: nat, policySha: nat, expires: int, rows: seq<SqlRow>)

  /** What the correlation reads of a collector report. */
  datatype Claim = Claim(
    total: int, newCalls: int, baseline: int, maximum: int, maximumNew: int, historySha: nat, policySha: nat,
    expires: int,
    ledger: seq<Row>)

  function SqlCall(r: SqlRow): Call { Call(r.phase, r.caseId, r.role) }

  ghost predicate HeaderOk(w: Witness) {
    && w.current && 280 <= w.baseline <= 283 && w.baseline <= w.attempts <= w.baseline + 252
    && w.expires != 0 && |w.rows| == w.attempts - w.baseline
  }

  predicate CountOk(n: Option<int>) { n.Some? ==> n.value >= 0 }

  predicate SqlOk(baseline: int, expires: int, i: nat, r: SqlRow) {
    && r.ordinal == baseline + 1 + i && Meaningful(SqlCall(r)) && r.caseId != OtherCase("")
    && r.context == Shadow(baseline, r.phase, r.caseId, r.role) && r.parent == ParentOf(baseline, r.caseId, r.role)
    && !r.inputSha.NotSha? && r.created != 0 && r.created < expires && r.outcome != OtherOutcome
    && CountOk(r.input) && CountOk(r.generated) && CountOk(r.total)
    && (r.outcome == Completed ==> r.outputSha.Some? && r.outputSha.value.Canonical?)
    && (r.outcome != Completed ==> r.outputSha.None?)
  }

  predicate DistinctCalls(rows: seq<SqlRow>) {
    forall i, j :: 0 <= i < j < |rows| ==> SqlCall(rows[i]) != SqlCall(rows[j])
  }

  predicate InOrder(rows: seq<SqlRow>) { forall i :: 0 < i < |rows| ==> rows[i - 1].created <= rows[i].created }

  predicate JournalOk(baseline: int, expires: int, rows: seq<SqlRow>) {
    DistinctCalls(rows) && InOrder(rows) && forall i :: 0 <= i < |rows| ==> SqlOk(baseline, expires, i, rows[i])
  }

  /** The comparison column by column. */
  predicate SameRow(l: Row, s: SqlRow) {
    && l.ordinal == s.ordinal && l.starts && l.phase == s.phase && l.caseId == s.caseId && l.role == s.role
    && l.context == s.context && l.parent == s.parent && l.inputSha == s.inputSha && l.created == s.created
    && l.outcome == s.outcome
    && l.input == s.input && l.generated == s.generated && l.total == s.total && l.outputSha == s.outputSha
  }

  // ----- the export of a ledger -----

  function Exported(r: Row): SqlRow {
    SqlRow(r.ordinal, r.phase, r.caseId, r.role, r.context, r.inputSha, r.created, r.outcome,
           r.input, r.generated, r.total, r.outputSha, r.parent)
  }

  function ExportedAll(rows: seq<Row>): (sql: seq<SqlRow>)
    ensures |sql| == |rows| && forall i :: 0 <= i < |rows| ==> sql[i] == Exported(rows[i])
  {
    seq(|rows|, i requires 0 <= i < |rows| => Exported(rows[i]))
  }

  /** The journal is the exact export of the claimed ledger, every row of which starts its run, and the
      claim's totals are the journal's. */
  ghost predicate Corresponds(c: Claim, w: Witness) {
    && c == Claim(w.attempts, w.attempts - w.baseline, w.baseline, w.baseline + 252, 252, w.historySha, w.policySha,
                  w.expires, c.ledger)
    && w.rows == ExportedAll(c.ledger) && forall r :: r in c.ledger ==> r.starts
  }

  lemma SameIsExport(l: Row, s: SqlRow)
    ensures SameRow(l, s) <==> l.starts && s == Exported(l)
  { }

  /** Agreeing in every column of every row is being the export. */
  lemma SameRowsAreExport(ledger: seq<Row>, rows: seq<SqlRow>)
    requires |ledger| == |rows|
    ensures (forall i :: 0 <= i < |rows| ==> SameRow(ledger[i], rows[i]))
            <==> rows == ExportedAll(ledger) && forall r :: r in ledger ==> r.starts
  {
    hide SameRow, Exported;
    forall i | 0 <= i < |rows| ensures SameRow(ledger[i], rows[i]) <==>
        ledger[i].starts && rows[i] == Exported(ledger[i]) {
      SameIsExport(ledger[i], rows[i]);
    }
    if forall i :: 0 <= i < |rows| ==> SameRow(ledger[i], rows[i]) {
      assert rows == ExportedAll(ledger);
    } else {
      var i :| 0 <= i < |rows| && !SameRow(ledger[i], rows[i]);
      assert ledger[i] in ledger && ExportedAll(ledger)[i] == Exported(ledger[i]);
    }
  }

  /** The two rows differ in a column, or the ledger row does not start its run. */
  predicate Differ(l: Row, s: SqlRow) {
    || !l.starts || l.ordinal != s.ordinal || l.phase != s.phase || l.caseId != s.caseId || l.role != s.role
    || l.context != s.context || l.parent != s.parent || l.inputSha != s.inputSha || l.created != s.created
    || l.outcome != s.outcome || l.input != s.input || l.generated != s.generated || l.total != s.total
    || l.outputSha != s.outputSha
  }

  /** No difference in any column of any row goes unnoticed, and nothing else is held against a journal
      whose totals are the claim's. */
  lemma AnyDifference(c: Claim, w: Witness)
    requires c == Claim(w.attempts, w.attempts - w.baseline, w.baseline, w.baseline + 252, 252, w.historySha,
                        w.policySha, w.expires, c.ledger)
    requires |c.ledger| == |w.rows|
    ensures Corresponds(c, w) <==> !exists i :: 0 <= i < |w.rows| && Differ(c.ledger[i], w.rows[i])
  {
    hide Differ, Exported;
    forall i | 0 <= i < |w.rows|
      ensures Differ(c.ledger[i], w.rows[i]) <==> !c.ledger[i].starts || w.rows[i] != Exported(c.ledger[i])
    {
      DifferFromExport(c.ledger[i], w.rows[i]);
    }
    if Corresponds(c, w) {
      forall i | 0 <= i < |w.rows| ensures !Differ(c.ledger[i], w.rows[i]) {
        assert c.ledger[i] in c.ledger && w.rows[i] == ExportedAll(c.ledger)[i];
      }
    } else if !exists i :: 0 <= i < |w.rows| && Differ(c.ledger[i], w.rows[i]) {
      assert w.rows == ExportedAll(c.ledger);
      assert forall r :: r in c.ledger ==> r.starts;
      assert false;
    }
  }

  lemma DifferFromExport(l: Row, s: SqlRow)
    ensures Differ(l, s) <==> !l.starts || s != Exported(l)
  { }

  /** The contexts and selections read so far. */
  ghost predicate Marks(baseline: int, rows: seq<SqlRow>, i: nat, contexts: set<Context>, selections: set<Call>)
    requires i <= |rows|
  {
    && (forall c :: c in selections <==> exists j :: 0 <= j < i && SqlCall(rows[j]) == c)
    && (forall c :: c in contexts ==> exists j :: 0 <= j < i && rows[j].context == c)
    && forall j :: 0 <= j < i ==> rows[j].context == Shadow(baseline, rows[j].phase, rows[j].caseId, rows[j].role)
  }

  lemma MarksNext(baseline: int, rows: seq<SqlRow>, i: nat, contexts: set<Context>, selections: set<Call>)
    requires i < |rows| && Marks(baseline, rows, i, contexts, selections)
    requires rows[i].context == Shadow(baseline, rows[i].phase, rows[i].caseId, rows[i].role)
    ensures Marks(baseline, rows, i + 1, contexts + {rows[i].context}, selections + {SqlCall(rows[i])})
  { }

  /** A context repeats exactly when the selection it is derived from does. */
  lemma MarksMean(baseline: int, rows: seq<SqlRow>, i: nat, contexts: set<Context>, selections: set<Call>)
    requires i < |rows| && Marks(baseline, rows, i, contexts, selections)
    requires rows[i].context == Shadow(baseline, rows[i].phase, rows[i].caseId, rows[i].role)
    ensures SqlCall(rows[i]) in selections <==> exists j :: 0 <= j < i && SqlCall(rows[j]) == SqlCall(rows[i])
    ensures rows[i].context in contexts ==> SqlCall(rows[i]) in selections
  { }

  /** The checks on one row alone. */
  method CheckRow(baseline: int, expires: int, i: nat, r: SqlRow) returns (ok: bool)
    ensures ok <==> SqlOk(baseline, expires, i, r)
  {
    if r.ordinal != baseline + 1 + i || r.role == OtherRole || r.phase == OtherPhase
      || (r.phase == Quality && r.role != Single)
      || r.caseId == OtherCase("") || r.context != Shadow(baseline, r.phase, r.caseId, r.role)
      || r.parent != ParentOf(baseline, r.caseId, r.role) || r.inputSha.NotSha? || r.created == 0
      || r.created >= expires {
      return false;
    }
    if r.outcome == OtherOutcome { return false; }
    if !CountOk(r.input) || !CountOk(r.generated) || !CountOk(r.total) { return false; }
    if r.outcome == Completed {
      if r.outputSha.None? || !r.outputSha.value.Canonical? { return false; }
    } else if r.outputSha.Some? {
      return false;
    }
    ok := true;
  }

  lemma SqlDerived(baseline: int, expires: int, i: nat, r: SqlRow)
    requires SqlOk(baseline, expires, i, r)
    ensures r.context == Shadow(baseline, r.phase, r.caseId, r.role)
  { }

  lemma JournalNext(baseline: int, expires: int, rows: seq<SqlRow>, i: nat)
    requires i < |rows| && JournalOk(baseline, expires, rows[..i])
    ensures JournalOk(baseline, expires, rows[..i + 1])
            <==> && SqlOk(baseline, expires, i, rows[i]) && (i > 0 ==> rows[i - 1].created <= rows[i].created)
                 && !exists j :: 0 <= j < i && SqlCall(rows[j]) == SqlCall(rows[i])
    ensures JournalOk(baseline, expires, rows) ==> JournalOk(baseline, expires, rows[..i + 1])
  {
    hide SqlOk, SqlCall;
    var next := rows[..i + 1];
    assert forall j :: 0 <= j < i ==> rows[..i][j] == rows[j];
    assert forall j :: 0 <= j < i + 1 ==> next[j] == rows[j];
  }

  method CheckJournal(baseline: int, expires: int, rows: seq<SqlRow>) returns (ok: bool)
    ensures ok <==> JournalOk(baseline, expires, rows)
  {
    var contexts, selections := {}, {};
    for i := 0 to |rows|
      invariant Marks(baseline, rows, i, contexts, selections) && JournalOk(baseline, expires, rows[..i])
    {
      hide Marks, SqlCall, SqlOk, JournalOk;
      var r := rows[i];
      JournalNext(baseline, expires, rows, i);
      var sound := CheckRow(baseline, expires, i, r);
      if !sound { return false; }
      SqlDerived(baseline, expires, i, r);
      MarksMean(baseline, rows, i, contexts, selections);
      if r.context in contexts || SqlCall(r) in selections { return false; }
      MarksNext(baseline, rows, i, contexts, selections);
      contexts, selections := contexts + {r.context}, selections + {SqlCall(r)};
      if i > 0 && r.created < rows[i - 1].created { return false; }
    }
    assert rows[..|rows|] == rows;
    ok := true;
  }

  /** Nothing when the journal itself is malformed, otherwise whether it is the export of the claimed ledger. */
  method Correlate(c: Claim, w: Witness) returns (r: Option<bool>)
    ensures r.Some? <==> HeaderOk(w) && JournalOk(w.baseline, w.expires, w.rows)
    ensures r.Some? ==> (r.value <==> Corresponds(c, w))
  {
    hide JournalOk, SameRow, Exported;
    if !w.current || w.baseline < 280 || w.baseline > 283 || w.attempts < w.baseline || w.attempts > w.baseline + 252
      || w.expires == 0 || |w.rows| != w.attempts - w.baseline {
      return None;
    }
    var ok := CheckJournal(w.baseline, w.expires, w.rows);
    if !ok { return None; }
    if c.total != w.attempts || c.newCalls != w.attempts - w.baseline || c.baseline != w.baseline
      || c.maximum != w.baseline + 252 || c.maximumNew != 252 || c.historySha != w.historySha
      || c.policySha != w.policySha || c.expires != w.expires || |c.ledger| != |w.rows| {
      return Some(false);
    }
    SameRowsAreExport(c.ledger, w.rows);
    for i := 0 to |w.rows|
      invariant forall j :: 0 <= j < i ==> SameRow(c.ledger[j], w.rows[j])
    {
      if !SameRow(c.ledger[i], w.rows[i]) { return Some(false); }
    }
    r := Some(true);
  }

  // ----- the folded cost is the journal's -----

  function SqlInput(r: SqlRow): int { Known(r.input) }
  function SqlGenerated(r: SqlRow): int { Known(r.generated) }
  function SqlTotal(r: SqlRow): int { Known(r.total) }
  function SqlUnknownInput(r: SqlRow): int { Missing(r.input) }
  function SqlUnknownGenerated(r: SqlRow): int { Missing(r.generated) }
  function SqlUnknownTotal(r: SqlRow): int { Missing(r.total) }

  ghost predicate JournalCost(t: Tally, rows: seq<SqlRow>) {
    && t.attempts == |rows| && t.input == Sum(rows, SqlInput) && t.generated == Sum(rows, SqlGenerated)
    && t.total == Sum(rows, SqlTotal)
    && t.unknownInput == Sum(rows, SqlUnknownInput) && t.unknownGenerated == Sum(rows, SqlUnknownGenerated)
    && t.unknownTotal == Sum(rows, SqlUnknownTotal)
  }

  /** A matching journal has the tokens of the ledger, so of the attempts. */
  lemma CostIsJournals(c: Claim, w: Witness, t: Tally)
    requires Corresponds(c, w) && LedgerCost(t, c.ledger)
    ensures JournalCost(t, w.rows)
  {
    SumPointwise(c.ledger, w.rows, RowInput, SqlInput);
    SumPointwise(c.ledger, w.rows, RowGenerated, SqlGenerated);
    SumPointwise(c.ledger, w.rows, RowTotal, SqlTotal);
    SumPointwise(c.ledger, w.rows, RowUnknownInput, SqlUnknownInput);
    SumPointwise(c.ledger, w.rows, RowUnknownGenerated, SqlUnknownGenerated);
    SumPointwise(c.ledger, w.rows, RowUnknownTotal, SqlUnknownTotal);
  }

  // ----- an honest journal is never refused -----

  lemma ExportedRow(w: Window, spent: set<Context>, plan: seq<Call>, rows: seq<Row>, a: Attempt, phase: Phase, i: nat)
    requires i < |rows| <= |plan| && Follows(w, spent, plan, rows, i) && Meaningful(plan[i]) && w.start > 0
    requires Matches(w, rows[i], phase, a) && Valid(a)
    ensures SqlOk(w.baseline, w.expires, i, Exported(rows[i])) && rows[i].starts
  { }

  /** The exact export of a ledger that follows the plan and matches its attempts is a well-formed, matching journal. */
  lemma ExportMatches(w: Window, spent: set<Context>, plan: seq<Call>, rows: seq<Row>, comparison: seq<Attempt>,
                      xs: seq<Attempt>)
    requires |rows| <= |plan| && PlanOk(plan) && LedgerOk(w, spent, plan, rows) && w.start > 0
    requires AttemptsOk(w, rows, comparison, xs) && |xs| == |rows| && forall a :: a in xs ==> Valid(a)
    ensures JournalOk(w.baseline, w.expires, ExportedAll(rows))
    ensures forall r :: r in rows ==> r.starts
  {
    hide Follows, Matches, Meaningful, Valid, SqlOk;
    var ys := Bijection(w, rows, comparison, xs);
    forall i | 0 <= i < |rows|
      ensures SqlOk(w.baseline, w.expires, i, Exported(rows[i])) && rows[i].starts
    {
      assert plan[i] in plan && ys[i] in xs;
      ExportedRow(w, spent, plan, rows, ys[i], PhaseOf(comparison, ys[i].id), i);
    }
    forall i | 0 <= i < |rows| ensures SqlCall(ExportedAll(rows)[i]) == plan[i] {
      FollowsMeans(w, spent, plan, rows, i);
    }
    RowsInOrder(w, spent, plan, rows);
  }
}
