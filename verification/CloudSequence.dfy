/** What matching attempts and ledger rows one by one amounts to: a bijection, equal sums, and one call at a time. */
module CloudSequence {
  import opened Sums
  import opened Sorting
  import opened Sets
  import opened CloudCost
  import opened CloudPlan
  import opened CloudLedger

  // ----- attempts and rows are in bijection -----

  function NativeIds(baseline: int, n: nat): set<AttemptId> { set k | baseline < k <= baseline + n :: Native(k) }

  lemma {:induction false} NativeIdsCard(baseline: int, n: nat)
    ensures |NativeIds(baseline, n)| == n
  {
    if n > 0 {
      NativeIdsCard(baseline, n - 1);
      assert NativeIds(baseline, n) == NativeIds(baseline, n - 1) + {Native(baseline + n)};
    }
  }

  lemma {:induction false} IdsCard(xs: seq<Attempt>)
    requires DistinctIds(xs)
    ensures |IdsOf(xs)| == |xs|
  {
    if xs != [] {
      var front, last := xs[..|xs| - 1], xs[|xs| - 1];
      IdsCard(front);
      assert xs == front + [last];
      assert IdsOf(xs) == IdsOf(front) + {last.id};
      assert forall a :: a in front ==> exists i :: 0 <= i < |front| && front[i] == a;
    }
  }

  lemma SameIdSame(xs: seq<Attempt>, a: Attempt, b: Attempt)
    requires DistinctIds(xs) && a in xs && b in xs && a.id == b.id
    ensures a == b
  { }

  /** Every charged ordinal has an attempt. */
  lemma EveryOrdinal(w: Window, rows: seq<Row>, comparison: seq<Attempt>, xs: seq<Attempt>)
    requires AttemptsOk(w, rows, comparison, xs) && |xs| == |rows|
    ensures IdsOf(xs) == NativeIds(w.baseline, |rows|)
  {
    hide Matches;
    IdsCard(xs);
    NativeIdsCard(w.baseline, |rows|);
    assert IdsOf(xs) <= NativeIds(w.baseline, |rows|);
    SubsetEqual(IdsOf(xs), NativeIds(w.baseline, |rows|));
  }

  lemma {:induction false} Collect(xs: seq<Attempt>, baseline: int, n: nat) returns (ys: seq<Attempt>)
    requires NativeIds(baseline, n) <= IdsOf(xs)
    ensures |ys| == n && forall i :: 0 <= i < n ==> ys[i] in xs && ys[i].id == Native(baseline + 1 + i)
  {
    if n == 0 { return []; }
    ys := Collect(xs, baseline, n - 1);
    assert Native(baseline + n) in NativeIds(baseline, n);
    var a :| a in xs && a.id == Native(baseline + n);
    ys := ys + [a];
  }

  /** The attempts in ledger order: a rearrangement whose i-th member is the one row i charged. */
  ghost predicate Arranged(w: Window, rows: seq<Row>, comparison: seq<Attempt>, xs: seq<Attempt>, ys: seq<Attempt>) {
    && |ys| == |rows| && multiset(ys) == multiset(xs)
    && forall i :: 0 <= i < |rows| ==>
                     ys[i].id == Native(w.baseline + 1 + i) && Matches(w, rows[i], PhaseOf(comparison, ys[i].id), ys[i])
  }

  lemma Bijection(w: Window, rows: seq<Row>, comparison: seq<Attempt>, xs: seq<Attempt>) returns (ys: seq<Attempt>)
    requires AttemptsOk(w, rows, comparison, xs) && |xs| == |rows|
    ensures Arranged(w, rows, comparison, xs, ys) && forall a :: a in ys <==> a in xs
  {
    hide Matches;
    EveryOrdinal(w, rows, comparison, xs);
    ys := Collect(xs, w.baseline, |rows|);
    forall i | 0 <= i < |rows| ensures Matches(w, rows[i], PhaseOf(comparison, ys[i].id), ys[i]) {
      assert Recorded(w, rows, comparison, ys[i]);
    }
    forall a | a in xs ensures a in ys {
      assert Recorded(w, rows, comparison, a);
      var i := a.id.ordinal - w.baseline - 1;
      SameIdSame(xs, a, ys[i]);
    }
    assert NoDuplicates(xs) by { assert DistinctIds(xs); }
    SameMultiset(xs, ys);
  }

  // ----- the folded cost is the ledger's -----

  function RowInput(r: Row): int { Known(r.input) }
  function RowGenerated(r: Row): int { Known(r.generated) }
  function RowTotal(r: Row): int { Known(r.total) }
  function RowUnknownInput(r: Row): int { Missing(r.input) }
  function RowUnknownGenerated(r: Row): int { Missing(r.generated) }
  function RowUnknownTotal(r: Row): int { Missing(r.total) }

  /** Known tokens and unknown counts agree with the ledger. */
  ghost predicate LedgerCost(t: Tally, rows: seq<Row>) {
    && t.attempts == |rows| && t.input == Sum(rows, RowInput) && t.generated == Sum(rows, RowGenerated)
    && t.total == Sum(rows, RowTotal)
    && t.unknownInput == Sum(rows, RowUnknownInput) && t.unknownGenerated == Sum(rows, RowUnknownGenerated)
    && t.unknownTotal == Sum(rows, RowUnknownTotal)
  }

  lemma SameTokens(w: Window, rows: seq<Row>, comparison: seq<Attempt>, xs: seq<Attempt>, ys: seq<Attempt>)
    requires Arranged(w, rows, comparison, xs, ys)
    ensures forall i :: 0 <= i < |rows| ==>
            ys[i].input == rows[i].input && ys[i].generated == rows[i].generated && ys[i].total == rows[i].total
  { }

  lemma CostIsLedgers(w: Window, rows: seq<Row>, comparison: seq<Attempt>, xs: seq<Attempt>, t: Tally)
    requires AttemptsOk(w, rows, comparison, xs) && |xs| == |rows| && ExactSum(t, xs)
    ensures LedgerCost(t, rows)
  {
    hide AttemptsOk, Arranged;
    var ys := Bijection(w, rows, comparison, xs);
    assert |ys| == |rows| && multiset(ys) == multiset(xs) by { ArrangedShape(w, rows, comparison, xs, ys); }
    SameTokens(w, rows, comparison, xs, ys);
    CostPermutes(xs, ys, t);
    SumPointwise(ys, rows, InputOf, RowInput);
    SumPointwise(ys, rows, GeneratedOf, RowGenerated);
    SumPointwise(ys, rows, TotalOf, RowTotal);
    SumPointwise(ys, rows, UnknownInputOf, RowUnknownInput);
    SumPointwise(ys, rows, UnknownGeneratedOf, RowUnknownGenerated);
    SumPointwise(ys, rows, UnknownTotalOf, RowUnknownTotal);
  }

  lemma ArrangedShape(w: Window, rows: seq<Row>, comparison: seq<Attempt>, xs: seq<Attempt>, ys: seq<Attempt>)
    requires Arranged(w, rows, comparison, xs, ys)
    ensures |ys| == |rows| && multiset(ys) == multiset(xs)
  { }

  // ----- one call at a time -----

  /** The next ordinal never starts before the previous one ended. */
  predicate Sequential(xs: seq<Attempt>) {
    forall a, b :: a in xs && b in xs && a.id.Native? && b.id.Native? && a.id.ordinal + 1 == b.id.ordinal ==>
        a.end <= b.start
  }

  lemma ArrangedSequential(w: Window, rows: seq<Row>, comparison: seq<Attempt>, xs: seq<Attempt>, ys: seq<Attempt>)
    requires Arranged(w, rows, comparison, xs, ys) && forall a :: a in ys <==> a in xs
    ensures Sequential(xs) <==> forall i :: 0 < i < |ys| ==> ys[i - 1].end <= ys[i].start
  {
    hide Matches;
    if Sequential(xs) {
      forall i | 0 < i < |ys| ensures ys[i - 1].end <= ys[i].start { assert ys[i - 1] in xs && ys[i] in xs; }
    }
    if forall i :: 0 < i < |ys| ==> ys[i - 1].end <= ys[i].start {
      forall a, b | a in xs && b in xs && a.id.Native? && b.id.Native? && a.id.ordinal + 1 == b.id.ordinal
          ensures a.end <= b.start {
        assert a in ys && b in ys;
        var i :| 0 <= i < |ys| && ys[i] == a;
        var j :| 0 <= j < |ys| && ys[j] == b;
        assert j == i + 1;
        assert ys[j - 1].end <= ys[j].start;
      }
    }
  }

  function OrdinalOf(s: Safe): int { s.ordinal }

  lemma SafeOrdinals(w: Window, spent: set<Context>, plan: seq<Call>, rows: seq<Row>, comparison: seq<Attempt>,
                     xs: seq<Attempt>, safe: seq<Safe>)
    requires |rows| <= |plan| && LedgerOk(w, spent, plan, rows) && DistinctIds(xs)
             && Projects(w.baseline, rows, xs, safe)
    ensures forall i :: 0 <= i < |xs| ==>
            xs[i].id == Native(safe[i].ordinal) && w.baseline < safe[i].ordinal <= w.baseline + |rows|
    ensures DistinctBy(safe, OrdinalOf)
  {
    forall i | 0 <= i < |xs| ensures xs[i].id == Native(safe[i].ordinal)
        && w.baseline < safe[i].ordinal <= w.baseline + |rows| {
      assert Follows(w, spent, plan, rows, xs[i].id.ordinal - w.baseline - 1);
    }
  }

  /** Sorted by ordinal, the projections are those of the rearranged attempts. */
  lemma SortedProjects(w: Window, spent: set<Context>, plan: seq<Call>, rows: seq<Row>, comparison: seq<Attempt>,
                       xs: seq<Attempt>,
                       safe: seq<Safe>, sorted: seq<Safe>, ys: seq<Attempt>)
    requires |rows| <= |plan| && LedgerOk(w, spent, plan, rows) && DistinctIds(xs)
             && Projects(w.baseline, rows, xs, safe)
    requires Arranged(w, rows, comparison, xs, ys) && (forall a :: a in ys <==> a in xs) && |xs| == |rows|
    requires Ascending(sorted, OrdinalOf) && multiset(sorted) == multiset(safe) && |sorted| == |safe|
    ensures forall i :: 0 <= i < |rows| ==> sorted[i] == SafeOf(rows[i], ys[i])
  {
    hide Matches, Follows, LedgerOk;
    SafeOrdinals(w, spent, plan, rows, comparison, xs, safe);
    DistinctPermutes(safe, sorted, OrdinalOf);
    SameElements(safe, sorted);
    Consecutive(sorted, OrdinalOf, w.baseline + 1);
    forall i | 0 <= i < |rows| ensures sorted[i] == SafeOf(rows[i], ys[i]) {
      assert OrdinalOf(sorted[i]) == w.baseline + 1 + i;
      assert sorted[i] in safe;
      var p :| 0 <= p < |safe| && safe[p] == sorted[i];
      assert ys[i] in xs;
      SameIdSame(xs, xs[p], ys[i]);
    }
  }

  /** One projection for each charged row, in order, of the attempt that row charged. */
  ghost predicate Listed(baseline: int, rows: seq<Row>, xs: seq<Attempt>, safe: seq<Safe>) {
    && |safe| == |rows|
    && forall i :: 0 <= i < |safe| ==> ListedAs(baseline + 1 + i, rows[i], xs, safe[i])
  }

  ghost predicate ListedAs(ordinal: int, r: Row, xs: seq<Attempt>, s: Safe) {
    exists a :: a in xs && a.id == Native(ordinal) && Summarizes(s, r, a)
  }

  lemma SortedListed(w: Window, rows: seq<Row>, comparison: seq<Attempt>, xs: seq<Attempt>, ys: seq<Attempt>,
                     sorted: seq<Safe>)
    requires Arranged(w, rows, comparison, xs, ys) && (forall a :: a in ys <==> a in xs) && |sorted| == |rows|
    requires forall i :: 0 <= i < |rows| ==> sorted[i] == SafeOf(rows[i], ys[i])
    ensures Listed(w.baseline, rows, xs, sorted)
  {
    hide Matches, Summarizes;
    forall i | 0 <= i < |sorted| ensures ListedAs(w.baseline + 1 + i, rows[i], xs, sorted[i]) {
      assert ys[i] in xs && ys[i].id == Native(w.baseline + 1 + i) && Summarizes(sorted[i], rows[i], ys[i]);
    }
  }

  /** Sorts the projections and checks neighbours. That charges are in order then holds by itself. */
  method CheckSequence(w: Window, ghost spent: set<Context>, ghost plan: seq<Call>, ghost rows: seq<Row>,
                       ghost comparison: seq<Attempt>, ghost xs: seq<Attempt>, safe: seq<Safe>)
    returns (ok: bool, sorted: seq<Safe>)
    requires |rows| <= |plan| && LedgerOk(w, spent, plan, rows)
    requires AttemptsOk(w, rows, comparison, xs) && |xs| == |rows| && Projects(w.baseline, rows, xs, safe)
    ensures ok <==> Sequential(xs)
    ensures |sorted| == |rows| && multiset(sorted) == multiset(safe)
    ensures Listed(w.baseline, rows, xs, sorted)
  {
    hide Matches, Projects, Arranged, Sequential, Recorded, LedgerOk, Listed, Summarizes;
    sorted := SortBy(safe, OrdinalOf);
    ghost var ys := Bijection(w, rows, comparison, xs);
    ProjectsShape(w.baseline, rows, xs, safe);
    SortedProjects(w, spent, plan, rows, comparison, xs, safe, sorted, ys);
    SortedListed(w, rows, comparison, xs, ys, sorted);
    ArrangedShape(w, rows, comparison, xs, ys);
    ArrangedSequential(w, rows, comparison, xs, ys);
    RowsInOrder(w, spent, plan, rows);
    var i := 1;
    while i < |sorted|
      invariant 1 <= i && forall k :: 0 < k < i && k < |ys| ==> ys[k - 1].end <= ys[k].start
    {
      if sorted[i].start < sorted[i - 1].end || sorted[i].charged < sorted[i - 1].charged { return false, sorted; }
      i := i + 1;
    }
    ok := true;
  }

  lemma ProjectsShape(baseline: int, rows: seq<Row>, xs: seq<Attempt>, safe: seq<Safe>)
    requires Projects(baseline, rows, xs, safe)
    ensures |safe| == |xs|
  { }

  lemma RowsInOrder(w: Window, spent: set<Context>, plan: seq<Call>, rows: seq<Row>)
    requires |rows| <= |plan| && LedgerOk(w, spent, plan, rows)
    ensures forall i :: 0 <= i < |rows| ==>
            rows[i].ordinal == w.baseline + 1 + i && (i > 0 ==> rows[i - 1].created <= rows[i].created)
  {
    forall i | 0 <= i < |rows| ensures rows[i].ordinal == w.baseline + 1 + i
        && (i > 0 ==> rows[i - 1].created <= rows[i].created) {
      assert Follows(w, spent, plan, rows, i);
    }
  }

  lemma {:induction false} Later(ys: seq<Attempt>, i: nat, j: nat)
    requires i < j < |ys| && (forall k :: 0 < k < |ys| ==> ys[k - 1].end <= ys[k].start) && forall a :: a in ys ==>
             Valid(a)
    ensures ys[i].end <= ys[j].start
  {
    if i + 1 < j {
      Later(ys, i, j - 1);
      assert Valid(ys[j - 1]);
    }
  }

  /** Attempts never overlap: whichever of two has the lower ordinal is over before the other starts. */
  lemma NeverOverlap(w: Window, rows: seq<Row>, comparison: seq<Attempt>, xs: seq<Attempt>, a: Attempt, b: Attempt)
    requires AttemptsOk(w, rows, comparison, xs) && |xs| == |rows| && Sequential(xs) && forall x :: x in xs ==> Valid(x)
    requires a in xs && b in xs && a.id != b.id
    ensures a.id.Native? && b.id.Native? && (a.id.ordinal < b.id.ordinal ==> a.end <= b.start)
  {
    hide Matches, Sequential, Valid;
    var ys := Bijection(w, rows, comparison, xs);
    ArrangedSequential(w, rows, comparison, xs, ys);
    assert Recorded(w, rows, comparison, a) && Recorded(w, rows, comparison, b);
    var i :| 0 <= i < |ys| && ys[i] == a;
    var j :| 0 <= j < |ys| && ys[j] == b;
    if i < j { Later(ys, i, j); }
  }

  lemma {:induction false} ElapsedPrefix(w: Window, ys: seq<Attempt>, k: nat)
    requires 0 < k <= |ys| && (forall i :: 0 < i < |ys| ==> ys[i - 1].end <= ys[i].start)
    requires forall a :: a in ys ==> Valid(a) && w.start <= a.start
    ensures Sum(ys[..k], MsOf) <= (ys[k - 1].end - w.start) / MILLISECOND + 2 * k
  {
    var a := ys[k - 1];
    assert a in ys;
    assert ys[..k][..k - 1] == ys[..k - 1];
    Milliseconds(a);
    if k > 1 {
      ElapsedPrefix(w, ys, k - 1);
      assert ys[k - 2].end <= a.start;
      Quotients(w.start, ys[k - 2].end, a.start, a.end);
    } else {
      Quotients(w.start, w.start, a.start, a.end);
    }
  }

  lemma Milliseconds(a: Attempt)
    requires Valid(a)
    ensures a.ms <= (a.end - a.start) / MILLISECOND + 2
  { }

  lemma Quotients(p: int, q: int, r: int, s: int)
    requires p <= q <= r <= s
    ensures (q - p) / MILLISECOND + (s - r) / MILLISECOND <= (s - p) / MILLISECOND
  { }

  /** The measured milliseconds of all attempts fit the window, up to two per attempt. */
  lemma ElapsedFits(w: Window, rows: seq<Row>, comparison: seq<Attempt>, xs: seq<Attempt>)
    requires AttemptsOk(w, rows, comparison, xs) && |xs| == |rows| && Sequential(xs) && w.start <= w.end
             && forall x :: x in xs ==> Valid(x)
    ensures Sum(xs, MsOf) <= (w.end - w.start) / MILLISECOND + 2 * |xs|
  {
    hide Valid, Sequential;
    if xs != [] {
      var ys := Bijection(w, rows, comparison, xs);
      ArrangedSequential(w, rows, comparison, xs, ys);
      forall a | a in ys ensures Valid(a) && w.start <= a.start && a.end <= w.end {
        assert Recorded(w, rows, comparison, a);
      }
      ElapsedPrefix(w, ys, |ys|);
      assert ys[..|ys|] == ys;
      assert ys[|ys| - 1] in ys;
      SumPermutes(xs, ys, MsOf);
    }
  }
}
