/** What the frozen matrix contains and when it is refused, from the suite, the plan and the captures alone. */
module MemoryMatrix {
  import opened Options
  import opened MemoryFreeze

  ghost predicate Secret(c: Case) { exists h :: h in c.history && h.secret }

  /** The case has an original of this name that is neither deleted nor secret. */
  ghost predicate Available(history: seq<Source>, id: string) {
    exists h :: h in history && h.id == id && !h.deleted && !h.secret
  }

  /** Such an original, without its text. */
  ghost predicate Blanked(history: seq<Source>, id: string, m: Source) {
    exists h :: h in history && h.id == id && !h.deleted && !h.secret && m == h.(body := Text("", ""))
  }

  ghost predicate Captured(c: Case, captures: seq<Capture>) { exists k :: k in captures && k.id == CaseId(c.id) }

  /** The case's capture cites an original that is not available, or cites one twice. */
  ghost predicate Misquoted(c: Case, captures: seq<Capture>) {
    exists k :: k in captures && k.id == CaseId(c.id)
                && !(NoRepeats(k.cited) && forall id :: id in k.cited ==> Available(c.history, id))
  }

  // ----- what one input shows -----

  /** Why the input is not to be asked, if it is not. */
  ghost predicate SkipIs(c: Case, arm: Arm, captures: seq<Capture>, skip: Skip) {
    var size := if arm in c.sizes then c.sizes[arm] else 0;
    && (skip == SecretSourceBlocked <==> Secret(c))
    && (skip == InputByteBudgetExceeded <==> !Secret(c) && size > 32768)
    && (skip == RetrievalCaptureMissing <==> !Secret(c) && size <= 32768 && arm == Retrieval && !Captured(c, captures))
  }

  /** The originals that were not deleted, each in its place. */
  ghost predicate IsHistory(history: seq<Source>, memory: seq<Source>) {
    && (forall h :: h in memory <==> h in history && !h.deleted)
    && forall i, j :: 0 <= i < j < |memory| ==> Precede(history, memory[i], memory[j])
  }

  ghost predicate Precede(history: seq<Source>, g: Source, h: Source) {
    exists a, b :: 0 <= a < b < |history| && history[a] == g && history[b] == h
  }

  /** The originals the capture cites, in its order and without their texts, with its prompt and evidence. */
  ghost predicate IsRetrieved(c: Case, k: Capture, x: Input) {
    && k.id == CaseId(c.id) && x.prompt == k.prompt && x.evidence == Some(k.evidence) && |x.memory| == |k.cited|
    && forall i :: 0 <= i < |k.cited| ==> Blanked(c.history, k.cited[i], x.memory[i])
  }

  ghost predicate Empty(x: Input) { x.memory == [] && x.prompt == "" }

  ghost predicate MemoryIs(c: Case, arm: Arm, captures: seq<Capture>, x: Input) {
    if x.skip != NotSkipped || arm == NoLtm then Empty(x)
    else if arm == FullContext then IsHistory(c.history, x.memory) && x.prompt == ""
    else exists k :: k in captures && IsRetrieved(c, k, x)
  }

  /** The input of this case for this arm: nothing of a secret case, the question and the arm's memory otherwise. */
  ghost predicate Shows(c: Case, arm: Arm, captures: seq<Capture>, x: Input) {
    && x.slot == Slot(CaseId(c.id), arm) && SkipIs(c, arm, captures, x.skip) && MemoryIs(c, arm, captures, x)
    && (if Secret(c) then x.question == "" && x.task == Task(0, "", "")
        else x.question == c.question && x.task == c.task)
    && x.wire == if arm in c.wires then c.wires[arm] else 0
  }

  lemma PrecedeStill(front: seq<Source>, last: Source, g: Source, h: Source)
    requires Precede(front, g, h)
    ensures Precede(front + [last], g, h)
  {
    var a, b :| 0 <= a < b < |front| && front[a] == g && front[b] == h;
    var all := front + [last];
    assert all[a] == g && all[b] == h;
  }

  lemma PrecedeLast(front: seq<Source>, last: Source, g: Source)
    requires g in front
    ensures Precede(front + [last], g, last)
  {
    var a :| 0 <= a < |front| && front[a] == g;
    var all := front + [last];
    assert all[a] == g && all[|front|] == last;
  }

  lemma HistoryGrows(front: seq<Source>, last: Source, m: seq<Source>)
    requires IsHistory(front, m)
    ensures IsHistory(front + [last], if last.deleted then m else m + [last])
  {
    hide Precede;
    var n := if last.deleted then m else m + [last];
    forall i, j | 0 <= i < j < |n| ensures Precede(front + [last], n[i], n[j]) {
      if j < |m| {
        PrecedeStill(front, last, m[i], m[j]);
      } else {
        assert m[i] in m;
        PrecedeLast(front, last, m[i]);
      }
    }
  }

  lemma NoHistory()
    ensures IsHistory([], [])
  { }

  lemma {:induction false} UndeletedIs(history: seq<Source>)
    ensures IsHistory(history, Undeleted(history))
  {
    hide IsHistory;
    NoHistory();
    if history != [] {
      var front, last := history[..|history| - 1], history[|history| - 1];
      UndeletedIs(front);
      HistoryGrows(front, last, Undeleted(front));
      assert history == front + [last];
      assert Undeleted(history) == if last.deleted then Undeleted(front) else Undeleted(front) + [last];
    }
  }

  lemma {:induction false} FindIs(history: seq<Source>, id: string)
    ensures Find(history, id).Some? <==> Available(history, id)
    ensures Find(history, id).Some? ==>
              var h := Find(history, id).value; h in history && h.id == id && !h.deleted && !h.secret
  {
    if history != [] {
      FindIs(history[1..], id);
      assert history == [history[0]] + history[1..];
    }
  }

  lemma {:induction false} CitedIs(history: seq<Source>, ids: seq<string>)
    ensures Cited(history, ids).Some? <==> NoRepeats(ids) && forall id :: id in ids ==> Available(history, id)
    ensures Cited(history, ids).Some? ==>
              var m := Cited(history, ids).value;
              |m| == |ids| && forall i :: 0 <= i < |ids| ==> Blanked(history, ids[i], m[i])
  {
    if ids != [] {
      var front, id := ids[..|ids| - 1], ids[|ids| - 1];
      CitedIs(history, front);
      FindIs(history, id);
      hide Find, Available, Blanked;
      assert ids == front + [id];
      RepeatsNext(front, id);
      assert id in ids;
      if Cited(history, ids).Some? {
        var m := Cited(history, ids).value;
        BlankedIs(history, id, Find(history, id).value);
        forall i | 0 <= i < |ids| ensures Blanked(history, ids[i], m[i]) {
          if i < |front| { assert ids[i] == front[i] && m[i] == Cited(history, front).value[i]; }
        }
      }
    }
  }

  lemma BlankedIs(history: seq<Source>, id: string, h: Source)
    requires h in history && h.id == id && !h.deleted && !h.secret
    ensures Blanked(history, id, h.(body := BLANK))
  { }

  lemma RepeatsNext(front: seq<string>, id: string)
    ensures NoRepeats(front + [id]) <==> NoRepeats(front) && id !in front
  {
    var ids := front + [id];
    if NoRepeats(ids) {
      assert forall i :: 0 <= i < |front| ==> ids[i] == front[i] && ids[i] != ids[|front|];
    }
  }

  lemma {:induction false} TableIs(captures: seq<Capture>)
    ensures forall id :: id in Table(captures) <==> exists k :: k in captures && k.id == id
    ensures forall id :: id in Table(captures) ==> Table(captures)[id] in captures && Table(captures)[id].id == id
  {
    if captures != [] {
      var front, last := captures[..|captures| - 1], captures[|captures| - 1];
      TableIs(front);
      assert captures == front + [last];
      assert last in captures;
    }
  }

  /** With one capture for each case, the table has every one of them. */
  lemma {:induction false} TableHas(captures: seq<Capture>, k: Capture)
    requires OneEach(captures) && k in captures
    ensures k.id in Table(captures) && Table(captures)[k.id] == k
  {
    var front, last := captures[..|captures| - 1], captures[|captures| - 1];
    assert captures == front + [last];
    if k != last {
      TableHas(front, k);
      var i :| 0 <= i < |front| && front[i] == k;
      assert captures[i].id != captures[|captures| - 1].id;
    }
  }

  /** No case has two captures. */
  ghost predicate OneEach(captures: seq<Capture>) {
    forall i, j :: 0 <= i < j < |captures| ==> captures[i].id != captures[j].id
  }

  /** A capture is misquoting exactly when its input cannot be filled. */
  lemma MisquotedIs(c: Case, captures: seq<Capture>)
    requires OneEach(captures)
    ensures var id, caps := CaseId(c.id), Table(captures);
            Misquoted(c, captures) <==> id in caps && Cited(c.history, caps[id].cited).None?
  {
    hide Table, Cited, OneEach, NoRepeats, Available;
    TableIs(captures);
    var id, caps := CaseId(c.id), Table(captures);
    if id in caps { CitedIs(c.history, caps[id].cited); }
    forall k | k in captures && k.id == id ensures id in caps && caps[id] == k { TableHas(captures, k); }
  }

  lemma InputRefused(c: Case, arm: Arm, captures: seq<Capture>)
    requires OneEach(captures)
    ensures MakeInput(c, arm, Table(captures)).None? <==> !Secret(c) && arm == Retrieval && Misquoted(c, captures)
  {
    hide Table, Cited, OneEach, Misquoted, Undeleted;
    MisquotedIs(c, captures);
  }

  lemma RetrievedShows(c: Case, captures: seq<Capture>, x: Input)
    requires !Secret(c) && Filled(c, Retrieval, Table(captures)) == Some(x) && Captured(c, captures)
    ensures x.skip == NotSkipped && exists k :: k in captures && IsRetrieved(c, k, x)
  {
    hide Table, Cited, Blanked;
    TableIs(captures);
    var k := Table(captures)[CaseId(c.id)];
    CitedIs(c.history, k.cited);
    assert IsRetrieved(c, k, x);
  }

  lemma FilledShows(c: Case, arm: Arm, captures: seq<Capture>, x: Input)
    requires !Secret(c) && Filled(c, arm, Table(captures)) == Some(x)
    ensures x.slot == Slot(CaseId(c.id), arm) && x.question == c.question && x.task == c.task
    ensures x.wire == WireOf(c, arm) && MemoryIs(c, arm, captures, x)
    ensures x.skip == if arm == Retrieval && !Captured(c, captures) then RetrievalCaptureMissing else NotSkipped
  {
    hide Table, Cited, IsRetrieved, IsHistory, Undeleted, WireOf;
    UndeletedIs(c.history);
    TableIs(captures);
    if arm == Retrieval && Captured(c, captures) { RetrievedShows(c, captures, x); }
  }

  lemma InputShows(c: Case, arm: Arm, captures: seq<Capture>, x: Input)
    requires MakeInput(c, arm, Table(captures)) == Some(x)
    ensures Shows(c, arm, captures, x)
  {
    hide Table, Filled, IsRetrieved, IsHistory, Captured;
    if !Secret(c) { FilledShows(c, arm, captures, Filled(c, arm, Table(captures)).value); }
  }

  // ----- the matrix -----

  /** The cases of the plan's split, in suite order. */
  function Chosen(cases: seq<Case>, p: Plan): seq<Case> {
    if cases == [] then []
    else
      var c := cases[|cases| - 1];
      Chosen(cases[..|cases| - 1], p) + if p.split == Whole || c.split == p.split then [c] else []
  }

  /** Three inputs for each case, in order: without memory, with the whole history, with what was retrieved. */
  ghost predicate Laid(chosen: seq<Case>, captures: seq<Capture>, xs: seq<Input>) {
    && |xs| == 3 * |chosen|
    && forall i :: 0 <= i < |chosen| ==>
                     && Shows(chosen[i], NoLtm, captures, xs[3 * i])
                     && Shows(chosen[i], FullContext, captures, xs[3 * i + 1])
                     && Shows(chosen[i], Retrieval, captures, xs[3 * i + 2])
  }

  lemma ArmsShow(c: Case, captures: seq<Capture>)
    requires ArmInputs(c, Table(captures)).Some?
    ensures Laid([c], captures, ArmInputs(c, Table(captures)).value)
  {
    hide MakeInput, Shows, Table;
    var xs := ArmInputs(c, Table(captures)).value;
    InputShows(c, NoLtm, captures, xs[0]);
    InputShows(c, FullContext, captures, xs[1]);
    InputShows(c, Retrieval, captures, xs[2]);
  }

  lemma LaidMore(chosen: seq<Case>, c: Case, captures: seq<Capture>, xs: seq<Input>, ys: seq<Input>)
    requires Laid(chosen, captures, xs) && Laid([c], captures, ys)
    ensures Laid(chosen + [c], captures, xs + ys)
  {
    hide Shows;
    var all, zs := chosen + [c], xs + ys;
    forall i | 0 <= i < |all|
      ensures Shows(all[i], NoLtm, captures, zs[3 * i]) && Shows(all[i], FullContext, captures, zs[3 * i + 1])
              && Shows(all[i], Retrieval, captures, zs[3 * i + 2])
    {
      if i < |chosen| {
        assert all[i] == chosen[i] && zs[3 * i] == xs[3 * i] && zs[3 * i + 1] == xs[3 * i + 1];
      } else {
        assert all[i] == [c][0] && zs[3 * i] == ys[0] && zs[3 * i + 1] == ys[1] && zs[3 * i + 2] == ys[2];
      }
    }
  }

  lemma {:induction false} MatrixShows(cases: seq<Case>, p: Plan, captures: seq<Capture>)
    requires Matrix(cases, p, Table(captures)).Some?
    ensures Laid(Chosen(cases, p), captures, Matrix(cases, p, Table(captures)).value)
  {
    hide Laid, ArmInputs, Table;
    if cases == [] {
      NothingLaid(captures);
    } else {
      var front, c := cases[..|cases| - 1], cases[|cases| - 1];
      MatrixShows(front, p, captures);
      if Selected(c, p) {
        ArmsShow(c, captures);
        LaidMore(Chosen(front, p), c, captures, Matrix(front, p, Table(captures)).value,
                 ArmInputs(c, Table(captures)).value);
      } else {
        assert Chosen(cases, p) == Chosen(front, p);
      }
    }
  }

  lemma NothingLaid(captures: seq<Capture>)
    ensures Laid([], captures, [])
  { }

  /** A case of the plan's split that is not secret and whose capture misquotes it. */
  ghost predicate Refuses(c: Case, p: Plan, captures: seq<Capture>) {
    (p.split == Whole || c.split == p.split) && !Secret(c) && Misquoted(c, captures)
  }

  lemma {:induction false} MatrixRefused(cases: seq<Case>, p: Plan, captures: seq<Capture>)
    requires OneEach(captures)
    ensures Matrix(cases, p, Table(captures)).None? <==> exists c :: c in cases && Refuses(c, p, captures)
  {
    hide Secret, Misquoted, Table, MakeInput, OneEach;
    if cases != [] {
      var front, c := cases[..|cases| - 1], cases[|cases| - 1];
      MatrixRefused(front, p, captures);
      assert cases == front + [c];
      assert c in cases;
      InputRefused(c, NoLtm, captures);
      InputRefused(c, FullContext, captures);
      InputRefused(c, Retrieval, captures);
    }
  }

  /** Freezing succeeds exactly for a valid suite, plan and captures none of which misquotes its case, and then
      lays out every chosen case under the three arms. */
  lemma FrozenExactly(cases: seq<Case>, p: Plan, captures: seq<Capture>)
    ensures Frozen(cases, p, captures).Some?
            <==> && ValidSuite(cases) && ValidPlan(p) && ValidCaptures(cases, p, captures)
                 && !exists c :: c in cases && Refuses(c, p, captures)
    ensures Frozen(cases, p, captures).Some? ==>
              Laid(Chosen(cases, p), captures, Frozen(cases, p, captures).value)
  {
    if ValidSuite(cases) && ValidPlan(p) && ValidCaptures(cases, p, captures) {
      assert OneEach(captures);
      hide ValidSuite, ValidPlan, ValidCaptures, Matrix, Refuses, Laid, Table, OneEach;
      MatrixRefused(cases, p, captures);
      if Matrix(cases, p, Table(captures)).Some? { MatrixShows(cases, p, captures); }
    }
  }

  lemma ShownIsOpen(c: Case, arm: Arm, captures: seq<Capture>, x: Input)
    requires Shows(c, arm, captures, x)
    ensures forall m :: m in x.memory ==> !m.secret && !m.deleted
    ensures Secret(c) ==> x.question == "" && x.task == NO_TASK && x.memory == [] && x.prompt == ""
  {
    hide Captured;
    forall m | m in x.memory ensures !m.secret && !m.deleted {
      if arm == Retrieval {
        var k :| k in captures && IsRetrieved(c, k, x);
        var i :| 0 <= i < |x.memory| && x.memory[i] == m;
        assert Blanked(c.history, k.cited[i], m);
      }
    }
  }

  /** No frozen input shows a secret or a deleted original, or anything at all of a case with a secret one. */
  lemma NothingSecretShown(cases: seq<Case>, p: Plan, captures: seq<Capture>, x: Input)
    requires Frozen(cases, p, captures).Some? && x in Frozen(cases, p, captures).value
    ensures forall m :: m in x.memory ==> !m.secret && !m.deleted
    ensures exists c :: c in cases && x.slot.id == CaseId(c.id)
                        && (Secret(c) ==> x.question == "" && x.task == NO_TASK && x.memory == [] && x.prompt == "")
  {
    hide Frozen, Shows, Chosen;
    FrozenExactly(cases, p, captures);
    var xs, chosen := Frozen(cases, p, captures).value, Chosen(cases, p);
    var n :| 0 <= n < |xs| && xs[n] == x;
    var c, arm := chosen[n / 3], if n % 3 == 0 then NoLtm else if n % 3 == 1 then FullContext else Retrieval;
    assert Shows(c, arm, captures, x);
    ShownIsOpen(c, arm, captures, x);
    ShownSlot(c, arm, captures, x);
    ChosenFrom(cases, p, c);
  }

  lemma ShownSlot(c: Case, arm: Arm, captures: seq<Capture>, x: Input)
    requires Shows(c, arm, captures, x)
    ensures x.slot.id == CaseId(c.id)
  { }

  lemma {:induction false} ChosenFrom(cases: seq<Case>, p: Plan, c: Case)
    ensures c in Chosen(cases, p) <==> c in cases && (p.split == Whole || c.split == p.split)
  {
    if cases != [] {
      ChosenFrom(cases[..|cases| - 1], p, c);
      assert cases == cases[..|cases| - 1] + [cases[|cases| - 1]];
    }
  }
}
