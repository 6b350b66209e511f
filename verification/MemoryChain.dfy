/** A paid experiment that was cut short and continued: a chain of at most five sealed
    prefixes, each ending in one failed paid entry, and the schedule of what is left. */
module MemoryChain {
  import opened Options
  import opened MemoryFreeze

  // ----- records -----

  /** Digests identify what they were computed from. */
  datatype InputSha = InputSha(input: Input)
  datatype ScheduleSha = ScheduleSha(plan: Plan, inputs: seq<Input>, captures: seq<Capture>)

  datatype Status = Completed | Failed | Skipped | OtherStatus
  datatype Observation = Observation(slot: Slot, input: InputSha, status: Status, reason: Skip, output: nat)
  datatype Expense = Expense(id: string, record: nat)

  datatype Schedule = Schedule(plan: Plan, inputs: seq<Input>, captures: seq<Capture>, sha: ScheduleSha)
  datatype Measurements = Measurements(frozen: ScheduleSha, observations: seq<Observation>, expenses: seq<Expense>)
  datatype Audit = Audit(native: int, auxiliary: int, questions: int, unknown: int)
  datatype LedgerWindow = LedgerWindow(calls: int, units: int, expires: int)

  /** What the operator pinned about one retained prefix. */
  datatype PinData = PinData(ledger: seq<LedgerWindow>, frozen: Schedule, measurements: Measurements,
                             source: string, commit: string, calls: int, units: int, expires: int)
  datatype Pins = Pins(data: PinData, parent: Option<Pins>)

  /** The decoded files of one retained directory.  `runner` is what the audit of the native run
      returns there, `None` if it refuses. */
  datatype Directory = Directory(ledger: seq<LedgerWindow>, frozen: Schedule, measurements: Measurements,
                                 comparisonFrozen: Schedule, comparisonMeasurements: Measurements,
                                 runner: Option<Audit>, prior: Option<Directory>)

  datatype Prior = Prior(frozen: Schedule, measurements: Measurements, audit: Audit, expires: int,
                         paidInput: Input, paidInputs: seq<Input>)

  /** The suite with the call and unit ceilings of its policy. */
  datatype Suite = Suite(cases: seq<Case>, maxCalls: int, maxUnits: int)

  ghost predicate Policy(s: Suite) {
    (s.maxCalls == 240 && s.maxUnits == 1_000_000) || (s.maxCalls == 280 && s.maxUnits == 4_000_000)
  }

  // ----- units -----

  const TWO63: int := 0x8000_0000_0000_0000

  /** Two's complement 64-bit arithmetic. */
  function Wrap64(x: int): int { (x + TWO63) % (2 * TWO63) - TWO63 }

  function NativeUnits(i: Input): (u: int)
    ensures 32768 < u <= 65536 && (i.wire <= 24576 ==> u == i.wire + 40960) && (i.wire >= 24576 ==> u == 65536)
  {
    (if i.wire + 8192 < 32768 then i.wire + 8192 else 32768) + 32768
  }

  function TotalUnits(inputs: seq<Input>): int {
    if inputs == [] then 0 else TotalUnits(inputs[..|inputs| - 1]) + NativeUnits(inputs[|inputs| - 1])
  }

  /** The accumulation loop's sum, in 64-bit arithmetic. */
  function WrappedUnits(start: int, inputs: seq<Input>): int {
    if inputs == [] then start
        else Wrap64(WrappedUnits(start, inputs[..|inputs| - 1]) + NativeUnits(inputs[|inputs| - 1]))
  }

  lemma {:induction false} UnitsExact(start: int, inputs: seq<Input>)
    requires 0 <= start && start + 65536 * |inputs| < TWO63
    ensures WrappedUnits(start, inputs) == start + TotalUnits(inputs)
    ensures 0 <= TotalUnits(inputs) <= 65536 * |inputs|
  {
    if inputs != [] { UnitsExact(start, inputs[..|inputs| - 1]); }
  }

  lemma {:induction false} UnitsConcat(a: seq<Input>, b: seq<Input>)
    ensures TotalUnits(a + b) == TotalUnits(a) + TotalUnits(b)
  {
    if b == [] {
      assert a + b == a;
    } else {
      assert (a + b)[..|a + b| - 1] == a + b[..|b| - 1];
      UnitsConcat(a, b[..|b| - 1]);
    }
  }

  // ----- selecting inputs -----

  /** The inputs that are not planned skips. */
  function Eligible(inputs: seq<Input>): seq<Input> {
    if inputs == [] then []
    else Eligible(inputs[..|inputs| - 1]) + if inputs[|inputs| - 1].skip == NotSkipped then [inputs[|inputs| - 1]]
        else []
  }

  /** The inputs outside some slots, in order. */
  function Keep(inputs: seq<Input>, drop: set<Slot>): seq<Input> {
    if inputs == [] then []
    else Keep(inputs[..|inputs| - 1], drop) + if inputs[|inputs| - 1].slot in drop then [] else [inputs[|inputs| - 1]]
  }

  function SlotSet(inputs: seq<Input>): set<Slot> { set i | i in inputs :: i.slot }

  function ObservedSlots(os: seq<Observation>): set<Slot> { set o | o in os :: o.slot }

  lemma {:induction false} EligibleConcat(a: seq<Input>, b: seq<Input>)
    ensures Eligible(a + b) == Eligible(a) + Eligible(b)
  {
    if b == [] {
      assert a + b == a;
    } else {
      assert (a + b)[..|a + b| - 1] == a + b[..|b| - 1];
      EligibleConcat(a, b[..|b| - 1]);
    }
  }

  lemma {:induction false} KeepConcat(a: seq<Input>, b: seq<Input>, drop: set<Slot>)
    ensures Keep(a + b, drop) == Keep(a, drop) + Keep(b, drop)
  {
    if b == [] {
      assert a + b == a;
    } else {
      assert (a + b)[..|a + b| - 1] == a + b[..|b| - 1];
      KeepConcat(a, b[..|b| - 1], drop);
    }
  }

  lemma {:induction false} KeepAll(inputs: seq<Input>, drop: set<Slot>)
    requires forall i :: i in inputs ==> i.slot !in drop
    ensures Keep(inputs, drop) == inputs
  {
    if inputs != [] {
      var front := inputs[..|inputs| - 1];
      assert inputs == front + [inputs[|inputs| - 1]];
      KeepAll(front, drop);
    }
  }

  lemma {:induction false} KeepNone(inputs: seq<Input>, drop: set<Slot>)
    requires forall i :: i in inputs ==> i.slot in drop
    ensures Keep(inputs, drop) == []
  {
    if inputs != [] {
      assert inputs[|inputs| - 1] in inputs;
      KeepNone(inputs[..|inputs| - 1], drop);
    }
  }

  lemma OutsideSlots(a: seq<Input>, b: seq<Input>, x: Input)
    requires DistinctSlots(a + b) && x in a
    ensures x.slot !in SlotSet(b)
  {
    var i :| 0 <= i < |a| && a[i] == x;
    forall y | y in b ensures y.slot != x.slot {
      var j :| 0 <= j < |b| && b[j] == y;
      assert (a + b)[i].slot != (a + b)[|a| + j].slot;
    }
  }

  lemma OutsideSlotsBehind(b: seq<Input>, c: seq<Input>, x: Input)
    requires DistinctSlots(b + c) && x in c
    ensures x.slot !in SlotSet(b)
  {
    var i :| 0 <= i < |c| && c[i] == x;
    forall y | y in b ensures y.slot != x.slot {
      var j :| 0 <= j < |b| && b[j] == y;
      assert (b + c)[j].slot != (b + c)[|b| + i].slot;
    }
  }

  lemma DistinctParts(a: seq<Input>, b: seq<Input>)
    requires DistinctSlots(a + b)
    ensures DistinctSlots(a) && DistinctSlots(b)
  {
    forall i, j | 0 <= i < j < |a| ensures a[i].slot != a[j].slot { assert (a + b)[i].slot != (a + b)[j].slot; }
    forall i, j | 0 <= i < j < |b| ensures b[i].slot != b[j].slot {
      assert (a + b)[|a| + i].slot != (a + b)[|a| + j].slot;
    }
  }

  /** Dropping the slots of a middle part of distinct inputs leaves exactly the rest, in order. */
  lemma KeepAround(a: seq<Input>, b: seq<Input>, c: seq<Input>)
    requires DistinctSlots(a + b + c)
    ensures Keep(a + b + c, SlotSet(b)) == a + c
  {
    hide DistinctSlots, Keep;
    DistinctParts(a + b, c);
    assert a + b + c == a + (b + c);
    DistinctParts(a, b + c);
    var drop := SlotSet(b);
    assert forall x :: x in b ==> x.slot in drop;
    hide SlotSet;
    forall x | x in a ensures x.slot !in drop { OutsideSlots(a, b, x); }
    forall x | x in c ensures x.slot !in drop { OutsideSlotsBehind(b, c, x); }
    KeepConcat(a + b, c, drop);
    KeepConcat(a, b, drop);
    KeepAll(a, drop);
    KeepAll(c, drop);
    KeepNone(b, drop);
  }

  lemma {:induction false} KeepTwice(inputs: seq<Input>, d: set<Slot>, e: set<Slot>)
    ensures Keep(Keep(inputs, d), e) == Keep(inputs, d + e)
  {
    if inputs != [] {
      var front, last := inputs[..|inputs| - 1], inputs[|inputs| - 1];
      KeepTwice(front, d, e);
      KeepConcat(Keep(front, d), if last.slot in d then [] else [last], e);
      assert Keep([last], e) == if last.slot in e then [] else [last] by {
        assert [last][..0] == [];
      }
      assert Keep([], e) == [];
    }
  }

  // ----- the retained prefix -----

  /** Slot and digest of an observation are those of the input. */
  predicate Observes(o: Observation, i: Input) { o.slot == i.slot && o.input == InputSha(i) }

  /** One entry of a sealed prefix: skips as planned, completed entries, and one failure at the very end. */
  predicate EntryOk(o: Observation, i: Input, last: bool) {
    && Observes(o, i)
    && if i.skip != NotSkipped then o.status == Skipped && o.reason == i.skip && !last
       else o.status == if last then Failed else Completed
  }

  predicate SealedPrefix(f: Schedule, m: Measurements) {
    && 0 < |m.observations| <= |f.inputs|
    && forall n :: 0 <= n < |m.observations| ==> EntryOk(m.observations[n], f.inputs[n], n == |m.observations| - 1)
  }

  /** The paid inputs of a sealed prefix, or nothing if it is not one. */
  method CompletedPrefix(f: Schedule, m: Measurements) returns (r: Option<seq<Input>>)
    ensures r.Some? <==> SealedPrefix(f, m)
    ensures r.Some? ==> r.value == Eligible(f.inputs[..|m.observations|])
  {
    if |m.observations| == 0 || |m.observations| > |f.inputs| { return None; }
    var paid: seq<Input> := [];
    for n := 0 to |m.observations|
      invariant forall k :: 0 <= k < n ==> EntryOk(m.observations[k], f.inputs[k], k == |m.observations| - 1)
      invariant paid == Eligible(f.inputs[..n])
    {
      var o, i := m.observations[n], f.inputs[n];
      assert f.inputs[..n + 1][..n] == f.inputs[..n];
      if i.slot != o.slot || InputSha(i) != o.input { return None; }
      if i.skip != NotSkipped {
        if o.status != Skipped || o.reason != i.skip || n == |m.observations| - 1 { return None; }
      } else {
        var want := if n == |m.observations| - 1 then Failed else Completed;
        if o.status != want { return None; }
        paid := paid + [i];
      }
    }
    r := Some(paid);
  }

  // ----- what is left, and what is combined -----

  predicate Spent(p: Prior, slot: Slot) {
    slot in SlotSet(p.paidInputs) || slot == p.paidInput.slot || slot in ObservedSlots(p.measurements.observations)
  }

  function SpentSlots(p: Prior): set<Slot> {
    SlotSet(p.paidInputs) + {p.paidInput.slot} + ObservedSlots(p.measurements.observations)
  }

  function PendingInputs(p: Prior): seq<Input> { Keep(p.frozen.inputs, SpentSlots(p)) }

  predicate SameExperiment(p: Prior, plan: Plan) {
    plan.window != p.frozen.plan.window && plan.experiment == p.frozen.plan.experiment
        && plan.split == p.frozen.plan.split
  }

  function Pending(p: Prior, plan: Plan): Option<Schedule> {
    if !SameExperiment(p, plan) then None
    else Some(Schedule(plan, PendingInputs(p), p.frozen.captures,
                       ScheduleSha(plan, PendingInputs(p), p.frozen.captures)))
  }

  method PendingSchedule(p: Prior, plan: Plan) returns (r: Option<Schedule>)
    ensures r == Pending(p, plan)
  {
    if plan.window == p.frozen.plan.window || plan.experiment != p.frozen.plan.experiment
      || plan.split != p.frozen.plan.split {
      return None;
    }
    var inputs: seq<Input> := [];
    for n := 0 to |p.frozen.inputs|
      invariant inputs == Keep(p.frozen.inputs[..n], SpentSlots(p))
    {
      assert p.frozen.inputs[..n + 1][..n] == p.frozen.inputs[..n];
      if !Spent(p, p.frozen.inputs[n].slot) { inputs := inputs + [p.frozen.inputs[n]]; }
    }
    assert p.frozen.inputs[..|p.frozen.inputs|] == p.frozen.inputs;
    r := Some(Schedule(plan, inputs, p.frozen.captures, ScheduleSha(plan, inputs, p.frozen.captures)));
  }

  predicate NewIds(old_: seq<Expense>, new_: seq<Expense>) {
    && (forall i :: 0 <= i < |new_| ==> forall e :: e in old_ ==> e.id != new_[i].id)
    && (forall i, j :: 0 <= i < j < |new_| ==> new_[i].id != new_[j].id)
  }

  predicate Fresh(p: Prior, current: Measurements) {
    && NewIds(p.measurements.expenses, current.expenses)
    && forall o :: o in current.observations ==> !Spent(p, o.slot)
  }

  function Combined(p: Prior, current: Measurements): Measurements {
    Measurements(p.frozen.sha, p.measurements.observations + current.observations,
                 p.measurements.expenses + current.expenses)
  }

  /** Carried expenses are neither replaced nor duplicated, and no spent slot is observed again. */
  method Combine(p: Prior, current: Measurements) returns (r: Option<Measurements>)
    ensures r.Some? <==> Fresh(p, current)
    ensures r.Some? ==> r.value == Combined(p, current)
  {
    var expenses, ids := p.measurements.expenses, set e | e in p.measurements.expenses :: e.id;
    for i := 0 to |current.expenses|
      invariant expenses == p.measurements.expenses + current.expenses[..i]
      invariant forall id :: id in ids <==> exists e :: e in expenses && e.id == id
      invariant NewIds(p.measurements.expenses, current.expenses[..i])
    {
      var e := current.expenses[i];
      assert current.expenses[..i + 1] == current.expenses[..i] + [e];
      if e.id in ids {
        var x :| x in expenses && x.id == e.id;
        if x !in p.measurements.expenses {
          var k :| 0 <= k < i && current.expenses[..i][k] == x;
          assert current.expenses[k].id == current.expenses[i].id;
        }
        return None;
      }
      forall k | 0 <= k < i ensures current.expenses[k].id != e.id {
        assert current.expenses[..i][k] in expenses;
      }
      forall x | x in p.measurements.expenses ensures x.id != e.id { assert x in expenses; }
      expenses := expenses + [e];
      ids := ids + {e.id};
    }
    assert current.expenses[..|current.expenses|] == current.expenses;
    var observations := p.measurements.observations;
    for i := 0 to |current.observations|
      invariant observations == p.measurements.observations + current.observations[..i]
      invariant forall o :: o in current.observations[..i] ==> !Spent(p, o.slot)
    {
      var o := current.observations[i];
      assert current.observations[..i + 1] == current.observations[..i] + [o];
      if Spent(p, o.slot) {
        assert o in current.observations;
        return None;
      }
      observations := observations + [o];
    }
    assert current.observations[..|current.observations|] == current.observations;
    r := Some(Measurements(p.frozen.sha, observations, expenses));
  }

  // ----- the loader -----

  /** The one ledger window has these counters and this deadline. */
  predicate OneWindow(ledger: seq<LedgerWindow>, w: LedgerWindow) { ledger == [w] }

  /** The window checks of the runner's audit: nothing below what was carried in, nothing above the policy. */
  predicate RunnerWindow(s: Suite, ledger: seq<LedgerWindow>, priorCalls: int, priorUnits: int) {
    |ledger| == 1 && priorCalls <= ledger[0].calls <= s.maxCalls && priorUnits <= ledger[0].units <= s.maxUnits
  }

  /** A sealed continuation of `p` in one directory, with the accumulated counters. */
  function PrefixAudit(s: Suite, p: Prior, d: Directory, parent: PinData): Option<Audit> {
    if !SealedPrefix(d.frozen, d.measurements) || Pending(p, d.frozen.plan) != Some(d.frozen) then None
    else
      var paid := Eligible(d.frozen.inputs[..|d.measurements.observations|]);
      if paid == [] || d.runner.None? || !RunnerWindow(s, d.ledger, parent.calls, parent.units)
         || d.runner.value.native != |paid| || d.runner.value.auxiliary != 0 || d.runner.value.questions != |paid| - 1
         || d.ledger[0].expires != p.expires || d.ledger[0].units != WrappedUnits(parent.units, paid)
      then None
      else Some(AddAudit(d.runner.value, p.audit))
  }

  function AddAudit(a: Audit, b: Audit): Audit {
    Audit(a.native + b.native, a.auxiliary + b.auxiliary, a.questions + b.questions, a.unknown + b.unknown)
  }

  /** The first prefix: the whole frozen matrix, and one failed first entry. */
  ghost function LoadRoot(s: Suite, pins: PinData, d: Directory): Option<Prior> {
    var inputs := d.frozen.inputs;
    if Frozen(s.cases, d.frozen.plan, d.frozen.captures) != Some(inputs)
       || d.frozen.sha != ScheduleSha(d.frozen.plan, inputs, d.frozen.captures)
       || d.frozen.plan.source != pins.source || d.frozen.plan.commit != pins.commit
       || |d.measurements.observations| != 1 || |d.frozen.captures| != 22
       || !OneWindow(d.ledger, LedgerWindow(pins.calls, pins.units, pins.expires))
       || |Eligible(inputs)| != 64
       || !Observes(d.measurements.observations[0], Eligible(inputs)[0])
       || d.measurements.observations[0].status != Failed
       || d.runner.None? || !RunnerWindow(s, d.ledger, 0, 0)
       || d.runner.value.native != 1 || d.runner.value.auxiliary != 53 || pins.calls != 54 || pins.units <= 0
    then None
    else Some(Prior(d.frozen, d.measurements, d.runner.value, pins.expires, Eligible(inputs)[0], [Eligible(inputs)[0]]))
  }

  ghost function Load(s: Suite, pins: Pins, d: Directory, depth: nat): Option<Prior>
    decreases pins
  {
    if depth >= 5 || d.ledger != pins.data.ledger || d.frozen != pins.data.frozen
      || d.measurements != pins.data.measurements then None
    else if pins.parent.None? then LoadRoot(s, pins.data, d)
    else if d.frozen.plan.source != pins.data.source || d.frozen.plan.commit != pins.data.commit || d.prior.None?
        then None
    else
      var parent := Load(s, pins.parent.value, d.prior.value, depth + 1);
      if parent.None? then None
      else LoadNext(s, parent.value, pins, d)
  }

  ghost function LoadNext(s: Suite, p: Prior, pins: Pins, d: Directory): Option<Prior>
    requires pins.parent.Some?
  {
    var audit := PrefixAudit(s, p, d, pins.parent.value.data);
    if audit.None? || !Fresh(p, d.measurements)
       || d.comparisonFrozen != p.frozen || d.comparisonMeasurements != Combined(p, d.measurements)
       || !OneWindow(d.ledger, LedgerWindow(pins.data.calls, pins.data.units, pins.data.expires))
       || pins.data.expires != p.expires
    then None
    else Some(p.(measurements := Combined(p, d.measurements), audit := audit.value,
                 paidInputs := p.paidInputs + Eligible(d.frozen.inputs[..|d.measurements.observations|])))
  }

  function Lineage(pins: Pins): nat {
    match pins.parent case None => 1 case Some(q) => 1 + Lineage(q)
  }

  function RootPins(pins: Pins): PinData {
    match pins.parent case None => pins.data case Some(q) => RootPins(q)
  }

  /** At most five prefixes in all. */
  ghost function LoadPrior(s: Suite, pins: Pins, d: Directory): Option<Prior> {
    if Lineage(pins) > 5 then None else Load(s, pins, d, 0)
  }

  // ----- the invariant of a chain -----

  /** The matrix without its first paid entry, which is observed first. */
  function Rest(p: Prior): seq<Input> { Keep(p.frozen.inputs, {p.paidInput.slot}) }

  ghost predicate Matches(os: seq<Observation>, inputs: seq<Input>) {
    |os| == |inputs| && forall i :: 0 <= i < |os| ==> Observes(os[i], inputs[i])
  }

  /** `k` further entries of the matrix have been observed, in order. */
  ghost predicate Sound(s: Suite, p: Prior, k: nat, pins: PinData, root: PinData) {
    && DistinctSlots(p.frozen.inputs) && |Eligible(p.frozen.inputs)| == 64
    && p.paidInput == Eligible(p.frozen.inputs)[0]
    && k <= |Rest(p)|
    && Matches(p.measurements.observations, [p.paidInput] + Rest(p)[..k])
    && p.paidInputs == [p.paidInput] + Eligible(Rest(p)[..k])
    && p.audit.native == |p.paidInputs| && p.audit.auxiliary == 53
    && p.expires == pins.expires == root.expires
    && pins.units == root.units + TotalUnits(Eligible(Rest(p)[..k]))
    && 0 < root.units <= pins.units <= s.maxUnits
  }

  lemma {:induction false} KeepDistinct(inputs: seq<Input>, drop: set<Slot>)
    requires DistinctSlots(inputs)
    ensures DistinctSlots(Keep(inputs, drop))
    ensures forall x :: x in Keep(inputs, drop) <==> x in inputs && x.slot !in drop
  {
    if inputs != [] {
      var front, last := inputs[..|inputs| - 1], inputs[|inputs| - 1];
      assert inputs == front + [last];
      KeepDistinct(front, drop);
      forall x | x in front ensures x.slot != last.slot {
        var i :| 0 <= i < |front| && front[i] == x;
        assert inputs[i].slot != inputs[|inputs| - 1].slot;
      }
      var kept := Keep(front, drop);
      assert forall i :: 0 <= i < |kept| ==> kept[i] in kept;
    }
  }

  lemma PrefixSplit(rest: seq<Input>, k: nat)
    requires DistinctSlots(rest) && k <= |rest|
    ensures Keep(rest, SlotSet(rest[..k])) == rest[k..]
  {
    hide DistinctSlots, Keep, SlotSet;
    assert [] + rest[..k] + rest[k..] == rest;
    KeepAround([], rest[..k], rest[k..]);
    assert [] + rest[k..] == rest[k..];
  }

  lemma MatchedSlots(os: seq<Observation>, inputs: seq<Input>)
    requires Matches(os, inputs)
    ensures ObservedSlots(os) == SlotSet(inputs)
  {
    forall s | s in ObservedSlots(os) ensures s in SlotSet(inputs) {
      var o :| o in os && o.slot == s;
      var i :| 0 <= i < |os| && os[i] == o;
      assert inputs[i] in inputs;
    }
    forall s | s in SlotSet(inputs) ensures s in ObservedSlots(os) {
      var x :| x in inputs && x.slot == s;
      var i :| 0 <= i < |inputs| && inputs[i] == x;
      assert os[i] in os;
    }
  }

  lemma {:induction false} EligibleWithin(inputs: seq<Input>)
    ensures forall x :: x in Eligible(inputs) <==> x in inputs && x.skip == NotSkipped
    ensures |Eligible(inputs)| <= |inputs|
  {
    if inputs != [] {
      var front := inputs[..|inputs| - 1];
      assert inputs == front + [inputs[|inputs| - 1]];
      EligibleWithin(front);
    }
  }

  /** What is spent is exactly the first paid entry and the next `k` entries. */
  lemma SpentExactly(s: Suite, p: Prior, k: nat, pins: PinData, root: PinData)
    requires Sound(s, p, k, pins, root)
    ensures SpentSlots(p) == {p.paidInput.slot} + SlotSet(Rest(p)[..k])
  {
    var seen := Rest(p)[..k];
    MatchedSlots(p.measurements.observations, [p.paidInput] + seen);
    EligibleWithin(seen);
    assert SlotSet([p.paidInput] + seen) == {p.paidInput.slot} + SlotSet(seen);
    assert SlotSet(p.paidInputs) <= {p.paidInput.slot} + SlotSet(seen);
  }

  /** The pending schedule is the rest of the matrix from entry `k` on, in the original order. */
  lemma PendingIsTail(s: Suite, p: Prior, k: nat, pins: PinData, root: PinData)
    requires Sound(s, p, k, pins, root)
    ensures PendingInputs(p) == Rest(p)[k..]
  {
    SpentExactly(s, p, k, pins, root);
    assert DistinctSlots(Rest(p)) by { KeepDistinct(p.frozen.inputs, {p.paidInput.slot}); }
    hide Sound, DistinctSlots, Keep;
    KeepTwice(p.frozen.inputs, {p.paidInput.slot}, SlotSet(Rest(p)[..k]));
    PrefixSplit(Rest(p), k);
  }

  // ----- every accepted chain is sound -----

  lemma RootSound(s: Suite, pins: PinData, d: Directory)
    requires Policy(s) && LoadRoot(s, pins, d).Some?
    ensures Sound(s, LoadRoot(s, pins, d).value, 0, pins, pins)
  {
    MatrixDistinct(s.cases, d.frozen.plan, Table(d.frozen.captures));
    var p := LoadRoot(s, pins, d).value;
    assert Rest(p)[..0] == [];
    assert [p.paidInput] + [] == [p.paidInput];
  }

  /** The next prefix continues exactly where the previous one stopped. */
  lemma NextObserves(p: Prior, k: nat, d: Directory)
    requires k <= |Rest(p)| && SealedPrefix(d.frozen, d.measurements) && d.frozen.inputs == Rest(p)[k..]
    requires Matches(p.measurements.observations, [p.paidInput] + Rest(p)[..k])
    ensures var n := |d.measurements.observations|;
            && k + n <= |Rest(p)|
            && d.frozen.inputs[..n] == Rest(p)[k..k + n]
            && Matches(p.measurements.observations + d.measurements.observations, [p.paidInput] + Rest(p)[..k + n])
  {
    var n, rest := |d.measurements.observations|, Rest(p);
    hide Rest;
    assert d.frozen.inputs[..n] == rest[k..k + n];
    assert rest[..k + n] == rest[..k] + rest[k..k + n];
    var os, xs := p.measurements.observations + d.measurements.observations, [p.paidInput] + rest[..k + n];
    forall i | 0 <= i < |os| ensures Observes(os[i], xs[i]) {
      if i < |p.measurements.observations| {
        assert xs[i] == ([p.paidInput] + rest[..k])[i];
      } else {
        var m := i - |p.measurements.observations|;
        assert EntryOk(d.measurements.observations[m], d.frozen.inputs[m], m == n - 1);
        assert xs[i] == rest[k + m];
      }
    }
  }

  /** Paid inputs and units of the continued prefix, without overflow. */
  lemma NextUnits(rest: seq<Input>, k: nat, n: nat, units: int)
    requires k + n <= |rest| && |Eligible(rest)| <= 63 && 0 <= units <= 4_000_000
    ensures Eligible(rest[..k + n]) == Eligible(rest[..k]) + Eligible(rest[k..k + n])
    ensures WrappedUnits(units, Eligible(rest[k..k + n])) == units + TotalUnits(Eligible(rest[k..k + n]))
    ensures TotalUnits(Eligible(rest[..k + n])) == TotalUnits(Eligible(rest[..k]))
            + TotalUnits(Eligible(rest[k..k + n]))
    ensures TotalUnits(Eligible(rest[k..k + n])) >= 0
  {
    hide Eligible, TotalUnits, WrappedUnits;
    var a, b, c := rest[..k], rest[k..k + n], rest[k + n..];
    assert rest[..k + n] == a + b && rest == a + b + c;
    EligibleConcat(a, b);
    EligibleConcat(a + b, c);
    UnitsConcat(Eligible(a), Eligible(b));
    UnitsExact(units, Eligible(b));
  }

  lemma NextSound(s: Suite, p: Prior, k: nat, pins: Pins, d: Directory, root: PinData)
    requires Policy(s) && pins.parent.Some? && Sound(s, p, k, pins.parent.value.data, root)
    requires LoadNext(s, p, pins, d).Some?
    ensures var n := |d.measurements.observations|;
            Sound(s, LoadNext(s, p, pins, d).value, k + n, pins.data, root)
  {
    hide Rest, Eligible, TotalUnits, WrappedUnits, Keep, DistinctSlots, SealedPrefix, Matches, Fresh, SameExperiment,
         PendingInputs;
    var n, parent := |d.measurements.observations|, pins.parent.value.data;
    var q := LoadNext(s, p, pins, d).value;
    PendingIsTail(s, p, k, parent, root);
    NextObserves(p, k, d);
    MatrixBounded(s, p, k, parent, root);
    NextUnits(Rest(p), k, n, parent.units);
    SameRest(p, q);
    assert q.paidInputs == [p.paidInput] + (Eligible(Rest(p)[..k]) + Eligible(Rest(p)[k..k + n]));
  }

  lemma SameRest(p: Prior, q: Prior)
    requires p.frozen == q.frozen && p.paidInput == q.paidInput
    ensures Rest(p) == Rest(q)
  {}

  lemma MatrixBounded(s: Suite, p: Prior, k: nat, pins: PinData, root: PinData)
    requires Sound(s, p, k, pins, root)
    ensures |Eligible(Rest(p))| == 63
  {
    EligibleRest(p.frozen.inputs);
  }

  lemma EligibleAround(a: seq<Input>, x: Input, b: seq<Input>)
    requires x.skip == NotSkipped
    ensures |Eligible(a + [x] + b)| == |Eligible(a + b)| + 1
  {
    EligibleConcat(a + [x], b);
    EligibleConcat(a, [x]);
    EligibleConcat(a, b);
    assert Eligible([x]) == [x] by { assert [x][..0] == []; }
  }

  /** Removing the first eligible input removes one eligible input. */
  lemma EligibleRest(inputs: seq<Input>)
    requires DistinctSlots(inputs) && Eligible(inputs) != []
    ensures |Eligible(Keep(inputs, {Eligible(inputs)[0].slot}))| == |Eligible(inputs)| - 1
  {
    hide Eligible, Keep;
    var x := Eligible(inputs)[0];
    EligibleWithin(inputs);
    assert x in Eligible(inputs);
    var i :| 0 <= i < |inputs| && inputs[i] == x;
    var a, b := inputs[..i], inputs[i + 1..];
    assert inputs == a + [x] + b;
    KeepAround(a, [x], b);
    assert SlotSet([x]) == {x.slot};
    EligibleAround(a, x, b);
  }

  /** How many entries after the first one a chain has observed. */
  function Observed(pins: Pins, d: Directory): nat {
    match pins.parent
    case None => 0
    case Some(q) => (if d.prior.None? then 0 else Observed(q, d.prior.value)) + |d.measurements.observations|
  }

  lemma {:induction false} LoadSound(s: Suite, pins: Pins, d: Directory, depth: nat)
    requires Policy(s) && Load(s, pins, d, depth).Some?
    ensures Sound(s, Load(s, pins, d, depth).value, Observed(pins, d), pins.data, RootPins(pins))
    decreases pins
  {
    hide Sound, LoadRoot, LoadNext;
    if pins.parent.None? {
      RootSound(s, pins.data, d);
    } else {
      LoadSound(s, pins.parent.value, d.prior.value, depth + 1);
      var p := Load(s, pins.parent.value, d.prior.value, depth + 1).value;
      NextSound(s, p, Observed(pins.parent.value, d.prior.value), pins, d, RootPins(pins));
    }
  }
}
