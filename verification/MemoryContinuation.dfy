/** What every accepted chain guarantees, and how an experiment ends: as a completed
    continuation, or under an explicit renewal for the last five inputs. */
module MemoryContinuation {
  import opened Options
  import opened MemoryFreeze
  import opened MemoryChain

  // ----- no slot twice -----

  /** The first paid entry, with planned skips only before it, and everything else in order around it. */
  lemma FirstPaidSplits(inputs: seq<Input>) returns (a: seq<Input>, b: seq<Input>)
    requires DistinctSlots(inputs) && Eligible(inputs) != []
    ensures inputs == a + [Eligible(inputs)[0]] + b && Eligible(a) == []
    ensures Keep(inputs, {Eligible(inputs)[0].slot}) == a + b
  {
    var x := Eligible(inputs)[0];
    var i := FirstEligible(inputs);
    a, b := inputs[..i], inputs[i + 1..];
    assert inputs == a + [x] + b;
    KeepAround(a, [x], b);
    assert SlotSet([x]) == {x.slot};
  }

  lemma {:induction false} FirstEligible(inputs: seq<Input>) returns (i: nat)
    requires Eligible(inputs) != []
    ensures i < |inputs| && inputs[i] == Eligible(inputs)[0] && Eligible(inputs[..i]) == []
  {
    var front := inputs[..|inputs| - 1];
    if Eligible(front) != [] {
      i := FirstEligible(front);
      assert front[..i] == inputs[..i];
    } else {
      i := |inputs| - 1;
    }
  }

  /** In every accepted chain the observed slots are distinct, and with the pending schedule they
      are the whole frozen matrix: the planned skips before the first paid entry, that entry, and
      the rest, of which a prefix is observed and the remainder, in order, is pending. */
  lemma ChainPartition(s: Suite, pins: Pins, d: Directory) returns (a: seq<Input>, b: seq<Input>, k: nat)
    requires Policy(s) && LoadPrior(s, pins, d).Some?
    ensures var p := LoadPrior(s, pins, d).value;
            && p.frozen.inputs == a + [p.paidInput] + b && Eligible(a) == [] && DistinctSlots(p.frozen.inputs)
            && k <= |a + b|
            && Matches(p.measurements.observations, [p.paidInput] + (a + b)[..k])
            && PendingInputs(p) == (a + b)[k..]
            && Lineage(pins) <= 5
  {
    LoadSound(s, pins, d, 0);
    var p, root := LoadPrior(s, pins, d).value, RootPins(pins);
    k := Observed(pins, d);
    a, b := FirstPaidSplits(p.frozen.inputs);
    assert Rest(p) == a + b;
    PendingIsTail(s, p, k, pins.data, root);
  }

  /** No slot is observed twice, and nothing observed is scheduled again. */
  ghost predicate Partitioned(inputs: seq<Input>, os: seq<Observation>, pending: seq<Input>) {
    && (forall i, j :: 0 <= i < j < |os| ==> os[i].slot != os[j].slot)
    && (forall x :: x in pending ==> x.slot !in ObservedSlots(os))
    && (forall x :: x in inputs ==> x in pending || x.slot in ObservedSlots(os))
  }

  lemma NeverResampled(s: Suite, pins: Pins, d: Directory)
    requires Policy(s) && LoadPrior(s, pins, d).Some?
    ensures var p := LoadPrior(s, pins, d).value;
            Partitioned(p.frozen.inputs, p.measurements.observations, PendingInputs(p))
  {
    var a, b, k := ChainPartition(s, pins, d);
    var p := LoadPrior(s, pins, d).value;
    hide LoadPrior, Partitioned, PendingInputs, Matches, DistinctSlots, Eligible;
    PartsPartition(a, p.paidInput, b, k, p.measurements.observations);
  }

  lemma PartsPartition(a: seq<Input>, x: Input, b: seq<Input>, k: nat, os: seq<Observation>)
    requires DistinctSlots(a + [x] + b) && k <= |a + b| && Matches(os, [x] + (a + b)[..k])
    ensures Partitioned(a + [x] + b, os, (a + b)[k..])
  {
    var rest := a + b;
    var seen, left := [x] + rest[..k], rest[k..];
    FrontDistinct(a, x, b);
    MatchedSlots(os, seen);
    assert [x] + rest == seen + left;
    DistinctParts(seen, left);
    hide ObservedSlots;
    forall y | y in left ensures y.slot !in SlotSet(seen) { OutsideSlotsBehind(seen, left, y); }
    forall i, j | 0 <= i < j < |os| ensures os[i].slot != os[j].slot { assert seen[i].slot != seen[j].slot; }
    forall y | y in a + [x] + b ensures y in left || y.slot in SlotSet(seen) {
      assert y == x || y in rest;
      assert rest == rest[..k] + left;
      assert y in left || y in seen;
    }
  }

  lemma FrontDistinct(a: seq<Input>, x: Input, b: seq<Input>)
    requires DistinctSlots(a + [x] + b)
    ensures DistinctSlots([x] + (a + b))
  {
    var all, moved := a + [x] + b, [x] + (a + b);
    forall i, j | 0 <= i < j < |moved| ensures moved[i].slot != moved[j].slot {
      var i' := if i == 0 then |a| else if i <= |a| then i - 1 else i;
      var j' := if j <= |a| then j - 1 else j;
      assert all[i'] == moved[i] && all[j'] == moved[j];
      assert i' != j';
    }
  }

  // ----- calls, units, deadline -----

  /** Native calls are the paid inputs, the auxiliary calls stay 53, the reserved units are the
      root's plus the bound of every later paid input, and the deadline is still the root's. */
  lemma ChainCounters(s: Suite, pins: Pins, d: Directory)
    requires Policy(s) && LoadPrior(s, pins, d).Some?
    ensures var p := LoadPrior(s, pins, d).value;
            && p.audit.native == |p.paidInputs| && p.audit.auxiliary == 53
            && |p.paidInputs| > 0 && p.paidInputs[0] == p.paidInput
            && pins.data.units == RootPins(pins).units + TotalUnits(p.paidInputs[1..]) <= s.maxUnits
            && p.expires == RootPins(pins).expires
  {
    LoadSound(s, pins, d, 0);
    var p := LoadPrior(s, pins, d).value;
    assert p.paidInputs[1..] == Eligible(Rest(p)[..Observed(pins, d)]);
  }

  // ----- expenses -----

  function RootExpenses(pins: Pins, d: Directory): seq<Expense> {
    match pins.parent
    case None => d.measurements.expenses
    case Some(q) => if d.prior.None? then [] else RootExpenses(q, d.prior.value)
  }

  /** Expenses after the first `n` have identifiers that occur nowhere before. */
  ghost predicate OnceAfter(es: seq<Expense>, n: nat) {
    forall i, j :: 0 <= i < j < |es| && n <= j ==> es[i].id != es[j].id
  }

  /** Carried expenses stay an unbroken prefix, and every later one is new. */
  lemma {:induction false} ChainExpenses(s: Suite, pins: Pins, d: Directory, depth: nat)
    requires Load(s, pins, d, depth).Some?
    ensures var es := Load(s, pins, d, depth).value.measurements.expenses;
            RootExpenses(pins, d) <= es && OnceAfter(es, |RootExpenses(pins, d)|)
    decreases pins
  {
    if pins.parent.Some? {
      ChainExpenses(s, pins.parent.value, d.prior.value, depth + 1);
      var p := Load(s, pins.parent.value, d.prior.value, depth + 1).value;
      assert Fresh(p, d.measurements) && Load(s, pins, d, depth).value.measurements == Combined(p, d.measurements);
      AppendedOnce(p.measurements.expenses, d.measurements.expenses, |RootExpenses(pins, d)|);
    }
  }

  lemma AppendedOnce(old_: seq<Expense>, new_: seq<Expense>, n: nat)
    requires OnceAfter(old_, n) && NewIds(old_, new_)
    ensures OnceAfter(old_ + new_, n)
  {
    var all := old_ + new_;
    forall i, j | 0 <= i < j < |all| && n <= j ensures all[i].id != all[j].id {
      if j >= |old_| && i < |old_| { assert old_[i] in old_; }
    }
  }

  // ----- a completed continuation -----

  /** The continuation ran everything that was pending. */
  function CompletedAudit(s: Suite, p: Prior, d: Directory, pins: PinData): Option<Audit> {
    if Pending(p, d.frozen.plan) != Some(d.frozen) || d.runner.None?
      || !RunnerWindow(s, d.ledger, pins.calls, pins.units)
       || d.runner.value.native != 64 - |p.paidInputs| || d.runner.value.auxiliary != 0
       || d.runner.value.questions != 64 - |p.paidInputs|
       || d.ledger[0].expires != p.expires || d.ledger[0].units != WrappedUnits(pins.units, Eligible(d.frozen.inputs))
    then None
    else Some(AddAudit(d.runner.value, p.audit))
  }

  lemma CompletedFromSound(s: Suite, p: Prior, k: nat, pins: PinData, root: PinData, now: Directory)
    requires Policy(s) && Sound(s, p, k, pins, root) && CompletedAudit(s, p, now, pins).Some?
    ensures var audit := CompletedAudit(s, p, now, pins).value;
            && audit.native == 64 == |p.paidInputs| + |Eligible(now.frozen.inputs)| && audit.auxiliary == 53
            && now.ledger[0].expires == root.expires
            && now.ledger[0].units == root.units + TotalUnits(Eligible(Rest(p)))
  {
    hide Rest, Eligible, TotalUnits, WrappedUnits, Keep, DistinctSlots, Matches, PendingInputs;
    PendingIsTail(s, p, k, pins, root);
    MatrixBounded(s, p, k, pins, root);
    var rest := Rest(p);
    assert rest[k..] == rest[k..k + (|rest| - k)] && rest[..k + (|rest| - k)] == rest;
    NextUnits(rest, k, |rest| - k, pins.units);
  }

  /** It ends at exactly 64 native calls, one for every eligible input of the matrix, with every
      bound charged once and the original deadline. */
  lemma CompletedContinuation(s: Suite, pins: Pins, d: Directory, now: Directory)
    requires Policy(s) && LoadPrior(s, pins, d).Some?
    requires CompletedAudit(s, LoadPrior(s, pins, d).value, now, pins.data).Some?
    ensures var p := LoadPrior(s, pins, d).value;
            var audit := CompletedAudit(s, p, now, pins.data).value;
            && audit.native == 64 == |p.paidInputs| + |Eligible(now.frozen.inputs)| && audit.auxiliary == 53
            && now.ledger[0].expires == RootPins(pins).expires
            && now.ledger[0].units == RootPins(pins).units + TotalUnits(Eligible(Rest(p)))
  {
    LoadSound(s, pins, d, 0);
    var p := LoadPrior(s, pins, d).value;
    hide Load, Sound, Eligible, Rest, TotalUnits, Observed, RootPins;
    CompletedFromSound(s, p, Observed(pins, d), pins.data, RootPins(pins), now);
  }

  // ----- the five-input renewal -----

  const MINUTE: int := 60_000_000_000

  datatype Renewal = Renewal(authorized: int, expires: int, prior: Pins, inputs: seq<Input>, window: string,
                             source: string, binary: string, maxNative: int, maxUnits: int)
  datatype RuntimePins = RuntimePins(prior: Option<Pins>, renewal: Option<Renewal>, source: string, release: string,
                                     hardware: string, window: string, binary: string)

  /** A new mandate for exactly the five inputs that were never admitted; `now` is absent in an audit. */
  predicate RenewalAccepted(p: Prior, rp: RuntimePins, f: Schedule, now: Option<int>) {
    && f.plan.source == rp.source && f.plan.commit == rp.release && f.plan.hardware == rp.hardware
    && rp.renewal.Some? && rp.prior.Some?
    && var r, prior := rp.renewal.value, rp.prior.value;
    && r.prior == prior && r.window == rp.window == f.plan.window && r.source == rp.source && r.binary == rp.binary
    && r.inputs == f.inputs && r.maxNative == 5
    && prior.data.calls == p.audit.native + p.audit.auxiliary && prior.data.units > 0
    && Wrap64(prior.data.units + r.maxUnits) <= 4_000_000
    && |p.paidInputs| == 59 && |p.measurements.observations| == 67 && |f.inputs| == 5
    && Pending(p, f.plan) == Some(f)
    && (forall i :: i in f.inputs ==> i.skip == NotSkipped)
    && WrappedUnits(0, f.inputs) == r.maxUnits
    && r.authorized < r.expires <= r.authorized + 30 * MINUTE && p.expires < r.authorized
    && (now.Some? ==> r.authorized <= now.value < r.expires)
  }

  /** The units of the mandated inputs, none of which may be a planned skip. */
  method MandateUnits(inputs: seq<Input>) returns (r: Option<int>)
    ensures r == if forall i :: i in inputs ==> i.skip == NotSkipped then Some(WrappedUnits(0, inputs)) else None
  {
    var units := 0;
    for n := 0 to |inputs|
      invariant units == WrappedUnits(0, inputs[..n]) && forall i :: i in inputs[..n] ==> i.skip == NotSkipped
    {
      assert inputs[..n + 1][..n] == inputs[..n] && inputs[..n + 1] == inputs[..n] + [inputs[n]];
      if inputs[n].skip != NotSkipped {
        assert inputs[n] in inputs;
        return None;
      }
      units := Wrap64(units + NativeUnits(inputs[n]));
    }
    assert inputs[..|inputs|] == inputs;
    r := Some(units);
  }

  method ValidateRenewal(p: Prior, rp: RuntimePins, f: Schedule, now: Option<int>) returns (expires: Option<int>)
    ensures expires.Some? <==> RenewalAccepted(p, rp, f, now)
    ensures expires.Some? ==> expires.value == rp.renewal.value.expires
  {
    if f.plan.source != rp.source || f.plan.commit != rp.release || f.plan.hardware != rp.hardware { return None; }
    if rp.renewal.None? || rp.prior.None? { return None; }
    var r, prior := rp.renewal.value, rp.prior.value;
    if r.prior != prior || r.window != rp.window || r.window != f.plan.window || r.source != rp.source
      || r.binary != rp.binary
       || r.inputs != f.inputs || r.maxNative != 5 || prior.data.calls != p.audit.native + p.audit.auxiliary
       || prior.data.units <= 0 || Wrap64(prior.data.units + r.maxUnits) > 4_000_000
       || |p.paidInputs| != 59 || |p.measurements.observations| != 67 || |f.inputs| != 5 { return None; }
    var want := PendingSchedule(p, f.plan);
    if want != Some(f) { return None; }
    var charge := MandateUnits(f.inputs);
    if charge.None? { return None; }
    var units := charge.value;
    if units != r.maxUnits || r.expires <= r.authorized || r.expires - r.authorized > 30 * MINUTE
      || r.authorized <= p.expires
       || (now.Some? && (now.value < r.authorized || now.value >= r.expires)) { return None; }
    expires := Some(r.expires);
  }

  function CompletedCount(os: seq<Observation>): nat {
    if os == [] then 0 else CompletedCount(os[..|os| - 1]) + if os[|os| - 1].status == Completed then 1 else 0
  }

  /** `clean` says for each observation whether its failure events are a clean availability failure. */
  predicate RenewedAudit(s: Suite, p: Prior, rp: RuntimePins, d: Directory, clean: seq<bool>) {
    && RenewalAccepted(p, rp, d.frozen, None)
    && var os, prior := d.measurements.observations, rp.prior.value.data;
    && |os| == |d.frozen.inputs| == |clean|
    && (forall n :: 0 <= n < |os| ==>
          Observes(os[n], d.frozen.inputs[n]) && (os[n].status == Completed || (os[n].status == Failed && clean[n])))
    && d.runner.Some? && RunnerWindow(s, d.ledger, prior.calls, prior.units)
    && d.runner.value.native == 5 && d.runner.value.auxiliary == 0 && d.runner.value.questions == CompletedCount(os)
    && d.ledger[0].expires == rp.renewal.value.expires
    && d.ledger[0].units == Wrap64(prior.units + rp.renewal.value.maxUnits)
  }

  ghost predicate Complete(p: Prior, root: PinData, rp: RuntimePins, now: Directory)
    requires now.runner.Some? && |now.ledger| == 1 && rp.renewal.Some?
  {
    && AddAudit(now.runner.value, p.audit).native == 64 && AddAudit(now.runner.value, p.audit).auxiliary == 53
    && |p.frozen.inputs| == 72
    && Matches(p.measurements.observations + now.measurements.observations, [p.paidInput] + Rest(p))
    && now.ledger[0].units == root.units + TotalUnits(Eligible(Rest(p))) <= 4_000_000
    && root.expires == p.expires < rp.renewal.value.authorized
  }

  lemma LastFive(p: Prior, rest: seq<Input>, m: Measurements, inputs: seq<Input>)
    requires |rest| == 71 && inputs == rest[66..] && Matches(p.measurements.observations, [p.paidInput] + rest[..66])
    requires |m.observations| == 5 && forall n :: 0 <= n < 5 ==> Observes(m.observations[n], inputs[n])
    ensures Matches(p.measurements.observations + m.observations, [p.paidInput] + rest)
  {
    var os, xs := p.measurements.observations + m.observations, [p.paidInput] + rest;
    forall i | 0 <= i < |os| ensures Observes(os[i], xs[i]) {
      if i < 67 {
        assert xs[i] == ([p.paidInput] + rest[..66])[i];
      } else {
        assert xs[i] == inputs[i - 67];
      }
    }
  }

  lemma RenewalSizes(s: Suite, p: Prior, k: nat, pins: PinData, root: PinData)
    requires Sound(s, p, k, pins, root) && |p.measurements.observations| == 67 && |PendingInputs(p)| == 5
    ensures k == 66 && |Rest(p)| == 71 && |p.frozen.inputs| == 72 && PendingInputs(p) == Rest(p)[66..]
  {
    PendingIsTail(s, p, k, pins, root);
    var a, b := FirstPaidSplits(p.frozen.inputs);
    assert Rest(p) == a + b;
  }

  /** The mandated units are those of the pending inputs, and the total did not wrap. */
  lemma RenewalUnits(rest: seq<Input>, units: int, root: int)
    requires |rest| == 71 && |Eligible(rest)| == 63 && 0 < units <= 4_000_000
    requires (forall i :: i in rest[66..] ==> i.skip == NotSkipped) && units == root + TotalUnits(Eligible(rest[..66]))
    ensures Wrap64(units + WrappedUnits(0, rest[66..])) == root + TotalUnits(Eligible(rest))
  {
    hide Eligible, TotalUnits, WrappedUnits;
    var last := rest[66..];
    assert last == rest[66..66 + 5] && rest[..66 + 5] == rest;
    AllEligible(last);
    NextUnits(rest, 66, 5, units);
    UnitsExact(0, last);
  }

  lemma RenewalFromSound(s: Suite, p: Prior, k: nat, root: PinData, rp: RuntimePins, now: Directory, clean: seq<bool>)
    requires Policy(s) && rp.prior.Some? && Sound(s, p, k, rp.prior.value.data, root)
             && RenewedAudit(s, p, rp, now, clean)
    ensures Complete(p, root, rp, now)
  {
    hide Rest, Eligible, TotalUnits, WrappedUnits, Keep, DistinctSlots, Matches, PendingInputs, Wrap64;
    var pins, rest := rp.prior.value.data, Rest(p);
    RenewalSizes(s, p, k, pins, root);
    MatrixBounded(s, p, k, pins, root);
    RenewalUnits(rest, pins.units, root.units);
    LastFive(p, rest, now.measurements, now.frozen.inputs);
  }

  /** The renewal ends at exactly 64 native calls and covers the whole matrix of 72 inputs: every slot
      is observed exactly once, and the units are the root's plus every later eligible input's. */
  lemma RenewalCompletes(s: Suite, rp: RuntimePins, d: Directory, now: Directory, clean: seq<bool>)
    requires Policy(s) && rp.prior.Some? && LoadPrior(s, rp.prior.value, d).Some?
    requires RenewedAudit(s, LoadPrior(s, rp.prior.value, d).value, rp, now, clean)
    ensures Complete(LoadPrior(s, rp.prior.value, d).value, RootPins(rp.prior.value), rp, now)
  {
    var pins := rp.prior.value;
    LoadSound(s, pins, d, 0);
    var p := LoadPrior(s, pins, d).value;
    hide Load, Sound, Observed, RootPins, Complete;
    RenewalFromSound(s, p, Observed(pins, d), RootPins(pins), rp, now, clean);
  }

  lemma {:induction false} AllEligible(inputs: seq<Input>)
    requires forall i :: i in inputs ==> i.skip == NotSkipped
    ensures Eligible(inputs) == inputs
  {
    if inputs != [] {
      var front := inputs[..|inputs| - 1];
      assert inputs == front + [inputs[|inputs| - 1]];
      AllEligible(front);
    }
  }
}
