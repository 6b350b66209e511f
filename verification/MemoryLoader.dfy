/** The recursive loader of retained prefixes, written with the checking loops and proved
    to accept exactly the chains of the specification. */
module MemoryLoader {
  import opened Options
  import opened MemoryFreeze
  import opened MemoryChain

  method AuditPrefix(s: Suite, p: Prior, d: Directory, parent: PinData) returns (r: Option<Audit>)
    ensures r == PrefixAudit(s, p, d, parent)
  {
    hide Eligible, SealedPrefix, Pending;
    var expected := PendingSchedule(p, d.frozen.plan);
    var paid := CompletedPrefix(d.frozen, d.measurements);
    if expected != Some(d.frozen) || paid.None? || paid.value == [] { return None; }
    if d.runner.None? || |d.ledger| != 1 || d.ledger[0].calls < parent.calls || d.ledger[0].calls > s.maxCalls
      || d.ledger[0].units < parent.units || d.ledger[0].units > s.maxUnits {
      return None;
    }
    var a, n := d.runner.value, |paid.value|;
    if a.native != n || a.auxiliary != 0 || a.questions != n - 1 { return None; }
    var units := parent.units;
    for i := 0 to n
      invariant units == WrappedUnits(parent.units, paid.value[..i])
    {
      assert paid.value[..i + 1][..i] == paid.value[..i];
      units := Wrap64(units + NativeUnits(paid.value[i]));
    }
    assert paid.value[..n] == paid.value;
    if d.ledger[0].expires != p.expires || d.ledger[0].units != units { return None; }
    r := Some(AddAudit(a, p.audit));
  }

  method KeepEligible(inputs: seq<Input>) returns (eligible: seq<Input>)
    ensures eligible == Eligible(inputs)
  {
    eligible := [];
    for i := 0 to |inputs|
      invariant eligible == Eligible(inputs[..i])
    {
      assert inputs[..i + 1][..i] == inputs[..i];
      if inputs[i].skip == NotSkipped { eligible := eligible + [inputs[i]]; }
    }
    assert inputs[..|inputs|] == inputs;
  }

  method Root(s: Suite, pins: PinData, d: Directory) returns (r: Option<Prior>)
    ensures r == LoadRoot(s, pins, d)
  {
    hide Eligible, Frozen;
    var canonical := FreezeMemory(s.cases, d.frozen.plan, d.frozen.captures);
    var inputs := d.frozen.inputs;
    if canonical != Some(inputs) || d.frozen.sha != ScheduleSha(d.frozen.plan, inputs, d.frozen.captures)
       || d.frozen.plan.source != pins.source || d.frozen.plan.commit != pins.commit
       || |d.measurements.observations| != 1 || |d.frozen.captures| != 22 { return None; }
    if |d.ledger| != 1 || d.ledger[0].calls != pins.calls || d.ledger[0].units != pins.units
      || d.ledger[0].expires != pins.expires {
      return None;
    }
    var eligible := KeepEligible(inputs);
    var o := d.measurements.observations[0];
    if |eligible| != 64 || o.slot != eligible[0].slot || o.input != InputSha(eligible[0]) || o.status != Failed {
      return None;
    }
    if d.runner.None? || d.ledger[0].calls < 0 || d.ledger[0].calls > s.maxCalls || d.ledger[0].units < 0
      || d.ledger[0].units > s.maxUnits || d.runner.value.native != 1
      || d.runner.value.auxiliary != 53
       || pins.calls != 54 || pins.units <= 0 { return None; }
    r := Some(Prior(d.frozen, d.measurements, d.runner.value, pins.expires, eligible[0], [eligible[0]]));
  }

  method Next(s: Suite, p: Prior, pins: Pins, d: Directory) returns (r: Option<Prior>)
    requires pins.parent.Some?
    ensures r == LoadNext(s, p, pins, d)
  {
    var audit := AuditPrefix(s, p, d, pins.parent.value.data);
    if audit.None? { return None; }
    var combined := Combine(p, d.measurements);
    if combined.None? || d.comparisonFrozen != p.frozen || d.comparisonMeasurements != combined.value { return None; }
    var paid := CompletedPrefix(d.frozen, d.measurements);
    var w := d.ledger[0];
    if w.calls != pins.data.calls || w.units != pins.data.units || w.expires != pins.data.expires
      || pins.data.expires != p.expires {
      return None;
    }
    r := Some(p.(measurements := combined.value, audit := audit.value, paidInputs := p.paidInputs + paid.value));
  }

  method LoadAt(s: Suite, pins: Pins, d: Directory, depth: nat) returns (r: Option<Prior>)
    ensures r == Load(s, pins, d, depth)
    decreases pins
  {
    hide LoadRoot, LoadNext;
    if depth >= 5 || d.ledger != pins.data.ledger || d.frozen != pins.data.frozen
      || d.measurements != pins.data.measurements {
      return None;
    }
    if pins.parent.None? {
      r := Root(s, pins.data, d);
      return;
    }
    if d.frozen.plan.source != pins.data.source || d.frozen.plan.commit != pins.data.commit || d.prior.None? {
      return None;
    }
    var parent := LoadAt(s, pins.parent.value, d.prior.value, depth + 1);
    if parent.None? { return None; }
    r := Next(s, parent.value, pins, d);
  }

  /** Counts the lineage before anything is read; more than five prefixes are refused. */
  method LoadMemoryPrior(s: Suite, pins: Pins, d: Directory) returns (r: Option<Prior>)
    ensures r == LoadPrior(s, pins, d)
  {
    var count, item := 1, pins;
    while item.parent.Some?
      invariant count + Lineage(item) == Lineage(pins) + 1 && 1 <= count <= 5
      decreases item
    {
      item := item.parent.value;
      count := count + 1;
      if count > 5 { return None; }
    }
    r := LoadAt(s, pins, d, 0);
  }
}
