/** One charged attempt, its validity, and the cost record that folds nullable token counts
    with 64-bit overflow checks. */
module CloudCost {
  import opened Options
  import opened Sums
  import CanonicalJson

  type Json = CanonicalJson.Json

  const MAX64: int := 0x7FFF_FFFF_FFFF_FFFF
  const MILLISECOND: int := 1_000_000

  datatype Role = Single | ChildA | ChildB | Synthesis | OtherRole
  datatype Phase = Quality | Comparison | OtherPhase
  datatype Outcome = Completed | TransportError | Cancelled | Timeout | InvalidToolProposal | Unavailable | OtherOutcome

  /** Case and context identifiers, input and output hashes are digests: constructors around what is hashed. */
  datatype CaseId = CaseId(original: string) | OtherCase(text: string)
  datatype Context = Shadow(baseline: int, phase: Phase, caseId: CaseId, role: Role) | OtherContext(text: string)
  datatype AttemptId = Native(ordinal: int) | OtherId(text: string)
  datatype InputSha = ModelInput(caseId: CaseId, children: seq<Json>) | OtherSha(content: nat) | NotSha(text: string)

  /** A response of so many bytes, with the value its canonical form stands for when it is JSON at all. */
  datatype Output = Output(bytes: nat, canonical: Option<Json>)

  /** A reported model version: the frozen one, another of its family, another family, or malformed. */
  datatype Version = Expected | SameFamily(revision: nat) | OtherFamily(name: nat) | Malformed(text: string)

  const NULL: Json := CanonicalJson.Leaf(CanonicalJson.Null)
  const VISIBLE_BYTES: nat := 8192

  /** Times are nanoseconds since the zero time. */
  datatype Attempt = Attempt(
    id: AttemptId, caseId: CaseId, context: Context, parent: Option<Context>, role: Role, version: Option<Version>,
    start: int, end: int, ms: int, inputSha: InputSha, output: Output, outcome: Outcome, unsafe: bool,
    input: Option<int>, generated: Option<int>, total: Option<int>, rss: Option<int>)

  predicate NonNegative(n: Option<int>) { n.Some? ==> 0 <= n.value <= MAX64 }

  /** Elapsed whole milliseconds; a difference of times saturates at the largest 64-bit count of nanoseconds. */
  function Wall(start: int, end: int): (ms: int)
    requires start <= end
    ensures end - start <= MAX64 ==> ms * 1_000_000 <= end - start < (ms + 1) * 1_000_000
  {
    (if end - start > MAX64 then MAX64 else end - start) / MILLISECOND
  }

  /** An attempt that can be believed: the measured time is within two milliseconds of the
      timestamps, counts are not negative, and a total is not below its parts. */
  predicate Valid(a: Attempt) {
    && a.id != OtherId("") && a.context != OtherContext("") && a.caseId != OtherCase("")
    && a.start != 0 && a.start <= a.end && 0 <= a.ms <= MAX64 && !a.inputSha.NotSha? && a.output.bytes <= VISIBLE_BYTES
    && -2 <= Wall(a.start, a.end) - a.ms <= 2
    && a.parent != Some(OtherContext("")) && a.version != Some(Malformed(""))
    && a.outcome != Unavailable && a.outcome != OtherOutcome
    && (a.outcome != Completed ==> a.output.canonical == Some(NULL))
    && NonNegative(a.input) && NonNegative(a.generated) && NonNegative(a.total) && NonNegative(a.rss)
    && (a.input.Some? && a.generated.Some? ==>
          && a.input.value + a.generated.value <= MAX64
          && (a.total.Some? ==> a.total.value >= a.input.value + a.generated.value))
  }

  method CheckValid(a: Attempt) returns (ok: bool)
    ensures ok <==> Valid(a)
  {
    if a.id == OtherId("") || a.context == OtherContext("") || a.caseId == OtherCase("") || a.start == 0
      || a.end < a.start || a.ms < 0 || a.ms > MAX64 || a.inputSha.NotSha? || a.output.bytes > VISIBLE_BYTES {
      return false;
    }
    var wall := Wall(a.start, a.end);
    if a.ms - wall > 2 || wall - a.ms > 2 { return false; }
    if a.parent == Some(OtherContext("")) || a.version == Some(Malformed("")) { return false; }
    if a.outcome == Unavailable || a.outcome == OtherOutcome { return false; }
    if a.outcome != Completed && a.output.canonical != Some(NULL) { return false; }
    if !NonNegative(a.input) || !NonNegative(a.generated) || !NonNegative(a.total) || !NonNegative(a.rss) {
      return false;
    }
    if a.input.Some? && a.generated.Some? {
      if a.generated.value > MAX64 - a.input.value { return false; }
      if a.total.Some? && a.total.value < a.input.value + a.generated.value { return false; }
    }
    ok := true;
  }

  // ----- the cost record -----

  datatype Tally = Tally(
    attempts: nat, ms: int, input: int, generated: int, total: int,
    unknownInput: nat, unknownGenerated: nat, unknownTotal: nat, unknownRss: nat, peakRss: int, full: bool)

  const NO_COST: Tally := Tally(0, 0, 0, 0, 0, 0, 0, 0, 0, 0, true)

  class Cost {
    var sums: Tally

    constructor ()
      ensures sums == NO_COST
    {
      sums := NO_COST;
    }

    /** Adds one attempt; refuses, possibly after having counted some of its tokens, when a subtotal would overflow. */
    method Add(a: Attempt) returns (ok: bool)
      modifies this
      ensures ok <==> Fits(old(sums), a)
      ensures ok ==> sums == Plus(old(sums), a)
    {
      var t := sums;
      var known, unknown, full;
      ok, known, unknown, full := AddCount(a.input, t.input, t.unknownInput, t.full);
      if !ok { return; }
      t := t.(input := known, unknownInput := unknown, full := full);
      sums := t;
      ok, known, unknown, full := AddCount(a.generated, t.generated, t.unknownGenerated, t.full);
      if !ok { return; }
      t := t.(generated := known, unknownGenerated := unknown, full := full);
      sums := t;
      ok, known, unknown, full := AddCount(a.total, t.total, t.unknownTotal, t.full);
      if !ok { return; }
      t := t.(total := known, unknownTotal := unknown, full := full);
      sums := t;
      if a.ms > MAX64 - t.ms { return false; }
      t := t.(ms := t.ms + a.ms, attempts := t.attempts + 1);
      if a.rss.None? { t := t.(unknownRss := t.unknownRss + 1); }
      else if a.rss.value > t.peakRss { t := t.(peakRss := a.rss.value); }
      sums := t;
    }
  }

  /** Adds one nullable count to a subtotal, or counts it as unknown. */
  method AddCount(n: Option<int>, total: int, unknown: nat, full: bool) returns (ok: bool, t: int, u: nat, f: bool)
    ensures ok <==> Room(n, total)
    ensures ok ==> t == total + Known(n) && u == unknown + Missing(n) && f == (full && n.Some?)
  {
    ok, t, u, f := true, total, unknown, full;
    if n.None? { u, f := unknown + 1, false; }
    else if n.value > MAX64 - total { ok := false; }
    else { t := total + n.value; }
  }

  function Known(n: Option<int>): int { if n.None? then 0 else n.value }
  function Missing(n: Option<int>): nat { if n.None? then 1 else 0 }

  predicate Room(n: Option<int>, total: int) { n.Some? ==> n.value + total <= MAX64 }

  predicate Fits(t: Tally, a: Attempt) {
    Room(a.input, t.input) && Room(a.generated, t.generated) && Room(a.total, t.total) && a.ms + t.ms <= MAX64
  }

  function Plus(t: Tally, a: Attempt): Tally {
    Tally(t.attempts + 1, t.ms + a.ms, t.input + Known(a.input), t.generated + Known(a.generated),
          t.total + Known(a.total),
          t.unknownInput + Missing(a.input), t.unknownGenerated + Missing(a.generated),
              t.unknownTotal + Missing(a.total),
          t.unknownRss + Missing(a.rss), if a.rss.Some? && a.rss.value > t.peakRss then a.rss.value else t.peakRss,
          t.full && a.input.Some? && a.generated.Some? && a.total.Some?)
  }

  function PlusAll(xs: seq<Attempt>): Tally {
    if xs == [] then NO_COST else Plus(PlusAll(xs[..|xs| - 1]), xs[|xs| - 1])
  }

  // ----- exact sums -----

  function InputOf(a: Attempt): int { Known(a.input) }
  function GeneratedOf(a: Attempt): int { Known(a.generated) }
  function TotalOf(a: Attempt): int { Known(a.total) }
  function MsOf(a: Attempt): int { a.ms }
  function UnknownInputOf(a: Attempt): int { Missing(a.input) }
  function UnknownGeneratedOf(a: Attempt): int { Missing(a.generated) }
  function UnknownTotalOf(a: Attempt): int { Missing(a.total) }
  function UnknownRssOf(a: Attempt): int { Missing(a.rss) }

  /** The largest known memory figure, or zero. */
  ghost predicate Peak(p: int, xs: seq<Attempt>) {
    && p >= 0 && (forall a :: a in xs && a.rss.Some? ==> a.rss.value <= p)
    && (p > 0 ==> exists a :: a in xs && a.rss == Some(p))
  }

  /** The true totals are all representable. */
  ghost predicate Representable(xs: seq<Attempt>) {
    && Sum(xs, InputOf) <= MAX64 && Sum(xs, GeneratedOf) <= MAX64 && Sum(xs, TotalOf) <= MAX64 && Sum(xs, MsOf) <= MAX64
  }

  /** The record is the exact sum in every field. */
  ghost predicate ExactSum(t: Tally, xs: seq<Attempt>) {
    && t.attempts == |xs| && t.ms == Sum(xs, MsOf)
    && t.input == Sum(xs, InputOf) && t.generated == Sum(xs, GeneratedOf) && t.total == Sum(xs, TotalOf)
    && t.unknownInput == Sum(xs, UnknownInputOf) && t.unknownGenerated == Sum(xs, UnknownGeneratedOf)
    && t.unknownTotal == Sum(xs, UnknownTotalOf) && t.unknownRss == Sum(xs, UnknownRssOf) && Peak(t.peakRss, xs)
    && (t.full <==> t.unknownInput == 0 && t.unknownGenerated == 0 && t.unknownTotal == 0)
  }

  lemma {:induction false} PlusAllExact(xs: seq<Attempt>)
    ensures ExactSum(PlusAll(xs), xs)
  {
    if xs != [] {
      var front, a := xs[..|xs| - 1], xs[|xs| - 1];
      PlusAllExact(front);
      PeakGrows(PlusAll(front), front, a);
      assert xs == front + [a];
    }
  }

  lemma PeakGrows(t: Tally, front: seq<Attempt>, a: Attempt)
    requires Peak(t.peakRss, front)
    ensures Peak(Plus(t, a).peakRss, front + [a])
  {
    var p := Plus(t, a).peakRss;
    if p > 0 {
      if p == t.peakRss {
        var x :| x in front && x.rss == Some(p);
        assert x in front + [a];
      } else {
        assert a in front + [a];
      }
    }
  }

  lemma SumsNonNegative(xs: seq<Attempt>)
    requires forall a :: a in xs ==> Valid(a)
    ensures Sum(xs, InputOf) >= 0 && Sum(xs, GeneratedOf) >= 0 && Sum(xs, TotalOf) >= 0 && Sum(xs, MsOf) >= 0
  {
    SumNonNegative(xs, InputOf);
    SumNonNegative(xs, GeneratedOf);
    SumNonNegative(xs, TotalOf);
    SumNonNegative(xs, MsOf);
  }

  /** Folding a list of valid attempts fails exactly when one of the true totals exceeds the
      largest 64-bit integer, and otherwise gives the exact sums. */
  method FoldCost(xs: seq<Attempt>) returns (r: Option<Tally>)
    requires forall a :: a in xs ==> Valid(a)
    ensures r.Some? <==> Representable(xs)
    ensures r.Some? ==> ExactSum(r.value, xs) && r.value == PlusAll(xs)
  {
    hide Representable, PlusAll, Valid, Fits, Plus;
    var cost := new Cost();
    NothingFolded(xs);
    for i := 0 to |xs|
      invariant cost.sums == PlusAll(xs[..i])
      invariant Representable(xs[..i])
    {
      FoldNext(xs, i);
      var ok := cost.Add(xs[i]);
      if !ok {
        TailOnlyAdds(xs, i + 1);
        return None;
      }
    }
    assert xs[..|xs|] == xs;
    PlusAllExact(xs);
    r := Some(cost.sums);
  }

  lemma NothingFolded(xs: seq<Attempt>)
    ensures PlusAll(xs[..0]) == NO_COST && Representable(xs[..0])
  { }

  /** One more attempt fits the subtotals exactly when the true totals stay representable. */
  lemma FoldNext(xs: seq<Attempt>, i: nat)
    requires i < |xs| && Representable(xs[..i])
    ensures PlusAll(xs[..i + 1]) == Plus(PlusAll(xs[..i]), xs[i])
    ensures Fits(PlusAll(xs[..i]), xs[i]) <==> Representable(xs[..i + 1])
  {
    PlusAllExact(xs[..i]);
    assert xs[..i + 1][..i] == xs[..i];
  }

  lemma TailOnlyAdds(xs: seq<Attempt>, i: nat)
    requires (forall a :: a in xs ==> Valid(a)) && i <= |xs| && !Representable(xs[..i])
    ensures !Representable(xs)
  {
    var a, b := xs[..i], xs[i..];
    assert xs == a + b;
    SumConcat(a, b, InputOf);
    SumConcat(a, b, GeneratedOf);
    SumConcat(a, b, TotalOf);
    SumConcat(a, b, MsOf);
    SumsNonNegative(b);
  }

  lemma SameElements<T>(xs: seq<T>, ys: seq<T>)
    requires multiset(xs) == multiset(ys)
    ensures forall a :: a in xs <==> a in ys
  {
    assert forall a :: a in xs <==> a in multiset(xs);
    assert forall a :: a in ys <==> a in multiset(ys);
  }

  lemma PeakPermutes(p: int, xs: seq<Attempt>, ys: seq<Attempt>)
    requires Peak(p, xs) && forall a :: a in xs <==> a in ys
    ensures Peak(p, ys)
  {
    if p > 0 {
      var a :| a in xs && a.rss == Some(p);
      assert a in ys;
    }
  }

  /** The order of the attempts matters neither for failing nor for the sums. */
  lemma CostPermutes(xs: seq<Attempt>, ys: seq<Attempt>, t: Tally)
    requires multiset(xs) == multiset(ys)
    ensures Representable(xs) <==> Representable(ys)
    ensures ExactSum(t, xs) ==> ExactSum(t, ys)
  {
    SumPermutes(xs, ys, InputOf);
    SumPermutes(xs, ys, GeneratedOf);
    SumPermutes(xs, ys, TotalOf);
    SumPermutes(xs, ys, MsOf);
    SumPermutes(xs, ys, UnknownInputOf);
    SumPermutes(xs, ys, UnknownGeneratedOf);
    SumPermutes(xs, ys, UnknownTotalOf);
    SumPermutes(xs, ys, UnknownRssOf);
    assert |xs| == |multiset(xs)| == |ys|;
    SameElements(xs, ys);
    if Peak(t.peakRss, xs) { PeakPermutes(t.peakRss, xs, ys); }
  }

  /** When the full cost is known, the known total covers input and output. */
  lemma {:induction false} FullCostCovers(xs: seq<Attempt>)
    requires (forall a :: a in xs ==> Valid(a)) && PlusAll(xs).full
    ensures Sum(xs, TotalOf) >= Sum(xs, InputOf) + Sum(xs, GeneratedOf)
  {
    if xs != [] {
      assert Valid(xs[|xs| - 1]);
      FullCostCovers(xs[..|xs| - 1]);
    }
  }
}
