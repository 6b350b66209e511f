/** The frozen history a window carries forward: its artifacts, its charged rows and their token subtotals. */
module CloudHistory {
  import opened Options
  import opened Sums
  import opened CloudCost

  /** A retained report: its digest, whether its release is empty or a full commit, and the calls it added. */
  datatype Artifact = Artifact(sha: nat, released: bool, attempts: int)

  /** One charged request of the past, its run and its tokens. */
  datatype Usage = Usage(run: Option<Context>, input: Option<int>, output: Option<int>)

  datatype History = History(attempts: int, known: int, unknown: int, artifacts: seq<Artifact>, usage: seq<Usage>)

  /** The calls each artifact is expected to have added; the last one brings the total to `attempts`. */
  function Counts(attempts: int): seq<int> {
    [3, 2, 4, 4, 5, 2, 1, 0, 1, 5, 10, 0, 2, 2, 4, 183, 20, 18, 2, 11, attempts - 279]
  }

  const SUBTOTAL: int := 0x100_0000_0000

  predicate HeaderOk(h: History) {
    && 280 <= h.attempts <= 283 && h.known == h.attempts - 26 && h.unknown == 26
    && |h.usage| == h.attempts && |h.artifacts| == 21
  }

  predicate ArtifactsOk(h: History)
    requires |h.artifacts| == 21
  {
    && (forall i, j :: 0 <= i < j < 21 ==> h.artifacts[i].sha != h.artifacts[j].sha)
    && forall i :: 0 <= i < 21 ==> h.artifacts[i].released && h.artifacts[i].attempts == Counts(h.attempts)[i]
  }

  function InputOf(u: Usage): int { if u.input.None? then 0 else u.input.value }
  function OutputOf(u: Usage): int { if u.output.None? then 0 else u.output.value }
  function UnknownOf(u: Usage): int { if u.input.None? && u.output.None? then 1 else 0 }
  function AttemptsOf(a: Artifact): int { a.attempts }

  /** Both counts are unknown, or both are known and not negative. */
  predicate Paired(u: Usage) {
    || (u.input.None? && u.output.None?)
    || (u.input.Some? && u.output.Some? && u.input.value >= 0 && u.output.value >= 0)
  }

  function Runs(us: seq<Usage>): set<Context> { set u | u in us && u.run.Some? :: u.run.value }

  ghost predicate UsageOk(us: seq<Usage>) {
    && (forall u :: u in us ==> Paired(u)) && Sum(us, InputOf) <= SUBTOTAL && Sum(us, OutputOf) <= SUBTOTAL
  }

  ghost predicate HistoryOk(h: History) {
    HeaderOk(h) && ArtifactsOk(h) && UsageOk(h.usage) && Sum(h.usage, UnknownOf) == h.unknown
  }

  lemma SumNext<T>(xs: seq<T>, f: T -> int, i: nat)
    requires i < |xs|
    ensures Sum(xs[..i + 1], f) == Sum(xs[..i], f) + f(xs[i])
  {
    assert xs[..i + 1][..i] == xs[..i];
  }

  /** Subtotals only grow, so a history that breaks its bound early breaks it at the end. */
  lemma UsagePrefix(us: seq<Usage>, i: nat)
    requires i <= |us| && UsageOk(us)
    ensures UsageOk(us[..i])
  {
    hide Sum;
    var a, b := us[..i], us[i..];
    assert us == a + b;
    assert forall u :: u in b ==> u in us;
    assert forall u :: u in b ==> Paired(u) && InputOf(u) >= 0 && OutputOf(u) >= 0;
    SumConcat(a, b, InputOf);
    SumConcat(a, b, OutputOf);
    SumNonNegative(b, InputOf);
    SumNonNegative(b, OutputOf);
  }

  method CheckArtifacts(h: History) returns (ok: bool)
    requires |h.artifacts| == 21
    ensures ok <==> ArtifactsOk(h)
  {
    hide Counts;
    CountsLength(h.attempts);
    var shas: set<nat> := {};
    for i := 0 to 21
      invariant forall j :: 0 <= j < i ==> h.artifacts[j].sha in shas
      invariant forall s :: s in shas ==> exists j :: 0 <= j < i && h.artifacts[j].sha == s
      invariant forall j, k :: 0 <= j < k < i ==> h.artifacts[j].sha != h.artifacts[k].sha
      invariant forall j :: 0 <= j < i ==> h.artifacts[j].released && h.artifacts[j].attempts == Counts(h.attempts)[j]
    {
      var a := h.artifacts[i];
      if a.sha in shas || a.attempts != Counts(h.attempts)[i] || !a.released { return false; }
      shas := shas + {a.sha};
    }
    ok := true;
  }

  lemma CountsLength(attempts: int)
    ensures |Counts(attempts)| == 21
  { }

  /** Folds the charged rows; the runs are the contexts no new attempt may use again. */
  method FoldUsage(us: seq<Usage>) returns (ok: bool, runs: set<Context>, unknown: int, input: int, output: int)
    ensures ok <==> UsageOk(us)
    ensures ok ==>
            runs == Runs(us) && unknown == Sum(us, UnknownOf) && input == Sum(us, InputOf)
                && output == Sum(us, OutputOf)
  {
    hide Sum, Runs;
    runs, unknown, input, output := {}, 0, 0, 0;
    NothingUsed();
    for i := 0 to |us|
      invariant UsageOk(us[..i]) && runs == Runs(us[..i]) && unknown == Sum(us[..i], UnknownOf)
      invariant input == Sum(us[..i], InputOf) && output == Sum(us[..i], OutputOf)
    {
      var u := us[i];
      assert us[..i + 1] == us[..i] + [u];
      assert u in us[..i + 1];
      SumNext(us, InputOf, i);
      SumNext(us, OutputOf, i);
      SumNext(us, UnknownOf, i);
      RunsNext(us, i);
      if u.run.Some? { runs := runs + {u.run.value}; }
      if u.input.None? && u.output.None? {
        unknown := unknown + 1;
        continue;
      }
      if u.input.None? || u.output.None? || u.input.value < 0 || u.output.value < 0
        || u.input.value > SUBTOTAL - input || u.output.value > SUBTOTAL - output {
        NotUsable(us, i);
        return false, runs, unknown, input, output;
      }
      input, output := input + u.input.value, output + u.output.value;
    }
    assert us[..|us|] == us;
    ok := true;
  }

  lemma NothingUsed()
    ensures Runs([]) == {} && Sum<Usage>([], UnknownOf) == 0 && Sum<Usage>([], InputOf) == 0
            && Sum<Usage>([], OutputOf) == 0
  { }

  lemma RunsNext(us: seq<Usage>, i: nat)
    requires i < |us|
    ensures Runs(us[..i + 1]) == Runs(us[..i]) + (if us[i].run.Some? then {us[i].run.value} else {})
  {
    assert us[..i + 1] == us[..i] + [us[i]];
  }

  lemma NotUsable(us: seq<Usage>, i: nat)
    requires i < |us| && !UsageOk(us[..i + 1])
    ensures !UsageOk(us)
  {
    if UsageOk(us) { UsagePrefix(us, i + 1); }
  }

  /** Accepts exactly the consistent histories, with the contexts they have spent and both subtotals. */
  method CheckHistory(h: History) returns (ok: bool, spent: set<Context>, input: int, output: int)
    ensures ok <==> HistoryOk(h)
    ensures ok ==> spent == Runs(h.usage) && input == Sum(h.usage, InputOf) && output == Sum(h.usage, OutputOf)
  {
    hide UsageOk, ArtifactsOk, Sum, Runs;
    spent, input, output := {}, 0, 0;
    if h.attempts < 280 || h.attempts > 283 || h.known != h.attempts - 26 || h.unknown != 26
      || |h.usage| != h.attempts || |h.artifacts| != 21 {
      return false, spent, input, output;
    }
    ok := CheckArtifacts(h);
    if !ok { return; }
    var unknown;
    ok, spent, unknown, input, output := FoldUsage(h.usage);
    if !ok { return; }
    ok := unknown == h.unknown;
  }

  /** The calls of an accepted history, artifact by artifact. */
  lemma ArtifactCalls(h: History)
    requires HistoryOk(h)
    ensures h.unknown == 26 && h.known + h.unknown == h.attempts && |h.artifacts| == 21
    ensures h.artifacts[0].attempts == 3 && h.artifacts[1].attempts == 2 && h.artifacts[2].attempts == 4
    ensures h.artifacts[3].attempts == 4 && h.artifacts[4].attempts == 5 && h.artifacts[5].attempts == 2
    ensures h.artifacts[6].attempts == 1 && h.artifacts[7].attempts == 0 && h.artifacts[8].attempts == 1
    ensures h.artifacts[9].attempts == 5 && h.artifacts[10].attempts == 10 && h.artifacts[11].attempts == 0
    ensures h.artifacts[12].attempts == 2 && h.artifacts[13].attempts == 2 && h.artifacts[14].attempts == 4
    ensures h.artifacts[15].attempts == 183 && h.artifacts[16].attempts == 20 && h.artifacts[17].attempts == 18
    ensures h.artifacts[18].attempts == 2 && h.artifacts[19].attempts == 11
    ensures h.artifacts[20].attempts == h.attempts - 279
  {
    hide UsageOk, Sum;
  }

  /** The artifacts of an accepted history account for every one of its attempts. */
  lemma ArtifactsAddUp(h: History)
    requires HistoryOk(h)
    ensures Sum(h.artifacts, AttemptsOf) == h.attempts == |h.usage| && 280 <= h.attempts <= 283
  {
    hide UsageOk, Counts, Sum;
    var c := Counts(h.attempts);
    CountsLength(h.attempts);
    SumPointwise(h.artifacts, c, AttemptsOf, Itself);
    CountsAddUp(h.attempts);
  }

  function Itself(n: int): int { n }

  lemma CountsAddUp(attempts: int)
    ensures Sum(Counts(attempts), Itself) == attempts
  {
    hide Sum;
    var c := Counts(attempts);
    Twenty(c, attempts - 279);
  }

  lemma Twenty(c: seq<int>, last: int)
    requires |c| == 21 && c[20] == last
    ensures Sum(c, Itself) == Five(c[..5]) + Five(c[5..10]) + Five(c[10..15]) + Five(c[15..20]) + last
  {
    hide Sum, Five;
    FiveSums(c[..5]);
    FiveSums(c[5..10]);
    FiveSums(c[10..15]);
    FiveSums(c[15..20]);
    SumOne(last, Itself);
    assert c == c[..5] + (c[5..10] + (c[10..15] + (c[15..20] + [last])));
    SumConcat(c[..5], c[5..10] + (c[10..15] + (c[15..20] + [last])), Itself);
    SumConcat(c[5..10], c[10..15] + (c[15..20] + [last]), Itself);
    SumConcat(c[10..15], c[15..20] + [last], Itself);
    SumConcat(c[15..20], [last], Itself);
  }

  function Five(ns: seq<int>): int
    requires |ns| == 5
  {
    ns[0] + ns[1] + ns[2] + ns[3] + ns[4]
  }

  lemma FiveSums(ns: seq<int>)
    requires |ns| == 5
    ensures Sum(ns, Itself) == Five(ns)
  {
    hide Sum;
    NothingSummed();
    assert ns[..0] == [] && ns[..5] == ns;
    SumNext(ns, Itself, 0);
    SumNext(ns, Itself, 1);
    SumNext(ns, Itself, 2);
    SumNext(ns, Itself, 3);
    SumNext(ns, Itself, 4);
  }

  lemma NothingSummed()
    ensures Sum([], Itself) == 0
  { }
}
