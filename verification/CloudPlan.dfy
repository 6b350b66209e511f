/** The frozen corpus, the counts its inventory is checked for, and the plan of 252 calls made from it. */
module CloudPlan {
  import opened Options
  import opened CloudCost
  import opened Sides
  import opened CloudGrade
  import ResponseCheck

  datatype Split = Development | Tuning | Holdout | OtherSplit

  datatype Provenance = SyntheticPublic | SyntheticSecret | OtherProvenance

  datatype Group = Group(id: string, split: Split, semantic: string, attack: string, provenance: Provenance)

  /** `input` is a length in bytes. */
  datatype Case = Case(
    id: string, group: string, kind: Kind, input: nat, documents: Option<ResponseCheck.Documents>, golden: Output,
    noModel: bool)

  /** The two kinds of family a group belongs to. */
  datatype Family = Semantic(name: string) | Attack(name: string)

  datatype Corpus = Corpus(groups: seq<Group>, cases: seq<Case>, comparison: seq<string>)

  const KINDS: seq<Kind> :=
      [ResponseCheck.Retrieval, ResponseCheck.Extraction, ResponseCheck.Classification, ResponseCheck.Commands]

  // ----- counting -----

  function Count<T>(xs: seq<T>, p: T -> bool): nat {
    if xs == [] then 0 else Count(xs[..|xs| - 1], p) + (if p(xs[|xs| - 1]) then 1 else 0)
  }

  lemma CountNext<T>(xs: seq<T>, i: nat, p: T -> bool)
    requires i < |xs|
    ensures Count(xs[..i + 1], p) == Count(xs[..i], p) + (if p(xs[i]) then 1 else 0)
  {
    assert xs[..i + 1][..i] == xs[..i];
  }

  /** Two halves of a condition that exclude each other. */
  lemma {:induction false} CountSplits<T>(xs: seq<T>, p: T -> bool, q: T -> bool, r: T -> bool)
    requires forall x :: x in xs ==> (r(x) <==> p(x) || q(x)) && !(p(x) && q(x))
    ensures Count(xs, r) == Count(xs, p) + Count(xs, q)
  {
    if xs != [] {
      assert xs[|xs| - 1] in xs;
      CountSplits(xs[..|xs| - 1], p, q, r);
    }
  }

  function At<K>(m: map<K, nat>, k: K): nat { if k in m then m[k] else 0 }

  // ----- the inventory -----

  function InSplit(split: Split): Group -> bool { (g: Group) => g.split == split }
  function InCell(group: string, kind: Kind): Case -> bool { (c: Case) => c.group == group && c.kind == kind }
  function Blocked(): Case -> bool { (c: Case) => c.noModel }
  function EligibleIn(table: map<string, Group>, split: Split): Case -> bool {
    (c: Case) => !c.noModel && SplitIn(table, c) == split
  }

  function GroupTable(groups: seq<Group>): map<string, Group> {
    if groups == [] then map[] else GroupTable(groups[..|groups| - 1])[groups[|groups| - 1].id := groups[|groups| - 1]]
  }
  function CaseTable(cases: seq<Case>): map<string, Case> {
    if cases == [] then map[] else CaseTable(cases[..|cases| - 1])[cases[|cases| - 1].id := cases[|cases| - 1]]
  }
  function SplitIn(table: map<string, Group>, c: Case): Split
  {
    if c.group in table then table[c.group].split else OtherSplit
  }

  predicate DistinctGroups(groups: seq<Group>) {
    forall i, j :: 0 <= i < j < |groups| ==> groups[i].id != groups[j].id
  }
  predicate DistinctCases(cases: seq<Case>) {
    forall i, j :: 0 <= i < j < |cases| ==> cases[i].id != cases[j].id
  }

  ghost predicate SoundGroup(g: Group) {
    g.id != "" && g.semantic != "" && g.attack != "" && g.provenance != OtherProvenance && g.split != OtherSplit
  }

  /** The families of the groups, each with the group's split. */
  function Families(groups: seq<Group>): seq<(Family, Split)> {
    if groups == [] then [] else
      var g := groups[|groups| - 1];
      Families(groups[..|groups| - 1]) + [(Semantic(g.semantic), g.split), (Attack(g.attack), g.split)]
  }

  ghost predicate SoundGroups(groups: seq<Group>) {
    DistinctGroups(groups) && (forall g :: g in groups ==> SoundGroup(g))
  }

  /** Cases of a secret group with documents, and only they, are kept from the model, and all are in the holdout. */
  ghost predicate SoundCase(table: map<string, Group>, c: Case) {
    && c.group in table && c.id != "" && 0 < c.input <= 32768 && c.golden.bytes <= VISIBLE_BYTES
    && c.kind != ResponseCheck.OtherKind && c.documents.Some? && ResponseCheck.Admissible(c.documents.value)
    && GoldenPasses(c.kind, c.documents.value, c.golden)
    && (c.noModel <==> table[c.group].provenance == SyntheticSecret && |c.documents.value| > 0)
    && (c.noModel ==> table[c.group].split == Holdout)
  }

  ghost predicate SoundCases(table: map<string, Group>, cases: seq<Case>) {
    DistinctCases(cases) && forall c :: c in cases ==> SoundCase(table, c)
  }

  ghost predicate SoundComparison(table: map<string, Group>, byId: map<string, Case>, id: string) {
    id in byId && !byId[id].noModel && SplitIn(table, byId[id]) == Development
  }

  ghost predicate Comparable(table: map<string, Group>, byId: map<string, Case>, ids: seq<string>) {
    && (forall id :: id in ids ==> SoundComparison(table, byId, id))
    && forall i, j :: 0 <= i < j < |ids| ==> ids[i] in byId && ids[j] in byId && byId[ids[i]].kind != byId[ids[j]].kind
  }

  predicate GroupCounts(groups: seq<Group>) {
    && Count(groups, InSplit(Development)) == 12 && Count(groups, InSplit(Tuning)) == 8
    && Count(groups, InSplit(Holdout)) == 10
  }

  predicate CellCounts(groups: seq<Group>, cases: seq<Case>) {
    forall g, k :: g in groups && k in KINDS ==> Count(cases, InCell(g.id, k)) == 2
  }

  predicate CaseCounts(table: map<string, Group>, cases: seq<Case>) {
    && Count(cases, Blocked()) == 4 && Count(cases, EligibleIn(table, Development)) == 96
    && Count(cases, EligibleIn(table, Tuning)) == 64 && Count(cases, EligibleIn(table, Holdout)) == 76
  }

  ghost predicate ValidCorpus(corpus: Corpus) {
    && |corpus.groups| == 30 && |corpus.cases| == 240 && |corpus.comparison| == 4
    && SoundGroups(corpus.groups) && OneSided(Families(corpus.groups)) && GroupCounts(corpus.groups)
    && SoundCases(GroupTable(corpus.groups), corpus.cases) && CellCounts(corpus.groups, corpus.cases)
    && CaseCounts(GroupTable(corpus.groups), corpus.cases)
    && Comparable(GroupTable(corpus.groups), CaseTable(corpus.cases), corpus.comparison)
  }

  lemma {:induction false} GroupTableKeys(groups: seq<Group>)
    ensures forall id :: id in GroupTable(groups) <==> exists g :: g in groups && g.id == id
  {
    if groups != [] {
      var front, last := groups[..|groups| - 1], groups[|groups| - 1];
      GroupTableKeys(front);
      assert groups == front + [last];
      assert last in groups;
    }
  }

  lemma {:induction false} CaseTableKeys(cases: seq<Case>)
    ensures forall id :: id in CaseTable(cases) <==> exists c :: c in cases && c.id == id
    ensures forall id :: id in CaseTable(cases) ==> CaseTable(cases)[id] in cases && CaseTable(cases)[id].id == id
    ensures DistinctCases(cases) ==> forall c :: c in cases ==> CaseTable(cases)[c.id] == c
  {
    if cases != [] {
      var front, last := cases[..|cases| - 1], cases[|cases| - 1];
      CaseTableKeys(front);
      assert cases == front + [last];
      assert last in cases;
    }
  }

  // ----- checking the inventory -----

  /** The table and the counters agree with the groups read so far. */
  ghost predicate Grouped(groups: seq<Group>, table: map<string, Group>, counts: map<Split, nat>) {
    table == GroupTable(groups) && forall s :: At(counts, s) == Count(groups, InSplit(s))
  }

  lemma NextGrouped(groups: seq<Group>, table: map<string, Group>, counts: map<Split, nat>, i: nat)
    requires i < |groups| && Grouped(groups[..i], table, counts)
    ensures var g := groups[i];
            Grouped(groups[..i + 1], table[g.id := g], counts[g.split := At(counts, g.split) + 1])
  {
    assert groups[..i + 1][..i] == groups[..i];
    forall s ensures At(counts[groups[i].split := At(counts, groups[i].split) + 1], s)
        == Count(groups[..i + 1], InSplit(s)) {
      CountNext(groups, i, InSplit(s));
    }
  }

  lemma SoundGroupNext(groups: seq<Group>, i: nat)
    requires i < |groups| && SoundGroups(groups[..i])
    ensures SoundGroups(groups[..i + 1]) <==> SoundGroup(groups[i]) && groups[i].id !in GroupTable(groups[..i])
    ensures SoundGroups(groups) ==> SoundGroups(groups[..i + 1])
  {
    hide SoundGroup;
    var g, next := groups[i], groups[..i + 1];
    GroupTableKeys(groups[..i]);
    assert next == groups[..i] + [g];
    assert g in next;
    assert forall x :: x in next ==> x in groups;
    if g.id in GroupTable(groups[..i]) {
      var h :| h in groups[..i] && h.id == g.id;
      var j :| 0 <= j < i && groups[j] == h;
      assert next[j].id == next[i].id;
    }
  }

  lemma GroupedTable(groups: seq<Group>, table: map<string, Group>, counts: map<Split, nat>)
    requires Grouped(groups, table, counts)
    ensures table == GroupTable(groups)
  { }

  lemma {:induction false} FamiliesPrefix(groups: seq<Group>, i: nat)
    requires i <= |groups|
    ensures Families(groups[..i]) <= Families(groups)
  {
    if i == |groups| {
      assert groups[..i] == groups;
    } else {
      assert groups[..|groups| - 1][..i] == groups[..i];
      FamiliesPrefix(groups[..|groups| - 1], i);
    }
  }

  lemma FamiliesNext(groups: seq<Group>, i: nat)
    requires i < |groups|
    ensures var g := groups[i];
            && Families(groups[..i + 1])
               == Families(groups[..i]) + [(Semantic(g.semantic), g.split)] + [(Attack(g.attack), g.split)]
            && (OneSided(Families(groups)) ==>
                  && OneSided(Families(groups[..i]) + [(Semantic(g.semantic), g.split)])
                  && OneSided(Families(groups[..i + 1])))
  {
    hide OneSided;
    assert groups[..i + 1][..i] == groups[..i];
    FamiliesPrefix(groups, i + 1);
    var all, next := Families(groups), Families(groups[..i + 1]);
    if OneSided(all) {
      OneSidedPrefix(next, all);
      OneSidedPrefix(Families(groups[..i]) + [(Semantic(groups[i].semantic), groups[i].split)], all);
    }
  }

  /** Files the groups by name, counts them by split, and refuses a family found in two splits. */
  method IndexGroups(groups: seq<Group>) returns (ok: bool, table: map<string, Group>, counts: map<Split, nat>)
    ensures ok <==> SoundGroups(groups) && OneSided(Families(groups))
    ensures ok ==> Grouped(groups, table, counts)
  {
    table, counts := map[], map[];
    var sides: map<Family, Split> := map[];
    for i := 0 to |groups|
      invariant Grouped(groups[..i], table, counts) && SoundGroups(groups[..i])
      invariant Noted(sides, Families(groups[..i])) && OneSided(Families(groups[..i]))
    {
      hide Grouped, SoundGroups, GroupTable, Families, OneSided, Noted;
      var g := groups[i];
      SoundGroupNext(groups, i);
      GroupedTable(groups[..i], table, counts);
      FamiliesNext(groups, i);
      if g.id in table || g.id == "" || g.semantic == "" || g.attack == "" || g.provenance == OtherProvenance
        || g.split == OtherSplit {
        return false, table, counts;
      }
      ok, sides := Note(sides, Families(groups[..i]), Semantic(g.semantic), g.split);
      if !ok { return; }
      ok, sides := Note(sides, Families(groups[..i]) + [(Semantic(g.semantic), g.split)], Attack(g.attack), g.split);
      if !ok { return; }
      NextGrouped(groups, table, counts, i);
      table, counts := table[g.id := g], counts[g.split := At(counts, g.split) + 1];
    }
    assert groups[..|groups|] == groups;
    ok := true;
  }

  datatype Index = Index(byId: map<string, Case>, cells: map<(string, Kind), nat>, blocked: nat,
                         eligible: map<Split, nat>)

  /** The counters agree with the cases read so far. */
  ghost predicate Counted(x: Index, table: map<string, Group>, cases: seq<Case>) {
    && x.byId == CaseTable(cases) && x.blocked == Count(cases, Blocked())
    && (forall s :: At(x.eligible, s) == Count(cases, EligibleIn(table, s)))
    && forall g, k :: At(x.cells, (g, k)) == Count(cases, InCell(g, k))
  }

  function Next(x: Index, split: Split, c: Case): Index {
    Index(x.byId[c.id := c], x.cells[(c.group, c.kind) := At(x.cells, (c.group, c.kind)) + 1],
          if c.noModel then x.blocked + 1 else x.blocked,
          if c.noModel then x.eligible else x.eligible[split := At(x.eligible, split) + 1])
  }

  lemma NextCounted(x: Index, table: map<string, Group>, cases: seq<Case>, i: nat)
    requires i < |cases| && Counted(x, table, cases[..i]) && cases[i].group in table
    ensures Counted(Next(x, table[cases[i].group].split, cases[i]), table, cases[..i + 1])
  {
    var c, y := cases[i], Next(x, table[cases[i].group].split, cases[i]);
    assert cases[..i + 1][..i] == cases[..i];
    CountNext(cases, i, Blocked());
    forall s ensures At(y.eligible, s) == Count(cases[..i + 1], EligibleIn(table, s)) {
      CountNext(cases, i, EligibleIn(table, s));
    }
    forall g, k ensures At(y.cells, (g, k)) == Count(cases[..i + 1], InCell(g, k)) {
      CountNext(cases, i, InCell(g, k));
    }
  }

  lemma SoundNext(table: map<string, Group>, cases: seq<Case>, i: nat)
    requires i < |cases| && SoundCases(table, cases[..i])
    ensures SoundCases(table, cases[..i + 1]) <==> SoundCase(table, cases[i]) && cases[i].id !in CaseTable(cases[..i])
  {
    hide SoundCase;
    var c := cases[i];
    CaseTableKeys(cases[..i]);
    assert cases[..i + 1] == cases[..i] + [c];
    assert c in cases[..i + 1];
    if c.id in CaseTable(cases[..i]) {
      var d :| d in cases[..i] && d.id == c.id;
      var j :| 0 <= j < i && cases[j] == d;
      assert cases[..i + 1][j].id == cases[..i + 1][i].id;
    }
  }

  lemma SoundPrefix(table: map<string, Group>, cases: seq<Case>, i: nat)
    requires i <= |cases|
    ensures SoundCases(table, cases) ==> SoundCases(table, cases[..i])
  {
    assert forall c :: c in cases[..i] ==> c in cases;
  }

  lemma CountedTable(x: Index, table: map<string, Group>, cases: seq<Case>)
    requires Counted(x, table, cases)
    ensures x.byId == CaseTable(cases)
  { }

  method IndexCases(table: map<string, Group>, cases: seq<Case>) returns (ok: bool, x: Index)
    ensures ok <==> SoundCases(table, cases)
    ensures ok ==> Counted(x, table, cases)
  {
    x := Index(map[], map[], 0, map[]);
    for i := 0 to |cases|
      invariant SoundCases(table, cases[..i]) && Counted(x, table, cases[..i])
    {
      hide SoundCases, SoundCase, Counted, Next;
      var c := cases[i];
      SoundNext(table, cases, i);
      CountedTable(x, table, cases[..i]);
      SoundPrefix(table, cases, i + 1);
      var sound := CheckCase(table, c);
      if c.id in x.byId || !sound { return false, x; }
      SoundCaseGroup(table, c);
      NextCounted(x, table, cases, i);
      x := Next(x, table[c.group].split, c);
    }
    assert cases[..|cases|] == cases;
    ok := true;
  }

  lemma SoundCaseGroup(table: map<string, Group>, c: Case)
    requires SoundCase(table, c)
    ensures c.group in table
  { }

  method CheckCase(table: map<string, Group>, c: Case) returns (ok: bool)
    ensures ok <==> SoundCase(table, c)
  {
    hide GoldenPasses, ResponseCheck.Admissible;
    if c.group !in table || c.id == "" || c.input == 0 || c.input > 32768 || c.golden.bytes > VISIBLE_BYTES {
      return false;
    }
    if c.kind == ResponseCheck.OtherKind || c.documents.None? || !ResponseCheck.Admissible(c.documents.value) {
      return false;
    }
    if !GoldenPasses(c.kind, c.documents.value, c.golden) { return false; }
    var g := table[c.group];
    if c.noModel {
      ok := g.provenance == SyntheticSecret && |c.documents.value| > 0 && g.split == Holdout;
    } else {
      ok := g.provenance != SyntheticSecret || |c.documents.value| == 0;
    }
  }

  /** Two cases of every kind in every group. */
  method CheckCells(groups: seq<Group>, cells: map<(string, Kind), nat>) returns (ok: bool)
    ensures ok <==> forall g, k :: g in groups && k in KINDS ==> At(cells, (g.id, k)) == 2
  {
    for i := 0 to |groups|
      invariant forall g, k :: g in groups[..i] && k in KINDS ==> At(cells, (g.id, k)) == 2
    {
      for j := 0 to |KINDS|
        invariant forall k :: k in KINDS[..j] ==> At(cells, (groups[i].id, k)) == 2
      {
        if At(cells, (groups[i].id, KINDS[j])) != 2 {
          assert groups[i] in groups && KINDS[j] in KINDS;
          return false;
        }
      }
      assert KINDS[..|KINDS|] == KINDS;
    }
    ok := true;
  }

  method CheckComparison(table: map<string, Group>, byId: map<string, Case>, ids: seq<string>) returns (ok: bool)
    ensures ok <==> Comparable(table, byId, ids)
  {
    var kinds: set<Kind> := {};
    for i := 0 to |ids|
      invariant Comparable(table, byId, ids[..i])
      invariant forall j :: 0 <= j < i ==> ids[j] in byId && byId[ids[j]].kind in kinds
      invariant forall k :: k in kinds ==> exists j :: 0 <= j < i && ids[j] in byId && byId[ids[j]].kind == k
    {
      assert ids[..i + 1] == ids[..i] + [ids[i]];
      assert ids[i] in ids;
      if ids[i] !in byId || byId[ids[i]].noModel || byId[ids[i]].kind in kinds { return false; }
      if byId[ids[i]].group !in table || table[byId[ids[i]].group].split != Development { return false; }
      assert forall a, b :: 0 <= a < b < i ==> byId[ids[..i][a]].kind != byId[ids[..i][b]].kind;
      kinds := kinds + {byId[ids[i]].kind};
    }
    assert ids[..|ids|] == ids;
    ok := true;
  }

  method ValidateCorpus(corpus: Corpus) returns (ok: bool)
    ensures ok <==> ValidCorpus(corpus)
  {
    hide Count, GroupTable, CaseTable, SoundGroups, SoundCases, Comparable, InSplit, InCell, Blocked, EligibleIn, At,
         Families, OneSided;
    if |corpus.groups| != 30 || |corpus.cases| != 240 || |corpus.comparison| != 4 { return false; }
    var table, counts;
    ok, table, counts := IndexGroups(corpus.groups);
    if !ok { return; }
    if At(counts, Development) != 12 || At(counts, Tuning) != 8 || At(counts, Holdout) != 10 { return false; }
    var x;
    ok, x := IndexCases(table, corpus.cases);
    if !ok { return; }
    ok := CheckCells(corpus.groups, x.cells);
    if !ok { return; }
    if x.blocked != 4 || At(x.eligible, Development) != 96 || At(x.eligible, Tuning) != 64
      || At(x.eligible, Holdout) != 76 {
      return false;
    }
    ok := CheckComparison(table, x.byId, corpus.comparison);
  }

  lemma {:induction false} InFamilies(groups: seq<Group>, g: Group)
    requires g in groups
    ensures (Semantic(g.semantic), g.split) in Families(groups) && (Attack(g.attack), g.split) in Families(groups)
  {
    var front, last := groups[..|groups| - 1], groups[|groups| - 1];
    assert groups == front + [last];
    if g != last { InFamilies(front, g); }
  }

  /** In a valid corpus no semantic or attack family is found on two sides of the split. */
  lemma FamiliesStayApart(corpus: Corpus, g: Group, h: Group)
    requires ValidCorpus(corpus) && g in corpus.groups && h in corpus.groups
    ensures g.semantic == h.semantic || g.attack == h.attack ==> g.split == h.split
  {
    hide SoundGroups, GroupCounts, SoundCases, CellCounts, CaseCounts, Comparable, Families;
    InFamilies(corpus.groups, g);
    InFamilies(corpus.groups, h);
  }

  // ----- the plan -----

  datatype Call = Call(phase: Phase, caseId: CaseId, role: Role)

  function Eligible(cases: seq<Case>): seq<CaseId> {
    if cases == [] then [] else
      Eligible(cases[..|cases| - 1]) + (if cases[|cases| - 1].noModel then [] else [CaseId(cases[|cases| - 1].id)])
  }

  const ROLES: seq<Role> := [Single, ChildA, ChildB, Synthesis]

  /** All eligible originals, then four roles of each comparison case. */
  function Planned(eligible: seq<CaseId>, comparison: seq<string>): (plan: seq<Call>)
    ensures |plan| == |eligible| + 4 * |comparison|
    ensures forall i :: 0 <= i < |eligible| ==> plan[i] == Call(Quality, eligible[i], Single)
    ensures forall i :: |eligible| <= i < |plan| ==>
              plan[i] == Call(Comparison, CaseId(comparison[(i - |eligible|) / 4]), ROLES[(i - |eligible|) % 4])
  {
    seq(|eligible|, i requires 0 <= i < |eligible| => Call(Quality, eligible[i], Single))
    + seq(4 * |comparison|,
          i requires 0 <= i < 4 * |comparison| => Call(Comparison, CaseId(comparison[i / 4]), ROLES[i % 4]))
  }

  function Plan(corpus: Corpus): seq<Call> { Planned(Eligible(corpus.cases), corpus.comparison) }

  method RolesOf(id: CaseId) returns (calls: seq<Call>)
    ensures calls
            == [Call(Comparison, id, Single), Call(Comparison, id, ChildA), Call(Comparison, id, ChildB),
                Call(Comparison, id, Synthesis)]
  {
    calls := [];
    for j := 0 to |ROLES|
      invariant |calls| == j && forall k :: 0 <= k < j ==> calls[k] == Call(Comparison, id, ROLES[k])
    {
      calls := calls + [Call(Comparison, id, ROLES[j])];
    }
  }

  lemma NextRoles(eligible: seq<CaseId>, comparison: seq<string>, i: nat)
    requires i < |comparison|
    ensures var id := CaseId(comparison[i]);
            Planned(eligible, comparison[..i + 1])
            == Planned(eligible, comparison[..i])
               + [Call(Comparison, id, Single), Call(Comparison, id, ChildA), Call(Comparison, id, ChildB),
                  Call(Comparison, id, Synthesis)]
  {
    assert comparison[..i + 1][..i] == comparison[..i];
  }

  method MakePlan(corpus: Corpus) returns (plan: seq<Call>)
    ensures plan == Plan(corpus)
  {
    var eligible := [];
    for i := 0 to |corpus.cases|
      invariant eligible == Eligible(corpus.cases[..i])
    {
      assert corpus.cases[..i + 1][..i] == corpus.cases[..i];
      if !corpus.cases[i].noModel { eligible := eligible + [CaseId(corpus.cases[i].id)]; }
    }
    assert corpus.cases[..|corpus.cases|] == corpus.cases;
    plan := [];
    for i := 0 to |eligible|
      invariant plan == Planned(eligible[..i], [])
    {
      plan := plan + [Call(Quality, eligible[i], Single)];
    }
    assert eligible[..|eligible|] == eligible;
    for i := 0 to |corpus.comparison|
      invariant plan == Planned(eligible, corpus.comparison[..i])
    {
      var calls := RolesOf(CaseId(corpus.comparison[i]));
      NextRoles(eligible, corpus.comparison, i);
      plan := plan + calls;
    }
    assert corpus.comparison[..|corpus.comparison|] == corpus.comparison;
  }

  function Open(): Case -> bool { (c: Case) => !c.noModel }

  lemma {:induction false} EligibleCount(cases: seq<Case>)
    ensures |Eligible(cases)| == Count(cases, Open())
    ensures forall id :: id in Eligible(cases) <==> exists c :: c in cases && !c.noModel && id == CaseId(c.id)
  {
    if cases != [] {
      EligibleCount(cases[..|cases| - 1]);
      assert cases == cases[..|cases| - 1] + [cases[|cases| - 1]];
      assert cases[|cases| - 1] in cases;
    }
  }

  lemma {:induction false} EligibleDistinct(cases: seq<Case>)
    requires DistinctCases(cases)
    ensures forall i, j :: 0 <= i < j < |Eligible(cases)| ==> Eligible(cases)[i] != Eligible(cases)[j]
  {
    if cases != [] {
      var front, last := cases[..|cases| - 1], cases[|cases| - 1];
      EligibleDistinct(front);
      EligibleCount(front);
      forall i | 0 <= i < |Eligible(front)| ensures Eligible(front)[i] != CaseId(last.id) {
        assert Eligible(front)[i] in Eligible(front);
        var c :| c in front && CaseId(c.id) == Eligible(front)[i];
        var k :| 0 <= k < |front| && front[k] == c;
      }
    }
  }

  function EligibleOutside(table: map<string, Group>): Case -> bool
  {
    (c: Case) => !c.noModel && SplitIn(table, c) != Development
  }

  /** The counts the inventory fixes add up to 236 eligible originals. */
  lemma EligibleTotal(corpus: Corpus)
    requires ValidCorpus(corpus)
    ensures |Eligible(corpus.cases)| == 236
  {
    var table := GroupTable(corpus.groups);
    GroupSplits(corpus.groups);
    EligibleCount(corpus.cases);
    CountSplits(corpus.cases, EligibleIn(table, Tuning), EligibleIn(table, Holdout), EligibleOutside(table));
    CountSplits(corpus.cases, EligibleIn(table, Development), EligibleOutside(table), Open());
  }

  lemma {:induction false} GroupSplits(groups: seq<Group>)
    requires forall g :: g in groups ==> SoundGroup(g)
    ensures forall id :: id in GroupTable(groups) ==> GroupTable(groups)[id].split != OtherSplit
  {
    if groups != [] {
      assert groups[|groups| - 1] in groups;
      GroupSplits(groups[..|groups| - 1]);
    }
  }

  /** The plan has 252 calls, no two alike. */
  lemma PlanIsFixed(corpus: Corpus)
    requires ValidCorpus(corpus)
    ensures |Plan(corpus)| == 252
    ensures forall i, j :: 0 <= i < j < 252 ==> Plan(corpus)[i] != Plan(corpus)[j]
  {
    EligibleTotal(corpus);
    EligibleDistinct(corpus.cases);
    ComparisonDistinct(corpus);
    PlannedDistinct(Eligible(corpus.cases), corpus.comparison);
  }

  lemma ComparisonDistinct(corpus: Corpus)
    requires ValidCorpus(corpus)
    ensures forall i, j :: 0 <= i < j < 4 ==> corpus.comparison[i] != corpus.comparison[j]
  { }

  lemma PlannedDistinct(eligible: seq<CaseId>, comparison: seq<string>)
    requires forall i, j :: 0 <= i < j < |eligible| ==> eligible[i] != eligible[j]
    requires forall i, j :: 0 <= i < j < |comparison| ==> comparison[i] != comparison[j]
    ensures var plan := Planned(eligible, comparison); forall i, j :: 0 <= i < j < |plan| ==> plan[i] != plan[j]
  {
    forall p: nat, q: nat | p < q && p % 4 == q % 4 ensures p / 4 < q / 4 { }
  }
}
