/** The memory experiment's suite, its frozen input matrix, and why no two inputs share a slot. */
module MemoryFreeze {
  import opened Options
  import opened Sides

  datatype Arm = NoLtm | FullContext | Retrieval

  /** The opaque case identifier is a digest of the original one. */
  datatype CaseId = CaseId(original: string)

  /** The place of one input in the matrix. */
  datatype Slot = Slot(id: CaseId, arm: Arm)

  datatype Skip = NotSkipped | SecretSourceBlocked | RetrievalCaptureMissing | InputByteBudgetExceeded

  /** An original text and its normalized form. */
  datatype Text = Text(raw: string, normal: string)

  const BLANK: Text := Text("", "")

  /** One original of a case's history; `rest` is its revision, session and time. */
  datatype Source = Source(id: string, deleted: bool, secret: bool, body: Text, rest: nat)

  datatype Task = Task(revision: int, goal: string, instruction: string)

  const NO_TASK: Task := Task(0, "", "")

  /** What the model is shown.  `evidence` is the digest of the capture used, `wire` the length of the
      serialized request. */
  datatype Input = Input(slot: Slot, question: string, task: Task, memory: seq<Source>, prompt: string,
                         evidence: Option<nat>, skip: Skip, wire: nat)

  datatype Split = Development | Holdout | Whole | OtherSplit

  /** What a case is meant to exercise. */
  datatype Tag =
    | CrossSession | Supersession | Contradiction | Temporal | Absent | RussianNegation | Condition | Exception | OneOff
    | Deleted | LongTask | Experience | Stop | Privacy

  const TAGS: seq<Tag> :=
      [CrossSession, Supersession, Contradiction, Temporal, Absent, RussianNegation, Condition, Exception,
                           OneOff, Deleted, LongTask, Experience, Stop, Privacy]

  /** `sizes` and `wires` give the serialized lengths of its inputs and requests; `other` covers the remaining
      checks of one case. */
  datatype Case = Case(id: string, group: string, family: string, split: Split, tags: set<Tag>, question: string,
                       task: Task, history: seq<Source>, sizes: map<Arm, nat>, wires: map<Arm, nat>, other: bool)

  /** `pinned` says that it has the plan's configuration, a digest as evidence and a prompt within bounds. */
  datatype Capture = Capture(id: CaseId, pinned: bool, cited: seq<string>, evidence: nat, prompt: string)

  datatype Evidence = FixtureValidation | ModelObservation | OtherEvidence

  /** What a continuation may not change.  `pinned` says that version, suite and criteria are the suite's
      own and the configuration digest is well formed; `content` tells configurations apart. */
  datatype Experiment = Experiment(
    model: string, modelVersion: string, runtime: string, pricing: string, pinned: bool, content: nat)

  /** `wellFormed` says that the commit and both digests have the right shape. */
  datatype Plan = Plan(
    window: string, evidence: Evidence, experiment: Experiment, split: Split, source: string, commit: string,
    hardware: string,
    wellFormed: bool)

  const ARMS: seq<Arm> := [NoLtm, FullContext, Retrieval]
  const MAX_INPUT_BYTES: nat := 32768

  // ----- the suite -----

  predicate DistinctIds(cases: seq<Case>) {
    forall i, j :: 0 <= i < j < |cases| ==> cases[i].id != cases[j].id
  }

  /** Some original of the history is secret. */
  predicate Blocked(history: seq<Source>) { exists h :: h in history && h.secret }

  /** Originals have different identifiers, and exactly the deleted ones have no text. */
  predicate SoundHistory(history: seq<Source>) {
    && (forall i, j :: 0 <= i < j < |history| ==> history[i].id != history[j].id)
    && forall h :: h in history ==> h.id != "" && (h.deleted <==> h.body.raw == "")
  }

  predicate SoundCase(c: Case) {
    && c.id != "" && c.group != "" && c.family != "" && (c.split == Development || c.split == Holdout) && c.other
    && c.question != "" && c.task.revision >= 0 && c.task.instruction != "" && |c.history| <= 128
    && SoundHistory(c.history) && (Blocked(c.history) ==> Privacy in c.tags)
  }

  predicate SoundCases(cases: seq<Case>) {
    DistinctIds(cases) && forall c :: c in cases ==> SoundCase(c)
  }

  /** Whatever must not be found in both splits: semantic groups, template families and original texts. */
  datatype Key = GroupKey(name: string) | FamilyKey(name: string) | BodyKey(text: string)

  function BodyKeys(history: seq<Source>, split: Split): seq<(Key, Split)> {
    if history == [] then [] else
      var body := history[|history| - 1].body;
      BodyKeys(history[..|history| - 1], split) + (if body.raw == "" then [] else [(BodyKey(body.normal), split)])
  }

  function Keys(cases: seq<Case>): seq<(Key, Split)> {
    if cases == [] then []
    else
      var c := cases[|cases| - 1];
      Keys(cases[..|cases| - 1]) + [(GroupKey(c.group), c.split), (FamilyKey(c.family), c.split)]
          + BodyKeys(c.history, c.split)
  }

  predicate Covers(cases: seq<Case>, split: Split, tag: Tag)
  {
    exists c :: c in cases && c.split == split && tag in c.tags
  }

  predicate Covered(cases: seq<Case>) {
    forall t :: t in TAGS ==> Covers(cases, Development, t) && Covers(cases, Holdout, t)
  }

  ghost predicate ValidSuite(cases: seq<Case>) {
    0 < |cases| <= 80 && SoundCases(cases) && OneSided(Keys(cases)) && Covered(cases)
  }

  lemma SoundNext(cases: seq<Case>, i: nat, ids: set<string>)
    requires i < |cases| && SoundCases(cases[..i]) && ids == set c | c in cases[..i] :: c.id
    ensures SoundCases(cases[..i + 1]) <==> SoundCase(cases[i]) && cases[i].id !in ids
    ensures SoundCases(cases) ==> SoundCases(cases[..i + 1])
    ensures ids + {cases[i].id} == set c | c in cases[..i + 1] :: c.id
  {
    hide SoundCase;
    var c, next := cases[i], cases[..i + 1];
    assert next == cases[..i] + [c];
    assert c in next;
    assert forall x :: x in next ==> x in cases;
    if c.id in ids {
      var d :| d in cases[..i] && d.id == c.id;
      var j :| 0 <= j < i && cases[j] == d;
      assert next[j].id == next[i].id;
    } else {
      assert forall j :: 0 <= j < i ==> next[j] in cases[..i];
    }
  }

  method CheckCoverage(cases: seq<Case>) returns (ok: bool)
    ensures ok <==> Covered(cases)
  {
    var development, holdout: set<Tag> := {}, {};
    for i := 0 to |cases|
      invariant forall t :: t in development <==> Covers(cases[..i], Development, t)
      invariant forall t :: t in holdout <==> Covers(cases[..i], Holdout, t)
    {
      CoverNext(cases, i);
      if cases[i].split == Development { development := development + cases[i].tags; }
      if cases[i].split == Holdout { holdout := holdout + cases[i].tags; }
    }
    assert cases[..|cases|] == cases;
    hide Covers;
    for j := 0 to |TAGS|
      invariant forall t :: t in TAGS[..j] ==> Covers(cases, Development, t) && Covers(cases, Holdout, t)
    {
      if TAGS[j] !in development || TAGS[j] !in holdout {
        assert TAGS[j] in TAGS;
        return false;
      }
    }
    assert TAGS[..|TAGS|] == TAGS;
    ok := true;
  }

  lemma CoverNext(cases: seq<Case>, i: nat)
    requires i < |cases|
    ensures forall s, t :: Covers(cases[..i + 1], s, t) <==>
            Covers(cases[..i], s, t) || (cases[i].split == s && t in cases[i].tags)
  {
    var next, last := cases[..i + 1], cases[i];
    assert next == cases[..i] + [last];
    assert last in next && forall c :: c in cases[..i] ==> c in next;
    forall s, t ensures Covers(next, s, t) <==> Covers(cases[..i], s, t) || (last.split == s && t in last.tags) {
      if Covers(next, s, t) {
        var c :| c in next && c.split == s && t in c.tags;
        assert c in cases[..i] || c == last;
      }
    }
  }

  lemma {:induction false} InBodyKeys(history: seq<Source>, split: Split, h: Source)
    requires h in history && h.body.raw != ""
    ensures (BodyKey(h.body.normal), split) in BodyKeys(history, split)
  {
    var front, last := history[..|history| - 1], history[|history| - 1];
    assert history == front + [last];
    if h != last { InBodyKeys(front, split, h); }
  }

  lemma {:induction false} InKeys(cases: seq<Case>, c: Case)
    requires c in cases
    ensures (GroupKey(c.group), c.split) in Keys(cases) && (FamilyKey(c.family), c.split) in Keys(cases)
    ensures forall h :: h in c.history && h.body.raw != "" ==> (BodyKey(h.body.normal), c.split) in Keys(cases)
  {
    var front, last := cases[..|cases| - 1], cases[|cases| - 1];
    assert cases == front + [last];
    if c != last {
      InKeys(front, c);
    } else {
      forall h | h in c.history && h.body.raw != ""
        ensures (BodyKey(h.body.normal), c.split) in BodyKeys(c.history, c.split)
      {
        InBodyKeys(c.history, c.split, h);
      }
    }
  }

  /** Both cases have an original with this text, up to normalization. */
  ghost predicate ShareText(c: Case, d: Case) {
    exists g, h :: g in c.history && h in d.history && g.body.raw != "" && h.body.raw != ""
                   && g.body.normal == h.body.normal
  }

  /** In a valid suite no group, family or original text is found in both splits. */
  lemma SplitsStayApart(cases: seq<Case>, c: Case, d: Case)
    requires ValidSuite(cases) && c in cases && d in cases
    ensures c.group == d.group || c.family == d.family || ShareText(c, d) ==> c.split == d.split
  {
    hide Keys, SoundCases, Covered;
    InKeys(cases, c);
    InKeys(cases, d);
    if g, h :| g in c.history && h in d.history && g.body.raw != "" && h.body.raw != ""
               && g.body.normal == h.body.normal {
      assert (BodyKey(g.body.normal), c.split) in Keys(cases) && (BodyKey(h.body.normal), d.split) in Keys(cases);
    }
  }

  method ValidateSuite(cases: seq<Case>) returns (ok: bool)
    ensures ok <==> ValidSuite(cases)
  {
    hide SoundCases, SoundCase, Keys, OneSided, Covered;
    if |cases| == 0 || |cases| > 80 { return false; }
    ok := CheckCases(cases);
    if !ok { return; }
    ok := CheckSides(Keys(cases));
    if !ok { return; }
    ok := CheckCoverage(cases);
  }

  method CheckCases(cases: seq<Case>) returns (ok: bool)
    ensures ok <==> SoundCases(cases)
  {
    var ids: set<string> := {};
    for i := 0 to |cases|
      invariant SoundCases(cases[..i]) && ids == set c | c in cases[..i] :: c.id
    {
      hide SoundCases, SoundCase;
      SoundNext(cases, i, ids);
      if cases[i].id in ids { return false; }
      var sound := CheckCase(cases[i]);
      if !sound { return false; }
      ids := ids + {cases[i].id};
    }
    assert cases[..|cases|] == cases;
    ok := true;
  }

  method CheckCase(c: Case) returns (ok: bool)
    ensures ok <==> SoundCase(c)
  {
    hide SoundHistory, Blocked;
    if c.id == "" || c.group == "" || c.family == "" || (c.split != Development && c.split != Holdout) || !c.other
      || c.question == "" || |c.history| > 128 || c.task.revision < 0 || c.task.instruction == "" {
      return false;
    }
    ok := CheckHistory(c.history);
    if !ok { return; }
    var secret := HasSecret(c.history);
    if secret && Privacy !in c.tags { return false; }
  }

  method CheckHistory(history: seq<Source>) returns (ok: bool)
    ensures ok <==> SoundHistory(history)
  {
    var seen: set<string> := {};
    for i := 0 to |history|
      invariant forall id :: id in seen <==> exists j :: 0 <= j < i && history[j].id == id
      invariant forall j, k :: 0 <= j < k < i ==> history[j].id != history[k].id
      invariant forall j :: 0 <= j < i ==> history[j].id != "" && (history[j].deleted <==> history[j].body.raw == "")
    {
      var h := history[i];
      assert h in history;
      if h.id == "" || h.id in seen { return false; }
      seen := seen + {h.id};
      if h.deleted && h.body.raw != "" { return false; }
      if !h.deleted && h.body.raw == "" { return false; }
    }
    ok := true;
  }

  method HasSecret(history: seq<Source>) returns (secret: bool)
    ensures secret <==> Blocked(history)
  {
    for i := 0 to |history|
      invariant forall j :: 0 <= j < i ==> !history[j].secret
    {
      if history[i].secret {
        assert history[i] in history;
        return true;
      }
    }
    secret := false;
  }

  // ----- the plan -----

  /** A fixture claims no model; an observation names a model and its version. */
  ghost predicate ValidPlan(p: Plan) {
    && p.window != "" && p.wellFormed && p.experiment.pinned && p.experiment.runtime != "" && p.experiment.pricing != ""
    && p.split != OtherSplit
    && if p.evidence == FixtureValidation then p.experiment.model == NO_MODEL && p.experiment.modelVersion == NO_MODEL
       else p.evidence == ModelObservation && p.experiment.model != "" && p.experiment.model != NO_MODEL
            && p.experiment.modelVersion != ""
  }

  const NO_MODEL: string := "none"

  method ValidatePlan(p: Plan) returns (ok: bool)
    ensures ok <==> ValidPlan(p)
  {
    var e := p.experiment;
    if p.window == "" || !p.wellFormed || !e.pinned || e.runtime == "" || e.pricing == ""
      || (p.split != Development && p.split != Holdout && p.split != Whole) {
      return false;
    }
    if p.evidence == FixtureValidation {
      if e.model != NO_MODEL || e.modelVersion != NO_MODEL { return false; }
    } else if p.evidence != ModelObservation || e.model == "" || e.model == NO_MODEL || e.modelVersion == "" {
      return false;
    }
    ok := true;
  }

  // ----- the matrix -----

  predicate Selected(c: Case, p: Plan) { p.split == Whole || c.split == p.split }

  predicate NoRepeats(ss: seq<string>) { forall i, j :: 0 <= i < j < |ss| ==> ss[i] != ss[j] }

  /** The originals that were not deleted, in order. */
  function Undeleted(history: seq<Source>): seq<Source> {
    if history == [] then []
    else Undeleted(history[..|history| - 1])
         + if history[|history| - 1].deleted then [] else [history[|history| - 1]]
  }

  /** The first original of this name that may be shown. */
  function Find(history: seq<Source>, id: string): Option<Source> {
    if history == [] then None
    else if history[0].id == id && !history[0].deleted && !history[0].secret then Some(history[0])
    else Find(history[1..], id)
  }

  /** The cited originals in order, without their texts; nothing if one is unavailable or cited twice. */
  function Cited(history: seq<Source>, ids: seq<string>): Option<seq<Source>> {
    if ids == [] then Some([])
    else
      var front, id := Cited(history, ids[..|ids| - 1]), ids[|ids| - 1];
      if front.None? || id in ids[..|ids| - 1] || Find(history, id).None? then None
      else Some(front.value + [Find(history, id).value.(body := BLANK)])
  }

  function SizeOf(c: Case, arm: Arm): nat { if arm in c.sizes then c.sizes[arm] else 0 }
  function WireOf(c: Case, arm: Arm): nat { if arm in c.wires then c.wires[arm] else 0 }

  /** One input before its size is looked at; refused if the capture cites an original that is unavailable
      or cites one twice. */
  function Filled(c: Case, arm: Arm, caps: map<CaseId, Capture>): Option<Input> {
    var x := Input(Slot(CaseId(c.id), arm), c.question, c.task, [], "", None, NotSkipped, WireOf(c, arm));
    match arm
    case NoLtm => Some(x)
    case FullContext => Some(x.(memory := Undeleted(c.history)))
    case Retrieval =>
      if CaseId(c.id) !in caps then Some(x.(skip := RetrievalCaptureMissing))
      else
        var cap := caps[CaseId(c.id)];
        match Cited(c.history, cap.cited)
        case None => None
        case Some(memory) => Some(x.(memory := memory, prompt := cap.prompt, evidence := Some(cap.evidence)))
  }

  /** One input: nothing of a secret case, and no memory beyond the budget. */
  function MakeInput(c: Case, arm: Arm, caps: map<CaseId, Capture>): Option<Input> {
    if Blocked(c.history) then
      Some(Input(Slot(CaseId(c.id), arm), "", NO_TASK, [], "", None, SecretSourceBlocked, WireOf(c, arm)))
    else match Filled(c, arm, caps)
         case None => None
         case Some(x) =>
           Some(if SizeOf(c, arm) <= MAX_INPUT_BYTES then x
                else x.(memory := [], prompt := "", skip := InputByteBudgetExceeded))
  }

  method KeepUndeleted(history: seq<Source>) returns (memory: seq<Source>)
    ensures memory == Undeleted(history)
  {
    memory := [];
    for i := 0 to |history|
      invariant memory == Undeleted(history[..i])
    {
      assert history[..i + 1][..i] == history[..i];
      if !history[i].deleted { memory := memory + [history[i]]; }
    }
    assert history[..|history|] == history;
  }

  /** Looks up each cited original in turn. */
  method Cite(history: seq<Source>, ids: seq<string>) returns (r: Option<seq<Source>>)
    ensures r == Cited(history, ids)
  {
    var memory: seq<Source>, seen: set<string> := [], {};
    for i := 0 to |ids|
      invariant Cited(history, ids[..i]) == Some(memory) && forall id :: id in seen <==> id in ids[..i]
    {
      hide Find;
      assert ids[..i + 1][..i] == ids[..i];
      var found := Lookup(history, ids[i], ids[i] in seen);
      if found.None? {
        CitedFails(history, ids, i + 1);
        return None;
      }
      memory, seen := memory + [found.value.(body := BLANK)], seen + {ids[i]};
    }
    assert ids[..|ids|] == ids;
    r := Some(memory);
  }

  method Lookup(history: seq<Source>, id: string, seen: bool) returns (r: Option<Source>)
    ensures r == if seen then None else Find(history, id)
  {
    for i := 0 to |history|
      invariant seen || Find(history, id) == Find(history[i..], id)
    {
      var h := history[i];
      assert history[i..][1..] == history[i + 1..];
      if h.id == id && !h.deleted && !h.secret && !seen { return Some(h); }
    }
    r := None;
  }

  lemma {:induction false} CitedFails(history: seq<Source>, ids: seq<string>, i: nat)
    requires i <= |ids| && Cited(history, ids[..i]).None?
    ensures Cited(history, ids).None?
    decreases |ids|
  {
    if i < |ids| {
      assert ids[..|ids| - 1][..i] == ids[..i];
      CitedFails(history, ids[..|ids| - 1], i);
    } else {
      assert ids[..i] == ids;
    }
  }

  /** Fills one input step by step. */
  method Assemble(c: Case, arm: Arm, caps: map<CaseId, Capture>) returns (r: Option<Input>)
    ensures r == MakeInput(c, arm, caps)
  {
    hide Blocked, Undeleted, Cited;
    var x := Input(Slot(CaseId(c.id), arm), c.question, c.task, [], "", None, NotSkipped, WireOf(c, arm));
    var secret := HasSecret(c.history);
    if secret { return Some(x.(question := "", task := NO_TASK, skip := SecretSourceBlocked)); }
    if arm == FullContext {
      var memory := KeepUndeleted(c.history);
      x := x.(memory := memory);
    } else if arm == Retrieval {
      if x.slot.id !in caps {
        x := x.(skip := RetrievalCaptureMissing);
      } else {
        var cap := caps[x.slot.id];
        x := x.(evidence := Some(cap.evidence), prompt := cap.prompt);
        var memory := Cite(c.history, cap.cited);
        if memory.None? { return None; }
        x := x.(memory := memory.value);
      }
    }
    if SizeOf(c, arm) > MAX_INPUT_BYTES { x := x.(memory := [], prompt := "", skip := InputByteBudgetExceeded); }
    r := Some(x);
  }

  /** The case with this identifier may have a capture. */
  ghost predicate Owned(cases: seq<Case>, p: Plan, id: CaseId) {
    exists c :: c in cases && Selected(c, p) && !Blocked(c.history) && CaseId(c.id) == id
  }

  /** Captures belong to selected unblocked cases, at most one each, under the plan's configuration. */
  ghost predicate ValidCaptures(cases: seq<Case>, p: Plan, captures: seq<Capture>) {
    && (forall x :: x in captures ==> x.pinned && Owned(cases, p, x.id))
    && (forall i, j :: 0 <= i < j < |captures| ==> captures[i].id != captures[j].id)
  }

  /** The captures by the case they belong to. */
  function Table(captures: seq<Capture>): map<CaseId, Capture> {
    if captures == [] then map[]
    else Table(captures[..|captures| - 1])[captures[|captures| - 1].id := captures[|captures| - 1]]
  }

  function ArmInputs(c: Case, caps: map<CaseId, Capture>): Option<seq<Input>> {
    var a, b, r := MakeInput(c, NoLtm, caps), MakeInput(c, FullContext, caps),
        MakeInput(c, Retrieval, caps);
    if a.None? || b.None? || r.None? then None else Some([a.value, b.value, r.value])
  }

  function Matrix(cases: seq<Case>, p: Plan, caps: map<CaseId, Capture>): Option<seq<Input>> {
    if cases == [] then Some([])
    else
      var front := Matrix(cases[..|cases| - 1], p, caps);
      var c := cases[|cases| - 1];
      if front.None? || !Selected(c, p) then front
      else match ArmInputs(c, caps)
           case None => None
           case Some(xs) => Some(front.value + xs)
  }

  ghost predicate DistinctSlots(inputs: seq<Input>) {
    forall i, j :: 0 <= i < j < |inputs| ==> inputs[i].slot != inputs[j].slot
  }

  /** The nested loops over cases and arms. */
  method BuildMatrix(cases: seq<Case>, p: Plan, caps: map<CaseId, Capture>) returns (r: Option<seq<Input>>)
    ensures r == Matrix(cases, p, caps)
  {
    var inputs: seq<Input> := [];
    for i := 0 to |cases|
      invariant Matrix(cases[..i], p, caps) == Some(inputs)
    {
      var c := cases[i];
      assert cases[..i + 1][..i] == cases[..i];
      if Selected(c, p) {
        ghost var before := inputs;
        for j := 0 to |ARMS|
          invariant |inputs| == |before| + j && inputs[..|before|] == before
          invariant forall k :: 0 <= k < j ==> MakeInput(c, ARMS[k], caps) == Some(inputs[|before| + k])
        {
          var x := Assemble(c, ARMS[j], caps);
          if x.None? {
            assert ArmInputs(c, caps).None?;
            MatrixFails(cases, p, caps, i + 1);
            return None;
          }
          inputs := inputs + [x.value];
        }
        ghost var tail := inputs[|before|..];
        assert ARMS[0] == NoLtm && ARMS[1] == FullContext && ARMS[2] == Retrieval;
        assert tail == [tail[0], tail[1], tail[2]];
        assert ArmInputs(c, caps) == Some(tail);
        assert inputs == before + tail;
      }
    }
    assert cases[..|cases|] == cases;
    r := Some(inputs);
  }

  method Owners(cases: seq<Case>, p: Plan) returns (owners: set<CaseId>)
    ensures forall id :: id in owners <==> Owned(cases, p, id)
  {
    owners := {};
    for i := 0 to |cases|
      invariant forall id :: id in owners <==> Owned(cases[..i], p, id)
    {
      hide Blocked;
      assert cases[..i + 1] == cases[..i] + [cases[i]];
      var secret := HasSecret(cases[i].history);
      if Selected(cases[i], p) && !secret { owners := owners + {CaseId(cases[i].id)}; }
    }
    assert cases[..|cases|] == cases;
  }

  method CheckCaptures(cases: seq<Case>, p: Plan, captures: seq<Capture>)
    returns (ok: bool, caps: map<CaseId, Capture>)
    ensures ok <==> ValidCaptures(cases, p, captures)
    ensures ok ==> caps == Table(captures)
  {
    hide Owned;
    var owners := Owners(cases, p);
    caps := map[];
    for i := 0 to |captures|
      invariant caps == Table(captures[..i]) && caps.Keys == set k | 0 <= k < i :: captures[k].id
      invariant forall k :: 0 <= k < i ==> captures[k].pinned && Owned(cases, p, captures[k].id)
      invariant forall a, b :: 0 <= a < b < i ==> captures[a].id != captures[b].id
    {
      var x := captures[i];
      assert captures[..i + 1][..i] == captures[..i];
      assert x in captures;
      if x.id !in owners || x.id in caps || !x.pinned { return false, caps; }
      caps := caps[x.id := x];
    }
    assert captures[..|captures|] == captures;
    ok := true;
  }

  /** What a suite, a plan and captures freeze into, if they are accepted. */
  ghost function Frozen(cases: seq<Case>, p: Plan, captures: seq<Capture>): Option<seq<Input>> {
    if ValidSuite(cases) && ValidPlan(p) && ValidCaptures(cases, p, captures) then Matrix(cases, p, Table(captures))
    else None
  }

  method FreezeMemory(cases: seq<Case>, p: Plan, captures: seq<Capture>) returns (r: Option<seq<Input>>)
    ensures r == Frozen(cases, p, captures)
  {
    hide ValidSuite, ValidCaptures, Matrix, ValidPlan;
    var ok := ValidateSuite(cases);
    if !ok { return None; }
    ok := ValidatePlan(p);
    if !ok { return None; }
    var caps;
    ok, caps := CheckCaptures(cases, p, captures);
    if !ok { return None; }
    r := BuildMatrix(cases, p, caps);
  }

  lemma {:induction false} MatrixFails(cases: seq<Case>, p: Plan, caps: map<CaseId, Capture>, i: nat)
    requires i <= |cases| && Matrix(cases[..i], p, caps).None?
    ensures Matrix(cases, p, caps).None?
    decreases |cases|
  {
    if i < |cases| {
      var front := cases[..|cases| - 1];
      assert front[..i] == cases[..i];
      MatrixFails(front, p, caps, i);
    } else {
      assert cases[..i] == cases;
    }
  }

  lemma {:induction false} MatrixCases(cases: seq<Case>, p: Plan, caps: map<CaseId, Capture>, x: Input)
    requires Matrix(cases, p, caps).Some? && x in Matrix(cases, p, caps).value
    ensures exists c :: c in cases && x.slot.id == CaseId(c.id)
  {
    var front, c := cases[..|cases| - 1], cases[|cases| - 1];
    assert cases == front + [c];
    if x in Matrix(front, p, caps).value { MatrixCases(front, p, caps, x); } else { assert c in cases; }
  }

  lemma MatrixNext(cases: seq<Case>, p: Plan, caps: map<CaseId, Capture>)
    requires cases != [] && Matrix(cases, p, caps).Some?
    ensures var front, c := cases[..|cases| - 1], cases[|cases| - 1];
            && Matrix(front, p, caps).Some?
            && (Matrix(cases, p, caps) == Matrix(front, p, caps)
                || (ArmInputs(c, caps).Some?
                    && Matrix(cases, p, caps).value == Matrix(front, p, caps).value
                        + ArmInputs(c, caps).value))
  { }

  lemma ArmsDistinct(c: Case, caps: map<CaseId, Capture>)
    requires ArmInputs(c, caps).Some?
    ensures var xs := ArmInputs(c, caps).value; DistinctSlots(xs) && forall x :: x in xs ==>
            x.slot.id == CaseId(c.id)
  { }

  lemma JoinDistinct(xs: seq<Input>, ys: seq<Input>, id: CaseId)
    requires DistinctSlots(xs) && DistinctSlots(ys)
    requires (forall x :: x in xs ==> x.slot.id != id) && (forall y :: y in ys ==> y.slot.id == id)
    ensures DistinctSlots(xs + ys)
  {
    var zs := xs + ys;
    forall i, j | 0 <= i < j < |zs| ensures zs[i].slot != zs[j].slot {
      if i < |xs| { assert zs[i] in xs; }
      if j >= |xs| { assert zs[j] in ys; }
    }
  }

  /** A valid suite freezes into a matrix where every slot occurs once. */
  lemma {:induction false} MatrixDistinct(cases: seq<Case>, p: Plan, caps: map<CaseId, Capture>)
    requires DistinctIds(cases) && Matrix(cases, p, caps).Some?
    ensures DistinctSlots(Matrix(cases, p, caps).value)
  {
    if cases != [] {
      hide Matrix, ArmInputs, DistinctSlots;
      var front, c := cases[..|cases| - 1], cases[|cases| - 1];
      MatrixNext(cases, p, caps);
      MatrixDistinct(front, p, caps);
      var xs := Matrix(front, p, caps).value;
      forall x | x in xs ensures x.slot.id != CaseId(c.id) {
        MatrixCases(front, p, caps, x);
        var d :| d in front && x.slot.id == CaseId(d.id);
        var k :| 0 <= k < |front| && front[k] == d;
        assert cases[k].id != cases[|cases| - 1].id;
      }
      if ArmInputs(c, caps).Some? {
        ArmsDistinct(c, caps);
        JoinDistinct(xs, ArmInputs(c, caps).value, CaseId(c.id));
      }
    }
  }
}
