/** Parallel range download of several weight files: jobs of at most 256 MiB tile what is
    missing of each file, and workers write into the shared files in any order. */
module RangeDownload {
  type Byte = b: int | 0 <= b < 256

  const CHUNK: nat := 256 * 1024 * 1024
  const READ: nat := 1024 * 1024

  /** `kept` bytes of a previous partial download are reused. */
  datatype Spec = Spec(kept: nat, size: nat)

  /** Bytes `begin..=end` of one file. */
  datatype Job = Job(file: nat, begin: nat, end: nat)

  predicate Covers(j: Job, file: nat, x: int) { j.file == file && j.begin <= x <= j.end }

  predicate WellFormed(specs: seq<Spec>) {
    forall f :: 0 <= f < |specs| ==> specs[f].kept <= specs[f].size
  }

  /** Every job lies in the missing part of its file, and jobs do not overlap. */
  ghost predicate Apart(jobs: seq<Job>, specs: seq<Spec>) {
    && (forall j :: 0 <= j < |jobs| ==>
          jobs[j].file < |specs| && specs[jobs[j].file].kept <= jobs[j].begin <= jobs[j].end < specs[jobs[j].file].size)
    && (forall i, j :: 0 <= i < j < |jobs| && jobs[i].file == jobs[j].file ==> jobs[i].end < jobs[j].begin)
  }

  /** Some job covers byte `x` of file `f`. */
  ghost predicate Covered(jobs: seq<Job>, f: nat, x: int) {
    exists j :: 0 <= j < |jobs| && Covers(jobs[j], f, x)
  }

  ghost predicate Tiles(jobs: seq<Job>, specs: seq<Spec>) {
    && Apart(jobs, specs)
    && (forall f, x :: 0 <= f < |specs| && specs[f].kept <= x < specs[f].size ==> Covered(jobs, f, x))
  }

  lemma CoveredGrows(jobs: seq<Job>, job: Job, f: nat, x: int)
    requires Covered(jobs, f, x) || Covers(job, f, x)
    ensures Covered(jobs + [job], f, x)
  {
    if Covered(jobs, f, x) {
      var j :| 0 <= j < |jobs| && Covers(jobs[j], f, x);
      assert Covers((jobs + [job])[j], f, x);
    } else {
      assert Covers((jobs + [job])[|jobs|], f, x);
    }
  }

  /** The planned jobs tile the missing part of every file exactly, none longer than a chunk. */
  method Plan(specs: seq<Spec>) returns (jobs: seq<Job>)
    requires WellFormed(specs)
    ensures Tiles(jobs, specs)
    ensures forall j :: 0 <= j < |jobs| ==> jobs[j].end - jobs[j].begin < CHUNK
  {
    jobs := [];
    for f := 0 to |specs|
      invariant Apart(jobs, specs)
      invariant forall j :: 0 <= j < |jobs| ==> jobs[j].file < f && jobs[j].end - jobs[j].begin < CHUNK
      invariant forall g, x :: 0 <= g < f && specs[g].kept <= x < specs[g].size ==> Covered(jobs, g, x)
    {
      var begin, size := specs[f].kept, specs[f].size;
      while begin < size
        invariant specs[f].kept <= begin <= size
        invariant Apart(jobs, specs)
        invariant forall j :: 0 <= j < |jobs| ==> jobs[j].file <= f && jobs[j].end - jobs[j].begin < CHUNK
        invariant forall j :: 0 <= j < |jobs| && jobs[j].file == f ==> jobs[j].end < begin
        invariant forall g, x :: 0 <= g < f && specs[g].kept <= x < specs[g].size ==> Covered(jobs, g, x)
        invariant forall x :: specs[f].kept <= x < begin ==> Covered(jobs, f, x)
      {
        var next := if begin + CHUNK <= size then begin + CHUNK else size;
        var job := Job(f, begin, next - 1);
        forall g, x | 0 <= g < f && specs[g].kept <= x < specs[g].size ensures Covered(jobs + [job], g, x) {
          CoveredGrows(jobs, job, g, x);
        }
        forall x | specs[f].kept <= x < next ensures Covered(jobs + [job], f, x) {
          CoveredGrows(jobs, job, f, x);
        }
        jobs := jobs + [job];
        begin := next;
      }
    }
  }

  lemma CoveredOnce(jobs: seq<Job>, specs: seq<Spec>, f: nat, x: int, i: nat, j: nat)
    requires Apart(jobs, specs) && i < |jobs| && j < |jobs| && Covers(jobs[i], f, x) && Covers(jobs[j], f, x)
    ensures i == j
  {}

  // ----- one worker -----

  datatype Outcome = Done | RangeContract | ShortRange | ShortWrite | LongRange

  function Min(a: nat, b: nat): nat { if a <= b then a else b }

  function Total(ns: seq<nat>): nat { if ns == [] then 0 else Total(ns[..|ns| - 1]) + ns[|ns| - 1] }

  function Overwrite(s: seq<Byte>, at: nat, b: seq<Byte>): seq<Byte>
    requires at + |b| <= |s|
  {
    s[..at] + b + s[at + |b|..]
  }

  /** The file after consecutive writes of `ns` bytes of the body each. */
  function Written(s: seq<Byte>, begin: nat, body: seq<Byte>, ns: seq<nat>): (t: seq<Byte>)
    requires begin + Total(ns) <= |s| && Total(ns) <= |body|
    ensures |t| == |s|
  {
    if ns == [] then s
    else
      var front := ns[..|ns| - 1];
      Overwrite(Written(s, begin, body, front), begin + Total(front), body[Total(front)..Total(ns)])
  }

  lemma NothingWritten(s: seq<Byte>, begin: nat, body: seq<Byte>)
    requires begin <= |s|
    ensures Total([]) == 0 && Written(s, begin, body, []) == s
  { }

  lemma TotalMore(ns: seq<nat>, n: nat)
    ensures Total(ns + [n]) == Total(ns) + n
  {
    assert (ns + [n])[..|ns|] == ns;
  }

  lemma WrittenMore(s: seq<Byte>, begin: nat, body: seq<Byte>, ns: seq<nat>, n: nat)
    requires begin + Total(ns) + n <= |s| && Total(ns) + n <= |body|
    ensures Total(ns + [n]) == Total(ns) + n
    ensures Written(s, begin, body, ns + [n])
            == Overwrite(Written(s, begin, body, ns), begin + Total(ns), body[Total(ns)..Total(ns) + n])
  {
    assert (ns + [n])[..|ns|] == ns;
  }

  lemma OverwriteEnd(s: seq<Byte>, begin: nat, x: seq<Byte>, y: seq<Byte>)
    requires begin + |x| + |y| <= |s|
    ensures Overwrite(s[..begin] + x + s[begin + |x|..], begin + |x|, y) == s[..begin] + (x + y)
            + s[begin + |x| + |y|..]
  { }

  /** Together the writes put the first part of the body in its place, and change nothing else. */
  lemma {:induction false} WrittenIs(s: seq<Byte>, begin: nat, body: seq<Byte>, ns: seq<nat>)
    requires begin + Total(ns) <= |s| && Total(ns) <= |body|
    ensures Written(s, begin, body, ns) == s[..begin] + body[..Total(ns)] + s[begin + Total(ns)..]
  {
    hide Written, Overwrite, Total;
    NothingWritten(s, begin, body);
    if ns != [] {
      var front, n := ns[..|ns| - 1], ns[|ns| - 1];
      assert ns == front + [n];
      TotalMore(front, n);
      WrittenIs(s, begin, body, front);
      WrittenMore(s, begin, body, front, n);
      OverwriteEnd(s, begin, body[..Total(front)], body[Total(front)..Total(front) + n]);
      assert body[..Total(front)] + body[Total(front)..Total(front) + n] == body[..Total(front) + n];
    }
  }

  /** A read returns at most what is asked for and at least one byte, `size` saying how many, and nothing
      only at the end of the body. */
  function ReadBody(body: seq<Byte>, pos: nat, asked: nat, size: nat): (b: seq<Byte>)
    requires pos <= |body| && asked > 0
    ensures |b| <= asked && pos + |b| <= |body| && b == body[pos..pos + |b|] && (b == [] <==> pos == |body|)
  {
    body[pos..pos + Min(if size > 0 then Min(size, asked) else asked, |body| - pos)]
  }

  /** The write loop of one worker.  `accepted` says that status and range header are the expected ones, `body` is
      the whole response, read as `sizes` say, and `short` how many bytes a pass writes when the system writes
      fewer than it was given.  Unless a write is short, the range is complete exactly when the body has its
      length; `ns` are the sizes of the writes made. */
  method Download(file: array<Byte>, begin: nat, end: nat, accepted: bool, body: seq<Byte>, sizes: seq<nat>,
                  short: map<nat, nat>)
    returns (outcome: Outcome, ghost ns: seq<nat>)
    requires begin <= end < file.Length
    modifies file
    ensures outcome == RangeContract <==> !accepted
    ensures outcome == ShortWrite ==> short != map[]
    ensures accepted && outcome != ShortWrite ==>
              && (outcome == Done <==> |body| == end - begin + 1)
              && (outcome == ShortRange <==> |body| < end - begin + 1)
              && Total(ns) == Min(|body|, end - begin + 1)
    ensures (forall n :: n in ns ==> n <= READ) && Total(ns) <= Min(|body|, end - begin + 1)
    ensures outcome != ShortWrite ==> forall n :: n in ns ==> n > 0
    ensures file[..] == Written(old(file[..]), begin, body, ns)
            == old(file[..])[..begin] + body[..Total(ns)] + old(file[..])[begin + Total(ns)..]
  {
    hide Written, Overwrite, Total, ReadBody;
    var offset, i := begin, 0;
    ns := [];
    NothingWritten(file[..], begin, body);
    if !accepted {
      WrittenIs(file[..], begin, body, ns);
      return RangeContract, ns;
    }
    while offset <= end
      invariant begin <= offset <= end + 1 && offset - begin == Total(ns) <= |body|
      invariant forall n :: n in ns ==> 0 < n <= READ
      invariant file[..] == Written(old(file[..]), begin, body, ns)
      decreases end + 1 - offset
    {
      var b := ReadBody(body, offset - begin, Min(READ, end - offset + 1), if i < |sizes| then sizes[i] else 0);
      if b == [] { break; }
      var written := if i in short then Min(short[i], |b|) else |b|;
      PrefixOfSlice(body, offset - begin, |b|, written);
      WriteAt(file, offset, b[..written]);
      WrittenMore(old(file[..]), begin, body, ns, written);
      ns := ns + [written];
      if written != |b| {
        WrittenIs(old(file[..]), begin, body, ns);
        return ShortWrite, ns;
      }
      offset, i := offset + written, i + 1;
    }
    WrittenIs(old(file[..]), begin, body, ns);
    outcome := if offset <= end then ShortRange else if offset - begin < |body| then LongRange else Done;
  }

  lemma PrefixOfSlice(s: seq<Byte>, i: nat, n: nat, m: nat)
    requires m <= n && i + n <= |s|
    ensures s[i..i + n][..m] == s[i..i + m]
  { }

  method WriteAt(file: array<Byte>, offset: nat, b: seq<Byte>)
    requires offset + |b| <= file.Length
    modifies file
    ensures file[..] == Overwrite(old(file[..]), offset, b)
  {
    forall k | 0 <= k < |b| { file[offset + k] := b[k]; }
  }

  // ----- all workers, any schedule -----

  /** The files and how far each job has come. */
  datatype Progress = Progress(files: seq<seq<Byte>>, offsets: seq<nat>)

  /** Job `job` writes its next `n` bytes. */
  datatype Write = Write(job: nat, n: nat)

  ghost predicate Shaped(files: seq<seq<Byte>>, specs: seq<Spec>) {
    |files| == |specs| && forall f :: 0 <= f < |specs| ==> |files[f]| == specs[f].size
  }

  /** The write is a read of one to `READ` bytes within what the job still misses. */
  predicate Possible(p: Progress, jobs: seq<Job>, w: Write) {
    && w.job < |jobs| == |p.offsets| && 0 < w.n <= READ
    && p.offsets[w.job] + w.n <= jobs[w.job].end + 1
  }

  function Perform(p: Progress, jobs: seq<Job>, remote: seq<seq<Byte>>, w: Write): Progress
    requires Possible(p, jobs, w)
    requires jobs[w.job].file < |p.files| == |remote|
    requires jobs[w.job].end < |p.files[jobs[w.job].file]| == |remote[jobs[w.job].file]|
  {
    var f, at := jobs[w.job].file, p.offsets[w.job];
    Progress(p.files[f := Overwrite(p.files[f], at, remote[f][at..at + w.n])], p.offsets[w.job := at + w.n])
  }

  /** Each byte is the remote one if its job has passed it, and the initial one otherwise. */
  ghost predicate Accurate(p: Progress, jobs: seq<Job>, specs: seq<Spec>, initial: seq<seq<Byte>>,
                           remote: seq<seq<Byte>>) {
    && WellFormed(specs) && Apart(jobs, specs) && Shaped(p.files, specs) && Shaped(initial, specs)
    && Shaped(remote, specs)
    && |p.offsets| == |jobs|
    && (forall j :: 0 <= j < |jobs| ==> jobs[j].begin <= p.offsets[j] <= jobs[j].end + 1)
    && (forall j, x :: 0 <= j < |jobs| && jobs[j].begin <= x < p.offsets[j] ==>
          p.files[jobs[j].file][x] == remote[jobs[j].file][x])
    && (forall f, x :: 0 <= f < |specs| && 0 <= x < specs[f].kept ==> p.files[f][x] == initial[f][x])
  }

  lemma PerformAccurate(p: Progress, jobs: seq<Job>, specs: seq<Spec>, initial: seq<seq<Byte>>, remote: seq<seq<Byte>>,
                        w: Write)
    requires Accurate(p, jobs, specs, initial, remote) && Possible(p, jobs, w)
    ensures Accurate(Perform(p, jobs, remote, w), jobs, specs, initial, remote)
  {
    var q := Perform(p, jobs, remote, w);
    var f, at := jobs[w.job].file, p.offsets[w.job];
    assert forall x :: 0 <= x < |p.files[f]| ==>
             q.files[f][x] == if at <= x < at + w.n then remote[f][x] else p.files[f][x];
    forall j, x | 0 <= j < |jobs| && jobs[j].begin <= x < q.offsets[j]
      ensures q.files[jobs[j].file][x] == remote[jobs[j].file][x]
    {
      if j != w.job {
        assert q.offsets[j] == p.offsets[j];
        assert p.files[jobs[j].file][x] == remote[jobs[j].file][x];
      } else if x < at {
        assert p.files[jobs[j].file][x] == remote[jobs[j].file][x];
      }
    }
  }

  /** A schedule is any interleaving of possible writes. */
  ghost predicate Schedule(p: Progress, jobs: seq<Job>, specs: seq<Spec>, initial: seq<seq<Byte>>,
                           remote: seq<seq<Byte>>,
                           ws: seq<Write>, end: Progress)
    requires Accurate(p, jobs, specs, initial, remote)
    decreases |ws|
  {
    if ws == [] then end == p
    else Possible(p, jobs, ws[0])
         && (PerformAccurate(p, jobs, specs, initial, remote, ws[0]);
             Schedule(Perform(p, jobs, remote, ws[0]), jobs, specs, initial, remote, ws[1..], end))
  }

  function Begins(jobs: seq<Job>): seq<nat> {
    seq(|jobs|, i requires 0 <= i < |jobs| => jobs[i].begin)
  }

  predicate Finished(p: Progress, jobs: seq<Job>) {
    |p.offsets| == |jobs| && forall j :: 0 <= j < |jobs| ==> p.offsets[j] == jobs[j].end + 1
  }

  lemma {:induction false} ScheduleAccurate(p: Progress, jobs: seq<Job>, specs: seq<Spec>, initial: seq<seq<Byte>>,
                                            remote: seq<seq<Byte>>, ws: seq<Write>, end: Progress)
    requires Accurate(p, jobs, specs, initial, remote) && Schedule(p, jobs, specs, initial, remote, ws, end)
    ensures Accurate(end, jobs, specs, initial, remote)
    decreases |ws|
  {
    if ws != [] {
      PerformAccurate(p, jobs, specs, initial, remote, ws[0]);
      ScheduleAccurate(Perform(p, jobs, remote, ws[0]), jobs, specs, initial, remote, ws[1..], end);
    }
  }

  lemma {:induction false} ScheduleMore(p: Progress, jobs: seq<Job>, specs: seq<Spec>, initial: seq<seq<Byte>>,
                                        remote: seq<seq<Byte>>, ws: seq<Write>, q: Progress, w: Write)
    requires Accurate(p, jobs, specs, initial, remote) && Schedule(p, jobs, specs, initial, remote, ws, q)
    requires Accurate(q, jobs, specs, initial, remote) && Possible(q, jobs, w)
    ensures Schedule(p, jobs, specs, initial, remote, ws + [w], Perform(q, jobs, remote, w))
    decreases |ws|
  {
    hide Accurate;
    AccurateFiles(q, jobs, specs, initial, remote, w);
    if ws == [] {
      assert [] + [w] == [w];
      PerformAccurate(p, jobs, specs, initial, remote, w);
      assert [w][1..] == [];
    } else {
      assert (ws + [w])[1..] == ws[1..] + [w];
      PerformAccurate(p, jobs, specs, initial, remote, ws[0]);
      AccurateFiles(p, jobs, specs, initial, remote, ws[0]);
      ScheduleMore(Perform(p, jobs, remote, ws[0]), jobs, specs, initial, remote, ws[1..], q, w);
    }
  }

  lemma AccurateFiles(p: Progress, jobs: seq<Job>, specs: seq<Spec>, initial: seq<seq<Byte>>, remote: seq<seq<Byte>>,
                      w: Write)
    requires Accurate(p, jobs, specs, initial, remote) && Possible(p, jobs, w)
    ensures jobs[w.job].file < |p.files| == |remote|
    ensures jobs[w.job].end < |p.files[jobs[w.job].file]| == |remote[jobs[w.job].file]|
  { }

  function WritesOf(j: nat, ns: seq<nat>): seq<Write> {
    if ns == [] then [] else WritesOf(j, ns[..|ns| - 1]) + [Write(j, ns[|ns| - 1])]
  }

  /** A worker given exactly its range writes as the schedules do: each pass of its loop is a possible
      write, and its file ends as its own writes leave it. */
  lemma {:induction false} WorkerIsSchedule(p: Progress, jobs: seq<Job>, specs: seq<Spec>, initial: seq<seq<Byte>>,
                                            remote: seq<seq<Byte>>, j: nat, body: seq<Byte>, ns: seq<nat>)
                                              returns (q: Progress)
    requires Accurate(p, jobs, specs, initial, remote) && j < |jobs| && p.offsets[j] == jobs[j].begin
    requires body == remote[jobs[j].file][jobs[j].begin..jobs[j].end + 1]
    requires (forall n :: n in ns ==> 0 < n <= READ) && Total(ns) <= |body|
    ensures Schedule(p, jobs, specs, initial, remote, WritesOf(j, ns), q)
    ensures var f := jobs[j].file;
            && q.files == p.files[f := Written(p.files[f], jobs[j].begin, body, ns)]
            && q.offsets == p.offsets[j := jobs[j].begin + Total(ns)]
  {
    hide Accurate, Written, Total, Perform;
    JobInside(p, jobs, specs, initial, remote, j);
    if ns == [] {
      NothingWritten(p.files[jobs[j].file], jobs[j].begin, body);
      q := p;
    } else {
      var front, n, f := ns[..|ns| - 1], ns[|ns| - 1], jobs[j].file;
      assert forall m :: m in front ==> m in ns;
      TotalMore(front, n);
      assert ns == front + [n] && n in ns;
      q := WorkerIsSchedule(p, jobs, specs, initial, remote, j, body, front);
      var w := Write(j, n);
      NextWrite(q, jobs, remote, j, body, Total(front), n);
      NextWritten(p.files, f, jobs[j].begin, body, front, n);
      UpdateTwice(p.offsets, j, jobs[j].begin + Total(front), jobs[j].begin + Total(front) + n);
      ScheduleAccurate(p, jobs, specs, initial, remote, WritesOf(j, front), q);
      ScheduleMore(p, jobs, specs, initial, remote, WritesOf(j, front), q, w);
      q := Perform(q, jobs, remote, w);
    }
  }

  /** One more pass of the loop, whatever other workers have done meanwhile: a worker that has written the first
      `done` bytes of its range writes the next `n`, and that is a possible write with the same effect. */
  lemma NextWrite(q: Progress, jobs: seq<Job>, remote: seq<seq<Byte>>, j: nat, body: seq<Byte>, done: nat, n: nat)
    requires j < |jobs| == |q.offsets| && jobs[j].file < |q.files| == |remote|
    requires jobs[j].begin <= jobs[j].end + 1 <= |q.files[jobs[j].file]| == |remote[jobs[j].file]|
    requires body == remote[jobs[j].file][jobs[j].begin..jobs[j].end + 1] && 0 < n <= READ && done + n <= |body|
    requires q.offsets[j] == jobs[j].begin + done
    ensures Possible(q, jobs, Write(j, n))
    ensures var f, at := jobs[j].file, jobs[j].begin + done;
            Perform(q, jobs, remote, Write(j, n))
            == Progress(q.files[f := Overwrite(q.files[f], at, body[done..done + n])], q.offsets[j := at + n])
  {
    hide Overwrite;
    SliceOfSlice(remote[jobs[j].file], jobs[j].begin, jobs[j].end + 1, done, n);
  }

  /** What one worker's own writes add up to when nobody interrupts it. */
  lemma NextWritten(files: seq<seq<Byte>>, f: nat, begin: nat, body: seq<Byte>, ns: seq<nat>, n: nat)
    requires f < |files| && begin + Total(ns) + n <= |files[f]| && Total(ns) + n <= |body|
    ensures Total(ns + [n]) == Total(ns) + n
    ensures var before := Written(files[f], begin, body, ns);
            files[f := before][f := Overwrite(before, begin + Total(ns), body[Total(ns)..Total(ns) + n])]
            == files[f := Written(files[f], begin, body, ns + [n])]
  {
    hide Written, Overwrite, Total;
    WrittenMore(files[f], begin, body, ns, n);
    UpdateTwice(files, f, Written(files[f], begin, body, ns), Written(files[f], begin, body, ns + [n]));
  }

  lemma UpdateTwice<T>(s: seq<T>, i: nat, x: T, y: T)
    requires i < |s|
    ensures s[i := x][i := y] == s[i := y]
  { }

  lemma SliceOfSlice(s: seq<Byte>, a: nat, b: nat, i: nat, n: nat)
    requires a <= b <= |s| && i + n <= b - a
    ensures s[a..b][i..i + n] == s[a + i..a + i + n]
  {
    var left, right := s[a..b][i..i + n], s[a + i..a + i + n];
    forall k | 0 <= k < n ensures left[k] == right[k] { }
  }

  lemma JobInside(p: Progress, jobs: seq<Job>, specs: seq<Spec>, initial: seq<seq<Byte>>, remote: seq<seq<Byte>>,
                  j: nat)
    requires Accurate(p, jobs, specs, initial, remote) && j < |jobs|
    ensures |p.offsets| == |jobs| && jobs[j].file < |p.files| == |remote|
    ensures jobs[j].begin <= jobs[j].end + 1 <= |p.files[jobs[j].file]| == |remote[jobs[j].file]|
  { }

  /** Every schedule that finishes all jobs leaves, in every file, the kept prefix followed by the remote bytes. */
  lemma AnySchedule(jobs: seq<Job>, specs: seq<Spec>, initial: seq<seq<Byte>>, remote: seq<seq<Byte>>,
                    ws: seq<Write>, end: Progress, f: nat)
    requires WellFormed(specs) && Tiles(jobs, specs) && Shaped(initial, specs) && Shaped(remote, specs)
    requires Schedule(Progress(initial, Begins(jobs)), jobs, specs, initial, remote, ws, end)
    requires Finished(end, jobs) && f < |specs|
    ensures f < |end.files| && end.files[f] == initial[f][..specs[f].kept] + remote[f][specs[f].kept..]
  {
    ScheduleAccurate(Progress(initial, Begins(jobs)), jobs, specs, initial, remote, ws, end);
    forall x | specs[f].kept <= x < specs[f].size ensures end.files[f][x] == remote[f][x] {
      assert Covered(jobs, f, x);
      var j :| 0 <= j < |jobs| && Covers(jobs[j], f, x);
    }
  }

  // ----- workers that interrupt each other -----

  /** Every worker is inside its range, and has a response of that length. */
  predicate Fits(p: Progress, jobs: seq<Job>, bodies: seq<seq<Byte>>) {
    && |p.offsets| == |jobs| == |bodies|
    && forall j :: 0 <= j < |jobs| ==>
         && jobs[j].file < |p.files| && jobs[j].begin <= p.offsets[j] <= jobs[j].end + 1 <= |p.files[jobs[j].file]|
         && |bodies[j]| == jobs[j].end + 1 - jobs[j].begin
  }

  /** One pass of one worker's loop: the next `n` bytes of its own response at its own offset. */
  function Pass(p: Progress, jobs: seq<Job>, bodies: seq<seq<Byte>>, w: Write): Progress
    requires Fits(p, jobs, bodies) && Possible(p, jobs, w)
  {
    var f, at := jobs[w.job].file, p.offsets[w.job];
    var pos := at - jobs[w.job].begin;
    Progress(p.files[f := Overwrite(p.files[f], at, bodies[w.job][pos..pos + w.n])], p.offsets[w.job := at + w.n])
  }

  lemma PassFits(p: Progress, jobs: seq<Job>, bodies: seq<seq<Byte>>, w: Write)
    requires Fits(p, jobs, bodies) && Possible(p, jobs, w)
    ensures Fits(Pass(p, jobs, bodies, w), jobs, bodies)
  { }

  /** The passes of all workers in any order. */
  ghost predicate Interleaves(p: Progress, jobs: seq<Job>, bodies: seq<seq<Byte>>, ws: seq<Write>, end: Progress)
    requires Fits(p, jobs, bodies)
    decreases |ws|
  {
    if ws == [] then end == p
    else && Possible(p, jobs, ws[0])
         && (PassFits(p, jobs, bodies, ws[0]);
             Interleaves(Pass(p, jobs, bodies, ws[0]), jobs, bodies, ws[1..], end))
  }

  /** Each response is the remote range of its job. */
  ghost predicate Answered(jobs: seq<Job>, remote: seq<seq<Byte>>, bodies: seq<seq<Byte>>)
    requires |bodies| == |jobs|
    requires forall j :: 0 <= j < |jobs| ==>
             jobs[j].file < |remote| && jobs[j].begin <= jobs[j].end + 1 <= |remote[jobs[j].file]|
  {
    forall j :: 0 <= j < |jobs| ==> bodies[j] == remote[jobs[j].file][jobs[j].begin..jobs[j].end + 1]
  }

  lemma AccurateFits(p: Progress, jobs: seq<Job>, specs: seq<Spec>, initial: seq<seq<Byte>>, remote: seq<seq<Byte>>,
                     bodies: seq<seq<Byte>>)
    requires Accurate(p, jobs, specs, initial, remote) && |bodies| == |jobs|
    ensures forall j :: 0 <= j < |jobs| ==>
              jobs[j].file < |remote| && jobs[j].begin <= jobs[j].end + 1 <= |remote[jobs[j].file]|
    ensures Answered(jobs, remote, bodies) ==> Fits(p, jobs, bodies)
  { }

  /** Workers that were answered with their ranges make a schedule, however their passes interleave. */
  lemma {:induction false} InterleavingIsSchedule(
      p: Progress, jobs: seq<Job>, specs: seq<Spec>, initial: seq<seq<Byte>>, remote: seq<seq<Byte>>,
      bodies: seq<seq<Byte>>, ws: seq<Write>, end: Progress)
    requires Accurate(p, jobs, specs, initial, remote) && Fits(p, jobs, bodies)
    requires (AccurateFits(p, jobs, specs, initial, remote, bodies); Answered(jobs, remote, bodies))
    requires Interleaves(p, jobs, bodies, ws, end)
    ensures Schedule(p, jobs, specs, initial, remote, ws, end)
    decreases |ws|
  {
    hide Accurate, Overwrite;
    if ws != [] {
      var w := ws[0];
      AccurateFits(p, jobs, specs, initial, remote, bodies);
      AccurateFiles(p, jobs, specs, initial, remote, w);
      PassFits(p, jobs, bodies, w);
      PerformAccurate(p, jobs, specs, initial, remote, w);
      NextWrite(p, jobs, remote, w.job, bodies[w.job], p.offsets[w.job] - jobs[w.job].begin, w.n);
      assert Pass(p, jobs, bodies, w) == Perform(p, jobs, remote, w);
      AccurateFits(Pass(p, jobs, bodies, w), jobs, specs, initial, remote, bodies);
      InterleavingIsSchedule(Pass(p, jobs, bodies, w), jobs, specs, initial, remote, bodies, ws[1..], end);
    }
  }

  lemma BeginsAccurate(jobs: seq<Job>, specs: seq<Spec>, initial: seq<seq<Byte>>, remote: seq<seq<Byte>>)
    requires WellFormed(specs) && Tiles(jobs, specs) && Shaped(initial, specs) && Shaped(remote, specs)
    ensures Accurate(Progress(initial, Begins(jobs)), jobs, specs, initial, remote)
  { }

  /** Any interleaving in which all workers finish leaves, in every file, the kept prefix followed by the
      remote bytes. */
  lemma AnyInterleaving(jobs: seq<Job>, specs: seq<Spec>, initial: seq<seq<Byte>>, remote: seq<seq<Byte>>,
                        bodies: seq<seq<Byte>>, ws: seq<Write>, end: Progress, f: nat)
    requires WellFormed(specs) && Tiles(jobs, specs) && Shaped(initial, specs) && Shaped(remote, specs)
    requires |bodies| == |jobs| && Answered(jobs, remote, bodies)
    requires Fits(Progress(initial, Begins(jobs)), jobs, bodies)
    requires Interleaves(Progress(initial, Begins(jobs)), jobs, bodies, ws, end)
    requires Finished(end, jobs) && f < |specs|
    ensures f < |end.files| && end.files[f] == initial[f][..specs[f].kept] + remote[f][specs[f].kept..]
  {
    hide Accurate, Schedule, Interleaves;
    BeginsAccurate(jobs, specs, initial, remote);
    InterleavingIsSchedule(Progress(initial, Begins(jobs)), jobs, specs, initial, remote, bodies, ws, end);
    AnySchedule(jobs, specs, initial, remote, ws, end, f);
  }
}
