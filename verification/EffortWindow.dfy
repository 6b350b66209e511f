/** The finite call and unit window of a paid trial, and the slot matrix it is sized for. */
module EffortWindow {

  // ----- one reservation -----

  datatype Attempt = Attempt(n: nat, slot: string, profile: string, units: int)

  datatype Window = Window(calls: nat, reserved: int, maxCalls: nat, maxReserved: int, closed: bool, expires: int)

  /** The guard of the conditional update. */
  predicate Admits(w: Window, units: int, now: int) {
    !w.closed && w.expires > now && w.calls < w.maxCalls && w.reserved + units <= w.maxReserved
  }

  function Charge(w: Window, units: int): Window {
    w.(calls := w.calls + 1, reserved := w.reserved + units)
  }

  function Units(attempts: seq<Attempt>): int {
    if attempts == [] then 0 else Units(attempts[..|attempts| - 1]) + attempts[|attempts| - 1].units
  }

  lemma UnitsAppend(attempts: seq<Attempt>, a: Attempt)
    ensures Units(attempts + [a]) == Units(attempts) + a.units
  {
    assert (attempts + [a])[..|attempts|] == attempts;
  }

  /** Attempts are numbered 1..calls without a gap and the reserved units are exactly theirs. */
  ghost predicate Exact(w: Window, attempts: seq<Attempt>) {
    && w.calls == |attempts| <= w.maxCalls
    && w.reserved == Units(attempts) <= w.maxReserved
    && forall i :: 0 <= i < |attempts| ==> attempts[i].n == i + 1 && attempts[i].units > 0
  }

  lemma ChargeKeepsExact(w: Window, attempts: seq<Attempt>, units: int, now: int, slot: string, profile: string)
    requires Exact(w, attempts) && units > 0 && Admits(w, units, now)
    ensures Exact(Charge(w, units), attempts + [Attempt(w.calls + 1, slot, profile, units)])
  {
    UnitsAppend(attempts, Attempt(w.calls + 1, slot, profile, units));
  }

  /** What the database does while one transaction runs: the insert or the commit may fail. */
  datatype Faults = Faults(insertFails: bool, commitFails: bool)

  /** The retained window with its attempts, reserved from in whole transactions. */
  class Ledger {
    var window: Window
    var attempts: seq<Attempt>

    ghost predicate Valid() reads this { Exact(window, attempts) }

    constructor (maxCalls: nat, maxReserved: nat, expires: int)
      ensures Valid() && window == Window(0, 0, maxCalls, maxReserved, false, expires) && attempts == []
    {
      window := Window(0, 0, maxCalls, maxReserved, false, expires);
      attempts := [];
    }

    /** Either everything is committed and the next number returned, or nothing changes. */
    method Reserve(slot: string, profile: string, units: int, now: int, f: Faults) returns (ok: bool, n: nat)
      requires Valid()
      modifies this
      ensures Valid()
      ensures ok <==> units > 0 && old(Admits(window, units, now)) && !f.insertFails && !f.commitFails
      ensures ok ==> n == old(window.calls) + 1
                     && Books(window, attempts)
                         == Transact(old(Books(window, attempts)), Reservation(slot, profile, units, now))
      ensures !ok ==> window == old(window) && attempts == old(attempts)
    {
      var savedWindow, savedAttempts := window, attempts;
      ok, n := false, 0;
      if units <= 0 { return; }
      if window.closed || window.expires <= now || window.calls >= window.maxCalls
        || window.reserved + units > window.maxReserved {
        return;
      }
      window := window.(calls := window.calls + 1, reserved := window.reserved + units);
      n := window.calls;
      attempts := attempts + [Attempt(n, slot, profile, units)];
      if f.insertFails || f.commitFails {
        window, attempts := savedWindow, savedAttempts;
        return;
      }
      ok := true;
      ChargeKeepsExact(old(window), old(attempts), units, now, slot, profile);
    }

    method Close()
      requires Valid()
      modifies this
      ensures Valid() && window == old(window).(closed := true) && attempts == old(attempts)
    {
      window := window.(closed := true);
    }
  }

  // ----- many workers, any interleaving -----

  /** A transaction that has updated the window row and so holds its lock. */
  datatype Tx = Tx(worker: nat, units: int, now: int, window: Window, row: seq<Attempt>)

  /** What is committed, and the transaction holding the row lock, if any. */
  datatype Db = Db(window: Window, attempts: seq<Attempt>, holder: seq<Tx>)

  datatype Move =
    | Update(worker: nat, units: int, now: int)
    | Insert(worker: nat, slot: string, profile: string)
    | Commit(worker: nat)
    | Rollback(worker: nat)
    | Shut

  predicate Holds(d: Db, worker: nat) { |d.holder| == 1 && d.holder[0].worker == worker }

  /** One statement.  An update of the window row waits while another transaction holds it;
      a worker that does not hold the lock has nothing to insert, commit or roll back. */
  function Execute(d: Db, m: Move): Db {
    match m
    case Update(worker, units, now) =>
      if d.holder == [] && units > 0 && Admits(d.window, units, now)
      then d.(holder := [Tx(worker, units, now, Charge(d.window, units), [])]) else d
    case Insert(worker, slot, profile) =>
      if Holds(d, worker) && d.holder[0].row == []
      then d.(holder := [d.holder[0].(row := [Attempt(d.holder[0].window.calls, slot, profile, d.holder[0].units)])])
          else d
    case Commit(worker) =>
      if Holds(d, worker) && d.holder[0].row != []
      then Db(d.holder[0].window, d.attempts + d.holder[0].row, []) else d
    case Rollback(worker) => if Holds(d, worker) then d.(holder := []) else d
    case Shut => if d.holder == [] then d.(window := d.window.(closed := true)) else d
  }

  function Interleave(d: Db, ms: seq<Move>): Db {
    if ms == [] then d else Execute(Interleave(d, ms[..|ms| - 1]), ms[|ms| - 1])
  }

  /** The lock holder has charged exactly one more call on top of what is committed, on an open window. */
  ghost predicate Sound(d: Db) {
    && Exact(d.window, d.attempts)
    && |d.holder| <= 1
    && (d.holder != [] ==>
          var t := d.holder[0];
          && t.units > 0 && t.window == Charge(d.window, t.units) && Admits(d.window, t.units, t.now)
          && |t.row| <= 1
          && (t.row != [] ==> t.row[0].n == t.window.calls && t.row[0].units == t.units))
  }

  lemma CommitKeepsExact(w: Window, attempts: seq<Attempt>, t: Window, a: Attempt)
    requires Exact(w, attempts) && t == Charge(w, a.units) && a.units > 0 && a.n == t.calls
    requires t.calls <= t.maxCalls && t.reserved <= t.maxReserved
    ensures Exact(t, attempts + [a])
  {
    UnitsAppend(attempts, a);
  }

  lemma MoveKeepsSound(d: Db, m: Move)
    requires Sound(d)
    ensures Sound(Execute(d, m))
  {
    assert Exact(d.window.(closed := true), d.attempts);
    hide Exact, Units;
    if m.Commit? && Holds(d, m.worker) && d.holder[0].row != [] {
      assert d.holder[0].row == [d.holder[0].row[0]];
      CommitKeepsExact(d.window, d.attempts, d.holder[0].window, d.holder[0].row[0]);
    }
  }

  /** Under every interleaving the committed attempts are numbered without a gap, the reserved
      units are exactly theirs, and both maxima hold. */
  lemma {:induction false} EveryInterleaving(w: Window, ms: seq<Move>)
    requires w.calls == 0 && w.reserved == 0 <= w.maxReserved
    ensures Sound(Interleave(Db(w, [], []), ms))
  {
    if ms != [] {
      EveryInterleaving(w, ms[..|ms| - 1]);
      MoveKeepsSound(Interleave(Db(w, [], []), ms[..|ms| - 1]), ms[|ms| - 1]);
    }
  }

  /** A closed window stays closed, and nothing is ever committed to it again. */
  lemma {:induction false} NothingAfterClose(d: Db, ms: seq<Move>)
    requires Sound(d) && d.window.closed
    ensures Interleave(d, ms) == d
  {
    if ms != [] { NothingAfterClose(d, ms[..|ms| - 1]); }
  }

  /** What was committed once is never changed: later attempts only follow it. */
  lemma {:induction false} CommittedIsKept(d: Db, ms: seq<Move>)
    requires Sound(d)
    ensures Sound(Interleave(d, ms)) && d.attempts <= Interleave(d, ms).attempts
  {
    if ms != [] {
      CommittedIsKept(d, ms[..|ms| - 1]);
      MoveKeepsSound(Interleave(d, ms[..|ms| - 1]), ms[|ms| - 1]);
    }
  }

  // ----- some serial order does the same -----

  /** What is committed: the window with its attempts. */
  datatype Books = Books(window: Window, attempts: seq<Attempt>)

  /** A whole transaction: reserve under the window's guard, or close. */
  datatype Whole = Reservation(slot: string, profile: string, units: int, now: int) | Closing

  function Transact(b: Books, t: Whole): Books {
    match t
    case Reservation(slot, profile, units, now) =>
      if units > 0 && Admits(b.window, units, now)
      then Books(Charge(b.window, units), b.attempts + [Attempt(b.window.calls + 1, slot, profile, units)]) else b
    case Closing => b.(window := b.window.(closed := true))
  }

  function Serial(b: Books, ts: seq<Whole>): Books {
    if ts == [] then b else Transact(Serial(b, ts[..|ts| - 1]), ts[|ts| - 1])
  }

  /** The whole transaction a statement completes, if it completes one. */
  function Completes(d: Db, m: Move): seq<Whole> {
    match m
    case Commit(worker) =>
      if Holds(d, worker) && d.holder[0].row != []
      then [Reservation(d.holder[0].row[0].slot, d.holder[0].row[0].profile, d.holder[0].units, d.holder[0].now)]
          else []
    case Shut => if d.holder == [] then [Closing] else []
    case _ => []
  }

  /** Transactions in the order in which they are completed. */
  function SerialOrder(d: Db, ms: seq<Move>): seq<Whole> {
    if ms == [] then []
    else SerialOrder(d, ms[..|ms| - 1]) + Completes(Interleave(d, ms[..|ms| - 1]), ms[|ms| - 1])
  }

  function Reservations(ts: seq<Whole>): nat {
    if ts == [] then 0 else Reservations(ts[..|ts| - 1]) + if ts[|ts| - 1].Reservation? then 1 else 0
  }

  lemma SerialMore(b: Books, ts: seq<Whole>, t: Whole)
    ensures Serial(b, ts + [t]) == Transact(Serial(b, ts), t)
    ensures Reservations(ts + [t]) == Reservations(ts) + if t.Reservation? then 1 else 0
  {
    assert (ts + [t])[..|ts|] == ts;
  }

  /** A statement does to what is committed what the transaction it completes does. */
  lemma CompletesWhole(d: Db, m: Move)
    requires Sound(d)
    ensures var e, ts := Execute(d, m), Completes(d, m);
            && |ts| <= 1
            && (ts == [] ==> Books(e.window, e.attempts) == Books(d.window, d.attempts))
            && (ts != [] ==> && Books(e.window, e.attempts) == Transact(Books(d.window, d.attempts), ts[0])
                             && |e.attempts| == |d.attempts| + if ts[0].Reservation? then 1 else 0)
  {
    hide Exact;
    if m.Commit? && Holds(d, m.worker) && d.holder[0].row != [] {
      assert d.holder[0].row == [d.holder[0].row[0]];
    }
  }

  /** Every interleaving of statements by any number of workers has exactly the effect of its completed
      transactions run whole, one after the other, in the order of completion; each completed
      reservation is one of the committed attempts. */
  lemma {:induction false} Serializable(w: Window, ms: seq<Move>)
    requires w.calls == 0 && w.reserved == 0 <= w.maxReserved
    ensures var d, ts := Interleave(Db(w, [], []), ms), SerialOrder(Db(w, [], []), ms);
            Serial(Books(w, []), ts) == Books(d.window, d.attempts) && Reservations(ts) == |d.attempts|
  {
    if ms != [] {
      var front, m, d0 := ms[..|ms| - 1], ms[|ms| - 1], Db(w, [], []);
      var d, ts := Interleave(d0, front), SerialOrder(d0, front);
      Serializable(w, front);
      EveryInterleaving(w, front);
      CompletesWhole(d, m);
      hide Sound, Execute, Transact;
      if Completes(d, m) == [] {
        assert ts + Completes(d, m) == ts;
      } else {
        var t := Completes(d, m)[0];
        assert ts + Completes(d, m) == ts + [t];
        SerialMore(Books(w, []), ts, t);
      }
    }
  }

  // ----- the slot matrix -----

  datatype Slot = Slot(case_: string, profile: nat, mode: nat)

  const MODES: nat := 4
  const PROFILES: nat := 2

  function SlotOf(cases: seq<string>, i: nat, j: nat, k: nat): Slot
    requires i < |cases|
  {
    Slot(cases[i], (i + j + k) % PROFILES, (i + j) % MODES)
  }

  function SlotAt(cases: seq<string>, x: nat): Slot
    requires x < |cases| * 8
  {
    SlotOf(cases, x / 8, x % 8 / 2, x % 2)
  }

  lemma EighthOf(i: nat, r: nat)
    requires r < 8
    ensures (8 * i + r) / 8 == i && (8 * i + r) % 8 == r
  {}

  lemma HalfOf(i: nat, r: nat)
    requires r < 2
    ensures (2 * i + r) / 2 == i && (2 * i + r) % 2 == r
  {}

  lemma Position(i: nat, j: nat, k: nat)
    requires j < 4 && k < 2
    ensures var x := i * 8 + j * 2 + k; x / 8 == i && x % 8 / 2 == j && x % 2 == k
  {
    EighthOf(i, j * 2 + k);
    HalfOf(j, k);
    HalfOf(4 * i + j, k);
    assert i * 8 + j * 2 + k == 8 * i + (j * 2 + k) == 2 * (4 * i + j) + k;
  }

  /** The rotated nested loops of the manifest. */
  method Slots(cases: seq<string>) returns (slots: seq<Slot>)
    ensures |slots| == |cases| * 8
    ensures forall x :: 0 <= x < |slots| ==> slots[x] == SlotAt(cases, x)
  {
    hide SlotAt, SlotOf;
    slots := [];
    for i := 0 to |cases|
      invariant |slots| == i * 8
      invariant forall x :: 0 <= x < |slots| ==> slots[x] == SlotAt(cases, x)
    {
      for j := 0 to MODES
        invariant |slots| == i * 8 + j * 2
        invariant forall x :: 0 <= x < |slots| ==> slots[x] == SlotAt(cases, x)
      {
        var m := (i + j) % MODES;
        for k := 0 to PROFILES
          invariant |slots| == i * 8 + j * 2 + k
          invariant forall x :: 0 <= x < |slots| ==> slots[x] == SlotAt(cases, x)
        {
          AtPosition(cases, i, j, k);
          slots := slots + [Slot(cases[i], (i + j + k) % PROFILES, m)];
        }
      }
    }
  }

  lemma AtPosition(cases: seq<string>, i: nat, j: nat, k: nat)
    requires i < |cases| && j < MODES && k < PROFILES
    ensures i * 8 + j * 2 + k < |cases| * 8
    ensures SlotAt(cases, i * 8 + j * 2 + k) == SlotOf(cases, i, j, k)
            == Slot(cases[i], (i + j + k) % PROFILES, (i + j) % MODES)
  {
    Position(i, j, k);
  }

  /** Among four consecutive rotations one gives the mode, and of two one gives the profile. */
  lemma Rotation(i: nat, mode: nat, profile: nat) returns (j: nat, k: nat)
    requires mode < MODES && profile < PROFILES
    ensures j < 4 && k < 2 && (i + j) % MODES == mode && (i + j + k) % PROFILES == profile
  {
    var m := i % 4;
    j := if mode >= m then mode - m else mode + 4 - m;
    k := if (i + j) % 2 == profile then 0 else 1;
  }

  lemma RotationOnce(i: nat, j: nat, k: nat, j': nat, k': nat)
    requires j < 4 && j' < 4 && k < 2 && k' < 2
    requires (i + j) % MODES == (i + j') % MODES && (i + j + k) % PROFILES == (i + j' + k') % PROFILES
    ensures j == j' && k == k'
  {
    assert j == j';
  }

  lemma Unpack(cases: seq<string>, y: nat) returns (i: nat, j: nat, k: nat)
    requires y < |cases| * 8
    ensures i < |cases| && j < 4 && k < 2 && y == i * 8 + j * 2 + k
    ensures SlotAt(cases, y) == SlotOf(cases, i, j, k)
  {
    hide SlotOf;
    i, j, k := y / 8, y % 8 / 2, y % 2;
    Digits(y);
  }

  lemma Digits(y: nat)
    ensures y == y / 8 * 8 + y % 8 / 2 * 2 + y % 2 && y % 8 / 2 < 4
  {
    assert y % 8 % 2 == y % 2;
  }

  /** Rotation only changes the order: every case meets every mode under every profile exactly once. */
  lemma EveryCombinationOnce(cases: seq<string>, i: nat, mode: nat, profile: nat)
    requires i < |cases| && mode < MODES && profile < PROFILES
    requires forall a, b :: 0 <= a < b < |cases| ==> cases[a] != cases[b]
    ensures exists x: nat :: x < |cases| * 8 && SlotAt(cases, x) == Slot(cases[i], profile, mode)
                        && forall y: nat :: y < |cases| * 8 && SlotAt(cases, y) == Slot(cases[i], profile, mode) ==>
                            y == x
  {
    hide SlotAt;
    var j, k := Rotation(i, mode, profile);
    var x := i * 8 + j * 2 + k;
    AtPosition(cases, i, j, k);
    forall y: nat | y < |cases| * 8 && SlotAt(cases, y) == Slot(cases[i], profile, mode) ensures y == x {
      var i', j', k' := Unpack(cases, y);
      assert cases[i'] == cases[i];
      assert i' == i;
      RotationOnce(i, j, k, j', k');
    }
  }

  /** The window is created for exactly this many calls of exactly this many units. */
  function TrialWindow(slots: nat, taskCalls: nat, unitsPerCall: nat, expires: int): Window {
    Window(0, 0, slots * taskCalls, slots * taskCalls * unitsPerCall, false, expires)
  }

  lemma {:induction false} FixedUnits(attempts: seq<Attempt>, units: nat)
    requires forall a :: a in attempts ==> a.units == units
    ensures Units(attempts) == |attempts| * units
  {
    if attempts != [] { FixedUnits(attempts[..|attempts| - 1], units); }
  }

  /** While every call reserves the fixed amount, the unit limit never refuses before the call limit does. */
  lemma UnitsNeverBind(slots: nat, taskCalls: nat, units: nat, expires: int, w: Window, attempts: seq<Attempt>,
                       now: int)
    requires Exact(w, attempts) && (forall a :: a in attempts ==> a.units == units)
    requires var t := TrialWindow(slots, taskCalls, units, expires);
             w.maxCalls == t.maxCalls && w.maxReserved == t.maxReserved
    ensures Admits(w, units, now) <==> !w.closed && w.expires > now && w.calls < w.maxCalls
  {
    FixedUnits(attempts, units);
    if w.calls < w.maxCalls {
      assert (w.calls + 1) * units <= w.maxCalls * units;
    }
  }
}
