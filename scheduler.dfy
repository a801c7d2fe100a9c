/**
 * The interval registry of components/scheduler/scheduler.go.
 *
 * `Tasklist` maps an update interval (a number of minutes, as a string) to
 * the ordered ids of the users mailed at that interval.  The user table is
 * folded into `stored`, each user id's persisted `UpdateInterval`.  All
 * workers share the one context created at line 26, so `cancelled` is a
 * single flag.  `started` lists the intervals handed to `Schedule`, one
 * worker each.  `locked` is the registry mutex as seen between calls: only
 * the early return of `DeleteTask` leaves it held.
 *
 * Calls run one after another.  A call that waits on a held mutex forever
 * ends in `Blocked`.  A call that brings the process down ends in `Crashed`:
 * unlocking an unlocked mutex, which Go treats as a fatal error, and a
 * ticker panic during the start-up bootstrap, which runs outside the HTTP
 * server.  ScheduleNewTask and UpdateTask run inside HTTP handlers, and the
 * server's Recover middleware (server/server.go, line 21) catches their
 * ticker panic: such a call ends in `Panicked`, the server goes on, and the
 * mutex taken at line 63 stays held because no deferred Unlock releases it.
 */
module Scheduler {
  import opened Wrappers
  import Email
  import Pipeline

  datatype RegistryError =
    | UserNotFound(id: string)               // the user lookup failed
    | AlreadyScheduled                       // "user already has a task scheduled"
    | NoTaskWithInterval(interval: string)   // "no task with interval %s"

  datatype Outcome =
    | Done
    | Failed(error: RegistryError)
    | Blocked    // waits forever on the held mutex
    | Crashed    // the process ends
    | Panicked   // a panic recovered by the HTTP server; the mutex stays held

  datatype Registry = Registry(
    tasks: map<string, seq<string>>,
    stored: map<string, string>,
    cancelled: bool,
    started: seq<string>,
    locked: bool)

  /** The state after a call, and how the call ended. */
  datatype Step = Step(after: Registry, outcome: Outcome)

  /** The intervals that the scheduler treats as "has a task" (lines 45, 59). */
  predicate IsActive(interval: string) {
    interval != "0" && interval != ""
  }

  ghost predicate NoEmptyGroups(tasks: map<string, seq<string>>) {
    forall interval :: interval in tasks ==> tasks[interval] != []
  }

  /**
   * Writing `UpdateInterval` through gorm's `Updates` with a struct skips
   * zero-valued fields, so the empty interval is never written.
   */
  function Persist(stored: map<string, string>, id: string, interval: string): (s: map<string, string>)
    ensures s.Keys == stored.Keys + (if interval == "" then {} else {id})
    ensures forall k :: k in stored && k != id ==> s[k] == stored[k]
    ensures id in s ==> s[id] == if interval == "" then stored[id] else interval
  {
    if interval == "" then stored else stored[id := interval]
  }

  // ---------------------------------------------------------------------
  // The ticker period of Schedule (lines 153-158)
  // ---------------------------------------------------------------------

  const MaxInt64: int := 0x7fff_ffff_ffff_ffff
  const MinInt64: int := -0x8000_0000_0000_0000
  /** `time.Minute`, in nanoseconds. */
  const Minute: int := 60_000_000_000

  predicate AllDigits(s: string) {
    forall i :: 0 <= i < |s| ==> '0' <= s[i] <= '9'
  }

  function DigitsValue(s: string): (v: nat)
    requires AllDigits(s)
    ensures s == [] ==> v == 0
  {
    if s == [] then 0 else DigitsValue(s[..|s| - 1]) * 10 + (s[|s| - 1] - '0') as int
  }

  const MaxUint64: int := 0xffff_ffff_ffff_ffff

  /** The length of the run of decimal digits that `s` starts with. */
  function DigitRun(s: string): (n: nat)
    ensures n <= |s| && AllDigits(s[..n])
    ensures n < |s| ==> !('0' <= s[n] <= '9')
  {
    if s == [] || !('0' <= s[0] <= '9') then 0
    else
      var n := 1 + DigitRun(s[1..]);
      assert s[..n] == [s[0]] + s[1..][..n - 1];
      n
  }

  /**
   * The integer `strconv.Atoi` hands back, whether or not it also reports an
   * error: an optional sign, then decimal digits read left to right.  A
   * non-digit met before the value passes the unsigned 64-bit range is a
   * syntax error and gives 0; a value that passes that range first, or any
   * value outside the signed range, gives the nearest 64-bit bound.
   * Schedule only logs the error and goes on with this value.
   */
  function Atoi(s: string): (n: int)
    ensures MinInt64 <= n <= MaxInt64
    ensures AllDigits(s) && s != [] && DigitsValue(s) <= MaxInt64 ==> n == DigitsValue(s)
    ensures s == [] ==> n == 0
  {
    var signed := |s| > 0 && (s[0] == '+' || s[0] == '-');
    var negative := signed && s[0] == '-';
    var digits := if signed then s[1..] else s;
    if digits == [] then 0
    else if AllDigits(digits) then
      var v: int := if negative then -(DigitsValue(digits) as int) else DigitsValue(digits);
      if v > MaxInt64 then MaxInt64 else if v < MinInt64 then MinInt64 else v
    else if DigitsValue(digits[..DigitRun(digits)]) > MaxUint64 then
      if negative then MinInt64 else MaxInt64
    else 0
  }

  /**
   * Digits that pass the unsigned 64-bit range before the first non-digit
   * give the largest 64-bit value, not 0: the range error is reported
   * before the syntax error is seen.
   */
  lemma AtoiOverflowFirst(d: string, junk: string)
    requires d != [] && AllDigits(d) && DigitsValue(d) > MaxUint64
    requires junk != [] && !('0' <= junk[0] <= '9')
    ensures Atoi(d + junk) == MaxInt64
  {
    OverflowingRun(d, junk);
  }

  /** The same with a minus sign gives the smallest 64-bit value. */
  lemma AtoiNegativeOverflowFirst(d: string, junk: string)
    requires d != [] && AllDigits(d) && DigitsValue(d) > MaxUint64
    requires junk != [] && !('0' <= junk[0] <= '9')
    ensures Atoi(['-'] + d + junk) == MinInt64
  {
    var s := ['-'] + d + junk;
    assert s[0] == '-' && s[1..] == d + junk;
    OverflowingRun(d, junk);
  }

  lemma OverflowingRun(d: string, junk: string)
    requires d != [] && AllDigits(d) && DigitsValue(d) > MaxUint64
    requires junk != [] && !('0' <= junk[0] <= '9')
    ensures var s := d + junk;
      && s != [] && '0' <= s[0] <= '9' && !AllDigits(s)
      && DigitsValue(s[..DigitRun(s)]) > MaxUint64
  {
    var s := d + junk;
    DigitRunStops(d, junk);
    assert s[..|d|] == d;
    assert s[|d|] == junk[0];
  }

  lemma {:induction false} DigitRunStops(d: string, junk: string)
    requires AllDigits(d) && junk != [] && !('0' <= junk[0] <= '9')
    ensures DigitRun(d + junk) == |d|
    decreases |d|
  {
    if d == [] {
      assert d + junk == junk;
    } else {
      assert (d + junk)[1..] == d[1..] + junk;
      DigitRunStops(d[1..], junk);
    }
  }

  /** Two's-complement wrap-around of a product of two `int64` values. */
  function Wrap64(x: int): (w: int)
    ensures MinInt64 <= w <= MaxInt64
    ensures MinInt64 <= x <= MaxInt64 ==> w == x
  {
    (x - MinInt64) % 0x1_0000_0000_0000_0000 + MinInt64
  }

  /** `time.Duration(intervalInt) * time.Minute`, with Go's wrap-around. */
  function TickerPeriod(interval: string): (p: int)
    ensures MinInt64 <= p <= MaxInt64
    ensures Atoi(interval) == 0 ==> p == 0
  {
    Wrap64(Atoi(interval) * Minute)
  }

  /** `time.NewTicker` panics unless its period is positive. */
  predicate StartsTicker(interval: string) {
    TickerPeriod(interval) > 0
  }

  /** From 1 to 153722867 minutes a ticker starts; from -153722867 to 0 minutes it panics. */
  lemma TickerWindow(interval: string)
    ensures 0 < Atoi(interval) <= 153722867 ==> StartsTicker(interval)
    ensures -153722867 <= Atoi(interval) <= 0 ==> !StartsTicker(interval)
  {
    var minutes := Atoi(interval);
    assert -153722867 <= minutes <= 153722867 ==> MinInt64 <= minutes * Minute <= MaxInt64;
  }

  /** A plain number of minutes up to 153722867 gives a ticker of exactly that many minutes. */
  lemma MinutesPeriod(interval: string)
    requires interval != [] && AllDigits(interval)
    requires 0 < DigitsValue(interval) <= 153722867
    ensures TickerPeriod(interval) == DigitsValue(interval) * Minute > 0
    ensures StartsTicker(interval)
  {
    assert DigitsValue(interval) * Minute <= MaxInt64;
  }

  /** The inactive intervals bring the process down when they are scheduled. */
  lemma InactivePanics()
    ensures !StartsTicker("0") && !StartsTicker("")
  {
    assert DigitsValue("0") == 0 by {
      assert "0"[..0] == "";
    }
  }

  lemma DigitsValueOfLimit()
    ensures DigitsValue("15372286") == 15372286
  {
    assert "15372286"[..7] == "1537228";
    assert "1537228"[..6] == "153722";
    assert "153722"[..5] == "15372";
    assert "15372"[..4] == "1537";
    assert "1537"[..3] == "153";
    assert "153"[..2] == "15";
    assert "15"[..1] == "1";
    assert "1"[..0] == "";
  }

  /** 153722867 minutes is the longest period; one minute more wraps to a negative period. */
  lemma LongestPeriod()
    ensures StartsTicker("153722867") && !StartsTicker("153722868")
  {
    DigitsValueOfLimit();
    assert "153722867"[..8] == "15372286";
    assert "153722868"[..8] == "15372286";
    assert DigitsValue("153722867") == 153722867;
    assert DigitsValue("153722868") == 153722868;
    MinutesPeriod("153722867");
    assert Atoi("153722868") == 153722868 by {
      assert AllDigits("153722868");
    }
    assert Wrap64(153722868 * Minute) < 0;
  }

  // ---------------------------------------------------------------------
  // remove and the range loops that call it (lines 83-87, 110-114, 141-150)
  // ---------------------------------------------------------------------

  /** `remove(s, i)` for an index inside the slice: the element at `i` is dropped, the order kept. */
  function Removed(s: seq<string>, i: nat): (r: seq<string>)
    requires i < |s|
    ensures |r| == |s| - 1
    ensures forall k :: 0 <= k < |r| ==> r[k] == if k < i then s[k] else s[k + 1]
  {
    s[..i] + s[i + 1..]
  }

  /**
   * The group left by `for i, uID := range group { if uID == id { group =
   * remove(group, i) } }`.  `remove` shifts the shared backing array in place
   * while the loop goes on reading it, so after a removal at `i` the loop
   * next reads what was at `i + 2`: the element that slid into `i` is
   * skipped.
   */
  function Scan(s: seq<string>, id: string, i: nat): (r: seq<string>)
    ensures |r| <= |s|
    ensures forall x :: x in r ==> x in s
    decreases |s| - i
  {
    if i >= |s| then s
    else if s[i] == id then Scan(Removed(s, i), id, i + 1)
    else Scan(s, id, i + 1)
  }

  /** `remove` on the backing array of a slice of length `n`: shift left, return the new length. */
  method Remove(a: array<string>, n: nat, i: nat) returns (m: nat)
    requires n <= a.Length
    modifies a
    ensures i >= n ==> m == n && a[..] == old(a[..])
    ensures i < n ==> m == n - 1 && a[..m] == Removed(old(a[..n]), i)
    ensures a[m..] == old(a[m..])
  {
    if i >= n {
      return n;
    }
    forall k | i <= k < n - 1 {
      a[k] := a[k + 1];
    }
    m := n - 1;
  }

  /** The range loop of DeleteTask and DeleteTaskforUser over one group. */
  method RemoveMember(group: seq<string>, id: string) returns (r: seq<string>)
    ensures r == Scan(group, id, 0)
  {
    var a := new string[|group|](k requires 0 <= k < |group| => group[k]);
    var n: nat := |group|;
    assert a[..n] == group;
    for i := 0 to |group|
      invariant n <= a.Length == |group|
      invariant Scan(a[..n], id, i) == Scan(group, id, 0)
    {
      if a[i] == id {
        n := Remove(a, n, i);
      }
    }
    r := a[..n];
  }

  /** The elements of `s` other than `id`, in order. */
  function Without(s: seq<string>, id: string): (r: seq<string>)
    ensures forall x :: x in r <==> x in s && x != id
  {
    if s == [] then []
    else Without(s[..|s| - 1], id) + (if s[|s| - 1] == id then [] else [s[|s| - 1]])
  }

  lemma {:induction false} WithoutRemoved(s: seq<string>, id: string, i: nat)
    requires i < |s| && s[i] == id
    ensures Without(Removed(s, i), id) == Without(s, id)
    decreases |s|
  {
    var n := |s| - 1;
    if i < n {
      var r := Removed(s, i);
      assert r[..|r| - 1] == Removed(s[..n], i);
      assert r[|r| - 1] == s[n];
      WithoutRemoved(s[..n], id, i);
    } else {
      assert Removed(s, i) == s[..n];
    }
  }

  /** The range loop removes only copies of `id`: everything else stays, in order. */
  lemma {:induction false} ScanKeepsOthers(s: seq<string>, id: string, i: nat)
    ensures Without(Scan(s, id, i), id) == Without(s, id)
    decreases |s| - i
  {
    if i < |s| {
      if s[i] == id {
        ScanKeepsOthers(Removed(s, i), id, i + 1);
        WithoutRemoved(s, id, i);
      } else {
        ScanKeepsOthers(s, id, i + 1);
      }
    }
  }

  /** From `i` on, a group without `id` is left alone. */
  lemma {:induction false} ScanAbsent(s: seq<string>, id: string, i: nat)
    requires forall k :: i <= k < |s| ==> s[k] != id
    ensures Scan(s, id, i) == s
    decreases |s| - i
  {
    if i < |s| {
      ScanAbsent(s, id, i + 1);
    }
  }

  /** An id that occurs once, at `k`, is removed exactly. */
  lemma {:induction false} ScanUnique(s: seq<string>, id: string, i: nat, k: nat)
    requires i <= k < |s| && s[k] == id
    requires forall j :: 0 <= j < |s| && j != k ==> s[j] != id
    ensures Scan(s, id, i) == Removed(s, k)
    decreases k - i
  {
    if i < k {
      ScanUnique(s, id, i + 1, k);
    } else {
      ScanAbsent(Removed(s, k), id, k + 1);
    }
  }

  /** Two adjacent copies are not both removed: the second slides into the slot the loop has passed. */
  lemma ScanSkipsNeighbour()
    ensures Scan(["u", "u"], "u", 0) == ["u"]
  {
    assert Removed(["u", "u"], 0) == ["u"];
  }

  // ---------------------------------------------------------------------
  // The registry operations, one call at a time
  // ---------------------------------------------------------------------

  /** The group read at a key; Go reads a missing key as an empty slice. */
  function Group(tasks: map<string, seq<string>>, interval: string): seq<string> {
    if interval in tasks then tasks[interval] else []
  }

  /**
   * ScheduleNewTask (lines 53-74): the user lookup and the "already
   * scheduled" check come before the mutex.  A known interval gets the id
   * appended; a new one becomes a singleton group and gets a worker.  When
   * the ticker panics, the group and the stored interval are already written
   * and the mutex is never released.
   */
  function ScheduleNewTaskStep(r: Registry, id: string, interval: string): (s: Step)
    ensures id !in r.stored ==> s == Step(r, Failed(UserNotFound(id)))
    ensures id in r.stored && IsActive(r.stored[id]) ==> s == Step(r, Failed(AlreadyScheduled))
    ensures id in r.stored && !IsActive(r.stored[id]) && r.locked ==> s == Step(r, Blocked)
    ensures s.outcome == Done <==>
      id in r.stored && !IsActive(r.stored[id]) && !r.locked && (interval in r.tasks || StartsTicker(interval))
    ensures s.outcome == Panicked <==>
      id in r.stored && !IsActive(r.stored[id]) && !r.locked && interval !in r.tasks && !StartsTicker(interval)
    ensures s.outcome != Crashed
    ensures s.outcome == Done || s.outcome == Panicked ==>
      && s.after.tasks.Keys == r.tasks.Keys + {interval}
      && s.after.tasks[interval] == Group(r.tasks, interval) + [id]
      && (forall k :: k in r.tasks && k != interval ==> s.after.tasks[k] == r.tasks[k])
      && s.after.stored == Persist(r.stored, id, interval)
      && s.after.cancelled == r.cancelled
      && s.after.locked == (s.outcome == Panicked)
    ensures s.outcome == Done ==>
      s.after.started == if interval in r.tasks then r.started else r.started + [interval]
    ensures s.outcome == Panicked ==> s.after.started == r.started
    ensures NoEmptyGroups(r.tasks) ==> NoEmptyGroups(s.after.tasks)
  {
    if id !in r.stored then Step(r, Failed(UserNotFound(id)))
    else if IsActive(r.stored[id]) then Step(r, Failed(AlreadyScheduled))
    else if r.locked then Step(r, Blocked)
    else
      var stored := Persist(r.stored, id, interval);
      if interval in r.tasks then
        Step(r.(tasks := r.tasks[interval := r.tasks[interval] + [id]], stored := stored), Done)
      else
        var r1 := r.(tasks := r.tasks[interval := [id]], stored := stored);
        if StartsTicker(interval) then Step(r1.(started := r.started + [interval]), Done)
        else Step(r1.(locked := true), Panicked)
  }

  /** The group at `interval` after the range loop has removed `id`, or the key dropped with `cancel()` fired. */
  function Prune(r: Registry, interval: string, group: seq<string>): (p: Registry)
    ensures p.stored == r.stored && p.started == r.started && p.locked == r.locked
    ensures p.cancelled == (r.cancelled || group == [])
    ensures interval in p.tasks <==> group != []
    ensures group != [] ==> p.tasks[interval] == group
    ensures forall k :: k != interval ==> (k in p.tasks <==> k in r.tasks)
    ensures forall k :: k in r.tasks && k != interval ==> p.tasks[k] == r.tasks[k]
    ensures NoEmptyGroups(r.tasks) ==> NoEmptyGroups(p.tasks)
  {
    if group == [] then r.(tasks := r.tasks - {interval}, cancelled := true)
    else r.(tasks := r.tasks[interval := group])
  }

  /**
   * DeleteTask (lines 76-101): an interval without a group returns an error
   * with the mutex still held (line 89).  Otherwise the id is scanned out of
   * the group, an emptied group is dropped and cancels every worker, and "0"
   * is stored whether or not the id was a member.
   */
  function DeleteTaskStep(r: Registry, id: string, interval: string): (s: Step)
    ensures id !in r.stored ==> s == Step(r, Failed(UserNotFound(id)))
    ensures id in r.stored && r.locked ==> s == Step(r, Blocked)
    ensures id in r.stored && !r.locked && interval !in r.tasks ==>
      s == Step(r.(locked := true), Failed(NoTaskWithInterval(interval)))
    ensures s.outcome == Done <==> id in r.stored && !r.locked && interval in r.tasks
    ensures s.outcome == Done ==>
      && s.after == Prune(r, interval, Scan(r.tasks[interval], id, 0)).(stored := r.stored[id := "0"])
      && Without(Group(s.after.tasks, interval), id) == Without(r.tasks[interval], id)
    ensures NoEmptyGroups(r.tasks) ==> NoEmptyGroups(s.after.tasks)
  {
    if id !in r.stored then Step(r, Failed(UserNotFound(id)))
    else if r.locked then Step(r, Blocked)
    else if interval !in r.tasks then Step(r.(locked := true), Failed(NoTaskWithInterval(interval)))
    else
      var group := Scan(r.tasks[interval], id, 0);
      ScanKeepsOthers(r.tasks[interval], id, 0);
      Step(Prune(r, interval, group).(stored := r.stored[id := "0"]), Done)
  }

  /**
   * DeleteTaskforUser (lines 103-125): the same removal at the user's stored
   * interval (skipped when that is ""), but a missing group counts as empty:
   * `cancel()` fires even for a user without a task.  It always succeeds
   * once the user is found.
   */
  function DeleteTaskForUserStep(r: Registry, id: string): (s: Step)
    ensures id !in r.stored ==> s == Step(r, Failed(UserNotFound(id)))
    ensures id in r.stored && r.locked ==> s == Step(r, Blocked)
    ensures s.outcome == Done <==> id in r.stored && !r.locked
    ensures s.outcome == Done ==>
      var interval := r.stored[id];
      && s.after.stored == r.stored[id := "0"]
      && (interval !in r.tasks ==> s.after == r.(cancelled := true, stored := r.stored[id := "0"]))
      && (interval in r.tasks && interval != "" ==>
            s.after == Prune(r, interval, Scan(r.tasks[interval], id, 0)).(stored := r.stored[id := "0"]))
    ensures NoEmptyGroups(r.tasks) ==> NoEmptyGroups(s.after.tasks)
  {
    if id !in r.stored then Step(r, Failed(UserNotFound(id)))
    else if r.locked then Step(r, Blocked)
    else
      var interval := r.stored[id];
      var group := if interval != "" && interval in r.tasks then Scan(r.tasks[interval], id, 0) else Group(r.tasks, interval);
      Step(Prune(r, interval, group).(stored := r.stored[id := "0"]), Done)
  }

  /** `Taskmanager.Mutex.Unlock()` after a failed call: a fatal error unless the mutex is held. */
  function UnlockStep(s: Step): (u: Step)
    ensures !u.after.locked && u.after.(locked := s.after.locked) == s.after
    ensures u.outcome == Crashed <==> !s.after.locked || s.outcome == Crashed
    ensures u.outcome != Crashed ==> u.outcome == s.outcome
  {
    if s.after.locked then Step(s.after.(locked := false), s.outcome) else Step(s.after, Crashed)
  }

  /**
   * UpdateTask (lines 127-139): DeleteTask, then ScheduleNewTask, unlocking
   * after either one fails.  Only the "no task with interval" failure of
   * DeleteTask leaves the mutex held; after every other failure the unlock
   * is a fatal error.  A ticker panic in ScheduleNewTask unwinds UpdateTask
   * too, so no unlock follows it.
   */
  function UpdateTaskStep(r: Registry, id: string, oldInterval: string, newInterval: string): (s: Step)
    ensures id !in r.stored && !r.locked ==> s == Step(r, Crashed)
    ensures id !in r.stored && r.locked ==> s == Step(r.(locked := false), Failed(UserNotFound(id)))
    ensures id in r.stored && r.locked ==> s == Step(r, Blocked)
    ensures id in r.stored && !r.locked && oldInterval !in r.tasks ==>
      s == Step(r, Failed(NoTaskWithInterval(oldInterval)))
    ensures id in r.stored && !r.locked && oldInterval in r.tasks ==>
      && s == ScheduleNewTaskStep(DeleteTaskStep(r, id, oldInterval).after, id, newInterval)
      && (s.outcome == Done || s.outcome == Panicked)
    ensures NoEmptyGroups(r.tasks) ==> NoEmptyGroups(s.after.tasks)
  {
    var d := DeleteTaskStep(r, id, oldInterval);
    match d.outcome
    case Done =>
      var n := ScheduleNewTaskStep(d.after, id, newInterval);
      if n.outcome.Failed? then UnlockStep(n) else n
    case Failed(_) => UnlockStep(d)
    case _ => d
  }

  /** One user of the bootstrap loop (lines 45-48): a singleton group and a worker for an active interval. */
  function ScheduleUser(r: Registry, id: string, interval: string): (s: Step)
    ensures s.outcome == Done || s.outcome == Crashed
    ensures s.outcome == Done <==> !IsActive(interval) || StartsTicker(interval)
    ensures s.after.stored == r.stored && s.after.cancelled == r.cancelled && s.after.locked == r.locked
    ensures !IsActive(interval) ==> s.after == r
    ensures IsActive(interval) ==> s.after.tasks == r.tasks[interval := [id]]
    ensures s.outcome == Done ==> s.after.started == r.started + (if IsActive(interval) then [interval] else [])
  {
    if !IsActive(interval) then Step(r, Done)
    else
      var r1 := r.(tasks := r.tasks[interval := [id]]);
      if StartsTicker(interval) then Step(r1.(started := r.started + [interval]), Done)
      else Step(r1, Crashed)
  }

  ghost predicate Listed(stored: map<string, string>, order: seq<string>) {
    forall k :: 0 <= k < |order| ==> order[k] in stored
  }

  /**
   * The bootstrap loop over the users in the order the store returns them.
   * It either reaches the end or stops at a ticker panic.
   */
  function Bootstrap(r: Registry, order: seq<string>): (s: Step)
    requires Listed(r.stored, order)
    ensures s.outcome == Done || s.outcome == Crashed
    decreases |order|
  {
    if order == [] then Step(r, Done)
    else
      var s := Bootstrap(r, order[..|order| - 1]);
      if s.outcome != Done then s else ScheduleUser(s.after, order[|order| - 1], r.stored[order[|order| - 1]])
  }

  /** ScheduleTasks (lines 40-51): it takes the mutex first, so it blocks only when the mutex is held. */
  function ScheduleTasksStep(r: Registry, order: seq<string>): (s: Step)
    requires Listed(r.stored, order)
    ensures s.outcome == Blocked <==> r.locked
    ensures s.outcome != Blocked ==> s.outcome == Done || s.outcome == Crashed
    ensures s.after.stored == r.stored && s.after.cancelled == r.cancelled
  {
    if r.locked then Step(r, Blocked)
    else
      BootstrapFrame(r, order);
      Bootstrap(r, order)
  }

  /** The bootstrap loop writes no stored interval, never cancels and leaves the mutex as it was. */
  lemma {:induction false} BootstrapFrame(r: Registry, order: seq<string>)
    requires Listed(r.stored, order)
    ensures var s := Bootstrap(r, order);
      s.after.stored == r.stored && s.after.cancelled == r.cancelled && s.after.locked == r.locked
    decreases |order|
  {
    if order != [] {
      PrefixListed(r.stored, order);
      BootstrapFrame(r, order[..|order| - 1]);
    }
  }

  /** The intervals the bootstrap hands to Schedule, one per qualifying user, in order. */
  function ActiveIntervals(stored: map<string, string>, order: seq<string>): (a: seq<string>)
    requires Listed(stored, order)
    ensures forall x :: x in a <==> exists k :: 0 <= k < |order| && IsActive(stored[order[k]]) && stored[order[k]] == x
  {
    if order == [] then []
    else
      var n := |order| - 1;
      var a := ActiveIntervals(stored, order[..n]);
      assert forall k :: 0 <= k < n ==> order[..n][k] == order[k];
      a + if IsActive(stored[order[n]]) then [stored[order[n]]] else []
  }

  /** A qualifying user whose interval does not start a ticker. */
  ghost predicate Panics(stored: map<string, string>, order: seq<string>)
    requires Listed(stored, order)
  {
    exists k :: 0 <= k < |order| && IsActive(stored[order[k]]) && !StartsTicker(stored[order[k]])
  }

  lemma PrefixListed(stored: map<string, string>, order: seq<string>)
    requires Listed(stored, order) && order != []
    ensures Listed(stored, order[..|order| - 1])
    ensures forall k :: 0 <= k < |order| - 1 ==> order[..|order| - 1][k] == order[k]
  {
  }

  /** ScheduleTasks reaches the end unless some qualifying user's interval makes the ticker panic. */
  lemma {:induction false} BootstrapDone(r: Registry, order: seq<string>)
    requires Listed(r.stored, order)
    ensures Bootstrap(r, order).outcome == Done <==> !Panics(r.stored, order)
    decreases |order|
  {
    if order != [] {
      var n := |order| - 1;
      PrefixListed(r.stored, order);
      BootstrapDone(r, order[..n]);
      if Panics(r.stored, order[..n]) {
        var k :| 0 <= k < n && IsActive(r.stored[order[..n][k]]) && !StartsTicker(r.stored[order[..n][k]]);
        assert order[..n][k] == order[k];
      }
    }
  }

  /** A complete ScheduleTasks calls Schedule once per qualifying user, in the order read. */
  lemma {:induction false} BootstrapStarted(r: Registry, order: seq<string>)
    requires Listed(r.stored, order) && Bootstrap(r, order).outcome == Done
    ensures Bootstrap(r, order).after.started == r.started + ActiveIntervals(r.stored, order)
    decreases |order|
  {
    if order != [] {
      BootstrapLastUser(r, order);
      ActiveIntervalsLast(r.stored, order);
      BootstrapStarted(r, order[..|order| - 1]);
    }
  }

  /** Once a user's ticker panics, the users after it are never read. */
  lemma {:induction false} BootstrapStops(r: Registry, order: seq<string>, i: int)
    requires Listed(r.stored, order) && 0 <= i <= |order|
    requires Listed(r.stored, order[..i]) && Bootstrap(r, order[..i]).outcome != Done
    ensures Bootstrap(r, order) == Bootstrap(r, order[..i])
    decreases |order|
  {
    if i < |order| {
      var n := |order| - 1;
      PrefixListed(r.stored, order);
      assert order[..n][..i] == order[..i];
      BootstrapStops(r, order[..n], i);
    } else {
      assert order[..i] == order;
    }
  }

  /** One more user read by the bootstrap loop. */
  lemma BootstrapLastUser(r: Registry, order: seq<string>)
    requires Listed(r.stored, order) && order != [] && Bootstrap(r, order).outcome == Done
    ensures var n := |order| - 1;
      && Listed(r.stored, order[..n])
      && var s0 := Bootstrap(r, order[..n]);
      && var s := Bootstrap(r, order);
      && var x := r.stored[order[n]];
      && s0.outcome == Done
      && (IsActive(x) ==> s.after.tasks == s0.after.tasks[x := [order[n]]] && s.after.started == s0.after.started + [x])
      && (!IsActive(x) ==> s.after == s0.after)
  {
    var n := |order| - 1;
    PrefixListed(r.stored, order);
    var s0 := Bootstrap(r, order[..n]);
    assert s0.outcome == Done;
    assert Bootstrap(r, order) == ScheduleUser(s0.after, order[n], r.stored[order[n]]);
  }

  lemma ActiveIntervalsLast(stored: map<string, string>, order: seq<string>)
    requires Listed(stored, order) && order != []
    ensures var n := |order| - 1;
      && Listed(stored, order[..n])
      && var x := stored[order[n]];
      && (IsActive(x) ==> ActiveIntervals(stored, order) == ActiveIntervals(stored, order[..n]) + [x])
      && (!IsActive(x) ==> ActiveIntervals(stored, order) == ActiveIntervals(stored, order[..n]))
  {
    PrefixListed(stored, order);
    var a := ActiveIntervals(stored, order[..|order| - 1]);
    assert a + [] == a;
  }

  /** After a complete ScheduleTasks the keys are the old ones plus every qualifying interval. */
  lemma {:induction false} BootstrapKeys(r: Registry, order: seq<string>)
    requires Listed(r.stored, order) && Bootstrap(r, order).outcome == Done
    ensures Bootstrap(r, order).after.tasks.Keys == r.tasks.Keys + (set x | x in ActiveIntervals(r.stored, order))
    ensures NoEmptyGroups(r.tasks) ==> NoEmptyGroups(Bootstrap(r, order).after.tasks)
    decreases |order|
  {
    if order != [] {
      BootstrapLastUser(r, order);
      ActiveIntervalsLast(r.stored, order);
      BootstrapKeys(r, order[..|order| - 1]);
    }
  }

  /** Each qualifying interval holds only the last user read with it. */
  lemma {:induction false} BootstrapLastWins(r: Registry, order: seq<string>, k: int)
    requires Listed(r.stored, order) && Bootstrap(r, order).outcome == Done
    requires 0 <= k < |order| && IsActive(r.stored[order[k]]) && LastWith(r.stored, order, k)
    ensures var tasks := Bootstrap(r, order).after.tasks;
      r.stored[order[k]] in tasks && tasks[r.stored[order[k]]] == [order[k]]
    decreases |order|
  {
    var n := |order| - 1;
    BootstrapLastUser(r, order);
    if k < n {
      PrefixListed(r.stored, order);
      assert LastWith(r.stored, order[..n], k);
      BootstrapLastWins(r, order[..n], k);
      assert r.stored[order[k]] != r.stored[order[n]];
    }
  }

  /** Keys that no user read names keep their groups. */
  lemma {:induction false} BootstrapUntouched(r: Registry, order: seq<string>, x: string)
    requires Listed(r.stored, order) && Bootstrap(r, order).outcome == Done
    requires x in r.tasks && x !in ActiveIntervals(r.stored, order)
    ensures x in Bootstrap(r, order).after.tasks && Bootstrap(r, order).after.tasks[x] == r.tasks[x]
    decreases |order|
  {
    if order != [] {
      BootstrapLastUser(r, order);
      ActiveIntervalsLast(r.stored, order);
      BootstrapUntouched(r, order[..|order| - 1], x);
    }
  }

  /** No user read after the `k`-th has the same stored interval. */
  ghost predicate LastWith(stored: map<string, string>, order: seq<string>, k: int)
    requires Listed(stored, order) && 0 <= k < |order|
  {
    forall j :: k < j < |order| ==> stored[order[j]] != stored[order[k]]
  }

  // ---------------------------------------------------------------------
  // Which groups an id belongs to
  // ---------------------------------------------------------------------

  /**
   * The registry agrees with the stored intervals: every key is an active
   * interval with a non-empty group, every member has that interval stored,
   * and no group lists an id twice.
   */
  ghost predicate Consistent(r: Registry) {
    && (forall x :: x in r.tasks ==> IsActive(x) && r.tasks[x] != [])
    && (forall x, k :: x in r.tasks && 0 <= k < |r.tasks[x]| ==>
          r.tasks[x][k] in r.stored && r.stored[r.tasks[x][k]] == x)
    && (forall x, j, k :: x in r.tasks && 0 <= j < k < |r.tasks[x]| ==> r.tasks[x][j] != r.tasks[x][k])
  }

  /** Each id is a member of at most one group. */
  ghost predicate AtMostOneGroup(tasks: map<string, seq<string>>) {
    forall x, y, j, k ::
      (x in tasks && y in tasks && 0 <= j < |tasks[x]| && 0 <= k < |tasks[y]| && tasks[x][j] == tasks[y][k])
      ==> x == y
  }

  lemma ConsistentOneGroup(r: Registry)
    requires Consistent(r)
    ensures AtMostOneGroup(r.tasks)
  {
  }

  /** A user without an active stored interval is in no group. */
  lemma InactiveNotMember(r: Registry, id: string)
    requires Consistent(r) && id in r.stored && !IsActive(r.stored[id])
    ensures forall x, k :: x in r.tasks && 0 <= k < |r.tasks[x]| ==> r.tasks[x][k] != id
  {
  }

  /** Scheduling a user that has no task, at an active interval, keeps the registry consistent. */
  lemma ScheduleNewTaskConsistent(r: Registry, id: string, interval: string)
    requires Consistent(r) && IsActive(interval)
    ensures Consistent(ScheduleNewTaskStep(r, id, interval).after)
  {
    var s := ScheduleNewTaskStep(r, id, interval);
    if s.outcome == Done || s.outcome == Panicked {
      InactiveNotMember(r, id);
      var g := Group(r.tasks, interval) + [id];
      assert s.after.tasks[interval] == g;
      forall x, k | x in s.after.tasks && 0 <= k < |s.after.tasks[x]|
        ensures s.after.tasks[x][k] in s.after.stored && s.after.stored[s.after.tasks[x][k]] == x
      {
        if x != interval {
          assert s.after.tasks[x][k] == r.tasks[x][k];
        } else if k < |g| - 1 {
          assert g[k] == r.tasks[interval][k];
        }
      }
      forall x, j, k | x in s.after.tasks && 0 <= j < k < |s.after.tasks[x]|
        ensures s.after.tasks[x][j] != s.after.tasks[x][k]
      {
        if x == interval && k < |g| - 1 {
          assert g[j] == r.tasks[interval][j] && g[k] == r.tasks[interval][k];
        } else if x == interval {
          assert g[j] == r.tasks[interval][j];
        }
      }
    }
  }

  /** Removing an id that a consistent group holds at most once leaves a group without it, in order. */
  lemma PrunedGroup(s: seq<string>, id: string, g: seq<string>)
    requires forall j, k :: 0 <= j < k < |s| ==> s[j] != s[k]
    requires g == Scan(s, id, 0)
    ensures forall k :: 0 <= k < |g| ==> g[k] != id && g[k] in s
    ensures forall j, k :: 0 <= j < k < |g| ==> g[j] != g[k]
  {
    if k :| 0 <= k < |s| && s[k] == id {
      ScanUnique(s, id, 0, k);
      forall j | 0 <= j < |g| ensures g[j] != id && g[j] in s {
        if j < k { assert g[j] == s[j]; } else { assert g[j] == s[j + 1]; }
      }
      forall i, j | 0 <= i < j < |g| ensures g[i] != g[j] {
        var i' := if i < k then i else i + 1;
        var j' := if j < k then j else j + 1;
        assert g[i] == s[i'] && g[j] == s[j'];
      }
    } else {
      ScanAbsent(s, id, 0);
    }
  }

  /** The registry after `Prune` with a group of members of the old one stays consistent. */
  lemma PruneConsistent(r: Registry, interval: string, id: string)
    requires Consistent(r) && id in r.stored && interval in r.tasks && r.stored[id] == interval
    ensures var p := Prune(r, interval, Scan(r.tasks[interval], id, 0));
      Consistent(p.(stored := r.stored[id := "0"]))
  {
    var g := Scan(r.tasks[interval], id, 0);
    PrunedGroup(r.tasks[interval], id, g);
    var p := Prune(r, interval, g).(stored := r.stored[id := "0"]);
    forall x, k | x in p.tasks && 0 <= k < |p.tasks[x]|
      ensures p.tasks[x][k] in p.stored && p.stored[p.tasks[x][k]] == x
    {
      var m := p.tasks[x][k];
      if x == interval {
        assert p.tasks[interval] == g;
        assert m == g[k] && m != id && m in r.tasks[interval];
        var j :| 0 <= j < |r.tasks[interval]| && r.tasks[interval][j] == m;
      } else {
        assert m == r.tasks[x][k];
        assert m != id;
      }
    }
  }

  /** DeleteTask keeps the registry consistent as long as the caller passes the user's stored interval. */
  lemma DeleteTaskConsistent(r: Registry, id: string, interval: string)
    requires Consistent(r)
    requires id in r.stored ==> interval == r.stored[id]
    ensures Consistent(DeleteTaskStep(r, id, interval).after)
  {
    if id in r.stored && !r.locked && interval in r.tasks {
      PruneConsistent(r, interval, id);
    }
  }

  /** DeleteTaskforUser keeps the registry consistent. */
  lemma DeleteTaskForUserConsistent(r: Registry, id: string)
    requires Consistent(r)
    ensures Consistent(DeleteTaskForUserStep(r, id).after)
  {
    if id in r.stored && !r.locked {
      var interval := r.stored[id];
      if interval in r.tasks {
        PruneConsistent(r, interval, id);
      } else {
        InactiveOrAbsent(r, id);
      }
    }
  }

  lemma InactiveOrAbsent(r: Registry, id: string)
    requires Consistent(r) && id in r.stored && r.stored[id] !in r.tasks
    ensures Consistent(r.(cancelled := true, stored := r.stored[id := "0"]))
  {
    var p := r.(cancelled := true, stored := r.stored[id := "0"]);
    forall x, k | x in p.tasks && 0 <= k < |p.tasks[x]|
      ensures p.tasks[x][k] in p.stored && p.stored[p.tasks[x][k]] == x
    {
      assert r.tasks[x][k] != id;
    }
  }

  /** UpdateTask with the user's stored interval and an active new one keeps the registry consistent. */
  lemma UpdateTaskConsistent(r: Registry, id: string, oldInterval: string, newInterval: string)
    requires Consistent(r) && IsActive(newInterval)
    requires id in r.stored ==> oldInterval == r.stored[id]
    ensures Consistent(UpdateTaskStep(r, id, oldInterval, newInterval).after)
  {
    DeleteTaskConsistent(r, id, oldInterval);
    var d := DeleteTaskStep(r, id, oldInterval);
    ScheduleNewTaskConsistent(d.after, id, newInterval);
  }

  /** ScheduleTasks keeps the registry consistent: each user read lands in the group of its own stored interval. */
  lemma {:induction false} BootstrapConsistent(r: Registry, order: seq<string>)
    requires Listed(r.stored, order) && Consistent(r)
    ensures Consistent(Bootstrap(r, order).after)
    decreases |order|
  {
    if order != [] {
      PrefixListed(r.stored, order);
      BootstrapConsistent(r, order[..|order| - 1]);
      BootstrapFrame(r, order[..|order| - 1]);
    }
  }

  /**
   * With an existing interval other than the user's own, DeleteTask stores
   * "0" but leaves the user in its group, and ScheduleNewTask then adds it
   * to a second group: "each id in at most one group" is not an invariant.
   */
  lemma MismatchedDeleteSharesId(r: Registry, id: string, own: string, other: string, k: int)
    requires Consistent(r) && !r.locked
    requires own in r.tasks && 0 <= k < |r.tasks[own]| && r.tasks[own][k] == id
    requires other in r.tasks && other != own
    ensures var d := DeleteTaskStep(r, id, other);
      && d.outcome == Done
      && var s := ScheduleNewTaskStep(d.after, id, other);
      && s.outcome == Done
      && s.after.tasks[own] == r.tasks[own]
      && s.after.tasks[other] == r.tasks[other] + [id]
      && !AtMostOneGroup(s.after.tasks)
  {
    var g := r.tasks[other];
    assert forall j :: 0 <= j < |g| ==> r.stored[g[j]] == other;
    ScanAbsent(g, id, 0);
    var d := DeleteTaskStep(r, id, other);
    var s := ScheduleNewTaskStep(d.after, id, other);
    assert s.after.tasks[other][|g|] == id == s.after.tasks[own][k];
  }

  /** No call takes back `cancel()`. */
  lemma CancelIsPermanent(r: Registry, id: string, interval: string, newInterval: string, order: seq<string>)
    requires r.cancelled && Listed(r.stored, order)
    ensures ScheduleNewTaskStep(r, id, interval).after.cancelled
    ensures DeleteTaskStep(r, id, interval).after.cancelled
    ensures DeleteTaskForUserStep(r, id).after.cancelled
    ensures UpdateTaskStep(r, id, interval, newInterval).after.cancelled
    ensures ScheduleTasksStep(r, order).after.cancelled
  {
  }

  /** An id that a group holds once is removed from it exactly; a group it empties is dropped with `cancel()`. */
  lemma DeleteTaskRemovesMember(r: Registry, id: string, interval: string, k: int)
    requires id in r.stored && !r.locked && interval in r.tasks
    requires 0 <= k < |r.tasks[interval]| && r.tasks[interval][k] == id
    requires forall j :: 0 <= j < |r.tasks[interval]| && j != k ==> r.tasks[interval][j] != id
    ensures var s := DeleteTaskStep(r, id, interval);
      var rest := Removed(r.tasks[interval], k);
      && s.outcome == Done
      && (rest != [] ==> interval in s.after.tasks && s.after.tasks[interval] == rest && s.after.cancelled == r.cancelled)
      && (rest == [] ==> interval !in s.after.tasks && s.after.cancelled)
  {
    ScanUnique(r.tasks[interval], id, 0, k);
  }

  /** DeleteTaskforUser for a user whose stored interval has no group still cancels every worker. */
  lemma DeleteWithoutGroupCancels(r: Registry, id: string)
    requires id in r.stored && !r.locked && r.stored[id] !in r.tasks
    ensures DeleteTaskForUserStep(r, id) == Step(r.(cancelled := true, stored := r.stored[id := "0"]), Done)
  {
  }

  /** After a successful DeleteTask, the ScheduleNewTask of UpdateTask cannot fail. */
  lemma UpdateTaskNeverFailsLate(r: Registry, id: string, oldInterval: string, newInterval: string)
    requires id in r.stored && !r.locked && oldInterval in r.tasks
    ensures var s := UpdateTaskStep(r, id, oldInterval, newInterval);
      && s.after.stored[id] == (if newInterval == "" then "0" else newInterval)
      && (s.outcome == Done <==> newInterval in DeleteTaskStep(r, id, oldInterval).after.tasks || StartsTicker(newInterval))
  {
  }

  /**
   * After a recovered ticker panic in ScheduleNewTask the mutex stays held:
   * every later registry call for a known user that gets past its own
   * checks waits forever, and so does the bootstrap.
   */
  lemma PanicBlocksLaterCalls(r: Registry, id: string, interval: string, other: string, x: string, y: string, order: seq<string>)
    requires ScheduleNewTaskStep(r, id, interval).outcome == Panicked
    requires other in r.stored
    ensures var p := ScheduleNewTaskStep(r, id, interval).after;
      && p.locked
      && interval in p.tasks && p.tasks[interval] == [id]
      && DeleteTaskStep(p, other, x).outcome == Blocked
      && DeleteTaskForUserStep(p, other).outcome == Blocked
      && UpdateTaskStep(p, other, x, y).outcome == Blocked
      && (!IsActive(p.stored[other]) ==> ScheduleNewTaskStep(p, other, y).outcome == Blocked)
      && (Listed(p.stored, order) ==> ScheduleTasksStep(p, order).outcome == Blocked)
  {
  }

  // ---------------------------------------------------------------------
  // One tick of a worker (lines 164-193)
  // ---------------------------------------------------------------------

  /** The mail a member receives on a tick. */
  datatype Notice =
    | Summary(to: string, summary: string)                  // the summary and its word cloud
    | NoNewEmails(to: string)                               // "No new emails to summarize."
    | ErrorReport(to: string, error: Pipeline.PipelineError) // "Error: %s"

  /** The error text compared at line 181: the filter found nothing for the user's tags. */
  predicate NothingNew(e: Pipeline.PipelineError) {
    e.Filter? && e.cause.NoEmailsWithTags?
  }

  function Notify(id: string, result: Result<string, Pipeline.PipelineError>): (n: Notice)
    ensures n.to == id
    ensures n.Summary? <==> result.Success?
    ensures n.NoNewEmails? <==> result.Failure? && NothingNew(result.error)
    ensures n.ErrorReport? ==> n.error == result.error
  {
    match result
    case Success(summary) => Summary(id, summary)
    case Failure(e) => if NothingNew(e) then NoNewEmails(id) else ErrorReport(id, e)
  }

  /** The mails of one tick, given each member's pipeline result. */
  function Notices(group: seq<string>, run: string -> Result<string, Pipeline.PipelineError>): seq<Notice> {
    if group == [] then []
    else Notices(group[..|group| - 1], run) + [Notify(group[|group| - 1], run(group[|group| - 1]))]
  }

  /** A tick mails every member once, in group order, whatever its pipeline returned. */
  lemma {:induction false} NoticesPerMember(group: seq<string>, run: string -> Result<string, Pipeline.PipelineError>)
    ensures |Notices(group, run)| == |group|
    ensures forall k :: 0 <= k < |group| ==> Notices(group, run)[k] == Notify(group[k], run(group[k]))
    decreases |group|
  {
    if group != [] {
      var n := |group| - 1;
      NoticesPerMember(group[..n], run);
      assert forall k :: 0 <= k < n ==> group[..n][k] == group[k];
    }
  }

  /** A pipeline run whose filter found nothing is answered with the "no new emails" mail. */
  lemma NothingNewAnswered(id: string, user: Pipeline.UserConfig, session: Pipeline.Session)
    requires session.Connected? ==> Email.Ascending(session.box)
    requires Pipeline.Pipeline(user, session).result == Failure(Pipeline.Filter(Email.NoEmailsWithTags(user.tags)))
    ensures Notify(id, Pipeline.Pipeline(user, session).result) == NoNewEmails(id)
  {
  }

  // ---------------------------------------------------------------------
  // The registry object
  // ---------------------------------------------------------------------

  /** `Taskmanager`, with the user store and the shared context beside it. */
  class TaskManager {
    var tasks: map<string, seq<string>>
    var stored: map<string, string>
    var cancelled: bool
    var started: seq<string>
    var locked: bool

    function State(): Registry
      reads this
    {
      Registry(tasks, stored, cancelled, started, locked)
    }

    ghost predicate Valid()
      reads this
    {
      NoEmptyGroups(tasks)
    }

    /** The registry at start-up (line 24), over the users in the store. */
    constructor (users: map<string, string>)
      ensures Valid() && Consistent(State())
      ensures State() == Registry(map[], users, false, [], false)
    {
      tasks := map[];
      stored := users;
      cancelled := false;
      started := [];
      locked := false;
    }

    /** Schedule (lines 152-158) up to the worker: it starts a worker unless the ticker panics. */
    method Schedule(interval: string) returns (ok: bool)
      modifies this
      ensures ok == StartsTicker(interval)
      ensures started == if ok then old(started) + [interval] else old(started)
      ensures tasks == old(tasks) && stored == old(stored) && cancelled == old(cancelled) && locked == old(locked)
    {
      var minutes := Atoi(interval);
      var period := Wrap64(minutes * Minute);
      if period <= 0 {
        return false;
      }
      started := started + [interval];
      return true;
    }

    method ScheduleTasks(order: seq<string>) returns (outcome: Outcome)
      requires Valid() && Listed(stored, order)
      modifies this
      ensures Valid()
      ensures Step(State(), outcome) == ScheduleTasksStep(old(State()), order)
    {
      if locked {
        return Blocked;
      }
      for i := 0 to |order|
        invariant Valid() && stored == old(stored)
        invariant Bootstrap(old(State()), order[..i]) == Step(State(), Done)
      {
        assert order[..i + 1][..i] == order[..i];
        var id := order[i];
        var interval := stored[id];
        if IsActive(interval) {
          tasks := tasks[interval := [id]];
          var ok := Schedule(interval);
          if !ok {
            BootstrapStops(old(State()), order, i + 1);
            return Crashed;
          }
        }
      }
      assert order[..|order|] == order;
      return Done;
    }

    method ScheduleNewTask(id: string, interval: string) returns (outcome: Outcome)
      requires Valid()
      modifies this
      ensures Valid()
      ensures Step(State(), outcome) == ScheduleNewTaskStep(old(State()), id, interval)
    {
      if id !in stored {
        return Failed(UserNotFound(id));
      }
      if IsActive(stored[id]) {
        return Failed(AlreadyScheduled);
      }
      if locked {
        return Blocked;
      }
      if interval in tasks {
        tasks := tasks[interval := tasks[interval] + [id]];
        stored := Persist(stored, id, interval);
      } else {
        tasks := tasks[interval := [id]];
        stored := Persist(stored, id, interval);
        var ok := Schedule(interval);
        if !ok {
          locked := true;  // the panic skips the Unlock at line 72
          return Panicked;
        }
      }
      return Done;
    }

    method DeleteTask(id: string, interval: string) returns (outcome: Outcome)
      requires Valid()
      modifies this
      ensures Valid()
      ensures Step(State(), outcome) == DeleteTaskStep(old(State()), id, interval)
    {
      if id !in stored {
        return Failed(UserNotFound(id));
      }
      if locked {
        return Blocked;
      }
      if interval !in tasks {
        locked := true;  // returned without Unlock
        return Failed(NoTaskWithInterval(interval));
      }
      var group := RemoveMember(tasks[interval], id);
      PruneGroup(interval, group);
      stored := stored[id := "0"];
      return Done;
    }

    /** Lines 85 and 92-95: store the scanned group, and drop it with `cancel()` when it is empty. */
    method PruneGroup(interval: string, group: seq<string>)
      requires Valid()
      modifies this
      ensures Valid()
      ensures State() == Prune(old(State()), interval, group)
    {
      tasks := tasks[interval := group];
      if |tasks[interval]| == 0 {
        cancelled := true;
        tasks := tasks - {interval};
      }
    }

    method DeleteTaskForUser(id: string) returns (outcome: Outcome)
      requires Valid()
      modifies this
      ensures Valid()
      ensures Step(State(), outcome) == DeleteTaskForUserStep(old(State()), id)
    {
      if id !in stored {
        return Failed(UserNotFound(id));
      }
      if locked {
        return Blocked;
      }
      var interval := stored[id];
      var group := Group(tasks, interval);
      if interval != "" && interval in tasks {
        group := RemoveMember(tasks[interval], id);
      }
      PruneGroup(interval, group);
      stored := stored[id := "0"];
      return Done;
    }

    /** The `Taskmanager.Mutex.Unlock()` of UpdateTask after a failure. */
    method Unlock(failure: Outcome) returns (outcome: Outcome)
      modifies this
      ensures Step(State(), outcome) == UnlockStep(Step(old(State()), failure))
    {
      if !locked {
        return Crashed;  // fatal error: unlock of unlocked mutex
      }
      locked := false;
      return failure;
    }

    method UpdateTask(id: string, oldInterval: string, newInterval: string) returns (outcome: Outcome)
      requires Valid()
      modifies this
      ensures Valid()
      ensures Step(State(), outcome) == UpdateTaskStep(old(State()), id, oldInterval, newInterval)
    {
      outcome := DeleteTask(id, oldInterval);
      if outcome.Failed? {
        outcome := Unlock(outcome);
        return;
      }
      if outcome != Done {
        return;
      }
      outcome := ScheduleNewTask(id, newInterval);
      if outcome.Failed? {
        outcome := Unlock(outcome);
      }
    }

    /**
     * One tick of the worker started for `interval`.  A cancelled worker
     * has returned; otherwise the tick waits for the mutex and, holding it
     * throughout, mails every member of the group.
     */
    method Tick(interval: string, run: string -> Result<string, Pipeline.PipelineError>)
      returns (sent: seq<Notice>, outcome: Outcome)
      requires interval in started
      ensures cancelled ==> sent == [] && outcome == Done
      ensures !cancelled && locked ==> sent == [] && outcome == Blocked
      ensures !cancelled && !locked ==> outcome == Done && sent == Notices(Group(tasks, interval), run)
    {
      if cancelled {
        return [], Done;
      }
      if locked {
        return [], Blocked;
      }
      var group := Group(tasks, interval);
      sent := [];
      for i := 0 to |group|
        invariant sent == Notices(group[..i], run)
      {
        assert group[..i + 1][..i] == group[..i];
        var id := group[i];
        var result := run(id);
        var notice;
        if result.Success? {
          notice := Summary(id, result.value);
        } else if NothingNew(result.error) {
          notice := NoNewEmails(id);
        } else {
          notice := ErrorReport(id, result.error);
        }
        sent := sent + [notice];
      }
      assert group[..|group|] == group;
      outcome := Done;
    }
  }
}
