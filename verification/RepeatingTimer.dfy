/** The drift-free repeating timer of concurrency/09_timers.cpp: when its callbacks start, and what
    cancelling it guarantees in every interleaving. */
module RepeatingTimer {

  // ---- when callbacks start ----

  /** first is the first deadline; callback k takes work(k); sleep_until number k returns
      delay(k) later than it could. */
  datatype Timing = Timing(first: int, interval: nat, work: nat -> nat, delay: nat -> nat)

  /** `next` in round k: advanced by the interval, whatever the callbacks do. */
  function Deadline(t: Timing, k: nat): int {
    if k == 0 then t.first else Deadline(t, k - 1) + t.interval
  }

  function Max(a: int, b: int): int { if a >= b then a else b }

  /** When callback k starts: sleep until its deadline, or not at all if that has passed. */
  function Start(t: Timing, k: nat): int {
    if k == 0 then t.first + t.delay(0)
    else Max(Deadline(t, k), Start(t, k - 1) + t.work(k - 1)) + t.delay(k)
  }

  /** The time that rounds j .. k-1 take when nobody sleeps, and then the delay of round k. */
  function Busy(t: Timing, j: nat, k: nat): nat
    requires j <= k
    decreases k - j
  {
    if j == k then t.delay(k) else t.delay(j) + t.work(j) + Busy(t, j + 1, k)
  }

  lemma {:induction false} BusyExtends(t: Timing, j: nat, k: nat)
    requires j <= k
    ensures Busy(t, j, k + 1) == Busy(t, j, k) + t.work(k) + t.delay(k + 1)
    decreases k - j
  {
    if j < k {
      BusyExtends(t, j + 1, k);
    } else {
      assert Busy(t, k, k + 1) == t.delay(k) + t.work(k) + Busy(t, k + 1, k + 1);
    }
  }

  /** No callback starts before any deadline plus the work queued up since. */
  lemma {:induction false} StartAtLeast(t: Timing, j: nat, k: nat)
    requires j <= k
    ensures Start(t, k) >= Deadline(t, j) + Busy(t, j, k)
    decreases k
  {
    if j < k {
      StartAtLeast(t, j, k - 1);
      BusyExtends(t, j, k - 1);
    }
  }

  /** And one of those bounds is met: the last round that really slept. */
  lemma {:induction false} StartAttained(t: Timing, k: nat) returns (j: nat)
    ensures j <= k && Start(t, k) == Deadline(t, j) + Busy(t, j, k)
    decreases k
  {
    j := k;
    if k > 0 && Start(t, k - 1) + t.work(k - 1) > Deadline(t, k) {
      j := StartAttained(t, k - 1);
      BusyExtends(t, j, k - 1);
    }
  }

  ghost predicate IsBusyStart(t: Timing, k: nat, s: int) {
    && (forall j: nat :: j <= k ==> s >= Deadline(t, j) + Busy(t, j, k))
    && (exists j: nat :: j <= k && s == Deadline(t, j) + Busy(t, j, k))
  }

  /** Start k is the maximum over j <= k of deadline j plus everything that took time since. */
  lemma StartIsMaximum(t: Timing, k: nat, s: int)
    ensures s == Start(t, k) <==> IsBusyStart(t, k, s)
  {
    var j := StartAttained(t, k);
    forall i: nat | i <= k ensures Start(t, k) >= Deadline(t, i) + Busy(t, i, k) {
      StartAtLeast(t, i, k);
    }
    if IsBusyStart(t, k, s) {
      var i: nat :| i <= k && s == Deadline(t, i) + Busy(t, i, k);
      assert s >= Deadline(t, j) + Busy(t, j, k);
    }
  }

  /** Deadlines do not drift: they are exactly intervals apart. */
  lemma {:induction false} DeadlinesApart(t: Timing, j: nat, k: nat)
    requires j <= k
    ensures Deadline(t, k) == Deadline(t, j) + (k - j) * t.interval
    decreases k - j
  {
    if j < k {
      DeadlinesApart(t, j, k - 1);
      assert (k - j) * t.interval == (k - 1 - j) * t.interval + t.interval;
    }
  }

  ghost predicate KeepsUp(t: Timing, k: nat) {
    forall j: nat :: j <= k ==> Busy(t, j, k) <= (k - j) * t.interval
  }

  /** Tick k is exactly on schedule if and only if no stretch of rounds up to it took longer than
      its share of intervals. */
  lemma OnScheduleIff(t: Timing, k: nat)
    ensures Start(t, k) == Deadline(t, k) <==> KeepsUp(t, k)
  {
    var i := StartAttained(t, k);
    DeadlinesApart(t, i, k);
    StartAtLeast(t, k, k);
    if Start(t, k) == Deadline(t, k) {
      forall j: nat | j <= k ensures Busy(t, j, k) <= (k - j) * t.interval {
        StartAtLeast(t, j, k);
        DeadlinesApart(t, j, k);
      }
    }
    if KeepsUp(t, k) {
      assert Busy(t, i, k) <= (k - i) * t.interval;
    }
  }

  /** Without delays, callbacks that fit in the interval are all on schedule. */
  lemma {:induction false} ShortCallbacksOnSchedule(t: Timing, k: nat)
    requires forall i: nat :: t.delay(i) == 0 && t.work(i) <= t.interval
    ensures Start(t, k) == Deadline(t, k)
  {
    if k > 0 {
      ShortCallbacksOnSchedule(t, k - 1);
    }
  }

  /** Lateness does not accumulate past the slack: if the rounds from j on could be over by deadline
      k, some tick in between is waited for again, and starts exactly its own wake-up delay after
      its deadline. */
  lemma {:induction false} LatenessIsAbsorbed(t: Timing, j: nat, k: nat) returns (m: nat)
    requires j < k && Start(t, j) - t.delay(j) + Busy(t, j, k) - t.delay(k) <= Deadline(t, k)
    ensures j < m <= k && Start(t, m) == Deadline(t, m) + t.delay(m)
    decreases k - j
  {
    if Start(t, j) + t.work(j) <= Deadline(t, j + 1) {
      m := j + 1;
    } else {
      m := LatenessIsAbsorbed(t, j + 1, k);
    }
  }

  function Starts(t: Timing, n: nat): (r: seq<int>)
    ensures |r| == n
  {
    if n == 0 then [] else Starts(t, n - 1) + [Start(t, n - 1)]
  }

  lemma {:induction false} StartsAt(t: Timing, n: nat, k: nat)
    requires k < n
    ensures Starts(t, n)[k] == Start(t, k)
  {
    if k < n - 1 { StartsAt(t, n - 1, k); }
  }

  /** When the thread reaches round k; it took its first deadline an interval earlier. */
  function Ready(t: Timing, k: nat): int {
    if k == 0 then t.first - t.interval else Start(t, k - 1) + t.work(k - 1)
  }

  /** The thread's loop, for n rounds that are not cancelled. */
  method Rounds(t: Timing, n: nat) returns (starts: seq<int>)
    ensures |starts| == n && forall k :: 0 <= k < n ==> starts[k] == Start(t, k)
  {
    starts := [];
    var next := t.first;
    var clock := t.first - t.interval;
    for k := 0 to n
      invariant starts == Starts(t, k) && next == Deadline(t, k) && clock == Ready(t, k)
    {
      clock := Max(clock, next) + t.delay(k);
      starts := starts + [clock];
      clock := clock + t.work(k);
      next := next + t.interval;
    }
    forall k | 0 <= k < n ensures starts[k] == Start(t, k) {
      StartsAt(t, n, k);
    }
  }

  // ---- cancelling ----

  /** Where the thread is in its loop. */
  datatype Point =
    | Check        // about to load the flag
    | Sleep
    | Recheck      // about to load it again
    | Fire         // has seen it clear, and will call back
    | Calling
    | Exited

  /** Where the owner is; the timer exists until the join returns. */
  datatype Owner = Using | Joining | Destroyed

  /** begun counts callbacks, late those that began after the flag was set. */
  datatype Timer = Timer(cancelled: bool, point: Point, owner: Owner, begun: nat, late: nat)

  datatype Action = Thread | Cancel | Destroy | Join

  const NEW := Timer(false, Check, Using, 0, 0)

  function Step(s: Timer, a: Action): Timer {
    match a
    case Thread =>
      (match s.point
       case Check => s.(point := if s.cancelled then Exited else Sleep)
       case Sleep => s.(point := Recheck)
       case Recheck => s.(point := if s.cancelled then Check else Fire)
       case Fire => s.(point := Calling, begun := s.begun + 1, late := if s.cancelled then s.late + 1 else s.late)
       case Calling => s.(point := Check)
       case Exited => s)
    case Cancel => if s.owner.Destroyed? then s else s.(cancelled := true)
    case Destroy => if s.owner.Using? then s.(cancelled := true, owner := Joining) else s
    case Join => if s.owner.Joining? && s.point.Exited? then s.(owner := Destroyed) else s
  }

  function Run(s: Timer, acts: seq<Action>): Timer
    decreases |acts|
  {
    if acts == [] then s else Run(Step(s, acts[0]), acts[1..])
  }

  ghost predicate Inv(s: Timer) {
    && s.late <= 1
    && (s.late > 0 || s.point.Exited? || !s.owner.Using? ==> s.cancelled)
    && (s.late == 1 ==> !s.point.Fire?)
    && (s.owner.Destroyed? ==> s.point.Exited?)
  }

  lemma {:induction false} RunInv(s: Timer, acts: seq<Action>)
    requires Inv(s)
    ensures Inv(Run(s, acts)) == Inv(s)
    decreases |acts|
  {
    if acts != [] { RunInv(Step(s, acts[0]), acts[1..]); }
  }

  /** In every interleaving at most one callback begins after the flag is set; the destructor
      returns only when the thread has left its loop, so no callback runs then and the thread
      never loads the flag of a destroyed timer. */
  lemma AtMostOneAfterCancel(acts: seq<Action>)
    ensures var s := Run(NEW, acts);
            s.late <= 1 && (s.owner.Destroyed? ==> s.point.Exited?)
  {
    RunInv(NEW, acts);
  }

  /** Which one: after cancel, a callback begins if and only if the thread had already loaded the
      clear flag, and gets to run at all. */
  lemma {:induction false} BeginsAfterCancelIff(s: Timer, acts: seq<Action>)
    requires Inv(s) && s.cancelled
    ensures Run(s, acts).begun == s.begun + (if s.point.Fire? && Thread in acts then 1 else 0)
    decreases |acts|
  {
    if acts != [] {
      BeginsAfterCancelIff(Step(s, acts[0]), acts[1..]);
      assert acts == [acts[0]] + acts[1..];
    }
  }

  /** No callback begins after destruction, and nothing changes any more. */
  lemma {:induction false} NothingAfterDestruction(s: Timer, acts: seq<Action>)
    requires Inv(s) && s.owner.Destroyed?
    ensures Run(s, acts) == s
    decreases |acts|
  {
    if acts != [] { NothingAfterDestruction(Step(s, acts[0]), acts[1..]); }
  }

  /** The thread's steps until it exits, once cancelled. */
  function Remaining(p: Point): nat {
    match p
    case Exited => 0
    case Check => 1
    case Recheck => 2
    case Calling => 2
    case Sleep => 3
    case Fire => 3
  }

  function ThreadSteps(acts: seq<Action>): nat {
    if acts == [] then 0 else (if acts[0].Thread? then 1 else 0) + ThreadSteps(acts[1..])
  }

  /** Where the thread is in its round, counted from the callback; the point after the last is the
      first again. */
  function Phase(p: Point): nat {
    match p
    case Calling => 0
    case Check => 1
    case Sleep => 2
    case Recheck => 3
    case Fire => 4
    case Exited => 5
  }

  predicate Undisturbed(acts: seq<Action>) { forall i :: 0 <= i < |acts| ==> acts[i].Thread? || acts[i].Join? }

  /** While nobody cancels, every fifth step of the thread begins a callback, and where the thread
      is says how many steps ago: none is skipped, none comes early, none counts as late. */
  lemma {:induction false} CallsBackEveryRound(s: Timer, acts: seq<Action>)
    requires !s.cancelled && !s.point.Exited? && Undisturbed(acts)
    ensures var t := Run(s, acts);
            && 5 * t.begun + Phase(t.point) == 5 * s.begun + Phase(s.point) + ThreadSteps(acts)
            && t == s.(begun := t.begun, point := t.point) && !t.point.Exited?
    decreases |acts|
  {
    if acts != [] {
      assert acts[0].Thread? || acts[0].Join?;
      CallsBackEveryRound(Step(s, acts[0]), acts[1..]);
    }
  }

  lemma {:induction false} RunAppend(s: Timer, p: seq<Action>, q: seq<Action>)
    ensures Run(s, p + q) == Run(Run(s, p), q)
    decreases |p|
  {
    if p == [] {
      assert p + q == q;
    } else {
      assert (p + q)[0] == p[0] && (p + q)[1..] == p[1..] + q;
      RunAppend(Step(s, p[0]), p[1..], q);
    }
  }

  /** Every run exactly: the callbacks are those of the steps before the flag was set, the first at
      the fourth, and one more if the thread had loaded the clear flag by then and runs again. */
  lemma CallbacksOfRun(before: seq<Action>, cancel: Action, after: seq<Action>)
    requires Undisturbed(before) && (cancel.Cancel? || cancel.Destroy?)
    ensures var n := ThreadSteps(before);
            && Run(NEW, before).begun == (n + 1) / 5
            && Run(NEW, before + [cancel] + after).begun
               == (n + 1) / 5 + (if n % 5 == 3 && Thread in after then 1 else 0)
  {
    var s := Run(NEW, before);
    CallsBackEveryRound(NEW, before);
    RunInv(NEW, before);
    RunAppend(NEW, before, [cancel]);
    RunAppend(NEW, before + [cancel], after);
    assert Run(s, [cancel]) == Run(Step(s, cancel), [cancel][1..]) == Step(s, cancel);
    BeginsAfterCancelIff(Step(s, cancel), after);
  }

  /** The destructor does not hang: after cancel the thread exits at its third step at the
      latest, and not before that measure says. */
  lemma {:induction false} ExitsAfterCancel(s: Timer, acts: seq<Action>)
    requires s.cancelled
    ensures Run(s, acts).point.Exited? <==> ThreadSteps(acts) >= Remaining(s.point)
    decreases |acts|
  {
    if acts != [] { ExitsAfterCancel(Step(s, acts[0]), acts[1..]); }
  }

  /** And then it returns: the join is over if and only if the thread has been given the steps that
      were left in its round. */
  lemma DestructorReturnsIff(s: Timer, acts: seq<Action>)
    requires Inv(s) && s.owner.Using?
    ensures Run(s, [Destroy] + acts + [Join]).owner.Destroyed? <==> ThreadSteps(acts) >= Remaining(s.point)
  {
    var d := Step(s, Destroy);
    var t := Run(d, acts);
    assert Run(s, [Destroy]) == Run(d, [Destroy][1..]) == d;
    RunAppend(s, [Destroy], acts);
    RunAppend(s, [Destroy] + acts, [Join]);
    assert Run(t, [Join]) == Run(Step(t, Join), [Join][1..]) == Step(t, Join);
    ExitsAfterCancel(d, acts);
    RunInv(d, acts);
    KeepsJoining(d, acts);
  }

  lemma {:induction false} KeepsJoining(s: Timer, acts: seq<Action>)
    requires !s.owner.Using?
    ensures !Run(s, acts).owner.Using?
    decreases |acts|
  {
    if acts != [] { KeepsJoining(Step(s, acts[0]), acts[1..]); }
  }
}
