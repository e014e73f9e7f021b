/** The thread pool of concurrency/08_thread_pool.cpp and, with one worker, the task queue of
    concurrency/07_async_handlers.cpp.

    A step is one critical section, one notification, or the end of one task. Between pushing a
    task and calling notify_one, and between setting the stop flag and calling notify_all, a
    thread has released the lock, so these are separate steps that anything may separate. A
    sleeping worker may also wake for no reason. Tasks are known by their ticket: the number of
    tasks submitted before them. */
module ThreadPool {
  import opened Counting

  datatype Worker =
    | Awake                                        // about to take the lock and look at the queue
    | Asleep                                       // inside cv_.wait
    | Executing(ticket: nat, mustNotify: bool)     // running a task; inside submit if mustNotify
    | Exited

  /** The shared fields, the workers, the outside threads that have pushed but not yet notified,
      the destructor's pending notify_all, and the history of submissions and completions. */
  datatype Pool = Pool(
    queue: seq<nat>, done: bool, workers: seq<Worker>,
    callers: nat, waking: bool,
    submitted: nat, finished: seq<nat>)

  datatype Action =
    | Submit                                // an outside thread pushes a task
    | NotifyOne(target: nat)                // an outside thread notifies; target is the one woken
    | SubmitFrom(worker: nat)               // a running task pushes a task
    | NotifyFrom(worker: nat, target: nat)  // a running task notifies
    | Check(worker: nat)                    // a worker holds the lock: take, sleep or exit
    | Finish(worker: nat)                   // a task returns
    | Spurious(worker: nat)
    | Destroy                               // the destructor sets the stop flag
    | NotifyAll                             // the destructor notifies everyone

  function Init(n: nat): Pool {
    Pool([], false, seq(n, i => Awake), 0, false, 0, [])
  }

  predicate At(s: Pool, w: nat, state: Worker) {
    w < |s.workers| && s.workers[w] == state
  }

  predicate Running(s: Pool, w: nat, mustNotify: bool) {
    w < |s.workers| && s.workers[w].Executing? && s.workers[w].mustNotify == mustNotify
  }

  predicate SomeoneAsleep(s: Pool) {
    exists w :: 0 <= w < |s.workers| && s.workers[w] == Asleep
  }

  /** notify_one wakes the target if it sleeps, and does nothing if nobody sleeps. */
  predicate CanNotify(s: Pool, target: nat) {
    At(s, target, Asleep) || !SomeoneAsleep(s)
  }

  function Wake(ws: seq<Worker>, target: nat): (r: seq<Worker>)
    ensures |r| == |ws|
  {
    if target < |ws| && ws[target] == Asleep then ws[target := Awake] else ws
  }

  function WakeAll(ws: seq<Worker>): (r: seq<Worker>)
    ensures |r| == |ws|
  {
    seq(|ws|, i requires 0 <= i < |ws| => if ws[i] == Asleep then Awake else ws[i])
  }

  /** One step; a step that its thread cannot take now changes nothing. The queue accepts tasks at
      any time, also while the pool is being destroyed. */
  function Step(s: Pool, a: Action): Pool {
    match a
    case Submit =>
      s.(queue := s.queue + [s.submitted], submitted := s.submitted + 1, callers := s.callers + 1)
    case NotifyOne(target) =>
      if s.callers == 0 || !CanNotify(s, target) then s else
      s.(callers := s.callers - 1, workers := Wake(s.workers, target))
    case SubmitFrom(w) =>
      if !Running(s, w, false) then s else
      s.(queue := s.queue + [s.submitted], submitted := s.submitted + 1,
         workers := s.workers[w := s.workers[w].(mustNotify := true)])
    case NotifyFrom(w, target) =>
      if !Running(s, w, true) || !CanNotify(s, target) then s else
      s.(workers := Wake(s.workers[w := s.workers[w].(mustNotify := false)], target))
    case Check(w) =>
      if !At(s, w, Awake) then s else
      if s.queue != [] then
        s.(queue := s.queue[1..], workers := s.workers[w := Executing(s.queue[0], false)])
      else if s.done then s.(workers := s.workers[w := Exited])
      else s.(workers := s.workers[w := Asleep])
    case Finish(w) =>
      if !Running(s, w, false) then s else
      s.(workers := s.workers[w := Awake], finished := s.finished + [s.workers[w].ticket])
    case Spurious(w) =>
      if !At(s, w, Asleep) then s else s.(workers := s.workers[w := Awake])
    case Destroy =>
      if s.done then s else s.(done := true, waking := true)
    case NotifyAll =>
      if !s.waking then s else s.(waking := false, workers := WakeAll(s.workers))
  }

  function Run(s: Pool, schedule: seq<Action>): Pool
    decreases |schedule|
  {
    if schedule == [] then s else Run(Step(s, schedule[0]), schedule[1..])
  }

  // ---- counting workers ----

  /** What a worker is doing; a worker that executes also holds its ticket. */
  datatype Kind = IsAwake | IsAsleep | IsNotifying | HasExited | Holds(ticket: nat)

  predicate Is(w: Worker, k: Kind) {
    match k
    case IsAwake => w == Awake
    case IsAsleep => w == Asleep
    case IsNotifying => w.Executing? && w.mustNotify
    case HasExited => w == Exited
    case Holds(t) => w.Executing? && w.ticket == t
  }

  function One(b: bool): nat { if b then 1 else 0 }

  /** How many workers are of a kind. */
  function Tally(ws: seq<Worker>, k: Kind): (n: nat)
    ensures n <= |ws|
  {
    if ws == [] then 0 else One(Is(ws[0], k)) + Tally(ws[1..], k)
  }

  lemma {:induction false} TallyUpdate(ws: seq<Worker>, i: nat, w: Worker, k: Kind)
    requires i < |ws|
    ensures Tally(ws[i := w], k) + One(Is(ws[i], k)) == Tally(ws, k) + One(Is(w, k))
  {
    if i == 0 {
      assert ws[0 := w][1..] == ws[1..];
    } else {
      TallyUpdate(ws[1..], i - 1, w, k);
      assert ws[i := w][1..] == ws[1..][i - 1 := w];
    }
  }

  lemma {:induction false} TallyZero(ws: seq<Worker>, k: Kind)
    ensures Tally(ws, k) == 0 <==> forall i :: 0 <= i < |ws| ==> !Is(ws[i], k)
  {
    if ws != [] {
      TallyZero(ws[1..], k);
      assert forall i :: 1 <= i < |ws| ==> ws[i] == ws[1..][i - 1];
    }
  }

  lemma {:induction false} TallyWakeAll(ws: seq<Worker>, k: Kind)
    ensures Tally(WakeAll(ws), k) ==
            if k == IsAwake then Tally(ws, IsAwake) + Tally(ws, IsAsleep)
            else if k == IsAsleep then 0 else Tally(ws, k)
  {
    if ws != [] {
      TallyWakeAll(ws[1..], k);
      assert WakeAll(ws)[1..] == WakeAll(ws[1..]);
    }
  }

  // ---- the invariant ----

  /** Tickets that have left the queue. */
  function Started(s: Pool): int {
    s.submitted - |s.queue|
  }

  /** How often a ticket has been executed to the end, or is being executed. */
  ghost function Executions(s: Pool, t: nat): nat {
    multiset(s.finished)[t] + Tally(s.workers, Holds(t))
  }

  /** The queue holds the youngest tickets in order, and every older ticket has either been
      finished once or is in the hands of one worker. */
  ghost predicate TasksConserved(s: Pool) {
    && |s.queue| <= s.submitted
    && (forall i :: 0 <= i < |s.queue| ==> s.queue[i] == Started(s) + i)
    && (forall t: nat :: Executions(s, t) == One(t < Started(s)))
  }

  /** If anyone sleeps, every queued task has a notification on its way or a worker about to look, and
      if the stop flag is set the notify_all is still to come. Workers exit, and notify_all is
      called, only after the stop flag is set. */
  ghost predicate Wakeful(s: Pool) {
    && (|| Tally(s.workers, IsAsleep) == 0
        || (&& |s.queue| <= s.callers + Tally(s.workers, IsNotifying) + Tally(s.workers, IsAwake)
            && (s.done ==> s.waking)))
    && (s.done || (Tally(s.workers, HasExited) == 0 && !s.waking))
  }

  ghost predicate Inv(s: Pool) { TasksConserved(s) && Wakeful(s) }

  lemma InitInv(n: nat)
    ensures Inv(Init(n))
  {
    var ws := Init(n).workers;
    forall t: nat ensures Tally(ws, Holds(t)) == 0 {
      TallyZero(ws, Holds(t));
    }
    TallyZero(ws, HasExited);
    TallyZero(ws, IsAsleep);
  }

  /** The counts after one worker changes. */
  lemma OneWorker(ws: seq<Worker>, i: nat, w: Worker)
    requires i < |ws|
    ensures var ws' := ws[i := w];
            (Tally(ws', IsAwake) + One(ws[i] == Awake), Tally(ws', IsAsleep) + One(ws[i] == Asleep),
             Tally(ws', IsNotifying) + One(Is(ws[i], IsNotifying)), Tally(ws', HasExited) + One(ws[i] == Exited))
            == (Tally(ws, IsAwake) + One(w == Awake), Tally(ws, IsAsleep) + One(w == Asleep),
                Tally(ws, IsNotifying) + One(Is(w, IsNotifying)), Tally(ws, HasExited) + One(w == Exited))
  {
    TallyUpdate(ws, i, w, IsAwake);
    TallyUpdate(ws, i, w, IsAsleep);
    TallyUpdate(ws, i, w, IsNotifying);
    TallyUpdate(ws, i, w, HasExited);
  }

  /** The counts after a notification: one sleeper fewer, if there was any. */
  lemma WakeCounts(s: Pool, target: nat)
    requires CanNotify(s, target)
    ensures var ws' := Wake(s.workers, target);
            || (Tally(s.workers, IsAsleep) == 0 && ws' == s.workers)
            || (&& Tally(s.workers, IsAsleep) > 0
                && Tally(ws', IsAwake) == Tally(s.workers, IsAwake) + 1
                && Tally(ws', IsAsleep) == Tally(s.workers, IsAsleep) - 1
                && Tally(ws', IsNotifying) == Tally(s.workers, IsNotifying)
                && Tally(ws', HasExited) == Tally(s.workers, HasExited))
  {
    TallyZero(s.workers, IsAsleep);
    if At(s, target, Asleep) {
      assert Is(s.workers[target], IsAsleep);
      OneWorker(s.workers, target, Awake);
    } else {
      forall w | 0 <= w < |s.workers| ensures !Is(s.workers[w], IsAsleep) {
        assert s.workers[w] != Asleep;
      }
    }
  }

  lemma WakeHolds(ws: seq<Worker>, target: nat, t: nat)
    ensures Tally(Wake(ws, target), Holds(t)) == Tally(ws, Holds(t))
  {
    if target < |ws| && ws[target] == Asleep { TallyUpdate(ws, target, Awake, Holds(t)); }
  }

  /** A running task enters, or returns from, its call of notify_one. */
  function SetNotify(s: Pool, w: nat, mustNotify: bool): Pool
    requires Running(s, w, !mustNotify)
  {
    s.(workers := s.workers[w := s.workers[w].(mustNotify := mustNotify)])
  }

  lemma NotifyFromSplits(s: Pool, w: nat, target: nat)
    requires Running(s, w, true) && CanNotify(s, target)
    ensures CanNotify(SetNotify(s, w, false), target)
    ensures Step(s, NotifyFrom(w, target)).workers == Wake(SetNotify(s, w, false).workers, target)
  {
    var s1 := SetNotify(s, w, false);
    if SomeoneAsleep(s1) {
      var v :| 0 <= v < |s1.workers| && s1.workers[v] == Asleep;
      assert s.workers[v] == Asleep;
    }
  }

  /** Notifications, wakeups and the stop flag move no task. */
  lemma HandsUnchanged(s: Pool, a: Action, t: nat)
    requires a.NotifyOne? || a.NotifyFrom? || a.SubmitFrom? || a.Spurious? || a.NotifyAll?
    ensures Tally(Step(s, a).workers, Holds(t)) == Tally(s.workers, Holds(t))
  {
    match a
    case NotifyOne(target) => WakeHolds(s.workers, target, t);
    case SubmitFrom(w) =>
      if Running(s, w, false) { TallyUpdate(s.workers, w, s.workers[w].(mustNotify := true), Holds(t)); }
    case NotifyFrom(w, target) =>
      if Running(s, w, true) && CanNotify(s, target) {
        TallyUpdate(s.workers, w, s.workers[w].(mustNotify := false), Holds(t));
        WakeHolds(SetNotify(s, w, false).workers, target, t);
      }
    case Spurious(w) =>
      if At(s, w, Asleep) { TallyUpdate(s.workers, w, Awake, Holds(t)); }
    case NotifyAll => TallyWakeAll(s.workers, Holds(t));
  }

  lemma StepConserves(s: Pool, a: Action)
    requires TasksConserved(s)
    ensures TasksConserved(Step(s, a))
  {
    if a.Check? {
      CheckConserves(s, a.worker);
    } else if a.Finish? {
      FinishConserves(s, a.worker);
    } else {
      QueueConserves(s, a);
      forall t: nat ensures Executions(Step(s, a), t) == Executions(s, t) {
        if !a.Submit? && !a.Destroy? { HandsUnchanged(s, a, t); }
      }
    }
  }

  lemma QueueConserves(s: Pool, a: Action)
    requires TasksConserved(s) && !a.Check? && !a.Finish?
    ensures var s' := Step(s, a);
            && |s'.queue| <= s'.submitted
            && (forall i :: 0 <= i < |s'.queue| ==> s'.queue[i] == Started(s') + i)
            && Started(s') == Started(s) && s'.finished == s.finished
            && (a.Submit? || a.Destroy? ==> s'.workers == s.workers)
  {
  }

  lemma CheckConserves(s: Pool, w: nat)
    requires TasksConserved(s)
    ensures TasksConserved(Step(s, Check(w)))
  {
    if At(s, w, Awake) {
      var s' := Step(s, Check(w));
      forall t: nat ensures Executions(s', t) == One(t < Started(s')) {
        assert Executions(s, t) == One(t < Started(s));
        TallyUpdate(s.workers, w, s'.workers[w], Holds(t));
      }
    }
  }

  lemma FinishConserves(s: Pool, w: nat)
    requires TasksConserved(s)
    ensures TasksConserved(Step(s, Finish(w)))
  {
    if Running(s, w, false) {
      var s' := Step(s, Finish(w));
      forall t: nat ensures Executions(s', t) == One(t < Started(s')) {
        assert Executions(s, t) == One(t < Started(s));
        TallyUpdate(s.workers, w, Awake, Holds(t));
        assert multiset(s'.finished) == multiset(s.finished) + multiset{s.workers[w].ticket};
      }
    }
  }

  lemma StepKeepsWakeups(s: Pool, a: Action)
    requires Wakeful(s)
    ensures Wakeful(Step(s, a)) == Wakeful(s)
  {
    match a
    case Submit =>
    case NotifyOne(target) => NotifyOneKeepsWakeups(s, target);
    case SubmitFrom(w) => SubmitFromKeepsWakeups(s, w);
    case NotifyFrom(w, target) => NotifyFromKeepsWakeups(s, w, target);
    case Check(w) => CheckKeepsWakeups(s, w);
    case Finish(w) => FinishKeepsWakeups(s, w);
    case Spurious(w) => SpuriousKeepsWakeups(s, w);
    case Destroy =>
    case NotifyAll => NotifyAllKeepsWakeups(s);
  }

  lemma NotifyOneKeepsWakeups(s: Pool, target: nat)
    requires Wakeful(s)
    ensures Wakeful(Step(s, NotifyOne(target))) == Wakeful(s)
  {
    if CanNotify(s, target) { WakeCounts(s, target); }
  }

  lemma SubmitFromKeepsWakeups(s: Pool, w: nat)
    requires Wakeful(s)
    ensures Wakeful(Step(s, SubmitFrom(w))) == Wakeful(s)
  {
    if Running(s, w, false) { OneWorker(s.workers, w, s.workers[w].(mustNotify := true)); }
  }

  lemma FinishKeepsWakeups(s: Pool, w: nat)
    requires Wakeful(s)
    ensures Wakeful(Step(s, Finish(w))) == Wakeful(s)
  {
    if Running(s, w, false) { OneWorker(s.workers, w, Awake); }
  }

  lemma SpuriousKeepsWakeups(s: Pool, w: nat)
    requires Wakeful(s)
    ensures Wakeful(Step(s, Spurious(w))) == Wakeful(s)
  {
    if At(s, w, Asleep) { OneWorker(s.workers, w, Awake); }
  }

  lemma NotifyAllKeepsWakeups(s: Pool)
    requires Wakeful(s)
    ensures Wakeful(Step(s, NotifyAll)) == Wakeful(s)
  {
    TallyWakeAll(s.workers, IsAsleep);
    TallyWakeAll(s.workers, HasExited);
  }

  lemma NotifyFromKeepsWakeups(s: Pool, w: nat, target: nat)
    requires Wakeful(s)
    ensures Wakeful(Step(s, NotifyFrom(w, target))) == Wakeful(s)
  {
    if Running(s, w, true) && CanNotify(s, target) {
      OneWorker(s.workers, w, s.workers[w].(mustNotify := false));
      NotifyFromSplits(s, w, target);
      WakeCounts(SetNotify(s, w, false), target);
    }
  }

  lemma CheckKeepsWakeups(s: Pool, w: nat)
    requires Wakeful(s)
    ensures Wakeful(Step(s, Check(w))) == Wakeful(s)
  {
    if At(s, w, Awake) {
      OneWorker(s.workers, w, Step(s, Check(w)).workers[w]);
    }
  }

  lemma StepInv(s: Pool, a: Action)
    requires Inv(s)
    ensures Inv(Step(s, a))
  {
    StepConserves(s, a);
    StepKeepsWakeups(s, a);
  }

  lemma {:induction false} RunInv(s: Pool, schedule: seq<Action>)
    requires Inv(s)
    ensures Inv(Run(s, schedule)) == Inv(s)
    decreases |schedule|
  {
    if schedule != [] {
      StepInv(s, schedule[0]);
      RunInv(Step(s, schedule[0]), schedule[1..]);
    }
  }

  // ---- who is there to do the work ----

  predicate AllExited(s: Pool) {
    forall w :: 0 <= w < |s.workers| ==> s.workers[w] == Exited
  }

  /** Whatever is queued has a worker that has not left. */
  predicate Staffed(s: Pool) {
    s.queue == [] || !AllExited(s)
  }

  /** A task that arrives after the last worker has left. */
  predicate TooLate(s: Pool, a: Action) {
    a.Submit? && AllExited(s)
  }

  /** No task of the schedule arrives after the last worker has left. */
  predicate InTime(s: Pool, schedule: seq<Action>)
    decreases |schedule|
  {
    schedule == [] || (!TooLate(s, schedule[0]) && InTime(Step(s, schedule[0]), schedule[1..]))
  }

  /** A worker leaves only an empty queue. */
  lemma SomeoneStays(s: Pool, a: Action, v: nat)
    requires v < |s.workers| && s.workers[v] != Exited
    ensures Step(s, a).queue == [] || (v < |Step(s, a).workers| && Step(s, a).workers[v] != Exited)
  {
  }

  /** So a step deserts the queue only by being too late. */
  lemma StaffedStep(s: Pool, a: Action)
    requires Staffed(s)
    ensures Staffed(Step(s, a)) <==> !TooLate(s, a)
  {
    if AllExited(s) {
      assert a.Submit? || Step(s, a).queue == [];
    } else {
      var v: nat :| v < |s.workers| && s.workers[v] != Exited;
      SomeoneStays(s, a, v);
    }
  }

  lemma DesertedStays(s: Pool, a: Action)
    requires !Staffed(s)
    ensures !Staffed(Step(s, a))
  {
    if a.NotifyAll? { assert WakeAll(s.workers) == s.workers; }
  }

  lemma {:induction false} DesertedForever(s: Pool, schedule: seq<Action>)
    requires !Staffed(s)
    ensures !Staffed(Run(s, schedule))
    decreases |schedule|
  {
    if schedule != [] {
      DesertedStays(s, schedule[0]);
      DesertedForever(Step(s, schedule[0]), schedule[1..]);
    }
  }

  lemma {:induction false} StaffedIffInTime(s: Pool, schedule: seq<Action>)
    requires Staffed(s)
    ensures Staffed(Run(s, schedule)) <==> InTime(s, schedule)
    decreases |schedule|
  {
    if schedule != [] {
      StaffedStep(s, schedule[0]);
      if TooLate(s, schedule[0]) {
        DesertedForever(Step(s, schedule[0]), schedule[1..]);
      } else {
        StaffedIffInTime(Step(s, schedule[0]), schedule[1..]);
      }
    }
  }

  // ---- no lost wakeup, nothing lost at shutdown ----

  /** In every reachable state with a sleeper, each queued task has a notification on its way or a
      worker about to look at the queue, and after the stop flag the notify_all is still to come: a
      worker that is merely busy does not excuse a sleeper. And if nobody sleeps, somebody is at
      work, unless the task came too late. */
  lemma NoLostWakeup(n: nat, schedule: seq<Action>)
    ensures var s := Run(Init(n), schedule);
            && (SomeoneAsleep(s) ==>
                  && |s.queue| <= s.callers + Tally(s.workers, IsNotifying) + Tally(s.workers, IsAwake)
                  && (s.done ==> s.waking))
            && (s.queue != [] && !SomeoneAsleep(s) && InTime(Init(n), schedule) ==>
                  exists w :: 0 <= w < |s.workers| && (s.workers[w].Awake? || s.workers[w].Executing?))
  {
    InitInv(n);
    RunInv(Init(n), schedule);
    StaffedIffInTime(Init(n), schedule);
    var s := Run(Init(n), schedule);
    if SomeoneAsleep(s) {
      var v :| 0 <= v < |s.workers| && s.workers[v] == Asleep;
      assert Is(s.workers[v], IsAsleep);
      TallyZero(s.workers, IsAsleep);
    }
  }

  /** Every task ever submitted has run to its end exactly once, and nothing else has. */
  ghost predicate AllExecutedOnce(s: Pool) {
    forall t: nat :: multiset(s.finished)[t] == One(t < s.submitted)
  }

  /** When the last worker has been joined, every task ever submitted, also from inside a running
      task or from outside during shutdown, has been executed exactly once, if and only if none
      arrived after the last worker left. */
  lemma ShutdownDrains(n: nat, schedule: seq<Action>)
    ensures var s := Run(Init(n), schedule);
            AllExited(s) ==> (AllExecutedOnce(s) <==> InTime(Init(n), schedule))
  {
    InitInv(n);
    RunInv(Init(n), schedule);
    StaffedIffInTime(Init(n), schedule);
    var s := Run(Init(n), schedule);
    if AllExited(s) {
      if s.queue == [] { HandsEmpty(s); } else { QueuedIsNotDone(s); }
    }
  }

  lemma HandsEmpty(s: Pool)
    requires TasksConserved(s) && s.queue == []
    requires forall w :: 0 <= w < |s.workers| ==> !s.workers[w].Executing?
    ensures AllExecutedOnce(s)
  {
    forall t: nat ensures multiset(s.finished)[t] == One(t < s.submitted) {
      TallyZero(s.workers, Holds(t));
      assert Executions(s, t) == One(t < Started(s));
    }
  }

  lemma QueuedIsNotDone(s: Pool)
    requires TasksConserved(s) && s.queue != []
    ensures !AllExecutedOnce(s)
  {
    var t: nat := Started(s);
    assert Executions(s, t) == One(t < Started(s));
    assert multiset(s.finished)[t] == 0;
  }

  /** Outside threads have stopped submitting when the destructor begins. */
  predicate Polite(schedule: seq<Action>) {
    forall i, j :: 0 <= i < j < |schedule| && schedule[i].Destroy? ==> !schedule[j].Submit?
  }

  lemma NobodyExitedYet(s: Pool)
    requires Wakeful(s) && !s.done && |s.workers| > 0
    ensures !AllExited(s)
  {
    TallyZero(s.workers, HasExited);
    assert !Is(s.workers[0], HasExited);
  }

  lemma {:induction false} PoliteIsInTime(s: Pool, schedule: seq<Action>)
    requires Inv(s) && |s.workers| > 0 && Polite(schedule)
    requires s.done ==> forall i :: 0 <= i < |schedule| ==> !schedule[i].Submit?
    ensures InTime(s, schedule)
    decreases |schedule|
  {
    if schedule != [] {
      if !s.done { NobodyExitedYet(s); }
      StepInv(s, schedule[0]);
      PoliteIsInTime(Step(s, schedule[0]), schedule[1..]);
    }
  }

  /** With no worker the guarantee fails: the destructor returns at once and the task is lost. */
  lemma EmptyPoolLosesTasks()
    ensures var s := Run(Init(0), [Submit, NotifyOne(0), Destroy, NotifyAll]);
            AllExited(s) && s.submitted == 1 && s.finished == []
  {
    var s0 := Init(0);
    var s1 := Step(s0, Submit);
    var s2 := Step(s1, NotifyOne(0));
    var s3 := Step(s2, Destroy);
    var s4 := Step(s3, NotifyAll);
    var p: seq<Action> := [Submit, NotifyOne(0), Destroy, NotifyAll];
    assert p[1..] == [NotifyOne(0), Destroy, NotifyAll];
    assert p[1..][1..] == [Destroy, NotifyAll];
    assert p[1..][1..][1..] == [NotifyAll];
    assert p[1..][1..][1..][1..] == [];
    assert Run(s0, p) == Run(s1, p[1..]) == Run(s2, p[1..][1..]) == Run(s3, p[1..][1..][1..]) == s4;
  }

  /** So it does for a task that arrives when the last worker has left. */
  lemma LateTaskIsLost()
    ensures var p: seq<Action> := [Destroy, NotifyAll, Check(0), Submit];
            var s := Run(Init(1), p);
            AllExited(s) && s.submitted == 1 && s.finished == [] && !InTime(Init(1), p)
  {
    var s0 := Init(1);
    var s1 := Step(s0, Destroy);
    var s2 := Step(s1, NotifyAll);
    var s3 := Step(s2, Check(0));
    var s4 := Step(s3, Submit);
    assert s2.workers == [Awake];
    assert s3.workers == [Exited];
    var p: seq<Action> := [Destroy, NotifyAll, Check(0), Submit];
    assert p[1..] == [NotifyAll, Check(0), Submit];
    assert p[1..][1..] == [Check(0), Submit];
    assert p[1..][1..][1..] == [Submit];
    assert p[1..][1..][1..][1..] == [];
    assert Run(s0, p) == Run(s1, p[1..]) == Run(s2, p[1..][1..]) == Run(s3, p[1..][1..][1..]) == s4;
    assert s4.queue == [0];
    StaffedIffInTime(s0, p);
  }

  ghost predicate Drains(n: nat, schedule: seq<Action>) {
    AllExited(Run(Init(n), schedule)) ==> AllExecutedOnce(Run(Init(n), schedule))
  }

  /** So with callers that stop submitting before the destructor begins, every schedule drains
      exactly when the pool has a worker. */
  lemma DrainsIffStaffed(n: nat)
    ensures n > 0 <==> forall schedule :: Polite(schedule) ==> Drains(n, schedule)
  {
    if n > 0 {
      forall schedule | Polite(schedule) ensures Drains(n, schedule) {
        InitInv(n);
        PoliteIsInTime(Init(n), schedule);
        ShutdownDrains(n, schedule);
      }
    } else {
      EmptyPoolLosesTasks();
      var p: seq<Action> := [Submit, NotifyOne(0), Destroy, NotifyAll];
      var s := Run(Init(0), p);
      assert multiset(s.finished)[0] == 0;
      assert Polite(p) && !Drains(0, p);
    }
  }

  // ---- liveness: the pool does its work in a bounded number of steps ----

  /** Steps the pool takes by itself, as opposed to new work, shutdown and spurious wakeups. */
  predicate Internal(a: Action) {
    a.NotifyOne? || a.NotifyFrom? || a.Check? || a.Finish? || a.NotifyAll?
  }

  /** How many internal steps a worker may still cause by itself. */
  function Weight(w: Worker): int {
    match w
    case Awake => 1
    case Executing(_, mustNotify) => if mustNotify then 4 else 2
    case _ => 0
  }

  /** An upper bound on the internal steps still to come. */
  function Measure(s: Pool): nat {
    TotalNonNegative(s.workers, Weight);
    2 * |s.queue| + 2 * s.callers + (if s.waking then |s.workers| + 1 else 0) + Total(s.workers, Weight)
  }

  /** What a step may add to the measure. */
  function Cost(a: Action, n: nat): int {
    if Internal(a) then -1
    else if a.Spurious? then 1
    else if a.Destroy? then n + 1
    else 4
  }

  lemma WakeCost(ws: seq<Worker>, target: nat)
    ensures Total(Wake(ws, target), Weight) <= Total(ws, Weight) + 1
  {
    if target < |ws| && ws[target] == Asleep { TotalMoves(ws, Weight, target, Awake); }
  }

  lemma {:induction false} WakeAllCost(ws: seq<Worker>)
    ensures Total(WakeAll(ws), Weight) <= Total(ws, Weight) + |ws|
  {
    if ws != [] {
      WakeAllCost(ws[1..]);
      assert WakeAll(ws)[1..] == WakeAll(ws[1..]);
    }
  }

  lemma NotifyFromCost(s: Pool, w: nat, target: nat)
    ensures Step(s, NotifyFrom(w, target)) != s ==> Measure(Step(s, NotifyFrom(w, target))) < Measure(s)
  {
    if Running(s, w, true) {
      TotalMoves(s.workers, Weight, w, s.workers[w].(mustNotify := false));
      WakeCost(SetNotify(s, w, false).workers, target);
    }
  }

  lemma CheckCost(s: Pool, w: nat)
    ensures Step(s, Check(w)) != s ==> Measure(Step(s, Check(w))) < Measure(s)
  {
    if w < |s.workers| { TotalMoves(s.workers, Weight, w, Step(s, Check(w)).workers[w]); }
  }

  lemma StepCost(s: Pool, a: Action)
    ensures |Step(s, a).workers| == |s.workers|
    ensures Step(s, a) != s ==> Measure(Step(s, a)) <= Measure(s) + Cost(a, |s.workers|)
  {
    var ws := s.workers;
    match a
    case NotifyOne(target) => WakeCost(ws, target);
    case NotifyAll => WakeAllCost(ws);
    case NotifyFrom(w, target) => NotifyFromCost(s, w, target);
    case SubmitFrom(w) => if Running(s, w, false) { TotalMoves(ws, Weight, w, ws[w].(mustNotify := true)); }
    case Check(w) => CheckCost(s, w);
    case Finish(w) => if w < |ws| { TotalMoves(ws, Weight, w, Awake); }
    case Spurious(w) => if w < |ws| { TotalMoves(ws, Weight, w, Awake); }
    case Submit =>
    case Destroy =>
  }

  /** Internal steps that did something. */
  function Work(s: Pool, schedule: seq<Action>): nat
    decreases |schedule|
  {
    if schedule == [] then 0
    else
      One(Internal(schedule[0]) && Step(s, schedule[0]) != s) + Work(Step(s, schedule[0]), schedule[1..])
  }

  /** What the outside put in: 4 for a submission, 1 for a spurious wakeup, n + 1 for the stop. */
  function Supplied(s: Pool, schedule: seq<Action>): nat
    decreases |schedule|
  {
    if schedule == [] then 0
    else
      (if !Internal(schedule[0]) && Step(s, schedule[0]) != s then Cost(schedule[0], |s.workers|) else 0)
      + Supplied(Step(s, schedule[0]), schedule[1..])
  }

  /** In every run, however long and however interleaved, the internal steps are bounded by the
      measure at the start plus what was supplied from outside: the pool cannot be busy forever
      on finitely many submissions and spurious wakeups. */
  lemma {:induction false} WorkIsBounded(s: Pool, schedule: seq<Action>)
    ensures Work(s, schedule) + Measure(Run(s, schedule)) <= Measure(s) + Supplied(s, schedule)
    decreases |schedule|
  {
    if schedule != [] {
      StepCost(s, schedule[0]);
      WorkIsBounded(Step(s, schedule[0]), schedule[1..]);
    }
  }

  /** No internal step can change anything. */
  ghost predicate Quiet(s: Pool) {
    forall a :: Internal(a) ==> Step(s, a) == s
  }

  /** And it stops only when there is nothing left to do: in a reachable state without an enabled
      internal step, every submitted task has been executed exactly once, unless one came too late,
      and if the destructor has begun, every worker has exited. */
  lemma QuietMeansDone(n: nat, schedule: seq<Action>)
    requires Quiet(Run(Init(n), schedule))
    ensures var s := Run(Init(n), schedule);
            && (s.queue == [] && AllExecutedOnce(s) <==> InTime(Init(n), schedule))
            && (s.done ==> AllExited(s))
  {
    InitInv(n);
    RunInv(Init(n), schedule);
    StaffedIffInTime(Init(n), schedule);
    var s := Run(Init(n), schedule);
    forall w | 0 <= w < |s.workers| ensures s.workers[w].Asleep? || s.workers[w].Exited? {
      QuietWorker(s, w);
    }
    QuietNotifiers(s);
    TallyZero(s.workers, IsAwake);
    TallyZero(s.workers, IsNotifying);
    TallyZero(s.workers, IsAsleep);
    if s.queue == [] { HandsEmpty(s); }
  }

  lemma QuietWorker(s: Pool, w: nat)
    requires Quiet(s) && w < |s.workers|
    ensures s.workers[w].Asleep? || s.workers[w].Exited?
  {
    assert Step(s, Check(w)) == s;
    assert Step(s, Finish(w)) == s;
    NotifyFromChanges(s, w, Target(s));
  }

  lemma NotifyFromChanges(s: Pool, w: nat, target: nat)
    requires CanNotify(s, target)
    ensures Running(s, w, true) ==> Step(s, NotifyFrom(w, target)) != s
  {
    if Running(s, w, true) {
      NotifyFromSplits(s, w, target);
      assert Step(s, NotifyFrom(w, target)).workers[w] != s.workers[w];
    }
  }

  lemma QuietNotifiers(s: Pool)
    requires Quiet(s)
    ensures s.callers == 0 && !s.waking
  {
    assert Step(s, NotifyOne(Target(s))) == s;
    assert Step(s, NotifyAll) == s;
  }

  /** Somebody whom notify_one may pick. */
  ghost function Target(s: Pool): (t: nat)
    ensures CanNotify(s, t)
  {
    if SomeoneAsleep(s) then
      var w :| 0 <= w < |s.workers| && s.workers[w] == Asleep; w
    else 0
  }

  // ---- one worker: tasks run in the order they were posted ----

  ghost predicate InOrder(s: Pool) {
    && |s.workers| == 1
    && (forall i :: 0 <= i < |s.finished| ==> s.finished[i] == i)
    && Started(s) == |s.finished| + One(s.workers[0].Executing?)
    && (s.workers[0].Executing? ==> s.workers[0].ticket == |s.finished|)
  }

  lemma StepInOrder(s: Pool, a: Action)
    requires Inv(s) && InOrder(s)
    ensures InOrder(Step(s, a))
  {
  }

  lemma {:induction false} RunInOrder(s: Pool, schedule: seq<Action>)
    requires Inv(s) && InOrder(s)
    ensures InOrder(Run(s, schedule)) == InOrder(s)
    decreases |schedule|
  {
    if schedule != [] {
      StepInv(s, schedule[0]);
      StepInOrder(s, schedule[0]);
      RunInOrder(Step(s, schedule[0]), schedule[1..]);
    }
  }

  /** The single-worker task queue executes handlers one at a time in posting order, and all of
      them before its destructor's join returns, if none is posted after the worker has left. */
  lemma TaskQueueIsSerial(schedule: seq<Action>)
    ensures var s := Run(Init(1), schedule);
            && (forall i :: 0 <= i < |s.finished| ==> s.finished[i] == i)
            && (AllExited(s) ==> (|s.finished| == s.submitted <==> InTime(Init(1), schedule)))
  {
    InitInv(1);
    RunInv(Init(1), schedule);
    RunInOrder(Init(1), schedule);
    StaffedIffInTime(Init(1), schedule);
  }

  // ---- the critical sections, on the shared fields ----

  class Shared {
    var queue: seq<nat>
    var done: bool
    var workers: array<Worker>
    var submitted: nat
    ghost var callers: nat
    ghost var waking: bool
    ghost var finished: seq<nat>

    ghost function View(): Pool
      reads this, workers
    {
      Pool(queue, done, workers[..], callers, waking, submitted, finished)
    }

    constructor (n: nat)
      ensures View() == Init(n) && fresh(workers)
    {
      queue, done, submitted := [], false, 0;
      workers := new Worker[n](i => Awake);
      callers, waking, finished := 0, false, [];
    }

    /** The locked part of `submit`, called from outside the pool. */
    method Submit() returns (ticket: nat)
      modifies this
      ensures View() == Step(old(View()), Action.Submit)
      ensures workers == old(workers) && ticket == old(submitted)
    {
      ticket := submitted;
      queue := queue + [ticket];
      submitted := submitted + 1;
      callers := callers + 1;
    }

    /** The locked part of `work`: the predicate of the wait, the exit test, and the pop. */
    method Check(w: nat)
      requires w < workers.Length && workers[w] == Awake
      modifies this`queue, workers
      ensures View() == Step(old(View()), Action.Check(w))
    {
      if queue == [] && !done {
        workers[w] := Asleep;
      } else if done && queue == [] {
        workers[w] := Exited;
      } else {
        workers[w] := Executing(queue[0], false);
        queue := queue[1..];
      }
      assert View().workers == Step(old(View()), Action.Check(w)).workers;
    }

    /** The locked part of the destructor. */
    method Stop()
      requires !done
      modifies this
      ensures View() == Step(old(View()), Destroy)
      ensures workers == old(workers)
    {
      done := true;
      waking := true;
    }

    /** notify_all: every sleeper will look again, nobody else moves. */
    method NotifyAll()
      requires waking
      modifies this`waking, workers
      ensures View() == Step(old(View()), Action.NotifyAll)
    {
      waking := false;
      var i := 0;
      while i < workers.Length
        invariant i <= workers.Length && !waking
        invariant workers[..i] == WakeAll(old(workers[..]))[..i]
        invariant workers[i..] == old(workers[i..])
      {
        if workers[i] == Asleep { workers[i] := Awake; }
        i := i + 1;
      }
      assert workers[..] == WakeAll(old(workers[..]));
    }
  }
}
