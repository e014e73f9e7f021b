/** The cooperative scheduler of coroutines/06_scheduler.cpp: a FIFO queue of suspended jobs, run
    one at a time until each yields or ends. What a job does between two suspensions is a
    parameter: it may change a world it shares with the other jobs, and it appends to the queue
    whatever it spawns and, if it yields, itself. */
module Scheduler {

  /** What running a job to its next suspension does. */
  datatype Effect<J, W> = Effect(enqueued: seq<J>, world: W)

  type Behaviour<!J, !W> = (J, W) -> Effect<J, W>

  /** The ready queue, the world, and every job as it was when it was resumed. */
  datatype State<J, W> = State(ready: seq<J>, world: W, trace: seq<J>)

  /** h.resume(). */
  function Resume<J, W>(b: Behaviour<J, W>, s: State<J, W>, j: J): State<J, W> {
    var e := b(j, s.world);
    State(s.ready + e.enqueued, e.world, s.trace + [j])
  }

  /** One iteration of `run`: take the front, resume it. */
  function Turn<J, W>(b: Behaviour<J, W>, s: State<J, W>): State<J, W> {
    if s.ready == [] then s else Resume(b, s.(ready := s.ready[1..]), s.ready[0])
  }

  function Turns<J, W>(b: Behaviour<J, W>, s: State<J, W>, k: nat): State<J, W>
    decreases k
  {
    if k == 0 then s else Turns(b, Turn(b, s), k - 1)
  }

  lemma {:induction false} TurnsAdd<J, W>(b: Behaviour<J, W>, s: State<J, W>, i: nat, j: nat)
    ensures Turns(b, s, i + j) == Turns(b, Turns(b, s, i), j)
    decreases i
  {
    if i > 0 { TurnsAdd(b, Turn(b, s), i - 1, j); }
  }

  // ---- rounds: the specification of round robin ----

  /** Every job of a list once, in order; what they enqueue gathers behind. */
  function EachOnce<J, W>(b: Behaviour<J, W>, jobs: seq<J>, s: State<J, W>): State<J, W>
    decreases |jobs|
  {
    if jobs == [] then s else EachOnce(b, jobs[1..], Resume(b, s, jobs[0]))
  }

  function Round<J, W>(b: Behaviour<J, W>, s: State<J, W>): State<J, W> {
    EachOnce(b, s.ready, s.(ready := []))
  }

  /** The queue-driven loop performs whole rounds: whatever the jobs do, spawning included, the
      next |jobs| iterations resume exactly the jobs at the front, in order, and what they yield
      and spawn lines up behind the rest. */
  lemma {:induction false} LoopIsRounds<J, W>(b: Behaviour<J, W>, jobs: seq<J>, s: State<J, W>)
    ensures Turns(b, s.(ready := jobs + s.ready), |jobs|) == EachOnce(b, jobs, s)
    decreases |jobs|
  {
    if jobs == [] {
      assert jobs + s.ready == s.ready;
    } else {
      var q := jobs + s.ready;
      var s1 := Resume(b, s, jobs[0]);
      assert q[1..] == jobs[1..] + s.ready;
      var more := b(jobs[0], s.world).enqueued;
      assert (jobs[1..] + s.ready) + more == jobs[1..] + (s.ready + more);
      assert Turn(b, s.(ready := q)) == s1.(ready := jobs[1..] + s1.ready);
      LoopIsRounds(b, jobs[1..], s1);
    }
  }

  lemma RoundIsTurns<J, W>(b: Behaviour<J, W>, s: State<J, W>)
    ensures Turns(b, s, |s.ready|) == Round(b, s)
  {
    LoopIsRounds(b, s.ready, s.(ready := []));
    assert s.ready + [] == s.ready;
  }

  lemma {:induction false} EachOnceAppend<J, W>(b: Behaviour<J, W>, p: seq<J>, q: seq<J>, s: State<J, W>)
    ensures EachOnce(b, p + q, s) == EachOnce(b, q, EachOnce(b, p, s))
    decreases |p|
  {
    if p == [] {
      assert p + q == q;
    } else {
      assert (p + q)[0] == p[0] && (p + q)[1..] == p[1..] + q;
      EachOnceAppend(b, p[1..], q, Resume(b, s, p[0]));
    }
  }

  /** Several rounds, one after the other. */
  function Rounds<J, W>(b: Behaviour<J, W>, s: State<J, W>, n: nat): State<J, W>
    decreases n
  {
    if n == 0 then s else Rounds(b, Round(b, s), n - 1)
  }

  /** The turns it takes are the jobs it resumes. */
  lemma {:induction false} RoundsAreTurns<J, W>(b: Behaviour<J, W>, s: State<J, W>, n: nat) returns (k: nat)
    ensures Turns(b, s, k) == Rounds(b, s, n)
    ensures |Rounds(b, s, n).trace| == |s.trace| + k
    decreases n
  {
    if n == 0 {
      k := 0;
    } else {
      RoundIsTurns(b, s);
      RoundTrace(b, s.ready, s.(ready := []));
      var k1 := RoundsAreTurns(b, Round(b, s), n - 1);
      TurnsAdd(b, s, |s.ready|, k1);
      k := |s.ready| + k1;
    }
  }

  /** Rounds r, r + 1, ..., one after the other, `rounds` of them. */
  function RoundByRound<J>(at: nat -> seq<J>, r: nat, rounds: nat): seq<J>
    decreases rounds
  {
    if rounds == 0 then [] else at(r) + RoundByRound(at, r + 1, rounds - 1)
  }

  /** The state after the round that began with `at(r)`. */
  function After<J, W>(s: State<J, W>, at: nat -> seq<J>, r: nat): State<J, W> {
    s.(ready := at(r + 1), trace := s.trace + at(r))
  }

  /** A round that begins with the jobs `at(r)` leaves the jobs `at(r + 1)` and the world alone. */
  ghost predicate PlaysRounds<J(!new), W(!new)>(b: Behaviour<J, W>, at: nat -> seq<J>) {
    forall s: State<J, W>, r: nat {:trigger After(s, at, r)} ::
      r >= 1 && s.ready == at(r) ==> Round(b, s) == After(s, at, r)
  }

  lemma {:induction false} RoundsAdd<J(!new), W(!new)>(
    b: Behaviour<J, W>, at: nat -> seq<J>, r: nat, rounds: nat, s: State<J, W>)
    requires PlaysRounds(b, at) && r >= 1 && s.ready == at(r)
    ensures Rounds(b, s, rounds)
            == s.(ready := at(r + rounds), trace := s.trace + RoundByRound(at, r, rounds))
    decreases rounds
  {
    if rounds == 0 {
      assert s.trace + [] == s.trace;
    } else {
      var now, rest := at(r), RoundByRound(at, r + 1, rounds - 1);
      assert Round(b, s) == After(s, at, r);
      RoundsAdd(b, at, r + 1, rounds - 1, After(s, at, r));
      assert (s.trace + now) + rest == s.trace + (now + rest);
    }
  }

  /** If the rounds come to an end, so does the loop, after one turn per job and round. */
  lemma RoundsEnd<J(!new), W(!new)>(b: Behaviour<J, W>, at: nat -> seq<J>, rounds: nat, s: State<J, W>)
    requires PlaysRounds(b, at) && s.ready == at(1) && at(1 + rounds) == []
    ensures Turns(b, s, |RoundByRound(at, 1, rounds)|)
            == s.(ready := [], trace := s.trace + RoundByRound(at, 1, rounds))
  {
    RoundsAdd(b, at, 1, rounds, s);
    var k := RoundsAreTurns(b, s, rounds);
  }

  /** A round resumes each job once. */
  lemma {:induction false} RoundTrace<J, W>(b: Behaviour<J, W>, jobs: seq<J>, s: State<J, W>)
    ensures EachOnce(b, jobs, s).trace == s.trace + jobs
    decreases |jobs|
  {
    if jobs == [] {
      assert s.trace + jobs == s.trace;
    } else {
      RoundTrace(b, jobs[1..], Resume(b, s, jobs[0]));
      assert (s.trace + [jobs[0]]) + jobs[1..] == s.trace + jobs;
    }
  }
}

/** The counter, producer, consumer and spawner jobs of the same file. */
module SchedulerJobs {
  import opened Scheduler

  /** Jobs are named by number; these are the two that the spawner starts. */
  const SUB_A: nat := 1001
  const SUB_B: nat := 1002

  /** A suspended job: its kind, and the local variables its next resume will see. */
  datatype Job =
    | Counter(name: nat, i: int, n: int)        // about to test i <= n
    | Producer(pushed: int, count: int)         // about to test pushed < count
    | Consumer(received: int, count: int)       // about to test received < count
    | Spawner(started: bool)

  /** The queue that producers and consumers share, and what went in and came out of it. */
  datatype World = World(shared: seq<int>, pushed: seq<int>, received: seq<int>)

  /** A job runs to its next yield, which puts it at the back of the queue, or to its end. */
  function Body(j: Job, w: World): Effect<Job, World> {
    match j
    case Counter(name, i, n) => Effect(if i <= n then [Counter(name, i + 1, n)] else [], w)
    case Producer(i, count) =>
      if i < count
      then Effect([Producer(i + 1, count)], w.(shared := w.shared + [i], pushed := w.pushed + [i]))
      else Effect([], w)
    case Consumer(got, count) =>
      if got >= count then Effect([], w)
      else if w.shared == [] then Effect([j], w)
      else Effect([Consumer(got + 1, count)], w.(shared := w.shared[1..], received := w.received + [w.shared[0]]))
    case Spawner(started) =>
      Effect(if started then [] else [Counter(SUB_A, 1, 2), Counter(SUB_B, 1, 2), Spawner(true)], w)
  }

  // ---- counter jobs: the exact trace ----

  /** What the counters' round robin depends on. */
  ghost predicate RunsCounters<W(!new)>(b: Behaviour<Job, W>) {
    forall name, i, n, w :: b(Counter(name, i, n), w) == Effect(if i <= n then [Counter(name, i + 1, n)] else [], w)
  }

  lemma BodyRunsCounters()
    ensures RunsCounters(Body)
  {
  }

  ghost predicate Fresh(jobs: seq<Job>) {
    forall k :: 0 <= k < |jobs| ==> jobs[k].Counter? && jobs[k].i == 1
  }

  /** How often a counter is resumed: once per step and once to finish. */
  function Resumes(j: Job): nat
    requires j.Counter?
  {
    if j.n < 0 then 1 else j.n + 1
  }

  /** A job's part in round r: itself as it is then, if it is still running. */
  function Part(j: Job, r: nat): seq<Job>
    requires j.Counter?
  {
    if r <= Resumes(j) then [Counter(j.name, r, j.n)] else []
  }

  /** The jobs that are resumed in round r, in spawn order. */
  function AtRound(jobs: seq<Job>, r: nat): seq<Job>
    requires Fresh(jobs)
    decreases |jobs|
  {
    if jobs == [] then [] else Part(jobs[0], r) + AtRound(jobs[1..], r)
  }

  /** The rounds of a list of counters. */
  function RoundsOf(jobs: seq<Job>): nat -> seq<Job>
    requires Fresh(jobs)
  {
    (r: nat) => AtRound(jobs, r)
  }

  function TotalResumes(jobs: seq<Job>): nat
    requires Fresh(jobs)
    decreases |jobs|
  {
    if jobs == [] then 0 else Resumes(jobs[0]) + TotalResumes(jobs[1..])
  }

  lemma {:induction false} AtRoundOne(jobs: seq<Job>)
    requires Fresh(jobs)
    ensures AtRound(jobs, 1) == jobs
    decreases |jobs|
  {
    if jobs != [] {
      AtRoundOne(jobs[1..]);
      assert jobs == [jobs[0]] + jobs[1..];
    }
  }

  /** A state with more jobs queued and more resumes on record. */
  function Advanced<W>(s: State<Job, W>, more: seq<Job>, resumed: seq<Job>): State<Job, W> {
    s.(ready := s.ready + more, trace := s.trace + resumed)
  }

  lemma AdvancedNot<W>(s: State<Job, W>)
    ensures Advanced(s, [], []) == s
  {
    assert s.ready + [] == s.ready && s.trace + [] == s.trace;
  }

  /** Resuming a job, if it takes part, appends its part in the next round. */
  lemma PartResumed<W(!new)>(b: Behaviour<Job, W>, j: Job, r: nat, s: State<Job, W>)
    requires RunsCounters(b) && j.Counter? && r >= 1
    ensures EachOnce(b, Part(j, r), s) == Advanced(s, Part(j, r + 1), Part(j, r))
  {
    AdvancedNot(s);
    if r <= Resumes(j) {
      var c := Counter(j.name, r, j.n);
      assert [c][1..] == [];
      assert EachOnce(b, [c], s) == EachOnce(b, [c][1..], Resume(b, s, c)) == Resume(b, s, c);
    }
  }

  /** One round of counters: the survivors move to the next round in the same order. */
  lemma {:induction false} CounterRound<W(!new)>(b: Behaviour<Job, W>, jobs: seq<Job>, r: nat, s: State<Job, W>)
    requires RunsCounters(b) && Fresh(jobs) && r >= 1
    ensures EachOnce(b, AtRound(jobs, r), s) == Advanced(s, AtRound(jobs, r + 1), AtRound(jobs, r))
    decreases |jobs|
  {
    if jobs == [] {
      AdvancedNot(s);
    } else {
      CounterRound(b, jobs[1..], r, Advanced(s, Part(jobs[0], r + 1), Part(jobs[0], r)));
      PartResumed(b, jobs[0], r, s);
      JoinRound(b, Part(jobs[0], r), Part(jobs[0], r + 1), AtRound(jobs[1..], r), AtRound(jobs[1..], r + 1), s);
    }
  }

  /** Two parts of a round, one after the other. */
  lemma JoinRound<W>(b: Behaviour<Job, W>, now: seq<Job>, next: seq<Job>, rest: seq<Job>, rest': seq<Job>,
                   s: State<Job, W>)
    requires EachOnce(b, now, s) == Advanced(s, next, now)
    requires EachOnce(b, rest, Advanced(s, next, now)) == Advanced(Advanced(s, next, now), rest', rest)
    ensures EachOnce(b, now + rest, s) == Advanced(s, next + rest', now + rest)
  {
    EachOnceAppend(b, now, rest, s);
    assert (s.ready + next) + rest' == s.ready + (next + rest');
    assert (s.trace + now) + rest == s.trace + (now + rest);
  }

  /** A whole round from the state at its beginning. */
  lemma OneRound<W(!new)>(b: Behaviour<Job, W>, jobs: seq<Job>, r: nat, s: State<Job, W>)
    requires RunsCounters(b) && Fresh(jobs) && r >= 1 && s.ready == AtRound(jobs, r)
    ensures Round(b, s) == s.(ready := AtRound(jobs, r + 1), trace := s.trace + AtRound(jobs, r))
  {
    CounterRound(b, jobs, r, s.(ready := []));
    assert [] + AtRound(jobs, r + 1) == AtRound(jobs, r + 1);
  }

  lemma CountersPlayRounds<W(!new)>(b: Behaviour<Job, W>, jobs: seq<Job>)
    requires RunsCounters(b) && Fresh(jobs)
    ensures PlaysRounds(b, RoundsOf(jobs))
  {
    forall s: State<Job, W>, r: nat | r >= 1 && s.ready == RoundsOf(jobs)(r)
      ensures Round(b, s) == After(s, RoundsOf(jobs), r)
    {
      OneRound(b, jobs, r, s);
    }
  }

  /** After the last round nobody is left. */
  lemma {:induction false} NobodyLeft(jobs: seq<Job>, r: nat)
    requires Fresh(jobs) && r > TotalResumes(jobs)
    ensures AtRound(jobs, r) == []
    decreases |jobs|
  {
    if jobs != [] { NobodyLeft(jobs[1..], r); }
  }

  /** How many of the rounds r .. r + rounds - 1 are at most n. */
  function Overlap(n: nat, r: nat, rounds: nat): nat {
    if n < r then 0 else if n < r + rounds then n - r + 1 else rounds
  }

  /** Adding one job adds its resumes to the length of the trace. */
  lemma {:induction false} TraceLength(jobs: seq<Job>, r: nat, rounds: nat)
    requires Fresh(jobs) && jobs != []
    ensures |RoundByRound(RoundsOf(jobs), r, rounds)| ==
            |RoundByRound(RoundsOf(jobs[1..]), r, rounds)| + Overlap(Resumes(jobs[0]), r, rounds)
    decreases rounds
  {
    if rounds > 0 {
      TraceLength(jobs, r + 1, rounds - 1);
      assert |RoundsOf(jobs)(r)| == |Part(jobs[0], r)| + |RoundsOf(jobs[1..])(r)|;
      assert Overlap(Resumes(jobs[0]), r, rounds) == |Part(jobs[0], r)| + Overlap(Resumes(jobs[0]), r + 1, rounds - 1);
    }
  }

  lemma {:induction false} TraceTotal(jobs: seq<Job>, rounds: nat)
    requires Fresh(jobs) && rounds >= TotalResumes(jobs)
    ensures |RoundByRound(RoundsOf(jobs), 1, rounds)| == TotalResumes(jobs)
    decreases |jobs|
  {
    if jobs == [] {
      EmptyTrace(1, rounds);
    } else {
      TraceTotal(jobs[1..], rounds);
      TraceLength(jobs, 1, rounds);
    }
  }

  lemma {:induction false} EmptyTrace(r: nat, rounds: nat)
    ensures RoundByRound(RoundsOf([]), r, rounds) == []
    decreases rounds
  {
    if rounds > 0 { EmptyTrace(r + 1, rounds - 1); }
  }

  /** For any list of counters the run loop ends after exactly the sum of their resumes, and its
      trace is round 1, then round 2, and so on, each in spawn order. */
  lemma CountersRunRoundRobin<W(!new)>(b: Behaviour<Job, W>, s: State<Job, W>)
    requires RunsCounters(b) && Fresh(s.ready)
    ensures var n := TotalResumes(s.ready);
            Turns(b, s, n) == s.(ready := [], trace := s.trace + RoundByRound(RoundsOf(s.ready), 1, n))
  {
    var n := TotalResumes(s.ready);
    AtRoundOne(s.ready);
    TraceTotal(s.ready, n);
    NobodyLeft(s.ready, 1 + n);
    CountersPlayRounds(b, s.ready);
    RoundsEnd(b, RoundsOf(s.ready), n, s);
  }

  lemma {:induction false} EmptyStays<W>(b: Behaviour<Job, W>, s: State<Job, W>, k: nat)
    requires s.ready == []
    ensures Turns(b, s, k) == s
  {
    if k > 0 { EmptyStays(b, s, k - 1); }
  }

  /** Once the queue is empty it does not matter how many more turns are counted. */
  lemma SameEnd<W>(b: Behaviour<Job, W>, s: State<Job, W>, i: nat, j: nat)
    requires Turns(b, s, i).ready == [] && Turns(b, s, j).ready == []
    ensures Turns(b, s, i) == Turns(b, s, j)
  {
    if i <= j {
      TurnsAdd(b, s, i, j - i);
      EmptyStays(b, Turns(b, s, i), j - i);
    } else {
      TurnsAdd(b, s, j, i - j);
      EmptyStays(b, Turns(b, s, j), i - j);
    }
  }

  /** The scheduler of the source, given any list of counters: whenever its loop has ended, it has
      resumed exactly the jobs of round 1, then of round 2, and so on, each round in spawn order, a
      counter to n taking part in the first n + 1 rounds; that is the sum of (n + 1) resumes. */
  lemma CountersTrace(jobs: seq<Job>, w: World, k: nat)
    requires Fresh(jobs) && Turns(Body, State(jobs, w, []), k).ready == []
    ensures var t := Turns(Body, State(jobs, w, []), k);
            && t.trace == RoundByRound(RoundsOf(jobs), 1, TotalResumes(jobs))
            && |t.trace| == TotalResumes(jobs)
            && t.world == w
  {
    var s := State(jobs, w, []);
    BodyRunsCounters();
    CountersRunRoundRobin(Body, s);
    SameEnd(Body, s, k, TotalResumes(jobs));
    TraceTotal(jobs, TotalResumes(jobs));
  }

  // ---- fairness at every moment ----

  /** The queue is the rest of a round followed by the beginning of the next. */
  ghost predicate Fair(q: seq<Job>, r: int) {
    && (forall k :: 0 <= k < |q| ==> q[k].Counter? && (q[k].i == r || q[k].i == r + 1))
    && (forall k, l :: 0 <= k < l < |q| && q[k].i == r + 1 ==> q[l].i == r + 1)
  }

  lemma FairTurn<W(!new)>(b: Behaviour<Job, W>, s: State<Job, W>, r: int) returns (r': int)
    requires RunsCounters(b) && Fair(s.ready, r)
    ensures Fair(Turn(b, s).ready, r')
  {
    r' := if s.ready != [] && s.ready[0].i == r + 1 then r + 1 else r;
  }

  /** At every moment of a run of counters, two jobs that are still queued have been resumed
      equally often or differ by one. */
  lemma {:induction false} NeverAheadByTwo<W(!new)>(
    b: Behaviour<Job, W>, s: State<Job, W>, r: int, k: nat, x: nat, y: nat)
    requires RunsCounters(b) && Fair(s.ready, r) && x < |Turns(b, s, k).ready| && y < |Turns(b, s, k).ready|
    ensures var q := Turns(b, s, k).ready;
            q[x].Counter? && q[y].Counter? && -1 <= q[x].i - q[y].i <= 1
    decreases k
  {
    if k > 0 {
      var r' := FairTurn(b, s, r);
      NeverAheadByTwo(b, Turn(b, s), r', k - 1, x, y);
    }
  }

  // ---- producers and consumers: order, conservation, termination ----

  function Left(done: int, count: int): nat {
    if done < count then count - done else 0
  }

  /** What the queued consumers still want. */
  function Demand(q: seq<Job>): nat {
    if q == [] then 0 else (if q[0].Consumer? then Left(q[0].received, q[0].count) else 0) + Demand(q[1..])
  }

  /** What the queued producers will still push. */
  function Supply(q: seq<Job>): nat {
    if q == [] then 0 else (if q[0].Producer? then Left(q[0].pushed, q[0].count) else 0) + Supply(q[1..])
  }

  lemma {:induction false} DemandAppend(p: seq<Job>, q: seq<Job>)
    ensures (Demand(p + q), Supply(p + q), Load(p + q))
            == (Demand(p) + Demand(q), Supply(p) + Supply(q), Load(p) + Load(q))
  {
    if p == [] {
      assert p + q == q;
    } else {
      DemandAppend(p[1..], q);
      assert (p + q)[1..] == p[1..] + q;
    }
  }

  lemma DemandOne(j: Job)
    ensures Demand([j]) == (if j.Consumer? then Left(j.received, j.count) else 0)
    ensures Supply([j]) == (if j.Producer? then Left(j.pushed, j.count) else 0)
    ensures Load([j]) == LoadOf(j)
  {
    assert [j][1..] == [];
  }

  /** Demand not covered by what is in the shared queue or will be pushed. */
  function Shortage(s: State<Job, World>): int {
    Demand(s.ready) - Supply(s.ready) - |s.world.shared|
  }

  /** The resumes a job still needs, if it never finds the shared queue empty. */
  function LoadOf(j: Job): nat {
    match j
    case Counter(_, i, n) => Left(i, n + 1) + 1
    case Producer(i, count) => Left(i, count) + 1
    case Consumer(got, count) => Left(got, count) + 1
    case Spawner(started) => if started then 1 else 8
  }

  function Load(q: seq<Job>): nat {
    if q == [] then 0 else LoadOf(q[0]) + Load(q[1..])
  }

  predicate Blocked(j: Job, shared: seq<int>) {
    j.Consumer? && j.received < j.count && shared == []
  }

  /** What one job's body does to demand, supply and load: their balance with the shared queue
      stays, and the load goes down by one unless the job is a consumer that finds nothing. */
  lemma BodyBalance(j: Job, w: World)
    ensures var e := Body(j, w);
            && Demand(e.enqueued) - Supply(e.enqueued) - |e.world.shared| == Demand([j]) - Supply([j]) - |w.shared|
            && (if Blocked(j, w.shared) then e == Effect([j], w) && Load(e.enqueued) == LoadOf(j)
                else Load(e.enqueued) == LoadOf(j) - 1)
  {
    DemandOne(j);
    match j
    case Counter(name, i, n) => DemandOne(Counter(name, i + 1, n));
    case Producer(i, count) => DemandOne(Producer(i + 1, count));
    case Consumer(got, count) => DemandOne(Consumer(got + 1, count));
    case Spawner(started) =>
      var a, b, c := Counter(SUB_A, 1, 2), Counter(SUB_B, 1, 2), Spawner(true);
      assert [a, b, c][1..] == [b, c] && [b, c][1..] == [c] && [c][1..] == [];
      assert Load([c]) == 1 && Load([b, c]) == 4;
      assert Demand([b, c]) == 0 && Supply([b, c]) == 0;
  }

  /** The same for a turn of the loop; a consumer that finds nothing only moves to the back. */
  lemma TurnBalance(s: State<Job, World>)
    requires s.ready != []
    ensures Shortage(Turn(Body, s)) == Shortage(s)
    ensures if Blocked(s.ready[0], s.world.shared)
            then && Turn(Body, s).ready == s.ready[1..] + [s.ready[0]]
                 && Turn(Body, s).world == s.world
                 && Load(Turn(Body, s).ready) == Load(s.ready)
            else Load(Turn(Body, s).ready) == Load(s.ready) - 1
  {
    var j, rest := s.ready[0], s.ready[1..];
    assert s.ready == [j] + rest;
    DemandAppend([j], rest);
    DemandOne(j);
    BodyBalance(j, s.world);
    DemandAppend(rest, Body(j, s.world).enqueued);
  }

  lemma {:induction false} ShortageConstant(s: State<Job, World>, k: nat)
    ensures Shortage(Turns(Body, s, k)) == Shortage(s)
    decreases k
  {
    if k > 0 {
      if s.ready != [] { TurnBalance(s); }
      ShortageConstant(Turn(Body, s), k - 1);
    }
  }

  /** Position of the first job that would get somewhere. */
  function FirstFree(q: seq<Job>, shared: seq<int>): nat {
    if q == [] || !Blocked(q[0], shared) then 0 else 1 + FirstFree(q[1..], shared)
  }

  lemma {:induction false} AllBlocked(q: seq<Job>, shared: seq<int>)
    requires FirstFree(q, shared) >= |q|
    ensures Supply(q) == 0 && Demand(q) >= |q| && (q != [] ==> shared == [])
  {
    if q != [] { AllBlocked(q[1..], shared); }
  }

  lemma {:induction false} FirstFreePrefix(q: seq<Job>, j: Job, shared: seq<int>)
    requires FirstFree(q, shared) < |q|
    ensures FirstFree(q + [j], shared) == FirstFree(q, shared)
  {
    assert (q + [j])[1..] == q[1..] + [j];
    if Blocked(q[0], shared) { FirstFreePrefix(q[1..], j, shared); }
  }

  lemma {:induction false} FirstFreeBound(q: seq<Job>, shared: seq<int>)
    ensures FirstFree(q, shared) <= |q|
  {
    if q != [] { FirstFreeBound(q[1..], shared); }
  }

  /** One turn brings the pair (load, distance to the first free job) down. */
  lemma TurnDescends(s: State<Job, World>)
    requires s.ready != [] && Shortage(s) <= 0
    ensures var t := Turn(Body, s);
            || Load(t.ready) < Load(s.ready)
            || (&& Load(t.ready) == Load(s.ready)
                && FirstFree(t.ready, t.world.shared) < FirstFree(s.ready, s.world.shared))
  {
    TurnBalance(s);
    if Blocked(s.ready[0], s.world.shared) {
      FirstFreeBound(s.ready, s.world.shared);
      if FirstFree(s.ready, s.world.shared) == |s.ready| {
        AllBlocked(s.ready, s.world.shared);
      } else {
        FirstFreePrefix(s.ready[1..], s.ready[0], s.world.shared);
      }
    }
  }

  lemma {:induction false} Terminates(s: State<Job, World>) returns (k: nat)
    requires Shortage(s) <= 0
    ensures Turns(Body, s, k).ready == []
    decreases Load(s.ready), FirstFree(s.ready, s.world.shared)
  {
    if s.ready == [] {
      k := 0;
    } else {
      TurnBalance(s);
      TurnDescends(s);
      var k1 := Terminates(Turn(Body, s));
      k := k1 + 1;
    }
  }

  /** `run` returns if and only if the consumers' demand is covered by what is in the shared
      queue and what the producers will push, whatever else is scheduled and in whatever order. */
  lemma RunReturnsIffSupplied(s: State<Job, World>)
    ensures (exists k: nat :: Turns(Body, s, k).ready == [])
            <==> Demand(s.ready) <= Supply(s.ready) + |s.world.shared|
  {
    if k: nat :| Turns(Body, s, k).ready == [] {
      ShortageConstant(s, k);
    }
    if Shortage(s) <= 0 {
      var k := Terminates(s);
    }
  }

  /** Everything ever pushed is received, in order, or still in the shared queue. */
  ghost predicate InOrder(w: World, earlier: seq<int>) {
    w.received + w.shared == earlier + w.pushed
  }

  lemma BodyIsFifo(j: Job, w: World, earlier: seq<int>)
    requires InOrder(w, earlier)
    ensures InOrder(Body(j, w).world, earlier)
  {
    if j.Producer? {
      assert w.received + (w.shared + [j.pushed]) == (w.received + w.shared) + [j.pushed];
      assert earlier + (w.pushed + [j.pushed]) == (earlier + w.pushed) + [j.pushed];
    } else if j.Consumer? && w.shared != [] {
      assert (w.received + [w.shared[0]]) + w.shared[1..] == w.received + w.shared;
    }
  }

  /** Values come out of the shared queue in the order they went in, none lost, none twice, with
      any number of producers and consumers. */
  lemma {:induction false} SharedQueueIsFifo(s: State<Job, World>, k: nat, earlier: seq<int>)
    requires InOrder(s.world, earlier)
    ensures InOrder(Turns(Body, s, k).world, earlier)
    decreases k
  {
    if k > 0 {
      if s.ready != [] { BodyIsFifo(s.ready[0], s.world, earlier); }
      SharedQueueIsFifo(Turn(Body, s), k - 1, earlier);
    }
  }

  // ---- what is pushed, and what a whole run receives ----

  /** The queued producers that will still push v. */
  function Due(q: seq<Job>, v: int): nat {
    if q == [] then 0 else (if q[0].Producer? && q[0].pushed <= v < q[0].count then 1 else 0) + Due(q[1..], v)
  }

  lemma {:induction false} DueAppend(p: seq<Job>, q: seq<Job>, v: int)
    ensures Due(p + q, v) == Due(p, v) + Due(q, v)
  {
    if p == [] {
      assert p + q == q;
    } else {
      DueAppend(p[1..], q, v);
      assert (p + q)[1..] == p[1..] + q;
    }
  }

  /** Occurrences of v pushed or due, values pushed or to be pushed, values received or wanted. */
  function Accounts(q: seq<Job>, w: World, v: int): (int, int, int) {
    (multiset(w.pushed)[v] + Due(q, v), |w.pushed| + Supply(q), |w.received| + Demand(q))
  }

  lemma BodyAccounts(j: Job, w: World, v: int)
    ensures Accounts(Body(j, w).enqueued, Body(j, w).world, v) == Accounts([j], w, v)
  {
    DemandOne(j);
    assert [j][1..] == [];
    match j
    case Counter(name, i, n) => NoAccount(Body(j, w).enqueued, v);
    case Producer(i, count) =>
      DemandOne(Producer(i + 1, count));
      assert [Producer(i + 1, count)][1..] == [];
    case Consumer(got, count) =>
      DemandOne(Consumer(got + 1, count));
      assert [Consumer(got + 1, count)][1..] == [];
    case Spawner(started) =>
      NoAccount([j], v);
      NoAccount(Body(j, w).enqueued, v);
  }

  lemma {:induction false} NoAccount(q: seq<Job>, v: int)
    requires forall i :: 0 <= i < |q| ==> !q[i].Producer? && !q[i].Consumer?
    ensures (Due(q, v), Supply(q), Demand(q)) == (0, 0, 0)
  {
    if q != [] { NoAccount(q[1..], v); }
  }

  lemma TurnAccounts(s: State<Job, World>, v: int)
    ensures Accounts(Turn(Body, s).ready, Turn(Body, s).world, v) == Accounts(s.ready, s.world, v)
  {
    if s.ready != [] {
      var j, rest := s.ready[0], s.ready[1..];
      assert s.ready == [j] + rest;
      var e := Body(j, s.world);
      BodyAccounts(j, s.world, v);
      DemandAppend([j], rest);
      DueAppend([j], rest, v);
      DemandAppend(rest, e.enqueued);
      DueAppend(rest, e.enqueued, v);
    }
  }

  lemma {:induction false} AccountsConstant(s: State<Job, World>, k: nat, v: int)
    ensures var t := Turns(Body, s, k); Accounts(t.ready, t.world, v) == Accounts(s.ready, s.world, v)
    decreases k
  {
    if k > 0 {
      TurnAccounts(s, v);
      AccountsConstant(Turn(Body, s), k - 1, v);
    }
  }

  /** However many producers there are and however they take turns: each value has been pushed once
      for every producer that was to push it and has passed it. */
  lemma PushedOncePerProducer(s: State<Job, World>, k: nat, v: int)
    requires s.world.pushed == []
    ensures multiset(Turns(Body, s, k).world.pushed)[v] == Due(s.ready, v) - Due(Turns(Body, s, k).ready, v)
  {
    AccountsConstant(s, k, v);
  }

  /** At most one producer is queued, and it has pushed 0, 1, 2 and so on. */
  ghost predicate OneProducer(q: seq<Job>, pushed: seq<int>) {
    && (forall i, j :: 0 <= i < j < |q| ==> !q[i].Producer? || !q[j].Producer?)
    && (forall i :: 0 <= i < |q| && q[i].Producer? ==> q[i].pushed == |pushed|)
    && (forall i :: 0 <= i < |pushed| ==> pushed[i] == i)
  }

  lemma OneProducerTurn(s: State<Job, World>)
    requires OneProducer(s.ready, s.world.pushed)
    ensures OneProducer(Turn(Body, s).ready, Turn(Body, s).world.pushed)
  {
  }

  /** A single producer pushes the numbers from 0 on, in order. */
  lemma {:induction false} PushedInOrder(s: State<Job, World>, k: nat)
    requires OneProducer(s.ready, s.world.pushed)
    ensures OneProducer(Turns(Body, s, k).ready, Turns(Body, s, k).world.pushed)
    decreases k
  {
    if k > 0 {
      OneProducerTurn(s);
      PushedInOrder(Turn(Body, s), k - 1);
    }
  }

  /** So when `run` returns, the consumers have received 0, 1, 2 and so on, as many as they wanted
      together, and the rest of what the producer pushed is in the shared queue. */
  lemma RunReceives(jobs: seq<Job>, k: nat)
    requires OneProducer(jobs, []) && Turns(Body, State(jobs, World([], [], []), []), k).ready == []
    ensures var w := Turns(Body, State(jobs, World([], [], []), []), k).world;
            |w.received| == Demand(jobs) && w.received + w.shared == seq(Supply(jobs), i => i)
  {
    var s := State(jobs, World([], [], []), []);
    assert InOrder(s.world, []);
    SharedQueueIsFifo(s, k, []);
    AccountsConstant(s, k, 0);
    PushedInOrder(s, k);
    var w := Turns(Body, s, k).world;
    assert w.received + w.shared == w.pushed;
  }

  /** producer(n) and consumer(n) alone: run returns, and the consumer has got 0 to n - 1. */
  lemma ExchangesAll(n: nat) returns (k: nat)
    ensures var t := Turns(Body, State([Producer(0, n), Consumer(0, n)], World([], [], []), []), k);
            (t.ready, t.world.shared, t.world.received) == ([], [], seq(n, i => i))
  {
    var p, c := Producer(0, n), Consumer(0, n);
    var s := State([p, c], World([], [], []), []);
    assert [p, c][1..] == [c] && [c][1..] == [];
    assert Demand([c]) == n && Supply([c]) == 0;
    k := Terminates(s);
    RunReceives([p, c], k);
    var w := Turns(Body, s, k).world;
    assert w.received == w.received + w.shared;
  }

  // ---- dynamic spawning ----

  lemma OneTurn<J, W>(b: Behaviour<J, W>, q: seq<J>, more: seq<J>, w: W, trace: seq<J>, k: nat)
    requires q != [] && k > 0 && b(q[0], w) == Effect(more, w)
    ensures Turns(b, State(q, w, trace), k) == Turns(b, State(q[1..] + more, w, trace + [q[0]]), k - 1)
  {
  }

  /** A job that starts two others and ends at its next turn: the queue turns over once. */
  lemma StartsTwo<J, W>(b: Behaviour<J, W>, p: J, x: J, y: J, p': J, x': J, y': J, w: W)
    requires b(p, w) == Effect([x, y, p'], w) && b(p', w) == Effect([], w)
    requires b(x, w) == Effect([x'], w) && b(y, w) == Effect([y'], w)
    ensures Turns(b, State([p], w, []), 4) == State([x', y'], w, [p, x, y, p'])
  {
    OneTurn(b, [p], [x, y, p'], w, [], 4);
    assert [p][1..] + [x, y, p'] == [x, y, p'] && [] + [p] == [p];
    OneTurn(b, [x, y, p'], [x'], w, [p], 3);
    assert [x, y, p'][1..] + [x'] == [y, p', x'] && [p] + [x] == [p, x];
    OneTurn(b, [y, p', x'], [y'], w, [p, x], 2);
    assert [y, p', x'][1..] + [y'] == [p', x', y'] && [p, x] + [y] == [p, x, y];
    OneTurn(b, [p', x', y'], [], w, [p, x, y], 1);
    assert [p', x', y'][1..] + [] == [x', y'] && [p, x, y] + [p'] == [p, x, y, p'];
  }

  /** Two jobs with two turns left each. */
  lemma TwoEnd<J, W>(b: Behaviour<J, W>, x: J, y: J, x': J, y': J, w: W, trace: seq<J>)
    requires b(x, w) == Effect([x'], w) && b(y, w) == Effect([y'], w)
    requires b(x', w) == Effect([], w) && b(y', w) == Effect([], w)
    ensures Turns(b, State([x, y], w, trace), 4) == State([], w, trace + [x, y, x', y'])
  {
    OneTurn(b, [x, y], [x'], w, trace, 4);
    assert [x, y][1..] + [x'] == [y, x'];
    OneTurn(b, [y, x'], [y'], w, trace + [x], 3);
    assert [y, x'][1..] + [y'] == [x', y'];
    OneTurn(b, [x', y'], [], w, trace + [x] + [y], 2);
    assert [x', y'][1..] + [] == [y'];
    OneTurn(b, [y'], [], w, trace + [x] + [y] + [x'], 1);
    assert [y'][1..] + [] == [];
    assert trace + [x] + [y] + [x'] + [y'] == trace + [x, y, x', y'];
  }

  /** The spawner starts its two counters behind itself, and ends between their first steps and
      their second. */
  lemma SpawnerTrace(w: World)
    ensures var a, b := (i: int) => Counter(SUB_A, i, 2), (i: int) => Counter(SUB_B, i, 2);
            Turns(Body, State([Spawner(false)], w, []), 8)
            == State([], w, [Spawner(false), a(1), b(1), Spawner(true)] + [a(2), b(2), a(3), b(3)])
  {
    var a1, a2, a3 := Counter(SUB_A, 1, 2), Counter(SUB_A, 2, 2), Counter(SUB_A, 3, 2);
    var b1, b2, b3 := Counter(SUB_B, 1, 2), Counter(SUB_B, 2, 2), Counter(SUB_B, 3, 2);
    var p, p' := Spawner(false), Spawner(true);
    StartsTwo(Body, p, a1, b1, p', a2, b2, w);
    TwoEnd(Body, a2, b2, a3, b3, w, [p, a1, b1, p']);
    TurnsAdd(Body, State([p], w, []), 4, 4);
  }

  // ---- the scheduler object ----

  class RoundRobin {
    var ready: seq<Job>
    var shared: seq<int>
    ghost var trace: seq<Job>
    ghost var pushed: seq<int>
    ghost var received: seq<int>

    ghost function View(): State<Job, World>
      reads this
    {
      State(ready, World(shared, pushed, received), trace)
    }

    constructor ()
      ensures View() == State([], World([], [], []), [])
    {
      ready, shared, trace, pushed, received := [], [], [], [], [];
    }

    /** spawn, and the suspension of yield. */
    method Enqueue(j: Job)
      modifies this`ready
      ensures ready == old(ready) + [j]
    {
      ready := ready + [j];
    }

    /** h.resume(), when h is this job. */
    method ResumeJob(j: Job)
      modifies this
      ensures View() == Resume(Body, old(View()), j)
    {
      trace := trace + [j];
      match j {
        case Counter(name, i, n) =>
          if i <= n { Enqueue(Counter(name, i + 1, n)); }
        case Producer(i, count) =>
          if i < count {
            shared, pushed := shared + [i], pushed + [i];
            Enqueue(Producer(i + 1, count));
          }
        case Consumer(got, count) =>
          if got < count {
            if shared != [] {
              received, shared := received + [shared[0]], shared[1..];
              Enqueue(Consumer(got + 1, count));
            } else {
              Enqueue(j);
            }
          }
        case Spawner(started) =>
          if !started {
            Enqueue(Counter(SUB_A, 1, 2));
            Enqueue(Counter(SUB_B, 1, 2));
            Enqueue(Spawner(true));
          }
      }
      assert ready == old(ready) + Body(j, old(View()).world).enqueued;
    }

    /** The run loop: it ends with the queue empty, having taken exactly the turns of the
        specification, and what it received is a prefix of what was pushed, in order. */
    method Run() returns (ghost turns: nat)
      requires Demand(ready) <= Supply(ready) + |shared|
      modifies this
      ensures ready == []
      ensures View() == Turns(Body, old(View()), turns)
    {
      turns := 0;
      while ready != []
        invariant Shortage(View()) <= 0
        invariant View() == Turns(Body, old(View()), turns)
        decreases Load(ready), FirstFree(ready, shared)
      {
        ghost var before := View();
        TurnBalance(before);
        TurnDescends(before);
        OneMore(old(View()), turns);
        var h := ready[0];
        ready := ready[1..];
        ResumeJob(h);
        assert View() == Turn(Body, before);
        turns := turns + 1;
      }
    }
  }

  lemma OneMore(s: State<Job, World>, k: nat)
    ensures Turns(Body, s, k + 1) == Turn(Body, Turns(Body, s, k))
  {
    TurnsAdd(Body, s, k, 1);
    assert Turns(Body, Turns(Body, s, k), 1) == Turns(Body, Turn(Body, Turns(Body, s, k)), 0);
  }
}
