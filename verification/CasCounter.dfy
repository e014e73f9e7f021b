/** The compare-and-swap counter of performance/08_lockfree.cpp: threads that each add one to a
    shared word, many times, retrying until their swap succeeds. Loads are relaxed: they, and
    failed swaps, may see any value the word has had. */
module CasCounter {
  import opened Options
  import opened Counting
  import opened Words

  /** Increments still to do, and the value this thread expects to find. */
  datatype Worker = Worker(left: nat, expected: Option<int>)

  /** Every value the word has had, in order. */
  datatype State = State(values: seq<int>, workers: seq<Worker>)

  datatype Action = Act(worker: nat, seen: nat, succeed: bool)

  function Init(threads: nat, ops: nat): State { State([0], seq(threads, _ => Worker(ops, None))) }

  function Step(s: State, a: Action): State {
    if a.worker >= |s.workers| || s.values == [] || s.workers[a.worker].left == 0 then s else
    var w := s.workers[a.worker];
    if w.expected.Some? && a.succeed && Last(s.values) == w.expected.value then
      State(s.values + [w.expected.value + 1], s.workers[a.worker := Worker(w.left - 1, None)])
    else
      s.(workers := s.workers[a.worker := Worker(w.left, Some(Read(s.values, a.seen)))])
  }

  function Run(s: State, acts: seq<Action>): State
    decreases |acts|
  {
    if acts == [] then s else Run(Step(s, acts[0]), acts[1..])
  }

  function Left(w: Worker): int { w.left }

  /** The word counts 0, 1, 2 and so on, once for each increment done. */
  ghost predicate Inv(s: State, total: nat) {
    && |s.values| + Total(s.workers, Left) == total + 1 && s.values != []
    && forall i :: 0 <= i < |s.values| ==> s.values[i] == i
  }

  lemma StepInv(s: State, a: Action, total: nat)
    requires Inv(s, total)
    ensures Inv(Step(s, a), total)
  {
    if a.worker < |s.workers| && s.workers[a.worker].left > 0 {
      TotalMoves(s.workers, Left, a.worker, Step(s, a).workers[a.worker]);
    }
  }

  lemma {:induction false} RunInv(s: State, acts: seq<Action>, total: nat)
    requires Inv(s, total)
    ensures Inv(Run(s, acts), total) == Inv(s, total)
    decreases |acts|
  {
    if acts != [] {
      StepInv(s, acts[0], total);
      RunInv(Step(s, acts[0]), acts[1..], total);
    }
  }

  lemma {:induction false} LeftOfInit(threads: nat, ops: nat)
    ensures Total(Init(threads, ops).workers, Left) == threads * ops
  {
    if threads > 0 {
      LeftOfInit(threads - 1, ops);
      assert Init(threads, ops).workers[1..] == Init(threads - 1, ops).workers;
      assert threads * ops == (threads - 1) * ops + ops;
    }
  }

  lemma {:induction false} AllDone(ws: seq<Worker>)
    ensures Total(ws, Left) >= 0
    ensures Total(ws, Left) == 0 <==> forall i :: 0 <= i < |ws| ==> ws[i].left == 0
  {
    if ws != [] {
      AllDone(ws[1..]);
      assert forall i :: 1 <= i < |ws| ==> ws[i] == ws[1..][i - 1];
    }
  }

  /** No increment is lost or done twice: under every schedule the counter stands at threads * ops
      if and only if every thread has finished, and it never passes that. */
  lemma CountsEveryIncrement(threads: nat, ops: nat, acts: seq<Action>)
    ensures var t := Run(Init(threads, ops), acts);
            && t.values != [] && Last(t.values) <= threads * ops
            && (Last(t.values) == threads * ops <==> forall i :: 0 <= i < |t.workers| ==> t.workers[i].left == 0)
  {
    LeftOfInit(threads, ops);
    RunInv(Init(threads, ops), acts, threads * ops);
    AllDone(Run(Init(threads, ops), acts).workers);
  }

  /** And no thread waits for another: left alone for one load and one swap, in any state, it does
      its next increment. */
  lemma IncrementsAlone(s: State, i: nat)
    requires i < |s.workers| && s.workers[i].left > 0 && s.values != []
    ensures Step(Step(s, Act(i, |s.values|, false)), Act(i, |s.values|, true))
            == State(s.values + [Last(s.values) + 1], s.workers[i := Worker(s.workers[i].left - 1, None)])
  {
    var s1 := Step(s, Act(i, |s.values|, false));
    assert s1 == s.(workers := s.workers[i := Worker(s.workers[i].left, Some(Last(s.values)))]);
  }
}
