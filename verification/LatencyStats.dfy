/** The latency accumulator of performance/10_profiling.cpp under any number of concurrent record
    calls. All accesses are relaxed, so a plain load, and the value handed back by a failed
    compare-and-swap, may be any value the word ever had; only a read-modify-write is sure to act
    on the newest. compare_exchange_weak may also fail for no reason. */
module LatencyStats {
  import opened Counting
  import opened Words

  const MAX := 0x7FFF_FFFF_FFFF_FFFF
  const HALF := 0x8000_0000_0000_0000
  const SPAN := 0x1_0000_0000_0000_0000

  type int64 = x: int | -HALF <= x <= MAX

  /** Two's complement, as fetch_add wraps. */
  function Wrap(x: int): int64 { (x + HALF) % SPAN - HALF }

  lemma WrapAdds(a: int, b: int)
    ensures Wrap(Wrap(a) + b) == Wrap(a + b)
  {
  }

  /** Where a record call stands. */
  datatype Point =
    | Start
    | Counted               // count added
    | Totalled              // total added
    | MinLoop(cur: int)     // holding a value read from min_ns
    | MinDone
    | MaxLoop(cur: int)
    | Done

  datatype Call = Call(ns: int64, point: Point)

  /** mins and maxs are every value min_ns and max_ns have had, in order. */
  datatype State = State(count: int, total: int, mins: seq<int>, maxs: seq<int>, calls: seq<Call>)

  /** The next access of one call: which old value a load sees, and whether a swap that can
      succeed does. */
  datatype Action = Act(call: nat, seen: nat, succeed: bool)

  function Init(ns: seq<int64>): State {
    State(0, 0, [MAX], [0], seq(|ns|, i requires 0 <= i < |ns| => Call(ns[i], Start)))
  }

  /** The two words that are kept by compare-and-swap loops. */
  datatype Side = Lower | Upper      // min_ns, max_ns

  /** The loop's test: a is to replace b. */
  predicate Beats(d: Side, a: int, b: int) { if d.Lower? then a < b else a > b }

  function Passed(d: Side): Point { if d.Lower? then MinDone else Done }

  function Holding(d: Side, cur: int): Point { if d.Lower? then MinLoop(cur) else MaxLoop(cur) }

  /** One iteration: the test, and then the swap. */
  function SwapStep(d: Side, values: seq<int>, ns: int64, cur: int, a: Action): (seq<int>, Point)
    requires values != []
  {
    if !Beats(d, ns, cur) then (values, Passed(d))
    else if a.succeed && Last(values) == cur then (values + [ns], Passed(d))
    else (values, Holding(d, Read(values, a.seen)))
  }

  function Step(s: State, a: Action): State {
    if a.call >= |s.calls| || s.mins == [] || s.maxs == [] then s else
    var c := s.calls[a.call];
    match c.point
    case Start => At(s.(count := Wrap(s.count + 1)), a.call, Counted)
    case Counted => At(s.(total := Wrap(s.total + c.ns)), a.call, Totalled)
    case Totalled => At(s, a.call, MinLoop(Read(s.mins, a.seen)))
    case MinLoop(cur) =>
      var (mins, p) := SwapStep(Lower, s.mins, c.ns, cur, a);
      At(s.(mins := mins), a.call, p)
    case MinDone => At(s, a.call, MaxLoop(Read(s.maxs, a.seen)))
    case MaxLoop(cur) =>
      var (maxs, p) := SwapStep(Upper, s.maxs, c.ns, cur, a);
      At(s.(maxs := maxs), a.call, p)
    case Done => s
  }

  function At(s: State, i: nat, p: Point): State
    requires i < |s.calls|
  {
    s.(calls := s.calls[i := s.calls[i].(point := p)])
  }

  function Run(s: State, acts: seq<Action>): State
    decreases |acts|
  {
    if acts == [] then s else Run(Step(s, acts[0]), acts[1..])
  }

  // ---- counting ----

  function HasCounted(c: Call): int { if c.point.Start? then 0 else 1 }

  function HasAdded(c: Call): int { if c.point.Start? || c.point.Counted? then 0 else c.ns }

  ghost predicate Sums(s: State) {
    (s.count, s.total) == (Wrap(Total(s.calls, HasCounted)), Wrap(Total(s.calls, HasAdded)))
  }

  lemma SumsMove(s: State, i: nat, p: Point)
    requires Sums(s) && i < |s.calls|
    requires !s.calls[i].point.Start? && (s.calls[i].point.Counted? <==> p.Counted?) && !p.Start?
    ensures Sums(At(s, i, p))
  {
    TotalMoves(s.calls, HasCounted, i, s.calls[i].(point := p));
    TotalMoves(s.calls, HasAdded, i, s.calls[i].(point := p));
  }

  lemma CountStep(s: State, i: nat)
    requires Sums(s) && i < |s.calls| && s.calls[i].point.Start?
    ensures Sums(At(s.(count := Wrap(s.count + 1)), i, Counted))
  {
    var d := s.calls[i].(point := Counted);
    TotalMoves(s.calls, HasCounted, i, d);
    TotalMoves(s.calls, HasAdded, i, d);
    WrapAdds(Total(s.calls, HasCounted), 1);
  }

  lemma TotalStep(s: State, i: nat)
    requires Sums(s) && i < |s.calls| && s.calls[i].point.Counted?
    ensures Sums(At(s.(total := Wrap(s.total + s.calls[i].ns)), i, Totalled))
  {
    var d := s.calls[i].(point := Totalled);
    TotalMoves(s.calls, HasCounted, i, d);
    TotalMoves(s.calls, HasAdded, i, d);
    WrapAdds(Total(s.calls, HasAdded), s.calls[i].ns);
  }

  lemma SumsStep(s: State, a: Action)
    requires Sums(s)
    ensures Sums(Step(s, a))
  {
    if a.call < |s.calls| && s.mins != [] && s.maxs != [] {
      var i := a.call;
      match s.calls[i].point
      case Start => CountStep(s, i);
      case Counted => TotalStep(s, i);
      case Totalled => SumsMove(s, i, MinLoop(Read(s.mins, a.seen)));
      case MinLoop(cur) =>
        var (mins, p) := SwapStep(Lower, s.mins, s.calls[i].ns, cur, a);
        SumsMove(s.(mins := mins), i, p);
      case MinDone => SumsMove(s, i, MaxLoop(Read(s.maxs, a.seen)));
      case MaxLoop(cur) =>
        var (maxs, p) := SwapStep(Upper, s.maxs, s.calls[i].ns, cur, a);
        SumsMove(s.(maxs := maxs), i, p);
      case Done =>
    }
  }

  // ---- minimum and maximum ----

  function Values(d: Side, s: State): seq<int> { if d.Lower? then s.mins else s.maxs }

  function First(d: Side): int { if d.Lower? then MAX else 0 }

  /** Done with that word's loop. */
  predicate Past(d: Side, p: Point) { p.Done? || (d.Lower? && (p.MinDone? || p.MaxLoop?)) }

  predicate InLoop(d: Side, p: Point) { if d.Lower? then p.MinLoop? else p.MaxLoop? }

  predicate Recorded(v: int, calls: seq<Call>) { exists i :: 0 <= i < |calls| && calls[i].ns == v }

  /** The word only moves one way; each of its values was recorded, no call that is past its loop
      beats the newest, and what a call holds in its loop was read from the word. */
  ghost predicate WordInv(d: Side, values: seq<int>, calls: seq<Call>) {
    && values != [] && values[0] == First(d)
    && (forall i, j :: 0 <= i < j < |values| ==> Beats(d, values[j], values[i]))
    && (forall i :: 0 < i < |values| ==> Recorded(values[i], calls))
    && (forall i :: 0 <= i < |calls| && Past(d, calls[i].point) ==> !Beats(d, calls[i].ns, Last(values)))
    && (forall i :: 0 <= i < |calls| && InLoop(d, calls[i].point) ==> calls[i].point.cur in values)
  }

  lemma WordPush(d: Side, values: seq<int>, calls: seq<Call>, v: int)
    requires WordInv(d, values, calls) && Recorded(v, calls) && Beats(d, v, Last(values))
    ensures WordInv(d, values + [v], calls)
  {
    forall i | 0 <= i < |values| ensures Beats(d, v, values[i]) {
      if i < |values| - 1 { assert Beats(d, values[|values| - 1], values[i]); }
    }
  }

  lemma WordMove(d: Side, values: seq<int>, calls: seq<Call>, i: nat, p: Point)
    requires WordInv(d, values, calls) && i < |calls|
    requires Past(d, p) ==> !Beats(d, calls[i].ns, Last(values))
    requires InLoop(d, p) ==> p.cur in values
    ensures WordInv(d, values, calls[i := calls[i].(point := p)])
  {
    var after := calls[i := calls[i].(point := p)];
    forall j | 0 < j < |values| ensures Recorded(values[j], after) {
      var k :| 0 <= k < |calls| && calls[k].ns == values[j];
      assert after[k].ns == values[j];
    }
  }

  lemma WordLoop(d: Side, values: seq<int>, calls: seq<Call>, a: Action, cur: int)
    requires WordInv(d, values, calls) && a.call < |calls| && calls[a.call].point == Holding(d, cur)
    ensures var (after, p) := SwapStep(d, values, calls[a.call].ns, cur, a);
            WordInv(d, after, calls[a.call := calls[a.call].(point := p)]) && values <= after
  {
    var ns := calls[a.call].ns;
    var (after, p) := SwapStep(d, values, ns, cur, a);
    if Beats(d, ns, cur) && after != values {
      assert Recorded(ns, calls);
      WordPush(d, values, calls, ns);
    } else if !Beats(d, ns, cur) {
      var k :| 0 <= k < |values| && values[k] == cur;
      assert k < |values| - 1 ==> Beats(d, values[|values| - 1], values[k]);
    }
    WordMove(d, after, calls, a.call, p);
  }

  /** A call inside the loop of a word takes one iteration of it. */
  lemma StepInside(d: Side, s: State, a: Action)
    requires a.call < |s.calls| && s.mins != [] && s.maxs != [] && InLoop(d, s.calls[a.call].point)
    ensures var c := s.calls[a.call];
            (Values(d, Step(s, a)), Step(s, a).calls[a.call].point)
            == SwapStep(d, Values(d, s), c.ns, c.point.cur, a)
    ensures Step(s, a).calls == s.calls[a.call := s.calls[a.call].(point := Step(s, a).calls[a.call].point)]
  {
  }

  /** A call outside it leaves the word alone, and enters the loop only by reading the word. */
  lemma StepOutside(d: Side, s: State, a: Action)
    requires a.call < |s.calls| && s.mins != [] && s.maxs != [] && !InLoop(d, s.calls[a.call].point)
    ensures var p := Step(s, a).calls[a.call].point;
            && Values(d, Step(s, a)) == Values(d, s)
            && Step(s, a).calls == s.calls[a.call := s.calls[a.call].(point := p)]
            && (Past(d, p) ==> Past(d, s.calls[a.call].point))
            && (InLoop(d, p) ==> p.cur in Values(d, s))
  {
  }

  lemma WordStep(d: Side, s: State, a: Action)
    requires WordInv(d, Values(d, s), s.calls)
    ensures WordInv(d, Values(d, Step(s, a)), Step(s, a).calls)
    ensures Values(d, s) <= Values(d, Step(s, a))
  {
    if a.call < |s.calls| && s.mins != [] && s.maxs != [] {
      var p := s.calls[a.call].point;
      if InLoop(d, p) {
        StepInside(d, s, a);
        WordLoop(d, Values(d, s), s.calls, a, p.cur);
      } else {
        StepOutside(d, s, a);
        WordMove(d, Values(d, s), s.calls, a.call, Step(s, a).calls[a.call].point);
      }
    }
  }

  // ---- whole runs ----

  ghost predicate Inv(s: State) { Sums(s) && forall d: Side :: WordInv(d, Values(d, s), s.calls) }

  ghost predicate SameRecords(s: State, t: State) {
    |s.calls| == |t.calls| && forall i :: 0 <= i < |s.calls| ==> s.calls[i].ns == t.calls[i].ns
  }

  lemma StepInv(s: State, a: Action)
    requires Inv(s)
    ensures Inv(Step(s, a)) && forall d: Side :: Values(d, s) <= Values(d, Step(s, a))
  {
    SumsStep(s, a);
    var t := Step(s, a);
    forall d: Side ensures WordInv(d, Values(d, t), t.calls) && Values(d, s) <= Values(d, t) {
      WordStep(d, s, a);
    }
  }

  lemma StepKeepsRecords(s: State, a: Action)
    ensures SameRecords(s, Step(s, a))
  {
  }

  lemma {:induction false} RunInv(s: State, acts: seq<Action>)
    requires Inv(s)
    ensures Inv(Run(s, acts)) == Inv(s) && SameRecords(s, Run(s, acts))
    ensures forall d: Side :: Values(d, s) <= Values(d, Run(s, acts))
    decreases |acts|
  {
    if acts != [] {
      var t := Step(s, acts[0]);
      StepInv(s, acts[0]);
      StepKeepsRecords(s, acts[0]);
      RunInv(t, acts[1..]);
    }
  }

  lemma {:induction false} NothingTallied(calls: seq<Call>)
    requires forall i :: 0 <= i < |calls| ==> calls[i].point.Start?
    ensures Total(calls, HasCounted) == 0 && Total(calls, HasAdded) == 0
  {
    if calls != [] { NothingTallied(calls[1..]); }
  }

  lemma InitInv(ns: seq<int64>)
    ensures Inv(Init(ns))
  {
    NothingTallied(Init(ns).calls);
  }

  /** At every moment of every run min_ns has only fallen and max_ns only risen. */
  lemma Monotonic(ns: seq<int64>, acts: seq<Action>, more: seq<Action>)
    ensures var s := Run(Init(ns), acts);
            var t := Run(s, more);
            forall d: Side ::
              Values(d, s) != [] && Values(d, t) != [] && !Beats(d, Last(Values(d, s)), Last(Values(d, t)))
  {
    InitInv(ns);
    RunInv(Init(ns), acts);
    RunInv(Run(Init(ns), acts), more);
    var s := Run(Init(ns), acts);
    forall d: Side ensures Values(d, s) != [] && Values(d, Run(s, more)) != []
                           && !Beats(d, Last(Values(d, s)), Last(Values(d, Run(s, more)))) {
      Further(d, Values(d, s), Values(d, Run(s, more)));
    }
  }

  lemma Further(d: Side, a: seq<int>, b: seq<int>)
    requires a != [] && a <= b && forall i, j :: 0 <= i < j < |b| ==> Beats(d, b[j], b[i])
    ensures !Beats(d, Last(a), Last(b))
  {
    assert Last(a) == b[|a| - 1];
  }

  function Sum(ns: seq<int64>): int { if ns == [] then 0 else ns[0] + Sum(ns[1..]) }

  /** The least of the records, or the greatest of them and 0. */
  function Best(d: Side, ns: seq<int64>): (m: int)
    ensures !Beats(d, First(d), m) || m == First(d)
    ensures m == First(d) || m in ns
    ensures forall i :: 0 <= i < |ns| ==> !Beats(d, ns[i], m)
  {
    if ns == [] then First(d) else var m := Best(d, ns[1..]); if Beats(d, ns[0], m) then ns[0] else m
  }

  lemma {:induction false} AllTallied(ns: seq<int64>, calls: seq<Call>)
    requires |calls| == |ns| && forall i :: 0 <= i < |ns| ==> calls[i] == Call(ns[i], Done)
    ensures Total(calls, HasCounted) == |ns| && Total(calls, HasAdded) == Sum(ns)
  {
    if ns != [] { AllTallied(ns[1..], calls[1..]); }
  }

  /** When every call has returned, whatever the schedule, the stale reads and the failed swaps:
      the number and the sum of the records (in two's complement), their minimum, and their
      maximum with 0. */
  lemma AllRecorded(ns: seq<int64>, acts: seq<Action>)
    requires forall i :: 0 <= i < |ns| ==> i < |Run(Init(ns), acts).calls| && Run(Init(ns), acts).calls[i].point == Done
    ensures var t := Run(Init(ns), acts);
            && (t.count, t.total) == (Wrap(|ns|), Wrap(Sum(ns)))
            && forall d: Side :: Values(d, t) != [] && Last(Values(d, t)) == Best(d, ns)
  {
    var t := Run(Init(ns), acts);
    InitInv(ns);
    RunInv(Init(ns), acts);
    AllTallied(ns, t.calls);
    forall d: Side ensures Values(d, t) != [] && Last(Values(d, t)) == Best(d, ns) {
      LastIsBest(d, ns, Values(d, t), t.calls);
    }
  }

  /** The word after one more value has been offered to it. */
  function Offered(d: Side, values: seq<int>, ns: int64): seq<int>
    requires values != []
  {
    if Beats(d, ns, Last(values)) then values + [ns] else values
  }

  /** Two accesses, which are a pair of additions or a load and one pass of its loop. */
  function Twice(s: State, a: Action): State { Step(Step(s, a), a) }

  /** No call waits for another: left alone, in any state, with loads that see the newest values and
      swaps that do not fail for no reason, a call returns after six accesses, which leave what one
      more record should. */
  lemma RecordsAlone(s: State, a: Action)
    requires a.call < |s.calls| && s.calls[a.call].point.Start? && s.mins != [] && s.maxs != []
    requires a.succeed && a.seen >= |s.mins| && a.seen >= |s.maxs|
    ensures var ns := s.calls[a.call].ns;
            Twice(Twice(Twice(s, a), a), a)
            == State(Wrap(s.count + 1), Wrap(s.total + ns), Offered(Lower, s.mins, ns), Offered(Upper, s.maxs, ns),
                     s.calls[a.call := Call(ns, Done)])
  {
    var s2 := Twice(s, a);
    AddsAlone(s, a);
    SwapsAlone(Lower, s2, a);
    SwapsAlone(Upper, Twice(s2, a), a);
  }

  lemma AddsAlone(s: State, a: Action)
    requires a.call < |s.calls| && s.calls[a.call].point.Start? && s.mins != [] && s.maxs != []
    ensures var ns := s.calls[a.call].ns;
            Twice(s, a)
            == At(s.(count := Wrap(s.count + 1), total := Wrap(s.total + ns)), a.call, Totalled)
  {
  }

  lemma SwapsAlone(d: Side, s: State, a: Action)
    requires a.call < |s.calls| && s.mins != [] && s.maxs != [] && a.succeed && a.seen >= |Values(d, s)|
    requires s.calls[a.call].point == if d.Lower? then Totalled else MinDone
    ensures var t := At(s, a.call, Passed(d));
            var values := Offered(d, Values(d, s), s.calls[a.call].ns);
            Twice(s, a) == if d.Lower? then t.(mins := values) else t.(maxs := values)
  {
    var c := s.calls[a.call];
    assert Step(s, a).calls[a.call] == Call(c.ns, Holding(d, Last(Values(d, s))));
  }

  lemma LastIsBest(d: Side, ns: seq<int64>, values: seq<int>, calls: seq<Call>)
    requires WordInv(d, values, calls) && |calls| == |ns|
    requires forall i :: 0 <= i < |ns| ==> calls[i] == Call(ns[i], Done)
    ensures Last(values) == Best(d, ns)
  {
    assert forall i :: 0 <= i < |ns| ==> calls[i].ns == ns[i] && !Beats(d, calls[i].ns, Last(values));
    if |values| > 1 {
      assert Recorded(Last(values), calls) && Beats(d, Last(values), First(d));
      assert Last(values) in ns;
    }
  }

  /** max_ns is the largest record if and only if some record is not negative. */
  lemma MaxIsTrueIff(ns: seq<int64>)
    ensures Best(Upper, ns) in ns <==> exists x :: x in ns && x >= 0
  {
    if x :| x in ns && x >= 0 {
      if Best(Upper, ns) == 0 { assert x == 0; }
    }
  }

  lemma {:induction false} SumGrows(ns: seq<int64>, x: int64)
    ensures Sum(ns + [x]) == Sum(ns) + x
  {
    if ns == [] {
      assert ns + [x] == [x];
    } else {
      SumGrows(ns[1..], x);
      assert (ns + [x])[1..] == ns[1..] + [x];
    }
  }

  lemma CountersGrow(ns: seq<int64>, x: int64)
    ensures Wrap(Wrap(|ns|) + 1) == Wrap(|ns + [x]|)
    ensures Wrap(Wrap(Sum(ns)) + x) == Wrap(Sum(ns + [x]))
  {
    SumGrows(ns, x);
    WrapAdds(|ns|, 1);
    WrapAdds(Sum(ns), x);
  }

  lemma BestGrows(d: Side, ns: seq<int64>, x: int64)
    ensures Best(d, ns + [x]) == if Beats(d, x, Best(d, ns)) then x else Best(d, ns)
  {
    var all := ns + [x];
    assert !Beats(d, all[|ns|], Best(d, all));
    assert forall i :: 0 <= i < |ns| ==> all[i] == ns[i] && !Beats(d, all[i], Best(d, all));
  }

  /** The accumulator itself, for calls one after the other. */
  class Stats {
    var count: int64
    var total: int64
    var min: int64
    var max: int64

    /** Holds what the records ns leave. */
    ghost predicate Holds(ns: seq<int64>)
      reads this
    {
      count == Wrap(|ns|) && total == Wrap(Sum(ns)) && min == Best(Lower, ns) && max == Best(Upper, ns)
    }

    constructor ()
      ensures Holds([])
    {
      count, total, min, max := 0, 0, MAX, 0;
    }

    /** The loop on min_ns; the first `spurious` swaps fail for no reason. */
    method LowerMin(ns: int64, spurious: nat)
      modifies this`min
      ensures min == if ns < old(min) then ns else old(min)
    {
      var cur, left, swapped := min, spurious, false;
      while !swapped && ns < cur
        invariant min == if swapped then ns else old(min)
        invariant if swapped then ns < old(min) else cur == min
        decreases !swapped, left
      {
        if left > 0 { left, cur := left - 1, min; }
        else { min, swapped := ns, true; }
      }
    }

    method RaiseMax(ns: int64, spurious: nat)
      modifies this`max
      ensures max == if ns > old(max) then ns else old(max)
    {
      var cur, left, swapped := max, spurious, false;
      while !swapped && ns > cur
        invariant max == if swapped then ns else old(max)
        invariant if swapped then ns > old(max) else cur == max
        decreases !swapped, left
      {
        if left > 0 { left, cur := left - 1, max; }
        else { max, swapped := ns, true; }
      }
    }

    /** The two fetch_adds. */
    method Add(ns: int64, ghost before: seq<int64>)
      requires count == Wrap(|before|) && total == Wrap(Sum(before))
      modifies this`count, this`total
      ensures count == Wrap(|before + [ns]|) && total == Wrap(Sum(before + [ns]))
    {
      CountersGrow(before, ns);
      count := Wrap(count + 1);
      total := Wrap(total + ns);
    }

    method Record(ns: int64, spurious: nat, ghost before: seq<int64>)
      requires Holds(before)
      modifies this
      ensures Holds(before + [ns])
    {
      BestGrows(Lower, before, ns);
      BestGrows(Upper, before, ns);
      Add(ns, before);
      LowerMin(ns, spurious);
      RaiseMax(ns, spurious);
    }
  }
}
