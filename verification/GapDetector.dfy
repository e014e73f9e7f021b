/** The sequence-gap detector of networking/04_udp_basics.cpp, for any input. Sequence numbers are
    32 bits wide: `expected` wraps, and the gap is cast to a signed int, so a jump of 2^31 or more
    is added as a negative number. */
module GapDetector {

  const SPAN := 0x1_0000_0000
  const HALF := 0x8000_0000

  type uint32 = x: int | 0 <= x < SPAN

  /** static_cast<int> of an unsigned difference. */
  function Signed(d: uint32): int { if d < HALF then d else d - SPAN }

  function Next(n: uint32): uint32 { if n == SPAN - 1 then 0 else n + 1 }

  /** The two variables of the loop, and a record of what has happened: receipts that were not
      reported as duplicates, times `expected` wrapped, jumps whose cast came out negative, the
      positive numbers received, and those of them first received as duplicates. */
  datatype Monitor = Monitor(expected: uint32, gaps: int,
                             receipts: nat, wraps: nat, bigJumps: nat, seen: set<int>, late: set<int>)

  const START := Monitor(1, 0, 0, 0, 0, {}, {})

  function Insert(s: set<int>, n: uint32): set<int> { if n > 0 then s + {n as int} else s }

  function Step(m: Monitor, n: uint32): Monitor {
    var seen := Insert(m.seen, n);
    var wraps := if n == SPAN - 1 then m.wraps + 1 else m.wraps;
    if n > m.expected then
      m.(expected := Next(n), gaps := m.gaps + Signed(n - m.expected), receipts := m.receipts + 1, wraps := wraps,
         bigJumps := if n - m.expected >= HALF then m.bigJumps + 1 else m.bigJumps, seen := seen)
    else if n == m.expected then
      m.(expected := Next(n), receipts := m.receipts + 1, wraps := wraps, seen := seen)
    else
      m.(seen := seen, late := if n == 0 || n in m.seen then m.late else m.late + {n as int})
  }

  function Run(received: seq<uint32>): Monitor {
    if received == [] then START else Step(Run(received[..|received| - 1]), received[|received| - 1])
  }

  /** The loop itself. */
  method Detect(received: seq<uint32>) returns (expected: uint32, gaps: int)
    ensures expected == Run(received).expected && gaps == Run(received).gaps
  {
    expected, gaps := 1, 0;
    for i := 0 to |received|
      invariant expected == Run(received[..i]).expected && gaps == Run(received[..i]).gaps
    {
      var n := received[i];
      assert received[..i + 1][..i] == received[..i];
      if n > expected {
        gaps := gaps + Signed(n - expected);
        expected := Next(n);
      } else if n == expected {
        expected := Next(expected);
      }
    }
    assert received[..|received|] == received;
  }

  // ---- conservation ----

  /** For every input whatever: gaps and receipts add up to expected - 1, except for 2^32 at each
      wrap and each jump that was cast to a negative number. */
  lemma {:induction false} Conservation(received: seq<uint32>)
    ensures var m := Run(received);
            m.gaps + m.receipts == m.expected - 1 + SPAN * (m.wraps - m.bigJumps)
  {
    if received != [] {
      Conservation(received[..|received| - 1]);
    }
  }

  /** So the count is exact if and only if wraps and big jumps balance. */
  lemma ExactIff(received: seq<uint32>)
    ensures var m := Run(received);
            m.gaps + m.receipts == m.expected - 1 <==> m.wraps == m.bigJumps
  {
    Conservation(received);
  }

  /** And up to 2^32 it always is. */
  lemma ExactInWords(received: seq<uint32>)
    ensures var m := Run(received);
            (m.gaps + m.receipts - (m.expected - 1)) % SPAN == 0
  {
    Conservation(received);
  }

  /** There is a wrap if and only if the last number is received. */
  lemma {:induction false} WrapsIffTop(received: seq<uint32>)
    ensures Run(received).wraps > 0 <==> SPAN - 1 in received
    ensures Run(received).wraps == 0 ==> Run(received).expected >= 1
  {
    if received != [] {
      var front, n := received[..|received| - 1], received[|received| - 1];
      WrapsIffTop(front);
      assert received == front + [n];
      var m := Run(front);
      if n == SPAN - 1 && m.wraps == 0 {
        assert n >= m.expected;
      }
    }
  }

  /** A caller can tell beforehand: below 2^31 nothing wraps and no jump is too big. */
  lemma {:induction false} SmallIsExact(received: seq<uint32>)
    requires forall i :: 0 <= i < |received| ==> received[i] < HALF
    ensures var m := Run(received); m.wraps == 0 && m.bigJumps == 0 && 1 <= m.expected <= HALF
  {
    if received != [] {
      SmallIsExact(received[..|received| - 1]);
    }
  }

  // ---- what is really missing ----

  /** The numbers 1 .. n-1. */
  function Below(n: int): set<int>
    decreases n
  {
    if n <= 1 then {} else Below(n - 1) + {n - 1}
  }

  lemma {:induction false} BelowCounts(n: int)
    ensures forall v :: v in Below(n) <==> 1 <= v < n
    ensures n >= 1 ==> |Below(n)| == n - 1
    decreases n
  {
    if n > 1 { BelowCounts(n - 1); }
  }

  function Missing(m: Monitor): set<int> { Below(m.expected) - m.seen }

  ghost predicate SeenInv(m: Monitor) {
    && m.expected >= 1
    && (forall v :: v in m.seen ==> 1 <= v < m.expected)
    && m.late <= m.seen
    && |m.seen| == m.receipts + |m.late|
  }

  lemma SeenStep(m: Monitor, n: uint32)
    requires SeenInv(m) && n < SPAN - 1
    ensures SeenInv(Step(m, n))
  {
    if n > 0 && n !in m.seen {
      assert |m.seen + {n as int}| == |m.seen| + 1;
      if n < m.expected { assert |m.late + {n as int}| == |m.late| + 1; }
    } else if n > 0 {
      assert m.seen + {n as int} == m.seen;
    }
  }

  lemma {:induction false} SeenRun(received: seq<uint32>)
    requires SPAN - 1 !in received
    ensures SeenInv(Run(received))
  {
    if received != [] {
      var front, n := received[..|received| - 1], received[|received| - 1];
      assert received == front + [n] && n in received;
      SeenRun(front);
      SeenStep(Run(front), n);
    }
  }

  /** The highest number received, 0 if there is none. */
  function Highest(received: seq<uint32>): (h: uint32)
    ensures forall i :: 0 <= i < |received| ==> received[i] <= h
  {
    if received == [] then 0
    else var h := Highest(received[..|received| - 1]);
         if received[|received| - 1] > h then received[|received| - 1] else h
  }

  /** The i-th number arrives for the first time, and after a higher one. */
  predicate OutOfOrder(received: seq<uint32>, i: nat)
    requires i < |received|
  {
    0 < received[i] < Highest(received[..i]) && received[i] !in received[..i]
  }

  /** The numbers below the highest that never arrived. */
  function Lost(received: seq<uint32>): set<int> {
    set v | v in Below(Highest(received)) && v !in received
  }

  /** The numbers that arrived out of order. */
  function Late(received: seq<uint32>): set<int> {
    set i | 0 <= i < |received| && OutOfOrder(received, i) :: received[i]
  }

  /** What the run records is determined by the input. */
  ghost predicate Records(received: seq<uint32>, m: Monitor) {
    && m.expected == Highest(received) + 1
    && (forall v :: v in m.seen <==> v > 0 && v in received)
    && m.late == Late(received)
  }

  lemma LateGrows(front: seq<uint32>, n: uint32)
    ensures var all := front + [n];
            Late(all) == Late(front) + if OutOfOrder(all, |front|) then {n as int} else {}
  {
    var all := front + [n];
    forall i | 0 <= i < |front| ensures OutOfOrder(all, i) == OutOfOrder(front, i) && all[i] == front[i] {
      assert all[..i] == front[..i];
    }
    forall v ensures v in Late(all) <==> v in Late(front) || (OutOfOrder(all, |front|) && v == n) {
      if v in Late(all) {
        var i :| 0 <= i < |all| && OutOfOrder(all, i) && all[i] == v;
        assert i < |front| ==> OutOfOrder(front, i);
      }
      if v in Late(front) {
        var i :| 0 <= i < |front| && OutOfOrder(front, i) && front[i] == v;
        assert OutOfOrder(all, i) && all[i] == v;
      }
      if OutOfOrder(all, |front|) { assert all[|front|] == n; }
    }
  }

  lemma HighestGrows(front: seq<uint32>, n: uint32)
    ensures Highest(front + [n]) == if n > Highest(front) then n else Highest(front)
  {
    assert (front + [n])[..|front|] == front;
  }

  lemma {:induction false} HighestReceived(received: seq<uint32>)
    ensures Highest(received) > 0 ==> Highest(received) in received
  {
    if received != [] { HighestReceived(received[..|received| - 1]); }
  }

  lemma RecordsStep(front: seq<uint32>, n: uint32, m: Monitor)
    requires Records(front, m) && n < SPAN - 1
    ensures Records(front + [n], Step(m, n))
  {
    var all, m' := front + [n], Step(m, n);
    HighestGrows(front, n);
    HighestReceived(front);
    assert all[..|front|] == front;
    assert OutOfOrder(all, |front|) <==> 0 < n < m.expected && n !in m.seen;
    LateGrows(front, n);
    assert forall v :: v in m'.seen <==> v > 0 && v in all;
  }

  lemma {:induction false} RunRecords(received: seq<uint32>)
    requires SPAN - 1 !in received
    ensures Records(received, Run(received))
  {
    if received != [] {
      var front, n := received[..|received| - 1], received[|received| - 1];
      assert received == front + [n];
      RunRecords(front);
      RecordsStep(front, n, Run(front));
    }
  }

  /** While nothing wraps, gaps overstates what is really lost by exactly the distinct numbers that
      arrived out of order (and understates it by 2^32 for each jump too big for the cast). */
  lemma GapsAreLostOrLate(received: seq<uint32>)
    requires SPAN - 1 !in received
    ensures Run(received).gaps + SPAN * Run(received).bigJumps == |Lost(received)| + |Late(received)|
  {
    var m := Run(received);
    SeenRun(received);
    Conservation(received);
    WrapsIffTop(received);
    SeenIsBelow(m);
    RunRecords(received);
    LostIsMissing(received, m);
  }

  lemma LostIsMissing(received: seq<uint32>, m: Monitor)
    requires Records(received, m)
    ensures Missing(m) == Lost(received)
  {
    var h := Highest(received);
    HighestReceived(received);
    BelowCounts(h + 1);
    BelowCounts(h);
    forall v ensures v in Missing(m) <==> v in Lost(received) {
      assert v in Below(h + 1) <==> v in Below(h) || (v == h && h > 0);
    }
  }

  lemma SeenIsBelow(m: Monitor)
    requires SeenInv(m)
    ensures |Missing(m)| == m.expected - 1 - |m.seen|
  {
    var all := Below(m.expected);
    BelowCounts(m.expected);
    forall v | v in m.seen ensures v in all {
      assert 1 <= v < m.expected;
    }
  }

  /** A number more than 2^31 above everything received before. */
  predicate Leap(received: seq<uint32>, i: nat)
    requires i < |received|
  {
    received[i] > Highest(received[..i]) + HALF
  }

  lemma {:induction false} BigJumpsIffLeap(received: seq<uint32>)
    requires SPAN - 1 !in received
    ensures Run(received).bigJumps == 0 <==> forall i :: 0 <= i < |received| ==> !Leap(received, i)
  {
    if received != [] {
      var k := |received| - 1;
      var front, n := received[..k], received[k];
      assert received == front + [n];
      BigJumpsIffLeap(front);
      RunRecords(front);
      forall i | 0 <= i < k ensures Leap(received, i) == Leap(front, i) {
        assert received[..i] == front[..i];
      }
      assert Leap(received, k) <==> n - Run(front).expected >= HALF;
    }
  }

  /** So, while nothing wraps, the plain law holds if and only if no number leaps ahead by more than
      2^31. */
  lemma ExactIffNoLeap(received: seq<uint32>)
    requires SPAN - 1 !in received
    ensures var m := Run(received);
            m.gaps + m.receipts == m.expected - 1 <==> forall i :: 0 <= i < |received| ==> !Leap(received, i)
  {
    WrapsIffTop(received);
    ExactIff(received);
    BigJumpsIffLeap(received);
  }

  /** And without leaps, gaps is what is really lost if and only if no number arrives for the first
      time after a higher one. */
  lemma GapsAreLostIff(received: seq<uint32>)
    requires SPAN - 1 !in received && forall i :: 0 <= i < |received| ==> !Leap(received, i)
    ensures Run(received).gaps >= |Lost(received)|
    ensures Run(received).gaps == |Lost(received)| <==> forall i :: 0 <= i < |received| ==> !OutOfOrder(received, i)
  {
    BigJumpsIffLeap(received);
    GapsAreLostOrLate(received);
    if i :| 0 <= i < |received| && OutOfOrder(received, i) {
      assert received[i] in Late(received);
    }
  }

  lemma NothingLost()
    ensures Lost([1, 3, 2]) == {}
  {
    HighestGrows([], 1);
    HighestGrows([1], 3);
    HighestGrows([1, 3], 2);
    assert [] + [1] == [1] && [1] + [3] == [1, 3] && [1, 3] + [2] == [1, 3, 2];
    BelowCounts(3);
  }

  /** One late arrival is counted as lost for good. */
  lemma LateArrivalStaysCounted()
    ensures Run([1, 3, 2]).gaps == 1 && Lost([1, 3, 2]) == {}
  {
    assert [] + [1] == [1] && Run([1]).expected == 2 && Run([1]).gaps == 0;
    assert [1] + [3] == [1, 3] && Run([1, 3]).expected == 4 && Run([1, 3]).gaps == 1;
    assert [1, 3] + [2] == [1, 3, 2];
    NothingLost();
  }

  /** A leap breaks the plain law: the gap is added as a negative number. */
  lemma LeapIsNegative()
    ensures var m := Run([HALF + 1]);
            m.gaps == -HALF && m.gaps + m.receipts != m.expected - 1 && Leap([HALF + 1], 0)
  {
    assert [HALF + 1][..0] == [];
  }

  /** The wrap point breaks the relation: after 2^32 - 1, the detector starts over at 0. */
  lemma TopStartsOver()
    ensures var m := Run([SPAN - 1]); m.expected == 0 && m.gaps == -2 && m.bigJumps == 1 && m.wraps == 1
  {
    assert [SPAN - 1][..0] == [];
  }
}
