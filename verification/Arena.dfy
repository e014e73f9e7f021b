/** The bump allocator of performance/07_allocators.cpp. Sizes are 64-bit words, and every sum is
    taken modulo 2^64 as the source's is. Blocks are offsets from the buffer's base. */
module Arena {
  import opened Options
  import opened Bits

  /** A sum as a 64-bit word holds it. */
  function Trunc(x: nat): (r: nat)
    ensures x < WORD ==> r == x
    ensures r < WORD
    ensures WORD <= x < 2 * WORD ==> r == x - WORD
  {
    x % 0x1_0000_0000_0000_0000
  }

  /** `(used_ + align - 1) & ~(align - 1)`, for align = 2^k. */
  function Aligned(used: nat, k: nat): nat
    requires k < WORD_BITS
  {
    And(Trunc(used + Pow2(k) - 1), HighMask(k, WORD_BITS))
  }

  /** ~(align - 1) in a 64-bit word is 2^64 - align. */
  lemma ComplementWord(k: nat)
    requires k < WORD_BITS
    ensures Pow2(k) <= WORD && Trunc(WORD - Pow2(k)) == HighMask(k, WORD_BITS)
  {
    WordSize();
    Pow2Monotone(k, WORD_BITS);
  }

  // ---- what the mask expression computes ----

  predicate MultipleOf(m: nat, p: nat)
    requires p > 0
  {
    m == 0 || (m >= p && MultipleOf(m - p, p))
  }

  lemma ModPeels(x: nat, p: nat)
    requires 0 < p <= x
    ensures x % p == (x - p) % p
  {
    var y := x - p;
    assert y == p * (y / p) + y % p;
    assert x == p * (y / p + 1) + y % p;
    DivModUnique(x, p, y / p + 1, y % p);
  }

  lemma {:induction false} MultipleIsModulo(m: nat, p: nat)
    requires p > 0
    ensures MultipleOf(m, p) <==> m % p == 0
    decreases m
  {
    if m >= p {
      ModPeels(m, p);
      MultipleIsModulo(m - p, p);
    } else {
      SmallMod(m, p);
    }
  }

  lemma {:induction false} RoundDown(x: nat, p: nat)
    requires p > 0
    ensures 0 <= x % p < p && x % p <= x && MultipleOf(x - x % p, p)
    decreases x
  {
    if x >= p {
      ModPeels(x, p);
      RoundDown(x - p, p);
    } else {
      SmallMod(x, p);
    }
  }

  lemma {:induction false} NextMultiple(a: nat, m: nat, p: nat)
    requires p > 0 && MultipleOf(a, p) && MultipleOf(m, p) && a < m + p
    ensures a <= m
    decreases a
  {
    if a > 0 && m > 0 { NextMultiple(a - p, m - p, p); }
  }

  lemma RoundedDown(x: nat, p: nat, a: nat)
    requires p > 0 && a == x - x % p
    ensures MultipleOf(a, p) && a <= x < a + p
  {
    RoundDown(x, p);
  }

  lemma MaskRoundsDown(x: nat, k: nat, mask: nat)
    requires k < WORD_BITS && x < WORD && mask == HighMask(k, WORD_BITS)
    ensures MultipleOf(And(x, mask), Pow2(k)) && And(x, mask) <= x < And(x, mask) + Pow2(k)
  {
    WordSize();
    ComplementMaskRoundsDown(x, k, WORD_BITS);
    RoundedDown(x, Pow2(k), And(x, mask));
  }

  lemma AlignedValue(used: nat, k: nat)
    requires k < WORD_BITS
    ensures var x, a := Trunc(used + Pow2(k) - 1), Aligned(used, k);
            MultipleOf(a, Pow2(k)) && a <= x < a + Pow2(k)
  {
    MaskRoundsDown(Trunc(used + Pow2(k) - 1), k, HighMask(k, WORD_BITS));
  }

  /** Rounding up cannot pass the word. */
  predicate RoundsInWord(used: nat, k: nat) { used + Pow2(k) - 1 < WORD }

  lemma AlignedUp(used: nat, k: nat)
    requires k < WORD_BITS && RoundsInWord(used, k)
    ensures used <= Aligned(used, k) <= used + Pow2(k) - 1 && MultipleOf(Aligned(used, k), Pow2(k))
  {
    AlignedValue(used, k);
  }

  /** The mask expression is the least multiple of the alignment at or above used. */
  lemma AlignedIsLeast(used: nat, k: nat)
    requires k < WORD_BITS && RoundsInWord(used, k)
    ensures used <= Aligned(used, k) && MultipleOf(Aligned(used, k), Pow2(k))
    ensures forall m: nat :: used <= m && MultipleOf(m, Pow2(k)) ==> Aligned(used, k) <= m
  {
    AlignedUp(used, k);
    forall m: nat | used <= m && MultipleOf(m, Pow2(k)) ensures Aligned(used, k) <= m {
      NextMultiple(Aligned(used, k), m, Pow2(k));
    }
  }

  /** When rounding passes the word, the block is placed at the start of the buffer. */
  lemma AlignedWraps(used: nat, k: nat)
    requires k < WORD_BITS && used < WORD && !RoundsInWord(used, k)
    ensures Aligned(used, k) == 0 && used > 0
  {
    AlignedValue(used, k);
    WordSize();
    Pow2Monotone(k, WORD_BITS);
    NextMultiple(Aligned(used, k), 0, Pow2(k));
  }

  // ---- the allocator ----

  datatype Block = Block(start: nat, size: nat, k: nat)

  /** blocks are those handed out since the last reset. */
  datatype State = State(cap: nat, used: nat, blocks: seq<Block>)

  datatype Op = Alloc(bytes: nat, k: nat) | Reset

  predicate Request(op: Op) { op.Alloc? ==> op.bytes < WORD && op.k < WORD_BITS }

  /** Whether alloc grants a block at this offset. */
  predicate Granted(cap: nat, a: nat, bytes: nat) { Trunc(a + bytes) <= cap }

  /** Alloc, once it has computed the aligned offset. */
  function Grant(s: State, a: nat, bytes: nat, k: nat): State {
    if Granted(s.cap, a, bytes) then s.(used := Trunc(a + bytes), blocks := s.blocks + [Block(a, bytes, k)]) else s
  }

  function Step(s: State, op: Op): State
    requires Request(op)
  {
    match op
    case Alloc(bytes, k) => Grant(s, Aligned(s.used, k), bytes, k)
    case Reset => s.(used := 0, blocks := [])
  }

  function End(b: Block): nat { b.start + b.size }

  /** Blocks lie in bounds, aligned, each after the one before, and used is where the last ends. */
  ghost predicate Inv(s: State) {
    && s.cap < WORD && s.used <= s.cap
    && (forall i :: 0 <= i < |s.blocks| ==>
          s.blocks[i].k < WORD_BITS && MultipleOf(s.blocks[i].start, Pow2(s.blocks[i].k)) && End(s.blocks[i]) <= s.used)
    && (forall i, j :: 0 <= i < j < |s.blocks| ==> End(s.blocks[i]) <= s.blocks[j].start)
    && s.used == if s.blocks == [] then 0 else End(s.blocks[|s.blocks| - 1])
  }

  /** No sum of this request leaves the word. */
  predicate NoWrap(s: State, op: Op)
    requires Request(op)
  {
    op.Alloc? ==> RoundsInWord(s.used, op.k) && Aligned(s.used, op.k) + op.bytes < WORD
  }

  /** Refused, or computed without wrapping. */
  predicate Harmless(s: State, op: Op)
    requires Request(op)
  {
    NoWrap(s, op) || (op.Alloc? && !Granted(s.cap, Aligned(s.used, op.k), op.bytes))
  }

  lemma GrantKeeps(s: State, a: nat, bytes: nat, k: nat)
    requires Inv(s) && k < WORD_BITS && a >= s.used && MultipleOf(a, Pow2(k)) && a + bytes < WORD
    ensures Grant(s, a, bytes, k)
            == if a + bytes <= s.cap then s.(used := a + bytes, blocks := s.blocks + [Block(a, bytes, k)]) else s
    ensures Inv(Grant(s, a, bytes, k))
  {
  }

  lemma GrantBreaks(s: State, a: nat, bytes: nat, k: nat)
    requires Inv(s) && Granted(s.cap, a, bytes) && (a < s.used || a + bytes >= WORD)
    ensures !Inv(Grant(s, a, bytes, k))
  {
    var t, n := Grant(s, a, bytes, k), |s.blocks|;
    assert t.blocks[n] == Block(a, bytes, k);
    if a < s.used {
      assert n > 0 && t.blocks[n - 1] == s.blocks[n - 1];
    }
  }

  lemma NoWrapKeeps(s: State, bytes: nat, k: nat)
    requires Inv(s) && Request(Alloc(bytes, k)) && NoWrap(s, Alloc(bytes, k))
    ensures var a := Aligned(s.used, k);
            && Step(s, Alloc(bytes, k))
               == (if a + bytes <= s.cap then s.(used := a + bytes, blocks := s.blocks + [Block(a, bytes, k)]) else s)
            && a >= s.used && MultipleOf(a, Pow2(k))
    ensures Inv(Step(s, Alloc(bytes, k)))
  {
    AlignedUp(s.used, k);
    GrantKeeps(s, Aligned(s.used, k), bytes, k);
  }

  /** A call keeps the arena in order if and only if it is refused or none of its sums wrapped. */
  lemma StepInvIff(s: State, op: Op)
    requires Inv(s) && Request(op)
    ensures Inv(Step(s, op)) <==> Harmless(s, op)
  {
    if op.Alloc? {
      if NoWrap(s, op) {
        NoWrapKeeps(s, op.bytes, op.k);
      } else if Granted(s.cap, Aligned(s.used, op.k), op.bytes) {
        if !RoundsInWord(s.used, op.k) { AlignedWraps(s.used, op.k); }
        GrantBreaks(s, Aligned(s.used, op.k), op.bytes, op.k);
      }
    }
  }

  /** An aligned block of that size, above what is used and in bounds. */
  predicate FitsAt(m: nat, s: State, bytes: nat, p: nat)
    requires p > 0
  {
    s.used <= m && MultipleOf(m, p) && m + bytes <= s.cap
  }

  /** Without wrapping, alloc grants if and only if some aligned block of that size fits above
      what is used. */
  lemma GrantsIffRoom(s: State, bytes: nat, k: nat)
    requires Inv(s) && Request(Alloc(bytes, k)) && NoWrap(s, Alloc(bytes, k))
    ensures Granted(s.cap, Aligned(s.used, k), bytes) <==> exists m: nat :: FitsAt(m, s, bytes, Pow2(k))
  {
    AlignedUp(s.used, k);
    RoomIff(s, Aligned(s.used, k), bytes, Pow2(k));
  }

  lemma RoomIff(s: State, a: nat, bytes: nat, p: nat)
    requires p > 0 && s.used <= a < s.used + p && MultipleOf(a, p) && a + bytes < WORD
    ensures Granted(s.cap, a, bytes) <==> exists m: nat :: FitsAt(m, s, bytes, p)
  {
    if Granted(s.cap, a, bytes) {
      assert FitsAt(a, s, bytes, p);
    }
    if m: nat :| FitsAt(m, s, bytes, p) {
      NextMultiple(a, m, p);
    }
  }

  // ---- whole runs ----

  predicate Requests(ops: seq<Op>) { forall i :: 0 <= i < |ops| ==> Request(ops[i]) }

  function Run(s: State, ops: seq<Op>): State
    requires Requests(ops)
    decreases |ops|
  {
    if ops == [] then s else Run(Step(s, ops[0]), ops[1..])
  }

  predicate HarmlessRun(s: State, ops: seq<Op>)
    requires Requests(ops)
    decreases |ops|
  {
    ops == [] || (Harmless(s, ops[0]) && HarmlessRun(Step(s, ops[0]), ops[1..]))
  }

  /** The invariant holds now and after each operation. */
  ghost predicate InvThroughout(s: State, ops: seq<Op>)
    requires Requests(ops)
    decreases |ops|
  {
    Inv(s) && (ops == [] || InvThroughout(Step(s, ops[0]), ops[1..]))
  }

  /** Over any run of alloc and reset: the blocks stay in order at every point if and only if no
      granted request wrapped. */
  lemma {:induction false} RunInvIff(s: State, ops: seq<Op>)
    requires Inv(s) && Requests(ops)
    ensures HarmlessRun(s, ops) <==> InvThroughout(s, ops)
    decreases |ops|
  {
    if ops != [] {
      StepInvIff(s, ops[0]);
      if Harmless(s, ops[0]) {
        RunInvIff(Step(s, ops[0]), ops[1..]);
      }
    }
  }

  predicate Disjoint(a: Block, b: Block) { End(a) <= b.start || End(b) <= a.start }

  /** The caller's sizes and alignments fit in the word beside the capacity. */
  predicate Modest(cap: nat, op: Op) { op.Alloc? ==> cap + Pow2(op.k) + op.bytes <= WORD }

  lemma ModestKeeps(s: State, op: Op)
    requires Inv(s) && Request(op) && Modest(s.cap, op)
    ensures (Inv(Step(s, op)), Step(s, op).cap) == (Inv(s), s.cap)
  {
    if op.Alloc? {
      AlignedUp(s.used, op.k);
      NoWrapKeeps(s, op.bytes, op.k);
    }
  }

  lemma {:induction false} ModestRunKeeps(s: State, ops: seq<Op>)
    requires Inv(s) && Requests(ops) && forall i :: 0 <= i < |ops| ==> Modest(s.cap, ops[i])
    ensures (Inv(Run(s, ops)), Run(s, ops).cap) == (Inv(s), s.cap)
    decreases |ops|
  {
    if ops != [] {
      ModestKeeps(s, ops[0]);
      ModestRunKeeps(Step(s, ops[0]), ops[1..]);
    }
  }

  /** Known beforehand: after any run of modest requests on a fresh arena, the live blocks are
      pairwise disjoint, in bounds and aligned. */
  lemma BlocksAreDisjoint(cap: nat, ops: seq<Op>)
    requires cap < WORD && Requests(ops) && forall i :: 0 <= i < |ops| ==> Modest(cap, ops[i])
    ensures var bs := Run(State(cap, 0, []), ops).blocks;
            && (forall i, j :: 0 <= i < j < |bs| ==> Disjoint(bs[i], bs[j]))
            && (forall i :: 0 <= i < |bs| ==> End(bs[i]) <= cap && bs[i].k < WORD_BITS
                                              && MultipleOf(bs[i].start, Pow2(bs[i].k)))
  {
    ModestRunKeeps(State(cap, 0, []), ops);
  }

  // ---- many objects of one type ----

  /** n calls of make for one type, one after the other. */
  function Makes(s: State, n: nat, size: nat, k: nat): State
    requires Request(Alloc(size, k))
    decreases n
  {
    if n == 0 then s else Makes(Step(s, Alloc(size, k)), n - 1, size, k)
  }

  /** A used count that is already aligned stays. */
  lemma AlreadyAligned(used: nat, k: nat)
    requires k < WORD_BITS && RoundsInWord(used, k) && MultipleOf(used, Pow2(k))
    ensures Aligned(used, k) == used
  {
    AlignedUp(used, k);
    NextMultiple(Aligned(used, k), used, Pow2(k));
  }

  lemma {:induction false} MultipleAdds(a: nat, b: nat, p: nat)
    requires p > 0 && MultipleOf(a, p) && MultipleOf(b, p)
    ensures MultipleOf(a + b, p)
    decreases b
  {
    if b > 0 { MultipleAdds(a, b - p, p); }
  }

  /** sizeof is positive, a multiple of alignof, and a word. */
  predicate IsType(size: nat, k: nat) {
    0 < size < WORD && k < WORD_BITS && MultipleOf(size, Pow2(k))
  }

  /** The first multiple of size above the capacity: where the first object that does not fit
      would end. */
  function Beyond(cap: nat, size: nat): nat
    requires size > 0
  {
    if cap < size then size else size + Beyond(cap - size, size)
  }

  lemma {:induction false} Pow2Divides(k: nat, w: nat)
    requires k <= w
    ensures MultipleOf(Pow2(w), Pow2(k))
    decreases w
  {
    if k < w {
      Pow2Divides(k, w - 1);
      MultipleAdds(Pow2(w - 1), Pow2(w - 1), Pow2(k));
    }
  }

  /** An aligned count below 2^64 can be rounded up without wrapping: it stays. */
  lemma AlignedStays(used: nat, k: nat)
    requires k < WORD_BITS && used < WORD && MultipleOf(used, Pow2(k))
    ensures RoundsInWord(used, k) && Aligned(used, k) == used
  {
    WordSize();
    Pow2Divides(k, WORD_BITS);
    if WORD < used + Pow2(k) { NextMultiple(WORD, used, Pow2(k)); }
    AlreadyAligned(used, k);
  }

  /** The bytes of n objects. */
  function Bytes(n: nat, size: nat): nat {
    if n == 0 then 0 else Bytes(n - 1, size) + size
  }

  lemma {:induction false} BytesIsProduct(n: nat, size: nat)
    ensures Bytes(n, size) == n * size
  {
    if n > 0 { BytesIsProduct(n - 1, size); }
  }

  /** How many of n objects are granted, from an aligned used. */
  function Count(cap: nat, used: nat, n: nat, size: nat): (c: nat)
    ensures c <= n
    decreases n
  {
    if n == 0 then 0
    else if Granted(cap, used, size) then 1 + Count(cap, Trunc(used + size), n - 1, size)
    else Count(cap, used, n - 1, size)
  }

  lemma {:induction false} MultipleSubtracts(a: nat, b: nat, p: nat)
    requires p > 0 && MultipleOf(a, p) && MultipleOf(b, p) && b <= a
    ensures MultipleOf(a - b, p)
    decreases b
  {
    if b > 0 { MultipleSubtracts(a - p, b - p, p); }
  }

  /** Objects of one type need no rounding, even when their sum wraps. */
  lemma StaysAligned(used: nat, size: nat, k: nat)
    requires IsType(size, k) && used < WORD && MultipleOf(used, Pow2(k))
    ensures Aligned(used, k) == used && MultipleOf(Trunc(used + size), Pow2(k))
  {
    AlignedStays(used, k);
    MultipleAdds(used, size, Pow2(k));
    if used + size >= WORD {
      WordSize();
      Pow2Divides(k, WORD_BITS);
      MultipleSubtracts(used + size, WORD, Pow2(k));
    }
  }

  lemma {:induction false} MakesCount(s: State, n: nat, size: nat, k: nat)
    requires IsType(size, k) && s.used < WORD && MultipleOf(s.used, Pow2(k))
    ensures |Makes(s, n, size, k).blocks| == |s.blocks| + Count(s.cap, s.used, n, size)
    decreases n
  {
    if n > 0 {
      StaysAligned(s.used, size, k);
      MakesCount(Grant(s, s.used, size, k), n - 1, size, k);
    }
  }

  /** Objects that fit are all granted. */
  lemma {:induction false} CountsWhatFits(cap: nat, used: nat, n: nat, size: nat)
    requires cap < WORD && used + Bytes(n, size) <= cap
    ensures Count(cap, used, n, size) == n
    decreases n
  {
    if n > 0 {
      CountsWhatFits(cap, used + size, n - 1, size);
    }
  }

  lemma {:induction false} RefusedForGood(cap: nat, used: nat, n: nat, size: nat)
    requires !Granted(cap, used, size)
    ensures Count(cap, used, n, size) == 0
    decreases n
  {
    if n > 0 { RefusedForGood(cap, used, n - 1, size); }
  }

  /** Objects that do not all fit are not all granted, provided the first one that does not fit ends
      within the word. */
  lemma {:induction false} RefusesWhatDoesNot(cap: nat, used: nat, n: nat, size: nat)
    requires size > 0 && used <= cap < used + Bytes(n, size) && used + Beyond(cap - used, size) < WORD
    ensures Count(cap, used, n, size) < n
    decreases n
  {
    if used + size <= cap {
      RefusesWhatDoesNot(cap, used + size, n - 1, size);
    } else {
      RefusedForGood(cap, used, n, size);
    }
  }

  /** Otherwise one object too many is granted. */
  lemma {:induction false} CountsTooMany(cap: nat, used: nat, size: nat) returns (n: nat)
    requires 0 < size < WORD && used <= cap < WORD && MultipleOf(used, size)
    requires used + Beyond(cap - used, size) >= WORD
    ensures Count(cap, used, n, size) == n && used + Bytes(n, size) > cap
    decreases cap - used
  {
    if used + size <= cap {
      MultipleAdds(used, size, size);
      var n1 := CountsTooMany(cap, used + size, size);
      n := n1 + 1;
    } else {
      n := 1;
      assert used >= size;
    }
  }

  /** n objects of one type, on a fresh arena, are all granted. */
  predicate AllGranted(cap: nat, n: nat, size: nat, k: nat)
    requires IsType(size, k)
  {
    |Makes(State(cap, 0, []), n, size, k).blocks| == n
  }

  lemma GrantedIfFits(cap: nat, n: nat, size: nat, k: nat)
    requires cap < WORD && IsType(size, k)
    ensures n * size <= cap ==> AllGranted(cap, n, size, k)
    ensures Beyond(cap, size) < WORD && AllGranted(cap, n, size, k) ==> n * size <= cap
  {
    BytesIsProduct(n, size);
    MakesCount(State(cap, 0, []), n, size, k);
    if Bytes(n, size) <= cap {
      CountsWhatFits(cap, 0, n, size);
    } else if Beyond(cap, size) < WORD {
      RefusesWhatDoesNot(cap, 0, n, size);
    }
  }

  /** On a fresh arena of any capacity: n objects are granted exactly when n * sizeof(T) <= capacity,
      for every n, if and only if the first multiple of sizeof(T) above the capacity is a word. */
  lemma MakeManyIff(cap: nat, size: nat, k: nat)
    requires cap < WORD && IsType(size, k)
    ensures (forall n: nat :: AllGranted(cap, n, size, k) <==> n * size <= cap) <==> Beyond(cap, size) < WORD
  {
    if Beyond(cap, size) < WORD {
      forall n: nat ensures AllGranted(cap, n, size, k) <==> n * size <= cap {
        GrantedIfFits(cap, n, size, k);
      }
    } else {
      var n := CountsTooMany(cap, 0, size);
      BytesIsProduct(n, size);
      MakesCount(State(cap, 0, []), n, size, k);
      assert AllGranted(cap, n, size, k);
    }
  }

  lemma {:induction false} BeyondIsNear(cap: nat, size: nat)
    requires size > 0
    ensures cap < Beyond(cap, size) <= cap + size
  {
    if cap >= size { BeyondIsNear(cap - size, size); }
  }

  /** A size near 2^64 wraps: it is granted, used moves back, and the next block overlaps the
      first one. */
  lemma HugeRequestOverlaps()
    ensures var s := Step(State(64, 0, []), Alloc(32, 4));
            var t := Step(s, Alloc(WORD - 16, 4));
            var u := Step(t, Alloc(32, 4));
            && s.blocks == [Block(0, 32, 4)] && t.used == 16
            && u.blocks == s.blocks + [Block(32, WORD - 16, 4), Block(16, 32, 4)]
            && !Disjoint(u.blocks[0], u.blocks[2])
  {
    assert Pow2(4) == 16;
    AlreadyAligned(0, 4);
    AlreadyAligned(32, 4);
    AlreadyAligned(16, 4);
  }

  class Allocator {
    const cap: nat
    var used: nat
    ghost var blocks: seq<Block>

    ghost function Abstract(): State
      reads this
    {
      State(cap, used, blocks)
    }

    constructor (capacity: nat)
      requires capacity < WORD
      ensures Abstract() == State(capacity, 0, []) && Inv(Abstract())
    {
      cap, used, blocks := capacity, 0, [];
    }

    /** The mask is computed as the source does, in 64-bit words. */
    method Allocate(bytes: nat, k: nat) returns (r: Option<nat>)
      requires Request(Alloc(bytes, k))
      modifies this`used, this`blocks
      ensures Abstract() == Step(old(Abstract()), Alloc(bytes, k))
      ensures r == if Granted(cap, Aligned(old(used), k), bytes) then Some(Aligned(old(used), k)) else None
    {
      var align := Pow2(k);
      ComplementWord(k);
      var mask := Trunc(WORD - align);
      var aligned := And(Trunc(used + align - 1), mask);
      assert aligned == Aligned(used, k);
      if Trunc(aligned + bytes) > cap { return None; }
      used, blocks := Trunc(aligned + bytes), blocks + [Block(aligned, bytes, k)];
      r := Some(aligned);
    }

    /** One `make` where only objects of this type were made before. */
    method MakeNext(size: nat, k: nat) returns (granted: bool)
      requires IsType(size, k) && used < WORD && MultipleOf(used, Pow2(k))
      modifies this`used, this`blocks
      ensures granted <==> Granted(cap, old(used), size)
      ensures used == (if granted then Trunc(old(used) + size) else old(used)) && MultipleOf(used, Pow2(k))
    {
      StaysAligned(used, size, k);
      var p := Allocate(size, k);
      granted := p.Some?;
    }

    method MakeAll(n: nat, size: nat, k: nat) returns (granted: bool)
      requires IsType(size, k) && used == 0
      modifies this`used, this`blocks
      ensures granted <==> Count(cap, 0, n, size) == n
    {
      granted := true;
      var i := 0;
      while i < n && granted
        invariant i <= n && used < WORD && MultipleOf(used, Pow2(k))
        invariant granted ==> Count(cap, 0, n, size) == i + Count(cap, used, n - i, size)
        invariant !granted ==> Count(cap, 0, n, size) < n
      {
        granted := MakeNext(size, k);
        i := i + 1;
      }
    }

    /** A reset, and then n objects of one type, one after the other, as `make` gives them. */
    method MakeMany(n: nat, size: nat, k: nat) returns (granted: bool)
      requires cap < WORD && IsType(size, k)
      modifies this`used, this`blocks
      ensures granted <==> AllGranted(cap, n, size, k)
      ensures n * size <= cap ==> granted
      ensures Beyond(cap, size) < WORD ==> (granted <==> n * size <= cap)
    {
      ResetAll();
      granted := MakeAll(n, size, k);
      MakesCount(State(cap, 0, []), n, size, k);
      GrantedIfFits(cap, n, size, k);
    }

    method ResetAll()
      modifies this`used, this`blocks
      ensures Abstract() == Step(old(Abstract()), Reset)
      ensures cap < WORD ==> Inv(Abstract())
    {
      used, blocks := 0, [];
    }
  }
}
