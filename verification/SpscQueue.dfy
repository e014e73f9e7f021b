/** The single-producer single-consumer ring queue of performance/08_lockfree.cpp.

    Every atomic load, every atomic store and every access to the buffer is one step of a
    state machine; a schedule is an arbitrary sequence of producer and consumer steps, and a
    step whose thread is not at that point of its code does nothing.

    The index words follow the release/acquire rules rather than a single global memory: each
    word has its modification order, a thread reads the latest entry of the word it alone
    writes, and its acquire load of the other thread's word may return any entry that is not
    older than the last one it saw. */
module SpscQueue {
  import Bits
  import opened Options

  /** Where the producer is inside `try_push`, with its local variables. */
  datatype Producer<T> =
    | PIdle
    | PHead(value: T, head: nat)               // head loaded
    | PFree(value: T, head: nat, next: nat)    // tail loaded, not full: about to write buf[head]
    | PFilled(value: T, head: nat, next: nat)  // slot written: about to publish next

  /** Where the consumer is inside `try_pop`, with its local variables. */
  datatype Consumer<T> =
    | CIdle
    | CTail(tail: nat)             // tail loaded
    | CReady(tail: nat)            // head loaded, not empty: about to read buf[tail]
    | CTaken(tail: nat, value: T)  // slot read: about to release it

  datatype Action<T> =
    | PLoadHead(value: T) | PLoadTail(entry: nat) | PWrite | PStore
    | CLoadTail | CLoadHead(entry: nat) | CRead | CStore

  /** The buffer, the modification orders of the two index words, the youngest entry of the
      other thread's word that each thread has seen, both threads, and the two histories:
      `pushed` grows at the producer's store of head, `popped` at the consumer's store of tail. */
  datatype State<T> = State(
    mask: nat, buf: seq<T>, heads: seq<nat>, tails: seq<nat>,
    seenTail: nat, seenHead: nat,
    producer: Producer<T>, consumer: Consumer<T>,
    pushed: seq<T>, popped: seq<T>)
  {
    /** The latest value of head, which is what its writer reads. */
    function Head(): nat {
      if heads == [] then 0 else heads[|heads| - 1]
    }

    function Tail(): nat {
      if tails == [] then 0 else tails[|tails| - 1]
    }
  }

  function Init<T>(buf: seq<T>): State<T>
    requires |buf| > 0
  {
    State(|buf| - 1, buf, [0], [0], 0, 0, PIdle, CIdle, [], [])
  }

  /** One step. The index arithmetic is the source's: increment, then AND with the mask. */
  function Step<T>(s: State<T>, a: Action<T>): State<T> {
    match a
    case PLoadHead(v) =>
      if s.producer.PIdle? then s.(producer := PHead(v, s.Head())) else s
    case PLoadTail(entry) =>
      if !s.producer.PHead? || !(s.seenTail <= entry < |s.tails|) then s else
      var next := Bits.And(s.producer.head + 1, s.mask);
      if next == s.tails[entry] then s.(producer := PIdle, seenTail := entry)
      else s.(producer := PFree(s.producer.value, s.producer.head, next), seenTail := entry)
    case PWrite =>
      if !s.producer.PFree? || s.producer.head >= |s.buf| then s else
      s.(buf := s.buf[s.producer.head := s.producer.value],
         producer := PFilled(s.producer.value, s.producer.head, s.producer.next))
    case PStore =>
      if !s.producer.PFilled? then s else
      s.(heads := s.heads + [s.producer.next], producer := PIdle, pushed := s.pushed + [s.producer.value])
    case CLoadTail =>
      if s.consumer.CIdle? then s.(consumer := CTail(s.Tail())) else s
    case CLoadHead(entry) =>
      if !s.consumer.CTail? || !(s.seenHead <= entry < |s.heads|) then s else
      if s.consumer.tail == s.heads[entry] then s.(consumer := CIdle, seenHead := entry)
      else s.(consumer := CReady(s.consumer.tail), seenHead := entry)
    case CRead =>
      if !s.consumer.CReady? || s.consumer.tail >= |s.buf| then s else
      s.(consumer := CTaken(s.consumer.tail, s.buf[s.consumer.tail]))
    case CStore =>
      if !s.consumer.CTaken? then s else
      s.(tails := s.tails + [Bits.And(s.consumer.tail + 1, s.mask)], consumer := CIdle,
         popped := s.popped + [s.consumer.value])
  }

  /** The local indices address the buffer, so no step would read or write out of bounds. */
  predicate InRange<T>(s: State<T>) {
    && (s.producer.PFree? ==> s.producer.head < |s.buf|)
    && (s.consumer.CReady? ==> s.consumer.tail < |s.buf|)
  }

  ghost predicate WellFormed<T>(s: State<T>) {
    && |s.buf| == s.mask + 1
    && Bits.PassesPowerOfTwoCheck(|s.buf|)
  }

  /** The slot of the n-th element. */
  function Slot(n: nat, cap: nat): (r: nat)
    requires cap > 0
    ensures r < cap
  {
    n % cap
  }

  /** How far y is ahead of x around the ring. */
  function Distance(x: nat, y: nat, cap: nat): nat
    requires x < cap
  {
    if x <= y then y - x else cap - x + y
  }

  /** The inductive invariant, in terms of how many elements ever went in and came out. */
  ghost predicate Inv<T>(s: State<T>) {
    var cap := |s.buf|;
    && WellFormed(s)
    && |s.popped| <= |s.pushed|
    && s.popped == s.pushed[..|s.popped|]
    && |s.heads| == |s.pushed| + 1 && |s.tails| == |s.popped| + 1
    && (forall i {:trigger s.heads[i]} :: 0 <= i < |s.heads| ==> s.heads[i] == Slot(i, cap))
    && (forall i {:trigger s.tails[i]} :: 0 <= i < |s.tails| ==> s.tails[i] == Slot(i, cap))
    && s.seenTail <= |s.popped| <= s.seenHead <= |s.pushed| <= s.seenTail + cap - 1
    && (forall i {:trigger s.pushed[i]} :: |s.popped| <= i < |s.pushed| ==> s.buf[Slot(i, cap)] == s.pushed[i])
    && (!s.producer.PIdle? ==> s.producer.head == s.Head())
    && (s.producer.PFree? || s.producer.PFilled? ==>
          s.producer.next == Slot(|s.pushed| + 1, cap) && |s.pushed| - s.seenTail < cap - 1)
    && (s.producer.PFilled? ==> s.buf[s.Head()] == s.producer.value)
    && (!s.consumer.CIdle? ==> s.consumer.tail == s.Tail())
    && (s.consumer.CReady? || s.consumer.CTaken? ==> |s.popped| < s.seenHead)
    && (s.consumer.CTaken? ==> s.consumer.value == s.pushed[|s.popped|])
  }

  /** The number of occupied slots, from the two index words alone. */
  function Occupied<T>(s: State<T>): nat
    requires s.Tail() < |s.buf|
  {
    Distance(s.Tail(), s.Head(), |s.buf|)
  }

  /** What the shared words hold right now: the slots from tail up to head, cyclically. */
  function Contents<T>(s: State<T>): (r: seq<T>)
    requires s.Tail() < |s.buf|
    ensures |r| == Occupied(s)
  {
    seq(Occupied(s), i requires 0 <= i => s.buf[Slot(s.Tail() + i, |s.buf|)])
  }

  // ---- counts and slots ----

  /** Counting in laps: either the first lap, or one lap less. */
  lemma SlotPeels(n: nat, cap: nat)
    requires cap > 0
    ensures Slot(n, cap) == if n < cap then n else Slot(n - cap, cap)
  {
    if n < cap {
      Bits.SmallMod(n, cap);
    } else {
      var q, r := (n - cap) / cap, (n - cap) % cap;
      assert n == cap * (q + 1) + r;
      Bits.DivModUnique(n, cap, q + 1, r);
    }
  }

  lemma {:induction false} SlotShift(n: nat, d: nat, cap: nat)
    requires cap > 0
    ensures Slot(Slot(n, cap) + d, cap) == Slot(n + d, cap)
    decreases n
  {
    SlotPeels(n, cap);
    if n >= cap {
      SlotPeels(n + d, cap);
      SlotShift(n - cap, d, cap);
    }
  }

  /** Two counts less than a lap apart address the same slot only if they are equal, and one lap
      apart they do. */
  lemma {:induction false} SlotInjective(a: nat, b: nat, cap: nat)
    requires cap > 0 && a <= b <= a + cap
    ensures Slot(a, cap) == Slot(b, cap) <==> a == b || b == a + cap
    decreases a
  {
    SlotPeels(a, cap);
    SlotPeels(b, cap);
    if a >= cap {
      SlotInjective(a - cap, b - cap, cap);
    } else if b >= cap {
      SlotPeels(b - cap, cap);
    }
  }

  /** The cyclic distance from one index word to the other is the distance between the counts. */
  lemma {:induction false} SlotDistance(a: nat, b: nat, cap: nat)
    requires cap > 0 && a <= b < a + cap
    ensures Distance(Slot(a, cap), Slot(b, cap), cap) == b - a
    decreases a
  {
    SlotPeels(a, cap);
    SlotPeels(b, cap);
    if a >= cap {
      SlotDistance(a - cap, b - cap, cap);
    } else if b >= cap {
      SlotPeels(b - cap, cap);
    }
  }

  /** The mask of a well-formed queue reduces modulo the capacity. */
  lemma MaskWraps<T>(s: State<T>, x: nat)
    requires WellFormed(s)
    ensures Bits.And(x, s.mask) == Slot(x, |s.buf|)
  {
    Bits.PowerOfTwoCheck(|s.buf|);
    var k: nat :| |s.buf| == Bits.Pow2(k);
    Bits.MaskIsModulo(x, k);
  }

  // ---- the invariant ----

  lemma InitInv<T>(buf: seq<T>)
    requires Bits.PassesPowerOfTwoCheck(|buf|)
    ensures Inv(Init(buf))
  {
  }

  lemma InvInRange<T>(s: State<T>)
    requires Inv(s)
    ensures InRange(s) && s.Head() < |s.buf| && s.Tail() < |s.buf|
  {
    WordsAreSlots(s);
  }

  lemma NextSlot<T>(s: State<T>, n: nat, i: nat)
    requires WellFormed(s) && i == Slot(n, |s.buf|)
    ensures Bits.And(i + 1, s.mask) == Slot(n + 1, |s.buf|)
  {
    MaskWraps(s, i + 1);
    SlotShift(n, 1, |s.buf|);
  }

  /** Counts and their slots, at the words' newest entries. */
  lemma WordsAreSlots<T>(s: State<T>)
    requires Inv(s)
    ensures s.Head() == Slot(|s.pushed|, |s.buf|) && s.Tail() == Slot(|s.popped|, |s.buf|)
  {
    assert s.heads[|s.pushed|] == Slot(|s.pushed|, |s.buf|);
    assert s.tails[|s.popped|] == Slot(|s.popped|, |s.buf|);
  }

  lemma NextHead<T>(s: State<T>)
    requires Inv(s) && !s.producer.PIdle?
    ensures Bits.And(s.producer.head + 1, s.mask) == Slot(|s.pushed| + 1, |s.buf|)
  {
    WordsAreSlots(s);
    NextSlot(s, |s.pushed|, s.producer.head);
  }

  lemma NextTail<T>(s: State<T>)
    requires Inv(s) && !s.consumer.CIdle?
    ensures Bits.And(s.consumer.tail + 1, s.mask) == Slot(|s.popped| + 1, |s.buf|)
  {
    WordsAreSlots(s);
    NextSlot(s, |s.popped|, s.consumer.tail);
  }

  lemma TailLoaded<T>(s: State<T>, entry: nat, next: nat)
    requires Inv(s) && s.producer.PHead? && s.seenTail <= entry < |s.tails| && next == Slot(|s.pushed| + 1, |s.buf|)
    ensures next == s.tails[entry] ==> Inv(s.(producer := PIdle, seenTail := entry))
    ensures next != s.tails[entry] ==>
              Inv(s.(producer := PFree(s.producer.value, s.producer.head, next), seenTail := entry))
  {
    SlotInjective(entry, |s.pushed| + 1, |s.buf|);
  }

  lemma SlotWritten<T>(s: State<T>)
    requires Inv(s) && s.producer.PFree? && s.producer.head < |s.buf|
    ensures Inv(s.(buf := s.buf[s.producer.head := s.producer.value],
                   producer := PFilled(s.producer.value, s.producer.head, s.producer.next)))
  {
    var cap, b := |s.buf|, s.buf[s.producer.head := s.producer.value];
    WordsAreSlots(s);
    forall i | |s.popped| <= i < |s.pushed| ensures b[Slot(i, cap)] == s.pushed[i] {
      SlotInjective(i, |s.pushed|, cap);
    }
    if s.consumer.CTaken? { assert s.consumer.value == s.pushed[|s.popped|]; }
  }

  lemma HeadStored<T>(s: State<T>)
    requires Inv(s) && s.producer.PFilled?
    ensures Inv(s.(heads := s.heads + [s.producer.next], producer := PIdle, pushed := s.pushed + [s.producer.value]))
  {
    WordsAreSlots(s);
    var cap, all := |s.buf|, s.pushed + [s.producer.value];
    assert all[..|s.popped|] == s.pushed[..|s.popped|];
    forall i | |s.popped| <= i < |all| ensures s.buf[Slot(i, cap)] == all[i] {
      if i < |s.pushed| { assert s.pushed[i] == all[i]; }
    }
    if s.consumer.CTaken? { assert all[|s.popped|] == s.pushed[|s.popped|]; }
  }

  lemma HeadLoaded<T>(s: State<T>, entry: nat)
    requires Inv(s) && s.consumer.CTail? && s.seenHead <= entry < |s.heads|
    ensures s.consumer.tail == s.heads[entry] ==> Inv(s.(consumer := CIdle, seenHead := entry))
    ensures s.consumer.tail != s.heads[entry] ==> Inv(s.(consumer := CReady(s.consumer.tail), seenHead := entry))
  {
    WordsAreSlots(s);
    SlotInjective(|s.popped|, entry, |s.buf|);
  }

  lemma SlotRead<T>(s: State<T>)
    requires Inv(s) && s.consumer.CReady?
    ensures s.consumer.tail < |s.buf|
    ensures Inv(s.(consumer := CTaken(s.consumer.tail, s.buf[s.consumer.tail])))
  {
    WordsAreSlots(s);
    assert s.buf[Slot(|s.popped|, |s.buf|)] == s.pushed[|s.popped|];
  }

  lemma TailStored<T>(s: State<T>, next: nat)
    requires Inv(s) && s.consumer.CTaken? && next == Slot(|s.popped| + 1, |s.buf|)
    ensures Inv(s.(tails := s.tails + [next], consumer := CIdle, popped := s.popped + [s.consumer.value]))
  {
    assert s.pushed[..|s.popped| + 1] == s.pushed[..|s.popped|] + [s.pushed[|s.popped|]];
  }

  lemma LoadTailInv<T>(s: State<T>, entry: nat)
    requires Inv(s)
    ensures Inv(Step(s, PLoadTail(entry)))
  {
    if s.producer.PHead? && s.seenTail <= entry < |s.tails| {
      NextHead(s);
      TailLoaded(s, entry, Bits.And(s.producer.head + 1, s.mask));
    }
  }

  lemma WriteInv<T>(s: State<T>)
    requires Inv(s)
    ensures Inv(Step(s, PWrite))
  {
    InvInRange(s);
    if s.producer.PFree? { SlotWritten(s); }
  }

  lemma ReadInv<T>(s: State<T>)
    requires Inv(s)
    ensures Inv(Step(s, CRead))
  {
    InvInRange(s);
    if s.consumer.CReady? { SlotRead(s); }
  }

  lemma StoreTailInv<T>(s: State<T>)
    requires Inv(s)
    ensures Inv(Step(s, CStore))
  {
    if s.consumer.CTaken? {
      NextTail(s);
      TailStored(s, Bits.And(s.consumer.tail + 1, s.mask));
    }
  }

  lemma ProducerStepInv<T>(s: State<T>, a: Action<T>)
    requires Inv(s) && (a.PLoadHead? || a.PLoadTail? || a.PWrite? || a.PStore?)
    ensures Inv(Step(s, a))
  {
    match a
    case PLoadHead(_) =>
    case PLoadTail(entry) => LoadTailInv(s, entry);
    case PWrite => WriteInv(s);
    case PStore => if s.producer.PFilled? { HeadStored(s); }
  }

  lemma ConsumerStepInv<T>(s: State<T>, a: Action<T>)
    requires Inv(s) && (a.CLoadTail? || a.CLoadHead? || a.CRead? || a.CStore?)
    ensures Inv(Step(s, a))
  {
    match a
    case CLoadTail =>
    case CLoadHead(entry) =>
      if s.consumer.CTail? && s.seenHead <= entry < |s.heads| { HeadLoaded(s, entry); }
    case CRead => ReadInv(s);
    case CStore => StoreTailInv(s);
  }

  lemma StepInv<T>(s: State<T>, a: Action<T>)
    requires Inv(s)
    ensures Inv(Step(s, a)) && |Step(s, a).buf| == |s.buf|
  {
    if a.PLoadHead? || a.PLoadTail? || a.PWrite? || a.PStore? {
      ProducerStepInv(s, a);
    } else {
      ConsumerStepInv(s, a);
    }
  }

  /** All steps of a schedule, in order. */
  function Run<T>(s: State<T>, schedule: seq<Action<T>>): State<T>
    decreases |schedule|
  {
    if schedule == [] then s else Run(Step(s, schedule[0]), schedule[1..])
  }

  lemma {:induction false} RunInv<T>(s: State<T>, schedule: seq<Action<T>>)
    requires Inv(s)
    ensures (Inv(Run(s, schedule)), |Run(s, schedule).buf|) == (Inv(s), |s.buf|)
    decreases |schedule|
  {
    if schedule != [] {
      StepInv(s, schedule[0]);
      RunInv(Step(s, schedule[0]), schedule[1..]);
    }
  }

  // ---- refinement to a bounded FIFO ----

  /** The slots between the index words hold exactly the elements pushed and not yet popped. */
  lemma ContentsAreFifo<T>(s: State<T>)
    requires Inv(s)
    ensures Contents(s) == s.pushed[|s.popped|..]
    ensures |Contents(s)| <= |s.buf| - 1
  {
    var cap := |s.buf|;
    SlotDistance(|s.popped|, |s.pushed|, cap);
    var c, f := Contents(s), s.pushed[|s.popped|..];
    assert |c| == |f|;
    forall i | 0 <= i < |f|
      ensures c[i] == f[i]
    {
      SlotShift(|s.popped|, i, cap);
    }
  }

  /** What the caller of a bounded queue may observe of one step. */
  datatype FifoEvent<T> = Stutter | Enqueue(value: T) | Dequeue(value: T)

  function EventOf<T>(s: State<T>, a: Action<T>): FifoEvent<T> {
    if a.PStore? && s.producer.PFilled? then Enqueue(s.producer.value)
    else if a.CStore? && s.consumer.CTaken? then Dequeue(s.consumer.value)
    else Stutter
  }

  /** The specification: a sequence of at most `bound` elements, in at one end, out at the other. */
  ghost predicate FifoStep<T>(q: seq<T>, e: FifoEvent<T>, q': seq<T>, bound: nat) {
    match e
    case Stutter => q' == q
    case Enqueue(v) => |q| < bound && q' == q + [v]
    case Dequeue(v) => q == [v] + q'
  }

  /** How one step extends the histories. */
  lemma StepHistory<T>(s: State<T>, a: Action<T>)
    ensures var t, e := Step(s, a), EventOf(s, a);
            && t.pushed == (if e.Enqueue? then s.pushed + [e.value] else s.pushed)
            && t.popped == (if e.Dequeue? then s.popped + [e.value] else s.popped)
  {
  }

  lemma FifoFromHistory<T>(
    pushed: seq<T>, popped: seq<T>, e: FifoEvent<T>, pushed': seq<T>, popped': seq<T>, bound: nat)
    requires |popped| <= |pushed| && |popped'| <= |pushed'| && popped' == pushed'[..|popped'|]
    requires pushed' == (if e.Enqueue? then pushed + [e.value] else pushed)
    requires popped' == (if e.Dequeue? then popped + [e.value] else popped)
    requires |pushed'| - |popped'| <= bound
    ensures FifoStep(pushed[|popped|..], e, pushed'[|popped'|..], bound)
  {
    if e.Dequeue? { assert pushed[|popped|] == popped'[|popped|]; }
  }

  /** Every atomic step of either thread is a step of the bounded FIFO on the slots' contents. */
  lemma StepRefinesFifo<T>(s: State<T>, a: Action<T>)
    requires Inv(s)
    ensures Inv(Step(s, a)) && Step(s, a).Tail() < |Step(s, a).buf| && s.Tail() < |s.buf|
    ensures FifoStep(Contents(s), EventOf(s, a), Contents(Step(s, a)), |s.buf| - 1)
  {
    StepInv(s, a);
    StepHistory(s, a);
    var t := Step(s, a);
    ContentsAreFifo(s);
    ContentsAreFifo(t);
    FifoFromHistory(s.pushed, s.popped, EventOf(s, a), t.pushed, t.popped, |s.buf| - 1);
  }

  /** A push reports "full" exactly when Capacity - 1 elements were in the queue as of the tail
      entry it loaded; if that entry is the latest, exactly when the queue is full. */
  lemma PushFailsIffFull<T>(s: State<T>, entry: nat)
    requires Inv(s) && s.producer.PHead? && s.seenTail <= entry < |s.tails|
    ensures Step(s, PLoadTail(entry)).producer.PIdle? <==> |s.pushed[entry..]| == |s.buf| - 1
    ensures entry == |s.popped| ==>
              (Step(s, PLoadTail(entry)).producer.PIdle? <==> |Contents(s)| == |s.buf| - 1)
  {
    var cap := |s.buf|;
    ContentsAreFifo(s);
    MaskWraps(s, s.Head() + 1);
    SlotShift(|s.pushed|, 1, cap);
    SlotInjective(entry, |s.pushed| + 1, cap);
  }

  /** A pop reports "empty" exactly when every element it could see pushed was already popped;
      if it loaded the latest head entry, exactly when the queue is empty. */
  lemma PopFailsIffEmpty<T>(s: State<T>, entry: nat)
    requires Inv(s) && s.consumer.CTail? && s.seenHead <= entry < |s.heads|
    ensures Step(s, CLoadHead(entry)).consumer.CIdle? <==> s.pushed[..entry] == s.popped
    ensures entry == |s.pushed| ==> (Step(s, CLoadHead(entry)).consumer.CIdle? <==> Contents(s) == [])
  {
    ContentsAreFifo(s);
    SlotInjective(|s.popped|, entry, |s.buf|);
  }

  /** The slot about to be written is none of the occupied ones; in particular it is never the
      slot about to be read. */
  lemma NoSlotConflict<T>(s: State<T>, i: nat)
    requires Inv(s)
    ensures s.Tail() < |s.buf|
    ensures s.producer.PFree? && i < Occupied(s) ==> s.producer.head != Slot(s.Tail() + i, |s.buf|)
    ensures s.producer.PFree? && s.consumer.CReady? ==> s.producer.head != s.consumer.tail
  {
    WordsAreSlots(s);
    NextSlotIsFree(|s.popped|, |s.pushed|, i, |s.buf|);
    NextSlotIsFree(|s.popped|, |s.pushed|, 0, |s.buf|);
  }

  /** Between counts a and b, less than a lap apart, no slot is that of b. */
  lemma NextSlotIsFree(a: nat, b: nat, i: nat, cap: nat)
    requires cap > 0 && a <= b < a + cap
    ensures i < Distance(Slot(a, cap), Slot(b, cap), cap) ==> Slot(b, cap) != Slot(Slot(a, cap) + i, cap)
    ensures a < b ==> Slot(b, cap) != Slot(a, cap)
  {
    SlotDistance(a, b, cap);
    SlotShift(a, i, cap);
    SlotInjective(a, b, cap);
    if i < b - a { SlotInjective(a + i, b, cap); }
  }

  /** Every access to a slot is ordered after the other thread's last access to it by a release
      store that the acquire load saw: element n is read only after the head store that
      published it, entry n + 1 of that word, and its slot is written only after the tail store
      that freed the slot's previous occupant, element n - capacity. So the plain buffer accesses
      never race. */
  predicate AccessesOrdered<T>(s: State<T>)
    requires |s.buf| > 0
  {
    && (s.consumer.CReady? ==> s.consumer.tail == Slot(|s.popped|, |s.buf|) && |s.popped| + 1 <= s.seenHead < |s.heads|)
    && (s.producer.PFree? ==>
          s.producer.head == Slot(|s.pushed|, |s.buf|) && |s.pushed| - |s.buf| + 1 <= s.seenTail < |s.tails|)
  }

  /** Over every schedule from the empty queue: what came out is a prefix of what went in, the
      rest is in the buffer in order, never more than Capacity - 1 of it, no access is out of
      bounds, a writer and a reader never meet in a slot, and no two accesses race. */
  lemma EveryScheduleIsFifo<T>(buf: seq<T>, schedule: seq<Action<T>>)
    requires Bits.PassesPowerOfTwoCheck(|buf|)
    ensures var s := Run(Init(buf), schedule);
            && s.Tail() < |s.buf| == |buf|
            && s.pushed == s.popped + Contents(s)
            && |Contents(s)| <= |buf| - 1
            && InRange(s)
            && (s.producer.PFree? && s.consumer.CReady? ==> s.producer.head != s.consumer.tail)
            && AccessesOrdered(s)
  {
    InitInv(buf);
    RunInv(Init(buf), schedule);
    FifoSafety(Run(Init(buf), schedule));
  }

  lemma FifoSafety<T>(s: State<T>)
    requires Inv(s)
    ensures s.Tail() < |s.buf| && s.pushed == s.popped + Contents(s) && |Contents(s)| <= |s.buf| - 1 && InRange(s)
    ensures s.producer.PFree? && s.consumer.CReady? ==> s.producer.head != s.consumer.tail
    ensures AccessesOrdered(s)
  {
    InvInRange(s);
    WordsAreSlots(s);
    ContentsAreFifo(s);
    NoSlotConflict(s, 0);
  }

  // ---- the demo: producer offers 0, 1, 2, ... ----

  /** The producer's loop: it retries value i until it is in, then goes on to i + 1. */
  predicate OffersInOrder(s: State<int>, schedule: seq<Action<int>>)
    decreases |schedule|
  {
    schedule == [] ||
    (&& (schedule[0].PLoadHead? ==> schedule[0].value == |s.pushed|)
     && OffersInOrder(Step(s, schedule[0]), schedule[1..]))
  }

  ghost predicate Counting(s: State<int>) {
    && (forall i :: 0 <= i < |s.pushed| ==> s.pushed[i] == i)
    && (!s.producer.PIdle? ==> s.producer.value == |s.pushed|)
  }

  lemma CountingStep(s: State<int>, a: Action<int>)
    requires Counting(s) && (a.PLoadHead? ==> a.value == |s.pushed|)
    ensures Counting(Step(s, a))
  {
  }

  lemma {:induction false} CountingRun(s: State<int>, schedule: seq<Action<int>>)
    requires Counting(s) && OffersInOrder(s, schedule)
    ensures Counting(Run(s, schedule)) == Counting(s)
    decreases |schedule|
  {
    if schedule != [] {
      CountingStep(s, schedule[0]);
      CountingRun(Step(s, schedule[0]), schedule[1..]);
    }
  }

  function Sum(xs: seq<int>): int {
    if xs == [] then 0 else Sum(xs[..|xs| - 1]) + xs[|xs| - 1]
  }

  lemma {:induction false} SumOfIota(xs: seq<int>)
    requires forall i :: 0 <= i < |xs| ==> xs[i] == i
    ensures 2 * Sum(xs) == |xs| * (|xs| - 1)
  {
    if xs != [] {
      SumOfIota(xs[..|xs| - 1]);
    }
  }

  /** Whatever the interleaving, when the consumer has received n values they are 0 .. n - 1 in
      order and their sum is n (n - 1) / 2. */
  lemma DemoSum(buf: seq<int>, schedule: seq<Action<int>>)
    requires Bits.PassesPowerOfTwoCheck(|buf|)
    requires OffersInOrder(Init(buf), schedule)
    ensures var got := Run(Init(buf), schedule).popped;
            && (forall i :: 0 <= i < |got| ==> got[i] == i)
            && 2 * Sum(got) == |got| * (|got| - 1)
  {
    CountingRun(Init(buf), schedule);
    EveryScheduleIsFifo(buf, schedule);
    var s := Run(Init(buf), schedule);
    assert forall i :: 0 <= i < |s.popped| ==> s.popped[i] == s.pushed[i];
    SumOfIota(s.popped);
  }

  /** What the threads do next on the way to the next received value: the consumer if there is
      something for it, otherwise the producer. */
  function Move(s: State<int>): Action<int> {
    if s.consumer.CTaken? then CStore
    else if s.consumer.CReady? then CRead
    else if s.consumer.CTail? then CLoadHead(|s.pushed|)
    else if |s.popped| < |s.pushed| then CLoadTail
    else match s.producer
      case PIdle => PLoadHead(|s.pushed|)
      case PHead(_, _) => PLoadTail(|s.popped|)
      case PFree(_, _, _) => PWrite
      case PFilled(_, _, _) => PStore
  }

  /** How many moves it takes at most. */
  function Moves(s: State<int>): nat {
    if s.consumer.CTaken? then 0
    else if s.consumer.CReady? then 1
    else if |s.popped| < |s.pushed| then (if s.consumer.CTail? then 2 else 3)
    else if s.consumer.CTail? then 8
    else match s.producer
      case PIdle => 7
      case PHead(_, _) => 6
      case PFree(_, _, _) => 5
      case PFilled(_, _, _) => 4
  }

  /** With a slot to spare, each move gets nearer to the next value, or receives it. */
  lemma MoveHelps(s: State<int>)
    requires Inv(s) && |s.buf| >= 2
    ensures var t := Step(s, Move(s)); |t.popped| > |s.popped| || (t.popped == s.popped && Moves(t) < Moves(s))
  {
    InvInRange(s);
    if s.consumer.CTail? { PopFailsIffEmpty(s, |s.pushed|); }
    if s.producer.PHead? { PushFailsIffFull(s, |s.popped|); }
  }

  /** So any number of values can still be received, whatever happened before. */
  lemma {:induction false} CanReceive(s: State<int>, n: nat) returns (more: seq<Action<int>>)
    requires Inv(s) && |s.buf| >= 2
    ensures OffersInOrder(s, more) && |Run(s, more).popped| >= n
    decreases n - |s.popped|, Moves(s)
  {
    more := [];
    if |s.popped| < n {
      MoveHelps(s);
      StepInv(s, Move(s));
      var rest := CanReceive(Step(s, Move(s)), n);
      more := [Move(s)] + rest;
      assert more[1..] == rest;
    }
  }

  /** A queue of capacity 1, which the static_assert lets through, is always full. */
  lemma {:induction false} SingleSlotIsFull(s: State<int>, schedule: seq<Action<int>>)
    requires Inv(s) && |s.buf| == 1 && s.pushed == []
    ensures Run(s, schedule).popped == []
    decreases |schedule|
  {
    if schedule != [] {
      StepInv(s, schedule[0]);
      StepHistory(s, schedule[0]);
      SingleSlotIsFull(Step(s, schedule[0]), schedule[1..]);
    }
  }

  ghost predicate CanFinish(s: State<int>, n: nat) {
    exists more :: OffersInOrder(s, more) && |Run(s, more).popped| >= n
  }

  /** After any schedule the demo can still come to receive n values, if and only if the queue has a
      second slot, or n is 0. */
  lemma DemoFinishesIff(buf: seq<int>, schedule: seq<Action<int>>, n: nat)
    requires Bits.PassesPowerOfTwoCheck(|buf|)
    ensures CanFinish(Run(Init(buf), schedule), n) <==> |buf| >= 2 || n == 0
  {
    var s := Run(Init(buf), schedule);
    InitInv(buf);
    RunInv(Init(buf), schedule);
    if |buf| >= 2 {
      var more := CanReceive(s, n);
      assert CanFinish(s, n);
    } else {
      assert OffersInOrder(s, []) && Run(s, []) == s;
      forall more ensures Run(s, more).popped == [] {
        RunJoins(Init(buf), schedule, more);
        SingleSlotIsFull(Init(buf), schedule + more);
      }
    }
  }

  lemma {:induction false} RunJoins<T>(s: State<T>, p: seq<Action<T>>, q: seq<Action<T>>)
    ensures Run(s, p + q) == Run(Run(s, p), q)
    decreases |p|
  {
    if p == [] {
      assert p + q == q;
    } else {
      RunJoins(Step(s, p[0]), p[1..], q);
      assert (p + q)[1..] == p[1..] + q;
    }
  }

  // ---- the queue itself, updated in place ----

  class Queue<T(0)> {
    const mask: nat
    const buf: array<T>
    var head: nat
    var tail: nat
    ghost var heads: seq<nat>
    ghost var tails: seq<nat>
    ghost var seenTail: nat
    ghost var seenHead: nat
    ghost var pushed: seq<T>
    ghost var popped: seq<T>

    /** The state of the machine while both threads are between calls. */
    ghost function View(): State<T>
      reads this, buf
    {
      State(mask, buf[..], heads, tails, seenTail, seenHead, PIdle, CIdle, pushed, popped)
    }

    ghost predicate Valid()
      reads this, buf
    {
      && Inv(View())
      && head == View().Head() < buf.Length
      && tail == View().Tail() < buf.Length
    }

    /** What is in the queue. */
    ghost function Elements(): seq<T>
      requires Valid()
      reads this, buf
    {
      pushed[|popped|..]
    }

    /** And where: in the slots from tail up to head. */
    lemma SlotsHoldElements()
      requires Valid()
      ensures Contents(View()) == Elements()
    {
      ContentsAreFifo(View());
    }

    constructor (capacity: nat)
      requires Bits.PassesPowerOfTwoCheck(capacity)
      ensures Valid() && fresh(buf) && buf.Length == capacity
      ensures View() == Init(buf[..])
    {
      mask := capacity - 1;
      buf := new T[capacity];
      head, tail := 0, 0;
      heads, tails, seenTail, seenHead := [0], [0], 0, 0;
      pushed, popped := [], [];
      new;
      InitInv(buf[..]);
      InvInRange(View());
    }

    /** A whole `try_push` that sees the latest tail: the four producer steps, and on the
        caller's side an enqueue that fails exactly on a full queue. */
    method TryPush(value: T) returns (ok: bool)
      requires Valid()
      modifies this`head, this`heads, this`seenTail, this`pushed, buf
      ensures Valid()
      ensures View() == Pushed(old(View()), value)
      ensures ok <==> |old(Elements())| < buf.Length - 1
      ensures Elements() == if ok then old(Elements()) + [value] else old(Elements())
      ensures Contents(View()) == Elements()
    {
      PushSeesFull(View());
      ok := PushChecked(value);
      SlotsHoldElements();
    }

    method PushChecked(value: T) returns (ok: bool)
      requires Valid()
      modifies this`head, this`heads, this`seenTail, this`pushed, buf
      ensures Valid() && View() == Pushed(old(View()), value)
      ensures ok <==> Bits.And(old(head) + 1, mask) != tail
    {
      PushedInv(View(), value);
      ok := PushWords(value);
    }

    /** Its statements, whatever the words mean. */
    method PushWords(value: T) returns (ok: bool)
      requires head == View().Head() < buf.Length && tail == View().Tail() && |tails| == |popped| + 1
      modifies this`head, this`heads, this`seenTail, this`pushed, buf
      ensures View() == Pushed(old(View()), value) && head == View().Head() && tail == View().Tail()
      ensures ok <==> Bits.And(old(head) + 1, mask) != tail
    {
      ghost var before := View();
      seenTail := |popped|;
      var h := head;
      var next := Bits.And(h + 1, mask);
      if next == tail {
        return false;
      }
      buf[h] := value;
      assert buf[..] == before.buf[h := value];
      head := next;
      heads, pushed := heads + [next], pushed + [value];
      return true;
    }

    /** A whole `try_pop` that sees the latest head: the four consumer steps, and a dequeue that
        fails exactly on an empty queue. */
    method TryPop() returns (r: Option<T>)
      requires Valid()
      modifies this`tail, this`tails, this`seenHead, this`popped
      ensures Valid()
      ensures View() == Popped(old(View()))
      ensures r.None? <==> old(Elements()) == []
      ensures old(Elements()) == (if r.Some? then [r.value] else []) + Elements()
      ensures popped == old(popped) + if r.Some? then [r.value] else []
      ensures Contents(View()) == Elements()
    {
      PopSeesEmpty(View());
      PoppedInv(View());
      r := PopChecked();
      SlotsHoldElements();
    }

    method PopChecked() returns (r: Option<T>)
      requires Valid()
      modifies this`tail, this`tails, this`seenHead, this`popped
      ensures Valid() && View() == Popped(old(View()))
      ensures r == if old(tail) == head then None else Some(buf[old(tail)])
    {
      PoppedInv(View());
      r := PopWords();
    }

    /** Its statements, whatever the words mean. */
    method PopWords() returns (r: Option<T>)
      requires head == View().Head() && tail == View().Tail() < buf.Length && |heads| == |pushed| + 1
      modifies this`tail, this`tails, this`seenHead, this`popped
      ensures View() == Popped(old(View())) && head == View().Head() && tail == View().Tail()
      ensures r == if old(tail) == head then None else Some(buf[old(tail)])
    {
      seenHead := |pushed|;
      var t := tail;
      if t == head { return None; }
      var value := buf[t];
      tail := Bits.And(t + 1, mask);
      tails, popped := tails + [tail], popped + [value];
      return Some(value);
    }
  }

  lemma RunFour<T>(s: State<T>, a: Action<T>, b: Action<T>, c: Action<T>, d: Action<T>)
    ensures Run(s, [a, b, c, d]) == Step(Step(Step(Step(s, a), b), c), d)
  {
    assert [a, b, c, d][1..] == [b, c, d] && [b, c, d][1..] == [c, d] && [c, d][1..] == [d];
    assert [d][1..] == [];
    var s2 := Step(Step(s, a), b);
    assert Run(s, [a, b, c, d]) == Run(s2, [c, d]);
    assert Run(s2, [c, d]) == Run(Step(s2, c), [d]);
    assert Run(Step(s2, c), [d]) == Run(Step(Step(s2, c), d), []);
  }

  /** try_push reads its own head and the newest tail, and either gives up or fills and publishes. */
  function Pushed<T>(s: State<T>, v: T): State<T>
    requires s.Head() < |s.buf| && s.tails != []
  {
    var next := Bits.And(s.Head() + 1, s.mask);
    if next == s.Tail() then s.(seenTail := |s.tails| - 1)
    else s.(buf := s.buf[s.Head() := v], heads := s.heads + [next], seenTail := |s.tails| - 1, pushed := s.pushed + [v])
  }

  lemma FourArePush<T>(s: State<T>, v: T, n: nat)
    requires s.producer.PIdle? && s.Head() < |s.buf| && s.seenTail <= n && n == |s.tails| - 1
    ensures Run(s, [PLoadHead(v), PLoadTail(n), PWrite, PStore]) == Pushed(s, v)
  {
    RunFour(s, PLoadHead(v), PLoadTail(n), PWrite, PStore);
    var next := Bits.And(s.Head() + 1, s.mask);
    var s2 := Step(Step(s, PLoadHead(v)), PLoadTail(n));
    assert s2 == if next == s.Tail() then s.(seenTail := n)
                 else s.(seenTail := n, producer := PFree(v, s.Head(), next));
  }

  lemma PushSeesFull<T>(s: State<T>)
    requires Inv(s) && s.producer.PIdle?
    ensures Bits.And(s.Head() + 1, s.mask) == s.Tail() <==> |s.pushed| - |s.popped| == |s.buf| - 1
  {
    WordsAreSlots(s);
    NextSlot(s, |s.pushed|, s.Head());
    SlotInjective(|s.popped|, |s.pushed| + 1, |s.buf|);
  }

  /** An uninterrupted `try_push`, seen from outside. */
  lemma WholePush<T>(s: State<T>, v: T)
    requires Inv(s) && s.producer.PIdle?
    ensures s.Head() < |s.buf|
    ensures Run(s, [PLoadHead(v), PLoadTail(|s.popped|), PWrite, PStore]) == Pushed(s, v) && Inv(Pushed(s, v))
  {
    InvInRange(s);
    FourArePush(s, v, |s.popped|);
    RunInv(s, [PLoadHead(v), PLoadTail(|s.popped|), PWrite, PStore]);
  }

  lemma PushedInv<T>(s: State<T>, v: T)
    requires Inv(s) && s.producer.PIdle? && s.Head() < |s.buf|
    ensures Inv(Pushed(s, v)) && Pushed(s, v).Head() < |s.buf|
  {
    WholePush(s, v);
    InvInRange(Pushed(s, v));
  }

  /** What it does to the queue: an enqueue that fails exactly on a full queue. */
  lemma PushEnqueues<T>(s: State<T>, v: T)
    requires Inv(s) && s.producer.PIdle?
    ensures s.Head() < |s.buf| && s.Tail() < |s.buf| && Inv(Pushed(s, v))
    ensures var full := Bits.And(s.Head() + 1, s.mask) == s.Tail();
            && (full <==> |Contents(s)| == |s.buf| - 1)
            && Contents(Pushed(s, v)) == if full then Contents(s) else Contents(s) + [v]
  {
    WholePush(s, v);
    PushSeesFull(s);
    ContentsAreFifo(s);
    ContentsGrow(s, Pushed(s, v));
  }

  lemma ContentsGrow<T>(s: State<T>, t: State<T>)
    requires Inv(s) && Inv(t) && t.popped == s.popped && s.pushed <= t.pushed
    ensures s.Tail() < |s.buf| && t.Tail() < |t.buf| && Contents(t) == Contents(s) + t.pushed[|s.pushed|..]
  {
    InvInRange(s);
    InvInRange(t);
    ContentsAreFifo(s);
    ContentsAreFifo(t);
  }

  /** try_pop reads its own tail and the newest head, and either gives up or takes and releases. */
  function Popped<T>(s: State<T>): State<T>
    requires s.Tail() < |s.buf| && s.heads != []
  {
    if s.Tail() == s.Head() then s.(seenHead := |s.heads| - 1)
    else s.(tails := s.tails + [Bits.And(s.Tail() + 1, s.mask)], seenHead := |s.heads| - 1,
            popped := s.popped + [s.buf[s.Tail()]])
  }

  lemma FourArePop<T>(s: State<T>, n: nat)
    requires s.consumer.CIdle? && s.Tail() < |s.buf| && s.seenHead <= n && n == |s.heads| - 1
    ensures Run(s, [CLoadTail, CLoadHead(n), CRead, CStore]) == Popped(s)
  {
    RunFour(s, CLoadTail, CLoadHead(n), CRead, CStore);
    var s2 := Step(Step(s, CLoadTail), CLoadHead(n));
    assert s2 == if s.Tail() == s.Head() then s.(seenHead := n) else s.(seenHead := n, consumer := CReady(s.Tail()));
  }

  /** An uninterrupted `try_pop`, seen from outside. */
  lemma WholePop<T>(s: State<T>)
    requires Inv(s) && s.consumer.CIdle?
    ensures s.Tail() < |s.buf|
    ensures Run(s, [CLoadTail, CLoadHead(|s.pushed|), CRead, CStore]) == Popped(s) && Inv(Popped(s))
  {
    InvInRange(s);
    FourArePop(s, |s.pushed|);
    RunInv(s, [CLoadTail, CLoadHead(|s.pushed|), CRead, CStore]);
  }

  lemma PopSeesEmpty<T>(s: State<T>)
    requires Inv(s) && s.consumer.CIdle?
    ensures s.Tail() == s.Head() <==> |s.popped| == |s.pushed|
  {
    WordsAreSlots(s);
    SlotInjective(|s.popped|, |s.pushed|, |s.buf|);
  }

  lemma PoppedInv<T>(s: State<T>)
    requires Inv(s) && s.consumer.CIdle? && s.Tail() < |s.buf|
    ensures Inv(Popped(s)) && Popped(s).Tail() < |s.buf|
    ensures s.Tail() != s.Head() ==> |s.popped| < |s.pushed| && s.buf[s.Tail()] == s.pushed[|s.popped|]
  {
    WholePop(s);
    InvInRange(Popped(s));
    PopSeesEmpty(s);
    WordsAreSlots(s);
  }

  /** What it does to the queue: a dequeue that fails exactly on an empty queue. */
  lemma PopDequeues<T>(s: State<T>)
    requires Inv(s) && s.consumer.CIdle?
    ensures s.Tail() < |s.buf| && Inv(Popped(s)) && Popped(s).Tail() < |s.buf|
    ensures s.Tail() == s.Head() <==> Contents(s) == []
    ensures Contents(s) == (if s.Tail() == s.Head() then [] else [s.buf[s.Tail()]]) + Contents(Popped(s))
  {
    WholePop(s);
    PopSeesEmpty(s);
    ContentsAreFifo(s);
    ContentsAreFifo(Popped(s));
    InvInRange(Popped(s));
  }
}
