/** The asynchronous server of grpc_proto/08_grpc_async.cpp: `CallData` objects that pass through
    CREATE, PROCESS and FINISH, driven by any number of threads draining one completion queue.

    The completion queue is the bag of outstanding operations; `Next` hands out any of them.
    The body of `Proceed` is cut at every point where another thread can notice: after each write
    of `state_`, each registration with the queue, each allocation and each deletion. Touching an
    object that is not alive is recorded as a fault. */
module AsyncServer {
  import opened Counting

  type Tag = nat

  datatype CallState = CREATE | PROCESS | FINISH

  /** What an outstanding operation waits for: a new call, or the response having been sent. */
  datatype Op = NewCall | Sent

  datatype Event = Event(tag: Tag, op: Op)

  /** A bag of operations, those of each sort apart. */
  datatype Ops = Ops(newCalls: multiset<Tag>, sent: multiset<Tag>)
  {
    predicate Has(e: Event) {
      if e.op.NewCall? then e.tag in newCalls else e.tag in sent
    }

    function Add(e: Event): Ops {
      if e.op.NewCall? then this.(newCalls := newCalls + multiset{e.tag}) else this.(sent := sent + multiset{e.tag})
    }

    function Remove(e: Event): Ops {
      if e.op.NewCall? then this.(newCalls := newCalls - multiset{e.tag}) else this.(sent := sent - multiset{e.tag})
    }

    function Of(t: Tag): nat {
      newCalls[t] + sent[t]
    }
  }

  /** Where a drain thread is; `tag` is the object whose `Proceed` it runs. */
  datatype Worker =
    | Waiting
    | Dispatch(tag: Tag, op: Op)              // Next returned; about to read state_
    | Spawning(tag: Tag)                      // about to allocate the next listener
    | Constructing(tag: Tag, heir: Tag)      // allocated, its state_ is CREATE
    | Registering(tag: Tag, heir: Tag)       // its state_ is PROCESS; about to request a call
    | Handling(tag: Tag)                      // about to set state_ = FINISH
    | Finishing(tag: Tag)                     // about to call Finish
    | Deleting(tag: Tag)

  /** Live objects, outstanding operations, threads, and histories: calls taken, responses
      started, objects deleted, events dropped because of ok == false, and faults. */
  datatype Server = Server(
    objects: map<Tag, CallState>, next: Tag, pending: Ops, workers: seq<Worker>,
    calls: nat, answered: seq<Tag>, deleted: seq<Tag>, dropped: Ops, faults: nat)

  datatype Action =
    | Next(worker: nat, event: Event, ok: bool)   // a thread's cq->Next; !ok after shutdown, or if the peer is gone
    | Work(worker: nat)                           // a thread's next piece of Proceed

  /** main seeds one listener before it starts the threads. */
  function Init(n: nat): Server {
    Server(map[0 := PROCESS], 1, Ops(multiset{0}, multiset{}), seq(n, i => Waiting), 0, [], [],
           Ops(multiset{}, multiset{}), 0)
  }

  function Goto(s: Server, w: nat, worker: Worker): Server
    requires w < |s.workers|
  {
    s.(workers := s.workers[w := worker])
  }

  /** Any access to an object. */
  function Touch(s: Server, t: Tag): Server {
    if t in s.objects then s else s.(faults := s.faults + 1)
  }

  function Proceed(s: Server, w: nat): Server
    requires w < |s.workers|
  {
    match s.workers[w]
    case Waiting => s
    case Dispatch(t, _) =>
      if t !in s.objects then Goto(Touch(s, t), w, Waiting) else
      (match s.objects[t]
       case CREATE =>
         Goto(s.(objects := s.objects[t := PROCESS], pending := s.pending.Add(Event(t, NewCall))), w, Waiting)
       case PROCESS => Goto(s, w, Spawning(t))
       case FINISH => Goto(s, w, Deleting(t)))
    case Spawning(t) =>
      Goto(s.(objects := s.objects[s.next := CREATE], next := s.next + 1), w, Constructing(t, s.next))
    case Constructing(t, heir) =>
      Goto(Touch(s, heir).(objects := s.objects[heir := PROCESS]), w, Registering(t, heir))
    case Registering(t, heir) =>
      Goto(Touch(s, heir).(pending := s.pending.Add(Event(heir, NewCall))), w, Handling(t))
    case Handling(t) =>
      Goto(Touch(s, t).(objects := s.objects[t := FINISH]), w, Finishing(t))
    case Finishing(t) =>
      Goto(Touch(s, t).(pending := s.pending.Add(Event(t, Sent)), answered := s.answered + [t]), w, Waiting)
    case Deleting(t) =>
      Goto(Touch(s, t).(objects := s.objects - {t}, deleted := s.deleted + [t]), w, Waiting)
  }

  /** A thread takes an event and will run its object's Proceed. */
  function Take(s: Server, w: nat, e: Event): Server
    requires w < |s.workers|
  {
    Goto(s.(pending := s.pending.Remove(e), calls := s.calls + (if e.op.NewCall? then 1 else 0)),
         w, Dispatch(e.tag, e.op))
  }

  /** A thread takes an event with ok == false and ignores it. */
  function Drop(s: Server, e: Event): Server {
    s.(pending := s.pending.Remove(e), dropped := s.dropped.Add(e))
  }

  predicate CanTake(s: Server, w: nat, e: Event) {
    w < |s.workers| && s.workers[w] == Waiting && s.pending.Has(e)
  }

  function Step(s: Server, a: Action): Server {
    match a
    case Next(w, e, ok) =>
      if !CanTake(s, w, e) then s else if ok then Take(s, w, e) else Drop(s, e)
    case Work(w) => if w < |s.workers| then Proceed(s, w) else s
  }

  function Run(s: Server, schedule: seq<Action>): Server
    decreases |schedule|
  {
    if schedule == [] then s else Run(Step(s, schedule[0]), schedule[1..])
  }

  // ---- counting threads ----

  datatype Kind =
    | Holds(tag: Tag)      // inside that object's Proceed, or constructing it
    | Closing(tag: Tag)    // working on its Sent event
    | Replacing            // between taking a call and registering the next listener
    | Answering            // between taking a call and starting its response

  predicate Is(w: Worker, k: Kind) {
    match k
    case Holds(t) =>
      && !w.Waiting?
      && (w.tag == t || ((w.Constructing? || w.Registering?) && w.heir == t))
    case Closing(t) => w == Dispatch(t, Sent) || w == Deleting(t)
    case Replacing => (w.Dispatch? && w.op.NewCall?) || w.Spawning? || w.Constructing? || w.Registering?
    case Answering => (w.Dispatch? && w.op.NewCall?) || w.Spawning? || w.Constructing? || w.Registering?
                      || w.Handling? || w.Finishing?
  }

  function One(b: bool): nat { if b then 1 else 0 }

  function Tally(ws: seq<Worker>, k: Kind): nat {
    if ws == [] then 0 else One(Is(ws[0], k)) + Tally(ws[1..], k)
  }

  lemma {:induction false} TallyUpdate(ws: seq<Worker>, i: nat, w: Worker, k: Kind)
    requires i < |ws|
    ensures Tally(ws[i := w], k) + One(Is(ws[i], k)) == Tally(ws, k) + One(Is(w, k))
  {
    if i == 0 {
      assert ws[0 := w][1..] == ws[1..];
    } else {
      TallyUpdate(ws[1..], i - 1, w, k);
      assert ws[i := w][1..] == ws[1..][i - 1 := w];
    }
  }

  lemma {:induction false} TallyZero(ws: seq<Worker>, k: Kind)
    ensures Tally(ws, k) == 0 <==> forall i :: 0 <= i < |ws| ==> !Is(ws[i], k)
  {
    if ws != [] {
      TallyZero(ws[1..], k);
      assert forall i :: 1 <= i < |ws| ==> ws[i] == ws[1..][i - 1];
    }
  }

  /** If one thread is of a kind and at most one is, no other is. */
  lemma OnlyOne(ws: seq<Worker>, i: nat, j: nat, k: Kind)
    requires i < |ws| && j < |ws| && i != j && Is(ws[i], k) && Tally(ws, k) <= 1
    ensures !Is(ws[j], k)
  {
    TallyUpdate(ws, i, Waiting, k);
    TallyZero(ws[i := Waiting], k);
    assert ws[i := Waiting][j] == ws[j];
  }

  // ---- the invariant ----

  /** A live object has exactly one of: an outstanding operation, a thread working on it, or an
      event that was dropped. A dead or future object has none. */
  ghost predicate OneToken(s: Server, t: Tag) {
    s.pending.Of(t) + s.dropped.Of(t) + Tally(s.workers, Holds(t)) == One(t in s.objects)
  }

  /** Responses started for an object: those whose object is gone, and the one still on its way. */
  ghost predicate AnsweredOnce(s: Server, t: Tag) {
    && multiset(s.answered)[t] ==
       multiset(s.deleted)[t] + s.pending.sent[t] + s.dropped.sent[t] + Tally(s.workers, Closing(t))
    && multiset(s.deleted)[t] == One(t < s.next && t !in s.objects)
    && (t in s.objects ==> t < s.next)
  }

  /** Alive or not, and in which state. */
  datatype Status = Dead | Live(state: CallState)

  function StatusOf(s: Server, t: Tag): Status {
    if t in s.objects then Live(s.objects[t]) else Dead
  }

  /** The object's state fits the operation it waits for. */
  ghost predicate EventOk(s: Server, e: Event) {
    StatusOf(s, e.tag) == Live(if e.op.NewCall? then PROCESS else FINISH)
  }

  /** The state of the object whose Proceed a thread runs, at each position. */
  function Expected(w: Worker): CallState {
    if w.Finishing? || w.Deleting? || (w.Dispatch? && w.op.Sent?) then FINISH else PROCESS
  }

  /** The objects' states fit the thread's position in its code. */
  ghost predicate WorkerOk(s: Server, w: Worker) {
    && (w.Waiting? || StatusOf(s, w.tag) == Live(Expected(w)))
    && (w.Constructing? || w.Registering? ==>
          w.heir != w.tag && StatusOf(s, w.heir) == Live(if w.Constructing? then CREATE else PROCESS))
  }

  /** No fault; one listener, be it registered, about to be, or dropped; and every call taken is
      answered or in the hands of a thread. */
  ghost predicate Counts(s: Server) {
    (s.faults, |s.pending.newCalls| + |s.dropped.newCalls| + Tally(s.workers, Replacing),
     |s.answered| + Tally(s.workers, Answering)) == (0, 1, s.calls)
  }

  ghost predicate Inv(s: Server) {
    && Counts(s)
    && (forall t: Tag :: OneToken(s, t) && AnsweredOnce(s, t))
    && (forall e: Event :: s.pending.Has(e) ==> EventOk(s, e))
    && (forall w :: 0 <= w < |s.workers| ==> WorkerOk(s, s.workers[w]))
  }

  lemma {:induction false} NobodyBusy(ws: seq<Worker>, k: Kind)
    requires forall i :: 0 <= i < |ws| ==> ws[i] == Waiting
    ensures Tally(ws, k) == 0
  {
    if ws != [] { NobodyBusy(ws[1..], k); }
  }

  lemma InitTokens(n: nat, t: Tag)
    ensures OneToken(Init(n), t) && AnsweredOnce(Init(n), t)
  {
    NobodyBusy(Init(n).workers, Holds(t));
    NobodyBusy(Init(n).workers, Closing(t));
  }

  lemma InitInv(n: nat)
    ensures Inv(Init(n))
  {
    var s := Init(n);
    NobodyBusy(s.workers, Replacing);
    NobodyBusy(s.workers, Answering);
    forall t: Tag ensures OneToken(s, t) && AnsweredOnce(s, t) {
      InitTokens(n, t);
    }
  }

  /** A thread inside an object's code is the only one to know of it. */
  lemma Exclusive(s: Server, w: nat, t: Tag)
    requires Inv(s) && w < |s.workers| && Is(s.workers[w], Holds(t))
    ensures t in s.objects
    ensures !s.pending.Has(Event(t, NewCall)) && !s.pending.Has(Event(t, Sent))
    ensures forall v :: 0 <= v < |s.workers| && v != w ==> !Is(s.workers[v], Holds(t))
  {
    assert OneToken(s, t);
    TallyZero(s.workers, Holds(t));
    forall v | 0 <= v < |s.workers| && v != w ensures !Is(s.workers[v], Holds(t)) {
      OnlyOne(s.workers, w, v, Holds(t));
    }
  }

  // ---- taking an event ----

  lemma TakeTokens(s: Server, w: nat, e: Event, t: Tag)
    requires OneToken(s, t) && AnsweredOnce(s, t) && CanTake(s, w, e)
    ensures OneToken(Take(s, w, e), t) && AnsweredOnce(Take(s, w, e), t)
  {
    var v := Dispatch(e.tag, e.op);
    TallyUpdate(s.workers, w, v, Holds(t));
    TallyUpdate(s.workers, w, v, Closing(t));
    TakenOf(s.pending, e, t);
  }

  /** Taking an event moves its token to the thread. */
  lemma TakenOf(ops: Ops, e: Event, t: Tag)
    requires ops.Has(e)
    ensures One(Is(Dispatch(e.tag, e.op), Holds(t))) + ops.Remove(e).Of(t) == ops.Of(t)
    ensures One(Is(Dispatch(e.tag, e.op), Closing(t))) + ops.Remove(e).sent[t] == ops.sent[t]
  {
  }

  /** Dropping an event moves its token to the dropped ones. */
  lemma DroppedOf(from: Ops, to: Ops, e: Event, t: Tag)
    requires from.Has(e)
    ensures from.Remove(e).Of(t) + to.Add(e).Of(t) == from.Of(t) + to.Of(t)
    ensures from.Remove(e).sent[t] + to.Add(e).sent[t] == from.sent[t] + to.sent[t]
    ensures |from.Remove(e).newCalls| + |to.Add(e).newCalls| == |from.newCalls| + |to.newCalls|
  {
  }

  lemma DropTokens(s: Server, e: Event, t: Tag)
    requires OneToken(s, t) && AnsweredOnce(s, t) && s.pending.Has(e)
    ensures OneToken(Drop(s, e), t) && AnsweredOnce(Drop(s, e), t)
  {
    DroppedOf(s.pending, s.dropped, e, t);
  }

  lemma TakeCounts(s: Server, w: nat, e: Event)
    requires Counts(s) && CanTake(s, w, e)
    ensures Counts(Take(s, w, e))
  {
    var v := Dispatch(e.tag, e.op);
    TallyUpdate(s.workers, w, v, Replacing);
    TallyUpdate(s.workers, w, v, Answering);
    assert |s.pending.Remove(e).newCalls| == |s.pending.newCalls| - One(e.op.NewCall?);
  }

  lemma DropCounts(s: Server, e: Event)
    requires Counts(s) && s.pending.Has(e)
    ensures Counts(Drop(s, e))
  {
    DroppedOf(s.pending, s.dropped, e, e.tag);
  }

  lemma StillPending(ops: Ops, e: Event, f: Event)
    requires ops.Remove(e).Has(f)
    ensures ops.Has(f)
  {
  }

  lemma TakeInv(s: Server, w: nat, e: Event)
    requires Inv(s) && CanTake(s, w, e)
    ensures Inv(Take(s, w, e))
  {
    var s' := Take(s, w, e);
    TakeCounts(s, w, e);
    forall t: Tag ensures OneToken(s', t) && AnsweredOnce(s', t) {
      assert OneToken(s, t) && AnsweredOnce(s, t);
      TakeTokens(s, w, e, t);
    }
    forall f: Event | s'.pending.Has(f) ensures EventOk(s', f) {
      StillPending(s.pending, e, f);
      assert EventOk(s, f);
    }
    assert EventOk(s, e);
    forall v | 0 <= v < |s'.workers| ensures WorkerOk(s', s'.workers[v]) {
      assert WorkerOk(s, s.workers[v]);
    }
  }

  lemma DropInv(s: Server, e: Event)
    requires Inv(s) && s.pending.Has(e)
    ensures Inv(Drop(s, e))
  {
    var s' := Drop(s, e);
    DropCounts(s, e);
    forall t: Tag ensures OneToken(s', t) && AnsweredOnce(s', t) {
      assert OneToken(s, t) && AnsweredOnce(s, t);
      DropTokens(s, e, t);
    }
    forall f: Event | s'.pending.Has(f) ensures EventOk(s', f) {
      StillPending(s.pending, e, f);
      assert EventOk(s, f);
    }
    forall v | 0 <= v < |s'.workers| ensures WorkerOk(s', s'.workers[v]) {
      assert WorkerOk(s, s.workers[v]);
    }
  }

  // ---- the pieces of Proceed ----

  /** One piece of code leaves every object with its one token and its one answer. */
  lemma WorkTokens(s: Server, w: nat, t: Tag)
    requires w < |s.workers| && WorkerOk(s, s.workers[w])
    requires OneToken(s, t) && AnsweredOnce(s, t) && s.next !in s.objects
    ensures OneToken(Proceed(s, w), t) && AnsweredOnce(Proceed(s, w), t)
  {
    if s.workers[w].Dispatch? {
      DispatchTokens(s, w, t);
    } else if !s.workers[w].Waiting? {
      PieceTokens(s, w, t);
    }
  }

  lemma DispatchGoes(s: Server, w: nat)
    requires w < |s.workers| && s.workers[w].Dispatch? && WorkerOk(s, s.workers[w])
    ensures var t := s.workers[w].tag;
            Proceed(s, w) == Goto(s, w, if s.workers[w].op.NewCall? then Spawning(t) else Deleting(t))
  {
  }

  lemma DispatchTokens(s: Server, w: nat, t: Tag)
    requires w < |s.workers| && s.workers[w].Dispatch? && WorkerOk(s, s.workers[w])
    requires OneToken(s, t) && AnsweredOnce(s, t)
    ensures OneToken(Proceed(s, w), t) && AnsweredOnce(Proceed(s, w), t)
  {
    var t0 := s.workers[w].tag;
    var worker := if s.workers[w].op.NewCall? then Spawning(t0) else Deleting(t0);
    DispatchGoes(s, w);
    TallyUpdate(s.workers, w, worker, Holds(t));
    TallyUpdate(s.workers, w, worker, Closing(t));
    assert Is(worker, Holds(t)) == Is(s.workers[w], Holds(t));
    assert Is(worker, Closing(t)) == Is(s.workers[w], Closing(t));
  }

  /** What a piece of code does to the token of one object: it goes from hand to hand, to the queue,
      or away with the object. */
  lemma TokenMoves(s: Server, w: nat, t: Tag)
    requires w < |s.workers| && WorkerOk(s, s.workers[w]) && !s.workers[w].Waiting? && !s.workers[w].Dispatch?
    requires s.next !in s.objects
    ensures var s', v := Proceed(s, w), s.workers[w];
            && s'.workers == s.workers[w := s'.workers[w]] && s'.dropped == s.dropped
            && s'.pending.Of(t) + One(Is(s'.workers[w], Holds(t))) + One(t in s.objects)
               == s.pending.Of(t) + One(Is(v, Holds(t))) + One(t in s'.objects)
  {
  }

  /** What a piece of code adds to the histories. */
  ghost predicate Recorded(s: Server, v: Worker, s': Server) {
    (s'.answered, s'.deleted, s'.pending.sent)
    == (if v.Finishing? then s.answered + [v.tag] else s.answered,
        if v.Deleting? then s.deleted + [v.tag] else s.deleted,
        if v.Finishing? then s.pending.sent + multiset{v.tag} else s.pending.sent)
  }

  lemma PieceRecords(s: Server, w: nat, t: Tag)
    requires w < |s.workers| && WorkerOk(s, s.workers[w]) && !s.workers[w].Waiting? && !s.workers[w].Dispatch?
    ensures Recorded(s, s.workers[w], Proceed(s, w))
    ensures Is(s.workers[w], Closing(t)) <==> s.workers[w] == Deleting(t)
    ensures !Is(Proceed(s, w).workers[w], Closing(t))
  {
  }

  /** And to its answer: a response is started, or its object deleted. */
  lemma AnswerMoves(s: Server, v: Worker, s': Server, t: Tag)
    requires Recorded(s, v, s')
    ensures multiset(s'.answered)[t] == multiset(s.answered)[t] + One(v == Finishing(t))
    ensures s'.pending.sent[t] == s.pending.sent[t] + One(v == Finishing(t))
    ensures multiset(s'.deleted)[t] == multiset(s.deleted)[t] + One(v == Deleting(t))
  {
  }

  lemma GoneMoves(s: Server, w: nat, t: Tag)
    requires w < |s.workers| && WorkerOk(s, s.workers[w]) && !s.workers[w].Waiting? && !s.workers[w].Dispatch?
    requires s.next !in s.objects && (t in s.objects ==> t < s.next)
    ensures var s', v := Proceed(s, w), s.workers[w];
            && One(t < s'.next && t !in s'.objects) == One(t < s.next && t !in s.objects) + One(v == Deleting(t))
            && (t in s'.objects ==> t < s'.next)
  {
  }

  lemma PieceTokens(s: Server, w: nat, t: Tag)
    requires w < |s.workers| && WorkerOk(s, s.workers[w]) && !s.workers[w].Waiting? && !s.workers[w].Dispatch?
    requires OneToken(s, t) && AnsweredOnce(s, t) && s.next !in s.objects
    ensures OneToken(Proceed(s, w), t) && AnsweredOnce(Proceed(s, w), t)
  {
    TokenMoves(s, w, t);
    PieceRecords(s, w, t);
    AnswerMoves(s, s.workers[w], Proceed(s, w), t);
    GoneMoves(s, w, t);
    TallyUpdate(s.workers, w, Proceed(s, w).workers[w], Holds(t));
    TallyUpdate(s.workers, w, Proceed(s, w).workers[w], Closing(t));
  }

  lemma WorkCounts(s: Server, w: nat)
    requires w < |s.workers| && WorkerOk(s, s.workers[w]) && Counts(s)
    ensures Counts(Proceed(s, w))
  {
    if s.workers[w].Dispatch? {
      DispatchGoes(s, w);
    }
    if !s.workers[w].Waiting? {
      PieceCounts(s, w);
    }
  }

  lemma PieceCounts(s: Server, w: nat)
    requires w < |s.workers| && WorkerOk(s, s.workers[w]) && Counts(s) && !s.workers[w].Waiting?
    ensures Counts(Proceed(s, w))
  {
    var s' := Proceed(s, w);
    PieceEffects(s, w);
    TallyUpdate(s.workers, w, s'.workers[w], Replacing);
    TallyUpdate(s.workers, w, s'.workers[w], Answering);
  }

  /** What a piece of code adds to the histories, and where it leaves its thread. */
  lemma PieceEffects(s: Server, w: nat)
    requires w < |s.workers| && WorkerOk(s, s.workers[w]) && !s.workers[w].Waiting?
    ensures var s', v := Proceed(s, w), s.workers[w];
            && |s'.workers| == |s.workers| && s'.workers == s.workers[w := s'.workers[w]]
            && s'.faults == s.faults && s'.calls == s.calls && s'.dropped == s.dropped
            && |s'.pending.newCalls| == |s.pending.newCalls| + One(v.Registering?)
            && |s'.answered| == |s.answered| + One(v.Finishing?)
            && One(Is(s'.workers[w], Replacing)) + One(v.Registering?) == One(Is(v, Replacing))
            && One(Is(s'.workers[w], Answering)) + One(v.Finishing?) == One(Is(v, Answering))
  {
    if s.workers[w].Dispatch? { DispatchGoes(s, w); }
  }

  /** The one object whose state a piece of code changes. */
  function Changed(w: Worker): set<Tag> {
    match w
    case Constructing(_, heir) => {heir}
    case Handling(t) => {t}
    case Deleting(t) => {t}
    case _ => {}
  }

  /** A piece of code that leaves an object alone leaves those who hold it, or wait for it, right. */
  lemma StillOk(s: Server, w: nat, v: Worker)
    requires w < |s.workers| && WorkerOk(s, s.workers[w]) && WorkerOk(s, v) && s.next !in s.objects
    requires forall t: Tag :: Is(v, Holds(t)) ==> t !in Changed(s.workers[w])
    ensures WorkerOk(Proceed(s, w), v)
  {
    assert !v.Waiting? ==> Is(v, Holds(v.tag));
    assert v.Constructing? || v.Registering? ==> Is(v, Holds(v.heir));
  }

  /** The thread itself is right about the object it holds. */
  lemma SelfOk(s: Server, w: nat)
    requires w < |s.workers| && WorkerOk(s, s.workers[w]) && s.next !in s.objects
    ensures WorkerOk(Proceed(s, w), Proceed(s, w).workers[w])
  {
  }

  lemma PendingOk(s: Server, w: nat, e: Event)
    requires Inv(s) && w < |s.workers| && s.next !in s.objects && Proceed(s, w).pending.Has(e)
    ensures EventOk(Proceed(s, w), e)
  {
    assert WorkerOk(s, s.workers[w]);
    if s.pending.Has(e) {
      assert EventOk(s, e);
      if e.tag in Changed(s.workers[w]) { Exclusive(s, w, e.tag); }
    }
  }

  lemma WorkersOk(s: Server, w: nat)
    requires Inv(s) && w < |s.workers| && s.next !in s.objects
    ensures var s' := Proceed(s, w); forall v :: 0 <= v < |s'.workers| ==> WorkerOk(s', s'.workers[v])
  {
    var s' := Proceed(s, w);
    forall v | 0 <= v < |s'.workers| ensures WorkerOk(s', s'.workers[v]) {
      if v == w { SelfOk(s, w); } else { OtherOk(s, w, v); }
    }
  }

  lemma WorkInv(s: Server, w: nat)
    requires Inv(s) && w < |s.workers|
    ensures Inv(Proceed(s, w))
  {
    var s' := Proceed(s, w);
    assert WorkerOk(s, s.workers[w]);
    assert AnsweredOnce(s, s.next);
    WorkCounts(s, w);
    WorkersOk(s, w);
    forall t: Tag ensures OneToken(s', t) && AnsweredOnce(s', t) {
      assert OneToken(s, t) && AnsweredOnce(s, t);
      WorkTokens(s, w, t);
    }
    forall e: Event | s'.pending.Has(e) ensures EventOk(s', e) {
      PendingOk(s, w, e);
    }
  }

  lemma OtherOk(s: Server, w: nat, v: nat)
    requires Inv(s) && w < |s.workers| && v < |s.workers| && v != w && s.next !in s.objects
    ensures WorkerOk(Proceed(s, w), s.workers[v]) && Proceed(s, w).workers[v] == s.workers[v]
  {
    assert WorkerOk(s, s.workers[w]) && WorkerOk(s, s.workers[v]);
    forall t: Tag | Is(s.workers[v], Holds(t)) ensures t !in Changed(s.workers[w]) {
      if t in Changed(s.workers[w]) { Exclusive(s, w, t); }
    }
    StillOk(s, w, s.workers[v]);
  }

  lemma StepInv(s: Server, a: Action)
    requires Inv(s)
    ensures Inv(Step(s, a))
  {
    match a
    case Next(w, e, ok) =>
      if CanTake(s, w, e) {
        if ok { TakeInv(s, w, e); } else { DropInv(s, e); }
      }
    case Work(w) =>
      if w < |s.workers| { WorkInv(s, w); }
  }

  lemma {:induction false} RunInv(s: Server, schedule: seq<Action>)
    requires Inv(s)
    ensures Inv(Run(s, schedule)) == Inv(s)
    decreases |schedule|
  {
    if schedule != [] {
      StepInv(s, schedule[0]);
      RunInv(Step(s, schedule[0]), schedule[1..]);
    }
  }

  // ---- the guarantees ----

  /** Over every run with any number of threads: no object is touched before it is allocated or
      after it is deleted; a live object has exactly one outstanding or dropped event or one
      thread inside it; every object that was ever allocated is alive or was deleted exactly once;
      none is answered twice, and none is deleted unanswered; and there is always exactly one
      listener, registered, in the making, or dropped. */
  lemma LifecycleIsSound(n: nat, schedule: seq<Action>, t: Tag)
    ensures var s := Run(Init(n), schedule);
            && s.faults == 0
            && (t in s.objects <==> s.pending.Of(t) + s.dropped.Of(t) + Tally(s.workers, Holds(t)) == 1)
            && multiset(s.deleted)[t] == One(t < s.next && t !in s.objects)
            && multiset(s.deleted)[t] <= multiset(s.answered)[t] <= 1
            && |s.pending.newCalls| + |s.dropped.newCalls| + Tally(s.workers, Replacing) == 1
  {
    InitInv(n);
    RunInv(Init(n), schedule);
    var s := Run(Init(n), schedule);
    assert OneToken(s, t) && AnsweredOnce(s, t);
    ClosingHolds(s.workers, t);
  }

  lemma {:induction false} ClosingHolds(ws: seq<Worker>, t: Tag)
    ensures Tally(ws, Closing(t)) <= Tally(ws, Holds(t))
  {
    if ws != [] { ClosingHolds(ws[1..], t); }
  }

  ghost predicate AllWaiting(s: Server) {
    forall w :: 0 <= w < |s.workers| ==> s.workers[w] == Waiting
  }

  /** When no thread is inside a handler, every call taken has been answered, and what is alive
      is exactly what still has an outstanding or dropped event. */
  lemma NothingInFlight(n: nat, schedule: seq<Action>, t: Tag)
    requires AllWaiting(Run(Init(n), schedule))
    ensures var s := Run(Init(n), schedule);
            && |s.answered| == s.calls
            && (t in s.objects <==> s.pending.Of(t) + s.dropped.Of(t) == 1)
            && |s.pending.newCalls| + |s.dropped.newCalls| == 1
  {
    InitInv(n);
    RunInv(Init(n), schedule);
    var s := Run(Init(n), schedule);
    assert OneToken(s, t);
    TallyZero(s.workers, Replacing);
    TallyZero(s.workers, Answering);
    TallyZero(s.workers, Holds(t));
  }

  /** The drain loop skips events with ok == false and so never deletes their objects: once the
      queue is drained and the threads are back, the objects left are exactly the dropped ones,
      and there is always one, the listener. */
  lemma ShutdownLeaksDropped(n: nat, schedule: seq<Action>)
    requires var s := Run(Init(n), schedule); AllWaiting(s) && s.pending == Ops(multiset{}, multiset{})
    ensures var s := Run(Init(n), schedule);
            && (forall t: Tag :: t in s.objects <==> s.dropped.Of(t) == 1)
            && exists t: Tag :: t in s.objects && s.dropped.newCalls == multiset{t}
  {
    var s := Run(Init(n), schedule);
    forall t: Tag ensures t in s.objects <==> s.dropped.Of(t) == 1 {
      NothingInFlight(n, schedule, t);
    }
    NothingInFlight(n, schedule, 0);
    var t :| t in s.dropped.newCalls;
    assert |s.dropped.newCalls - multiset{t}| == 0;
    assert s.dropped.newCalls - multiset{t} == multiset{};
    assert s.dropped.newCalls == multiset{t};
    InitInv(n);
    RunInv(Init(n), schedule);
    assert OneToken(s, t);
  }

  /** Such a run: the listener's event arrives with ok == false, and it is left over. */
  lemma LeakingRun()
    ensures var s := Run(Init(1), [Next(0, Event(0, NewCall), false)]);
            && AllWaiting(s) && s.pending == Ops(multiset{}, multiset{})
            && s.deleted == [] && s.objects == map[0 := PROCESS]
  {
    var a := Next(0, Event(0, NewCall), false);
    assert [a][1..] == [];
    assert Run(Init(1), [a]) == Run(Step(Init(1), a), []);
  }

  // ---- progress: every event taken costs a fixed number of pieces ----

  /** The pieces of code a thread has still to execute before it waits again. */
  function Left(w: Worker): int {
    match w
    case Waiting => 0
    case Dispatch(_, op) => EventCost(op)
    case Spawning(_) => 5
    case Constructing(_, _) => 4
    case Registering(_, _) => 3
    case Handling(_) => 2
    case Finishing(_) => 1
    case Deleting(_) => 1
  }

  /** Handling a call takes six pieces, deleting an object two. */
  function EventCost(op: Op): nat { if op.NewCall? then 6 else 2 }

  /** Pieces of Proceed that were executed. */
  function Executed(s: Server, schedule: seq<Action>): nat
    decreases |schedule|
  {
    if schedule == [] then 0 else
    var a := schedule[0];
    One(a.Work? && a.worker < |s.workers| && !s.workers[a.worker].Waiting?) + Executed(Step(s, a), schedule[1..])
  }

  /** What the events taken with ok == true cost. */
  function Supplied(s: Server, schedule: seq<Action>): nat
    decreases |schedule|
  {
    if schedule == [] then 0 else
    var a := schedule[0];
    (if a.Next? && a.ok && CanTake(s, a.worker, a.event) then EventCost(a.event.op) else 0)
    + Supplied(Step(s, a), schedule[1..])
  }

  /** Each piece is one less. */
  lemma PieceLeft(s: Server, w: nat)
    requires w < |s.workers| && WorkerOk(s, s.workers[w]) && !s.workers[w].Waiting?
    ensures var v := Proceed(s, w).workers; v == s.workers[w := v[w]] && Left(v[w]) == Left(s.workers[w]) - 1
  {
    if s.workers[w].Dispatch? { DispatchGoes(s, w); }
  }

  lemma StepExecutes(s: Server, a: Action)
    requires Inv(s)
    ensures Total(Step(s, a).workers, Left) + Executed(s, [a]) == Total(s.workers, Left) + Supplied(s, [a])
  {
    assert [a][1..] == [];
    if a.worker < |s.workers| {
      var w := s.workers[a.worker];
      assert WorkerOk(s, w);
      if a.Work? && !w.Waiting? { PieceLeft(s, a.worker); }
      TotalMoves(s.workers, Left, a.worker, Step(s, a).workers[a.worker]);
      assert s.workers[a.worker := w] == s.workers;
    }
  }

  /** In every run the pieces executed and those still to come are exactly what the events taken
      cost: no thread is ever busy without an event to account for it. */
  lemma {:induction false} WorkIsPaidFor(s: Server, schedule: seq<Action>)
    requires Inv(s)
    ensures Executed(s, schedule) + Total(Run(s, schedule).workers, Left)
            == Total(s.workers, Left) + Supplied(s, schedule)
    decreases |schedule|
  {
    if schedule != [] {
      assert [schedule[0]][1..] == [];
      StepExecutes(s, schedule[0]);
      StepInv(s, schedule[0]);
      WorkIsPaidFor(Step(s, schedule[0]), schedule[1..]);
    }
  }

  /** And threads stop only when they have nothing to do: if no piece can be executed, every thread
      waits, every call taken is answered, and exactly the events' cost has been worked off. */
  lemma QuietMeansAnswered(n: nat, schedule: seq<Action>)
    requires forall w :: Step(Run(Init(n), schedule), Work(w)) == Run(Init(n), schedule)
    ensures var s := Run(Init(n), schedule);
            AllWaiting(s) && (|s.answered|, Executed(Init(n), schedule)) == (s.calls, Supplied(Init(n), schedule))
  {
    var s := Run(Init(n), schedule);
    forall w: nat | w < |s.workers| ensures s.workers[w] == Waiting {
      assert Step(s, Work(w)) == s;
    }
    NothingInFlight(n, schedule, 0);
    InitInv(n);
    WorkIsPaidFor(Init(n), schedule);
    NothingLeft(s.workers);
    NothingLeft(Init(n).workers);
  }

  lemma {:induction false} NothingLeft(ws: seq<Worker>)
    requires forall w :: 0 <= w < |ws| ==> ws[w] == Waiting
    ensures Total(ws, Left) == 0
  {
    if ws != [] { NothingLeft(ws[1..]); }
  }

  // ---- one whole Proceed, on the objects themselves ----

  /** The next k pieces of code of a single drain thread, nothing in between. */
  function Pieces(s: Server, k: nat): Server
    requires |s.workers| == 1
    decreases k
  {
    if k == 0 then s else Pieces(Proceed(s, 0), k - 1)
  }

  lemma {:induction false} WaitingStays(s: Server, k: nat)
    requires s.workers == [Waiting]
    ensures Pieces(s, k) == s
    decreases k
  {
    if k > 0 { WaitingStays(s, k - 1); }
  }

  lemma Allocates(s: Server, t: Tag)
    requires s.workers == [Dispatch(t, NewCall)] && t in s.objects && s.objects[t] == PROCESS
    ensures Pieces(s, 2) == s.(objects := s.objects[s.next := CREATE], next := s.next + 1,
                               workers := [Constructing(t, s.next)])
  {
    var s1 := s.(workers := [Spawning(t)]);
    assert Proceed(s, 0) == s1;
    assert Pieces(s, 2) == Pieces(s1, 1) == Pieces(Proceed(s1, 0), 0);
  }

  lemma Registers(s: Server, t: Tag, heir: Tag)
    requires s.workers == [Constructing(t, heir)] && heir in s.objects
    ensures Pieces(s, 2) == s.(objects := s.objects[heir := PROCESS],
                               pending := s.pending.Add(Event(heir, NewCall)), workers := [Handling(t)])
  {
    var s1 := s.(objects := s.objects[heir := PROCESS], workers := [Registering(t, heir)]);
    assert Proceed(s, 0) == s1;
    assert Pieces(s, 2) == Pieces(s1, 1) == Pieces(Proceed(s1, 0), 0);
  }

  lemma Answers(s: Server, t: Tag)
    requires s.workers == [Handling(t)] && t in s.objects
    ensures Pieces(s, 2) == s.(objects := s.objects[t := FINISH], pending := s.pending.Add(Event(t, Sent)),
                               workers := [Waiting], answered := s.answered + [t])
  {
    var s1 := s.(objects := s.objects[t := FINISH], workers := [Finishing(t)]);
    assert Proceed(s, 0) == s1;
    assert Pieces(s, 2) == Pieces(s1, 1) == Pieces(Proceed(s1, 0), 0);
  }

  lemma {:induction false} PiecesAdd(s: Server, i: nat, j: nat)
    requires |s.workers| == 1
    ensures |Pieces(s, i).workers| == 1 && Pieces(s, i + j) == Pieces(Pieces(s, i), j)
    decreases i
  {
    if i > 0 { PiecesAdd(Proceed(s, 0), i - 1, j); }
  }

  /** Handling a new call without interruption: the next listener first, then the response. */
  lemma WholeCall(s: Server, t: Tag)
    requires s.workers == [Dispatch(t, NewCall)] && t in s.objects && s.objects[t] == PROCESS && s.next !in s.objects
    ensures Pieces(s, 6) ==
            s.(objects := s.objects[s.next := PROCESS][t := FINISH], next := s.next + 1,
               pending := s.pending.Add(Event(s.next, NewCall)).Add(Event(t, Sent)),
               workers := [Waiting], answered := s.answered + [t])
  {
    var s2, s4 := Pieces(s, 2), Pieces(s, 4);
    PiecesAdd(s, 2, 2);
    PiecesAdd(s, 4, 2);
    Allocates(s, t);
    Registers(s2, t, s.next);
    assert s2.objects[s.next := PROCESS] == s.objects[s.next := PROCESS];
    Answers(s4, t);
  }

  lemma WholeDelete(s: Server, t: Tag)
    requires s.workers == [Dispatch(t, Sent)] && t in s.objects && s.objects[t] == FINISH
    ensures Pieces(s, 6) ==
            s.(objects := s.objects - {t}, workers := [Waiting], deleted := s.deleted + [t])
  {
    var s1 := s.(workers := [Deleting(t)]);
    assert Proceed(s, 0) == s1;
    WaitingStays(Proceed(s1, 0), 4);
    assert Pieces(s, 6) == Pieces(s1, 5) == Pieces(Proceed(s1, 0), 4);
  }

  class LiveServer {
    var objects: map<Tag, CallState>
    var next: Tag
    var pending: Ops
    ghost var answered: seq<Tag>
    ghost var deleted: seq<Tag>

    ghost function View(worker: Worker): Server
      reads this
    {
      Server(objects, next, pending, [worker], 0, answered, deleted, Ops(multiset{}, multiset{}), 0)
    }

    /** A CallData constructor: CREATE, and at once Proceed's first branch. */
    method NewCallData() returns (t: Tag)
      requires next !in objects
      modifies this`objects, this`next, this`pending
      ensures t == old(next) && next == t + 1
      ensures objects == old(objects)[t := PROCESS] && pending == old(pending).Add(Event(t, NewCall))
    {
      t := next;
      next := next + 1;
      objects := objects[t := CREATE];
      objects := objects[t := PROCESS];
      pending := pending.Add(Event(t, NewCall));
    }

    /** Proceed for an event just taken from the queue, run without interruption. */
    method Proceed(t: Tag)
      requires t in objects && objects[t] != CREATE && next !in objects
      modifies this
      ensures View(Waiting) == Pieces(old(View(Dispatch(t, if objects[t] == PROCESS then NewCall else Sent))), 6)
      ensures old(objects)[t] == PROCESS ==> t in objects && old(next) in objects && answered == old(answered) + [t]
      ensures old(objects)[t] == FINISH ==> t !in objects && deleted == old(deleted) + [t]
    {
      if objects[t] == PROCESS {
        WholeCall(View(Dispatch(t, NewCall)), t);
        var heir := NewCallData();
        objects := objects[t := FINISH];
        pending := pending.Add(Event(t, Sent));
        answered := answered + [t];
      } else {
        WholeDelete(View(Dispatch(t, Sent)), t);
        objects := objects - {t};
        deleted := deleted + [t];
      }
    }
  }
}
