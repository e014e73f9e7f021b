/** The sequence lock of system_calls/04_mmap_ipc.cpp: one process publishes price updates into
    four shared words, others poll them.

    Loads are acquire and stores are release, and only one thread stores. So the history of the
    shared page is the writer's log of stores, and what a reader knows is one number: the
    youngest store that happens before its next load. A load returns any store to its word that
    is not overwritten by another store the reader already knows about, and the reader then
    knows everything up to that store. Readers need not see the latest values, nor agree. */
module Seqlock {

  datatype Update = Update(mid: real, spread: real)

  datatype Store = Seq(n: int) | Mid(x: real) | Spread(x: real) | Count(n: int)

  predicate SameWord(a: Store, b: Store) {
    (a.Seq? <==> b.Seq?) && (a.Mid? <==> b.Mid?) && (a.Spread? <==> b.Spread?) && (a.Count? <==> b.Count?)
  }

  /** The shared page, as its only writer sees it. */
  datatype PriceUpdate = PriceUpdate(seqNo: int, mid: real, spread: real, updates: int)

  /** The writer's loop body; s is its local copy of the sequence number. */
  datatype Writer =
    | WIdle
    | WLoaded(s: int, u: Update)     // about to mark the start
    | WMarked(s: int, u: Update)     // about to store mid
    | WMid(s: int, u: Update)        // about to store spread
    | WSpread(s: int, u: Update)     // about to add to n_updates
    | WCounted(s: int)               // about to mark the end

  /** The reader's loop body, with its locals. */
  datatype Point =
    | Top
    | GotSeq(s1: int)
    | GotMid(s1: int, mid: real)
    | GotSpread(s1: int, mid: real, spread: real)
    | Stable(s1: int, mid: real, spread: real)    // both sequence numbers equal and even

  /** What one pass of the reader's loop takes as a consistent triple. */
  datatype Snapshot = Snapshot(s1: int, mid: real, spread: real, shown: int)

  datatype Reader = Reader(point: Point, knows: nat, seen: int, accepted: seq<Snapshot>)

  datatype State = State(
    page: PriceUpdate, log: seq<Store>, writer: Writer, versions: seq<Update>, readers: seq<Reader>)

  datatype Action =
    | Begin(u: Update)             // the writer starts its next update
    | Advance                      // the writer's next store
    | Load(reader: nat, at: nat)   // a reader's next load, returning the store at that log index

  /** Freshly constructed page: version 0 is all zeros. */
  function Init(n: nat): State {
    State(PriceUpdate(0, 0.0, 0.0, 0), [Mid(0.0), Spread(0.0), Count(0), Seq(0)], WIdle, [Update(0.0, 0.0)],
          seq(n, i => Reader(Top, 3, 0, [])))
  }

  function Write(s: State, st: Store, w: Writer): State {
    var page := match st
      case Seq(n) => s.page.(seqNo := n)
      case Mid(x) => s.page.(mid := x)
      case Spread(x) => s.page.(spread := x)
      case Count(n) => s.page.(updates := n);
    s.(page := page, log := s.log + [st], writer := w)
  }

  function WriterStep(s: State): State {
    match s.writer
    case WIdle => s
    case WLoaded(n, u) => Write(s, Seq(n + 1), WMarked(n, u))
    case WMarked(n, u) => Write(s, Mid(u.mid), WMid(n, u))
    case WMid(n, u) => Write(s, Spread(u.spread), WSpread(n, u))
    case WSpread(n, u) => Write(s, Count(s.page.updates + 1), WCounted(n))
    case WCounted(n) => Write(s, Seq(n + 2), WIdle)
  }

  /** The word a reader loads next. */
  predicate Wants(p: Point, st: Store) {
    match p
    case Top => st.Seq?
    case GotSeq(_) => st.Mid?
    case GotMid(_, _) => st.Spread?
    case GotSpread(_, _, _) => st.Seq?
    case Stable(_, _, _) => st.Count?
  }

  /** The acquire rule: no store to the same word that the reader knows of comes after. */
  predicate MayRead(log: seq<Store>, knows: nat, at: nat) {
    && at < |log|
    && forall i :: at < i < |log| && i <= knows ==> !SameWord(log[i], log[at])
  }

  function Max(a: nat, b: nat): nat { if a < b then b else a }

  /** One load of the polling loop and the code up to the next load. */
  function ReaderStep(r: Reader, st: Store, at: nat): Reader
    requires Wants(r.point, st)
  {
    var r' := r.(knows := Max(r.knows, at));
    match r.point
    case Top => if st.n % 2 != 0 then r' else r'.(point := GotSeq(st.n))
    case GotSeq(s1) => r'.(point := GotMid(s1, st.x))
    case GotMid(s1, mid) => r'.(point := GotSpread(s1, mid, st.x))
    case GotSpread(s1, mid, spread) => if s1 != st.n then r'.(point := Top) else r'.(point := Stable(s1, mid, spread))
    case Stable(s1, mid, spread) =>
      r'.(point := Top, seen := if st.n > r.seen then st.n else r.seen,
          accepted := r.accepted + [Snapshot(s1, mid, spread, st.n)])
  }

  function Step(s: State, a: Action): State {
    match a
    case Begin(u) =>
      if s.writer.WIdle? then s.(writer := WLoaded(s.page.seqNo, u), versions := s.versions + [u]) else s
    case Advance => WriterStep(s)
    case Load(r, at) =>
      if r < |s.readers| && MayRead(s.log, s.readers[r].knows, at) && Wants(s.readers[r].point, s.log[at])
      then s.(readers := s.readers[r := ReaderStep(s.readers[r], s.log[at], at)])
      else s
  }

  function Run(s: State, schedule: seq<Action>): State
    decreases |schedule|
  {
    if schedule == [] then s else Run(Step(s, schedule[0]), schedule[1..])
  }

  // ---- the shape of the log ----

  /** The store at each log index: five per version, the initial version without a start mark. */
  predicate EntryOk(versions: seq<Update>, k: nat, st: Store) {
    var v := k / 5;
    match k % 5
    case 0 => v < |versions| && st == Mid(versions[v].mid)
    case 1 => v < |versions| && st == Spread(versions[v].spread)
    case 2 => st == Count(v)
    case 3 => st == Seq(2 * v)
    case _ => st == Seq(2 * v + 1)
  }

  /** How far the writer is into the update it is publishing. */
  function Progress(w: Writer): nat
    requires !w.WIdle?
  {
    match w
    case WLoaded(_, _) => 0
    case WMarked(_, _) => 1
    case WMid(_, _) => 2
    case WSpread(_, _) => 3
    case WCounted(_) => 4
  }

  ghost predicate LogOk(s: State) {
    && |s.versions| >= 1
    && (forall k :: 0 <= k < |s.log| ==> EntryOk(s.versions, k, s.log[k]))
    && (s.writer.WIdle? ==>
          |s.log| == 5 * |s.versions| - 1 && s.page.seqNo == 2 * |s.versions| - 2
          && s.page.updates == |s.versions| - 1)
    && (!s.writer.WIdle? ==>
          && |s.versions| >= 2
          && |s.log| == 5 * |s.versions| - 6 + Progress(s.writer)
          && s.writer.s == 2 * |s.versions| - 4
          && s.page.updates == |s.versions| - 2 + (if s.writer.WCounted? then 1 else 0)
          && (!s.writer.WCounted? ==> s.writer.u == s.versions[|s.versions| - 1]))
  }

  /** What a reader's locals say about the stores it knows of. */
  ghost predicate ReaderOk(s: State, r: Reader) {
    && r.knows < |s.log|
    && (r.point.Top? || (r.point.s1 % 2 == 0 && r.point.s1 >= 0 && r.knows >= 5 * (r.point.s1 / 2) + 3))
    && (r.point.GotMid? || r.point.GotSpread? ==> MidFits(s, r, r.point.s1 / 2, r.point.mid))
    && (r.point.GotSpread? ==> SpreadFits(s, r, r.point.s1 / 2, r.point.spread))
    && (r.point.Stable? ==>
          r.knows == 5 * (r.point.s1 / 2) + 3 && Published(s, r.point.s1, r.point.mid, r.point.spread))
    && (forall i :: 0 <= i < |r.accepted| ==> SnapshotOk(s, r, r.accepted[i]))
    && (forall i, j :: 0 <= i < j < |r.accepted| ==> r.accepted[i].s1 <= r.accepted[j].s1)
  }

  /** Until the reader learns of a later start mark, the mid it holds is the one it wants. */
  ghost predicate MidFits(s: State, r: Reader, v: nat, mid: real) {
    r.knows == 5 * v + 3 ==> v < |s.versions| && mid == s.versions[v].mid
  }

  ghost predicate SpreadFits(s: State, r: Reader, v: nat, spread: real) {
    r.knows == 5 * v + 3 ==> v < |s.versions| && spread == s.versions[v].spread
  }

  /** The pair is version s1 / 2, a complete one. */
  ghost predicate Published(s: State, s1: int, mid: real, spread: real) {
    && s1 >= 0 && s1 % 2 == 0
    && 5 * (s1 / 2) + 3 < |s.log|
    && s1 / 2 < |s.versions|
    && Update(mid, spread) == s.versions[s1 / 2]
  }

  ghost predicate SnapshotOk(s: State, r: Reader, x: Snapshot) {
    && Published(s, x.s1, x.mid, x.spread)
    && x.shown >= x.s1 / 2
    && r.knows >= 5 * (x.s1 / 2) + 3
    && r.knows >= 5 * x.shown + 2
  }

  ghost predicate Inv(s: State) {
    LogOk(s) && forall r :: 0 <= r < |s.readers| ==> ReaderOk(s, s.readers[r])
  }

  // ---- loads ----

  /** A load never returns a store older than the word's last store the reader knows of: with
      version v complete, it is of version v or later. */
  lemma LoadIsFresh(s: State, r: Reader, at: nat, v: nat)
    requires LogOk(s) && MayRead(s.log, r.knows, at)
    requires 5 * v + 3 <= r.knows < |s.log|
    ensures || (s.log[at].Mid? && at % 5 == 0 && at >= 5 * v)
            || (s.log[at].Spread? && at % 5 == 1 && at >= 5 * v + 1)
            || (s.log[at].Count? && at % 5 == 2 && at >= 5 * v + 2)
            || (s.log[at].Seq? && at >= 5 * v + 3)
  {
    assert EntryOk(s.versions, at, s.log[at]);
    var st := s.log[at];
    var target := 5 * v + (if st.Mid? then 0 else if st.Spread? then 1 else if st.Count? then 2 else 3);
    assert EntryOk(s.versions, target, s.log[target]);
    assert SameWord(s.log[target], s.log[at]);
  }

  /** Reading an even sequence number 2 v a second time is possible only as long as the reader
      knows nothing beyond the end mark of version v. */
  lemma SecondLook(s: State, r: Reader, at: nat, v: nat)
    requires LogOk(s) && MayRead(s.log, r.knows, at)
    requires 5 * v + 3 <= r.knows < |s.log|
    requires s.log[at] == Seq(2 * v)
    ensures at == 5 * v + 3 && r.knows == 5 * v + 3
  {
    assert EntryOk(s.versions, at, s.log[at]);
    assert at == 5 * v + 3;
    assert 5 * v + 4 < |s.log| ==> EntryOk(s.versions, 5 * v + 4, s.log[5 * v + 4]);
    assert 5 * v + 4 < |s.log| ==> SameWord(s.log[5 * v + 4], s.log[at]);
  }

  lemma LoadInv(s: State, r: Reader, at: nat)
    requires LogOk(s) && ReaderOk(s, r) && MayRead(s.log, r.knows, at) && Wants(r.point, s.log[at])
    ensures ReaderOk(s, ReaderStep(r, s.log[at], at)) == ReaderOk(s, r)
  {
    assert EntryOk(s.versions, at, s.log[at]);
    match r.point
    case Top => TopLoad(s, r, at);
    case GotSeq(s1) => MidLoad(s, r, at);
    case GotMid(s1, _) => SpreadLoad(s, r, at);
    case GotSpread(s1, _, _) => RecheckLoad(s, r, at);
    case Stable(s1, _, _) => CountLoad(s, r, at);
  }

  lemma TopLoad(s: State, r: Reader, at: nat)
    requires LogOk(s) && ReaderOk(s, r) && MayRead(s.log, r.knows, at) && r.point.Top? && s.log[at].Seq?
    ensures ReaderOk(s, ReaderStep(r, s.log[at], at))
  {
    assert EntryOk(s.versions, at, s.log[at]);
  }

  lemma MidLoad(s: State, r: Reader, at: nat)
    requires LogOk(s) && ReaderOk(s, r) && MayRead(s.log, r.knows, at) && r.point.GotSeq? && s.log[at].Mid?
    ensures ReaderOk(s, ReaderStep(r, s.log[at], at))
  {
    var v := r.point.s1 / 2;
    assert EntryOk(s.versions, at, s.log[at]);
    LoadIsFresh(s, r, at, v);
  }

  lemma SpreadLoad(s: State, r: Reader, at: nat)
    requires LogOk(s) && ReaderOk(s, r) && MayRead(s.log, r.knows, at) && r.point.GotMid? && s.log[at].Spread?
    ensures ReaderOk(s, ReaderStep(r, s.log[at], at))
  {
    var v := r.point.s1 / 2;
    assert EntryOk(s.versions, at, s.log[at]);
    LoadIsFresh(s, r, at, v);
  }

  lemma RecheckLoad(s: State, r: Reader, at: nat)
    requires LogOk(s) && ReaderOk(s, r) && MayRead(s.log, r.knows, at) && r.point.GotSpread? && s.log[at].Seq?
    ensures ReaderOk(s, ReaderStep(r, s.log[at], at))
  {
    if s.log[at].n == r.point.s1 {
      SecondLook(s, r, at, r.point.s1 / 2);
    }
  }

  lemma CountLoad(s: State, r: Reader, at: nat)
    requires LogOk(s) && ReaderOk(s, r) && MayRead(s.log, r.knows, at) && r.point.Stable? && s.log[at].Count?
    ensures ReaderOk(s, ReaderStep(r, s.log[at], at))
  {
    var v := r.point.s1 / 2;
    assert EntryOk(s.versions, at, s.log[at]);
    LoadIsFresh(s, r, at, v);
    var r' := ReaderStep(r, s.log[at], at);
    assert at == 5 * s.log[at].n + 2;
    forall i | 0 <= i < |r'.accepted|
      ensures SnapshotOk(s, r', r'.accepted[i])
      ensures r'.accepted[i].s1 <= r.point.s1
    {
      if i < |r.accepted| { assert SnapshotOk(s, r, r.accepted[i]); }
    }
  }

  // ---- the writer does not disturb the readers ----

  ghost predicate Extends(s: State, s': State) {
    && s.log <= s'.log
    && s.versions <= s'.versions
  }

  lemma ReaderOkExtends(s: State, s': State, r: Reader)
    requires LogOk(s) && ReaderOk(s, r) && Extends(s, s')
    ensures ReaderOk(s', r)
  {
    if !r.point.Top? {
      assert EntryOk(s.versions, 5 * (r.point.s1 / 2), s.log[5 * (r.point.s1 / 2)]);
    }
    forall i | 0 <= i < |r.accepted| ensures SnapshotOk(s', r, r.accepted[i]) {
      assert SnapshotOk(s, r, r.accepted[i]);
    }
  }

  lemma WriterInv(s: State, a: Action)
    requires LogOk(s) && (a.Begin? || a.Advance?)
    ensures LogOk(Step(s, a)) && Extends(s, Step(s, a))
  {
    var s' := Step(s, a);
    forall k | 0 <= k < |s'.log|
      ensures EntryOk(s'.versions, k, s'.log[k])
    {
      if k < |s.log| {
        assert EntryOk(s.versions, k, s.log[k]);
      } else {
        var v := |s.versions| - 2;
      }
    }
  }

  lemma StepInv(s: State, a: Action)
    requires Inv(s)
    ensures Inv(Step(s, a))
  {
    var s' := Step(s, a);
    if a.Load? {
      if s' != s {
        LoadInv(s, s.readers[a.reader], a.at);
      }
      forall r | 0 <= r < |s'.readers| ensures ReaderOk(s', s'.readers[r]) {
        var reader := s.readers[r];
        ReaderOkExtends(s, s', if s' != s && r == a.reader then ReaderStep(reader, s.log[a.at], a.at) else reader);
      }
    } else {
      WriterInv(s, a);
      forall r | 0 <= r < |s'.readers| ensures ReaderOk(s', s'.readers[r]) {
        ReaderOkExtends(s, s', s.readers[r]);
      }
    }
  }

  lemma {:induction false} RunInv(s: State, schedule: seq<Action>)
    requires Inv(s)
    ensures Inv(Run(s, schedule)) == Inv(s)
    decreases |schedule|
  {
    if schedule != [] {
      StepInv(s, schedule[0]);
      RunInv(Step(s, schedule[0]), schedule[1..]);
    }
  }

  // ---- the guarantees ----

  /** In every interleaving of one writer and n readers, every pair a reader accepts is exactly
      one published update (or the initial zeros), its versions never go backwards, and the
      label read after the second check is never behind the pair. */
  lemma NoTornReads(n: nat, schedule: seq<Action>, r: nat, i: nat)
    requires var s := Run(Init(n), schedule); r < |s.readers| && i < |s.readers[r].accepted|
    ensures var s := Run(Init(n), schedule);
            var x := s.readers[r].accepted[i];
            && x.s1 >= 0 && x.s1 % 2 == 0 && x.s1 / 2 < |s.versions|
            && Update(x.mid, x.spread) == s.versions[x.s1 / 2]
            && x.shown >= x.s1 / 2
            && (i + 1 < |s.readers[r].accepted| ==> x.s1 <= s.readers[r].accepted[i + 1].s1)
  {
    RunInv(Init(n), schedule);
    var s := Run(Init(n), schedule);
    assert ReaderOk(s, s.readers[r]);
    assert SnapshotOk(s, s.readers[r], s.readers[r].accepted[i]);
  }

  /** The five loads that take version v, with the label of version w. */
  function Looks(r: nat, v: nat, w: nat): seq<Action> {
    [Load(r, 5 * v + 3), Load(r, 5 * v), Load(r, 5 * v + 1), Load(r, 5 * v + 3), Load(r, 5 * w + 2)]
  }

  /** The reader after them. */
  function Took(r: Reader, v: nat, u: Update, w: nat): Reader {
    Reader(Top, Max(Max(r.knows, 5 * v + 3), 5 * w + 2), if w > r.seen then w else r.seen,
           r.accepted + [Snapshot(2 * v, u.mid, u.spread, w)])
  }

  /** The k-th store of version v. */
  function StoreOf(v: nat, u: Update, k: nat): Store {
    match k
    case 0 => Mid(u.mid)
    case 1 => Spread(u.spread)
    case 2 => Count(v)
    case _ => Seq(2 * v)
  }

  /** A reader may load it. */
  ghost predicate Loads(log: seq<Store>, knows: nat, v: nat, k: nat, u: Update) {
    MayRead(log, knows, 5 * v + k) && log[5 * v + k] == StoreOf(v, u, k)
  }

  /** A reader that knows of no start mark after version v may load any of its stores. */
  lemma MayLoad(s: State, knows: nat, v: nat, k: nat)
    requires LogOk(s) && k <= 3 && 5 * v + k < |s.log| && knows <= 5 * v + 3
    ensures v < |s.versions| && Loads(s.log, knows, v, k, s.versions[v])
  {
    assert 5 * v / 5 == v && (5 * v + k) / 5 == v && (5 * v + k) % 5 == k;
    assert EntryOk(s.versions, 5 * v, s.log[5 * v]);
    assert EntryOk(s.versions, 5 * v + k, s.log[5 * v + k]);
    forall i | 5 * v + k < i < |s.log| && i <= knows
      ensures !SameWord(s.log[i], s.log[5 * v + k])
    {
      assert i / 5 == v && i % 5 > k;
      assert EntryOk(s.versions, i, s.log[i]);
    }
  }

  function With(s: State, r: nat, x: Reader): State
    requires r < |s.readers|
  {
    s.(readers := s.readers[r := x])
  }

  lemma OneLoad(s: State, r: nat, x: Reader, at: nat)
    requires r < |s.readers| && MayRead(s.log, x.knows, at) && Wants(x.point, s.log[at])
    ensures Step(With(s, r, x), Load(r, at)) == With(s, r, ReaderStep(x, s.log[at], at))
  {
  }

  /** The entries of these loads may be read, and are those of the versions. */
  ghost predicate Readable(log: seq<Store>, knows: nat, v: nat, u: Update, w: nat) {
    && Loads(log, knows, v, 3, u) && Loads(log, 5 * v + 3, v, 3, u)
    && Loads(log, 5 * v + 3, v, 0, u) && Loads(log, 5 * v + 3, v, 1, u)
    && Loads(log, 5 * v + 3, w, 2, u)
  }

  lemma VersionIsReadable(s: State, knows: nat, v: nat, w: nat)
    requires LogOk(s) && knows <= 5 * v + 3 < |s.log| && v <= w && 5 * w + 2 < |s.log|
    ensures v < |s.versions| && Readable(s.log, knows, v, s.versions[v], w)
  {
    MayLoad(s, knows, v, 3);
    MayLoad(s, 5 * v + 3, v, 0);
    MayLoad(s, 5 * v + 3, v, 1);
    MayLoad(s, 5 * v + 3, v, 3);
    MayLoad(s, 5 * v + 3, w, 2);
  }

  lemma FiveLooks(s: State, r: nat, x0: Reader, v: nat, u: Update, w: nat)
    requires r < |s.readers| && x0.point.Top? && x0.knows <= 5 * v + 3 && Readable(s.log, x0.knows, v, u, w)
    ensures Run(With(s, r, x0), Looks(r, v, w)) == With(s, r, Took(x0, v, u, w))
  {
    var x1 := ReaderStep(x0, s.log[5 * v + 3], 5 * v + 3);
    var x2 := ReaderStep(x1, s.log[5 * v], 5 * v);
    var x3 := ReaderStep(x2, s.log[5 * v + 1], 5 * v + 1);
    var x4 := ReaderStep(x3, s.log[5 * v + 3], 5 * v + 3);
    OneLoad(s, r, x0, 5 * v + 3);
    OneLoad(s, r, x1, 5 * v);
    OneLoad(s, r, x2, 5 * v + 1);
    OneLoad(s, r, x3, 5 * v + 3);
    OneLoad(s, r, x4, 5 * w + 2);
    FiveSteps(With(s, r, x0), Looks(r, v, w), With(s, r, x1), With(s, r, x2), With(s, r, x3), With(s, r, x4));
  }

  /** No complete version that a reader may still see is refused: whatever the writer is doing, a
      reader that knows of no start mark after version v can take exactly that pair, and print it
      as any update counted since. */
  lemma VersionIsTaken(s: State, r: nat, v: nat, w: nat)
    requires Inv(s) && r < |s.readers| && s.readers[r].point.Top?
    requires s.readers[r].knows <= 5 * v + 3 < |s.log| && v <= w && 5 * w + 2 < |s.log|
    ensures v < |s.versions| && Run(s, Looks(r, v, w)) == With(s, r, Took(s.readers[r], v, s.versions[v], w))
  {
    VersionIsReadable(s, s.readers[r].knows, v, w);
    FiveLooks(s, r, s.readers[r], v, s.versions[v], w);
    assert With(s, r, s.readers[r]) == s;
  }

  lemma FiveSteps(s: State, p: seq<Action>, s1: State, s2: State, s3: State, s4: State)
    requires |p| == 5
    requires s1 == Step(s, p[0]) && s2 == Step(s1, p[1]) && s3 == Step(s2, p[2]) && s4 == Step(s3, p[3])
    ensures Run(s, p) == Step(s4, p[4])
  {
    assert Run(s, p) == Run(s1, p[1..]) == Run(s2, p[1..][1..]) == Run(s3, p[1..][1..][1..]);
    assert Run(s3, p[1..][1..][1..]) == Run(s4, p[1..][1..][1..][1..]);
  }

  /** In particular, between two updates a pass over the newest entries takes the newest pair under
      its own number, so the poll loop sees every count at which the writer rests. */
  lemma NewestIsTaken(s: State, r: nat)
    requires Inv(s) && s.writer.WIdle? && r < |s.readers| && s.readers[r].point.Top?
    ensures var v, x := |s.versions| - 1, s.readers[r];
            var t := Run(s, Looks(r, v, v));
            && |t.readers| == |s.readers|
            && (t.readers[r].accepted, t.readers[r].seen)
               == (x.accepted + [Snapshot(2 * v, s.versions[v].mid, s.versions[v].spread, v)],
                   if v > x.seen then v else x.seen)
  {
    var v := |s.versions| - 1;
    assert ReaderOk(s, s.readers[r]);
    VersionIsTaken(s, r, v, v);
  }

  /** The label is exact if and only if a third look at the sequence word could still return the
      number of the first two. */
  lemma LabelExactIff(s: State, r: Reader, at: nat)
    requires LogOk(s) && ReaderOk(s, r) && r.point.Stable?
    requires MayRead(s.log, r.knows, at) && s.log[at].Count?
    ensures var r' := ReaderStep(r, s.log[at], at);
            s.log[at].n == r.point.s1 / 2 <==>
            exists again: nat :: MayRead(s.log, r'.knows, again) && s.log[again] == Seq(r.point.s1)
  {
    var v := r.point.s1 / 2;
    var r' := ReaderStep(r, s.log[at], at);
    assert EntryOk(s.versions, at, s.log[at]);
    LoadIsFresh(s, r, at, v);
    assert EntryOk(s.versions, 5 * v + 3, s.log[5 * v + 3]);
    if s.log[at].n == v {
      assert at == 5 * v + 2;
      assert MayRead(s.log, r'.knows, 5 * v + 3);
    }
    if again: nat :| MayRead(s.log, r'.knows, again) && s.log[again] == Seq(r.point.s1) {
      SecondLook(s, r', again, v);
    }
  }

  /** And it need not be exact: the reader takes the initial zeros, the first update is published
      before it loads the counter, and it prints those zeros as update 1. */
  lemma LabelCanRunAhead(u: Update) returns (schedule: seq<Action>)
    ensures var s := Run(Init(1), schedule);
            && |s.readers| == 1
            && s.readers[0].accepted == [Snapshot(0, 0.0, 0.0, 1)]
            && s.readers[0].seen == 1
  {
    var looks: seq<Action> := [Load(0, 3), Load(0, 0), Load(0, 1), Load(0, 3)];
    var writes: seq<Action> := [Begin(u), Advance, Advance, Advance, Advance, Advance];
    schedule := looks + (writes + [Load(0, 7)]);
    FourLooks();
    RunAppend(Init(1), looks, writes + [Load(0, 7)]);
    var s := Run(Init(1), looks);
    PublishesOnce(s, u);
    RunAppend(s, writes, [Load(0, 7)]);
    var t := Run(s, writes);
    assert t.log[7] == Count(1);
    assert MayRead(t.log, 3, 7);
    assert Run(t, [Load(0, 7)]) == Run(Step(t, Load(0, 7)), [Action.Load(0, 7)][1..]) == Step(t, Load(0, 7));
  }

  lemma {:induction false} RunAppend(s: State, p: seq<Action>, q: seq<Action>)
    ensures Run(s, p + q) == Run(Run(s, p), q)
    decreases |p|
  {
    if p == [] {
      assert p + q == q;
    } else {
      assert (p + q)[0] == p[0] && (p + q)[1..] == p[1..] + q;
      RunAppend(Step(s, p[0]), p[1..], q);
    }
  }

  lemma FourLooks()
    ensures Run(Init(1), [Load(0, 3), Load(0, 0), Load(0, 1), Load(0, 3)])
            == Init(1).(readers := [Reader(Stable(0, 0.0, 0.0), 3, 0, [])])
  {
    var p: seq<Action> := [Load(0, 3), Load(0, 0), Load(0, 1), Load(0, 3)];
    var s := Init(1);
    var s1 := s.(readers := [Reader(GotSeq(0), 3, 0, [])]);
    var s2 := s.(readers := [Reader(GotMid(0, 0.0), 3, 0, [])]);
    var s3 := s.(readers := [Reader(GotSpread(0, 0.0, 0.0), 3, 0, [])]);
    var s4 := s.(readers := [Reader(Stable(0, 0.0, 0.0), 3, 0, [])]);
    assert Step(s, Load(0, 3)).readers == s1.readers;
    assert Step(s1, Load(0, 0)).readers == s2.readers;
    assert Step(s2, Load(0, 1)).readers == s3.readers;
    assert Step(s3, Load(0, 3)).readers == s4.readers;
    assert p[1..] == [Load(0, 0), Load(0, 1), Load(0, 3)];
    assert p[1..][1..] == [Load(0, 1), Load(0, 3)];
    assert p[1..][1..][1..] == [Load(0, 3)];
    assert Run(s, p) == Run(s1, p[1..]) == Run(s2, p[1..][1..]) == Run(s3, p[1..][1..][1..]) == s4;
  }

  /** One pass of the writer's loop. */
  function Pass(u: Update): seq<Action> { [Begin(u), Advance, Advance, Advance, Advance, Advance] }

  /** The same, as one change: the five stores in order, an even number two higher, one version more. */
  function Publication(s: State, u: Update): State {
    var n, count := s.page.seqNo, s.page.updates + 1;
    s.(log := s.log + [Seq(n + 1), Mid(u.mid), Spread(u.spread), Count(count), Seq(n + 2)],
       page := PriceUpdate(n + 2, u.mid, u.spread, count), writer := WIdle, versions := s.versions + [u])
  }

  /** A whole update, uninterrupted. */
  lemma PublishesOnce(s: State, u: Update)
    requires s.writer.WIdle?
    ensures Run(s, Pass(u)) == Publication(s, u)
  {
    var p := Pass(u);
    var s1 := Step(s, Begin(u));
    var s2 := WriterStep(s1);
    var s3 := WriterStep(s2);
    var s4 := WriterStep(s3);
    var s5 := WriterStep(s4);
    var s6 := WriterStep(s5);
    assert p[1..] == [Advance, Advance, Advance, Advance, Advance];
    assert p[1..][1..] == [Advance, Advance, Advance, Advance];
    assert p[1..][1..][1..] == [Advance, Advance, Advance];
    assert p[1..][1..][1..][1..] == [Advance, Advance];
    assert p[1..][1..][1..][1..][1..] == [Advance];
    assert Run(s, p) == Run(s1, p[1..]) == Run(s2, p[1..][1..]) == Run(s3, p[1..][1..][1..]);
    assert Run(s3, p[1..][1..][1..]) == Run(s4, p[1..][1..][1..][1..]);
    assert Run(s4, p[1..][1..][1..][1..]) == Run(s5, p[1..][1..][1..][1..][1..]) == s6;
    assert s6.log == Publication(s, u).log;
  }

  lemma PublicationKeepsLog(s: State, u: Update)
    requires LogOk(s) && s.writer.WIdle?
    ensures LogOk(Publication(s, u))
  {
    PublishesOnce(s, u);
    LogStaysOk(s, Pass(u));
  }

  // ---- the shared page, updated in place by its writer ----

  class Page {
    var seqNo: int
    var mid: real
    var spread: real
    var updates: int
    ghost var log: seq<Store>
    ghost var versions: seq<Update>

    ghost function View(): State
      reads this
    {
      State(PriceUpdate(seqNo, mid, spread, updates), log, WIdle, versions, [])
    }

    constructor ()
      ensures View() == Init(0)
    {
      seqNo, mid, spread, updates := 0, 0.0, 0.0, 0;
      log, versions := [Mid(0.0), Spread(0.0), Count(0), Seq(0)], [Update(0.0, 0.0)];
    }

    /** One pass of the writer's loop: the six steps of the machine, in this order. */
    method Publish(u: Update)
      requires LogOk(View())
      modifies this
      ensures LogOk(View())
      ensures View() == Publication(old(View()), u) == Run(old(View()), Pass(u))
    {
      PublishesOnce(View(), u);
      PublicationKeepsLog(View(), u);
      StoreAll(u);
    }

    /** Its statements: the loads and stores of the shared words. */
    method StoreAll(u: Update)
      modifies this
      ensures View() == Publication(old(View()), u)
    {
      ghost var before := log;
      var s := seqNo;
      seqNo := s + 1;
      log := log + [Seq(seqNo)];
      mid := u.mid;
      log := log + [Mid(mid)];
      spread := u.spread;
      log := log + [Spread(spread)];
      updates := updates + 1;
      log := log + [Count(updates)];
      seqNo := s + 2;
      log := log + [Seq(seqNo)];
      versions := versions + [u];
      assert log == before + [Seq(s + 1), Mid(u.mid), Spread(u.spread), Count(updates), Seq(s + 2)];
    }

    /** Publishing a whole list: the loop of the writer process. */
    method PublishAll(us: seq<Update>)
      requires LogOk(View())
      modifies this
      ensures LogOk(View())
      ensures versions == old(versions) + us
      ensures seqNo == old(seqNo) + 2 * |us| && updates == old(updates) + |us|
    {
      for i := 0 to |us|
        invariant LogOk(View())
        invariant versions == old(versions) + us[..i]
        invariant seqNo == old(seqNo) + 2 * i && updates == old(updates) + i
      {
        Publish(us[i]);
      }
    }
  }

  lemma {:induction false} LogStaysOk(s: State, p: seq<Action>)
    requires LogOk(s) && forall a :: a in p ==> a.Begin? || a.Advance?
    ensures LogOk(Run(s, p)) == LogOk(s)
    decreases |p|
  {
    if p != [] {
      assert p[0] in p;
      WriterInv(s, p[0]);
      LogStaysOk(Step(s, p[0]), p[1..]);
    }
  }
}
