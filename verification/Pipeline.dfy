/** Lazy generator pipelines of coroutines/07_pipeline.cpp, against the eager list functions of
    lambdas/06_higher_order.cpp.

    A generator is a machine: given its frame, one resume yields a value, or finishes, and leaves
    a new frame. A resume may loop inside (filter and drop pull until they find something), so it
    is given fuel; `Stuck` means that the fuel did not suffice, or that a finished coroutine was
    resumed, which the language leaves undefined. Sources are arbitrary: any frames, finite or
    infinite, even sources that hang. */
module Pipeline {
  import opened Options

  datatype Step<+S, +T> = Yield(frame: S, value: T) | Done(frame: S) | Stuck

  type Gen<!S, !T> = (S, nat) -> Step<S, T>

  // ---- the adaptors ----

  function Map<S, T, U>(g: Gen<S, T>, f: T -> U): Gen<S, U> {
    (s: S, fuel: nat) =>
      match g(s, fuel)
      case Yield(t, v) => Yield(t, f(v))
      case Done(t) => Done(t)
      case Stuck => Stuck
  }

  function Filter<S, T>(g: Gen<S, T>, p: T -> bool): Gen<S, T> {
    (s: S, fuel: nat) => FilterLoop(g, p, s, fuel)
  }

  function FilterLoop<S, T>(g: Gen<S, T>, p: T -> bool, s: S, fuel: nat): Step<S, T>
    decreases fuel
  {
    if fuel == 0 then Stuck else
    match g(s, fuel)
    case Yield(t, v) => if p(v) then Yield(t, v) else FilterLoop(g, p, t, fuel - 1)
    case Done(t) => Done(t)
    case Stuck => Stuck
  }

  /** An adaptor's frame: its source and its counter. */
  datatype Counted<+S> = Counted(src: S, count: nat)

  /** `if (count++ >= n) break;` comes after the pull, so one element beyond n is pulled. */
  function Take<S, T>(g: Gen<S, T>, n: nat): Gen<Counted<S>, T> {
    (s: Counted<S>, fuel: nat) =>
      match g(s.src, fuel)
      case Yield(t, v) => if s.count >= n then Done(Counted(t, s.count + 1)) else Yield(Counted(t, s.count + 1), v)
      case Done(t) => Done(Counted(t, s.count))
      case Stuck => Stuck
  }

  function Drop<S, T>(g: Gen<S, T>, n: nat): Gen<Counted<S>, T> {
    (s: Counted<S>, fuel: nat) => DropLoop(g, n, s, fuel)
  }

  function DropLoop<S, T>(g: Gen<S, T>, n: nat, s: Counted<S>, fuel: nat): Step<Counted<S>, T>
    decreases fuel
  {
    if fuel == 0 then Stuck else
    match g(s.src, fuel)
    case Yield(t, v) =>
      if s.count < n then DropLoop(g, n, Counted(t, s.count + 1), fuel - 1) else Yield(Counted(t, s.count + 1), v)
    case Done(t) => Done(Counted(t, s.count))
    case Stuck => Stuck
  }

  datatype Scanning<+S, +U> = Scanning(src: S, acc: U)

  function Scan<S, T, U>(g: Gen<S, T>, op: (U, T) -> U): Gen<Scanning<S, U>, U> {
    (s: Scanning<S, U>, fuel: nat) =>
      match g(s.src, fuel)
      case Yield(t, v) => Yield(Scanning(t, op(s.acc, v)), op(s.acc, v))
      case Done(t) => Done(Scanning(t, s.acc))
      case Stuck => Stuck
  }

  datatype Both<+A, +B> = Both(a: A, b: B)

  /** Both sources are advanced before either is asked whether it is done. */
  function Zip<A, B, T, U>(g: Gen<A, T>, h: Gen<B, U>): Gen<Both<A, B>, (T, U)> {
    (s: Both<A, B>, fuel: nat) =>
      var x, y := g(s.a, fuel), h(s.b, fuel);
      if x.Stuck? || y.Stuck? then Stuck
      else if x.Yield? && y.Yield? then Yield(Both(x.frame, y.frame), (x.value, y.value))
      else Done(Both(x.frame, y.frame))
  }

  // ---- sources ----

  datatype Cursor = Cursor(next: nat)

  /** `of` (a length) and `iota` (none). The elements are at(0), at(1) and so on. */
  function From<T>(at: nat -> T, len: Option<nat>): Gen<Cursor, T> {
    (c: Cursor, fuel: nat) =>
      if len.Some? && c.next >= len.value then Done(c) else Yield(Cursor(c.next + 1), at(c.next))
  }

  datatype Meter<+S> = Meter(frame: S, resumes: nat, finished: bool)

  /** Any source, counting its resumes, and stuck when resumed after it finished. */
  function Metered<S, T>(g: Gen<S, T>): Gen<Meter<S>, T> {
    (s: Meter<S>, fuel: nat) =>
      if s.finished then Stuck else
      match g(s.frame, fuel)
      case Yield(t, v) => Yield(Meter(t, s.resumes + 1, false), v)
      case Done(t) => Done(Meter(t, s.resumes + 1, true))
      case Stuck => Stuck
  }

  // ---- what a generator produces ----

  ghost predicate Monotone<S(!new), T>(g: Gen<S, T>) {
    forall s, i: nat, j: nat {:trigger g(s, i), g(s, j)} :: i <= j && !g(s, i).Stuck? ==> g(s, j) == g(s, i)
  }

  /** Given enough fuel, resuming frame s has this result. */
  ghost predicate Resumes<S, T>(g: Gen<S, T>, s: S, r: Step<S, T>) {
    exists fuel: nat :: g(s, fuel) == r && !r.Stuck?
  }

  /** Resuming |vs| times from frame s yields vs and leaves frame t. */
  ghost predicate Emits<S(!new), T>(g: Gen<S, T>, s: S, vs: seq<T>, t: S)
    decreases |vs|
  {
    || (vs == [] && s == t)
    || (vs != [] && exists m :: Resumes(g, s, Yield(m, vs[0])) && Emits(g, m, vs[1..], t))
  }

  /** From frame s it yields exactly vs and then finishes, leaving frame u. */
  ghost predicate Produces<S(!new), T>(g: Gen<S, T>, s: S, vs: seq<T>, u: S)
    decreases |vs|
  {
    || (vs == [] && Resumes(g, s, Done(u)))
    || (vs != [] && exists m :: Resumes(g, s, Yield(m, vs[0])) && Produces(g, m, vs[1..], u))
  }

  lemma ResumesOnce<S(!new), T>(g: Gen<S, T>, s: S, r: Step<S, T>, r': Step<S, T>)
    requires Monotone(g) && Resumes(g, s, r) && Resumes(g, s, r')
    ensures r == r'
  {
    var i: nat :| g(s, i) == r;
    var j: nat :| g(s, j) == r';
  }

  lemma EndsOrGoesOn<S(!new), T(!new)>(g: Gen<S, T>, s: S, u: S)
    requires Monotone(g) && Resumes(g, s, Done(u))
    ensures forall m, v :: !Resumes(g, s, Yield(m, v))
  {
    var i: nat :| g(s, i) == Done(u);
    forall m, v ensures !Resumes(g, s, Yield(m, v)) {
      assert forall j: nat {:trigger g(s, j)} :: g(s, i) == g(s, j) || g(s, j).Stuck?;
    }
  }

  /** A generator's output is determined: two complete runs agree in values and final frame. */
  lemma {:induction false} OutputIsUnique<S(!new), T(!new)>(g: Gen<S, T>, s: S, vs: seq<T>, u: S, ws: seq<T>, x: S)
    requires Monotone(g) && Produces(g, s, vs, u) && Produces(g, s, ws, x)
    ensures vs == ws && u == x
    decreases |vs|
  {
    if vs == [] { EndsOrGoesOn(g, s, u); }
    if ws == [] { EndsOrGoesOn(g, s, x); }
    if vs == [] && ws == [] {
      ResumesOnce(g, s, Done(u), Done(x));
    } else if vs != [] && ws != [] {
      var m :| Resumes(g, s, Yield(m, vs[0])) && Produces(g, m, vs[1..], u);
      var k :| Resumes(g, s, Yield(k, ws[0])) && Produces(g, k, ws[1..], x);
      ResumesOnce(g, s, Yield(m, vs[0]), Yield(k, ws[0]));
      OutputIsUnique(g, m, vs[1..], u, ws[1..], x);
      assert vs == [vs[0]] + vs[1..] && ws == [ws[0]] + ws[1..];
    }
  }

  // ---- the eager functions, as the lists they compute ----

  function MapList<T, U>(f: T -> U, vs: seq<T>): seq<U> {
    if vs == [] then [] else [f(vs[0])] + MapList(f, vs[1..])
  }

  function FilterList<T>(p: T -> bool, vs: seq<T>): seq<T> {
    if vs == [] then [] else (if p(vs[0]) then [vs[0]] else []) + FilterList(p, vs[1..])
  }

  function Fold<T, U>(op: (U, T) -> U, init: U, vs: seq<T>): U {
    if vs == [] then init else Fold(op, op(init, vs[0]), vs[1..])
  }

  function ScanList<T, U>(op: (U, T) -> U, init: U, vs: seq<T>): seq<U> {
    if vs == [] then [] else [op(init, vs[0])] + ScanList(op, op(init, vs[0]), vs[1..])
  }

  function ZipList<T, U>(vs: seq<T>, ws: seq<U>): seq<(T, U)> {
    if vs == [] || ws == [] then [] else [(vs[0], ws[0])] + ZipList(vs[1..], ws[1..])
  }

  // ---- map ----

  lemma MapMonotone<S(!new), T, U>(g: Gen<S, T>, f: T -> U)
    requires Monotone(g)
    ensures Monotone(Map(g, f))
  {
    var h := Map(g, f);
    forall s, i: nat, j: nat | i <= j && !h(s, i).Stuck? ensures h(s, j) == h(s, i) {
      assert g(s, j) == g(s, i);
    }
  }

  lemma MapYields<S(!new), T, U>(g: Gen<S, T>, f: T -> U, s: S, m: S, v: T)
    requires Resumes(g, s, Yield(m, v))
    ensures Resumes(Map(g, f), s, Yield(m, f(v)))
  {
    var fuel: nat :| g(s, fuel) == Yield(m, v);
    assert Map(g, f)(s, fuel) == Yield(m, f(v));
  }

  lemma {:induction false} MapEmits<S(!new), T, U>(g: Gen<S, T>, f: T -> U, s: S, vs: seq<T>, t: S)
    requires Emits(g, s, vs, t)
    ensures Emits(Map(g, f), s, MapList(f, vs), t)
    decreases |vs|
  {
    if vs != [] {
      var m :| Resumes(g, s, Yield(m, vs[0])) && Emits(g, m, vs[1..], t);
      MapYields(g, f, s, m, vs[0]);
      MapEmits(g, f, m, vs[1..], t);
      assert MapList(f, vs)[1..] == MapList(f, vs[1..]);
    }
  }

  lemma {:induction false} MapProduces<S(!new), T, U>(g: Gen<S, T>, f: T -> U, s: S, vs: seq<T>, u: S)
    requires Produces(g, s, vs, u)
    ensures Produces(Map(g, f), s, MapList(f, vs), u)
    decreases |vs|
  {
    if vs == [] {
      var fuel: nat :| g(s, fuel) == Done(u);
      assert Map(g, f)(s, fuel) == Done(u);
    } else {
      var m :| Resumes(g, s, Yield(m, vs[0])) && Produces(g, m, vs[1..], u);
      MapYields(g, f, s, m, vs[0]);
      MapProduces(g, f, m, vs[1..], u);
      assert MapList(f, vs)[1..] == MapList(f, vs[1..]);
    }
  }

  // ---- filter ----

  lemma {:induction false} FilterLoopMonotone<S(!new), T>(g: Gen<S, T>, p: T -> bool, s: S, i: nat, j: nat)
    requires Monotone(g) && i <= j && !FilterLoop(g, p, s, i).Stuck?
    ensures FilterLoop(g, p, s, j) == FilterLoop(g, p, s, i)
    decreases i
  {
    assert g(s, j) == g(s, i);
    if g(s, i).Yield? && !p(g(s, i).value) {
      FilterLoopMonotone(g, p, g(s, i).frame, i - 1, j - 1);
    }
  }

  lemma FilterMonotone<S(!new), T>(g: Gen<S, T>, p: T -> bool)
    requires Monotone(g)
    ensures Monotone(Filter(g, p))
  {
    forall s, i: nat, j: nat | i <= j && !Filter(g, p)(s, i).Stuck?
      ensures Filter(g, p)(s, j) == Filter(g, p)(s, i)
    {
      FilterLoopMonotone(g, p, s, i, j);
    }
  }

  /** Passing over an element that the predicate rejects. */
  lemma FilterSkips<S(!new), T>(g: Gen<S, T>, p: T -> bool, s: S, m: S, v: T, r: Step<S, T>)
    requires Monotone(g) && Resumes(g, s, Yield(m, v)) && !p(v) && Resumes(Filter(g, p), m, r)
    ensures Resumes(Filter(g, p), s, r)
  {
    var i: nat :| g(s, i) == Yield(m, v);
    var j: nat :| Filter(g, p)(m, j) == r;
    var k := i + j + 1;
    assert g(s, k) == g(s, i);
    FilterLoopMonotone(g, p, m, j, k - 1);
    assert Filter(g, p)(s, k) == r;
  }

  lemma FilterPasses<S(!new), T>(g: Gen<S, T>, p: T -> bool, s: S, m: S, v: T)
    requires Monotone(g) && Resumes(g, s, Yield(m, v)) && p(v)
    ensures Resumes(Filter(g, p), s, Yield(m, v))
  {
    var i: nat :| g(s, i) == Yield(m, v);
    assert g(s, i + 1) == g(s, i);
    assert Filter(g, p)(s, i + 1) == Yield(m, v);
  }

  lemma FilterEnds<S(!new), T>(g: Gen<S, T>, p: T -> bool, s: S, u: S)
    requires Monotone(g) && Resumes(g, s, Done(u))
    ensures Resumes(Filter(g, p), s, Done(u))
  {
    var i: nat :| g(s, i) == Done(u);
    assert g(s, i + 1) == g(s, i);
    assert Filter(g, p)(s, i + 1) == Done(u);
  }

  /** Skipping ahead does not change what comes out. */
  lemma FilterProducesSkip<S(!new), T>(g: Gen<S, T>, p: T -> bool, s: S, m: S, v: T, ws: seq<T>, u: S)
    requires Monotone(g) && Resumes(g, s, Yield(m, v)) && !p(v) && Produces(Filter(g, p), m, ws, u)
    ensures Produces(Filter(g, p), s, ws, u)
  {
    if ws == [] {
      FilterSkips(g, p, s, m, v, Done(u));
    } else {
      var k :| Resumes(Filter(g, p), m, Yield(k, ws[0])) && Produces(Filter(g, p), k, ws[1..], u);
      FilterSkips(g, p, s, m, v, Yield(k, ws[0]));
    }
  }

  lemma {:induction false} FilterProduces<S(!new), T>(g: Gen<S, T>, p: T -> bool, s: S, vs: seq<T>, u: S)
    requires Monotone(g) && Produces(g, s, vs, u)
    ensures Produces(Filter(g, p), s, FilterList(p, vs), u)
    decreases |vs|
  {
    if vs == [] {
      FilterEnds(g, p, s, u);
    } else {
      var m :| Resumes(g, s, Yield(m, vs[0])) && Produces(g, m, vs[1..], u);
      FilterProduces(g, p, m, vs[1..], u);
      if p(vs[0]) {
        FilterPasses(g, p, s, m, vs[0]);
        assert FilterList(p, vs)[1..] == FilterList(p, vs[1..]);
      } else {
        FilterProducesSkip(g, p, s, m, vs[0], FilterList(p, vs[1..]), u);
        assert FilterList(p, vs) == FilterList(p, vs[1..]);
      }
    }
  }

  /** On any prefix of the source: every element of it that passes comes out, and in order. */
  lemma {:induction false} FilterEmits<S(!new), T>(g: Gen<S, T>, p: T -> bool, s: S, vs: seq<T>, t: S, k: nat)
    requires Monotone(g) && Emits(g, s, vs, t) && k <= |FilterList(p, vs)|
    ensures exists m :: Emits(Filter(g, p), s, FilterList(p, vs)[..k], m)
    decreases |vs|
  {
    if k == 0 {
      assert Emits(Filter(g, p), s, FilterList(p, vs)[..k], s);
    } else {
      var m :| Resumes(g, s, Yield(m, vs[0])) && Emits(g, m, vs[1..], t);
      var ws := FilterList(p, vs[1..]);
      if p(vs[0]) {
        FilterPasses(g, p, s, m, vs[0]);
        FilterEmits(g, p, m, vs[1..], t, k - 1);
        var z :| Emits(Filter(g, p), m, ws[..k - 1], z);
        assert FilterList(p, vs)[..k][1..] == ws[..k - 1];
        assert Emits(Filter(g, p), s, FilterList(p, vs)[..k], z);
      } else {
        assert FilterList(p, vs) == ws;
        FilterEmits(g, p, m, vs[1..], t, k);
        var z :| Emits(Filter(g, p), m, ws[..k], z);
        var y :| Resumes(Filter(g, p), m, Yield(y, ws[..k][0])) && Emits(Filter(g, p), y, ws[..k][1..], z);
        FilterSkips(g, p, s, m, vs[0], Yield(y, ws[..k][0]));
        assert Emits(Filter(g, p), s, FilterList(p, vs)[..k], z);
      }
    }
  }

  /** One resume of filter with result r was a run of its source over rejected elements. */
  ghost predicate Pulls<S(!new), T>(g: Gen<S, T>, p: T -> bool, s: S, skipped: seq<T>, r: Step<S, T>) {
    || (r.Yield? && FilterList(p, skipped) == [] && p(r.value) && Emits(g, s, skipped + [r.value], r.frame))
    || (r.Done? && FilterList(p, skipped) == [] && Produces(g, s, skipped, r.frame))
    || r.Stuck?
  }

  lemma {:induction false} FilterLoopPulls<S(!new), T>(g: Gen<S, T>, p: T -> bool, s: S, fuel: nat)
    returns (skipped: seq<T>)
    ensures Pulls(g, p, s, skipped, FilterLoop(g, p, s, fuel))
    decreases fuel
  {
    skipped := [];
    if fuel == 0 { return; }
    var x := g(s, fuel);
    if x.Yield? && !p(x.value) {
      var rest := FilterLoopPulls(g, p, x.frame, fuel - 1);
      skipped := [x.value] + rest;
      assert Resumes(g, s, x);
      assert skipped[1..] == rest;
      var r := FilterLoop(g, p, s, fuel);
      if r.Yield? {
        var all := skipped + [r.value];
        assert all[1..] == rest + [r.value];
      }
    } else if x.Yield? {
      assert Resumes(g, s, x);
      assert ([] + [x.value])[1..] == [];
      assert Emits(g, x.frame, ([] + [x.value])[1..], x.frame);
      assert Emits(g, s, [] + [x.value], x.frame);
    }
  }

  lemma {:induction false} EmitsJoin<S(!new), T>(g: Gen<S, T>, s: S, vs: seq<T>, m: S, ws: seq<T>, t: S)
    requires Emits(g, s, vs, m) && Emits(g, m, ws, t)
    ensures Emits(g, s, vs + ws, t)
    decreases |vs|
  {
    if vs == [] {
      assert vs + ws == ws;
    } else {
      var k :| Resumes(g, s, Yield(k, vs[0])) && Emits(g, k, vs[1..], m);
      EmitsJoin(g, k, vs[1..], m, ws, t);
      assert (vs + ws)[1..] == vs[1..] + ws;
    }
  }

  lemma {:induction false} ProducesJoin<S(!new), T>(g: Gen<S, T>, s: S, vs: seq<T>, m: S, ws: seq<T>, u: S)
    requires Emits(g, s, vs, m) && Produces(g, m, ws, u)
    ensures Produces(g, s, vs + ws, u)
    decreases |vs|
  {
    if vs == [] {
      assert vs + ws == ws;
    } else {
      var k :| Resumes(g, s, Yield(k, vs[0])) && Emits(g, k, vs[1..], m);
      ProducesJoin(g, k, vs[1..], m, ws, u);
      assert (vs + ws)[1..] == vs[1..] + ws;
    }
  }

  lemma {:induction false} FilterListJoins<T>(p: T -> bool, vs: seq<T>, ws: seq<T>)
    ensures FilterList(p, vs + ws) == FilterList(p, vs) + FilterList(p, ws)
  {
    if vs == [] {
      assert vs + ws == ws;
    } else {
      var all, first := vs + ws, if p(vs[0]) then [vs[0]] else [];
      assert all[0] == vs[0] && all[1..] == vs[1..] + ws;
      FilterListJoins(p, vs[1..], ws);
      assert FilterList(p, all) == first + FilterList(p, vs[1..] + ws);
      assert FilterList(p, vs) == first + FilterList(p, vs[1..]);
    }
  }

  lemma FilterListPasses<T>(p: T -> bool, skipped: seq<T>, v: T, rest: seq<T>)
    requires FilterList(p, skipped) == [] && p(v)
    ensures FilterList(p, skipped + [v] + rest) == [v] + FilterList(p, rest)
  {
    FilterListJoins(p, skipped + [v], rest);
    FilterListJoins(p, skipped, [v]);
    assert FilterList(p, [v]) == [v];
  }

  lemma FilterResumePulls<S(!new), T>(g: Gen<S, T>, p: T -> bool, s: S, r: Step<S, T>) returns (skipped: seq<T>)
    requires Resumes(Filter(g, p), s, r)
    ensures !r.Stuck? && Pulls(g, p, s, skipped, r)
  {
    var fuel: nat :| Filter(g, p)(s, fuel) == r && !r.Stuck?;
    skipped := FilterLoopPulls(g, p, s, fuel);
  }

  /** Whatever filter yields, its source yielded, and nothing that passes was lost. */
  lemma {:induction false} FilterEmitsOnlySo<S(!new), T>(g: Gen<S, T>, p: T -> bool, s: S, ws: seq<T>, t: S)
    returns (vs: seq<T>)
    requires Emits(Filter(g, p), s, ws, t)
    ensures Emits(g, s, vs, t) && FilterList(p, vs) == ws
    decreases |ws|
  {
    if ws == [] { return []; }
    var m :| Resumes(Filter(g, p), s, Yield(m, ws[0])) && Emits(Filter(g, p), m, ws[1..], t);
    var skipped := FilterResumePulls(g, p, s, Yield(m, ws[0]));
    var rest := FilterEmitsOnlySo(g, p, m, ws[1..], t);
    vs := skipped + [ws[0]] + rest;
    EmitsJoin(g, s, skipped + [ws[0]], m, rest, t);
    FilterListPasses(p, skipped, ws[0], rest);
  }

  lemma FilterProducesMore<S(!new), T>(
    g: Gen<S, T>, p: T -> bool, s: S, skipped: seq<T>, v: T, m: S, rest: seq<T>, u: S)
    requires FilterList(p, skipped) == [] && p(v) && Emits(g, s, skipped + [v], m) && Produces(g, m, rest, u)
    ensures Produces(g, s, skipped + [v] + rest, u) && FilterList(p, skipped + [v] + rest) == [v] + FilterList(p, rest)
  {
    ProducesJoin(g, s, skipped + [v], m, rest, u);
    FilterListPasses(p, skipped, v, rest);
  }

  lemma {:induction false} FilterProducesOnlySo<S(!new), T>(g: Gen<S, T>, p: T -> bool, s: S, ws: seq<T>, u: S)
    returns (vs: seq<T>)
    requires Produces(Filter(g, p), s, ws, u)
    ensures Produces(g, s, vs, u) && FilterList(p, vs) == ws
    decreases |ws|
  {
    if ws == [] {
      vs := FilterResumePulls(g, p, s, Done(u));
    } else {
      var m :| Resumes(Filter(g, p), s, Yield(m, ws[0])) && Produces(Filter(g, p), m, ws[1..], u);
      var skipped := FilterResumePulls(g, p, s, Yield(m, ws[0]));
      var rest := FilterProducesOnlySo(g, p, m, ws[1..], u);
      FilterProducesMore(g, p, s, skipped, ws[0], m, rest, u);
      vs := skipped + [ws[0]] + rest;
      assert ws == [ws[0]] + ws[1..];
    }
  }

  // ---- scan ----

  lemma {:induction false} ScanProduces<S(!new), T, U(!new)>(
    g: Gen<S, T>, op: (U, T) -> U, s: S, init: U, vs: seq<T>, u: S)
    requires Produces(g, s, vs, u)
    ensures Produces(Scan(g, op), Scanning(s, init), ScanList(op, init, vs), Scanning(u, Fold(op, init, vs)))
    decreases |vs|
  {
    var h := Scan(g, op);
    if vs == [] {
      var fuel: nat :| g(s, fuel) == Done(u);
      assert h(Scanning(s, init), fuel) == Done(Scanning(u, init));
    } else {
      var m :| Resumes(g, s, Yield(m, vs[0])) && Produces(g, m, vs[1..], u);
      var fuel: nat :| g(s, fuel) == Yield(m, vs[0]);
      var acc := op(init, vs[0]);
      assert h(Scanning(s, init), fuel) == Yield(Scanning(m, acc), acc);
      ScanProduces(g, op, m, acc, vs[1..], u);
      assert ScanList(op, init, vs)[1..] == ScanList(op, acc, vs[1..]);
    }
  }

  lemma {:induction false} ScanEmits<S(!new), T, U(!new)>(
    g: Gen<S, T>, op: (U, T) -> U, s: S, init: U, vs: seq<T>, t: S)
    requires Emits(g, s, vs, t)
    ensures Emits(Scan(g, op), Scanning(s, init), ScanList(op, init, vs), Scanning(t, Fold(op, init, vs)))
    decreases |vs|
  {
    var h := Scan(g, op);
    if vs != [] {
      var m :| Resumes(g, s, Yield(m, vs[0])) && Emits(g, m, vs[1..], t);
      var fuel: nat :| g(s, fuel) == Yield(m, vs[0]);
      var acc := op(init, vs[0]);
      assert h(Scanning(s, init), fuel) == Yield(Scanning(m, acc), acc);
      ScanEmits(g, op, m, acc, vs[1..], t);
      assert ScanList(op, init, vs)[1..] == ScanList(op, acc, vs[1..]);
    }
  }

  /** The last element of a scan is the fold. */
  lemma {:induction false} ScanEndsInFold<T, U>(op: (U, T) -> U, init: U, vs: seq<T>)
    ensures |ScanList(op, init, vs)| == |vs|
    ensures vs != [] ==> ScanList(op, init, vs)[|vs| - 1] == Fold(op, init, vs)
  {
    if vs != [] { ScanEndsInFold(op, op(init, vs[0]), vs[1..]); }
  }

  // ---- take ----

  lemma TakeYields<S(!new), T>(g: Gen<S, T>, n: nat, s: S, c: nat, m: S, v: T)
    requires Resumes(g, s, Yield(m, v))
    ensures Resumes(Take(g, n), Counted(s, c),
                    if c >= n then Done(Counted(m, c + 1)) else Yield(Counted(m, c + 1), v))
  {
    var fuel: nat :| g(s, fuel) == Yield(m, v);
    assert Take(g, n)(Counted(s, c), fuel)
           == if c >= n then Done(Counted(m, c + 1)) else Yield(Counted(m, c + 1), v);
  }

  /** A source with more than the elements wanted: take yields those, pulls one more, and ends. */
  lemma {:induction false} TakeStops<S(!new), T>(g: Gen<S, T>, n: nat, s: S, c: nat, vs: seq<T>, t: S)
    requires c <= n && |vs| == n - c + 1 && Emits(g, s, vs, t)
    ensures Produces(Take(g, n), Counted(s, c), vs[..n - c], Counted(t, n + 1))
    decreases |vs|
  {
    var m :| Resumes(g, s, Yield(m, vs[0])) && Emits(g, m, vs[1..], t);
    TakeYields(g, n, s, c, m, vs[0]);
    if c < n {
      TakeStops(g, n, m, c + 1, vs[1..], t);
      assert vs[..n - c][1..] == vs[1..][..n - c - 1];
    } else {
      assert vs[1..] == [];
    }
  }

  /** A source with at most the elements wanted: take passes them on and ends with it. */
  lemma {:induction false} TakeRunsDry<S(!new), T>(g: Gen<S, T>, n: nat, s: S, c: nat, vs: seq<T>, u: S)
    requires c + |vs| <= n && Produces(g, s, vs, u)
    ensures Produces(Take(g, n), Counted(s, c), vs, Counted(u, c + |vs|))
    decreases |vs|
  {
    if vs == [] {
      var fuel: nat :| g(s, fuel) == Done(u);
      assert Take(g, n)(Counted(s, c), fuel) == Done(Counted(u, c));
    } else {
      var m :| Resumes(g, s, Yield(m, vs[0])) && Produces(g, m, vs[1..], u);
      TakeYields(g, n, s, c, m, vs[0]);
      TakeRunsDry(g, n, m, c + 1, vs[1..], u);
    }
  }

  /** What one resume of take was in its source. */
  lemma TakeResumed<S(!new), T>(g: Gen<S, T>, n: nat, s: S, c: nat, r: Step<Counted<S>, T>)
    requires Resumes(Take(g, n), Counted(s, c), r)
    ensures r.Yield? ==> c < n && r.frame.count == c + 1 && Resumes(g, s, Yield(r.frame.src, r.value))
    ensures r.Done? ==>
              Resumes(g, s, Done(r.frame.src)) || (c >= n && exists v :: Resumes(g, s, Yield(r.frame.src, v)))
  {
    var fuel: nat :| Take(g, n)(Counted(s, c), fuel) == r;
    var x := g(s, fuel);
    assert Resumes(g, s, x);
  }

  lemma EmitsOne<S(!new), T>(g: Gen<S, T>, s: S, v: T, t: S)
    requires Resumes(g, s, Yield(t, v))
    ensures Emits(g, s, [v], t)
  {
    assert [v][1..] == [] && Emits(g, t, [v][1..], t);
  }

  lemma EmitsMore<S(!new), T>(g: Gen<S, T>, s: S, v: T, m: S, vs: seq<T>, t: S)
    requires Resumes(g, s, Yield(m, v)) && Emits(g, m, vs, t)
    ensures Emits(g, s, [v] + vs, t)
  {
    EmitsOne(g, s, v, m);
    EmitsJoin(g, s, [v], m, vs, t);
  }

  /** And those are the only ways it can end. */
  lemma {:induction false} TakeEndsOnlySo<S(!new), T>(g: Gen<S, T>, n: nat, s: S, c: nat, ws: seq<T>, u: Counted<S>)
    requires c <= n && Produces(Take(g, n), Counted(s, c), ws, u)
    ensures || (exists vs :: |vs| == n - c + 1 && Emits(g, s, vs, u.src))
            || (c + |ws| <= n && Produces(g, s, ws, u.src))
    decreases |ws|
  {
    if ws == [] {
      TakeResumed(g, n, s, c, Done(u));
      if v :| Resumes(g, s, Yield(u.src, v)) && c >= n {
        EmitsOne(g, s, v, u.src);
        assert |[v]| == n - c + 1;
      }
    } else {
      var m :| Resumes(Take(g, n), Counted(s, c), Yield(m, ws[0])) && Produces(Take(g, n), m, ws[1..], u);
      TakeResumed(g, n, s, c, Yield(m, ws[0]));
      assert m == Counted(m.src, c + 1);
      TakeEndsOnlySo(g, n, m.src, c + 1, ws[1..], u);
      if vs :| |vs| == n - c && Emits(g, m.src, vs, u.src) {
        EmitsMore(g, s, ws[0], m.src, vs, u.src);
        assert |[ws[0]] + vs| == n - c + 1;
      }
    }
  }

  ghost predicate Finishes<S(!new), T(!new)>(g: Gen<S, T>, s: S) {
    exists vs, u :: Produces(g, s, vs, u)
  }

  ghost predicate EmitsMany<S(!new), T(!new)>(g: Gen<S, T>, s: S, n: nat) {
    exists vs, t :: |vs| == n && Emits(g, s, vs, t)
  }

  ghost predicate FinishesWithin<S(!new), T(!new)>(g: Gen<S, T>, s: S, n: nat) {
    exists vs, u :: |vs| <= n && Produces(g, s, vs, u)
  }

  /** take(src, n) finishes if and only if its source yields more than n elements, or finishes. */
  lemma TakeFinishesIff<S(!new), T(!new)>(g: Gen<S, T>, n: nat, s: S)
    ensures Finishes(Take(g, n), Counted(s, 0)) <==> EmitsMany(g, s, n + 1) || FinishesWithin(g, s, n)
  {
    var h, c := Take(g, n), Counted(s, 0);
    if Finishes(h, c) {
      var ws, u :| Produces(h, c, ws, u);
      TakeEndsOnlySo(g, n, s, 0, ws, u);
      if vs :| |vs| == n + 1 && Emits(g, s, vs, u.src) {
        assert EmitsMany(g, s, n + 1);
      } else {
        assert FinishesWithin(g, s, n);
      }
    }
    if EmitsMany(g, s, n + 1) {
      var vs, t :| |vs| == n + 1 && Emits(g, s, vs, t);
      TakeStops(g, n, s, 0, vs, t);
    }
    if FinishesWithin(g, s, n) {
      var vs, u :| |vs| <= n && Produces(g, s, vs, u);
      TakeRunsDry(g, n, s, 0, vs, u);
    }
  }

  // ---- drop ----

  lemma {:induction false} DropLoopMonotone<S(!new), T>(g: Gen<S, T>, n: nat, s: Counted<S>, i: nat, j: nat)
    requires Monotone(g) && i <= j && !DropLoop(g, n, s, i).Stuck?
    ensures DropLoop(g, n, s, j) == DropLoop(g, n, s, i)
    decreases i
  {
    assert g(s.src, j) == g(s.src, i);
    if g(s.src, i).Yield? && s.count < n {
      DropLoopMonotone(g, n, Counted(g(s.src, i).frame, s.count + 1), i - 1, j - 1);
    }
  }

  lemma DropMonotone<S(!new), T>(g: Gen<S, T>, n: nat)
    requires Monotone(g)
    ensures Monotone(Drop(g, n))
  {
    forall s, i: nat, j: nat | i <= j && !Drop(g, n)(s, i).Stuck?
      ensures Drop(g, n)(s, j) == Drop(g, n)(s, i)
    {
      DropLoopMonotone(g, n, s, i, j);
    }
  }

  lemma TakeMonotone<S(!new), T>(g: Gen<S, T>, n: nat)
    requires Monotone(g)
    ensures Monotone(Take(g, n))
  {
    forall s: Counted<S>, i: nat, j: nat | i <= j && !Take(g, n)(s, i).Stuck?
      ensures Take(g, n)(s, j) == Take(g, n)(s, i)
    {
      assert g(s.src, j) == g(s.src, i);
    }
  }

  lemma DropSkips<S(!new), T>(g: Gen<S, T>, n: nat, s: S, c: nat, m: S, v: T, r: Step<Counted<S>, T>)
    requires Monotone(g) && Resumes(g, s, Yield(m, v)) && c < n && Resumes(Drop(g, n), Counted(m, c + 1), r)
    ensures Resumes(Drop(g, n), Counted(s, c), r)
  {
    var i: nat :| g(s, i) == Yield(m, v);
    var j: nat :| Drop(g, n)(Counted(m, c + 1), j) == r;
    var k := i + j + 1;
    assert g(s, k) == g(s, i);
    DropLoopMonotone(g, n, Counted(m, c + 1), j, k - 1);
    assert Drop(g, n)(Counted(s, c), k) == r;
  }

  lemma DropPasses<S(!new), T>(g: Gen<S, T>, n: nat, s: S, c: nat, r: Step<S, T>)
    requires Monotone(g) && Resumes(g, s, r) && (r.Done? || c >= n)
    ensures Resumes(Drop(g, n), Counted(s, c),
                    if r.Done? then Done(Counted(r.frame, c)) else Yield(Counted(r.frame, c + 1), r.value))
  {
    var i: nat :| g(s, i) == r;
    assert g(s, i + 1) == g(s, i);
    assert Drop(g, n)(Counted(s, c), i + 1)
           == if r.Done? then Done(Counted(r.frame, c)) else Yield(Counted(r.frame, c + 1), r.value);
  }

  /** How many of a list's elements drop skips, having skipped c. */
  function Skipped(n: nat, c: nat, len: nat): nat {
    if c >= n then 0 else if n - c <= len then n - c else len
  }

  /** Skipping an element does not change what comes out. */
  lemma DropProducesSkip<S(!new), T>(g: Gen<S, T>, n: nat, s: S, c: nat, m: S, v: T, ws: seq<T>, u: Counted<S>)
    requires Monotone(g) && Resumes(g, s, Yield(m, v)) && c < n && Produces(Drop(g, n), Counted(m, c + 1), ws, u)
    ensures Produces(Drop(g, n), Counted(s, c), ws, u)
  {
    var h := Drop(g, n);
    if ws == [] {
      DropSkips(g, n, s, c, m, v, Done(u));
    } else {
      var y :| Resumes(h, Counted(m, c + 1), Yield(y, ws[0])) && Produces(h, y, ws[1..], u);
      DropSkips(g, n, s, c, m, v, Yield(y, ws[0]));
    }
  }

  lemma DropEmitsSkip<S(!new), T>(g: Gen<S, T>, n: nat, s: S, c: nat, m: S, v: T, ws: seq<T>, t: Counted<S>)
    requires Monotone(g) && Resumes(g, s, Yield(m, v)) && c < n && ws != []
    requires Emits(Drop(g, n), Counted(m, c + 1), ws, t)
    ensures Emits(Drop(g, n), Counted(s, c), ws, t)
  {
    var h := Drop(g, n);
    var y :| Resumes(h, Counted(m, c + 1), Yield(y, ws[0])) && Emits(h, y, ws[1..], t);
    DropSkips(g, n, s, c, m, v, Yield(y, ws[0]));
  }

  lemma {:induction false} DropProduces<S(!new), T>(g: Gen<S, T>, n: nat, s: S, c: nat, vs: seq<T>, u: S)
    requires Monotone(g) && Produces(g, s, vs, u)
    ensures Produces(Drop(g, n), Counted(s, c), vs[Skipped(n, c, |vs|)..], Counted(u, c + |vs|))
    decreases |vs|
  {
    if vs == [] {
      DropPasses(g, n, s, c, Done(u));
    } else {
      var m :| Resumes(g, s, Yield(m, vs[0])) && Produces(g, m, vs[1..], u);
      DropProduces(g, n, m, c + 1, vs[1..], u);
      if c >= n {
        DropPasses(g, n, s, c, Yield(m, vs[0]));
      } else {
        DropProducesSkip(g, n, s, c, m, vs[0], vs[Skipped(n, c, |vs|)..], Counted(u, c + |vs|));
      }
    }
  }

  lemma {:induction false} DropEmits<S(!new), T>(g: Gen<S, T>, n: nat, s: S, c: nat, vs: seq<T>, t: S)
    requires Monotone(g) && Emits(g, s, vs, t) && (c < n ==> n < c + |vs|)
    ensures Emits(Drop(g, n), Counted(s, c), vs[Skipped(n, c, |vs|)..], Counted(t, c + |vs|))
    decreases |vs|
  {
    if vs != [] {
      var m :| Resumes(g, s, Yield(m, vs[0])) && Emits(g, m, vs[1..], t);
      DropEmits(g, n, m, c + 1, vs[1..], t);
      if c >= n {
        DropPasses(g, n, s, c, Yield(m, vs[0]));
      } else {
        DropEmitsSkip(g, n, s, c, m, vs[0], vs[Skipped(n, c, |vs|)..], Counted(t, c + |vs|));
      }
    }
  }

  // ---- zip ----

  lemma ZipResumes<A(!new), B(!new), T, U>(g: Gen<A, T>, h: Gen<B, U>, a: A, b: B, x: Step<A, T>, y: Step<B, U>)
    requires Monotone(g) && Monotone(h) && Resumes(g, a, x) && Resumes(h, b, y)
    ensures Resumes(Zip(g, h), Both(a, b),
                    if x.Yield? && y.Yield? then Yield(Both(x.frame, y.frame), (x.value, y.value))
                    else Done(Both(x.frame, y.frame)))
  {
    var i: nat :| g(a, i) == x;
    var j: nat :| h(b, j) == y;
    var k := i + j;
    assert g(a, k) == x && h(b, k) == y;
    assert Zip(g, h)(Both(a, b), k) == if x.Yield? && y.Yield? then Yield(Both(x.frame, y.frame), (x.value, y.value))
                                       else Done(Both(x.frame, y.frame));
  }

  /** zip ends with the shorter source, having pulled the longer one once more; equal lengths end both. */
  lemma {:induction false} ZipProduces<A(!new), B(!new), T, U>(
    g: Gen<A, T>, h: Gen<B, U>, a: A, b: B, vs: seq<T>, ws: seq<U>, u: A, w: B)
    requires Monotone(g) && Monotone(h)
    requires || (Produces(g, a, vs, u) && Emits(h, b, ws, w) && |ws| == |vs| + 1)
             || (Emits(g, a, vs, u) && Produces(h, b, ws, w) && |vs| == |ws| + 1)
             || (Produces(g, a, vs, u) && Produces(h, b, ws, w) && |vs| == |ws|)
    ensures Produces(Zip(g, h), Both(a, b), ZipList(vs, ws), Both(u, w))
    decreases |vs|
  {
    var z := ZipList(vs, ws);
    if vs == [] && ws == [] {
      ZipResumes(g, h, a, b, Done(u), Done(w));
    } else if vs == [] {
      var m :| Resumes(h, b, Yield(m, ws[0])) && Emits(h, m, ws[1..], w);
      assert m == w;
      ZipResumes(g, h, a, b, Done(u), Yield(w, ws[0]));
    } else if ws == [] {
      var m :| Resumes(g, a, Yield(m, vs[0])) && Emits(g, m, vs[1..], u);
      assert m == u;
      ZipResumes(g, h, a, b, Yield(u, vs[0]), Done(w));
    } else {
      ZipStep(g, h, a, b, vs, ws, u, w);
    }
  }

  lemma {:induction false} ZipStep<A(!new), B(!new), T, U>(
    g: Gen<A, T>, h: Gen<B, U>, a: A, b: B, vs: seq<T>, ws: seq<U>, u: A, w: B)
    requires Monotone(g) && Monotone(h) && vs != [] && ws != []
    requires || (Produces(g, a, vs, u) && Emits(h, b, ws, w) && |ws| == |vs| + 1)
             || (Emits(g, a, vs, u) && Produces(h, b, ws, w) && |vs| == |ws| + 1)
             || (Produces(g, a, vs, u) && Produces(h, b, ws, w) && |vs| == |ws|)
    ensures Produces(Zip(g, h), Both(a, b), ZipList(vs, ws), Both(u, w))
    decreases |vs|, 0
  {
    var z := ZipList(vs, ws);
    var m, k;
    if Produces(g, a, vs, u) {
      m :| Resumes(g, a, Yield(m, vs[0])) && Produces(g, m, vs[1..], u);
    } else {
      m :| Resumes(g, a, Yield(m, vs[0])) && Emits(g, m, vs[1..], u);
    }
    if Produces(h, b, ws, w) {
      k :| Resumes(h, b, Yield(k, ws[0])) && Produces(h, k, ws[1..], w);
    } else {
      k :| Resumes(h, b, Yield(k, ws[0])) && Emits(h, k, ws[1..], w);
    }
    ZipResumes(g, h, a, b, Yield(m, vs[0]), Yield(k, ws[0]));
    ZipProduces(g, h, m, k, vs[1..], ws[1..], u, w);
    assert z[1..] == ZipList(vs[1..], ws[1..]);
  }

  /** As long as neither ends: position by position, both pulled equally often. */
  lemma {:induction false} ZipEmits<A(!new), B(!new), T, U>(
    g: Gen<A, T>, h: Gen<B, U>, a: A, b: B, vs: seq<T>, ws: seq<U>, u: A, w: B)
    requires Monotone(g) && Monotone(h) && |vs| == |ws| && Emits(g, a, vs, u) && Emits(h, b, ws, w)
    ensures Emits(Zip(g, h), Both(a, b), ZipList(vs, ws), Both(u, w))
    decreases |vs|
  {
    if vs != [] {
      var m :| Resumes(g, a, Yield(m, vs[0])) && Emits(g, m, vs[1..], u);
      var k :| Resumes(h, b, Yield(k, ws[0])) && Emits(h, k, ws[1..], w);
      ZipResumes(g, h, a, b, Yield(m, vs[0]), Yield(k, ws[0]));
      ZipEmits(g, h, m, k, vs[1..], ws[1..], u, w);
      assert ZipList(vs, ws)[1..] == ZipList(vs[1..], ws[1..]);
    }
  }

  // ---- how often the source is resumed ----

  lemma MeteredMonotone<S(!new), T>(g: Gen<S, T>)
    requires Monotone(g)
    ensures Monotone(Metered(g))
  {
    forall s: Meter<S>, i: nat, j: nat | i <= j && !Metered(g)(s, i).Stuck?
      ensures Metered(g)(s, j) == Metered(g)(s, i)
    {
      assert g(s.frame, j) == g(s.frame, i);
    }
  }

  lemma MeteredResumes<S(!new), T>(g: Gen<S, T>, s: S, k: nat, r: Step<S, T>)
    requires Resumes(g, s, r)
    ensures Resumes(Metered(g), Meter(s, k, false),
                    if r.Done? then Done(Meter(r.frame, k + 1, true))
                    else Yield(Meter(r.frame, k + 1, false), r.value))
  {
    var i: nat :| g(s, i) == r;
    assert Metered(g)(Meter(s, k, false), i) == if r.Done? then Done(Meter(r.frame, k + 1, true))
                                                else Yield(Meter(r.frame, k + 1, false), r.value);
  }

  lemma {:induction false} MeteredEmits<S(!new), T>(g: Gen<S, T>, s: S, k: nat, vs: seq<T>, t: S)
    requires Emits(g, s, vs, t)
    ensures Emits(Metered(g), Meter(s, k, false), vs, Meter(t, k + |vs|, false))
    decreases |vs|
  {
    if vs != [] {
      var m :| Resumes(g, s, Yield(m, vs[0])) && Emits(g, m, vs[1..], t);
      MeteredResumes(g, s, k, Yield(m, vs[0]));
      MeteredEmits(g, m, k + 1, vs[1..], t);
    }
  }

  lemma {:induction false} MeteredProduces<S(!new), T>(g: Gen<S, T>, s: S, k: nat, vs: seq<T>, u: S)
    requires Produces(g, s, vs, u)
    ensures Produces(Metered(g), Meter(s, k, false), vs, Meter(u, k + |vs| + 1, true))
    decreases |vs|
  {
    if vs == [] {
      MeteredResumes(g, s, k, Done(u));
    } else {
      var m :| Resumes(g, s, Yield(m, vs[0])) && Produces(g, m, vs[1..], u);
      MeteredResumes(g, s, k, Yield(m, vs[0]));
      MeteredProduces(g, m, k + 1, vs[1..], u);
    }
  }

  /** take(drop(src, d), n) on a long or infinite source: the elements d .. d+n come out, the
      source is resumed d + n + 1 times, and is left suspended. */
  lemma PullsOfLongSource<S(!new), T>(g: Gen<S, T>, s: S, vs: seq<T>, t: S, d: nat, n: nat)
    requires Monotone(g) && Emits(g, s, vs, t) && |vs| == d + n + 1
    ensures Produces(Take(Drop(Metered(g), d), n), Counted(Counted(Meter(s, 0, false), 0), 0), vs[d..d + n],
                     Counted(Counted(Meter(t, d + n + 1, false), d + n + 1), n + 1))
  {
    var h := Metered(g);
    MeteredMonotone(g);
    MeteredEmits(g, s, 0, vs, t);
    DropEmits(h, d, Meter(s, 0, false), 0, vs, Meter(t, |vs|, false));
    TakeStops(Drop(h, d), n, Counted(Meter(s, 0, false), 0), 0, vs[d..], Counted(Meter(t, |vs|, false), |vs|));
    assert vs[d..][..n] == vs[d..d + n];
  }

  /** And on a source with at most d + n elements: all but the first d come out, and the source is
      resumed once more than it has elements. */
  lemma PullsOfShortSource<S(!new), T>(g: Gen<S, T>, s: S, vs: seq<T>, u: S, d: nat, n: nat)
    requires Monotone(g) && Produces(g, s, vs, u) && |vs| <= d + n
    ensures Produces(Take(Drop(Metered(g), d), n), Counted(Counted(Meter(s, 0, false), 0), 0),
                     vs[Skipped(d, 0, |vs|)..],
                     Counted(Counted(Meter(u, |vs| + 1, true), |vs|), |vs| - Skipped(d, 0, |vs|)))
  {
    var h, k := Metered(g), Skipped(d, 0, |vs|);
    MeteredMonotone(g);
    MeteredProduces(g, s, 0, vs, u);
    DropProduces(h, d, Meter(s, 0, false), 0, vs, Meter(u, |vs| + 1, true));
    TakeRunsDry(Drop(h, d), n, Counted(Meter(s, 0, false), 0), 0, vs[k..], Counted(Meter(u, |vs| + 1, true), |vs|));
  }

  /** The first n elements of a source given by its elements. */
  function Prefix<T>(at: nat -> T, n: nat): (r: seq<T>)
    ensures |r| == n
  {
    seq(n, i requires 0 <= i < n => at(i))
  }

  lemma {:induction false} FromEmits<T>(at: nat -> T, len: Option<nat>, i: nat, n: nat)
    requires i <= n && (len.Some? ==> n <= len.value)
    ensures Emits(From(at, len), Cursor(i), Prefix(at, n)[i..], Cursor(n))
    decreases n - i
  {
    if i < n {
      var vs := Prefix(at, n)[i..];
      assert From(at, len)(Cursor(i), 0) == Yield(Cursor(i + 1), vs[0]);
      FromEmits(at, len, i + 1, n);
      assert vs[1..] == Prefix(at, n)[i + 1..];
    }
  }

  lemma FromProduces<T>(at: nat -> T, len: nat)
    ensures Produces(From(at, Some(len)), Cursor(0), Prefix(at, len), Cursor(len))
  {
    var g, end := From(at, Some(len)), Cursor(len);
    FromEmits(at, Some(len), 0, len);
    assert g(end, 0) == Done(end);
    assert Produces(g, end, [], end);
    ProducesJoin(g, Cursor(0), Prefix(at, len)[0..], end, [], end);
    assert Prefix(at, len)[0..] + [] == Prefix(at, len);
  }

  function Min(a: nat, b: nat): nat { if a <= b then a else b }

  /** How many elements there are up to n. */
  function UpTo(len: Option<nat>, n: nat): nat { if len.Some? then Min(len.value, n) else n }

  /** take(drop(src, d), n), for `of` and `iota`. */
  function Window<T>(at: nat -> T, len: Option<nat>, d: nat, n: nat): Gen<Counted<Counted<Meter<Cursor>>>, T> {
    Take(Drop(Metered(From(at, len)), d), n)
  }

  const WINDOW_START := Counted(Counted(Meter(Cursor(0), 0, false), 0), 0)

  lemma WindowMonotone<T>(at: nat -> T, len: Option<nat>, d: nat, n: nat)
    ensures Monotone(Window(at, len, d, n))
  {
    var g := From(at, len);
    MeteredMonotone(g);
    DropMonotone(Metered(g), d);
    TakeMonotone(Drop(Metered(g), d), n);
  }

  lemma ShortWindow<T>(at: nat -> T, len: nat, d: nat, n: nat)
    requires len <= d + n
    ensures Produces(Window(at, Some(len), d, n), WINDOW_START, Prefix(at, len)[Skipped(d, 0, len)..],
                     Counted(Counted(Meter(Cursor(len), len + 1, true), len), len - Skipped(d, 0, len)))
  {
    FromProduces(at, len);
    PullsOfShortSource(From(at, Some(len)), Cursor(0), Prefix(at, len), Cursor(len), d, n);
  }

  lemma LongWindow<T>(at: nat -> T, len: Option<nat>, d: nat, n: nat)
    requires len.Some? ==> len.value > d + n
    ensures Produces(Window(at, len, d, n), WINDOW_START, Prefix(at, d + n)[d..],
                     Counted(Counted(Meter(Cursor(d + n + 1), d + n + 1, false), d + n + 1), n + 1))
  {
    var vs := Prefix(at, d + n + 1);
    FromEmits(at, len, 0, d + n + 1);
    assert vs[0..] == vs;
    PullsOfLongSource(From(at, len), Cursor(0), vs, Cursor(d + n + 1), d, n);
    assert vs[d..d + n] == Prefix(at, d + n)[d..];
  }

  /** Whenever it runs to its end, the elements are those at positions d .. d+n, and the source has
      been resumed min(d + n, length) + 1 times. */
  lemma TakeDropPulls<T(!new)>(at: nat -> T, len: Option<nat>, d: nat, n: nat)
    returns (u: Counted<Counted<Meter<Cursor>>>)
    ensures var out := Prefix(at, UpTo(len, d + n))[UpTo(len, d)..];
            && Produces(Window(at, len, d, n), WINDOW_START, out, u)
            && (u.src.src.resumes, u.src.src.finished) == (UpTo(len, d + n) + 1, len.Some? && len.value <= d + n)
            && forall ws, x :: Produces(Window(at, len, d, n), WINDOW_START, ws, x) ==> ws == out && x == u
  {
    var h, out := Window(at, len, d, n), Prefix(at, UpTo(len, d + n))[UpTo(len, d)..];
    if len.Some? && len.value <= d + n {
      var k := len.value;
      ShortWindow(at, k, d, n);
      u := Counted(Counted(Meter(Cursor(k), k + 1, true), k), k - Skipped(d, 0, k));
    } else {
      LongWindow(at, len, d, n);
      u := Counted(Counted(Meter(Cursor(d + n + 1), d + n + 1, false), d + n + 1), n + 1);
    }
    WindowMonotone(at, len, d, n);
    forall ws, x | Produces(h, WINDOW_START, ws, x) ensures ws == out && x == u {
      OutputIsUnique(h, WINDOW_START, out, u, ws, x);
    }
  }

  /** take(zip(iota, iota), n): the first n pairs, and both sources pulled n + 1 times. */
  lemma TakeZipPulls<T, U>(at: nat -> T, bt: nat -> U, n: nat)
    ensures Produces(Take(Zip(From(at, None), From(bt, None)), n), Counted(Both(Cursor(0), Cursor(0)), 0),
                     ZipList(Prefix(at, n), Prefix(bt, n)), Counted(Both(Cursor(n + 1), Cursor(n + 1)), n + 1))
  {
    var g, h, k := From(at, None), From(bt, None), n + 1;
    var vs, ws := Prefix(at, k), Prefix(bt, k);
    FromEmits(at, None, 0, k);
    FromEmits(bt, None, 0, k);
    assert vs[0..] == vs && ws[0..] == ws;
    ZipEmits(g, h, Cursor(0), Cursor(0), vs, ws, Cursor(k), Cursor(k));
    ZipLength(vs, ws);
    ZipLength(Prefix(at, n), Prefix(bt, n));
    assert ZipList(vs, ws)[..n] == ZipList(Prefix(at, n), Prefix(bt, n));
    TakeStops(Zip(g, h), n, Both(Cursor(0), Cursor(0)), 0, ZipList(vs, ws), Both(Cursor(k), Cursor(k)));
  }

  lemma {:induction false} ZipLength<T, U>(vs: seq<T>, ws: seq<U>)
    requires |vs| == |ws|
    ensures |ZipList(vs, ws)| == |vs| && forall i :: 0 <= i < |vs| ==> ZipList(vs, ws)[i] == (vs[i], ws[i])
    decreases |vs|
  {
    if vs != [] {
      ZipLength(vs[1..], ws[1..]);
      forall i | 0 <= i < |vs| ensures ZipList(vs, ws)[i] == (vs[i], ws[i]) {
        if i > 0 { assert ZipList(vs, ws)[i] == ZipList(vs[1..], ws[1..])[i - 1]; }
      }
    }
  }

  // ---- when does take(filter(…)) end? ----

  /** Some prefix of the source has n elements that pass. */
  ghost predicate Passing<S(!new), T(!new)>(g: Gen<S, T>, p: T -> bool, s: S, n: nat) {
    exists vs, t :: Emits(g, s, vs, t) && |FilterList(p, vs)| == n
  }

  ghost predicate FinishesPassing<S(!new), T(!new)>(g: Gen<S, T>, p: T -> bool, s: S, n: nat) {
    exists vs, u :: Produces(g, s, vs, u) && |FilterList(p, vs)| <= n
  }

  /** take(filter(src, p), n) finishes if and only if n + 1 elements of the source satisfy p, or the
      source finishes with at most n that do. */
  lemma TakeFilterFinishesIff<S(!new), T(!new)>(g: Gen<S, T>, p: T -> bool, s: S, n: nat)
    requires Monotone(g)
    ensures Finishes(Take(Filter(g, p), n), Counted(s, 0)) <==> Passing(g, p, s, n + 1) || FinishesPassing(g, p, s, n)
  {
    var f := Filter(g, p);
    TakeFinishesIff(f, n, s);
    if EmitsMany(f, s, n + 1) {
      var ws, t :| |ws| == n + 1 && Emits(f, s, ws, t);
      var vs := FilterEmitsOnlySo(g, p, s, ws, t);
      assert Passing(g, p, s, n + 1);
    }
    if FinishesWithin(f, s, n) {
      var ws, u :| |ws| <= n && Produces(f, s, ws, u);
      var vs := FilterProducesOnlySo(g, p, s, ws, u);
      assert FinishesPassing(g, p, s, n);
    }
    if Passing(g, p, s, n + 1) {
      var vs, t :| Emits(g, s, vs, t) && |FilterList(p, vs)| == n + 1;
      FilterEmits(g, p, s, vs, t, n + 1);
      var m :| Emits(f, s, FilterList(p, vs)[..n + 1], m);
      assert EmitsMany(f, s, n + 1);
    }
    if FinishesPassing(g, p, s, n) {
      var vs, u :| Produces(g, s, vs, u) && |FilterList(p, vs)| <= n;
      FilterProduces(g, p, s, vs, u);
      assert FinishesWithin(f, s, n);
    }
  }

  /** A source without end only ever emits its own prefixes, and does not finish. */
  lemma {:induction false} EndlessEmits<T>(at: nat -> T, i: nat, vs: seq<T>, t: Cursor)
    requires Emits(From(at, None), Cursor(i), vs, t)
    ensures t.next == i + |vs| && vs == Prefix(at, t.next)[i..]
    decreases |vs|
  {
    if vs != [] {
      var m :| Resumes(From(at, None), Cursor(i), Yield(m, vs[0])) && Emits(From(at, None), m, vs[1..], t);
      EndlessEmits(at, m.next, vs[1..], t);
      assert vs == [vs[0]] + vs[1..];
    }
  }

  lemma {:induction false} EndlessNeverEnds<T>(at: nat -> T, i: nat, vs: seq<T>, u: Cursor)
    ensures !Produces(From(at, None), Cursor(i), vs, u)
    decreases |vs|
  {
    if Produces(From(at, None), Cursor(i), vs, u) && vs != [] {
      var m :| Resumes(From(at, None), Cursor(i), Yield(m, vs[0])) && Produces(From(at, None), m, vs[1..], u);
      EndlessNeverEnds(at, m.next, vs[1..], u);
    }
  }

  /** take(filter(iota, p), n) finishes if and only if at least n + 1 of the elements satisfy p:
      n of them are not enough. */
  lemma EndlessFilterFinishesIff<T(!new)>(at: nat -> T, p: T -> bool, n: nat)
    ensures Finishes(Take(Filter(From(at, None), p), n), Counted(Cursor(0), 0))
            <==> exists k: nat :: |FilterList(p, Prefix(at, k))| == n + 1
  {
    var g := From(at, None);
    TakeFilterFinishesIff(g, p, Cursor(0), n);
    if Passing(g, p, Cursor(0), n + 1) {
      var vs, t :| Emits(g, Cursor(0), vs, t) && |FilterList(p, vs)| == n + 1;
      EndlessEmits(at, 0, vs, t);
      assert vs == Prefix(at, t.next);
    }
    if k: nat :| |FilterList(p, Prefix(at, k))| == n + 1 {
      FromEmits(at, None, 0, k);
      assert Prefix(at, k)[0..] == Prefix(at, k);
      assert Passing(g, p, Cursor(0), n + 1);
    }
    if FinishesPassing(g, p, Cursor(0), n) {
      var vs, u :| Produces(g, Cursor(0), vs, u) && |FilterList(p, vs)| <= n;
      EndlessNeverEnds(at, 0, vs, u);
      assert false;
    }
  }

  // ---- lazy against eager ----

  lemma ScanMonotone<S(!new), T, U(!new)>(g: Gen<S, T>, op: (U, T) -> U)
    requires Monotone(g)
    ensures Monotone(Scan(g, op))
  {
    forall s: Scanning<S, U>, i: nat, j: nat | i <= j && !Scan(g, op)(s, i).Stuck?
      ensures Scan(g, op)(s, j) == Scan(g, op)(s, i)
    {
      assert g(s.src, j) == g(s.src, i);
    }
  }

  /** For every finite source, the lazy map-filter-scan pipeline yields what the eager functions
      compute, and nothing else; its last value is the eager reduction. */
  lemma LazyIsEager<S(!new), T, U, V(!new)>(g: Gen<S, T>, f: T -> U, p: U -> bool, op: (V, U) -> V, init: V,
                                             s: S, vs: seq<T>, u: S)
    requires Monotone(g) && Produces(g, s, vs, u)
    ensures var h := Scan(Filter(Map(g, f), p), op);
            var xs := FilterList(p, MapList(f, vs));
            && Produces(h, Scanning(s, init), ScanList(op, init, xs), Scanning(u, Fold(op, init, xs)))
            && (forall ys, x :: Produces(h, Scanning(s, init), ys, x) ==>
                  && ys == ScanList(op, init, xs)
                  && (if ys == [] then init else ys[|ys| - 1]) == Fold(op, init, xs))
  {
    var fm, xs := Filter(Map(g, f), p), FilterList(p, MapList(f, vs));
    var h, out, last := Scan(fm, op), ScanList(op, init, xs), Scanning(u, Fold(op, init, xs));
    MapMonotone(g, f);
    FilterMonotone(Map(g, f), p);
    ScanMonotone(fm, op);
    MapProduces(g, f, s, vs, u);
    FilterProduces(Map(g, f), p, s, MapList(f, vs), u);
    ScanProduces(fm, op, s, init, xs, u);
    ScanEndsInFold(op, init, xs);
    forall ys, x | Produces(h, Scanning(s, init), ys, x)
      ensures ys == out && (if ys == [] then init else ys[|ys| - 1]) == Fold(op, init, xs)
    {
      OutputIsUnique(h, Scanning(s, init), out, last, ys, x);
    }
  }

  /** And over a finite source it resumes that source once more than the source has elements, never
      after it finished. */
  lemma PipelinePulls<S(!new), T, U, V(!new)>(g: Gen<S, T>, f: T -> U, p: U -> bool, op: (V, U) -> V, init: V,
                                               s: S, vs: seq<T>, u: S)
    requires Monotone(g) && Produces(g, s, vs, u)
    ensures var xs := FilterList(p, MapList(f, vs));
            Produces(Scan(Filter(Map(Metered(g), f), p), op), Scanning(Meter(s, 0, false), init),
                     ScanList(op, init, xs), Scanning(Meter(u, |vs| + 1, true), Fold(op, init, xs)))
  {
    MeteredMonotone(g);
    MeteredProduces(g, s, 0, vs, u);
    LazyIsEager(Metered(g), f, p, op, init, Meter(s, 0, false), vs, Meter(u, |vs| + 1, true));
  }

  /** One resume of filter, as the loop it is: pull until something passes. */
  method ResumeFilter<S, T>(g: Gen<S, T>, p: T -> bool, start: S, fuel: nat) returns (r: Step<S, T>)
    ensures r == Filter(g, p)(start, fuel)
  {
    var s, left := start, fuel;
    while left > 0
      invariant FilterLoop(g, p, s, left) == FilterLoop(g, p, start, fuel)
    {
      var x := g(s, left);
      if !x.Yield? || p(x.value) { return x; }
      s, left := x.frame, left - 1;
    }
    r := Stuck;
  }

  /** One resume of drop: pull and count until n have been skipped. */
  method ResumeDrop<S, T>(g: Gen<S, T>, n: nat, start: Counted<S>, fuel: nat) returns (r: Step<Counted<S>, T>)
    ensures r == Drop(g, n)(start, fuel)
  {
    var s, skipped: nat, left := start.src, start.count, fuel;
    while left > 0
      invariant DropLoop(g, n, Counted(s, skipped), left) == DropLoop(g, n, start, fuel)
    {
      var x := g(s, left);
      if x.Stuck? { return Stuck; }
      if x.Done? { return Done(Counted(x.frame, skipped)); }
      if skipped >= n { return Yield(Counted(x.frame, skipped + 1), x.value); }
      s, skipped, left := x.frame, skipped + 1, left - 1;
    }
    r := Stuck;
  }

  /** One resume: run until the coroutine suspends. */
  method Resume<S(!new), T(!new)>(g: Gen<S, T>, s: S) returns (r: Step<S, T>)
    requires exists want :: Resumes(g, s, want)
    ensures Resumes(g, s, r)
  {
    ghost var want :| Resumes(g, s, want);
    ghost var enough: nat :| g(s, enough) == want;
    var fuel: nat := 0;
    r := g(s, fuel);
    while r.Stuck?
      invariant r == g(s, fuel) && fuel <= enough
      decreases enough - fuel
    {
      fuel := fuel + 1;
      r := g(s, fuel);
    }
  }

  lemma FirstResume<S(!new), T(!new)>(g: Gen<S, T>, s: S, vs: seq<T>, u: S) returns (want: Step<S, T>)
    requires Produces(g, s, vs, u)
    ensures Resumes(g, s, want)
    ensures || (vs == [] && want == Done(u))
            || (vs != [] && want.Yield? && want.value == vs[0] && Produces(g, want.frame, vs[1..], u))
  {
    if vs == [] {
      want := Done(u);
    } else {
      var m :| Resumes(g, s, Yield(m, vs[0])) && Produces(g, m, vs[1..], u);
      want := Yield(m, vs[0]);
    }
  }

  lemma RunsOn<S(!new), T(!new)>(g: Gen<S, T>, s: S, out: seq<T>, m: S, v: T, t: S)
    requires Emits(g, s, out, m) && Resumes(g, m, Yield(t, v))
    ensures Emits(g, s, out + [v], t)
  {
    assert [v][1..] == [] && Emits(g, t, [v][1..], t);
    EmitsJoin(g, s, out, m, [v], t);
  }

  /** `collect`: resume and append until the generator is done. */
  method Collect<S(!new), T(!new)>(g: Gen<S, T>, start: S) returns (out: seq<T>, end: S)
    requires Monotone(g) && Finishes(g, start)
    ensures Produces(g, start, out, end)
    ensures forall vs, u :: Produces(g, start, vs, u) ==> vs == out && u == end
  {
    ghost var vs, u :| Produces(g, start, vs, u);
    var s := start;
    out := [];
    var done := false;
    while !done
      invariant !done ==> Emits(g, start, out, s) && Produces(g, s, vs, u)
      invariant done ==> Produces(g, start, out, s)
      decreases |vs|, !done
    {
      ghost var want := FirstResume(g, s, vs, u);
      var r := Resume(g, s);
      ResumesOnce(g, s, r, want);
      if r.Yield? {
        RunsOn(g, start, out, s, r.value, r.frame);
        s, out, vs := r.frame, out + [r.value], vs[1..];
      } else {
        ProducesJoin(g, start, out, s, [], r.frame);
        assert out + [] == out;
        s, done := r.frame, true;
      }
    }
    end := s;
    forall ws, x | Produces(g, start, ws, x) ensures ws == out && x == end {
      OutputIsUnique(g, start, out, end, ws, x);
    }
  }

  // ---- the eager functions ----

  lemma {:induction false} ListsGrow<T, U>(f: T -> U, vs: seq<T>, v: T)
    ensures MapList(f, vs + [v]) == MapList(f, vs) + [f(v)]
  {
    if vs == [] {
      assert vs + [v] == [v];
    } else {
      ListsGrow(f, vs[1..], v);
      assert (vs + [v])[1..] == vs[1..] + [v];
    }
  }

  lemma FilterListGrows<T>(p: T -> bool, vs: seq<T>, v: T)
    ensures FilterList(p, vs + [v]) == FilterList(p, vs) + if p(v) then [v] else []
  {
    FilterListJoins(p, vs, [v]);
    assert [v][1..] == [];
  }

  lemma {:induction false} FoldGrows<T, U>(op: (U, T) -> U, init: U, vs: seq<T>, v: T)
    ensures Fold(op, init, vs + [v]) == op(Fold(op, init, vs), v)
  {
    if vs == [] {
      assert vs + [v] == [v];
    } else {
      FoldGrows(op, op(init, vs[0]), vs[1..], v);
      assert (vs + [v])[1..] == vs[1..] + [v];
    }
  }

  method EagerMap<T, U>(v: seq<T>, f: T -> U) returns (out: seq<U>)
    ensures out == MapList(f, v)
    ensures |out| == |v| && forall i :: 0 <= i < |v| ==> out[i] == f(v[i])
  {
    out := [];
    for i := 0 to |v|
      invariant out == MapList(f, v[..i])
      invariant |out| == i && forall j :: 0 <= j < i ==> out[j] == f(v[j])
    {
      ListsGrow(f, v[..i], v[i]);
      assert v[..i + 1] == v[..i] + [v[i]];
      out := out + [f(v[i])];
    }
    assert v[..|v|] == v;
  }

  method EagerFilter<T>(v: seq<T>, pred: T -> bool) returns (out: seq<T>)
    ensures out == FilterList(pred, v)
  {
    out := [];
    for i := 0 to |v|
      invariant out == FilterList(pred, v[..i])
    {
      FilterListGrows(pred, v[..i], v[i]);
      assert v[..i + 1] == v[..i] + [v[i]];
      if pred(v[i]) { out := out + [v[i]]; }
    }
    assert v[..|v|] == v;
  }

  method EagerReduce<T, U>(v: seq<T>, init: U, op: (U, T) -> U) returns (acc: U)
    ensures acc == Fold(op, init, v)
  {
    acc := init;
    for i := 0 to |v|
      invariant acc == Fold(op, init, v[..i])
    {
      FoldGrows(op, init, v[..i], v[i]);
      assert v[..i + 1] == v[..i] + [v[i]];
      acc := op(acc, v[i]);
    }
    assert v[..|v|] == v;
  }

  /** A whole program: collecting the lazy pipeline gives what the eager calls return. */
  method CollectIsEager<S(!new), T(!new), U(!new), V(!new)>(
    g: Gen<S, T>, start: S, f: T -> U, p: U -> bool, op: (V, U) -> V, init: V)
    returns (lazy: seq<V>, eager: V)
    requires Monotone(g) && Finishes(g, start)
    ensures eager == if lazy == [] then init else lazy[|lazy| - 1]
    ensures exists vs, u :: Produces(g, start, vs, u) && lazy == ScanList(op, init, FilterList(p, MapList(f, vs)))
  {
    var vs, u := Collect(g, start);
    LazyIsEager(g, f, p, op, init, start, vs, u);
    var h := Scan(Filter(Map(g, f), p), op);
    MapMonotone(g, f);
    FilterMonotone(Map(g, f), p);
    ScanMonotone(Filter(Map(g, f), p), op);
    var end;
    lazy, end := Collect(h, Scanning(start, init));
    var mapped := EagerMap(vs, f);
    var kept := EagerFilter(mapped, p);
    eager := EagerReduce(kept, init, op);
  }
}
