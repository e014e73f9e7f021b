/** `Task<T>` of coroutines/02_task.cpp: lazily started coroutines whose awaiting and completion
    hand control over by symmetric transfer.

    `Eval` is what a reader of the coroutine bodies expects: awaiting a task is calling it. The
    machine below is what the promise types do: frames on a heap, a continuation stored in the
    callee's promise, a result variant, and one native activation that is replaced at each
    transfer. The theorems say that the two agree for every program, recursive ones included. */
module TaskMachine {
  import opened Options

  /** Local variables are numbered. */
  type Name = nat

  type Env = map<Name, int>

  datatype Expr = Lit(n: int) | Local(x: Name) | Add(l: Expr, r: Expr) | Mul(l: Expr, r: Expr)

  function Value(e: Expr, env: Env): int {
    match e
    case Lit(n) => n
    case Local(x) => if x in env then env[x] else 0
    case Add(l, r) => Value(l, env) + Value(r, env)
    case Mul(l, r) => Value(l, env) * Value(r, env)
  }

  /** A coroutine body. `Val` is a value used by the enclosing `Let`, or reaching the end of the
      body; `Return` leaves the whole body from anywhere; `Await` calls another coroutine. */
  datatype Body =
    | Val(e: Expr)
    | Return(e: Expr)
    | Throw(e: Expr)
    | Await(callee: nat, arg: Expr)
    | Let(x: Name, first: Body, rest: Body)
    | If(cond: Expr, yes: Body, no: Body)
    | Try(body: Body, x: Name, handler: Body)

  datatype Function = Function(param: Name, body: Body)

  /** All coroutines of a program; they may await one another and themselves. */
  type Program = nat -> Function

  // ---- direct evaluation ----

  datatype Outcome = Normal(v: int) | Returned(v: int) | Thrown(e: int)

  /** What a promise holds: std::monostate, a value, or an exception_ptr. */
  datatype Result = Pending | Done(v: int) | Failed(e: int)

  datatype Evaluation = Out(outcome: Outcome, awaits: nat) | Unfinished

  function ResultOf(o: Outcome): Result {
    match o
    case Normal(v) => Done(v)
    case Returned(v) => Done(v)
    case Thrown(e) => Failed(e)
  }

  /** What the awaiting expression sees: the value, or the exception thrown again. */
  function Resumed(r: Result): Outcome
    requires !r.Pending?
  {
    match r
    case Done(v) => Normal(v)
    case Failed(e) => Thrown(e)
  }

  /** Recursive evaluation, with calls nested at most `fuel` deep; it also counts the awaits. */
  function Eval(p: Program, fuel: nat, b: Body, env: Env): Evaluation
    decreases fuel, b
  {
    match b
    case Val(e) => Out(Normal(Value(e, env)), 0)
    case Return(e) => Out(Returned(Value(e, env)), 0)
    case Throw(e) => Out(Thrown(Value(e, env)), 0)
    case Await(g, arg) =>
      if fuel == 0 then Unfinished else
      var r := Eval(p, fuel - 1, p(g).body, map[p(g).param := Value(arg, env)]);
      if r.Unfinished? then Unfinished else Out(Resumed(ResultOf(r.outcome)), r.awaits + 1)
    case Let(x, first, rest) =>
      var r := Eval(p, fuel, first, env);
      if r.Unfinished? || !r.outcome.Normal? then r else
      var q := Eval(p, fuel, rest, env[x := r.outcome.v]);
      if q.Unfinished? then Unfinished else Out(q.outcome, r.awaits + q.awaits)
    case If(c, yes, no) =>
      if Value(c, env) != 0 then Eval(p, fuel, yes, env) else Eval(p, fuel, no, env)
    case Try(body, x, handler) =>
      var r := Eval(p, fuel, body, env);
      if r.Unfinished? || !r.outcome.Thrown? then r else
      var q := Eval(p, fuel, handler, env[x := r.outcome.e]);
      if q.Unfinished? then Unfinished else Out(q.outcome, r.awaits + q.awaits)
  }

  // ---- the coroutine machine ----

  /** The blocks of one body that are open at its suspension point. */
  datatype Blocks =
    | Outermost
    | InLet(x: Name, rest: Body, env: Env, up: Blocks)
    | InTry(x: Name, handler: Body, env: Env, up: Blocks)

  datatype Control =
    | Exec(body: Body, env: Env)
    | Deliver(outcome: Outcome)
    | Awaiting(child: nat)
    | AtFinalSuspend

  datatype Frame = Frame(control: Control, blocks: Blocks, result: Result, continuation: Option<nat>)

  /** The heap of frames, the native stack of running activations, the next free handle, and the
      number of symmetric transfers so far. An empty stack: control is back in sync_wait. */
  datatype Machine = Machine(frames: map<nat, Frame>, stack: seq<nat>, next: nat, transfers: nat)
  {
    predicate Halted() { stack == [] }

    /** The frame being run. */
    predicate Running(c: nat) { stack != [] && stack[|stack| - 1] == c && c in frames }

    function Goto(c: nat, control: Control): Machine
      requires c in frames
    {
      this.(frames := frames[c := frames[c].(control := control)])
    }

    function Enter(c: nat, control: Control, blocks: Blocks): Machine
      requires c in frames
    {
      this.(frames := frames[c := frames[c].(control := control, blocks := blocks)])
    }

    /** Symmetric transfer: the activation on top of the native stack is replaced. */
    function Transfer(target: Option<nat>): Machine
      requires stack != []
    {
      this.(stack := stack[..|stack| - 1] + (if target.Some? then [target.value] else []),
            transfers := transfers + 1)
    }
  }

  /** Calling a coroutine allocates a suspended frame. */
  function NewFrame(f: Function, arg: int, continuation: Option<nat>): Frame {
    Frame(Exec(f.body, map[f.param := arg]), Outermost, Pending, continuation)
  }

  function Step(p: Program, m: Machine): Machine {
    if m.stack == [] || m.stack[|m.stack| - 1] !in m.frames then m else
    var c := m.stack[|m.stack| - 1];
    match m.frames[c].control
    case Exec(body, env) => ExecStep(p, m, c, body, env)
    case Deliver(o) => DeliverStep(m, c, o)
    case Awaiting(child) =>
      // await_resume: read the child's variant, then the child's Task is destroyed.
      if child !in m.frames || m.frames[child].result.Pending? || child == c then m else
      m.(frames := m.frames[c := m.frames[c].(control := Deliver(Resumed(m.frames[child].result)))] - {child})
    case AtFinalSuspend => m
  }

  function ExecStep(p: Program, m: Machine, c: nat, body: Body, env: Env): Machine
    requires m.Running(c)
  {
    var blocks := m.frames[c].blocks;
    match body
    case Val(e) => m.Goto(c, Deliver(Normal(Value(e, env))))
    case Return(e) => m.Goto(c, Deliver(Returned(Value(e, env))))
    case Throw(e) => m.Goto(c, Deliver(Thrown(Value(e, env))))
    case Let(x, first, rest) => m.Enter(c, Exec(first, env), InLet(x, rest, env, blocks))
    case If(cond, yes, no) => m.Goto(c, Exec(if Value(cond, env) != 0 then yes else no, env))
    case Try(b, x, handler) => m.Enter(c, Exec(b, env), InTry(x, handler, env, blocks))
    case Await(g, arg) =>
      // await_suspend: store the awaiter as continuation and transfer into the child.
      var child := m.next;
      var m1 := m.Goto(c, Awaiting(child));
      m1.(frames := m1.frames[child := NewFrame(p(g), Value(arg, env), Some(c))], next := child + 1)
        .Transfer(Some(child))
  }

  /** A value, a co_return or an exception leaves one block, or the whole body. */
  function DeliverStep(m: Machine, c: nat, o: Outcome): Machine
    requires m.Running(c)
  {
    match m.frames[c].blocks
    case InLet(x, rest, env, up) =>
      if o.Normal? then m.Enter(c, Exec(rest, env[x := o.v]), up) else m.Enter(c, Deliver(o), up)
    case InTry(x, handler, env, up) =>
      if o.Thrown? then m.Enter(c, Exec(handler, env[x := o.e]), up) else m.Enter(c, Deliver(o), up)
    case Outermost =>
      // return_value or unhandled_exception, then final_suspend transfers to the continuation.
      m.(frames := m.frames[c := m.frames[c].(control := AtFinalSuspend, result := ResultOf(o))])
        .Transfer(m.frames[c].continuation)
  }

  function Steps(p: Program, m: Machine, k: nat): Machine
    decreases k
  {
    if k == 0 then m else Steps(p, Step(p, m), k - 1)
  }

  /** sync_wait on a fresh task: its frame has no continuation, and resume() makes it the one
      native activation. */
  function Start(p: Program, g: nat, arg: int): Machine {
    Machine(map[0 := NewFrame(p(g), arg, None)], [0], 1, 0)
  }

  // ---- running several steps ----

  lemma {:induction false} StepsAdd(p: Program, m: Machine, i: nat, j: nat)
    ensures Steps(p, m, i + j) == Steps(p, Steps(p, m, i), j)
    decreases i
  {
    if i > 0 { StepsAdd(p, Step(p, m), i - 1, j); }
  }

  lemma {:induction false} HaltedStays(p: Program, m: Machine, k: nat)
    requires m.Halted()
    ensures Steps(p, m, k) == m
  {
    if k > 0 { HaltedStays(p, m, k - 1); }
  }

  /** Still running after more steps means still running after fewer. */
  lemma NotHaltedEarlier(p: Program, m: Machine, i: nat, j: nat)
    requires i <= j && !Steps(p, m, j).Halted()
    ensures !Steps(p, m, i).Halted()
  {
    StepsAdd(p, m, i, j - i);
    if Steps(p, m, i).Halted() {
      HaltedStays(p, Steps(p, m, i), j - i);
    }
  }

  /** Handles in use are below the next one, and c is running alone. */
  ghost predicate Ready(m: Machine, c: nat) {
    && m.stack == [c]
    && c in m.frames
    && (forall id :: id in m.frames ==> id < m.next)
  }

  /** The machine with c moved on, after n awaits. */
  function Reached(m: Machine, c: nat, control: Control, n: nat): Machine
    requires c in m.frames
  {
    m.Goto(c, control).(next := m.next + n, transfers := m.transfers + 2 * n)
  }

  /** The machine after c's current block has been evaluated. */
  function Delivered(m: Machine, c: nat, r: Evaluation): Machine
    requires c in m.frames && r.Out?
  {
    Reached(m, c, Deliver(r.outcome), r.awaits)
  }

  lemma ReachedTwice(m: Machine, c: nat, first: Control, i: nat, second: Control, j: nat)
    requires c in m.frames
    ensures Reached(Reached(m, c, first, i), c, second, j) == Reached(m, c, second, i + j)
  {
    assert Reached(Reached(m, c, first, i), c, second, j).frames == Reached(m, c, second, i + j).frames;
  }

  /** Where an outcome of the body of a `Let` or `Try` leads. */
  function Continue(b: Body, env: Env, o: Outcome): Control
    requires b.Let? || b.Try?
  {
    if b.Let? then (if o.Normal? then Exec(b.rest, env[b.x := o.v]) else Deliver(o))
    else (if o.Thrown? then Exec(b.handler, env[b.x := o.e]) else Deliver(o))
  }

  function Inner(b: Body): Body
    requires b.Let? || b.Try?
  {
    if b.Let? then b.first else b.body
  }

  /** c is running alone and about to execute b. */
  ghost predicate Executes(m: Machine, c: nat, b: Body, env: Env) {
    Ready(m, c) && m.frames[c].control == Exec(b, env)
  }

  /** If direct evaluation finishes, the machine reaches after k steps the same outcome at the
      same block, with every other frame untouched, every child frame gone again, and two
      transfers for each await. If it runs out of fuel, the machine is still running after k
      steps, which are at least that many. */
  ghost predicate Agrees(p: Program, r: Evaluation, fuel: nat, m: Machine, c: nat, k: nat)
    requires c in m.frames
  {
    || (r.Out? && Steps(p, m, k) == Delivered(m, c, r))
    || (r.Unfinished? && k >= fuel && !Steps(p, m, k).Halted())
  }

  /** The simulation, by recursion on the fuel and the body. */
  lemma {:induction false} Simulates(p: Program, fuel: nat, m: Machine, c: nat, b: Body, env: Env) returns (k: nat)
    requires Executes(m, c, b, env)
    ensures Agrees(p, Eval(p, fuel, b, env), fuel, m, c, k)
    decreases fuel, b
  {
    match b
    case Val(_) => k := SimulatesLeaf(p, fuel, m, c, b, env);
    case Return(_) => k := SimulatesLeaf(p, fuel, m, c, b, env);
    case Throw(_) => k := SimulatesLeaf(p, fuel, m, c, b, env);
    case If(cond, yes, no) =>
      var chosen := if Value(cond, env) != 0 then yes else no;
      TakesBranch(p, m, c, b, env);
      var k1 := Simulates(p, fuel, Step(p, m), c, chosen, env);
      k := BranchAgrees(p, fuel, m, c, b, env, k1);
    case Await(g, arg) =>
      if fuel == 0 {
        k := 0;
      } else {
        AwaitStarts(p, m, c, b, env);
        var k1 := Simulates(p, fuel - 1, Step(p, m), m.next, p(g).body, map[p(g).param := Value(arg, env)]);
        EvalAwait(p, fuel, b, env);
        k := AwaitAgrees(p, fuel, m, c, b, env, Call(p, fuel - 1, g, Value(arg, env)), k1);
      }
    case Let(_, _, _) => k := SimulatesBlock(p, fuel, m, c, b, env);
    case Try(_, _, _) => k := SimulatesBlock(p, fuel, m, c, b, env);
  }

  lemma SimulatesLeaf(p: Program, fuel: nat, m: Machine, c: nat, b: Body, env: Env) returns (k: nat)
    requires Executes(m, c, b, env) && (b.Val? || b.Return? || b.Throw?)
    ensures Agrees(p, Eval(p, fuel, b, env), fuel, m, c, k)
  {
    k := 1;
    OneStep(p, m);
  }

  lemma OneStep(p: Program, m: Machine)
    ensures Steps(p, m, 1) == Step(p, m)
  {
    assert Steps(p, m, 1) == Steps(p, Step(p, m), 0);
  }

  lemma TakesBranch(p: Program, m: Machine, c: nat, b: Body, env: Env)
    requires Executes(m, c, b, env) && b.If?
    ensures var chosen := if Value(b.cond, env) != 0 then b.yes else b.no;
            Executes(Step(p, m), c, chosen, env) && Step(p, m) == Reached(m, c, Exec(chosen, env), 0)
  {
  }

  lemma BranchAgrees(p: Program, fuel: nat, m: Machine, c: nat, b: Body, env: Env, k1: nat) returns (k: nat)
    requires Executes(m, c, b, env) && b.If?
    requires var chosen := if Value(b.cond, env) != 0 then b.yes else b.no;
             && Executes(Step(p, m), c, chosen, env) && Step(p, m) == Reached(m, c, Exec(chosen, env), 0)
             && Agrees(p, Eval(p, fuel, chosen, env), fuel, Step(p, m), c, k1)
    ensures Agrees(p, Eval(p, fuel, b, env), fuel, m, c, k)
  {
    var r := Eval(p, fuel, b, env);
    k := k1 + 1;
    FirstStep(p, m, k1);
    if r.Out? {
      ReachedTwice(m, c, Step(p, m).frames[c].control, 0, Deliver(r.outcome), r.awaits);
    }
  }

  // ---- blocks ----

  /** Direct evaluation of a block in two halves. */
  lemma EvalBlock(p: Program, fuel: nat, b: Body, env: Env)
    requires b.Let? || b.Try?
    ensures Eval(p, fuel, b, env) == Sequence(p, fuel, b, env, Eval(p, fuel, Inner(b), env))
  {
  }

  /** The evaluation of a block once its inner body has been evaluated to r. */
  function Sequence(p: Program, fuel: nat, b: Body, env: Env, r: Evaluation): Evaluation
    requires b.Let? || b.Try?
  {
    if r.Unfinished? || Continue(b, env, r.outcome).Deliver? then r else
    var next := Continue(b, env, r.outcome);
    var q := Eval(p, fuel, next.body, next.env);
    if q.Unfinished? then Unfinished else Out(q.outcome, r.awaits + q.awaits)
  }

  lemma EntersBlock(p: Program, m: Machine, c: nat, b: Body, env: Env)
    requires Executes(m, c, b, env) && (b.Let? || b.Try?)
    ensures Executes(Step(p, m), c, Inner(b), env)
  {
  }

  /** Entering a block, evaluating its body, and leaving it again. */
  lemma LeavesBlock(p: Program, m: Machine, c: nat, b: Body, env: Env, r: Evaluation)
    requires Executes(m, c, b, env) && (b.Let? || b.Try?) && r.Out?
    ensures Executes(Step(p, m), c, Inner(b), env)
    ensures Step(p, Delivered(Step(p, m), c, r)) == Reached(m, c, Continue(b, env, r.outcome), r.awaits)
  {
    var m3 := Step(p, Delivered(Step(p, m), c, r));
    assert m3.frames == Reached(m, c, Continue(b, env, r.outcome), r.awaits).frames;
  }

  lemma BlockRuns(p: Program, m: Machine, c: nat, b: Body, env: Env, r: Evaluation, k1: nat)
    requires Executes(m, c, b, env) && (b.Let? || b.Try?) && r.Out?
    requires Executes(Step(p, m), c, Inner(b), env)
    requires Steps(p, Step(p, m), k1) == Delivered(Step(p, m), c, r)
    ensures Steps(p, m, k1 + 2) == Reached(m, c, Continue(b, env, r.outcome), r.awaits)
  {
    LeavesBlock(p, m, c, b, env, r);
    StepsAdd(p, m, 1 + k1, 1);
    OneStep(p, Delivered(Step(p, m), c, r));
  }

  lemma {:induction false} SimulatesBlock(p: Program, fuel: nat, m: Machine, c: nat, b: Body, env: Env) returns (k: nat)
    requires Executes(m, c, b, env) && (b.Let? || b.Try?)
    ensures Agrees(p, Eval(p, fuel, b, env), fuel, m, c, k)
    decreases fuel, b, 0
  {
    var r := Eval(p, fuel, Inner(b), env);
    EntersBlock(p, m, c, b, env);
    var k1 := Simulates(p, fuel, Step(p, m), c, Inner(b), env);
    EvalBlock(p, fuel, b, env);
    if r.Out? && Continue(b, env, r.outcome).Exec? {
      var next := Continue(b, env, r.outcome);
      BlockRuns(p, m, c, b, env, r, k1);
      StillReady(m, c, next, r.awaits);
      var k3 := Simulates(p, fuel, Reached(m, c, next, r.awaits), c, next.body, next.env);
      k := RestAgrees(p, fuel, m, c, b, env, r, k1 + 2, k3);
    } else {
      k := BlockEnds(p, fuel, m, c, b, env, r, k1);
    }
  }

  lemma StillReady(m: Machine, c: nat, next: Control, n: nat)
    requires Ready(m, c)
    ensures Ready(Reached(m, c, next, n), c) && Reached(m, c, next, n).frames[c].control == next
  {
  }

  /** The inner body is all of the block's evaluation: it did not finish, or it left the block. */
  lemma BlockEnds(p: Program, fuel: nat, m: Machine, c: nat, b: Body, env: Env, r: Evaluation, k1: nat)
    returns (k: nat)
    requires Executes(m, c, b, env) && (b.Let? || b.Try?) && Executes(Step(p, m), c, Inner(b), env)
    requires r.Unfinished? || Continue(b, env, r.outcome).Deliver?
    requires Agrees(p, r, fuel, Step(p, m), c, k1)
    ensures Agrees(p, Sequence(p, fuel, b, env, r), fuel, m, c, k)
  {
    if r.Unfinished? {
      k := k1 + 1;
      FirstStep(p, m, k1);
    } else {
      k := k1 + 2;
      BlockRuns(p, m, c, b, env, r, k1);
    }
  }

  /** After the rest of a `Let`, or the handler of a `Try`. */
  lemma RestAgrees(p: Program, fuel: nat, m: Machine, c: nat, b: Body, env: Env, r: Evaluation, i: nat, j: nat)
    returns (k: nat)
    requires Executes(m, c, b, env) && (b.Let? || b.Try?) && r.Out?
    requires Continue(b, env, r.outcome).Exec?
    requires Steps(p, m, i) == Reached(m, c, Continue(b, env, r.outcome), r.awaits)
    requires var next := Continue(b, env, r.outcome);
             Agrees(p, Eval(p, fuel, next.body, next.env), fuel, Reached(m, c, next, r.awaits), c, j)
    ensures Agrees(p, Sequence(p, fuel, b, env, r), fuel, m, c, k)
  {
    var next := Continue(b, env, r.outcome);
    var q := Eval(p, fuel, next.body, next.env);
    StepsAdd(p, m, i, j);
    k := i + j;
    if q.Out? {
      ReachedTwice(m, c, next, r.awaits, Deliver(q.outcome), q.awaits);
    }
  }

  // ---- awaiting: transfer in, run the child, transfer back, read its result, free it ----

  /** Direct evaluation of a whole call. */
  function Call(p: Program, fuel: nat, g: nat, arg: int): Evaluation {
    Eval(p, fuel, p(g).body, map[p(g).param := arg])
  }

  lemma AwaitStarts(p: Program, m: Machine, c: nat, b: Body, env: Env)
    requires Executes(m, c, b, env) && b.Await?
    ensures Executes(Step(p, m), m.next, p(b.callee).body, map[p(b.callee).param := Value(b.arg, env)])
    ensures Step(p, m) == Machine(
              m.frames[c := m.frames[c].(control := Awaiting(m.next))]
                      [m.next := NewFrame(p(b.callee), Value(b.arg, env), Some(c))],
              [m.next], m.next + 1, m.transfers + 1)
  {
    assert Step(p, m).stack == [m.next];
  }

  /** The evaluation of an await whose callee evaluates to r. */
  function Awaited(r: Evaluation): Evaluation {
    if r.Unfinished? then Unfinished else Out(Resumed(ResultOf(r.outcome)), r.awaits + 1)
  }

  /** From the child's simulation to the parent's. */
  lemma AwaitAgrees(p: Program, fuel: nat, m: Machine, c: nat, b: Body, env: Env, r: Evaluation, k1: nat)
    returns (k: nat)
    requires Executes(m, c, b, env) && b.Await? && fuel > 0
    requires m.next in Step(p, m).frames && Agrees(p, r, fuel - 1, Step(p, m), m.next, k1)
    ensures Agrees(p, Awaited(r), fuel, m, c, k)
  {
    if r.Out? {
      k := k1 + 3;
      AwaitRuns(p, m, c, b, env, r, k1);
    } else {
      k := k1 + 1;
      FirstStep(p, m, k1);
    }
  }

  lemma FirstStep(p: Program, m: Machine, k: nat)
    ensures Steps(p, m, k + 1) == Steps(p, Step(p, m), k)
  {
  }

  lemma AwaitRuns(p: Program, m: Machine, c: nat, b: Body, env: Env, r: Evaluation, k1: nat)
    requires Executes(m, c, b, env) && b.Await? && r.Out? && m.next in Step(p, m).frames
    requires Steps(p, Step(p, m), k1) == Delivered(Step(p, m), m.next, r)
    ensures Steps(p, m, k1 + 3) == Reached(m, c, Deliver(Resumed(ResultOf(r.outcome))), r.awaits + 1)
  {
    AwaitEnds(p, m, c, b, env, r);
    StepsAdd(p, Step(p, m), k1, 2);
    FirstStep(p, m, k1 + 2);
  }

  lemma EvalAwait(p: Program, fuel: nat, b: Body, env: Env)
    requires b.Await? && fuel > 0
    ensures var r := Call(p, fuel - 1, b.callee, Value(b.arg, env));
            Eval(p, fuel, b, env) == Awaited(r)
  {
  }

  lemma AwaitEnds(p: Program, m: Machine, c: nat, b: Body, env: Env, r: Evaluation)
    requires Executes(m, c, b, env) && b.Await? && r.Out?
    ensures m.next in Step(p, m).frames
    ensures Steps(p, Delivered(Step(p, m), m.next, r), 2)
            == Reached(m, c, Deliver(Resumed(ResultOf(r.outcome))), r.awaits + 1)
  {
    AwaitStarts(p, m, c, b, env);
    var m2 := Delivered(Step(p, m), m.next, r);
    assert m2.frames == m.frames[c := m.frames[c].(control := Awaiting(m.next))]
                                [m.next := Frame(Deliver(r.outcome), Outermost, Pending, Some(c))];
    var m4 := ChildReturns(p, m, c, m2, r);
  }

  /** The last two steps of an await. */
  lemma ChildReturns(p: Program, m: Machine, c: nat, m2: Machine, r: Evaluation) returns (m4: Machine)
    requires Ready(m, c) && r.Out?
    requires m2.stack == [m.next]
    requires m2.frames == m.frames[c := m.frames[c].(control := Awaiting(m.next))]
                                  [m.next := Frame(Deliver(r.outcome), Outermost, Pending, Some(c))]
    ensures m4 == Steps(p, m2, 2)
    ensures m4 == m2.(frames := m.frames[c := m.frames[c].(control := Deliver(Resumed(ResultOf(r.outcome))))],
                      stack := [c], transfers := m2.transfers + 1)
  {
    var m3 := Step(p, m2);
    m4 := Step(p, m3);
    assert m3.stack == [c];
    assert Steps(p, m2, 2) == Steps(p, m3, 1) == Steps(p, m4, 0);
    assert m4.frames == m.frames[c := m.frames[c].(control := Deliver(Resumed(ResultOf(r.outcome))))];
  }

  // ---- the theorems about sync_wait ----

  /** If the call evaluates, sync_wait comes back with exactly that value or exception; the only
      frame left is the awaited task's own, and there were two transfers per await and one more
      into the no-op coroutine. */
  lemma SyncWaitAgrees(p: Program, fuel: nat, g: nat, arg: int) returns (k: nat)
    requires Call(p, fuel, g, arg).Out?
    ensures var r := Call(p, fuel, g, arg);
            var m := Steps(p, Start(p, g, arg), k);
            && m.Halted()
            && m.frames.Keys == {0}
            && m.frames[0].result == ResultOf(r.outcome)
            && m.transfers == 2 * r.awaits + 1
  {
    var m := Start(p, g, arg);
    var k1 := Simulates(p, fuel, m, 0, p(g).body, map[p(g).param := arg]);
    var m1 := Delivered(m, 0, Call(p, fuel, g, arg));
    StepsAdd(p, m, k1, 1);
    assert Steps(p, m1, 1) == Steps(p, Step(p, m1), 0) == Step(p, m1);
    k := k1 + 1;
  }

  /** sync_wait comes back if and only if direct evaluation terminates. */
  lemma HaltsIffEvaluates(p: Program, g: nat, arg: int)
    ensures (exists k: nat :: Steps(p, Start(p, g, arg), k).Halted())
            <==> (exists fuel: nat :: Call(p, fuel, g, arg).Out?)
  {
    if k: nat :| Steps(p, Start(p, g, arg), k).Halted() {
      if Call(p, k, g, arg).Unfinished? {
        var k1 := Simulates(p, k, Start(p, g, arg), 0, p(g).body, map[p(g).param := arg]);
        NotHaltedEarlier(p, Start(p, g, arg), k, k1);
        assert false;
      }
      assert Call(p, k, g, arg).Out?;
    }
    if fuel: nat :| Call(p, fuel, g, arg).Out? {
      var k := SyncWaitAgrees(p, fuel, g, arg);
    }
  }

  /** However deep the chain of awaits, the native stack never holds more than one activation. */
  lemma {:induction false} StackNeverGrows(p: Program, m: Machine, k: nat)
    ensures |Steps(p, m, k).stack| <= |m.stack|
    decreases k
  {
    if k > 0 { StackNeverGrows(p, Step(p, m), k - 1); }
  }

  // ---- what symmetric transfer is for: the same awaits with nested resume() calls ----

  /** The machine if await_suspend and the final awaiter called resume() on their target instead
      of returning it: the caller's activation stays on the native stack below the target's. */
  function NestedStep(p: Program, m: Machine): Machine {
    if m.stack == [] then m else
    var flat := Step(p, m.(stack := m.stack[|m.stack| - 1..]));
    if flat.transfers == m.transfers then flat.(stack := m.stack)
    else if flat.stack == [] then flat
    else flat.(stack := m.stack + flat.stack)
  }

  function NestedSteps(p: Program, m: Machine, k: nat): Machine
    decreases k
  {
    if k == 0 then m else NestedSteps(p, NestedStep(p, m), k - 1)
  }

  /** The nested machine does the same, but its stack has grown with every transfer. */
  ghost predicate Nests(flat: Machine, nested: Machine) {
    && nested == flat.(stack := nested.stack)
    && (|| (flat.stack == [] && nested.stack == [])
        || (&& |flat.stack| == 1 && |nested.stack| == 1 + flat.transfers
            && nested.stack[|nested.stack| - 1] == flat.stack[0]))
  }

  lemma StepTransfers(p: Program, m: Machine)
    requires |m.stack| == 1
    ensures var t := Step(p, m);
            && |t.stack| <= 1
            && (t.transfers == m.transfers + 1 || (t.transfers == m.transfers && t.stack == m.stack))
  {
  }

  lemma NestsStep(p: Program, flat: Machine, nested: Machine)
    requires Nests(flat, nested)
    ensures Nests(Step(p, flat), NestedStep(p, nested))
  {
    if flat.stack != [] {
      assert nested.stack[|nested.stack| - 1..] == flat.stack;
      assert nested.(stack := flat.stack) == flat;
      StepTransfers(p, flat);
    }
  }

  lemma {:induction false} NestsSteps(p: Program, flat: Machine, nested: Machine, k: nat)
    requires Nests(flat, nested)
    ensures Nests(Steps(p, flat, k), NestedSteps(p, nested, k)) == Nests(flat, nested)
    decreases k
  {
    if k > 0 {
      NestsStep(p, flat, nested);
      NestsSteps(p, Step(p, flat), NestedStep(p, nested), k - 1);
    }
  }

  /** A call with n awaits in all, nested or one after the other, piles up 2 n + 1 activations
      before it is over, where symmetric transfer never has more than one. */
  lemma NestingGrows(p: Program, fuel: nat, g: nat, arg: int) returns (k: nat)
    requires Call(p, fuel, g, arg).Out?
    ensures |NestedSteps(p, Start(p, g, arg), k).stack| == 2 * Call(p, fuel, g, arg).awaits + 1
    ensures |Steps(p, Start(p, g, arg), k).stack| == 1
  {
    var m := Start(p, g, arg);
    k := Simulates(p, fuel, m, 0, p(g).body, map[p(g).param := arg]);
    NestsSteps(p, m, m, k);
  }

  /** The loop that sync_wait's resume() amounts to, for a call that terminates. */
  method SyncWait(p: Program, g: nat, arg: int, ghost fuel: nat) returns (r: Result)
    requires Call(p, fuel, g, arg).Out?
    ensures r == ResultOf(Call(p, fuel, g, arg).outcome)
  {
    var m := Start(p, g, arg);
    ghost var k := SyncWaitAgrees(p, fuel, g, arg);
    ghost var i := 0;
    while m.stack != []
      invariant i <= k && m == Steps(p, Start(p, g, arg), i)
      decreases k - i
    {
      if i == k { assert false; }
      StepsAdd(p, Start(p, g, arg), i, 1);
      assert Steps(p, m, 1) == Steps(p, Step(p, m), 0);
      m := Step(p, m);
      i := i + 1;
    }
    StepsAdd(p, Start(p, g, arg), i, k - i);
    HaltedStays(p, m, k - i);
    r := m.frames[0].result;
  }

  // ---- the examples of the source ----

  /** Variables: none = 0, x = 1, c = 2, b = 3, v = 4, e = 5, sq = 6. Coroutines: compute = 0,
      level_c = 1, level_b = 2, level_a = 3, will_throw = 4, catches_exception = 5, and 6 for
      format_result, with the sum of its two numbers in place of the text that joins them. */
  function Examples(): Program {
    (g: nat) =>
      if g == 0 then Function(1, Return(Mul(Local(1), Local(1))))
      else if g == 1 then Function(0, Return(Lit(7)))
      else if g == 2 then Function(0, Let(2, Await(1, Lit(0)), Return(Add(Local(2), Lit(1)))))
      else if g == 3 then Function(0, Let(3, Await(2, Lit(0)), Return(Mul(Local(3), Lit(2)))))
      else if g == 4 then Function(0, Throw(Lit(1)))
      else if g == 5 then Function(0, Try(Let(4, Await(4, Lit(0)), Return(Local(4))), 5, Return(Lit(-1))))
      else Function(1, Let(6, Await(0, Local(1)), Return(Add(Local(1), Local(6)))))
  }

  /** sync_wait on this call comes back, with this result and this number of transfers. */
  ghost predicate Yields(p: Program, g: nat, arg: int, r: Result, transfers: nat) {
    exists k: nat ::
      var m := Steps(p, Start(p, g, arg), k);
      m.Halted() && m.transfers == transfers && m.frames.Keys == {0} && m.frames[0].result == r
  }

  lemma EvaluationYields(p: Program, fuel: nat, g: nat, arg: int)
    requires Call(p, fuel, g, arg).Out?
    ensures var r := Call(p, fuel, g, arg); Yields(p, g, arg, ResultOf(r.outcome), 2 * r.awaits + 1)
  {
    var k := SyncWaitAgrees(p, fuel, g, arg);
  }

  lemma ComputeSquares(x: int)
    ensures Yields(Examples(), 0, x, Done(x * x), 1)
  {
    ComputeEvaluates(x);
    EvaluationYields(Examples(), 0, 0, x);
  }

  lemma ComputeEvaluates(x: int)
    ensures Call(Examples(), 0, 0, x) == Out(Returned(x * x), 0)
  {
    var square := map[1 := x];
    assert Value(Local(1), square) == x;
    assert Value(Mul(Local(1), Local(1)), square) == x * x;
  }

  /** `x = co_await h(arg); co_return e` when the callee returns v: e is evaluated with x bound to v
      and the parameter, like any other local, as it was before the await. */
  lemma AwaitThenReturn(
    p: Program, fuel: nat, g: nat, param: Name, a: int, x: Name, h: nat, arg: Expr, e: Expr, v: int, n: nat)
    requires fuel > 0 && Call(p, fuel - 1, h, Value(arg, map[param := a])) == Out(Returned(v), n)
    requires p(g) == Function(param, Let(x, Await(h, arg), Return(e)))
    ensures Call(p, fuel, g, a) == Out(Returned(Value(e, map[param := a][x := v])), n + 1)
  {
    var env: Env := map[param := a];
    EvalAwait(p, fuel, Await(h, arg), env);
    assert Eval(p, fuel, Await(h, arg), env) == Out(Normal(v), n + 1);
    assert Eval(p, fuel, Return(e), env[x := v]) == Out(Returned(Value(e, env[x := v])), 0);
    assert Call(p, fuel, g, a) == Eval(p, fuel, Let(x, Await(h, arg), Return(e)), env);
  }

  /** The parameter survives the await beside the awaited square, in three transfers. */
  lemma FormatKeepsBoth(x: int)
    ensures Yields(Examples(), 6, x, Done(x + x * x), 3)
  {
    FormatEvaluates(Examples(), x);
    EvaluationYields(Examples(), 1, 6, x);
  }

  lemma FormatEvaluates(p: Program, x: int)
    requires p(6) == Examples()(6) && p(0) == Examples()(0)
    ensures Call(p, 1, 6, x) == Out(Returned(x + x * x), 1)
  {
    var env: Env := map[1 := x];
    var both := env[6 := x * x];
    assert Value(Local(1), env) == x;
    assert Value(Mul(Local(1), Local(1)), env) == x * x;
    assert Call(p, 0, 0, x) == Out(Returned(x * x), 0);
    AwaitThenReturn(p, 1, 6, 1, x, 6, 0, Local(1), Add(Local(1), Local(6)), x * x, 0);
    assert Value(Local(1), both) == x && Value(Local(6), both) == x * x;
    assert Value(Add(Local(1), Local(6)), both) == x + x * x;
  }

  /** Three levels of co_await: 7, then 8, then 16, in five transfers. */
  lemma DeepChain()
    ensures Yields(Examples(), 3, 0, Done(16), 5)
  {
    ChainEvaluates();
    EvaluationYields(Examples(), 2, 3, 0);
  }

  lemma ChainEvaluates()
    ensures Call(Examples(), 2, 3, 0) == Out(Returned(16), 2)
  {
    var p, b, c := Examples(), map[0 := 0][3 := 8], map[0 := 0][2 := 7];
    assert Call(p, 0, 1, 0) == Out(Returned(7), 0);
    AwaitThenReturn(p, 1, 2, 0, 0, 2, 1, Lit(0), Add(Local(2), Lit(1)), 7, 0);
    assert Value(Local(2), c) == 7 && Value(Add(Local(2), Lit(1)), c) == 8;
    AwaitThenReturn(p, 2, 3, 0, 0, 3, 2, Lit(0), Mul(Local(3), Lit(2)), 8, 1);
    assert Value(Local(3), b) == 8 && Value(Mul(Local(3), Lit(2)), b) == 16;
  }

  /** The locals when x has been bound to v: nothing else is touched. */
  function Bound(env: Env, x: Name, v: int): Env {
    map y | y in env.Keys + {x} :: if y == x then v else env[y]
  }

  /** Whatever the first part of a `Let` awaits: when it has a value, the machine comes to the rest
      in the same frame, with that value bound, every other local and every other frame as before. */
  lemma LetKeepsLocals(p: Program, fuel: nat, m: Machine, c: nat, x: Name, b: Body, rest: Body, env: Env,
                       v: int, n: nat)
    returns (k: nat)
    requires Executes(m, c, Let(x, b, rest), env) && Eval(p, fuel, b, env) == Out(Normal(v), n)
    ensures Steps(p, m, k) == Reached(m, c, Exec(rest, Bound(env, x, v)), n)
  {
    var whole := Let(x, b, rest);
    EntersBlock(p, m, c, whole, env);
    var k1 := Simulates(p, fuel, Step(p, m), c, b, env);
    BlockRuns(p, m, c, whole, env, Out(Normal(v), n), k1);
    assert Bound(env, x, v) == env[x := v];
    k := k1 + 2;
  }

  /** What is not for a block passes through it: a return or an exception leaves a `Let` without its
      rest, and a value or a return leaves a `Try` without its handler. */
  lemma PassesThrough(p: Program, fuel: nat, m: Machine, c: nat, b: Body, env: Env, o: Outcome, n: nat)
    returns (k: nat)
    requires Executes(m, c, b, env) && ((b.Let? && !o.Normal?) || (b.Try? && !o.Thrown?))
    requires Eval(p, fuel, Inner(b), env) == Out(o, n)
    ensures Steps(p, m, k) == Reached(m, c, Deliver(o), n)
  {
    EntersBlock(p, m, c, b, env);
    var k1 := Simulates(p, fuel, Step(p, m), c, Inner(b), env);
    BlockRuns(p, m, c, b, env, Out(o, n), k1);
    k := k1 + 2;
  }

  /** Whatever a try body awaits or does: if it throws, the machine comes to the handler in the same
      frame, with the exception bound, every other local and every other frame as before. */
  lemma ThrownIsCaught(p: Program, fuel: nat, m: Machine, c: nat, b: Body, x: Name, handler: Body, env: Env,
                       error: int, n: nat)
    returns (k: nat)
    requires Executes(m, c, Try(b, x, handler), env) && Eval(p, fuel, b, env) == Out(Thrown(error), n)
    ensures Steps(p, m, k) == Reached(m, c, Exec(handler, Bound(env, x, error)), n)
  {
    var whole := Try(b, x, handler);
    EntersBlock(p, m, c, whole, env);
    var k1 := Simulates(p, fuel, Step(p, m), c, b, env);
    BlockRuns(p, m, c, whole, env, Out(Thrown(error), n), k1);
    assert Bound(env, x, error) == env[x := error];
    k := k1 + 2;
  }

  /** `try { co_return co_await g(arg); } catch (e) { handler }` when the callee throws. */
  lemma TryEvaluates(p: Program, fuel: nat, v: Name, g: nat, arg: Expr, e: Expr, x: Name, handler: Body, env: Env,
                     error: int, n: nat)
    requires fuel > 0 && Call(p, fuel - 1, g, Value(arg, env)) == Out(Thrown(error), n)
    ensures var r := Eval(p, fuel, handler, env[x := error]);
            Eval(p, fuel, Try(Let(v, Await(g, arg), Return(e)), x, handler), env)
            == if r.Unfinished? then Unfinished else Out(r.outcome, n + 1 + r.awaits)
  {
    EvalAwait(p, fuel, Await(g, arg), env);
    assert Eval(p, fuel, Let(v, Await(g, arg), Return(e)), env) == Out(Thrown(error), n + 1);
  }

  /** An exception crosses the co_await and is caught by the awaiting coroutine. */
  lemma ExceptionCrosses()
    ensures Yields(Examples(), 5, 0, Done(-1), 3)
  {
    CatchEvaluates(Examples(), 1, 5, 4, 1, -1);
    EvaluationYields(Examples(), 1, 5, 0);
  }

  lemma CatchEvaluates(p: Program, fuel: nat, g: nat, thrower: nat, error: int, value: int)
    requires fuel > 0 && p(thrower) == Function(0, Throw(Lit(error)))
    requires p(g) == Function(0, Try(Let(4, Await(thrower, Lit(0)), Return(Local(4))), 5, Return(Lit(value))))
    ensures Call(p, fuel, g, 0) == Out(Returned(value), 1)
  {
    assert Call(p, fuel - 1, thrower, 0) == Out(Thrown(error), 0);
    TryEvaluates(p, fuel, 4, thrower, Lit(0), Local(4), 5, Return(Lit(value)), map[0 := 0], error, 0);
  }
}
