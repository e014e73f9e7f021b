/** The connection pool of networking/10_socket_patterns.cpp: connections, a stack of available
    indices, and callers who are expected to return each connection once. */
module ConnectionPool {
  import opened Options

  /** fds are the pooled connections; available are indices; held records which indices callers
      have been given and not returned. */
  datatype State = State(fds: seq<int>, available: seq<nat>, held: seq<nat>)

  datatype Op = Acquire | Release(fd: int)

  predicate Distinct<T(==)>(s: seq<T>) { forall i, j :: 0 <= i < j < |s| ==> s[i] != s[j] }

  /** Open descriptors are distinct and not negative. */
  predicate Sockets(fds: seq<int>) { Distinct(fds) && forall i :: 0 <= i < |fds| ==> fds[i] >= 0 }

  /** The first index of fd. */
  function Find(fds: seq<int>, fd: int): (r: Option<nat>)
    ensures r.Some? ==> r.value < |fds| && fds[r.value] == fd
    ensures r.None? <==> fd !in fds
  {
    if fds == [] then None
    else if fds[0] == fd then Some(0)
    else match Find(fds[1..], fd)
      case None => None
      case Some(i) => Some(i + 1)
  }

  /** One copy less, if there is one. */
  function Without(s: seq<nat>, i: nat): (r: seq<nat>)
    ensures i !in s ==> r == s
    ensures forall x :: x in r ==> x in s
    ensures forall x :: x in s && x != i ==> x in r
    ensures |r| == if i in s then |s| - 1 else |s|
  {
    if s == [] then [] else if s[0] == i then s[1..] else [s[0]] + Without(s[1..], i)
  }

  function Step(s: State, op: Op): State {
    match op
    case Acquire =>
      if s.available == [] then s
      else var last := |s.available| - 1;
           s.(available := s.available[..last], held := s.held + [s.available[last]])
    case Release(fd) =>
      match Find(s.fds, fd)
      case None => s
      case Some(i) => s.(available := s.available + [i], held := Without(s.held, i))
  }

  function Run(s: State, ops: seq<Op>): State
    decreases |ops|
  {
    if ops == [] then s else Run(Step(s, ops[0]), ops[1..])
  }

  /** Every connection is either available or held by one caller. */
  ghost predicate Inv(s: State) {
    && Sockets(s.fds)
    && Distinct(s.available) && Distinct(s.held)
    && (forall i :: i in s.available ==> i < |s.fds| && i !in s.held)
    && (forall i :: i in s.held ==> i < |s.fds|)
    && (forall i: nat :: i < |s.fds| ==> i in s.available || i in s.held)
    && |s.available| + |s.held| == |s.fds|
  }

  /** The caller returns something it holds, or something the pool never owned. */
  predicate Proper(s: State, op: Op) {
    match op
    case Acquire => true
    case Release(fd) => fd in s.fds ==> Find(s.fds, fd).value in s.held
  }

  lemma DistinctGrows<T>(s: seq<T>, x: T)
    ensures Distinct(s + [x]) <==> Distinct(s) && x !in s
  {
    var t := s + [x];
    if Distinct(t) {
      assert forall i :: 0 <= i < |s| ==> t[i] == s[i] && t[i] != t[|s|];
    }
  }

  lemma {:induction false} WithoutDistinct(s: seq<nat>, i: nat)
    requires Distinct(s)
    ensures Distinct(Without(s, i)) && i !in Without(s, i)
  {
    if s != [] && s[0] != i {
      WithoutDistinct(s[1..], i);
      assert s[0] !in s[1..];
    }
  }

  lemma AcquireInv(s: State)
    requires Inv(s)
    ensures Inv(Step(s, Acquire))
  {
    if s.available != [] {
      var last := |s.available| - 1;
      assert s.available == s.available[..last] + [s.available[last]];
      DistinctGrows(s.available[..last], s.available[last]);
      DistinctGrows(s.held, s.available[last]);
    }
  }

  lemma ReleaseInv(s: State, fd: int)
    requires Inv(s)
    ensures Inv(Step(s, Release(fd))) <==> Proper(s, Release(fd))
  {
    if fd in s.fds {
      var i := Find(s.fds, fd).value;
      var t := Step(s, Release(fd));
      WithoutDistinct(s.held, i);
      DistinctGrows(s.available, i);
    }
  }

  /** One call keeps every connection in one place if and only if it is proper. */
  lemma StepInvIff(s: State, op: Op)
    requires Inv(s)
    ensures Inv(Step(s, op)) <==> Proper(s, op)
  {
    match op
    case Acquire => AcquireInv(s);
    case Release(fd) => ReleaseInv(s, fd);
  }

  predicate ProperRun(s: State, ops: seq<Op>)
    decreases |ops|
  {
    ops == [] || (Proper(s, ops[0]) && ProperRun(Step(s, ops[0]), ops[1..]))
  }

  /** Over any run: no two callers ever share a connection and none is lost, if and only if every
      release was proper. */
  lemma {:induction false} RunInvIff(s: State, ops: seq<Op>)
    requires Inv(s)
    ensures ProperRun(s, ops) <==> forall k: nat :: k <= |ops| ==> Inv(Run(s, ops[..k]))
    decreases |ops|
  {
    if ops != [] {
      StepInvIff(s, ops[0]);
      var t, rest := Step(s, ops[0]), ops[1..];
      forall k: nat | 1 <= k <= |ops| ensures Run(s, ops[..k]) == Run(t, rest[..k - 1]) {
        assert ops[..k][1..] == rest[..k - 1];
      }
      assert rest[..0] == [] && Run(s, ops[..1]) == Run(t, rest[..0]);
      if Proper(s, ops[0]) {
        RunInvIff(t, rest);
        assert forall k: nat :: k <= |rest| ==> Run(t, rest[..k]) == Run(s, ops[..k + 1]);
      }
    }
  }

  function Acquires(n: nat): (r: seq<Op>)
    ensures |r| == n
  {
    seq(n, _ => Acquire)
  }

  /** The top n of a stack, from the back. */
  function Top(a: seq<nat>, n: nat): (r: seq<nat>)
    requires n <= |a|
    ensures |r| == n && forall k :: 0 <= k < n ==> r[k] == a[|a| - 1 - k]
  {
    seq(n, k requires 0 <= k < n => a[|a| - 1 - k])
  }

  lemma {:induction false} AcquiresPop(s: State, n: nat)
    requires n <= |s.available|
    ensures Run(s, Acquires(n))
            == s.(available := s.available[..|s.available| - n], held := s.held + Top(s.available, n))
    decreases n
  {
    var a := s.available;
    if n == 0 {
      assert a[..|a|] == a && s.held + Top(a, 0) == s.held;
    } else {
      var m := Step(s, Acquire);
      assert Acquires(n)[0] == Acquire && Acquires(n)[1..] == Acquires(n - 1);
      AcquiresPop(m, n - 1);
      assert m.held + Top(m.available, n - 1) == s.held + Top(a, n);
      assert m.available[..|m.available| - (n - 1)] == a[..|a| - n];
    }
  }

  /** And an improper release is never harmless: some number of acquires later, one connection
      has been given out twice. */
  lemma ImproperReleaseShares(s: State, op: Op) returns (n: nat)
    requires Inv(s) && !Proper(s, op)
    ensures n <= |s.available| + 1 && !Distinct(Run(Step(s, op), Acquires(n)).held)
  {
    var i := Find(s.fds, op.fd).value;
    var t := Step(s, op);
    assert i in s.available;
    var k: nat :| k < |s.available| && s.available[k] == i;
    n := |s.available| + 1 - k;
    AcquiresPop(t, n);
    SharedTop(t.held, t.available, k, n);
  }

  lemma SharedTop(h: seq<nat>, a: seq<nat>, k: nat, n: nat)
    requires k < |a| - 1 && a[k] == a[|a| - 1] && n == |a| - k
    ensures !Distinct(h + Top(a, n))
  {
    var all := h + Top(a, n);
    assert all[|h|] == Top(a, n)[0];
    assert all[|h| + (n - 1)] == Top(a, n)[n - 1];
  }

  /** Acquire fails if and only if every connection is held. */
  lemma FailsIffAllHeld(s: State)
    requires Inv(s)
    ensures s.available == [] <==> forall i: nat :: i < |s.fds| ==> i in s.held
  {
    if s.available != [] { assert s.available[0] in s.available; }
  }

  class Pool {
    var fds: seq<int>
    var available: seq<nat>
    ghost var held: seq<nat>

    ghost function Abstract(): State
      reads this
    {
      State(fds, available, held)
    }

    /** One connection attempt per slot; those that fail leave no slot. */
    constructor (attempts: seq<Option<int>>)
      requires forall i :: 0 <= i < |attempts| && attempts[i].Some? ==> attempts[i].value >= 0
      requires forall i, j :: 0 <= i < j < |attempts| && attempts[i].Some? ==> attempts[i] != attempts[j]
      ensures Inv(Abstract()) && held == []
      ensures forall fd :: fd in fds <==> Some(fd) in attempts
      ensures |available| == |fds| && forall i :: 0 <= i < |fds| ==> available[i] == i
    {
      fds, available, held := [], [], [];
      new;
      for n := 0 to |attempts|
        invariant Inv(Abstract()) && held == []
        invariant forall fd :: fd in fds <==> Some(fd) in attempts[..n]
        invariant forall i :: 0 <= i < |available| ==> available[i] == i
      {
        var s := attempts[n];
        assert attempts[..n + 1] == attempts[..n] + [s];
        if s.Some? {
          assert s !in attempts[..n];
          DistinctGrows(available, |fds|);
          DistinctGrows(fds, s.value);
          available := available + [|fds|];
          fds := fds + [s.value];
        }
      }
      assert attempts[..|attempts|] == attempts;
    }

    method Acquire() returns (fd: int)
      requires Inv(Abstract())
      modifies this`available, this`held
      ensures Abstract() == Step(old(Abstract()), Op.Acquire) && Inv(Abstract())
      ensures fd == -1 <==> old(available) == []
      ensures fd != -1 ==> exists idx :: idx in held && idx !in old(held) && idx < |fds| && fd == fds[idx]
    {
      AcquireInv(Abstract());
      if |available| == 0 { return -1; }
      var idx := available[|available| - 1];
      assert idx in available;
      available, held := available[..|available| - 1], held + [idx];
      fd := fds[idx];
    }

    method Release(fd: int)
      modifies this`available, this`held
      ensures Abstract() == Step(old(Abstract()), Op.Release(fd))
    {
      for i := 0 to |fds|
        invariant fd !in fds[..i] && Abstract() == old(Abstract())
      {
        if fds[i] == fd {
          FindFirst(fds, fd, i);
          available, held := available + [i], Without(held, i);
          return;
        }
      }
      assert fds[..|fds|] == fds;
    }
  }

  lemma {:induction false} FindFirst(fds: seq<int>, fd: int, i: nat)
    requires i < |fds| && fds[i] == fd && fd !in fds[..i]
    ensures Find(fds, fd) == Some(i)
  {
    if i > 0 {
      assert fds[0] == fds[..i][0];
      assert fds[1..][..i - 1] == fds[..i][1..];
      FindFirst(fds[1..], fd, i - 1);
    }
  }
}
