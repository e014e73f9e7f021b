/** Adding over the threads of a machine, one of which changes at a time. */
module Counting {

  /** The sum of what each element contributes. */
  function Total<T>(s: seq<T>, f: T -> int): int {
    if s == [] then 0 else f(s[0]) + Total(s[1..], f)
  }

  lemma {:induction false} TotalMoves<T>(s: seq<T>, f: T -> int, i: nat, x: T)
    requires i < |s|
    ensures Total(s[i := x], f) == Total(s, f) - f(s[i]) + f(x)
  {
    if i > 0 {
      TotalMoves(s[1..], f, i - 1, x);
      assert s[i := x][1..] == s[1..][i - 1 := x];
    } else {
      assert s[0 := x][1..] == s[1..];
    }
  }

  lemma {:induction false} TotalNonNegative<T(!new)>(s: seq<T>, f: T -> int)
    requires forall x :: f(x) >= 0
    ensures Total(s, f) >= 0
  {
    if s != [] { TotalNonNegative(s[1..], f); }
  }
}
