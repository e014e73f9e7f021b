/** An atomic word as every value it has had, in modification order. A read-modify-write acts on the
    newest; a relaxed load, or a compare-and-swap that fails, may return any of them. */
module Words {

  function Last(s: seq<int>): int
    requires s != []
  {
    s[|s| - 1]
  }

  function Read(s: seq<int>, k: nat): (r: int)
    requires s != []
    ensures r in s
  {
    if k < |s| then s[k] else Last(s)
  }
}
