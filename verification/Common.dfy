/** Small facts that several components share. */
module Common {

  function Min(a: int, b: int): int {
    if a <= b then a else b
  }

  function Pow2(n: nat): nat {
    if n == 0 then 1 else 2 * Pow2(n - 1)
  }

  /** Seconds to wait after a number of failures: doubling from one minute to an
      hour, used by the outbox and by reminders. */
  function Doubling(failures: int): int {
    Min(3600, 30 * Pow2(if failures > 7 then 7 else if failures < 0 then 0 else failures))
  }

  lemma Associate<T>(a: seq<T>, b: seq<T>, c: seq<T>)
    ensures (a + b) + c == a + (b + c)
  {
  }
}
