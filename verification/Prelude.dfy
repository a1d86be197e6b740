/** What several parts of the project use. */
module Prelude {

  datatype Option<+T> = None | Some(value: T)

  /** The key that stands for minus infinity in ch4/wsmx_tree.c and ch4/or_r_tree.c. */
  const NEGINFTY := -1000

  function Pow2(n: nat): (r: nat)
    ensures r > n
  {
    if n == 0 then 1 else 2 * Pow2(n - 1)
  }

  lemma {:induction false} Pow2Monotone(m: nat, n: nat)
    requires m <= n
    ensures Pow2(m) <= Pow2(n)
    decreases n
  {
    if m < n { Pow2Monotone(m, n - 1); }
  }

  function Fib(n: nat): nat {
    if n < 2 then n else Fib(n - 1) + Fib(n - 2)
  }

  lemma {:induction false} FibMonotone(m: nat, n: nat)
    requires m <= n
    ensures Fib(m) <= Fib(n)
    decreases n
  {
    if m < n { FibMonotone(m, n - 1); }
  }

  /** Fibonacci numbers at least double in two steps. */
  lemma {:induction false} FibGrows(n: nat)
    ensures Pow2(n / 2) <= Fib(n + 2)
  {
    if n >= 2 {
      FibGrows(n - 2);
      FibMonotone(n, n + 1);
    }
  }

  lemma FibStep(h: nat, a: nat, b: nat)
    requires (a == h + 1 && h <= b) || (b == h + 1 && h <= a)
    ensures Fib(h + 2) <= Fib(a) + Fib(b)
  {
    if a == h + 1 { FibMonotone(h, b); } else { FibMonotone(h, a); }
  }
}
