/** Multiples of one number, which grow with what they are multiples by. */
module Multiples {

  /** Each further time adds the whole number again. */
  lemma {:induction false} OneMoreTimes(n: nat, a: int, b: int)
    requires a < b
    ensures a * n + n <= b * n
    decreases b - a
  {
    assert b * n == (b - 1) * n + n;
    if a < b - 1 {
      OneMoreTimes(n, a, b - 1);
    }
  }
}
