/** What several of the models share. */
module Wrappers {
  datatype Option<+T> = None | Some(value: T)

  /** A quotient and a remainder are the only ones. */
  lemma Residue(x: int, n: int, q: int, r: int)
    requires n > 0 && x == n * q + r && 0 <= r < n
    ensures x % n == r
  {
    var d := x / n - q;
    assert n * d == r - x % n;
    Small(n, d);
  }

  lemma Small(n: int, d: int)
    requires -n < n * d < n
    ensures d == 0
  {
  }
}
