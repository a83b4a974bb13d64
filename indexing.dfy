/** Python list indexing, which every list access of the program goes through:
    an index `i` of a list of length `n` is accepted when `-n <= i < n`, and a
    negative one counts from the end. Anything else raises `IndexError`. */
module Indexing {

  predicate InRange(i: int, n: nat) {
    -(n as int) <= i < n
  }

  /** The position `xs[i]` reads: the one position below `n` that agrees
      with `i` modulo `n`. */
  function Slot(i: int, n: nat): (k: nat)
    requires InRange(i, n)
    ensures k < n && (k - i) % n == 0
  {
    if i < 0 then i + n else i
  }

  /** Between `-2n` and `2n`, only `-n`, `0` and `n` are multiples of `n`. */
  lemma MultiplesNearZero(x: int, n: int)
    requires n >= 1 && -2 * n < x < 2 * n
    ensures x % n == 0 <==> (x == -n || x == 0 || x == n)
  {
    if x < -n {
      assert x == (-2) * n + (x + 2 * n);
    } else if x < 0 {
      assert x == (-1) * n + (x + n);
    } else if x < n {
      assert x == 0 * n + x;
    } else {
      assert x == 1 * n + (x - n);
    }
  }

  /** Two accepted indices reach the same position exactly when they agree modulo `n`. */
  lemma SlotUnique(i: int, j: int, n: nat)
    requires InRange(i, n) && InRange(j, n)
    ensures Slot(i, n) == Slot(j, n) <==> (i - j) % n == 0
  {
    MultiplesNearZero(i - j, n);
  }
}
