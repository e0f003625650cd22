/**
 * Kernel sizes taken from slider values. Both segmentation tools compute a
 * kernel as `max(3, int(v) | 1)`: Python's int() truncates toward zero, the
 * bitwise `| 1` turns an even integer into the next odd one, and the result is
 * at least 3. OpenCV's Gaussian and median blurs need an odd kernel of size
 * at least 3, which is what these lemmas establish.
 */
module Kernel {

  /** Python's int() on a float: truncation toward zero. */
  function Trunc(v: real): (n: int)
    ensures v >= 0.0 ==> n as real <= v < n as real + 1.0
    ensures v < 0.0 ==> n as real - 1.0 < v <= n as real
  {
    if v >= 0.0 then v.Floor else -((-v).Floor)
  }

  predicate Odd(n: int) {
    n % 2 == 1
  }

  /**
   * Python's `n | 1` on int, which for a negative n works on its two's
   * complement: the lowest bit set.
   */
  function OrOne(n: int): (r: int)
    ensures Odd(r)
  {
    2 * (n / 2) + 1
  }

  /** `n | 1` keeps an odd number and moves an even one up by one. */
  lemma OrOneCases(n: int)
    ensures Odd(n) ==> OrOne(n) == n
    ensures !Odd(n) ==> OrOne(n) == n + 1
  {}

  function Normalize(n: int): (k: int)
    ensures Odd(k) && k >= 3
  {
    var m := OrOne(n);
    if m > 3 then m else 3
  }

  /** max(3, int(v) | 1) */
  function KernelSize(v: real): (k: int)
    ensures Odd(k) && k >= 3
  {
    Normalize(Trunc(v))
  }

  /**
   * The normalised kernel is the least odd number that is at least 3 and at
   * least the integer it came from.
   */
  lemma NormalizeIsLeastOdd(n: int)
    ensures Normalize(n) >= n && Normalize(n) >= 3
    ensures forall m :: Odd(m) && m >= n && m >= 3 ==> Normalize(n) <= m
  {
    OrOneCases(n);
  }

  lemma NormalizeIdempotent(n: int)
    ensures Normalize(Normalize(n)) == Normalize(n)
  {
    OrOneCases(n);
    OrOneCases(Normalize(n));
  }

  /** A slider kept at an odd integer of at least 3 is used as it is. */
  lemma KernelSizeOfOddSetting(n: int)
    requires Odd(n) && n >= 3
    ensures KernelSize(n as real) == n
  {
    OrOneCases(n);
  }

  /** A fractional setting is cut, not rounded: 4.9 gives 5 but 5.9 also gives 5. */
  lemma KernelSizeTruncates()
    ensures KernelSize(4.9) == 5 && KernelSize(5.9) == 5 && KernelSize(6.0) == 7
    ensures KernelSize(0.0) == 3 && KernelSize(-2.5) == 3
  {
    OrOneCases(4);
    OrOneCases(5);
    OrOneCases(6);
    OrOneCases(0);
    OrOneCases(-2);
  }
}
