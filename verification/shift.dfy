/** Left shifts on unbounded integers: `x << i` is `x * 2^i`. The pool builds its class
    sizes with `minSize << uint(i)` and doubles its counting variable with `<<= 1`. */
module Doubling {

  /** `2^i`. */
  function Pow2(i: nat): (r: int)
    ensures r >= 1
  {
    if i == 0 then 1 else 2 * Pow2(i - 1)
  }

  /** `2^(a+b) == 2^a * 2^b`, so large powers can be evaluated from small ones. */
  lemma {:induction false} Pow2Add(a: nat, b: nat)
    ensures Pow2(a + b) == Pow2(a) * Pow2(b)
  {
    if b > 0 {
      Pow2Add(a, b - 1);
      assert Pow2(a + b) == 2 * Pow2(a + b - 1);
    }
  }

  /** `x << i` without a word size. */
  function Shl(x: int, i: nat): int {
    x * Pow2(i)
  }

  /** Shifting one place further doubles the value. */
  lemma ShlSucc(x: int, i: nat)
    ensures Shl(x, i + 1) == 2 * Shl(x, i)
  {
  }

  /** Shifting a doubled value is shifting the value one place further. */
  lemma ShlOfDouble(x: int, i: nat)
    ensures Shl(2 * x, i) == Shl(x, i + 1)
  {
  }

  /** A positive value only grows when shifted further. */
  lemma {:induction false} ShlStrictlyIncreasing(x: int, i: nat, j: nat)
    requires x > 0
    requires i < j
    ensures 0 < Shl(x, i) < Shl(x, j)
    decreases j - i
  {
    ShlSucc(x, i);
    if i + 1 < j {
      ShlStrictlyIncreasing(x, i + 1, j);
    }
  }

  /** The non-strict form of `ShlStrictlyIncreasing`. */
  lemma ShlMonotone(x: int, i: nat, j: nat)
    requires x > 0
    requires i <= j
    ensures 0 < Shl(x, i) <= Shl(x, j)
  {
    if i < j {
      ShlStrictlyIncreasing(x, i, j);
    }
  }
}
