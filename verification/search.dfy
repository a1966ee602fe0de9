/** The binary search of Go's `sort.Search`, which the pool uses to find a size class.

    `sort.Search(n, f)` presumes that `f` is false on some prefix of `[0, n)` and true
    on the rest, and returns the first index where `f` is true, or `n` when there is none.
    Its loop keeps a half-open window `[i, j)` and bisects it; `Bisect` is that loop
    written as a recursive function.
 */
module SortSearch {

  /** Once `f` holds at some index of `[lo, hi)`, it holds at every later index there. */
  ghost predicate MonotoneOn(f: int -> bool, lo: int, hi: int) {
    forall a, b :: lo <= a <= b < hi && f(a) ==> f(b)
  }

  /** `r` is the first index of `[lo, hi]` where `f` holds, counting `hi` as true. */
  ghost predicate FirstTrue(f: int -> bool, lo: int, hi: int, r: int) {
    && lo <= r <= hi
    && (forall k :: lo <= k < r ==> !f(k))
    && (r < hi ==> f(r))
  }

  /** One run of the loop of `sort.Search` on the window `[i, j)`. The midpoint is
      `int(uint(i+j) >> 1)` in Go, which is the floor of the mean for non-negative bounds. */
  function Bisect(f: int -> bool, i: int, j: int): (r: int)
    requires 0 <= i <= j
    requires MonotoneOn(f, i, j)
    ensures FirstTrue(f, i, j, r)
    decreases j - i
  {
    if i < j then
      var h := (i + j) / 2;
      if !f(h) then Bisect(f, h + 1, j) else Bisect(f, i, h)
    else
      i
  }

  /** `sort.Search(n, f)`. */
  function Search(n: int, f: int -> bool): (r: int)
    requires 0 <= n
    requires MonotoneOn(f, 0, n)
    ensures FirstTrue(f, 0, n, r)
  {
    Bisect(f, 0, n)
  }

  /** A reference definition of the same index: scan upwards from `i` until `f` holds. */
  function Scan(f: int -> bool, i: int, n: int): int
    requires i <= n
    decreases n - i
  {
    if i < n && !f(i) then Scan(f, i + 1, n) else i
  }

  /** The first-true index is unique, so any two searches that meet it agree. */
  lemma FirstTrueUnique(f: int -> bool, lo: int, hi: int, r1: int, r2: int)
    requires FirstTrue(f, lo, hi, r1)
    requires FirstTrue(f, lo, hi, r2)
    ensures r1 == r2
  {
  }

  /** The linear scan finds the first-true index of `[i, n]` for any `f`. */
  lemma {:induction false} ScanIsFirstTrue(f: int -> bool, i: int, n: int)
    requires i <= n
    ensures FirstTrue(f, i, n, Scan(f, i, n))
    decreases n - i
  {
    if i < n && !f(i) {
      ScanIsFirstTrue(f, i + 1, n);
    }
  }

  /** On a monotone predicate the binary search and the linear scan return the same index. */
  lemma SearchMatchesScan(n: int, f: int -> bool)
    requires 0 <= n
    requires MonotoneOn(f, 0, n)
    ensures Search(n, f) == Scan(f, 0, n)
  {
    ScanIsFirstTrue(f, 0, n);
    FirstTrueUnique(f, 0, n, Search(n, f), Scan(f, 0, n));
  }
}
