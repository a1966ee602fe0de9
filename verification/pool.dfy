/** The size-classed slice pool: `New`, `(*pool).Get` and `(*pool).Put`.

    A pool has `length` size classes whose capacities `poolSizes[i] == minSize << i`
    double from one class to the next, and one free-list per class. The free-lists are
    `sync.Pool`s; here each one is a multiset of slice headers that may lose what it is
    given and may miss when asked, which is all the pool relies on. Only the length and
    capacity of a slice are modelled.
 */
module SlicePool {
  import opened SortSearch
  import opened Doubling

  /** `ErrInvalidParam`, the only error. */
  datatype Error = InvalidParam

  datatype Result<T> = Ok(value: T) | Err(error: Error)

  /** A slice header. Go keeps `len <= cap`; the pool never reads `len`. */
  datatype Slice = Slice(len: nat, cap: nat)

  /** One `sync.Pool`, as the bag of slices it currently holds. */
  type FreeList = multiset<Slice>

  datatype Pool = Pool(length: int, poolSizes: seq<int>, pools: seq<FreeList>)

  /** What a `sync.Pool.Get` hands back: nothing (so the factory runs), or a held slice. */
  datatype Draw = Miss | Hit(s: Slice)

  /** The state after a `Get`, and the slice it returned. */
  datatype GetOutcome = GetOutcome(pool: Pool, buf: Slice)

  /** The shape `New` gives every pool: at least one class, one free-list per class,
      and class `i` of capacity `poolSizes[0] << i` with `poolSizes[0]` positive. */
  ghost predicate WellFormed(p: Pool) {
    && p.length >= 1
    && |p.poolSizes| == p.length
    && |p.pools| == p.length
    && p.poolSizes[0] > 0
    && forall i :: 0 <= i < p.length ==> p.poolSizes[i] == Shl(p.poolSizes[0], i)
  }

  /** The capacity of the largest class. */
  function Top(p: Pool): int
    requires WellFormed(p)
  {
    p.poolSizes[p.length - 1]
  }

  /** Capacity `c` belongs to class `i`: at least the class size, and below the next
      class's size unless `i` is the top class. */
  ghost predicate InClass(p: Pool, i: int, c: int)
    requires WellFormed(p)
    requires 0 <= i < p.length
  {
    p.poolSizes[i] <= c && (i < p.length - 1 ==> c < p.poolSizes[i + 1])
  }

  /** Every slice held by free-list `i` belongs to class `i`. */
  ghost predicate FreeListsSound(p: Pool)
    requires WellFormed(p)
  {
    forall i, s :: 0 <= i < p.length && s in p.pools[i] ==> InClass(p, i, s.cap)
  }

  ghost predicate Valid(p: Pool) {
    WellFormed(p) && FreeListsSound(p)
  }

  /** `p` and `q` have the same classes; only their free-lists may differ. */
  ghost predicate SameClasses(p: Pool, q: Pool) {
    q.length == p.length && q.poolSizes == p.poolSizes && |q.pools| == |p.pools|
  }

  /** The free-lists of `q` are those of `p` except, possibly, number `k`. */
  ghost predicate OthersUnchanged(p: Pool, q: Pool, k: int)
    requires SameClasses(p, q)
  {
    forall i :: 0 <= i < |p.pools| && i != k ==> q.pools[i] == p.pools[i]
  }

  /** The class sizes strictly increase. */
  lemma SizesIncreasing(p: Pool, i: int, j: int)
    requires WellFormed(p)
    requires 0 <= i < j < p.length
    ensures p.poolSizes[i] < p.poolSizes[j]
  {
    ShlStrictlyIncreasing(p.poolSizes[0], i, j);
  }

  /** Each class is twice the size of the one before it. */
  lemma SizesDouble(p: Pool, i: int)
    requires WellFormed(p)
    requires 0 <= i < p.length - 1
    ensures p.poolSizes[i + 1] == 2 * p.poolSizes[i]
  {
  }

  // ---------------------------------------------------------------- New

  /** `k` classes are as few as reach `maxSize` from `minSize` by doubling: the top
      class `minSize << (k-1)` is at least `maxSize`, and the class below it is not. */
  ghost predicate MinimalCount(minSize: int, maxSize: int, k: int) {
    && k >= 1
    && Shl(minSize, k - 1) >= maxSize
    && (k >= 2 ==> Shl(minSize, k - 2) < maxSize)
  }

  /** One pass of the counting loop: if `k` classes are minimal from `2 * minSize`, then
      `k + 1` are minimal from `minSize`. */
  lemma MinimalCountStep(minSize: int, maxSize: int, k: int)
    requires 0 < minSize < maxSize
    requires MinimalCount(2 * minSize, maxSize, k)
    ensures MinimalCount(minSize, maxSize, k + 1)
  {
    ShlOfDouble(minSize, k - 1);
    if k >= 2 {
      ShlOfDouble(minSize, k - 2);
    }
  }

  /** The counting loop of `New`: starting from `length := 1`, add a class while the
      doubled chunk size is still below `maxSize`. */
  function ClassCount(minSize: int, maxSize: int): (k: int)
    requires minSize > 0
    ensures MinimalCount(minSize, maxSize, k)
    decreases maxSize - minSize
  {
    if minSize < maxSize then
      var rest := ClassCount(2 * minSize, maxSize);
      MinimalCountStep(minSize, maxSize, rest);
      1 + rest
    else
      1
  }

  /** Only one class count is minimal. */
  lemma MinimalCountUnique(minSize: int, maxSize: int, k1: int, k2: int)
    requires minSize > 0
    requires MinimalCount(minSize, maxSize, k1)
    requires MinimalCount(minSize, maxSize, k2)
    ensures k1 == k2
  {
    if k1 < k2 {
      ShlMonotone(minSize, k1 - 1, k2 - 2);
    } else if k2 < k1 {
      ShlMonotone(minSize, k2 - 1, k1 - 2);
    }
  }

  /** `New(minSize, maxSize)`: reject bad bounds, count the classes, size them, and give
      each an empty free-list whose factory makes a slice of the class capacity. */
  function New(minSize: int, maxSize: int): (r: Result<Pool>)
    ensures r.Err? <==> minSize <= 0 || maxSize < minSize
    ensures r.Ok? ==>
      && Valid(r.value)
      && r.value.poolSizes[0] == minSize
      && MinimalCount(minSize, maxSize, r.value.length)
      && forall i :: 0 <= i < r.value.length ==> r.value.pools[i] == multiset{}
  {
    if minSize <= 0 || maxSize < minSize then
      Err(InvalidParam)
    else
      var length := ClassCount(minSize, maxSize);
      var poolSizes := seq(length, i requires 0 <= i < length => Shl(minSize, i));
      Ok(Pool(length, poolSizes, seq(length, _ => multiset{})))
  }

  /** The factory of free-list `n`: `make([]interface{}, poolSizes[n])`. */
  function Factory(p: Pool, n: int): (s: Slice)
    requires WellFormed(p)
    requires 0 <= n < p.length
    ensures s.cap == p.poolSizes[n] && s.len == s.cap
  {
    Slice(p.poolSizes[n], p.poolSizes[n])
  }

  // ---------------------------------------------------------------- Get

  /** The search predicate of `Get`, `poolSizes[i] >= size`, read as true past the end. */
  function AtLeast(sizes: seq<int>, size: int): int -> bool {
    i => !(0 <= i < |sizes|) || sizes[i] >= size
  }

  /** The search predicate of `Put`, `poolSizes[i] > size`, read as true past the end. */
  function Above(sizes: seq<int>, size: int): int -> bool {
    i => !(0 <= i < |sizes|) || sizes[i] > size
  }

  lemma AtLeastMonotone(p: Pool, size: int)
    requires WellFormed(p)
    ensures MonotoneOn(AtLeast(p.poolSizes, size), 0, p.length)
  {
    forall a, b | 0 <= a <= b < p.length && AtLeast(p.poolSizes, size)(a)
      ensures AtLeast(p.poolSizes, size)(b)
    {
      if a < b {
        SizesIncreasing(p, a, b);
      }
    }
  }

  lemma AboveMonotone(p: Pool, size: int)
    requires WellFormed(p)
    ensures MonotoneOn(Above(p.poolSizes, size), 0, p.length)
  {
    forall a, b | 0 <= a <= b < p.length && Above(p.poolSizes, size)(a)
      ensures Above(p.poolSizes, size)(b)
    {
      if a < b {
        SizesIncreasing(p, a, b);
      }
    }
  }

  /** The class `Get` draws from for an in-range `size`: the smallest one whose
      capacity is at least `size`. Sizes up to the first class, including zero and
      negative ones, use class 0. */
  function GetIndex(p: Pool, size: int): (n: int)
    requires WellFormed(p)
    requires size <= Top(p)
    ensures 0 <= n < p.length
    ensures size <= p.poolSizes[n]
    ensures forall j :: 0 <= j < n ==> p.poolSizes[j] < size
    ensures n == 0 <==> size <= p.poolSizes[0]
  {
    AtLeastMonotone(p, size);
    var n := Search(p.length, AtLeast(p.poolSizes, size));
    assert AtLeast(p.poolSizes, size)(p.length - 1);
    assert forall j :: 0 <= j < n ==> p.poolSizes[j] < size by {
      forall j | 0 <= j < n
        ensures p.poolSizes[j] < size
      {
        assert !AtLeast(p.poolSizes, size)(j);
      }
    }
    n
  }

  /** Both ways a free-list can serve a `Get` of class `n`: on a miss the pool is
      unchanged and the slice comes from the factory; on a hit one held slice leaves
      free-list `n` and its capacity is kept. */
  ghost predicate ServedFrom(p: Pool, n: int, r: GetOutcome)
    requires WellFormed(p)
    requires 0 <= n < p.length
  {
    || (r.pool == p && r.buf.cap == Factory(p, n).cap)
    || exists s :: s in p.pools[n] && r.buf.cap == s.cap && r.pool == p.(pools := p.pools[n := p.pools[n] - multiset{s}])
  }

  /** `(*pool).Get(size)`. Oversize requests get a fresh slice of capacity exactly `size`
      and leave the free-lists alone; the others are served by the smallest class that
      fits. The slice returned always has length 0 and, while the free-lists hold only
      slices of their own class, capacity at least `size`. */
  function Get(p: Pool, size: int, draw: Draw): (r: GetOutcome)
    requires WellFormed(p)
    ensures r.buf.len == 0
    ensures SameClasses(p, r.pool) && WellFormed(r.pool)
    ensures size > Top(p) ==> r.pool == p && r.buf.cap == size
    ensures size <= Top(p) ==> ServedFrom(p, GetIndex(p, size), r)
    ensures FreeListsSound(p) ==> FreeListsSound(r.pool) && r.buf.cap >= size
  {
    if size > Top(p) then
      GetOutcome(p, Slice(0, size))
    else
      var n := GetIndex(p, size);
      if draw.Hit? && draw.s in p.pools[n] then
        var s := draw.s;
        var q := p.(pools := p.pools[n := p.pools[n] - multiset{s}]);
        GetOutcome(q, Slice(0, s.cap))
      else
        GetOutcome(p, Slice(0, Factory(p, n).cap))
  }

  // ---------------------------------------------------------------- Put

  /** The class `Put` files a slice of capacity `c` under: one below the smallest class
      whose capacity exceeds `c`. It is the class `c` belongs to, and capacities beyond
      the top class fold into the top class. */
  function PutIndex(p: Pool, c: int): (k: int)
    requires WellFormed(p)
    requires p.poolSizes[0] <= c
    ensures 0 <= k < p.length
    ensures InClass(p, k, c)
    ensures k == p.length - 1 <==> Top(p) <= c
  {
    AboveMonotone(p, c);
    var n := Search(p.length, Above(p.poolSizes, c));
    assert !Above(p.poolSizes, c)(0);
    assert !Above(p.poolSizes, c)(n - 1);
    assert n < p.length - 1 ==> p.poolSizes[n] < Top(p) by {
      if n < p.length - 1 {
        SizesIncreasing(p, n, p.length - 1);
      }
    }
    n - 1
  }

  /** `(*pool).Put(v)`. A slice below the first class is dropped. Otherwise it goes to
      free-list `PutIndex(p, cap(v))`, which keeps it if `stored` and loses it if not;
      no other free-list changes. */
  function Put(p: Pool, v: Slice, stored: bool): (q: Pool)
    requires WellFormed(p)
    ensures SameClasses(p, q) && WellFormed(q)
    ensures v.cap < p.poolSizes[0] ==> q == p
    ensures v.cap >= p.poolSizes[0] ==>
      var k := PutIndex(p, v.cap);
      && OthersUnchanged(p, q, k)
      && (q.pools[k] == p.pools[k] || q.pools[k] == p.pools[k] + multiset{v})
    ensures FreeListsSound(p) ==> FreeListsSound(q)
  {
    if v.cap < p.poolSizes[0] then
      p
    else
      var k := PutIndex(p, v.cap);
      if stored then p.(pools := p.pools[k := p.pools[k] + multiset{v}]) else p
  }
}
