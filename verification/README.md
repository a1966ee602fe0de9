# slicepool in Dafny

A model of `slicepool`, a size-classed pool of `[]interface{}` slices. `New(minSize, maxSize)`
creates size classes whose capacities start at `minSize` and double until they reach
`maxSize`. Each class gets one `sync.Pool` free-list. `Get(size)` serves a request from the
smallest class whose capacity is at least `size`, or allocates directly when `size` exceeds
the largest class. `Put(v)` files a slice under the class its capacity belongs to, folds
slices larger than the top class into the top class, and drops slices smaller than the
first class.

Files and modules:

- `search.dfy`, module `SortSearch`: Go's `sort.Search` as a recursive bisection, with its
  "first index where the predicate holds, or `n`" contract and a linear-scan reference.
- `shift.dfy`, module `Doubling`: `x << i` on unbounded integers (`x * 2^i`) and its monotonicity.
- `pool.dfy`, module `SlicePool`: the pool state, `New`, `Get`, `Put`, and the class lookups
  `GetIndex` (`poolSizes[i] >= size`) and `PutIndex` (`poolSizes[i] > cap`, minus one).
- `properties.dfy`, module `PoolProperties`: characterisations of both lookups, round trips
  between `Put` and `Get`, the free-list invariant over any history of calls, and the
  concrete configurations `New(1, 1024)` and the default `New(1, 1 << 20)`.
- `overflow.dfy`, module `IntOverflow`: the class-counting loop on a 64-bit Go `int` (see Findings).

Each `sync.Pool` is a multiset of slice headers `Slice(len, cap)`. Its freedom is made
explicit as parameters. `Get` takes a `Draw`: `Miss` makes the class factory run, and
`Hit(s)` hands back a held slice `s`. `Put` takes `stored`, which says whether the
free-list keeps the slice. The invariant `FreeListsSound` says that every slice in
free-list `i` has capacity at least `poolSizes[i]`, and below `poolSizes[i+1]` unless `i` is
the top class. `New` establishes it, `Get` and `Put` preserve it, and with it every `Get`
returns a slice of length 0 and capacity at least the request.

Two consequences of the comparisons in the code are worth stating plainly:

- Free-list `i` holds capacities in `[poolSizes[i], poolSizes[i+1])`, and the top free-list
  holds every capacity from the top class size upwards (pool.go:86-89). It does not hold
  `(poolSizes[i-1], poolSizes[i]]`. `PutIndexIsOwnClass` states the interval.
- So in `New(1, 1024)` a capacity-8 slice is filed under class 3 and is never served to
  `Get(3)`, which draws from class 2 (capacity 4). `Get(5)` through `Get(8)` draw from
  class 3. `ClassesOneTo1024` proves these indices, and `GetIndexIsTightClass` gives the
  sizes each class serves.

## Model

| member | source | states |
|---|---|---|
| SortSearch.Search | pool.go:69-71 | `sort.Search(n, f)` for a monotone `f` returns the first index in `[0, n)` where `f` holds, or `n` if there is none |
| SortSearch.Bisect | pool.go:86-88 | the bisection loop on a window `[i, j)` returns the first true index of that window, using only the monotonicity of `f` |
| SortSearch.SearchMatchesScan | pool.go:69-71 | the binary search agrees with a linear upward scan for every monotone predicate |
| Doubling.ShlStrictlyIncreasing | pool.go:44 | for positive `x`, `x << i` is positive and strictly increasing in `i` |
| SlicePool.SizesIncreasing | pool.go:43-44 | the class sizes of a constructed pool are strictly increasing |
| SlicePool.SizesDouble | pool.go:44 | each class size is twice the previous one |
| SlicePool.MinimalCountStep | pool.go:36-37 | one pass of the counting loop: a minimal count from `2 * minSize` plus one is a minimal count from `minSize` |
| SlicePool.ClassCount | pool.go:35-38 | the counting loop yields the minimal class count: at least 1, `minSize << (k-1) >= maxSize`, and `minSize << (k-2) < maxSize` when `k >= 2` |
| SlicePool.MinimalCountUnique | pool.go:35-38 | at most one class count is minimal, so the count is determined by `(minSize, maxSize)` |
| SlicePool.New | pool.go:30-58 | fails with `ErrInvalidParam` exactly when `minSize <= 0` or `maxSize < minSize`; otherwise returns a pool with `poolSizes[i] == minSize << i`, the minimal class count, empty free-lists, and the free-list invariant |
| SlicePool.Factory | pool.go:45-50 | the factory of class `n` makes a slice whose length and capacity are both exactly `poolSizes[n]` |
| SlicePool.GetIndex | pool.go:69-71 | for `size` up to the top class, the chosen index is in bounds, its class holds `size`, every earlier class is too small, and it is 0 exactly when `size <= poolSizes[0]` (so for all non-positive sizes) |
| SlicePool.Get | pool.go:64-74 | result has length 0; an oversize request gets capacity exactly `size` and leaves every free-list unchanged; otherwise the slice is a factory slice of class `GetIndex(size)` or one taken from that free-list alone; the free-list invariant is preserved and, under it, capacity is at least `size` |
| SlicePool.PutIndex | pool.go:86-88 | for `cap >= poolSizes[0]` the chosen class `k` is in bounds with `poolSizes[k] <= cap`, `cap < poolSizes[k+1]` below the top class, and `k` is the top class exactly when `cap >= poolSizes[length-1]` |
| SlicePool.Put | pool.go:80-90 | a slice below the first class changes nothing; otherwise only free-list `PutIndex(cap)` may change, and only by gaining this slice; the free-list invariant is preserved |
| PoolProperties.GetIndexIsTightClass | pool.go:69-71 | `Get` uses class `k` if and only if `poolSizes[k-1] < size <= poolSizes[k]` (for class 0, `size <= poolSizes[0]`) |
| PoolProperties.PutIndexIsOwnClass | pool.go:86-89 | `Put` files capacity `c` under class `k` if and only if `poolSizes[k] <= c` and, below the top class, `c < poolSizes[k+1]` |
| PoolProperties.FactorySliceReturnsHome | pool.go:45-50 | a slice from class `n`'s factory is filed back under class `n`, and a request for its capacity is served by class `n` |
| PoolProperties.PutThenGetRoundTrip | pool.go:72-89 | storing a slice and then drawing it in a `Get` of the same class restores the pool exactly and returns the slice's capacity with length 0 |
| PoolProperties.Run | pool.go:16-20 | no sequence of `Get` and `Put` calls changes the class count or the class sizes |
| PoolProperties.RunKeepsFreeListsSound | pool.go:80-90 | after any sequence of calls, every free-list still holds only slices of its own class |
| PoolProperties.GetAlwaysFits | pool.go:64-74 | on a pool from `New`, after any history of calls, every `Get(size)` returns length 0 and capacity at least `size` |
| PoolProperties.SizesOneTo1024 | pool.go:35-44 | `New(1, 1024)` succeeds with 11 classes of sizes `1, 2, 4, ..., 1024` |
| PoolProperties.ClassesOneTo1024 | pool.go:31-33 | `New(0, 10)` and `New(10, 5)` fail; in `New(1, 1024)` 5 uses class 3 and 3 uses class 2, capacity 8 is filed under class 3, and 2000 bypasses the pool |
| PoolProperties.DefaultClassCount | pool.go:27 | the counting loop gives 21 classes for `(1, 1 << 20)` |
| PoolProperties.DefaultPoolHas21Classes | pool.go:26-28 | the default configuration `(1, 1 << 20)` is accepted and has 21 classes, the top one of capacity `1 << 20` |
| IntOverflow.ChunkFromOne | pool.go:36 | with 64-bit wrap-around, `chunkSize` from 1 is `2^i` up to pass 62, `-2^63` at pass 63 and 0 from pass 64 on |
| IntOverflow.CountingLoopNeverExits | pool.go:36-38 | for `maxSize = 1 << 62 + 1`, which fits in a 64-bit `int`, the loop guard `chunkSize < maxSize` holds after every pass |
| IntOverflow.UnboundedCountForBadMaxSize | pool.go:35-38 | on unbounded integers the same `New` succeeds with 64 classes, the top one `1 << 63` |

## Left out

- Concurrency and the internals of `sync.Pool`: sharding, per-P caches and GC eviction. Each free-list is a multiset. Its choices are the `Draw` and `stored` parameters: a miss even when slices are held, a slice lost on `Put`. Eviction between calls is not a separate step; a `Put` that does not store covers the same observable outcomes.
- Slice contents and the `interface{}` element type. Only length and capacity are modelled. That `(*v)[:0]` keeps stale elements is not represented.
- `len <= cap` of a Go slice is not enforced on `Slice`. `Put` never reads the length, and every slice the model creates satisfies it.
- The package-level `defaultPool`, `Get` and `Put` (pool.go:24-28, 60-62, 76-78) only delegate. Only their configuration is checked, by `DefaultPoolHas21Classes`.
- The `Pool` interface and the `var _ Pool` assertion (pool.go:11-14, 22) are Go typing only.
- A pool with `length == 0` cannot be built by `New`. `Get` and `Put` require `WellFormed`, which includes `length >= 1`; the index expressions of pool.go:65 and pool.go:82 rely on the same fact.
- SlicePool.New: computes the class count and the sizes on unbounded integers. It does not model the wrap-around of `chunkSize <<= 1` and `minSize << uint(i)` on Go's `int`. With a 64-bit `int` this matters for `maxSize` above `1 << 62`; with a 32-bit `int` the same happens above `1 << 30`. `IntOverflow` models the 64-bit case on its own.
- SlicePool.ClassCount: the same unbounded-integer caveat as `New`.

## Findings

| source | as written | input that shows it | evidently intended | confidence | as-written member | corrected member |
|---|---|---|---|---|---|---|
| pool.go:36 | on a 64-bit platform, `chunkSize <<= 1` wraps from `1 << 62` to `-1 << 63` and then to 0. The guard `chunkSize < maxSize` stays true, so `New` never returns. A 32-bit `int` wraps the same way above `1 << 30` | `New(1, 1<<62 + 1)` | the loop stops at the first doubling of `minSize` that reaches `maxSize`. For this input that top class is `1 << 63`, which an `int` cannot hold either, so a fix written in Go must reject such a `maxSize` (or cap the classes) rather than only stop the loop | medium; not executed | IntOverflow.CountingLoopNeverExits | SlicePool.ClassCount |
