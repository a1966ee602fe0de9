/** Facts about the pool that relate several operations: which requests a class serves,
    that a recycled slice comes back to the class it was made for, that no history of
    `Get`s and `Put`s breaks the free-list invariant, and the concrete configurations. */
module PoolProperties {
  import opened Doubling
  import opened SlicePool

  /** `Get` uses class `k` exactly for the sizes above the class below it and up to
      class `k` itself (for class 0: every size up to it). */
  lemma GetIndexIsTightClass(p: Pool, size: int, k: int)
    requires WellFormed(p)
    requires size <= Top(p)
    requires 0 <= k < p.length
    ensures GetIndex(p, size) == k <==> size <= p.poolSizes[k] && (k > 0 ==> p.poolSizes[k - 1] < size)
  {
    var n := GetIndex(p, size);
    if size <= p.poolSizes[k] && (k > 0 ==> p.poolSizes[k - 1] < size) {
      if n < k - 1 {
        SizesIncreasing(p, n, k - 1);
      }
    }
  }

  /** `Put` files capacity `c` under class `k` exactly when `c` belongs to class `k`. */
  lemma PutIndexIsOwnClass(p: Pool, c: int, k: int)
    requires WellFormed(p)
    requires p.poolSizes[0] <= c
    requires 0 <= k < p.length
    ensures PutIndex(p, c) == k <==> InClass(p, k, c)
  {
    var n := PutIndex(p, c);
    if InClass(p, k, c) && n != k {
      if n < k {
        if n + 1 < k {
          SizesIncreasing(p, n + 1, k);
        }
      } else {
        if k + 1 < n {
          SizesIncreasing(p, k + 1, n);
        }
      }
    }
  }

  /** A slice made by the factory of class `n` is filed back under class `n`, and a
      request for exactly that capacity is served by class `n`. */
  lemma FactorySliceReturnsHome(p: Pool, n: int)
    requires WellFormed(p)
    requires 0 <= n < p.length
    ensures PutIndex(p, Factory(p, n).cap) == n
    ensures GetIndex(p, Factory(p, n).cap) == n
  {
    var c := Factory(p, n).cap;
    if n > 0 {
      SizesIncreasing(p, 0, n);
      SizesIncreasing(p, n - 1, n);
    }
    if n < p.length - 1 {
      SizesIncreasing(p, n, n + 1);
    }
    if n < p.length - 1 {
      SizesIncreasing(p, n, p.length - 1);
    }
    PutIndexIsOwnClass(p, c, n);
    GetIndexIsTightClass(p, c, n);
  }

  /** Putting a slice back and then asking its class for it restores the pool exactly,
      and the caller receives the slice's storage again, trimmed to length 0. */
  lemma PutThenGetRoundTrip(p: Pool, v: Slice, size: int)
    requires WellFormed(p)
    requires p.poolSizes[0] <= v.cap
    requires size <= Top(p)
    requires GetIndex(p, size) == PutIndex(p, v.cap)
    ensures Get(Put(p, v, true), size, Hit(v)) == GetOutcome(p, Slice(0, v.cap))
  {
    var k := PutIndex(p, v.cap);
    var q := Put(p, v, true);
    assert q.pools[k] == p.pools[k] + multiset{v};
    assert q.pools[k] - multiset{v} == p.pools[k];
    assert q.pools[k := q.pools[k] - multiset{v}] == p.pools;
  }

  // ------------------------------------------------------- histories of calls

  /** One call a client can make on a pool, with the free-list's free choices. */
  datatype Call = GetCall(size: int, draw: Draw) | PutCall(v: Slice, stored: bool)

  function Step(p: Pool, c: Call): (q: Pool)
    requires WellFormed(p)
    ensures SameClasses(p, q) && WellFormed(q)
  {
    match c
    case GetCall(size, draw) => Get(p, size, draw).pool
    case PutCall(v, stored) => Put(p, v, stored)
  }

  /** The pool after a sequence of calls. Calls never change the classes. */
  function Run(p: Pool, calls: seq<Call>): (q: Pool)
    requires WellFormed(p)
    ensures SameClasses(p, q) && WellFormed(q)
    decreases |calls|
  {
    if |calls| == 0 then p else Run(Step(p, calls[0]), calls[1..])
  }

  /** No history of calls puts a slice into a free-list of another class. */
  lemma {:induction false} RunKeepsFreeListsSound(p: Pool, calls: seq<Call>)
    requires Valid(p)
    ensures Valid(Run(p, calls))
    decreases |calls|
  {
    if |calls| > 0 {
      RunKeepsFreeListsSound(Step(p, calls[0]), calls[1..]);
    }
  }

  /** End to end: whatever a fresh pool has been through, every `Get` returns a slice
      of length 0 with room for the request. */
  lemma GetAlwaysFits(minSize: int, maxSize: int, calls: seq<Call>, size: int, draw: Draw)
    requires New(minSize, maxSize).Ok?
    ensures
      var p := Run(New(minSize, maxSize).value, calls);
      var r := Get(p, size, draw);
      r.buf.len == 0 && r.buf.cap >= size
  {
    RunKeepsFreeListsSound(New(minSize, maxSize).value, calls);
  }

  // ------------------------------------------------------- configurations

  /** `New(1, 1024)` builds eleven classes `1, 2, ..., 1024`. */
  lemma SizesOneTo1024()
    ensures New(1, 1024).Ok?
    ensures New(1, 1024).value.length == 11
    ensures New(1, 1024).value.poolSizes == [1, 2, 4, 8, 16, 32, 64, 128, 256, 512, 1024]
  {
    assert Shl(1, 9) == 512 && Shl(1, 10) == 1024;
    MinimalCountUnique(1, 1024, ClassCount(1, 1024), 11);
    var p := New(1, 1024).value;
    assert p.poolSizes == [1, 2, 4, 8, 16, 32, 64, 128, 256, 512, 1024] by {
      forall i | 0 <= i < 11
        ensures p.poolSizes[i] == Pow2(i)
      {
      }
    }
  }

  /** Bad bounds fail. In `New(1, 1024)` a request for 5 is served by class 3
      (capacity 8); 2000 bypasses the pool; a slice of capacity 8 is filed under class 3,
      which a request for 3 does not reach, since class 2 (capacity 4) fits it. */
  lemma ClassesOneTo1024()
    ensures New(0, 10).Err? && New(10, 5).Err?
    ensures New(1, 1024).Ok?
    ensures
      var p := New(1, 1024).value;
      && GetIndex(p, 5) == 3
      && GetIndex(p, 3) == 2
      && PutIndex(p, 8) == 3
      && forall draw :: Get(p, 2000, draw).buf == Slice(0, 2000)
  {
    SizesOneTo1024();
    var p := New(1, 1024).value;
    GetIndexIsTightClass(p, 5, 3);
    GetIndexIsTightClass(p, 3, 2);
    PutIndexIsOwnClass(p, 8, 3);
  }

  /** The default configuration `(1 << 0, 1 << 20)` needs 21 classes: 20 doublings take 1 to `1 << 20`. */
  lemma DefaultClassCount()
    ensures ClassCount(1, 0x10_0000) == 21
  {
    assert Pow2(10) == 0x400;
    Pow2Add(10, 10);
    assert Shl(1, 19) == 0x8_0000 && Shl(1, 20) == 0x10_0000;
    MinimalCountUnique(1, 0x10_0000, ClassCount(1, 0x10_0000), 21);
  }

  /** The default pool, `New(1 << 0, 1 << 20)`, is accepted and has 21 classes. */
  lemma DefaultPoolHas21Classes()
    ensures New(1, 0x10_0000).Ok?
    ensures New(1, 0x10_0000).value.length == 21
    ensures Top(New(1, 0x10_0000).value) == 0x10_0000
  {
    assert Pow2(10) == 0x400;
    Pow2Add(10, 10);
    DefaultClassCount();
  }
}
