/** The class-counting loop of `New` on a 64-bit Go `int`, where `chunkSize <<= 1` wraps
    around. The rest of the model counts classes on unbounded integers (`SlicePool.ClassCount`);
    this module shows what the loop does as written when `maxSize` is above `1 << 62`.
    On a platform whose `int` has 32 bits the same wrap happens above `1 << 30`. */
module IntOverflow {
  import opened Doubling
  import SlicePool

  const TwoTo62: int := 0x4000_0000_0000_0000
  const TwoTo63: int := 0x8000_0000_0000_0000
  const TwoTo64: int := 0x1_0000_0000_0000_0000

  /** A `maxSize` that fits in an `int` but exceeds every positive value `chunkSize` takes. */
  const BadMaxSize: int := TwoTo62 + 1

  /** An integer reduced to a 64-bit two's-complement `int`: the representable value
      congruent to it modulo `2^64`. */
  function Wrap64(x: int): (r: int)
    ensures -TwoTo63 <= r < TwoTo63
    ensures (x - r) % TwoTo64 == 0
    ensures -TwoTo63 <= x < TwoTo63 ==> r == x
  {
    var m := x % TwoTo64;
    if m >= TwoTo63 then m - TwoTo64 else m
  }

  /** `chunkSize` after `steps` passes of `chunkSize <<= 1` on a Go `int`. */
  function Chunk64(minSize: int, steps: nat): int {
    if steps == 0 then minSize else Wrap64(2 * Chunk64(minSize, steps - 1))
  }

  lemma Pow2Of62()
    ensures Pow2(62) == TwoTo62
  {
    assert Pow2(10) == 0x400;
    Pow2Add(10, 10);
    Pow2Add(20, 20);
    Pow2Add(40, 20);
    Pow2Add(60, 2);
  }

  lemma WrapOfMinusTwoTo64()
    ensures Wrap64(-TwoTo64) == 0
  {
  }

  /** From `minSize == 1` the chunk doubles up to `2^62`, wraps to `-2^63` on the
      63rd pass, to `0` on the 64th, and stays `0` from then on. */
  lemma {:induction false} ChunkFromOne(steps: nat)
    ensures Chunk64(1, steps) ==
      if steps <= 62 then Pow2(steps) else if steps == 63 then -TwoTo63 else 0
  {
    if steps > 0 {
      ChunkFromOne(steps - 1);
      var prev := Chunk64(1, steps - 1);
      if steps <= 62 {
        Pow2Of62();
        ShlMonotone(1, steps, 62);
        assert 2 * prev == Pow2(steps) <= TwoTo62;
      } else if steps == 63 {
        Pow2Of62();
        assert 2 * prev == TwoTo63;
        assert Wrap64(TwoTo63) == -TwoTo63;
      } else if steps == 64 {
        WrapOfMinusTwoTo64();
      } else {
        assert prev == 0;
      }
    }
  }

  /** As written, `New(1, 1 << 62 + 1)` never leaves its counting loop: after every number
      of passes the guard `chunkSize < maxSize` still holds. */
  lemma CountingLoopNeverExits(steps: nat)
    ensures BadMaxSize < TwoTo63
    ensures Chunk64(1, steps) < BadMaxSize
  {
    ChunkFromOne(steps);
    if steps <= 62 {
      Pow2Of62();
      ShlMonotone(1, steps, 62);
    }
  }

  /** With unbounded integers the same request is counted: 64 classes, the last of
      capacity `2^63`, the first doubling of 1 that reaches `maxSize`. */
  lemma UnboundedCountForBadMaxSize()
    ensures SlicePool.ClassCount(1, BadMaxSize) == 64
    ensures SlicePool.New(1, BadMaxSize).Ok?
    ensures Shl(1, 63) == TwoTo63
  {
    Pow2Of62();
    assert Shl(1, 62) == TwoTo62;
    SlicePool.MinimalCountUnique(1, BadMaxSize, SlicePool.ClassCount(1, BadMaxSize), 64);
  }
}
