/** Fixed-size transfer chunks: the arithmetic of src/chunk.rs, and the 1 KiB
    verification ranges of src/verify.rs derived from it. */
module Geometry {
  import opened Basics

  const GROUP_SIZE: nat := 16 * 1024
  const MIN_CHUNK_SIZE: nat := 64 * 1024
  const MAX_CHUNK_SIZE: nat := 4 * 1024 * 1024

  datatype GeometryError = SizeOutOfRange | SizeMisaligned | TooManyChunks

  /** Half-open byte range `[start, end)`. */
  datatype ByteSpan = ByteSpan(start: u64, end: u64)

  function ValidateChunkSize(chunkSize: u32): Result<(), GeometryError> {
    if !(MIN_CHUNK_SIZE <= chunkSize <= MAX_CHUNK_SIZE) then Err(SizeOutOfRange)
    else if chunkSize % GROUP_SIZE != 0 then Err(SizeMisaligned)
    else Ok(())
  }

  datatype TransferChunks = TransferChunks(chunkSize: u32, totalLen: u64) {

    static function New(chunkSize: u32, totalLen: u64): Result<TransferChunks, GeometryError> {
      var checked := ValidateChunkSize(chunkSize);
      if checked.Err? then Err(checked.error)
      else if DivCeil(totalLen, chunkSize) > U32_MAX then Err(TooManyChunks)
      else Ok(TransferChunks(chunkSize, totalLen))
    }

    /** Exactly the geometries `New` hands out. */
    ghost predicate Valid() {
      New(chunkSize, totalLen) == Ok(this)
    }

    /** The number of chunks. The result type is the claim that the program's
        narrowing cast loses nothing on an accepted geometry. */
    function Count(): (n: u32)
      requires Valid()
    {
      DivCeil(totalLen, chunkSize)
    }

    /** Byte range of any u32 index. The u64-typed intermediates are the claim
        that neither the product nor the sum wraps. */
    function ByteRange(index: u32): ByteSpan {
      ProductFits(index, chunkSize);
      var product: u64 := index * chunkSize;
      var start: u64 := Min(product, totalLen);
      var limit: u64 := start + chunkSize;
      ByteSpan(start, Min(limit, totalLen))
    }

    function LenOf(index: u32): u32 {
      var r := ByteRange(index);
      r.end - r.start
    }
  }

  lemma ProductFits(a: u32, b: u32)
    ensures 0 <= a * b <= U64_MAX - U32_MAX
  {
    assert a * b <= U32_MAX * U32_MAX by {
      assert a * b <= a * U32_MAX;
      assert a * U32_MAX <= U32_MAX * U32_MAX;
    }
  }

  /** Inside the count, chunk `i` starts at `i * chunkSize`, is non-empty and
      ends where the next one starts; the last one ends at the blob's end. */
  lemma Adjacent(c: TransferChunks, i: u32)
    requires c.Valid() && i < c.Count()
    ensures c.ByteRange(i).start == i * c.chunkSize < c.ByteRange(i).end
    ensures c.ByteRange(i).start % GROUP_SIZE == 0
    ensures i + 1 < c.Count() ==> c.ByteRange(i).end == (i + 1) * c.chunkSize
    ensures i + 1 == c.Count() ==> c.ByteRange(i).end == c.totalLen
    ensures i + 1 <= U32_MAX ==> c.ByteRange(i).end == c.ByteRange(i + 1).start
  {
    var n, s := c.Count(), c.chunkSize;
    DivCeilBounds(c.totalLen, s);
    MulMonotone(i, n - 1, s);
    MulMonotone(n, n, s);
    MulMonotone(i + 1, i + 1, s);
    if i + 1 < n {
      MulMonotone(i + 1, n - 1, s);
    }
    AlignedProduct(i, s);
  }

  lemma AlignedProduct(i: nat, s: nat)
    requires s % GROUP_SIZE == 0
    ensures (i * s) % GROUP_SIZE == 0
  {
    var k := s / GROUP_SIZE;
    assert i * s == (i * k) * GROUP_SIZE;
    assert ((i * k) * GROUP_SIZE) % GROUP_SIZE == 0;
  }

  /** Past the count every range is empty and sits at the end. */
  lemma PastTheEnd(c: TransferChunks, i: u32)
    requires c.Valid() && c.Count() <= i
    ensures c.ByteRange(i) == ByteSpan(c.totalLen, c.totalLen)
    ensures c.LenOf(i) == 0
  {
    DivCeilBounds(c.totalLen, c.chunkSize);
    MulMonotone(c.Count(), i, c.chunkSize);
  }

  /** Starts are ordered, so different chunks never overlap. */
  lemma Disjoint(c: TransferChunks, i: u32, j: u32)
    requires c.Valid() && i < j < c.Count()
    ensures c.ByteRange(i).end <= c.ByteRange(j).start
  {
    Adjacent(c, i);
    Adjacent(c, j);
    MulMonotone(i + 1, j, c.chunkSize);
  }

  /** Tiling: the chunks below the count partition `[0, totalLen)`. Every byte
      offset lies in exactly one chunk, and nothing lies beyond. */
  lemma TilesExactly(c: TransferChunks, k: nat)
    requires c.Valid()
    ensures k < c.totalLen <==>
            exists i: u32 :: i < c.Count() && c.ByteRange(i).start <= k < c.ByteRange(i).end
    ensures forall i: u32, j: u32 |
              && i < c.Count() && j < c.Count()
              && c.ByteRange(i).start <= k < c.ByteRange(i).end
              && c.ByteRange(j).start <= k < c.ByteRange(j).end :: i == j
  {
    if k < c.totalLen {
      var i := ChunkOf(c, k);
    }
    forall i: u32, j: u32 | i < c.Count() && j < c.Count() && i < j
      ensures c.ByteRange(i).end <= c.ByteRange(j).start
    {
      Disjoint(c, i, j);
    }
  }

  /** The chunk that holds byte `k`. */
  lemma ChunkOf(c: TransferChunks, k: nat) returns (i: u32)
    requires c.Valid() && k < c.totalLen
    ensures i < c.Count() && c.ByteRange(i).start <= k < c.ByteRange(i).end
  {
    var s := c.chunkSize;
    DivCeilBounds(c.totalLen, s);
    DivCeilBounds(k + 1, s);
    var q := DivCeil(k + 1, s) - 1;
    MulMonotone(q + 1, q + 1, s);
    if q >= c.Count() {
      MulMonotone(c.Count(), q, s);
    }
    i := q;
    Adjacent(c, i);
  }

  // ----- the 1 KiB ranges handed to the verifier -----

  const KIB: nat := 1024

  /** Half-open range of 1 KiB units. */
  datatype UnitSpan = UnitSpan(start: nat, end: nat)

  function ChunkRange(bytes: ByteSpan): UnitSpan {
    UnitSpan(bytes.start / KIB, DivCeil(bytes.end, KIB))
  }

  /** The verification ranges tile too: consecutive chunks meet exactly, the
      first starts at 0, the last covers the tail, and the bytes a range covers
      are exactly its chunk's, so writing one chunk never touches another. */
  lemma UnitRangesTile(c: TransferChunks, i: u32)
    requires c.Valid() && i < c.Count()
    ensures var r, u := c.ByteRange(i), ChunkRange(c.ByteRange(i));
            && u.start * KIB == r.start
            && u.start < u.end
            && Min(u.end * KIB, c.totalLen) == r.end
    ensures i + 1 < c.Count() ==>
              ChunkRange(c.ByteRange(i)).end == ChunkRange(c.ByteRange(i + 1)).start
    ensures i + 1 == c.Count() ==> ChunkRange(c.ByteRange(i)).end == DivCeil(c.totalLen, KIB)
  {
    Adjacent(c, i);
    KibOfAligned(c.ByteRange(i).start);
    DivCeilBounds(c.ByteRange(i).end, KIB);
    if i + 1 < c.Count() {
      Adjacent(c, i + 1);
      KibOfAligned(c.ByteRange(i + 1).start);
    }
  }

  lemma {:induction false} KibOfAligned(start: nat)
    requires start % GROUP_SIZE == 0
    ensures start / KIB * KIB == start
    ensures DivCeil(start, KIB) == start / KIB
  {
    var g := start / GROUP_SIZE;
    assert start == g * 16 * KIB;
    DivCeilUnique(start, KIB, g * 16);
  }

  // ----- summing lengths -----

  /** Total length of the chunks below `n` whose index is in `held`. */
  ghost function BytesIn(c: TransferChunks, held: set<nat>, n: nat): nat
    requires n <= U32_MAX + 1
  {
    if n == 0 then 0
    else BytesIn(c, held, n - 1) + if n - 1 in held then c.LenOf(n - 1) else 0
  }

  /** Adding a chunk adds its length once. */
  lemma {:induction false} BytesInAdd(c: TransferChunks, held: set<nat>, i: u32, n: nat)
    requires n <= U32_MAX + 1 && i !in held
    ensures BytesIn(c, held + {i}, n) ==
            BytesIn(c, held, n) + if i < n then c.LenOf(i) else 0
  {
    if n > 0 {
      BytesInAdd(c, held, i, n - 1);
    }
  }

  lemma {:induction false} BytesInNone(c: TransferChunks, n: nat)
    requires n <= U32_MAX + 1
    ensures BytesIn(c, {}, n) == 0
  {
    if n > 0 {
      BytesInNone(c, n - 1);
    }
  }

  /** All chunks together are the whole blob: the tiling, as a sum. */
  lemma {:induction false} BytesInAll(c: TransferChunks, held: set<nat>, n: nat)
    requires c.Valid() && n <= c.Count()
    requires forall i: nat :: i < n ==> i in held
    ensures BytesIn(c, held, n) == Min(n * c.chunkSize, c.totalLen)
    ensures n == c.Count() ==> BytesIn(c, held, n) == c.totalLen
  {
    if n > 0 {
      BytesInAll(c, held, n - 1);
      DivCeilBounds(c.totalLen, c.chunkSize);
      Adjacent(c, n - 1);
      MulMonotone(n, n, c.chunkSize);
    }
  }

  /** Any selection of chunks is at most the whole blob. */
  lemma {:induction false} BytesInBound(c: TransferChunks, held: set<nat>, n: nat)
    requires c.Valid() && n <= c.Count()
    ensures BytesIn(c, held, n) <= Min(n * c.chunkSize, c.totalLen)
  {
    if n > 0 {
      BytesInBound(c, held, n - 1);
      Adjacent(c, n - 1);
      MulMonotone(n, n, c.chunkSize);
    }
  }
}
