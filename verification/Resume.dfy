/** The manifest of a blob and the resume sidecar: src/manifest.rs, src/resume.rs. */
module Resume {
  import opened Basics
  import opened Geometry
  import opened Bits
  import opened Spans

  /** What names a blob and fixes its geometry. The advisory file name and the
      timestamp take no part in any decision and are not kept. */
  datatype Manifest = Manifest(
    version: nat,
    id: string,
    totalLen: u64,
    chunkSize: u32,
    root: Hash,
    maxChunksPerQuery: Option<u32>)
  {
    function Chunks(): Result<TransferChunks, GeometryError> {
      TransferChunks.New(chunkSize, totalLen)
    }

    /** The geometry of a manifest whose geometry is accepted. */
    function Geometry(): (c: TransferChunks)
      requires Chunks().Ok?
      ensures c.Valid() && c.totalLen == totalLen && c.chunkSize == chunkSize
    {
      Chunks().value
    }

    function Count(): u32
      requires Chunks().Ok?
    {
      Geometry().Count()
    }
  }

  /** The value of a sidecar: what is saved to disk and what a clone holds. */
  datatype Sidecar = Sidecar(
    version: nat,
    id: string,
    root: Hash,
    totalLen: u64,
    chunkSize: u32,
    bits: Bytes)
  {
    static function Fresh(m: Manifest, count: u32): Sidecar {
      Sidecar(WIRE_VERSION, m.id, m.root, m.totalLen, m.chunkSize, seq(BytesFor(count), _ => 0))
    }

    predicate Matches(m: Manifest, count: u32) {
      && version == WIRE_VERSION
      && id == m.id
      && root == m.root
      && totalLen == m.totalLen
      && chunkSize == m.chunkSize
      && |bits| == BytesFor(count)
    }

    /** The count derived from the recorded geometry, narrowed to u32. */
    function ChunkCount(): u32 {
      if chunkSize == 0 then 0 else DivCeil(totalLen, chunkSize) % U32_SPAN
    }

    predicate IsSet(i: u32) {
      Bits.IsSet(bits, ChunkCount(), i)
    }

    /** This sidecar with chunk `i` marked, where marking does anything. */
    function Marked(i: u32): Sidecar {
      if i >= ChunkCount() || i / 8 >= |bits| % U32_SPAN || IsSet(i) then this
      else this.(bits := bits[i / 8 := bits[i / 8] | Bit(i % 8)])
    }

    function Received(): u32 {
      Bits.Received(bits, ChunkCount())
    }

    predicate IsComplete(count: u32) {
      Received() >= count
    }

    /** The chunks this sidecar claims. */
    ghost function Held(): set<nat> {
      SetBelow(bits, ChunkCount(), ChunkCount())
    }
  }

  /** A sidecar that matches a manifest whose geometry was accepted. */
  ghost predicate Fits(s: Sidecar, m: Manifest) {
    && m.Chunks().Ok?
    && s.Matches(m, m.Count())
  }

  lemma FitsCount(s: Sidecar, m: Manifest)
    requires Fits(s, m)
    ensures s.ChunkCount() == m.Count()
    ensures |s.bits| <= ADDRESSABLE_BYTES
    ensures 8 * |s.bits| >= s.ChunkCount()
  {
    FitsU32(m.Count());
  }

  lemma HeldMembership(s: Sidecar, i: u32)
    ensures i in s.Held() <==> s.IsSet(i)
  {
    InSetBelow(s.bits, s.ChunkCount(), s.ChunkCount(), i);
  }

  lemma HeldInRange(s: Sidecar)
    ensures s.Held() <= Below(s.ChunkCount())
    ensures |s.Held()| <= s.ChunkCount()
  {
    SubsetCard(s.Held(), Below(s.ChunkCount()));
  }

  /** On a matching sidecar the received count is the number of set chunks, for
      arbitrary bytes, and completeness means every chunk is set. */
  lemma MatchingCountsExactly(s: Sidecar, m: Manifest)
    requires Fits(s, m)
    ensures s.Received() == |s.Held()|
    ensures s.IsComplete(m.Count()) <==>
            forall i: u32 :: i < m.Count() ==> s.IsSet(i)
    ensures s.IsComplete(m.Count()) <==>
            s.Held() == Below(m.Count())
  {
    var count := m.Count();
    FitsCount(s, m);
    ReceivedExact(s.bits, count);
    FullMeansAll(s.bits, count);
    HeldInRange(s);
    forall i: u32
      ensures i in s.Held() <==> s.IsSet(i)
    {
      HeldMembership(s, i);
    }
    if forall i: u32 :: i < count ==> s.IsSet(i) {
      assert s.Held() == Below(count);
    }
  }

  /** Marking adds exactly the marked chunk, and only changes the bits. */
  lemma MarkedHeld(s: Sidecar, m: Manifest, i: u32)
    requires Fits(s, m)
    ensures Fits(s.Marked(i), m)
    ensures s.Marked(i).Held() == if i < m.Count() then s.Held() + {i} else s.Held()
  {
    FitsCount(s, m);
    HeldMembership(s, i);
    FitsU32(|s.bits|);
    if i < s.ChunkCount() && !s.IsSet(i) {
      SetBelowMark(s.bits, s.ChunkCount(), i);
    }
  }

  lemma FreshHoldsNothing(m: Manifest)
    requires m.Chunks().Ok?
    ensures Fits(Sidecar.Fresh(m, m.Count()), m)
    ensures Sidecar.Fresh(m, m.Count()).Held() == {}
  {
    var s := Sidecar.Fresh(m, m.Count());
    FitsCount(s, m);
    forall i: u32
      ensures i !in s.Held()
    {
      HeldMembership(s, i);
      if s.IsSet(i) {
        ZeroHasNoBit(i % 8);
      }
    }
    HeldInRange(s);
  }

  /** The chunks below `count` that `held` lacks. */
  ghost function Missing(held: set<nat>, count: u32): set<nat> {
    Below(count) - held
  }

  lemma {:induction false} MissingCard(held: set<nat>, count: u32)
    requires held <= Below(count)
    ensures |Missing(held, count)| == count - |held|
  {
    assert Below(count) == held + Missing(held, count);
  }

  /** The mutable bitfield the transfer loops work on. */
  class ResumeState {
    const version: nat
    const id: string
    const root: Hash
    const totalLen: u64
    const chunkSize: u32
    var bits: Bytes

    constructor (s: Sidecar)
      ensures Snapshot() == s
    {
      version, id, root, totalLen, chunkSize, bits := s.version, s.id, s.root, s.totalLen, s.chunkSize, s.bits;
    }

    /** The value a clone of this state holds. */
    function Snapshot(): Sidecar
      reads this
    {
      Sidecar(version, id, root, totalLen, chunkSize, bits)
    }

    /** Mark chunk `i`; true if it was not marked before. */
    method Mark(i: u32) returns (newly: bool)
      modifies this
      ensures Snapshot() == old(Snapshot()).Marked(i)
      ensures newly <==>
              i < old(Snapshot()).ChunkCount() && i / 8 < |old(bits)| % U32_SPAN && !old(Snapshot()).IsSet(i)
    {
      if i >= Snapshot().ChunkCount() || i / 8 >= |bits| % U32_SPAN || Snapshot().IsSet(i) {
        return false;
      }
      bits := bits[i / 8 := bits[i / 8] | Bit(i % 8)];
      return true;
    }

    /** The maximal runs of chunks below `count` that are not marked. */
    method MissingRanges(count: u32) returns (out: seq<Span>)
      ensures RunsOf(out, Missing(Snapshot().Held(), count))
      ensures EndsBy(out, count)
    {
      out := FindHoles(Snapshot(), count);
    }
  }

  /** The scan of `missing_ranges`: skip marked chunks, then run to the end of
      the hole. */
  method FindHoles(s: Sidecar, count: u32) returns (out: seq<Span>)
    ensures RunsOf(out, Missing(s.Held(), count))
    ensures EndsBy(out, count)
  {
    out := [];
    var i: u32 := 0;
    while i < count
      invariant i <= count
      invariant Scanned(out, s.Held(), i, count)
      decreases count - i
    {
      HeldMembership(s, i);
      if s.IsSet(i) {
        ScanSkip(out, s.Held(), i, count);
        i := i + 1;
      } else {
        var start := i;
        i := HoleEnd(s, start, count);
        ScanHole(out, s.Held(), start, i, count);
        out := out + [Span(start, i)];
      }
    }
  }

  /** The holes below `i` are found, and an unfinished hole does not end at `i`. */
  ghost predicate Scanned(out: seq<Span>, held: set<nat>, i: u32, count: u32) {
    && RunsOf(out, Missing(held, i))
    && EndsBy(out, i)
    && (out != [] && out[|out| - 1].end == i ==> i == count || i in held)
  }

  lemma ScanSkip(out: seq<Span>, held: set<nat>, i: u32, count: u32)
    requires Scanned(out, held, i, count) && i in held && i < count
    ensures Scanned(out, held, i + 1, count)
  {
    assert Missing(held, i + 1) == Missing(held, i);
  }

  lemma ScanHole(out: seq<Span>, held: set<nat>, start: u32, end: u32, count: u32)
    requires Scanned(out, held, start, count) && start < end <= count && start !in held
    requires forall k: nat :: start <= k < end ==> k !in held
    requires end == count || end in held
    ensures Scanned(out + [Span(start, end)], held, end, count)
  {
    forall k | 0 <= k < |out|
      ensures out[k].end < start
    {
      assert k < |out| - 1 ==> out[k].end < out[|out| - 1].start;
    }
    AppendRun(out, Missing(held, start), Span(start, end), Missing(held, end));
  }

  /** The inner loop: the first marked chunk after `start`, or the count. */
  method HoleEnd(s: Sidecar, start: u32, count: u32) returns (i: u32)
    requires start < count && start !in s.Held()
    ensures start < i <= count
    ensures i == count || i in s.Held()
    ensures forall k: nat :: start <= k < i ==> k !in s.Held()
  {
    i := start;
    HeldMembership(s, i);
    while i < count && !s.IsSet(i)
      invariant start <= i <= count
      invariant i < count ==> (s.IsSet(i) <==> i in s.Held())
      invariant forall k: nat :: start <= k < i ==> k !in s.Held()
      decreases count - i
    {
      i := i + 1;
      if i < count {
        HeldMembership(s, i);
      }
    }
  }

  /** Two ways to the same list: coalescing the ascending list of unmarked
      indices gives the scan's runs, cut at 128 spans. */
  lemma {:induction false} CoalescedHoles(s: Sidecar, count: u32, indices: seq<ChunkIndex>, runs: seq<Span>)
    requires Ascending(indices)
    requires forall i: nat :: i in Missing(s.Held(), count) <==> i in Elements(indices)
    requires RunsOf(runs, Missing(s.Held(), count))
    ensures Coalesced(indices) == runs
  {
    assert Missing(s.Held(), count) == Elements(indices);
    CoalesceAgreesWithRuns(indices, runs);
  }
}
