/** What a download may rely on between any two I/O steps, as facts about values. */
module DownloadFacts {
  import opened Basics
  import opened Geometry
  import opened Resume
  import opened Slices
  import opened Disks

  /** The byte range of chunk `i` of an accepted manifest. */
  ghost function RangeOf(m: Manifest, i: u32): ByteSpan
    requires m.Chunks().Ok?
  {
    m.Geometry().ByteRange(i)
  }

  /** Chunk `i` lies inside the blob, and if it is the last one the manifest's length is
      the blob's. */
  ghost predicate InBlob(m: Manifest, i: u32)
    requires m.Chunks().Ok?
  {
    Reaches(m.root, m.totalLen, RangeOf(m, i).end)
  }

  /** Chunk `i` reads back as the bytes of the blob the manifest's root names. */
  ghost predicate Holds(view: Bytes, m: Manifest, i: u32)
    requires m.Chunks().Ok?
  {
    && |view| == m.totalLen && InBlob(m, i) && RangeOf(m, i).end <= m.totalLen
    && forall k: nat :: RangeOf(m, i).start <= k < RangeOf(m, i).end ==> view[k] == m.root.preimage[k]
  }

  /** No crash can make chunk `i` read as anything else. */
  ghost predicate Durable(may: seq<set<bv8>>, m: Manifest, i: u32)
    requires m.Chunks().Ok?
  {
    && |may| == m.totalLen && InBlob(m, i) && RangeOf(m, i).end <= m.totalLen
    && forall k: nat :: RangeOf(m, i).start <= k < RangeOf(m, i).end ==> may[k] == {m.root.preimage[k]}
  }

  /** Crash safety: if a resume would trust the sidecar, every bit it carries has
      its chunk's correct bytes durable. */
  ghost predicate CrashSafe(d: DiskState, m: Manifest)
    requires m.Chunks().Ok?
  {
    d.present && |d.may| == m.totalLen && d.sidecar.Some? && Fits(d.sidecar.value, m) ==>
      forall i: u32 :: i in d.sidecar.value.Held() ==> Durable(d.may, m, i)
  }

  /** The invariant of the loop: `held` reads back correctly, and the sidecar on
      disk never claims more than `held`. */
  ghost predicate Sound(d: DiskState, held: set<nat>, m: Manifest)
    requires m.Chunks().Ok?
  {
    && d.Valid()
    && d.present
    && |d.view| == m.totalLen
    && (forall i: u32 :: i in held ==> Holds(d.view, m, i))
    && (d.sidecar.Some? && Fits(d.sidecar.value, m) ==> d.sidecar.value.Held() <= held)
    && CrashSafe(d, m)
  }

  lemma Apart(m: Manifest, i: u32, j: u32)
    requires m.Chunks().Ok? && i != j
    requires i < m.Count() && j < m.Count()
    ensures RangeOf(m, i).end <= RangeOf(m, j).start || RangeOf(m, j).end <= RangeOf(m, i).start
  {
    var c := m.Geometry();
    if i < j { Disjoint(c, i, j); } else { Disjoint(c, j, i); }
  }

  /** Writing inside one span does not touch another. */
  lemma WriteMisses(before: DiskState, after: DiskState, m: Manifest, j: u32, mine: ByteSpan,
                    offset: nat, data: Bytes, ok: bool)
    requires m.Chunks().Ok?
    requires mine.end <= RangeOf(m, j).start || RangeOf(m, j).end <= mine.start
    requires |before.view| == |before.may| == m.totalLen
    requires mine.start <= offset && offset + |data| <= mine.end <= m.totalLen
    requires Wrote(before, after, offset, data, ok)
    ensures Holds(before.view, m, j) ==> Holds(after.view, m, j)
    ensures Durable(before.may, m, j) ==> Durable(after.may, m, j)
  {
  }

  /** Writing verified bytes into a chunk not yet held keeps everything that was
      true, whether the write completes or dies half way. */
  lemma WriteKeepsSound(before: DiskState, after: DiskState, held: set<nat>, m: Manifest, i: u32,
                        offset: nat, data: Bytes, ok: bool)
    requires m.Chunks().Ok? && Sound(before, held, m)
    requires i < m.Count() && i !in held
    requires held <= Below(m.Count())
    requires RangeOf(m, i).start <= offset && offset + |data| <= RangeOf(m, i).end
    requires after.Valid() && Wrote(before, after, offset, data, ok)
    ensures Sound(after, held, m)
  {
    forall j: u32 | j in held
      ensures Holds(after.view, m, j)
      ensures Durable(before.may, m, j) ==> Durable(after.may, m, j)
    {
      Apart(m, i, j);
      WriteMisses(before, after, m, j, RangeOf(m, i), offset, data, ok);
    }
  }

  /** A sync keeps everything and settles what is held. */
  lemma SyncSettles(before: DiskState, after: DiskState, held: set<nat>, m: Manifest, ok: bool)
    requires m.Chunks().Ok? && Sound(before, held, m)
    requires after.Valid() && Synced(before, after, ok)
    ensures Sound(after, held, m)
    ensures ok ==> forall i: u32 :: i in held ==> Durable(after.may, m, i)
  {
    if after.sidecar.Some? && Fits(after.sidecar.value, m) {
      forall i: u32 | i in after.sidecar.value.Held()
        ensures Durable(after.may, m, i)
      {
        assert Durable(before.may, m, i);
        forall k | RangeOf(m, i).start <= k < RangeOf(m, i).end
          ensures after.may[k] == {m.root.preimage[k]}
        {
          assert after.may[k] <= before.may[k];
          assert after.view[k] in after.may[k];
        }
      }
    }
    if ok {
      forall i: u32 | i in held
        ensures Durable(after.may, m, i)
      {
        assert Holds(before.view, m, i);
      }
    }
  }

  /** Saving after the sync: the new sidecar claims only durable chunks, and it
      does not matter whether the replacement got through. */
  lemma SaveKeepsSound(before: DiskState, after: DiskState, s: Sidecar, m: Manifest)
    requires m.Chunks().Ok? && Sound(before, s.Held(), m) && Fits(s, m)
    requires forall i: u32 :: i in s.Held() ==> Durable(before.may, m, i)
    requires after == before.(sidecar := after.sidecar)
    requires after.sidecar == Some(s) || after.sidecar == before.sidecar
    ensures Sound(after, s.Held(), m)
  {
  }

  /** Once a chunk's pieces are all written, it can be held too. */
  lemma HoldAnother(d: DiskState, held: set<nat>, m: Manifest, i: u32)
    requires m.Chunks().Ok? && Sound(d, held, m) && Holds(d.view, m, i)
    ensures Sound(d, held + {i as nat}, m)
  {
  }

  /** A file that holds every chunk is the blob. */
  lemma AllHeldIsBlob(d: DiskState, held: set<nat>, m: Manifest)
    requires m.Chunks().Ok? && Sound(d, held, m)
    requires held == Below(m.Count())
    requires m.totalLen == 0 ==> m.root == Hash([])
    ensures d.view == m.root.preimage
  {
    if m.totalLen > 0 {
      LastChunkFixesLength(d, held, m);
    }
    forall k: nat | k < |d.view|
      ensures d.view[k] == m.root.preimage[k]
    {
      var i := ChunkOf(m.Geometry(), k);
      assert Holds(d.view, m, i);
    }
  }

  /** The last chunk is the one that proves the blob's length. */
  lemma LastChunkFixesLength(d: DiskState, held: set<nat>, m: Manifest)
    requires m.Chunks().Ok? && Sound(d, held, m)
    requires held == Below(m.Count()) && m.totalLen > 0
    ensures m.totalLen == |m.root.preimage|
  {
    var i := ChunkOf(m.Geometry(), m.totalLen - 1);
    assert Holds(d.view, m, i);
  }

  /** Whatever a crash leaves of a crash-safe disk is a sound place to resume
      from with the sidecar's own chunks. */
  lemma CrashThenResume(before: DiskState, after: DiskState, m: Manifest)
    requires m.Chunks().Ok? && before.Valid() && CrashSafe(before, m)
    requires after.Valid() && after.present == before.present && after.sidecar == before.sidecar
    requires |after.view| == |before.view|
    requires forall k :: 0 <= k < |after.view| ==> after.view[k] in before.may[k] && after.may[k] == {after.view[k]}
    ensures CrashSafe(after, m)
  {
    if after.present && |after.may| == m.totalLen && after.sidecar.Some? && Fits(after.sidecar.value, m) {
      forall i: u32 | i in after.sidecar.value.Held()
        ensures Durable(after.may, m, i)
      {
        assert Durable(before.may, m, i);
        forall k | RangeOf(m, i).start <= k < RangeOf(m, i).end
          ensures after.may[k] == {m.root.preimage[k]}
        {
          assert after.view[k] in before.may[k];
        }
      }
    }
  }

  lemma ResumeIsSound(d: DiskState, m: Manifest)
    requires m.Chunks().Ok? && d.Valid() && CrashSafe(d, m)
    requires d.present && |d.view| == m.totalLen && d.sidecar.Some? && Fits(d.sidecar.value, m)
    ensures Sound(d, d.sidecar.value.Held(), m)
  {
    forall i: u32 | i in d.sidecar.value.Held()
      ensures Holds(d.view, m, i)
    {
      assert Durable(d.may, m, i);
      forall k | RangeOf(m, i).start <= k < RangeOf(m, i).end
        ensures d.view[k] == m.root.preimage[k]
      {
        assert d.view[k] in d.may[k];
      }
    }
  }

  /** The payload a holder of the blob sends for chunk `i`. */
  function ChunkSlice(m: Manifest, i: u32): Payload
    requires m.Chunks().Ok?
  {
    EncodeSlice(m.root.preimage, ChunkRange(m.Geometry().ByteRange(i)))
  }

  /** Decode a payload as chunk `i` against the manifest's root. */
  method DecodeChunk(m: Manifest, i: u32, payload: Payload) returns (leaves: Option<seq<Leaf>>)
    requires m.Chunks().Ok? && i < m.Count()
    ensures leaves.Some? ==>
              && InBlob(m, i)
              && Pieces(leaves.value, m.root.preimage, RangeOf(m, i).start, RangeOf(m, i).end)
    ensures m.totalLen == |m.root.preimage| && payload == ChunkSlice(m, i) ==> leaves.Some?
  {
    UnitRangesTile(m.Geometry(), i);
    leaves := DecodeSlice(m.root, m.totalLen, ChunkRange(m.Geometry().ByteRange(i)), payload);
  }
}
