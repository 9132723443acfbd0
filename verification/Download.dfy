/** The retry and resume loop of src/client.rs, with every I/O step able to fail. */
module Download {
  import opened Basics
  import opened Geometry
  import opened Spans
  import opened Text
  import opened Resume
  import opened Slices
  import opened Disks
  import opened DownloadFacts
  import Keys
  import Selector

  // ----- the world outside -----

  /** One reply as it arrives: a transport error, or a sample with its encoding
      tag already compared, its key and its payload. */
  datatype Reply = Failure | Sample(isSlice: bool, key: string, payload: Payload)

  datatype QueryResult = Unsent | Answered(replies: seq<Reply>)

  /** Any network: what the n-th query with a given selector brings back. */
  type Network = (nat, string) -> QueryResult

  datatype ClientConfig = ClientConfig(prefix: string, maxChunksPerQuery: u32, maxAttempts: u32)

  datatype DownloadError =
    | Incomplete(received: u32, total: u32)
    | Cancelled(received: u32, total: u32)
    | Io
    | Query
    | RootMismatch
    | BadManifest(why: GeometryError)
    | DestinationExists

  datatype Progress =
    | Started(totalLen: u64, count: u32)
    | Resumed(received: u32, total: u32)
    | Chunk(index: u32, received: u32, total: u32, bytesReceived: u64)
    | CancelledAt(received: u32, total: u32)
    | Completed

  class TransferStats {
    var chunksResumed: nat
    var chunksFetched: nat
    var bytesFetched: nat
    var rejected: nat
    var queries: nat
    var retries: nat
    /** What each query gained, in chunks, in the order they were made. */
    ghost var gains: seq<nat>

    constructor ()
      ensures chunksResumed == chunksFetched == bytesFetched == rejected == queries == retries == 0
      ensures gains == []
    {
      chunksResumed, chunksFetched, bytesFetched, rejected, queries, retries := 0, 0, 0, 0, 0, 0;
      gains := [];
    }
  }

  class ProgressSink {
    var events: seq<Progress>

    constructor ()
      ensures events == []
    {
      events := [];
    }

    method Emit(e: Progress)
      modifies this
      ensures events == old(events) + [e]
    {
      events := events + [e];
    }
  }

  // ----- what the events say -----

  /** The chunks present after the events, starting from `initial`. */
  ghost function HeldAfter(initial: set<nat>, events: seq<Progress>): set<nat> {
    if events == [] then initial
    else
      var before := HeldAfter(initial, events[..|events| - 1]);
      match events[|events| - 1]
      case Chunk(index, _, _, _) => before + {index as nat}
      case _ => before
  }

  /** Every event reports the true position at its moment: each chunk is new, the
      received count is the number of chunks present and the byte counter is the
      total length of exactly those chunks. */
  ghost predicate Faithful(initial: set<nat>, events: seq<Progress>, c: TransferChunks)
    requires c.Valid()
  {
    events == [] ||
    (var prior := events[..|events| - 1];
     var before, now := HeldAfter(initial, prior), HeldAfter(initial, events);
     && Faithful(initial, prior, c)
     && match events[|events| - 1]
        case Chunk(index, received, total, bytes) =>
          index !in before && index < total == c.Count() && received == |now| && bytes == BytesIn(c, now, c.Count())
        case Resumed(received, total) => received == |now| && total == c.Count()
        case CancelledAt(received, total) => received == |now| && total == c.Count()
        case _ => true)
  }

  lemma {:induction false} EventAppended(initial: set<nat>, events: seq<Progress>, e: Progress)
    ensures HeldAfter(initial, events + [e]) ==
            HeldAfter(initial, events) + if e.Chunk? then {e.index as nat} else {}
  {
    assert (events + [e])[..|events|] == events;
  }

  // ----- what the loop keeps -----

  ghost predicate AlwaysSafe(trace: seq<DiskState>, m: Manifest)
    requires m.Chunks().Ok?
  {
    forall k :: 0 <= k < |trace| ==> CrashSafe(trace[k], m)
  }

  lemma SafeAfter(trace: seq<DiskState>, d: DiskState, held: set<nat>, m: Manifest)
    requires m.Chunks().Ok? && AlwaysSafe(trace, m) && Sound(d, held, m)
    ensures AlwaysSafe(trace + [d], m)
  {
  }

  /** What holds between any two I/O steps. */
  ghost predicate Steady(disk: Disk, state: ResumeState, m: Manifest)
    reads disk, state
  {
    && m.Chunks().Ok?
    && Fits(state.Snapshot(), m)
    && Sound(disk.State(), state.Snapshot().Held(), m)
    && AlwaysSafe(disk.trace, m)
  }

  lemma SteadyFits(disk: Disk, state: ResumeState, m: Manifest)
    requires Steady(disk, state, m)
    ensures Fits(state.Snapshot(), m)
  {
  }

  /** The books: received = resumed + fetched, the byte counter is the length of
      the set chunks, and the events reported exactly that. */
  ghost predicate Books(held: set<nat>, counted: nat, events: seq<Progress>, c: TransferChunks,
                        initial: set<nat>, bytes: nat)
    requires c.Valid()
  {
    && |held| == counted
    && bytes == BytesIn(c, held, c.Count())
    && HeldAfter(initial, events) == held
    && Faithful(initial, events, c)
  }

  ghost predicate Ledger(state: ResumeState, stats: TransferStats, sink: ProgressSink, m: Manifest,
                         initial: set<nat>, bytes: nat)
    requires m.Chunks().Ok?
    reads state, stats`chunksResumed, stats`chunksFetched, sink
  {
    Books(state.Snapshot().Held(), stats.chunksResumed + stats.chunksFetched, sink.events,
          m.Geometry(), initial, bytes)
  }

  /** Booking a new chunk: the counters stay typed, so neither can wrap. */
  lemma BookChunk(held: set<nat>, counted: nat, events: seq<Progress>, c: TransferChunks,
                  initial: set<nat>, bytes: nat, index: u32)
    requires c.Valid() && Books(held, counted, events, c, initial, bytes)
    requires held <= Below(c.Count()) && index < c.Count() && index !in held
    ensures bytes + c.LenOf(index) <= c.totalLen && counted + 1 <= c.Count()
    ensures Books(held + {index as nat}, counted + 1,
                  events + [Chunk(index, counted + 1, c.Count(), bytes + c.LenOf(index))],
                  c, initial, bytes + c.LenOf(index))
  {
    var now := held + {index as nat};
    SubsetCard(now, Below(c.Count()));
    BytesInAdd(c, held, index, c.Count());
    BytesInBound(c, now, c.Count());
    var e := Chunk(index, counted + 1, c.Count(), bytes + c.LenOf(index));
    EventAppended(initial, events, e);
    assert (events + [e])[..|events|] == events;
  }

  /** A download opens by saying where it starts. */
  lemma {:induction false} FirstEvent(initial: set<nat>, e: Progress, c: TransferChunks)
    requires c.Valid()
    requires e.Started? || (e.Resumed? && e.received == |initial| && e.total == c.Count())
    ensures HeldAfter(initial, [e]) == initial && Faithful(initial, [e], c)
  {
    assert [e][..0] == [];
  }

  /** Booking a report of the present position. */
  lemma BookCancel(held: set<nat>, counted: nat, events: seq<Progress>, c: TransferChunks,
                   initial: set<nat>, bytes: nat)
    requires c.Valid() && Books(held, counted, events, c, initial, bytes) && counted <= U32_MAX
    ensures Books(held, counted, events + [CancelledAt(counted, c.Count())], c, initial, bytes)
  {
    var e := CancelledAt(counted, c.Count());
    EventAppended(initial, events, e);
    assert (events + [e])[..|events|] == events;
  }

  ghost function MissingNow(state: ResumeState, count: u32): set<nat>
    reads state
  {
    Missing(state.Snapshot().Held(), count)
  }

  /** The chunks a resume starts from: those of a sidecar that matches the manifest
      beside a partial file of its length. */
  ghost function Resumable(d: DiskState, m: Manifest): set<nat> {
    if d.present && |d.view| == m.totalLen && d.sidecar.Some? && Fits(d.sidecar.value, m)
    then d.sidecar.value.Held()
    else {}
  }

  /** From `before` to `now` the finished file did not change, nothing was forgotten,
      and nothing that could be resumed was lost. */
  ghost predicate Onward(before: Moment, now: Moment, m: Manifest) {
    && now.dest == before.dest
    && before.trace <= now.trace
    && before.faults <= now.faults
    && Resumable(before.state, m) <= Resumable(now.state, m)
  }

  lemma OnwardFrom(now: Moment, m: Manifest)
    ensures Onward(now, now, m)
  {
  }

  lemma OnwardMeans(before: Moment, now: Moment, m: Manifest)
    requires Onward(before, now, m)
    ensures before.trace <= now.trace && before.faults <= now.faults
  {
  }

  lemma OnwardOn(a: Moment, b: Moment, c: Moment, m: Manifest)
    requires Onward(a, b, m) && Onward(b, c, m)
    ensures Onward(a, c, m) && a.faults <= b.faults <= c.faults
  {
  }

  /** Marks are saved once this many are unsaved. */
  const SAVE_AFTER: nat := 64

  /** The chunks a crash at this moment would lose. */
  ghost function AtRisk(disk: Disk, state: ResumeState, m: Manifest): set<nat>
    reads disk, state
  {
    state.Snapshot().Held() - Resumable(disk.State(), m)
  }

  /** The unsaved count is the number of chunks at risk, and a save is not overdue. */
  ghost predicate Lagging(disk: Disk, state: ResumeState, m: Manifest, unsaved: nat)
    reads disk, state
  {
    |AtRisk(disk, state, m)| == unsaved < SAVE_AFTER
  }

  /** The error carries the true position. */
  ghost predicate Positioned(e: DownloadError, state: ResumeState, m: Manifest)
    requires m.Chunks().Ok?
    reads state
  {
    && (e.Cancelled? || e.Incomplete?)
    && e.received == |state.Snapshot().Held()|
    && e.total == m.Count()
  }

  // ----- saving -----

  /** The two I/O steps of a save: a sync under the old sidecar, and only when that
      succeeded the new sidecar over the synced file. */
  ghost predicate SyncedThenSaved(before: DiskState, steps: seq<DiskState>, s: Sidecar, ok: bool)
    requires before.Valid()
  {
    && 1 <= |steps| <= 2
    && Synced(before, steps[0], |steps| == 2)
    && (|steps| == 1 ==> !ok)
    && (|steps| == 2 ==>
          && steps[1] == steps[0].(sidecar := steps[1].sidecar)
          && (steps[1].sidecar == Some(s) || (!ok && steps[1].sidecar == before.sidecar)))
  }

  /** Data first, then the bits. */
  method SaveProgress(disk: Disk, state: ResumeState, m: Manifest) returns (ok: bool)
    requires Steady(disk, state, m)
    modifies disk
    ensures Steady(disk, state, m)
    ensures ok ==> disk.sidecar == Some(state.Snapshot()) && AtRisk(disk, state, m) == {}
    ensures AtRisk(disk, state, m) <= old(AtRisk(disk, state, m))
    ensures !ok ==> disk.faults > old(disk.faults)
    ensures Onward(old(disk.Now()), disk.Now(), m)
    ensures SyncedThenSaved(old(disk.State()), disk.trace[|old(disk.trace)|..], state.Snapshot(), ok)
    ensures disk.State() == disk.trace[|disk.trace| - 1]
  {
    ghost var held, before := state.Snapshot().Held(), disk.State();
    ok := disk.SyncData();
    ghost var synced := disk.State();
    assert disk.trace[|old(disk.trace)|..] == [synced];
    SyncSettles(before, synced, held, m, ok);
    if ok {
      ok := disk.SaveSidecar(state.Snapshot());
      SaveKeepsSound(synced, disk.State(), state.Snapshot(), m);
      assert disk.trace[|old(disk.trace)|..] == [synced, disk.State()];
    }
  }

  /** Cancellation persists what there is, then reports it. */
  method PersistCancel(disk: Disk, state: ResumeState, m: Manifest, stats: TransferStats, sink: ProgressSink,
                       ghost initial: set<nat>, ghost bytes: nat)
    returns (e: DownloadError)
    requires Steady(disk, state, m) && Ledger(state, stats, sink, m, initial, bytes)
    modifies disk, sink
    ensures Steady(disk, state, m) && Ledger(state, stats, sink, m, initial, bytes)
    ensures AtRisk(disk, state, m) <= old(AtRisk(disk, state, m))
    ensures (e == Io && disk.faults > old(disk.faults)) ||
            (e.Cancelled? && Positioned(e, state, m) && disk.sidecar == Some(state.Snapshot()))
    ensures Onward(old(disk.Now()), disk.Now(), m)
  {
    hide Sound, AlwaysSafe, Onward, AtRisk, Resumable, Faithful, HeldAfter, BytesIn, Sidecar.Held, Sidecar.Received;
    var ok := SaveProgress(disk, state, m);
    if !ok {
      return Io;
    }
    var count := m.Count();
    MatchingCountsExactly(state.Snapshot(), m);
    BookCancel(state.Snapshot().Held(), stats.chunksResumed + stats.chunksFetched, sink.events,
               m.Geometry(), initial, bytes);
    sink.Emit(CancelledAt(state.Snapshot().Received(), count));
    e := Cancelled(state.Snapshot().Received(), count);
  }

  // ----- one reply -----

  /** The verified bytes of chunk `i` are in place up to offset `at`. */
  ghost predicate WrittenTo(view: Bytes, m: Manifest, i: u32, at: nat)
    requires m.Chunks().Ok?
  {
    && |view| == m.totalLen && InBlob(m, i) && RangeOf(m, i).end <= m.totalLen
    && RangeOf(m, i).start <= at <= RangeOf(m, i).end
    && forall k: nat :: RangeOf(m, i).start <= k < at ==> view[k] == m.root.preimage[k]
  }

  /** Write every leaf of a decoded slice at its place. */
  method WriteLeaves(disk: Disk, state: ResumeState, m: Manifest, index: u32, leaves: seq<Leaf>) returns (ok: bool)
    requires Steady(disk, state, m)
    requires index < m.Count() && index !in state.Snapshot().Held()
    requires InBlob(m, index)
    requires Pieces(leaves, m.root.preimage, RangeOf(m, index).start, RangeOf(m, index).end)
    modifies disk
    ensures Steady(disk, state, m)
    ensures ok ==> Holds(disk.view, m, index)
    ensures Onward(old(disk.Now()), disk.Now(), m)
    ensures AtRisk(disk, state, m) == old(AtRisk(disk, state, m))
    ensures !ok ==> disk.faults > old(disk.faults)
  {
    ghost var at: nat := RangeOf(m, index).start;
    for n := 0 to |leaves|
      invariant Steady(disk, state, m)
      invariant WrittenTo(disk.view, m, index, at)
      invariant Pieces(leaves[n..], m.root.preimage, at, RangeOf(m, index).end)
      invariant Onward(old(disk.Now()), disk.Now(), m)
      invariant AtRisk(disk, state, m) == old(AtRisk(disk, state, m))
    {
      assert leaves[n..][0] == leaves[n] && leaves[n..][1..] == leaves[n + 1..];
      ok := WriteOne(disk, state, m, index, leaves[n], at);
      if !ok {
        return;
      }
      at := at + |leaves[n].data|;
    }
    ok := true;
  }

  /** One leaf, where the previous one ended. */
  method WriteOne(disk: Disk, state: ResumeState, m: Manifest, index: u32, leaf: Leaf, ghost at: nat) returns (ok: bool)
    requires Steady(disk, state, m)
    requires index < m.Count() && index !in state.Snapshot().Held()
    requires WrittenTo(disk.view, m, index, at)
    requires leaf.offset == at && at + |leaf.data| <= RangeOf(m, index).end <= |m.root.preimage|
    requires leaf.data == m.root.preimage[at..at + |leaf.data|]
    modifies disk
    ensures Steady(disk, state, m)
    ensures ok ==> WrittenTo(disk.view, m, index, at + |leaf.data|)
    ensures Onward(old(disk.Now()), disk.Now(), m)
    ensures AtRisk(disk, state, m) == old(AtRisk(disk, state, m))
    ensures !ok ==> disk.faults > old(disk.faults)
  {
    hide Onward, WrittenTo, Resumable, Sound, AlwaysSafe, Fits, Wrote, Sidecar.Held;
    ghost var before, start := disk.State(), disk.Now();
    HeldBelowCount(state, m);
    LeafFits(before, state.Snapshot().Held(), m, index, at, leaf);
    ok := disk.WriteLeaf(leaf.offset, leaf.data);
    WriteOnward(start, disk.Now(), m, leaf.offset, leaf.data, ok);
    WriteKeepsSound(before, disk.State(), state.Snapshot().Held(), m, index, leaf.offset, leaf.data, ok);
    SafeAfter(start.trace, disk.State(), state.Snapshot().Held(), m);
    if ok {
      LeafExtends(before, disk.State(), m, index, at, leaf.data);
    }
  }

  lemma LeafFits(d: DiskState, held: set<nat>, m: Manifest, i: u32, at: nat, leaf: Leaf)
    requires m.Chunks().Ok? && Sound(d, held, m) && WrittenTo(d.view, m, i, at)
    requires leaf.offset == at && at + |leaf.data| <= RangeOf(m, i).end <= |m.root.preimage|
    ensures d.Valid() && leaf.offset + |leaf.data| <= |d.view| && RangeOf(m, i).start <= leaf.offset
  {
  }

  lemma WriteOnward(before: Moment, after: Moment, m: Manifest, offset: nat, data: Bytes, ok: bool)
    requires offset + |data| <= |before.state.view| == |before.state.may|
    requires Wrote(before.state, after.state, offset, data, ok)
    requires after.dest == before.dest && before.trace <= after.trace && before.faults <= after.faults
    ensures Onward(before, after, m) && Resumable(after.state, m) == Resumable(before.state, m)
  {
  }

  lemma LeafExtends(before: DiskState, after: DiskState, m: Manifest, i: u32, at: nat, data: Bytes)
    requires m.Chunks().Ok? && before.Valid() && WrittenTo(before.view, m, i, at)
    requires at + |data| <= RangeOf(m, i).end <= |m.root.preimage|
    requires data == m.root.preimage[at..at + |data|]
    requires Wrote(before, after, at, data, true)
    ensures WrittenTo(after.view, m, i, at + |data|)
  {
    var blob, end := m.root.preimage, at + |data|;
    forall k: nat | RangeOf(m, i).start <= k < end
      ensures after.view[k] == blob[k]
    {
      if at <= k {
        assert after.view[at..end][k - at] == data[k - at] == blob[at..end][k - at];
      }
    }
  }

  /** The reply the server of this manifest's blob gives for chunk `i`. */
  function GenuineReply(prefix: string, m: Manifest, i: u32): Reply
    requires m.Chunks().Ok?
  {
    Sample(true, Keys.SliceKey(prefix, m.id, i), ChunkSlice(m, i))
  }

  /** The checks before decoding: encoding, key, range, and not already present.
      A genuine reply for a missing chunk passes with its own index. */
  method Screen(state: ResumeState, m: Manifest, reply: Reply) returns (r: Option<u32>)
    requires Fits(state.Snapshot(), m)
    ensures r.Some? ==> reply.Sample? && r.value < m.Count() && r.value !in state.Snapshot().Held()
    ensures forall prefix, i: u32 :: i < m.Count() && reply == GenuineReply(prefix, m, i) ==>
              r == if i in state.Snapshot().Held() then None else Some(i)
  {
    if reply.Failure? || !reply.isSlice {
      return None;
    }
    r := Keys.ParseSliceIndex(reply.key);
    forall prefix, i: u32 | i < m.Count() && reply == GenuineReply(prefix, m, i)
      ensures r == Some(i)
    {
      Keys.SliceIndexRoundTrip(prefix, m.id, i);
    }
    if r.Some? {
      HeldMembership(state.Snapshot(), r.value);
      if r.value >= m.Count() || state.Snapshot().IsSet(r.value) {
        r := None;
      }
    }
  }

  /** One received reply, from its encoding check to the batched save. A reply that
      is an error, foreign, mis-keyed, out of range, repeated or unverifiable
      changes nothing but the rejection count; a genuine one is written and
      marked. */
  method TakeReply(disk: Disk, state: ResumeState, m: Manifest, reply: Reply, unsaved: nat, bytesReceived: u64,
                   stats: TransferStats, sink: ProgressSink, ghost initial: set<nat>)
    returns (ok: bool, unsaved': nat, bytes: u64)
    requires Steady(disk, state, m) && Ledger(state, stats, sink, m, initial, bytesReceived)
    requires Lagging(disk, state, m, unsaved)
    modifies disk, state, stats, sink
    ensures Steady(disk, state, m) && Ledger(state, stats, sink, m, initial, bytes)
    ensures old(state.Snapshot().Held()) <= state.Snapshot().Held()
    ensures stats.chunksResumed == old(stats.chunksResumed)
    ensures stats.queries == old(stats.queries) && stats.gains == old(stats.gains)
    ensures stats.retries == old(stats.retries)
    ensures Onward(old(disk.Now()), disk.Now(), m)
    ensures if ok then Lagging(disk, state, m, unsaved') else |AtRisk(disk, state, m)| <= SAVE_AFTER
    ensures !ok ==> disk.faults > old(disk.faults)
    // A reply is rejected or brings a chunk or neither; a genuine one is not rejected.
    ensures OneReply(old(stats.rejected), stats.rejected, |old(state.Snapshot().Held())|, |state.Snapshot().Held()|)
    ensures forall prefix, i: u32 ::
              i < m.Count() && m.totalLen == |m.root.preimage| && reply == GenuineReply(prefix, m, i) ==>
                stats.rejected == old(stats.rejected)
    ensures ok ==> Answers(state.Snapshot().Held(), m, reply)
  {
    hide Steady, Ledger, Onward, AtRisk, Fits, Sidecar.Held, Holds, Pieces, ChunkSlice;
    ok, unsaved', bytes := true, unsaved, bytesReceived;
    SteadyFits(disk, state, m);
    OnwardFrom(disk.Now(), m);
    ghost var start := disk.Now();
    var index := Screen(state, m, reply);
    if index.None? {
      return;
    }
    var decoded := DecodeChunk(m, index.value, reply.payload);
    if decoded.None? {
      stats.rejected := stats.rejected + 1;
      return;
    }
    ok := WriteLeaves(disk, state, m, index.value, decoded.value);
    if !ok {
      return;
    }
    bytes := MarkChunk(disk, state, m, index.value, bytesReceived, stats, sink, initial);
    unsaved' := unsaved + 1;
    var due := unsaved' >= SAVE_AFTER;
    if * {
      due := true;
    }
    if due {
      ghost var risked, written := AtRisk(disk, state, m), disk.Now();
      ok := SaveProgress(disk, state, m);
      OnwardOn(start, written, disk.Now(), m);
      SubsetCard(AtRisk(disk, state, m), risked);
      unsaved' := 0;
    }
  }

  ghost predicate OneReply(rejected0: nat, rejected: nat, held0: nat, held: nat) {
    rejected0 <= rejected && held0 <= held && (rejected - rejected0) + (held - held0) <= 1
  }

  /** If the reply is a genuine one for a real chunk of this blob, that chunk is
      present. */
  ghost predicate Answers(held: set<nat>, m: Manifest, reply: Reply)
    requires m.Chunks().Ok?
  {
    m.totalLen == |m.root.preimage| ==>
      forall prefix, i: u32 :: i < m.Count() && reply == GenuineReply(prefix, m, i) ==> i in held
  }

  /** Mark a written chunk, count it and report it. */
  method MarkChunk(disk: Disk, state: ResumeState, m: Manifest, index: u32, bytesReceived: u64,
                   stats: TransferStats, sink: ProgressSink, ghost initial: set<nat>)
    returns (bytes: u64)
    requires Steady(disk, state, m) && Ledger(state, stats, sink, m, initial, bytesReceived)
    requires index < m.Count() && index !in state.Snapshot().Held()
    requires Holds(disk.view, m, index)
    modifies state, stats, sink
    ensures Steady(disk, state, m) && Ledger(state, stats, sink, m, initial, bytes)
    ensures state.Snapshot().Held() == old(state.Snapshot().Held()) + {index as nat}
    ensures |AtRisk(disk, state, m)| == old(|AtRisk(disk, state, m)|) + 1
    ensures stats.chunksResumed == old(stats.chunksResumed)
    ensures stats.queries == old(stats.queries) && stats.gains == old(stats.gains)
    ensures stats.retries == old(stats.retries) && stats.rejected == old(stats.rejected)
  {
    ghost var held := state.Snapshot().Held();
    HoldAnother(disk.State(), held, m, index);
    HeldBelowCount(state, m);
    var received := MarkNew(state, m, index);
    bytes := CountChunk(m.Geometry(), index, received, bytesReceived, stats, sink, held, initial);
  }

  method CountChunk(c: TransferChunks, index: u32, received: u32, bytesReceived: u64,
                    stats: TransferStats, sink: ProgressSink, ghost held: set<nat>, ghost initial: set<nat>)
    returns (bytes: u64)
    requires c.Valid() && index < c.Count() && held <= Below(c.Count())
    requires index !in held && received == |held + {index as nat}|
    requires Books(held, stats.chunksResumed + stats.chunksFetched, sink.events, c, initial, bytesReceived)
    modifies stats, sink
    ensures Books(held + {index as nat}, stats.chunksResumed + stats.chunksFetched, sink.events, c, initial, bytes)
    ensures stats.chunksResumed == old(stats.chunksResumed)
    ensures stats.queries == old(stats.queries) && stats.gains == old(stats.gains)
    ensures stats.retries == old(stats.retries) && stats.rejected == old(stats.rejected)
  {
    BookChunk(held, stats.chunksResumed + stats.chunksFetched, sink.events, c, initial, bytesReceived, index);
    bytes := bytesReceived + c.LenOf(index);
    stats.chunksFetched := stats.chunksFetched + 1;
    stats.bytesFetched := stats.bytesFetched + c.LenOf(index);
    sink.Emit(Chunk(index, received, c.Count(), bytes));
  }

  lemma HeldBelowCount(state: ResumeState, m: Manifest)
    requires Fits(state.Snapshot(), m)
    ensures state.Snapshot().Held() <= Below(m.Count())
    ensures |state.Snapshot().Held()| <= m.Count()
  {
    HeldInRange(state.Snapshot());
    FitsCount(state.Snapshot(), m);
  }

  /** Mark a chunk known to be new, and read the received count back. */
  method MarkNew(state: ResumeState, m: Manifest, index: u32) returns (received: u32)
    requires Fits(state.Snapshot(), m)
    requires index < m.Count() && index !in state.Snapshot().Held()
    modifies state
    ensures Fits(state.Snapshot(), m)
    ensures state.Snapshot().Held() == old(state.Snapshot().Held()) + {index as nat}
    ensures received == |state.Snapshot().Held()|
  {
    MarkedHeld(state.Snapshot(), m, index);
    var newly := state.Mark(index);
    MatchingCountsExactly(state.Snapshot(), m);
    received := state.Snapshot().Received();
  }

  // ----- one query -----

  /** How many chunks one query may ask for: the client's cap, clamped to the
      server's advertised one, and never zero. */
  function Budget(cfg: ClientConfig, m: Manifest): (n: u32)
    ensures n > 0
  {
    var cap := match m.maxChunksPerQuery
      case Some(served) => Min(cfg.maxChunksPerQuery, served)
      case None => cfg.maxChunksPerQuery;
    if cap < 1 then 1 else cap
  }

  function SliceSelector(prefix: string, id: string, ranges: seq<Span>): string {
    prefix + "/" + id + "/**?" + Selector.RANGES_KEY + Selector.Printed(ranges)
  }

  /** What a server sees after the question mark. */
  function ParamsOf(selector: string): Option<string> {
    match SplitOnce(selector, '?')
    case None => None
    case Some(cut) => Some(cut.1)
  }

  lemma {:induction false} SelectorParams(prefix: string, id: string, ranges: seq<Span>)
    requires '?' !in prefix && '?' !in id
    ensures ParamsOf(SliceSelector(prefix, id, ranges)) == Some(Selector.RANGES_KEY + Selector.Printed(ranges))
  {
    var head, params := prefix + "/" + id + "/**", Selector.RANGES_KEY + Selector.Printed(ranges);
    SplitOnceAt(head, '?', params);
    assert "/**?" == "/**" + ['?'];
    assert SliceSelector(prefix, id, ranges) == head + ['?'] + params;
  }

  /** A network on which someone serves this blob: whoever parses the selector with
      a cap of at least the budget answers every selected chunk genuinely, among
      whatever else arrives. */
  ghost predicate Served(net: Network, cfg: ClientConfig, m: Manifest, cap: u32)
    requires m.Chunks().Ok?
  {
    && Budget(cfg, m) <= cap
    && '?' !in cfg.prefix && '?' !in m.id
    && m.totalLen == |m.root.preimage|
    && forall n, selector :: Serves(net(n, selector), selector, cfg, m, cap)
  }

  ghost predicate Serves(result: QueryResult, selector: string, cfg: ClientConfig, m: Manifest, cap: u32)
    requires m.Chunks().Ok?
  {
    var count := m.Count();
    ParamsOf(selector).Some? && Selector.Selection(ParamsOf(selector).value, count, cap).Some? ==>
      && result.Answered?
      && forall i: u32 :: Covers(Selector.Selection(ParamsOf(selector).value, count, cap).value, i) ==>
           GenuineReply(cfg.prefix, m, i) in result.replies
  }

  /** The batch for the present holes. */
  method NextBatch(state: ResumeState, m: Manifest, cfg: ClientConfig) returns (batch: seq<Span>)
    requires Fits(state.Snapshot(), m) && MissingNow(state, m.Count()) != {}
    ensures Selector.Usable(batch, MissingNow(state, m.Count()), Budget(cfg, m), m.Count())
  {
    var count := m.Count();
    var holes := state.MissingRanges(count);
    batch := CutBatch(holes, Budget(cfg, m));
    Selector.BatchReachesServer(holes, MissingNow(state, count), Budget(cfg, m), count);
  }

  /** One query and everything that comes back for it. */
  method QueryRound(disk: Disk, state: ResumeState, m: Manifest, cfg: ClientConfig, net: Network, cancel: Cancel,
                    unsaved: nat, bytesReceived: u64, stats: TransferStats, sink: ProgressSink,
                    ghost initial: set<nat>, ghost cap: u32)
    returns (failed: Option<DownloadError>, unsaved': nat, bytes: u64)
    requires Steady(disk, state, m) && Ledger(state, stats, sink, m, initial, bytesReceived)
    requires Lagging(disk, state, m, unsaved)
    requires MissingNow(state, m.Count()) != {}
    modifies disk, state, stats, sink
    ensures Steady(disk, state, m) && Ledger(state, stats, sink, m, initial, bytes)
    ensures old(state.Snapshot().Held()) <= state.Snapshot().Held()
    ensures stats.queries == old(stats.queries) + 1 && stats.chunksResumed == old(stats.chunksResumed)
    ensures stats.gains == old(stats.gains)
    ensures stats.retries == old(stats.retries)
    ensures Onward(old(disk.Now()), disk.Now(), m)
    ensures if failed.None? then Lagging(disk, state, m, unsaved') else |AtRisk(disk, state, m)| <= SAVE_AFTER
    ensures failed.Some? ==> Interrupted(failed.value, disk, state, m, cancel, old(disk.faults))
    ensures Served(net, cfg, m, cap) ==>
              failed != Some(Query) && (failed.None? ==> old(state.Snapshot().Held()) != state.Snapshot().Held())
  {
    hide Steady, Ledger, Served, AllAnswered;
    unsaved', bytes := unsaved, bytesReceived;
    SteadyFits(disk, state, m);
    var batch := NextBatch(state, m, cfg);
    ghost var before, n := state.Snapshot().Held(), stats.queries;
    var result := net(stats.queries, SliceSelector(cfg.prefix, m.id, batch));
    stats.queries := stats.queries + 1;
    if result.Unsent? {
      failed := Some(Query);
      if Served(net, cfg, m, cap) {
        ServedBatch(net, n, cfg, m, cap, batch, MissingNow(state, m.Count()));
      }
      return;
    }
    failed, unsaved', bytes := Drain(disk, state, m, result.replies, cancel, unsaved', bytes, stats, sink, initial);
    if Served(net, cfg, m, cap) && failed.None? {
      FirstIsAnswered(state.Snapshot().Held(), before, net, n, cfg, m, cap, batch);
    }
  }

  /** Take the replies of one query in whatever order they come; cancellation can
      interrupt at any of them. */
  method Drain(disk: Disk, state: ResumeState, m: Manifest, replies: seq<Reply>, cancel: Cancel,
               unsaved: nat, bytesReceived: u64, stats: TransferStats, sink: ProgressSink, ghost initial: set<nat>)
    returns (failed: Option<DownloadError>, unsaved': nat, bytes: u64)
    requires Steady(disk, state, m) && Ledger(state, stats, sink, m, initial, bytesReceived)
    requires Lagging(disk, state, m, unsaved)
    modifies disk, state, stats, sink
    ensures Steady(disk, state, m) && Ledger(state, stats, sink, m, initial, bytes)
    ensures old(state.Snapshot().Held()) <= state.Snapshot().Held()
    ensures stats.chunksResumed == old(stats.chunksResumed)
    ensures stats.queries == old(stats.queries) && stats.gains == old(stats.gains)
    ensures stats.retries == old(stats.retries)
    ensures Onward(old(disk.Now()), disk.Now(), m)
    ensures if failed.None? then Lagging(disk, state, m, unsaved') else |AtRisk(disk, state, m)| <= SAVE_AFTER
    // Rejected and accepted replies together are no more than came.
    ensures stats.rejected + |state.Snapshot().Held()| <= old(stats.rejected + |state.Snapshot().Held()|) + |replies|
    ensures failed.Some? ==> failed.value != Query && Interrupted(failed.value, disk, state, m, cancel, old(disk.faults))
    ensures failed.None? ==> AllAnswered(state.Snapshot().Held(), m, replies)
  {
    hide Steady, Ledger, Onward, AtRisk, Answers;
    failed, unsaved', bytes := None, unsaved, bytesReceived;
    SteadyFits(disk, state, m);
    OnwardFrom(disk.Now(), m);
    ghost var start := disk.Now();
    for j := 0 to |replies|
      invariant Steady(disk, state, m) && Ledger(state, stats, sink, m, initial, bytes)
      invariant old(state.Snapshot().Held()) <= state.Snapshot().Held()
      invariant stats.chunksResumed == old(stats.chunksResumed)
      invariant stats.queries == old(stats.queries) && stats.gains == old(stats.gains)
      invariant stats.retries == old(stats.retries)
      invariant Onward(old(disk.Now()), disk.Now(), m)
      invariant Lagging(disk, state, m, unsaved')
      invariant stats.rejected + |state.Snapshot().Held()| <= old(stats.rejected + |state.Snapshot().Held()|) + j
      invariant AllAnswered(state.Snapshot().Held(), m, replies[..j])
    {
      var fired: bool := *;
      if cancel.Possible? && fired {
        ghost var risked, before := AtRisk(disk, state, m), disk.Now();
        var e := PersistCancel(disk, state, m, stats, sink, initial, bytes);
        OnwardOn(start, before, disk.Now(), m);
        SubsetCard(AtRisk(disk, state, m), risked);
        return Some(e), unsaved', bytes;
      }
      ghost var held, before := state.Snapshot().Held(), disk.Now();
      var ok;
      ok, unsaved', bytes := TakeReply(disk, state, m, replies[j], unsaved', bytes, stats, sink, initial);
      OnwardOn(start, before, disk.Now(), m);
      if !ok {
        return Some(Io), unsaved', bytes;
      }
      AnswersGrow(held, state.Snapshot().Held(), m, replies, j);
    }
    assert replies[..|replies|] == replies;
  }

  /** How a round can end early: with the true position saved when somebody may
      cancel, on an I/O error when a step failed, or on a query nobody took. None of
      them leaves anything unsafe. */
  ghost predicate Interrupted(e: DownloadError, disk: Disk, state: ResumeState, m: Manifest, cancel: Cancel, faults0: nat)
    requires m.Chunks().Ok?
    reads disk, state
  {
    (e == Io && disk.faults > faults0) || e == Query ||
    (e.Cancelled? && cancel.Possible? && Positioned(e, state, m) && disk.sidecar == Some(state.Snapshot()))
  }

  lemma ServedBatch(net: Network, n: nat, cfg: ClientConfig, m: Manifest, cap: u32, batch: seq<Span>,
                    missing: set<nat>)
    requires m.Chunks().Ok? && Served(net, cfg, m, cap)
    requires Selector.Usable(batch, missing, Budget(cfg, m), m.Count())
    ensures net(n, SliceSelector(cfg.prefix, m.id, batch)).Answered?
    ensures forall i: u32 :: Covers(batch, i) ==>
              GenuineReply(cfg.prefix, m, i) in net(n, SliceSelector(cfg.prefix, m.id, batch)).replies
  {
    var selector := SliceSelector(cfg.prefix, m.id, batch);
    SelectorParams(cfg.prefix, m.id, batch);
    assert Serves(net(n, selector), selector, cfg, m, cap);
  }

  ghost predicate AllAnswered(held: set<nat>, m: Manifest, replies: seq<Reply>)
    requires m.Chunks().Ok?
  {
    forall k :: 0 <= k < |replies| ==> Answers(held, m, replies[k])
  }

  lemma AnswersGrow(held: set<nat>, now: set<nat>, m: Manifest, replies: seq<Reply>, j: nat)
    requires m.Chunks().Ok? && held <= now && j < |replies|
    requires AllAnswered(held, m, replies[..j]) && Answers(now, m, replies[j])
    ensures AllAnswered(now, m, replies[..j + 1])
  {
    forall k | 0 <= k < j
      ensures Answers(now, m, replies[k])
    {
      assert Answers(held, m, replies[..j][k]);
    }
  }

  /** A served query whose replies were all taken brought something new. */
  lemma FirstIsAnswered(held: set<nat>, before: set<nat>, net: Network, n: nat, cfg: ClientConfig,
                        m: Manifest, cap: u32, batch: seq<Span>)
    requires m.Chunks().Ok? && Served(net, cfg, m, cap)
    requires Selector.Usable(batch, Missing(before, m.Count()), Budget(cfg, m), m.Count())
    requires net(n, SliceSelector(cfg.prefix, m.id, batch)).Answered? ==>
               AllAnswered(held, m, net(n, SliceSelector(cfg.prefix, m.id, batch)).replies)
    ensures held != before
  {
    ServedBatch(net, n, cfg, m, cap, batch, Missing(before, m.Count()));
    var replies := net(n, SliceSelector(cfg.prefix, m.id, batch)).replies;
    var i := batch[0].start;
    assert Covers(batch, i);
    var k :| 0 <= k < |replies| && replies[k] == GenuineReply(cfg.prefix, m, i);
    assert Answers(held, m, replies[k]);
    assert i in Missing(before, m.Count());
  }

  // ----- the loop -----

  /** Consecutive fruitless queries tolerated; a configured zero still makes one. */
  function Attempts(cfg: ClientConfig): nat {
    if cfg.maxAttempts < 1 then 1 else cfg.maxAttempts
  }

  /** How many of the last queries in a row, since the first `from`, gained
      nothing. */
  ghost function Fruitless(gains: seq<nat>, from: nat): nat {
    if |gains| <= from || gains[|gains| - 1] != 0 then 0 else 1 + Fruitless(gains[..|gains| - 1], from)
  }

  /** That many zeros end the list, and no more. */
  lemma {:induction false} FruitlessExactly(gains: seq<nat>, from: nat, n: nat)
    requires from <= |gains|
    ensures Fruitless(gains, from) == n <==>
              && from + n <= |gains|
              && (forall k :: |gains| - n <= k < |gains| ==> gains[k] == 0)
              && (from + n == |gains| || gains[|gains| - n - 1] != 0)
  {
    if |gains| > from && gains[|gains| - 1] == 0 && n > 0 {
      FruitlessExactly(gains[..|gains| - 1], from, n - 1);
    }
  }

  lemma {:induction false} FruitlessSnoc(gains: seq<nat>, from: nat, gained: nat)
    requires from <= |gains|
    ensures Fruitless(gains + [gained], from) == if gained == 0 then Fruitless(gains, from) + 1 else 0
  {
    assert (gains + [gained])[..|gains|] == gains;
  }

  /** The chunks gained by all the queries together. */
  ghost function SumOf(gains: seq<nat>): nat {
    if gains == [] then 0 else SumOf(gains[..|gains| - 1]) + gains[|gains| - 1]
  }

  /** The queries that gained nothing. */
  ghost function Zeros(gains: seq<nat>): nat {
    if gains == [] then 0 else Zeros(gains[..|gains| - 1]) + if gains[|gains| - 1] == 0 then 1 else 0
  }

  lemma {:induction false} ZerosSnoc(gains: seq<nat>, gained: nat)
    ensures Zeros(gains + [gained]) == Zeros(gains) + if gained == 0 then 1 else 0
  {
    assert (gains + [gained])[..|gains|] == gains;
  }

  lemma {:induction false} SumSnoc(gains: seq<nat>, gained: nat)
    ensures SumOf(gains + [gained]) == SumOf(gains) + gained
  {
    assert (gains + [gained])[..|gains|] == gains;
  }

  /** Every chunk is present and the file is the blob. */
  ghost predicate Finished(disk: Disk, state: ResumeState, m: Manifest)
    requires m.Chunks().Ok?
    reads disk, state
  {
    && state.Snapshot().Held() == Below(m.Count())
    && disk.view == m.root.preimage
    && disk.sidecar == Some(state.Snapshot())
  }

  method IsFinished(state: ResumeState, m: Manifest) returns (done: bool)
    requires Fits(state.Snapshot(), m)
    ensures done <==> MissingCount(state, m) == 0
    ensures done <==> state.Snapshot().Held() == Below(m.Count())
  {
    MatchingCountsExactly(state.Snapshot(), m);
    HeldBelowCount(state, m);
    done := state.Snapshot().IsComplete(m.Count());
  }

  /** The byte counter's start: the lengths of the chunks already present. */
  method SumHeld(state: ResumeState, m: Manifest) returns (bytes: u64)
    requires Fits(state.Snapshot(), m)
    ensures bytes == BytesIn(m.Geometry(), state.Snapshot().Held(), m.Count())
  {
    var c := m.Geometry();
    bytes := 0;
    for i := 0 to c.Count()
      invariant bytes == BytesIn(c, state.Snapshot().Held(), i)
    {
      HeldMembership(state.Snapshot(), i);
      BytesInBound(c, state.Snapshot().Held(), i + 1);
      if state.Snapshot().IsSet(i) {
        bytes := bytes + c.LenOf(i);
      }
    }
  }

  /** The books as the loop starts them: everything present was there before. */
  ghost predicate OpeningBooks(state: ResumeState, stats: TransferStats, sink: ProgressSink, m: Manifest,
                    initial: set<nat>)
    requires m.Chunks().Ok?
    reads state, stats, sink
  {
    && |state.Snapshot().Held()| == stats.chunksResumed + stats.chunksFetched
    && HeldAfter(initial, sink.events) == state.Snapshot().Held()
    && Faithful(initial, sink.events, m.Geometry())
  }

  lemma BooksOpen(state: ResumeState, stats: TransferStats, sink: ProgressSink, m: Manifest,
                  initial: set<nat>)
    requires m.Chunks().Ok? && OpeningBooks(state, stats, sink, m, initial)
    ensures Ledger(state, stats, sink, m, initial, BytesNow(state, m))
  {
  }

  lemma BooksBytes(state: ResumeState, stats: TransferStats, sink: ProgressSink, m: Manifest,
                   initial: set<nat>, bytes: nat)
    requires m.Chunks().Ok? && Ledger(state, stats, sink, m, initial, bytes)
    ensures bytes == BytesNow(state, m)
  {
  }

  /** Queries paid for by the chunks gained: one round of attempts each. */
  ghost function Paid(gained: nat, attempts: nat): nat {
    if gained == 0 then 0 else Paid(gained - 1, attempts) + attempts
  }

  lemma {:induction false} PaidIsProduct(gained: nat, attempts: nat)
    ensures Paid(gained, attempts) == gained * attempts
  {
    if gained > 0 {
      PaidIsProduct(gained - 1, attempts);
      MulMonotone(gained, gained, attempts);
    }
  }

  lemma {:induction false} PaidGrows(a: nat, b: nat, attempts: nat)
    requires a < b
    ensures Paid(a, attempts) + attempts <= Paid(b, attempts)
  {
    if a + 1 < b {
      PaidGrows(a, b - 1, attempts);
    }
  }

  /** What the record of a call says: the queries after `gains0` together gained the
      chunks no longer missing, there were at most one round of attempts for each
      chunk, and the fruitless ones that end the list do not exceed the attempts. */
  ghost predicate Account(gains0: seq<nat>, gains: seq<nat>, missing0: nat, missing: nat, attempts: nat) {
    && gains0 <= gains
    && SumOf(gains) - SumOf(gains0) == missing0 - missing
    && |gains| - |gains0| <= missing0 * attempts
    && Fruitless(gains, |gains0|) <= attempts
  }

  /** The same while the loop goes on: the rounds so far are paid for by gained
      chunks, save the last ones, which gained nothing. */
  ghost predicate Going(gains0: seq<nat>, gains: seq<nat>, missing0: nat, missing: nat, attempts: nat, noProgress: nat) {
    && Account(gains0, gains, missing0, missing, attempts)
    && missing <= missing0
    && |gains| - |gains0| <= Paid(missing0 - missing, attempts) + noProgress
    && Fruitless(gains, |gains0|) == noProgress < attempts
  }

  lemma GoingStarts(gains: seq<nat>, missing: nat, attempts: nat)
    requires attempts > 0
    ensures Going(gains, gains, missing, missing, attempts, 0)
    ensures Account(gains, gains, missing, missing, attempts)
  {
  }

  /** Another round is affordable while anything is missing, and its outcome keeps
      the accounts, unless it was the last fruitless one. */
  lemma {:induction false} RoundAccounted(gains0: seq<nat>, gains: seq<nat>, missing0: nat, missing: nat, now: nat,
                                          attempts: nat, noProgress: nat)
    requires 0 < missing && now <= missing && Going(gains0, gains, missing0, missing, attempts, noProgress)
    ensures Account(gains0, gains + [missing - now], missing0, now, attempts)
    ensures now < missing ==> Going(gains0, gains + [missing - now], missing0, now, attempts, 0)
    ensures now == missing ==> Fruitless(gains + [missing - now], |gains0|) == noProgress + 1
    ensures now == missing && noProgress + 1 < attempts ==>
              Going(gains0, gains + [missing - now], missing0, now, attempts, noProgress + 1)
  {
    FruitlessSnoc(gains, |gains0|, missing - now);
    SumSnoc(gains, missing - now);
    PaidIsProduct(missing0, attempts);
    PaidGrows(missing0 - missing, missing0, attempts);
    if now < missing {
      PaidGrows(missing0 - missing, missing0 - now, attempts);
    }
  }

  /** Query the holes until there are none or the attempts run out. */
  method FillHoles(disk: Disk, state: ResumeState, m: Manifest, cfg: ClientConfig, net: Network, cancel: Cancel,
                   stats: TransferStats, sink: ProgressSink, ghost initial: set<nat>, ghost cap: u32)
    returns (r: Result<u64, DownloadError>)
    requires Steady(disk, state, m) && OpeningBooks(state, stats, sink, m, initial)
    requires m.totalLen == 0 ==> m.root == Hash([])
    requires AtRisk(disk, state, m) == {}
    modifies disk, state, stats, sink
    ensures Steady(disk, state, m)
    ensures Onward(old(disk.Now()), disk.Now(), m)
    // A crash at the end costs no more than one save's worth of chunks.
    ensures |AtRisk(disk, state, m)| <= SAVE_AFTER
    ensures Ledger(state, stats, sink, m, initial, BytesNow(state, m))
    ensures stats.chunksResumed == old(stats.chunksResumed)
    // Right bytes, whatever arrived.
    ensures r.Ok? ==> Finished(disk, state, m) && r.value == m.totalLen == BytesNow(state, m)
    // Every query is on record, and a real bound on them.
    ensures stats.queries - old(stats.queries) == |stats.gains| - |old(stats.gains)|
    ensures Account(old(stats.gains), stats.gains, old(MissingCount(state, m)), MissingCount(state, m), Attempts(cfg))
    ensures r.Ok? || r.error.Incomplete? ==> Retried(stats, old(stats.retries), old(stats.gains))
    // Giving up takes exactly that many fruitless queries in a row, and saves the
    // position.
    ensures r.Err? && r.error.Incomplete? ==>
              && Fruitless(stats.gains, |old(stats.gains)|) == Attempts(cfg)
              && Positioned(r.error, state, m)
              && disk.sidecar == Some(state.Snapshot())
    ensures r.Err? && !r.error.Incomplete? ==> Interrupted(r.error, disk, state, m, cancel, old(disk.faults))
    // A blob somebody serves is never given up on: without a failing step or a cancel
    // it arrives.
    ensures Served(net, cfg, m, cap) ==> r.Ok? || r.error == Io || r.error.Cancelled?
    ensures Served(net, cfg, m, cap) && cancel.Never? && disk.faults == old(disk.faults) ==> r.Ok?
  {
    hide Steady, Ledger, Served, MissingCount, Fruitless, Account, Going, Onward, AtRisk, OpeningBooks, Positioned, Fits,
      Finished, Sidecar.Held, Zeros;
    OnwardFrom(disk.Now(), m);
    ghost var start := disk.Now();
    SteadyFits(disk, state, m);
    ghost var gains0, missing0 := stats.gains, MissingCount(state, m);
    GoingStarts(gains0, missing0, Attempts(cfg));
    var bytes := SumHeld(state, m);
    BooksOpen(state, stats, sink, m, initial);
    var noProgress: nat, unsaved: nat := 0, 0;
    var done := IsFinished(state, m);
    while !done
      invariant Steady(disk, state, m) && Ledger(state, stats, sink, m, initial, bytes)
      invariant done <==> MissingCount(state, m) == 0
      invariant stats.chunksResumed == old(stats.chunksResumed)
      invariant Onward(old(disk.Now()), disk.Now(), m)
      invariant Lagging(disk, state, m, unsaved)
      invariant stats.queries - old(stats.queries) == |stats.gains| - |gains0|
      invariant Account(gains0, stats.gains, missing0, MissingCount(state, m), Attempts(cfg))
      invariant noProgress < Attempts(cfg)
      invariant Retried(stats, old(stats.retries), gains0)
      invariant done || Going(gains0, stats.gains, missing0, MissingCount(state, m), Attempts(cfg), noProgress)
      invariant Served(net, cfg, m, cap) ==> noProgress == 0
      decreases MissingCount(state, m), Attempts(cfg) - noProgress
    {
      var failed;
      ghost var before := disk.Now();
      failed, done, noProgress, unsaved, bytes :=
        Pass(disk, state, m, cfg, net, cancel, noProgress, unsaved, bytes, stats, sink, initial, cap, missing0, gains0);
      OnwardOn(start, before, disk.Now(), m);
      if failed.Some? {
        BooksBytes(state, stats, sink, m, initial, bytes);
        return Err(failed.value);
      }
    }
    BooksBytes(state, stats, sink, m, initial, bytes);
    ghost var risked, before := AtRisk(disk, state, m), disk.Now();
    r := Conclude(disk, state, m, bytes);
    OnwardOn(start, before, disk.Now(), m);
    SubsetCard(AtRisk(disk, state, m), risked);
  }

  /** The loop body: one attempt, and the bookkeeping of fruitless ones. */
  method Pass(disk: Disk, state: ResumeState, m: Manifest, cfg: ClientConfig, net: Network, cancel: Cancel,
              noProgress: nat, unsaved: nat, bytesReceived: u64, stats: TransferStats, sink: ProgressSink,
              ghost initial: set<nat>, ghost cap: u32, ghost missing0: nat, ghost gains0: seq<nat>)
    returns (failed: Option<DownloadError>, done: bool, noProgress': nat, unsaved': nat, bytes: u64)
    requires Steady(disk, state, m) && Ledger(state, stats, sink, m, initial, bytesReceived)
    requires Lagging(disk, state, m, unsaved)
    requires MissingCount(state, m) > 0
    requires Going(gains0, stats.gains, missing0, MissingCount(state, m), Attempts(cfg), noProgress)
    requires Served(net, cfg, m, cap) ==> noProgress == 0
    modifies disk, state, stats, sink
    ensures Steady(disk, state, m) && Ledger(state, stats, sink, m, initial, bytes)
    ensures stats.chunksResumed == old(stats.chunksResumed)
    ensures Onward(old(disk.Now()), disk.Now(), m)
    ensures if failed.None? then Lagging(disk, state, m, unsaved') else |AtRisk(disk, state, m)| <= SAVE_AFTER
    ensures stats.queries - old(stats.queries) == |stats.gains| - |old(stats.gains)|
    ensures Account(gains0, stats.gains, missing0, MissingCount(state, m), Attempts(cfg))
    ensures failed.None? || failed.value.Incomplete? ==> Retried(stats, old(stats.retries), old(stats.gains))
    ensures failed.None? ==>
              && (done <==> MissingCount(state, m) == 0)
              && noProgress' < Attempts(cfg)
              && (done || Going(gains0, stats.gains, missing0, MissingCount(state, m), Attempts(cfg), noProgress'))
              && (MissingCount(state, m) < old(MissingCount(state, m)) ||
                  (MissingCount(state, m) == old(MissingCount(state, m)) && noProgress' > noProgress))
              && (Served(net, cfg, m, cap) ==> noProgress' == 0)
    ensures failed.Some? && failed.value.Incomplete? ==>
              && Fruitless(stats.gains, |gains0|) == Attempts(cfg)
              && Positioned(failed.value, state, m)
              && disk.sidecar == Some(state.Snapshot())
    ensures failed.Some? && !failed.value.Incomplete? ==> Interrupted(failed.value, disk, state, m, cancel, old(disk.faults))
    ensures Served(net, cfg, m, cap) && failed.Some? ==> failed.value == Io || failed.value.Cancelled?
  {
    hide Steady, Ledger, Served, MissingCount, Fruitless, Account, Onward, AtRisk, Positioned, Zeros;
    ghost var start := disk.Now();
    done, noProgress' := false, noProgress;
    SteadyFits(disk, state, m);
    ghost var missing := MissingCount(state, m);
    var gained;
    failed, gained, unsaved', bytes :=
      Attempt(disk, state, m, cfg, net, cancel, unsaved, bytesReceived, stats, sink, initial, cap);
    RoundAccounted(gains0, old(stats.gains), missing0, missing, MissingCount(state, m), Attempts(cfg), noProgress);
    ZerosSnoc(old(stats.gains), missing - MissingCount(state, m));
    if failed.Some? {
      return;
    }
    SteadyFits(disk, state, m);
    done := IsFinished(state, m);
    if !done {
      if gained == 0 {
        noProgress' := noProgress + 1;
        if noProgress' >= cfg.maxAttempts {
          ghost var risked, before := AtRisk(disk, state, m), disk.Now();
          var e := GiveUp(disk, state, m);
          OnwardOn(start, before, disk.Now(), m);
          SubsetCard(AtRisk(disk, state, m), risked);
          failed := Some(e);
        }
      } else {
        noProgress' := 0;
      }
    }
  }

  ghost function MissingCount(state: ResumeState, m: Manifest): nat
    requires m.Chunks().Ok?
    reads state
  {
    |MissingNow(state, m.Count())|
  }

  /** Every fruitless query since `gains0` is counted as a retry. */
  ghost predicate Retried(stats: TransferStats, retries0: nat, gains0: seq<nat>)
    reads stats
  {
    stats.retries + Zeros(gains0) == retries0 + Zeros(stats.gains)
  }

  /** At most one query was made, and it is on record with the chunks it gained. */
  ghost predicate Asked(stats: TransferStats, queries: nat, gains: seq<nat>, missing: nat, now: nat)
    reads stats
  {
    && now <= missing
    && ((stats.queries == queries && stats.gains == gains && now == missing) ||
        (stats.queries == queries + 1 && stats.gains == gains + [missing - now]))
  }

  /** One pass of the loop: a last look at the cancel token, then a query, then how
      many chunks it gained; none is a retry. */
  method Attempt(disk: Disk, state: ResumeState, m: Manifest, cfg: ClientConfig, net: Network, cancel: Cancel,
                 unsaved: nat, bytesReceived: u64, stats: TransferStats, sink: ProgressSink,
                 ghost initial: set<nat>, ghost cap: u32)
    returns (failed: Option<DownloadError>, gained: nat, unsaved': nat, bytes: u64)
    requires Steady(disk, state, m) && Ledger(state, stats, sink, m, initial, bytesReceived)
    requires Lagging(disk, state, m, unsaved)
    requires MissingCount(state, m) > 0
    modifies disk, state, stats, sink
    ensures Steady(disk, state, m) && Ledger(state, stats, sink, m, initial, bytes)
    ensures Asked(stats, old(stats.queries), old(stats.gains), old(MissingCount(state, m)), MissingCount(state, m))
    ensures failed.None? ==> stats.queries == old(stats.queries) + 1
    ensures failed.None? ==> MissingCount(state, m) + gained == old(MissingCount(state, m))
    ensures failed.None? ==> stats.retries == old(stats.retries) + if gained == 0 then 1 else 0
    ensures stats.chunksResumed == old(stats.chunksResumed)
    ensures Onward(old(disk.Now()), disk.Now(), m)
    ensures if failed.None? then Lagging(disk, state, m, unsaved') else |AtRisk(disk, state, m)| <= SAVE_AFTER
    ensures failed.Some? ==> Interrupted(failed.value, disk, state, m, cancel, old(disk.faults))
    ensures Served(net, cfg, m, cap) ==> failed != Some(Query) && (failed.None? ==> gained > 0)
  {
    hide Steady, Ledger, Onward, AtRisk, MissingCount, Served;
    var fired: bool := *;
    ghost var risked := AtRisk(disk, state, m);
    if cancel.Possible? && fired {
      var e := PersistCancel(disk, state, m, stats, sink, initial, bytesReceived);
      SubsetCard(AtRisk(disk, state, m), risked);
      return Some(e), 0, unsaved, bytesReceived;
    }
    failed, gained, unsaved', bytes :=
      Measured(disk, state, m, cfg, net, cancel, unsaved, bytesReceived, stats, sink, initial, cap);
  }

  /** One query round, on record with how many chunks it gained; none is a retry. */
  method Measured(disk: Disk, state: ResumeState, m: Manifest, cfg: ClientConfig, net: Network, cancel: Cancel,
                  unsaved: nat, bytesReceived: u64, stats: TransferStats, sink: ProgressSink,
                  ghost initial: set<nat>, ghost cap: u32)
    returns (failed: Option<DownloadError>, gained: nat, unsaved': nat, bytes: u64)
    requires Steady(disk, state, m) && Ledger(state, stats, sink, m, initial, bytesReceived)
    requires Lagging(disk, state, m, unsaved)
    requires MissingCount(state, m) > 0
    modifies disk, state, stats, sink
    ensures Steady(disk, state, m) && Ledger(state, stats, sink, m, initial, bytes)
    ensures stats.queries == old(stats.queries) + 1
    ensures Asked(stats, old(stats.queries), old(stats.gains), old(MissingCount(state, m)), MissingCount(state, m))
    ensures MissingCount(state, m) + gained == old(MissingCount(state, m))
    ensures failed.None? ==> stats.retries == old(stats.retries) + if gained == 0 then 1 else 0
    ensures stats.chunksResumed == old(stats.chunksResumed)
    ensures Onward(old(disk.Now()), disk.Now(), m)
    ensures if failed.None? then Lagging(disk, state, m, unsaved') else |AtRisk(disk, state, m)| <= SAVE_AFTER
    ensures failed.Some? ==> Interrupted(failed.value, disk, state, m, cancel, old(disk.faults))
    ensures Served(net, cfg, m, cap) ==> failed != Some(Query) && (failed.None? ==> gained > 0)
  {
    hide Steady, Ledger, Served, Interrupted, MissingCount, Asked, Onward, AtRisk, Lagging, Fits, Missing, Sidecar.Held,
      Sidecar.Received;
    SteadyFits(disk, state, m);
    CountMissing(state, m);
    ghost var held, missing := state.Snapshot().Held(), MissingCount(state, m);
    var before := CountHeld(state, m);
    failed, unsaved', bytes :=
      QueryRound(disk, state, m, cfg, net, cancel, unsaved, bytesReceived, stats, sink, initial, cap);
    SteadyFits(disk, state, m);
    CountMissing(state, m);
    SubsetCard(held, state.Snapshot().Held());
    var after := CountHeld(state, m);
    gained := after - before;
    Record(stats, gained, failed.None?, missing, MissingCount(state, m));
  }

  /** Book one query: what it gained, and a retry when that was nothing. */
  method Record(stats: TransferStats, gained: nat, drained: bool, ghost missing: nat, ghost now: nat)
    requires now + gained == missing && stats.queries > 0
    modifies stats`gains, stats`retries
    ensures Asked(stats, old(stats.queries) - 1, old(stats.gains), missing, now)
    ensures stats.retries == old(stats.retries) + if drained && gained == 0 then 1 else 0
  {
    stats.gains := stats.gains + [gained];
    if drained && gained == 0 {
      stats.retries := stats.retries + 1;
    }
  }

  lemma CountMissing(state: ResumeState, m: Manifest)
    requires Fits(state.Snapshot(), m)
    ensures MissingCount(state, m) + |state.Snapshot().Held()| == m.Count()
    ensures MissingCount(state, m) > 0 <==> MissingNow(state, m.Count()) != {}
    ensures state.Snapshot().Held() <= Below(m.Count())
  {
    HeldBelowCount(state, m);
    MissingCard(state.Snapshot().Held(), m.Count());
  }

  ghost function BytesNow(state: ResumeState, m: Manifest): nat
    requires m.Chunks().Ok?
    reads state
  {
    BytesIn(m.Geometry(), state.Snapshot().Held(), m.Count())
  }

  /** Out of attempts: save what there is. */
  method GiveUp(disk: Disk, state: ResumeState, m: Manifest) returns (e: DownloadError)
    requires Steady(disk, state, m)
    modifies disk
    ensures Steady(disk, state, m)
    ensures Onward(old(disk.Now()), disk.Now(), m)
    ensures AtRisk(disk, state, m) <= old(AtRisk(disk, state, m))
    ensures (e == Io && disk.faults > old(disk.faults)) ||
            (e.Incomplete? && Positioned(e, state, m) && disk.sidecar == Some(state.Snapshot()))
  {
    var ok := SaveProgress(disk, state, m);
    var received := CountHeld(state, m);
    e := if ok then Incomplete(received, m.Count()) else Io;
  }

  /** Nothing missing: the file is the blob; save that. */
  method Conclude(disk: Disk, state: ResumeState, m: Manifest, bytes: u64) returns (r: Result<u64, DownloadError>)
    requires Steady(disk, state, m) && bytes == BytesNow(state, m)
    requires MissingCount(state, m) == 0
    requires m.totalLen == 0 ==> m.root == Hash([])
    modifies disk
    ensures Steady(disk, state, m)
    ensures Onward(old(disk.Now()), disk.Now(), m)
    ensures AtRisk(disk, state, m) <= old(AtRisk(disk, state, m))
    ensures r == Ok(bytes) || (r == Err(Io) && disk.faults > old(disk.faults))
    ensures r.Ok? ==> Finished(disk, state, m) && bytes == m.totalLen
  {
    HeldBelowCount(state, m);
    assert state.Snapshot().Held() == Below(m.Count());
    BytesInAll(m.Geometry(), state.Snapshot().Held(), m.Count());
    var ok := SaveProgress(disk, state, m);
    AllHeldIsBlob(disk.State(), state.Snapshot().Held(), m);
    r := if ok then Ok(bytes) else Err(Io);
  }

  method CountHeld(state: ResumeState, m: Manifest) returns (n: u32)
    requires Fits(state.Snapshot(), m)
    ensures n == |state.Snapshot().Held()|
  {
    MatchingCountsExactly(state.Snapshot(), m);
    n := state.Snapshot().Received();
  }

  // ----- one call, and any number of calls with crashes between them -----

  /** Nothing the disk was ever in could mislead a resume of this manifest. */
  ghost predicate EverSafe(disk: Disk, m: Manifest)
    reads disk
  {
    && disk.State().Valid()
    && (m.Chunks().Ok? ==> CrashSafe(disk.State(), m) && AlwaysSafe(disk.trace, m))
  }

  /** Resume what matches, or start over. */
  method OpenPartial(disk: Disk, m: Manifest, stats: TransferStats, sink: ProgressSink)
    returns (state: ResumeState?, ghost initial: set<nat>)
    requires m.Chunks().Ok? && EverSafe(disk, m) && sink.events == []
    requires stats.chunksResumed == stats.chunksFetched == stats.queries == 0 && stats.gains == []
    modifies disk, stats, sink
    ensures EverSafe(disk, m) && stats.queries == 0 && stats.gains == []
    ensures Onward(old(disk.Now()), disk.Now(), m)
    ensures state != null ==>
              && fresh(state) && Steady(disk, state, m) && OpeningBooks(state, stats, sink, m, initial)
              && initial == state.Snapshot().Held() && AtRisk(disk, state, m) == {}
    ensures state == null ==> disk.faults > old(disk.faults)
    ensures state != null ==> initial == Resumable(old(disk.State()), m)
    ensures stats.chunksResumed == |Resumable(old(disk.State()), m)|
  {
    hide AlwaysSafe, Faithful, HeldAfter;
    initial := {};
    if disk.sidecar.Some? && disk.sidecar.value.Matches(m, m.Count()) && disk.present && |disk.view| == m.totalLen {
      state := new ResumeState(disk.sidecar.value);
      ResumeIsSound(disk.State(), m);
      var received := CountHeld(state, m);
      initial := state.Snapshot().Held();
      sink.Emit(Resumed(received, m.Count()));
      stats.chunksResumed := received;
      FirstEvent(initial, sink.events[0], m.Geometry());
      assert sink.events == [sink.events[0]];
    } else {
      state := StartFresh(disk, m);
      if state != null {
        sink.Emit(Started(m.totalLen, m.Count()));
        stats.chunksResumed := 0;
        FirstEvent(initial, sink.events[0], m.Geometry());
        assert sink.events == [sink.events[0]];
      }
    }
  }

  method StartFresh(disk: Disk, m: Manifest) returns (state: ResumeState?)
    requires m.Chunks().Ok? && EverSafe(disk, m) && Resumable(disk.State(), m) == {}
    modifies disk
    ensures EverSafe(disk, m)
    ensures Onward(old(disk.Now()), disk.Now(), m)
    ensures state == null ==> disk.faults > old(disk.faults)
    ensures state != null ==> fresh(state) && Steady(disk, state, m) && state.Snapshot().Held() == {}
  {
    var blank := Sidecar.Fresh(m, m.Count());
    FreshHoldsNothing(m);
    var ok := disk.StartOver(m.totalLen, blank);
    if !ok {
      return null;
    }
    state := new ResumeState(blank);
  }

  /** A whole download to a path, given the manifest that was fetched for it. An
      empty blob carries no slices, so its root is checked up front. */
  method DownloadTo(disk: Disk, m: Manifest, cfg: ClientConfig, net: Network, cancel: Cancel, refuseExisting: bool,
                    intruder: bool, sink: ProgressSink, ghost cap: u32)
    returns (r: Result<(), DownloadError>, stats: TransferStats)
    requires EverSafe(disk, m) && sink.events == []
    modifies disk, sink
    ensures fresh(stats)
    ensures EverSafe(disk, m)
    ensures r.Ok? ==> disk.dest == Some(m.root.preimage)
    // A failure changes nothing under the final name and loses nothing to resume.
    ensures r.Err? ==> Onward(old(disk.Now()), disk.Now(), m)
    ensures old(disk.trace) <= disk.trace && old(disk.faults) <= disk.faults
    ensures r.Ok? ==> m.Chunks().Ok? && stats.chunksResumed + stats.chunksFetched == m.Count()
    // What a matching partial already holds is resumed, not fetched.
    ensures r.Ok? ==> stats.chunksResumed == |Resumable(old(disk.State()), m)|
    ensures m.Chunks().Ok? ==> stats.queries <= m.Count() * Attempts(cfg)
    ensures r.Err? && r.error.Incomplete? ==>
              |stats.gains| == stats.queries && Fruitless(stats.gains, 0) == Attempts(cfg)
    ensures r.Ok? && refuseExisting ==> old(disk.dest) == None
    // What can stop it, and that nothing else does.
    ensures r.Err? ==> Stopper(r.error, m, cancel, refuseExisting && (old(disk.dest).Some? || intruder),
                               disk.faults > old(disk.faults))
    ensures m.Chunks().Ok? && Served(net, cfg, m, cap) && r.Err? ==> !r.error.Query? && !r.error.Incomplete?
    ensures m.Chunks().Ok? && Served(net, cfg, m, cap) ==>
              cancel.Never? && disk.faults == old(disk.faults) &&
              !(refuseExisting && (old(disk.dest).Some? || intruder)) ==>
                r.Ok?
  {
    hide EverSafe, Served, Fruitless, Attempts, Onward, Resumable;
    ghost var start := disk.Now();
    OnwardFrom(start, m);
    stats := new TransferStats();
    if refuseExisting && disk.dest.Some? {
      return Err(DestinationExists), stats;
    }
    if m.totalLen == 0 && m.root != Hash([]) {
      NotServed(net, cfg, m, cap);
      return Err(RootMismatch), stats;
    }
    if m.Chunks().Err? {
      return Err(BadManifest(m.Chunks().error)), stats;
    }
    r := FetchAll(disk, m, cfg, net, cancel, stats, sink, cap);
    OnwardMeans(start, disk.Now(), m);
    if r.Err? {
      return r, stats;
    }
    ghost var fetched := disk.Now();
    r := PublishBlob(disk, m, refuseExisting, intruder, sink);
    if r.Err? {
      OnwardOn(start, fetched, disk.Now(), m);
    }
  }

  /** Move the finished file into place, unless somebody else got there first. */
  method PublishBlob(disk: Disk, m: Manifest, refuseExisting: bool, intruder: bool, sink: ProgressSink)
    returns (r: Result<(), DownloadError>)
    requires EverSafe(disk, m)
    modifies disk, sink
    ensures EverSafe(disk, m)
    ensures r.Ok? ==> disk.dest == Some(old(disk.view))
    ensures r.Err? ==> Onward(old(disk.Now()), disk.Now(), m)
    ensures old(disk.trace) <= disk.trace && old(disk.faults) <= disk.faults
    ensures r.Err? ==>
              || (r.error == Io && disk.faults > old(disk.faults))
              || (r.error == DestinationExists && refuseExisting && intruder)
  {
    var appeared: bool := *;
    if refuseExisting && intruder && appeared {
      return Err(DestinationExists);
    }
    var ok := disk.Publish();
    if !ok {
      return Err(Io);
    }
    sink.Emit(Completed);
    r := Ok(());
  }

  lemma NotServed(net: Network, cfg: ClientConfig, m: Manifest, cap: u32)
    requires m.totalLen == 0 && m.root != Hash([])
    ensures m.Chunks().Ok? ==> !Served(net, cfg, m, cap)
  {
  }

  /** Each error has its cause: `blocked` says the destination existed or somebody else
      may create it, `faulty` that an I/O step failed. */
  ghost predicate Stopper(e: DownloadError, m: Manifest, cancel: Cancel, blocked: bool, faulty: bool) {
    match e
    case Io => faulty
    case Cancelled(_, _) => cancel.Possible?
    case DestinationExists => blocked
    case RootMismatch => m.totalLen == 0 && m.root != Hash([])
    case BadManifest(why) => m.Chunks() == Err(why)
    case _ => true
  }

  /** Open, fill the holes, and make the data durable. */
  method FetchAll(disk: Disk, m: Manifest, cfg: ClientConfig, net: Network, cancel: Cancel, stats: TransferStats,
                  sink: ProgressSink, ghost cap: u32)
    returns (r: Result<(), DownloadError>)
    requires m.Chunks().Ok? && EverSafe(disk, m) && sink.events == []
    requires m.totalLen == 0 ==> m.root == Hash([])
    requires stats.chunksResumed == stats.chunksFetched == stats.queries == 0 && stats.gains == []
    modifies disk, stats, sink
    ensures EverSafe(disk, m)
    ensures Onward(old(disk.Now()), disk.Now(), m)
    ensures r.Ok? ==> disk.view == m.root.preimage && stats.chunksResumed + stats.chunksFetched == m.Count()
    ensures r.Err? && r.error.Incomplete? ==>
              |stats.gains| == stats.queries && Fruitless(stats.gains, 0) == Attempts(cfg)
    ensures stats.chunksResumed == |Resumable(old(disk.State()), m)|
    ensures stats.queries <= m.Count() * Attempts(cfg)
    ensures r.Err? ==> Stopper(r.error, m, cancel, false, disk.faults > old(disk.faults))
    ensures Served(net, cfg, m, cap) && r.Err? ==> r.error == Io || r.error.Cancelled?
  {
    hide Steady, EverSafe, Resumable, Fruitless, OpeningBooks, MissingCount, Account, Onward, Served, Fits,
      Sidecar.Held;
    ghost var start := disk.Now();
    var state, initial := OpenPartial(disk, m, stats, sink);
    if state == null {
      return Err(Io);
    }
    SteadyFits(disk, state, m);
    CountMissing(state, m);
    ghost var missing := MissingCount(state, m);
    ghost var begun := disk.Now();
    r := FillAndSettle(disk, state, m, cfg, net, cancel, stats, sink, initial, cap);
    OnwardOn(start, begun, disk.Now(), m);
    QueriesBounded(stats.gains, missing, MissingCount(state, m), Attempts(cfg), m.Count());
    SteadyIsSafe(disk, state, m);
  }

  method FillAndSettle(disk: Disk, state: ResumeState, m: Manifest, cfg: ClientConfig, net: Network, cancel: Cancel,
                       stats: TransferStats, sink: ProgressSink, ghost initial: set<nat>, ghost cap: u32)
    returns (r: Result<(), DownloadError>)
    requires Steady(disk, state, m) && OpeningBooks(state, stats, sink, m, initial)
    requires m.totalLen == 0 ==> m.root == Hash([])
    requires AtRisk(disk, state, m) == {}
    modifies disk, state, stats, sink
    ensures Steady(disk, state, m)
    ensures Onward(old(disk.Now()), disk.Now(), m)
    ensures stats.chunksResumed == old(stats.chunksResumed)
    ensures r.Ok? ==> disk.view == m.root.preimage && stats.chunksResumed + stats.chunksFetched == m.Count()
    ensures stats.queries - old(stats.queries) == |stats.gains| - |old(stats.gains)|
    ensures Account(old(stats.gains), stats.gains, old(MissingCount(state, m)), MissingCount(state, m), Attempts(cfg))
    ensures r.Err? && r.error.Incomplete? ==> Fruitless(stats.gains, |old(stats.gains)|) == Attempts(cfg)
    ensures r.Err? ==> Stopper(r.error, m, cancel, false, disk.faults > old(disk.faults))
    ensures Served(net, cfg, m, cap) && r.Err? ==> r.error == Io || r.error.Cancelled?
  {
    hide Steady, Served, Fruitless, Ledger, OpeningBooks, MissingCount, Account, Positioned, Onward, AtRisk;
    ghost var start := disk.Now();
    var filled := FillHoles(disk, state, m, cfg, net, cancel, stats, sink, initial, cap);
    ghost var before := disk.Now();
    if filled.Err? {
      return Err(filled.error);
    }
    EverythingCounted(state, stats, sink, m, initial, BytesNow(state, m));
    r := SettleAll(disk, state, m);
    OnwardOn(start, before, disk.Now(), m);
  }

  lemma SteadyIsSafe(disk: Disk, state: ResumeState, m: Manifest)
    requires Steady(disk, state, m)
    ensures EverSafe(disk, m)
  {
  }

  lemma EverythingCounted(state: ResumeState, stats: TransferStats, sink: ProgressSink, m: Manifest,
                          initial: set<nat>, bytes: nat)
    requires m.Chunks().Ok? && Ledger(state, stats, sink, m, initial, bytes)
    requires state.Snapshot().Held() == Below(m.Count())
    ensures stats.chunksResumed + stats.chunksFetched == m.Count()
  {
  }

  method SettleAll(disk: Disk, state: ResumeState, m: Manifest) returns (r: Result<(), DownloadError>)
    requires Steady(disk, state, m)
    modifies disk
    ensures Steady(disk, state, m) && disk.view == old(disk.view)
    ensures Onward(old(disk.Now()), disk.Now(), m)
    ensures r == Ok(()) || (r == Err(Io) && disk.faults > old(disk.faults))
  {
    ghost var before := disk.State();
    var ok := disk.SyncData();
    SyncSettles(before, disk.State(), state.Snapshot().Held(), m, ok);
    r := if ok then Ok(()) else Err(Io);
  }

  lemma QueriesBounded(gains: seq<nat>, missing0: nat, missing: nat, attempts: nat, count: nat)
    requires Account([], gains, missing0, missing, attempts) && missing0 <= count
    ensures |gains| <= count * attempts
  {
    MulMonotone(missing0, count, attempts);
  }

  /** How many of the first `n` networks serve the blob. */
  ghost function ServedCount(nets: seq<Network>, n: nat, cfg: ClientConfig, m: Manifest, cap: u32): nat
    requires n <= |nets| && m.Chunks().Ok?
  {
    if n == 0 then 0 else ServedCount(nets, n - 1, cfg, m, cap) + if Served(nets[n - 1], cfg, m, cap) then 1 else 0
  }

  /** Any number of attempts, each cut short wherever power fails: every state the
      disk passes through is safe to resume from, what could be resumed is never lost,
      and the attempt that finishes leaves exactly the blob under the final name. Each
      served attempt that does not finish takes a failing step of its own, so with
      fewer failures than served attempts one finishes. */
  method DownloadThroughCrashes(disk: Disk, m: Manifest, cfg: ClientConfig, nets: seq<Network>, cancel: Cancel,
                                ghost cap: u32)
    returns (r: Result<(), DownloadError>)
    requires EverSafe(disk, m)
    modifies disk
    ensures EverSafe(disk, m)
    ensures r.Ok? ==> disk.dest == Some(m.root.preimage)
    ensures r.Err? ==> Onward(old(disk.Now()), disk.Now(), m)
    ensures old(disk.trace) <= disk.trace
    ensures m.Chunks().Ok? && cancel.Never? ==>
              disk.faults - old(disk.faults) < ServedCount(nets, |nets|, cfg, m, cap) ==> r.Ok?
  {
    r := Err(Io);
    for n := 0 to |nets|
      invariant EverSafe(disk, m) && r.Err?
      invariant Onward(old(disk.Now()), disk.Now(), m)
      invariant m.Chunks().Ok? && cancel.Never? ==> disk.faults >= old(disk.faults) + ServedCount(nets, n, cfg, m, cap)
    {
      var sink := new ProgressSink();
      var stats;
      r, stats := DownloadTo(disk, m, cfg, nets[n], cancel, false, false, sink, cap);
      if r.Ok? {
        return;
      }
      var crashed: bool := *;
      if crashed {
        ghost var before := disk.State();
        disk.Reboot();
        if m.Chunks().Ok? {
          CrashThenResume(before, disk.State(), m);
        }
      }
    }
  }
}
