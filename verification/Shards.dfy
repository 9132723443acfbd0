/** A large index cut into ordinary chunks and put together again: src/tree.rs, and
    the descriptor of src/wire.rs. */
module IndexShards {
  import opened Basics
  import opened Bits
  import opened Contents
  import opened Snapshots
  import opened ChunkReplies
  import opened FetchBooks
  import opened FetchCounts
  import opened TreeFetch

  const INDEX_SHARD: nat := 64 * 1024

  datatype IndexDescriptor = IndexDescriptor(version: nat, root: Hash, indexChunks: seq<ChunkRef>, indexLen: u64)

  datatype DescriptorError = UnsupportedVersion | NoChunks | TooLarge | WrongTotal

  /** The check made before anything is fetched. The sum is 64-bit. */
  function Validate(d: IndexDescriptor, maxIndexBytes: nat): Result<(), DescriptorError> {
    if d.version != WIRE_VERSION then Err(UnsupportedVersion)
    else if d.indexChunks == [] then Err(NoChunks)
    else if d.indexLen > maxIndexBytes then Err(TooLarge)
    else if SumLens(d.indexChunks) != d.indexLen then Err(WrongTotal)
    else Ok(())
  }

  function SumLens(refs: seq<ChunkRef>): (sum: nat)
    ensures sum == LensOf(refs)
  {
    if refs == [] then 0 else SumLens(refs[..|refs| - 1]) + refs[|refs| - 1].len
  }

  // ----- cutting -----

  /** References to the pieces of `encoded`, in order. */
  ghost predicate Shards(refs: seq<ChunkRef>, encoded: Bytes) {
    && Preimages(refs) == encoded && LensOf(refs) == |encoded|
    && forall k :: 0 <= k < |refs| ==>
      && 0 < refs[k].len == |refs[k].hash.preimage|
      && (refs[k].len == INDEX_SHARD || (k == |refs| - 1 && refs[k].len < INDEX_SHARD))
  }

  /** Cut into fixed pieces, store each, describe the result. */
  method ShardIndex(encoded: Bytes, store: ContentStore, root: Hash) returns (d: Option<IndexDescriptor>)
    requires |encoded| <= U64_MAX
    modifies store
    ensures if d.None? then store.faults > old(store.faults) else store.faults == old(store.faults)
    ensures Grows(old(store.chunks), store.chunks)
    ensures Genuine(old(store.chunks)) ==> Genuine(store.chunks)
    ensures d.Some? ==> d.value.version == WIRE_VERSION && d.value.root == root && d.value.indexLen == |encoded|
    ensures d.Some? ==> Shards(d.value.indexChunks, encoded) && AllStored(d.value.indexChunks, store.chunks)
  {
    var chunks: seq<ChunkRef> := [];
    var at := 0;
    while at < |encoded|
      invariant at <= |encoded| && Shards(chunks, encoded[..at]) && AllStored(chunks, store.chunks)
      invariant at < |encoded| ==> forall k :: 0 <= k < |chunks| ==> chunks[k].len == INDEX_SHARD
      invariant store.faults == old(store.faults)
      invariant Grows(old(store.chunks), store.chunks)
      invariant Genuine(old(store.chunks)) ==> Genuine(store.chunks)
    {
      var end := Min(at + INDEX_SHARD, |encoded|);
      var piece := encoded[at..end];
      var c := ChunkRef(Hash(piece), |piece|);
      PieceCut(chunks, encoded, at, end);
      var here := store.Has(c.hash);
      if !here {
        var put := store.Put(c.hash, piece);
        if !put {
          return None;
        }
      }
      chunks := chunks + [c];
      at := end;
    }
    assert encoded[..|encoded|] == encoded;
    d := Some(IndexDescriptor(WIRE_VERSION, root, chunks, |encoded|));
  }

  lemma PieceCut(chunks: seq<ChunkRef>, encoded: Bytes, at: nat, end: nat)
    requires at < |encoded| && end == Min(at + INDEX_SHARD, |encoded|)
    requires Shards(chunks, encoded[..at]) && forall k :: 0 <= k < |chunks| ==> chunks[k].len == INDEX_SHARD
    ensures Shards(chunks + [ChunkRef(Hash(encoded[at..end]), end - at)], encoded[..end])
  {
    var c := ChunkRef(Hash(encoded[at..end]), end - at);
    PreimagesSnoc(chunks, c);
    LensSnoc(chunks, c);
    assert encoded[..at] + encoded[at..end] == encoded[..end];
  }

  /** A descriptor of a non-empty index passes its own check at exactly the limits
      the index itself fits. */
  lemma ShardsPass(d: IndexDescriptor, encoded: Bytes, maxIndexBytes: nat)
    requires d.version == WIRE_VERSION && d.indexLen == |encoded| && Shards(d.indexChunks, encoded)
    ensures Validate(d, maxIndexBytes).Ok? <==> 0 < |encoded| <= maxIndexBytes
  {
  }

  // ----- assembling -----

  /** What the batch rounds brought, by address. */
  ghost predicate AllGenuine(got: map<Hash, Bytes>) {
    forall h :: h in got ==> Hash(got[h]) == h
  }

  /** What the first `i` batch rounds answer. */
  ghost function Gathered(groups: seq<seq<ChunkRef>>, net: BatchNetwork, i: nat): set<Hash>
    requires i <= |groups|
  {
    if i == 0 then {} else Gathered(groups, net, i - 1) + AnsweredBy(net, i - 1, groups[i - 1])
  }

  /** None of the first `i` batch queries is lost. */
  ghost predicate AllSent(groups: seq<seq<ChunkRef>>, net: BatchNetwork, i: nat)
    requires i <= |groups|
  {
    forall k :: 0 <= k < i ==> RoundSent(groups, net, k)
  }

  ghost predicate RoundSent(groups: seq<seq<ChunkRef>>, net: BatchNetwork, k: nat)
    requires k < |groups|
  {
    net(k, HashesOf(groups[k])).Answered?
  }

  /** Some reply to the single query is the chunk asked for. */
  ghost predicate ServedSingly(result: QueryResult, c: ChunkRef) {
    result.Answered? && exists j :: 0 <= j < |result.replies| && Holds(result.replies[j], c)
  }

  /** A piece is there when its address is used: from the batches at its first use,
      which takes it out, or from a single query. */
  ghost predicate Supplied(refs: seq<ChunkRef>, k: nat, gathered: set<Hash>, net: ChunkNetwork)
    requires k < |refs|
  {
    || (refs[k].hash in gathered && refs[k].hash !in HashSet(refs[..k]))
    || ServedSingly(net(k, refs[k].hash), refs[k])
  }

  ghost predicate AllSupplied(refs: seq<ChunkRef>, n: nat, gathered: set<Hash>, net: ChunkNetwork)
    requires n <= |refs|
  {
    forall k :: 0 <= k < n ==> Supplied(refs, k, gathered, net)
  }

  function GroupSize(batchSize: nat): (size: nat)
    ensures size > 0
  {
    if batchSize == 0 then 1 else batchSize
  }

  /** When assembly succeeds: no batch query is lost and every piece is supplied. */
  ghost predicate Assembles(refs: seq<ChunkRef>, batchSize: nat, batchNet: BatchNetwork, chunkNet: ChunkNetwork) {
    var groups := Groups(refs, GroupSize(batchSize));
    && AllSent(groups, batchNet, |groups|)
    && AllSupplied(refs, |refs|, Gathered(groups, batchNet, |groups|), chunkNet)
  }

  /** Fetch the pieces a descriptor names, in batches and then singly, and join them.
      Whoever made the descriptor, what comes back is what its addresses name. */
  method AssembleShardedIndex(d: IndexDescriptor, maxIndexBytes: nat, batchSize: nat, batchNet: BatchNetwork,
                    chunkNet: ChunkNetwork)
    returns (r: Result<Bytes, FetchError>, valid: bool)
    ensures valid <==> Validate(d, maxIndexBytes).Ok?
    ensures valid && r.Ok? ==> r.value == Preimages(d.indexChunks)
    ensures valid ==> (r.Ok? <==> Assembles(d.indexChunks, batchSize, batchNet, chunkNet))
  {
    hide Supplied, RoundSent;
    r, valid := Err(Query), Validate(d, maxIndexBytes).Ok?;
    if !valid {
      return;
    }
    var refs := d.indexChunks;
    var asked, got := GatherBatches(refs, GroupSize(batchSize), batchNet);
    if !asked {
      return;
    }
    r := Join(refs, got, chunkNet);
  }

  /** Join the pieces in order. */
  method Join(refs: seq<ChunkRef>, got0: map<Hash, Bytes>, net: ChunkNetwork) returns (r: Result<Bytes, FetchError>)
    requires AllGenuine(got0)
    ensures r.Ok? <==> AllSupplied(refs, |refs|, got0.Keys, net)
    ensures r.Ok? ==> r.value == Preimages(refs)
  {
    hide Supplied, HashSet, Preimages, ServedSingly;
    var got, out: Bytes := got0, [];
    NothingUsed(refs);
    for k := 0 to |refs|
      invariant out == Preimages(refs[..k]) && AllGenuine(got)
      invariant got.Keys == got0.Keys - HashSet(refs[..k])
      invariant AllSupplied(refs, k, got0.Keys, net)
    {
      var c := refs[k];
      assert refs[..k + 1] == refs[..k] + [c];
      PreimagesSnoc(refs[..k], c);
      UsedNext(refs, k);
      SuppliedWhen(refs, k, got0.Keys, net);
      ServedWhen(net(k, c.hash), c);
      if c.hash in got {
        out := out + got[c.hash];
        got := got - {c.hash};
      } else {
        var bytes, rejected := FetchOneChunk(net(k, c.hash), c);
        if bytes.None? {
          return Err(NotFound(c.hash));
        }
        out := out + bytes.value;
      }
    }
    assert refs[..|refs|] == refs;
    r := Ok(out);
  }

  lemma ServedWhen(result: QueryResult, c: ChunkRef)
    ensures ServedSingly(result, c) <==>
            result.Answered? && exists j :: 0 <= j < |result.replies| && Holds(result.replies[j], c)
  {
  }

  lemma NothingUsed(refs: seq<ChunkRef>)
    ensures HashSet(refs[..0]) == {} && Preimages(refs[..0]) == []
  {
  }

  lemma UsedNext(refs: seq<ChunkRef>, k: nat)
    requires k < |refs|
    ensures HashSet(refs[..k + 1]) == HashSet(refs[..k]) + {refs[k].hash}
  {
    assert refs[..k + 1][..k] == refs[..k];
  }

  lemma SuppliedWhen(refs: seq<ChunkRef>, k: nat, gathered: set<Hash>, net: ChunkNetwork)
    requires k < |refs|
    ensures Supplied(refs, k, gathered, net) <==>
            refs[k].hash in gathered - HashSet(refs[..k]) || ServedSingly(net(k, refs[k].hash), refs[k])
  {
  }

  // ----- when the batches are enough -----

  /** A network on which nobody holds single chunks. */
  ghost function Silent(): ChunkNetwork {
    (n: nat, h: Hash) => Unsent
  }

  /** Every round answers everything it asks for. */
  ghost predicate FullyAnswered(refs: seq<ChunkRef>, batchSize: nat, net: BatchNetwork) {
    var groups := Groups(refs, GroupSize(batchSize));
    && AllSent(groups, net, |groups|)
    && forall k, c :: 0 <= k < |groups| && c in groups[k] ==> c.hash in AnsweredBy(net, k, groups[k])
  }

  /** Full batches alone put an index together, whatever the single queries bring, if
      and only if no piece repeats: a repeated one is asked for singly. */
  lemma BatchesSuffice(refs: seq<ChunkRef>, batchSize: nat, batchNet: BatchNetwork)
    requires FullyAnswered(refs, batchSize, batchNet)
    ensures (forall chunkNet :: Assembles(refs, batchSize, batchNet, chunkNet)) <==> DistinctHashes(refs)
  {
    var groups := Groups(refs, GroupSize(batchSize));
    var gathered := Gathered(groups, batchNet, |groups|);
    EverythingGathered(refs, GroupSize(batchSize), batchNet);
    if DistinctHashes(refs) {
      forall chunkNet: ChunkNetwork
        ensures Assembles(refs, batchSize, batchNet, chunkNet)
      {
        forall k | 0 <= k < |refs|
          ensures Supplied(refs, k, gathered, chunkNet)
        {
          FirstInDistinct(refs, k);
        }
      }
    } else {
      var j, k :| 0 <= j < k < |refs| && refs[j].hash == refs[k].hash;
      assert refs[..k][j] == refs[j] && refs[j] in refs[..k];
      HashSetIs(refs[..k], refs[k].hash);
      assert !ServedSingly(Silent()(k, refs[k].hash), refs[k]);
      assert !Supplied(refs, k, gathered, Silent());
      assert !Assembles(refs, batchSize, batchNet, Silent());
    }
  }

  lemma FirstInDistinct(refs: seq<ChunkRef>, k: nat)
    requires DistinctHashes(refs) && k < |refs|
    ensures refs[k].hash !in HashSet(refs[..k])
  {
    HashSetIs(refs[..k], refs[k].hash);
  }

  lemma {:induction false} EverythingGathered(refs: seq<ChunkRef>, size: nat, net: BatchNetwork)
    requires size > 0
    requires var groups := Groups(refs, size);
             forall k, c :: 0 <= k < |groups| && c in groups[k] ==> c.hash in AnsweredBy(net, k, groups[k])
    ensures var groups := Groups(refs, size);
            forall c :: c in refs ==> c.hash in Gathered(groups, net, |groups|)
  {
    GroupsFlat(refs, size);
    GatheredUpTo(Groups(refs, size), net, |Groups(refs, size)|);
  }

  lemma {:induction false} GatheredUpTo(groups: seq<seq<ChunkRef>>, net: BatchNetwork, i: nat)
    requires i <= |groups|
    requires forall k, c :: 0 <= k < |groups| && c in groups[k] ==> c.hash in AnsweredBy(net, k, groups[k])
    ensures forall c :: c in Flat(groups, i) ==> c.hash in Gathered(groups, net, i)
  {
    if i > 0 {
      GatheredUpTo(groups, net, i - 1);
    }
  }

  /** One round's good answers; an address already answered keeps its bytes. */
  method GatherRound(group: seq<ChunkRef>, replies: seq<Reply>, got0: map<Hash, Bytes>) returns (got: map<Hash, Bytes>)
    requires AllGenuine(got0)
    ensures AllGenuine(got)
    ensures got.Keys == got0.Keys + Accepted(replies, Expected(group))
    ensures forall h :: h in got0 ==> got[h] == got0[h]
  {
    got := got0;
    for k := 0 to |replies|
      invariant AllGenuine(got)
      invariant got.Keys == got0.Keys + AcceptedBy(replies, k, Expected(group))
      invariant forall h :: h in got0 ==> got[h] == got0[h]
    {
      var accepted := AcceptBatchReply(replies[k], Expected(group));
      if accepted.Some? && accepted.value.0 !in got {
        got := got[accepted.value.0 := accepted.value.1];
      }
    }
  }

  /** The batch rounds: the first good answer for each address is kept, and a lost
      query ends it. */
  method GatherBatches(refs: seq<ChunkRef>, size: nat, net: BatchNetwork) returns (asked: bool, got: map<Hash, Bytes>)
    requires size > 0
    ensures AllGenuine(got)
    ensures asked <==> AllSent(Groups(refs, size), net, |Groups(refs, size)|)
    ensures asked ==> got.Keys == Gathered(Groups(refs, size), net, |Groups(refs, size)|)
  {
    got := map[];
    var groups := Groups(refs, size);
    for n := 0 to |groups|
      invariant AllGenuine(got) && AllSent(groups, net, n)
      invariant got.Keys == Gathered(groups, net, n)
    {
      var result := net(n, HashesOf(groups[n]));
      if result.Unsent? {
        assert !RoundSent(groups, net, n);
        return false, got;
      }
      got := GatherRound(groups[n], result.replies, got);
    }
    asked := true;
  }

  /** A holder of `chunks` answers every single query for one of them. */
  ghost predicate Hosts(net: ChunkNetwork, chunks: Chunks) {
    forall n: nat, h :: h in chunks ==>
      && net(n, h).Answered?
      && exists k :: 0 <= k < |net(n, h).replies| && SentBy(net(n, h).replies[k], h)
  }

  ghost predicate SentBy(reply: Reply, h: Hash) {
    && reply.Sample? && reply.isChunk && reply.content.Some?
    && reply.content.value == h.preimage && reply.frameLen <= |h.preimage| + 1 + 4
  }

  lemma HostsServes(net: ChunkNetwork, chunks: Chunks, refs: seq<ChunkRef>, encoded: Bytes)
    requires Hosts(net, chunks) && AllStored(refs, chunks) && Shards(refs, encoded)
    ensures Serving(net, refs)
  {
    forall n: nat, c | c in refs
      ensures net(n, c.hash).Answered? && exists k :: 0 <= k < |net(n, c.hash).replies| && Holds(net(n, c.hash).replies[k], c)
    {
      var k :| 0 <= k < |net(n, c.hash).replies| && SentBy(net(n, c.hash).replies[k], c.hash);
      FitsU32(|c.hash.preimage|);
      assert Holds(net(n, c.hash).replies[k], c);
    }
  }

  /** The round trip. Whatever mix of batch and single answers comes, repeated pieces
      included, only the index that was cut can come back; and it does exactly when
      the pieces are supplied, as they are when their holder answers. */
  method ShardRoundTrip(encoded: Bytes, root: Hash, store: ContentStore, maxIndexBytes: nat, batchSize: nat,
                        batchNet: BatchNetwork, chunkNet: ChunkNetwork)
    returns (d: Option<IndexDescriptor>, r: Result<Bytes, FetchError>)
    requires 0 < |encoded| <= maxIndexBytes && |encoded| <= U64_MAX
    modifies store
    ensures d.None? ==> r == Err(Io) && store.faults > old(store.faults)
    ensures d.Some? ==> Shards(d.value.indexChunks, encoded)
    ensures d.Some? ==> (r == Ok(encoded) <==> Assembles(d.value.indexChunks, batchSize, batchNet, chunkNet))
    ensures d.Some? && r.Ok? ==> r.value == encoded
    ensures d.Some? && Answering(batchNet) && Hosts(chunkNet, store.chunks) ==> r == Ok(encoded)
  {
    hide Assembles;
    d := ShardIndex(encoded, store, root);
    if d.None? {
      return d, Err(Io);
    }
    ShardsPass(d.value, encoded, maxIndexBytes);
    if Answering(batchNet) && Hosts(chunkNet, store.chunks) {
      HostsServes(chunkNet, store.chunks, d.value.indexChunks, encoded);
      ServingAssembles(d.value.indexChunks, batchSize, batchNet, chunkNet);
    }
    var valid;
    r, valid := AssembleShardedIndex(d.value, maxIndexBytes, batchSize, batchNet, chunkNet);
  }

  lemma ServingAssembles(refs: seq<ChunkRef>, batchSize: nat, batchNet: BatchNetwork,
                         chunkNet: ChunkNetwork)
    requires Answering(batchNet) && Serving(chunkNet, refs)
    ensures Assembles(refs, batchSize, batchNet, chunkNet)
  {
  }
}
