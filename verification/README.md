# A verified model of zblob

zblob moves blobs and directory snapshots over Zenoh. A blob is cut into
fixed-size chunks, each verified against one root hash; a download keeps a bitfield
of the chunks it has and can be resumed after any interruption. A push runs the same
transfer the other way, into a server that registers the blob only after hashing all
of it. A directory tree is cut into content-addressed chunks kept in a shared store,
with tags and garbage collection.

This project models that logic in Dafny and proves what it promises.

| file | models |
|---|---|
| `Basics.dfy`, `Text.dfy` | integer widths, digests, splitting and decimal text |
| `Geometry.dfy` | the chunk geometry (src/chunk.rs) |
| `Bits.dfy`, `Resume.dfy`, `Presence.dfy` | bitfields and sidecars (src/resume.rs, src/wire.rs) |
| `Spans.dfy`, `Selector.dfy`, `Keys.dfy` | range lists, the range selector, key expressions (src/keys.rs, src/client.rs) |
| `Symlinks.dfy` | symlink containment (src/paths.rs) |
| `Slices.dfy`, `Disk.dfy`, `DownloadFacts.dfy`, `Download.dfy` | the resumable download on a disk that can lose power (src/client.rs) |
| `Push.dfy`, `PushHistory.dfy`, `Upload.dfy` | the push protocol: every interleaving, what lies behind each registered blob, and one whole upload (src/server.rs, src/client.rs) |
| `Store.dfy`, `Tree.dfy`, `Build.dfy` | the chunk store, and building a snapshot (src/store.rs, src/tree.rs) |
| `Destination.dfy`, `Materialize.dfy`, `Restore.dfy` | materializing a snapshot into a directory that may hold anything, and the round trip (src/tree.rs, src/paths.rs) |
| `GcRuns.dfy`, `Gc.dfy` | tags, guards and mark-and-sweep under concurrency (src/gc.rs) |
| `ChunkReplies.dfy`, `FetchBooks.dfy`, `FetchCounts.dfy`, `Fetch.dfy`, `Shards.dfy` | fetching missing chunks, and sharded indices (src/tree.rs, src/store_client.rs, src/wire.rs) |

How the outside world appears:

- A digest is a datatype around its preimage, so equal digests have equal preimages.
- The network is any function from the query made to a finite list of replies; nothing
  is assumed about them unless a statement says so (`Served`, `Serving`, `Hosts`).
- Every I/O step may fail, and each failure is counted (`faults`). A write that fails
  may have written any prefix. A crash leaves, byte by byte, any value written since
  the last sync or the last durable one.
- Slice verification is a contract: success hands over exactly the bytes of the asked
  range of the blob with that root; only the final chunk also proves its length. The content-defined chunker is any function that
  cuts data into non-empty pieces that join back to it.
- A race between tasks and the passing of time are nondeterministic choices. So is what
  a look at a cancel token finds, provided somebody may cancel at all (`Cancel`).
- A path is the list of its names. How the system resolves one through links already
  in a directory is any function that leaves a path without links alone (`Resolves`).
- `u32` and `u64` are subset types: an assignment to one proves that the program's
  arithmetic does not wrap there. Where it can wrap, the model computes modulo 2^32.

Boundaries of what the code promises, each stated exactly:

- `ResumeState::received` narrows each byte's base index to 32 bits. It counts every
  bitfield of a given length exactly if and only if that length is at most 2^29 bytes
  (`Bits.ReceivedExactlyWhen`); every matching sidecar is shorter. `count_bits` narrows
  the length itself, and its boundary is `Bits.CountBitsExactlyWhen`.
- A tag set while a sweep is running is not protected by it, as the source says. It is
  safe exactly when every sweep still has to list the tags, has the tag on its list, has
  its chunks marked, or will not visit them (`GcRuns.TagSafeExactly`); an uncovered tag
  does arise (`GcRuns.MissedTagArises`). Setting tags of stored chunks only when no sweep
  would miss them is exactly what keeps all tags safe (`GcRuns.CarefulStep`).
- A push slice is answered with the number of chunks still missing if and only if the
  entry it is marked in has as many chunks as the one it was checked against
  (`PushRuns.LeftExactly`). That holds over every run in which all offers of an id have
  the same number (`PushRuns.SameCountIsExact`); with two numbers the unsigned
  subtraction can underflow (`PushRuns.StaleCountWraps`).
- An index whose pieces were all answered in batches is put together without single
  queries if and only if no piece repeats: a batched piece is dropped at its first use
  (`IndexShards.BatchesSuffice`).
- A snapshot comes back if and only if the directory has room for it
  (`Restored.TreeComesBack`); where folders may be replaced, one goes with everything in
  it (`Restored.FolderGoesWhole`).
- A chunk fetch counts a batched answer once per query. Its counter ends at the total
  for all replies if and only if no `batch_size` group of the missing list repeats an
  address that can be answered (`FetchCounts.CountsExactly`); with lengths declared
  truly, if and only if no group repeats an address (`FetchCounts.CountsExactlyOnTrueRefs`).
  `fetch_file` passes lists with repeats; `download_tree` does not.

## Model

| member | source | states |
|---|---|---|
| Geometry.Adjacent | src/chunk.rs:145-155 | inside the count, chunk i starts at i times the chunk size on a 16 KiB boundary, is non-empty, and ends where the next starts or at the blob's end |
| Geometry.PastTheEnd | src/chunk.rs:145-155 | any u32 index past the count has an empty range at the end, with no u64 overflow on the way |
| Geometry.TilesExactly | src/chunk.rs:109-155 | for every accepted geometry each byte of the blob lies in exactly one chunk, and no byte beyond it in any |
| Geometry.UnitRangesTile | src/verify.rs:55-57 | the 1 KiB ranges handed to the verifier meet exactly and cover exactly their chunk's bytes, so writing one chunk never touches another |
| Geometry.BytesInAll | src/client.rs:1371-1374 | the lengths of all chunks add up to the blob's length |
| Bits.ReceivedExact | src/resume.rs:113-126 | for arbitrary bytes, padding included, the received count is the number of indices for which the bit is set, up to 2^29 bytes |
| Bits.ReceivedExactlyWhen | src/resume.rs:113-126 | the received count is exact for every field of n bytes and every chunk count if and only if n is at most 2^29 |
| Bits.CountBitsExact | src/wire.rs:599-609 | the whole-bytes-then-mask count equals the number of set indices below the limit for arbitrary bytes |
| Bits.CountBitsExactlyWhen | src/wire.rs:599-609 | it does so for every field of n bytes and every limit if and only if the length narrowed to 32 bits still covers every byte a u32 index can name |
| Bits.SetBelowMark | src/resume.rs:102-111 | setting a bit adds that index and no other |
| Resume.MatchingCountsExactly | src/resume.rs:113-130 | on a sidecar that matches an accepted manifest, received counts the set chunks and complete means every chunk is set |
| Resume.MarkedHeld | src/resume.rs:102-111 | marking adds exactly the marked chunk, nothing for an index out of range, and keeps the sidecar matching |
| Resume.FreshHoldsNothing | src/resume.rs:63-73 | a fresh sidecar matches its manifest and claims no chunk |
| Resume.ResumeState.Mark | src/resume.rs:102-111 | the in-place mark: the new bits, and whether the chunk was new |
| Resume.FindHoles | src/resume.rs:134-149 | the scan returns exactly the maximal runs of unset chunks: sorted, disjoint, non-empty, never touching |
| Resume.ResumeState.MissingRanges | src/resume.rs:134-149 | the same of the live state |
| Resume.CoalescedHoles | src/client.rs:2096-2106 | coalescing the ascending list of unset indices gives the scan's runs |
| Presence.FromPresence | src/wire.rs:346-379 | packing answers into bits is undone by reading them, and the field validates for its question |
| Presence.CountIsMembership | src/wire.rs:367-379 | for any received field, forged padding included, the reported number is the number of set entries, wherever the bit count is exact at all |
| Presence.FullHoldsEverything | src/wire.rs:530-564 | a full answer holds and counts every entry and nothing else |
| Spans.RunsUnique | src/resume.rs:132-149 | a set of indices has one list of maximal runs |
| Spans.Coalesce | src/client.rs:2096-2106 | the loop builds the coalesced list cut at 128 spans |
| Spans.CoalesceAgreesWithRuns | src/client.rs:2096-2106 | on an ascending list the coalesced spans are the maximal runs of its elements |
| Spans.CutBatch | src/client.rs:1388-1401 | the budget loop that shrinks the holes in place and drops the empty ones |
| Spans.BatchFacts | src/client.rs:1388-1401 | the batch is ordered, within 128 spans and the budget, holds only missing chunks, the lowest ones, and is empty only if nothing is missing |
| Selector.FormatRanges | src/keys.rs:60-76 | the printing loop |
| Selector.ParseRanges | src/keys.rs:91-164 | for every input string: it returns the one list of spans the text spells if that list is non-empty, has at most 128 spans, is sorted, disjoint, inside the count and within the cap, and rejects every other text |
| Selector.ParsePieces | src/keys.rs:110-160 | each rejection on the way is justified, and no sum or successor wraps |
| Selector.SelectionIs | src/keys.rs:91-164 | text determines the spans, so there is only one list to return |
| Selector.SelectorRoundTrip | src/keys.rs:54-164 | every admissible list comes back unchanged from its printed form |
| Selector.BatchReachesServer | src/client.rs:1388-1403 | the batch cut from any holes reaches any server whose cap is at least the budget exactly as it was cut |
| Text.DecimalRoundTrip | src/keys.rs:60-76 | a u32 survives decimal printing and parsing |
| Keys.ParseIdExactly | src/keys.rs:178-200 | for all strings: an id is read from a key exactly when it is one plain segment put after a query prefix that matches the server's segment by segment, wildcards included |
| Keys.ParseIdRoundTrip | src/keys.rs:18-40 | every per-blob key built under a concrete prefix names its id |
| Keys.SliceIndexRoundTrip | src/client.rs:2149-2156 | the index of a pulled or pushed slice key is read back |
| Keys.OriginRoundTrip | src/client.rs:227-231 | a reply key has an origin exactly when it was built from that origin, id and endpoint |
| Keys.HexRoundTrip | src/hash.rs:120-168 | a digest survives 64-digit printing and parsing |
| Keys.StoreKeyRoundTrip | src/keys.rs:203-250 | a chunk address survives being put into a store key and read out again |
| Symlinks.ResolveConfined | src/paths.rs:119-166 | the loop with its shared budget computes the recursive resolver, budget left included |
| Symlinks.AssertSymlinksConfined | src/paths.rs:107-114 | it accepts exactly the sets whose every link resolves with a fresh budget |
| Symlinks.Simulates | src/paths.rs:119-166 | the recursion with a budget mirrors the worklist rule of pathname resolution step for step, errors and hop counts included |
| Symlinks.ResolvedExactly | src/paths.rs:83-166 | the checker returns p if and only if the worklist reaches p without leaving the root or meeting an absolute component, with at most 31 substitutions |
| Symlinks.ConfinedExactly | src/paths.rs:107-114 | a set is accepted if and only if every declared link lands inside the tree within 31 substitutions |
| Symlinks.CyclesAreRefused | src/paths.rs:83-166 | a target whose resolution never ends is refused for its hops |
| Symlinks.WholeTreeConfined | src/paths.rs:107-166 | once a set is accepted, resolving any path of names from the root always ends and never steps above the root |
| Symlinks.SanitizeSymlinkTarget | src/paths.rs:50-80 | the depth-counting check accepts exactly the targets that stay inside when no other link is declared |
| Symlinks.LexicalIsNotEnough | src/paths.rs:85-106 | example: the documented pair of links, each passing the lexical check alone, is refused as a set because together they escape |
| Slices.DecodeSlice | src/verify.rs:152-169 | the verifier's contract: success yields exactly the range's bytes of the one blob with that root, a range that reaches the end proves the length too, and a genuine encoding decodes |
| Disks.Disk.WriteLeaf | src/client.rs:1462-1464 | a write, complete or cut short, with what a crash may make of it |
| Disks.Disk.SaveSidecar | src/resume.rs:184-200 | the sidecar is replaced atomically: old or new, never torn |
| Disks.Disk.Reboot | src/client.rs:1271-1294 | power loss: each byte shows its durable value or any value written over it since the last sync |
| DownloadFacts.WriteKeepsSound | src/client.rs:1462-1464 | writing into a chunk not yet held keeps every held chunk right and every claimed chunk durable, even half done |
| DownloadFacts.SyncSettles | src/client.rs:1476-1485 | after a sync every held chunk is durable |
| DownloadFacts.SaveKeepsSound | src/client.rs:1476-1485 | saving the sidecar after the sync keeps the disk crash safe whether or not the replacement gets through |
| DownloadFacts.CrashThenResume | src/client.rs:1271-1294 | whatever a crash leaves of a crash-safe disk is crash safe again |
| DownloadFacts.AllHeldIsBlob | src/client.rs:1318-1320 | a file that holds every chunk is the blob, its length proved by the last chunk |
| Download.SaveProgress | src/client.rs:1476-1485 | sync, then save, in that order and nothing else; a failure of either leaves a sound disk, success leaves no chunk at risk |
| Download.PersistCancel | src/client.rs:1718-1740 | a cancel saves the position it reports |
| Download.Screen | src/client.rs:1431-1441 | which replies are tried at all: a genuine one for a missing chunk always is, an out-of-range or repeated one never |
| Download.TakeReply | src/client.rs:1431-1486 | any reply at all keeps the disk sound and the books right; a genuine one for a missing chunk is stored and never rejected; the unsaved count is the number of chunks a crash would lose and stays below 64 |
| Download.NextBatch | src/client.rs:1388-1401 | each query asks for a usable batch of missing chunks |
| Download.QueryRound | src/client.rs:1388-1487 | one query with any replies; against a server that answers, it always makes progress |
| Download.Measured | src/client.rs:1388-1501 | each query goes on record with the number of chunks it gained, none being a retry |
| Download.FruitlessExactly | src/client.rs:1500-1517 | the run of fruitless queries at the end of the record: that many zeros, and no more |
| Download.FillHoles | src/client.rs:1358-1517 | for any replies in any order: Ok leaves the file equal to the blob with every chunk set and the byte counter at the total length; the books agree at every event; queries are at most missing chunks times max(1, max_attempts); Incomplete only when the record of queries ends with exactly that many fruitless ones, with the position saved, and no record ends with more; a served blob is never given up on, and arrives unless an I/O step failed or somebody cancelled; a crash at the end costs at most 64 chunks |
| Download.DownloadTo | src/client.rs:1238-1340 | Ok moves exactly the blob into place, with the chunks of a matching partial resumed and the rest fetched; an error leaves the destination as it was and loses nothing that could be resumed; each error has its cause, and a served blob with no failing step, no cancel and no destination in the way always arrives |
| Download.DownloadThroughCrashes | src/client.rs:1238-1340 | any number of attempts with crashes at any I/O step: the disk's history only grows, every state in it is safe to resume from, nothing resumable is lost, the attempt that finishes leaves exactly the blob, and with fewer failing steps than served attempts one finishes |
| PushSections.SliceMarkKeeps | src/server.rs:1197-1220 | marking in whatever entry the id has now, with a count read earlier, keeps every entry matching its manifest and fewer than 16 marks unsaved |
| PushSections.OfferInsertKeeps | src/server.rs:1036-1060 | the second section of an offer keeps the cap and the entries consistent and leaves every entry there is, so the first of two racing offers wins |
| PushSections.OfferFirstKeeps | src/server.rs:958-1014 | eviction, resume and admission keep the cap and the entries consistent |
| PushRuns.AdvanceKeepsInv | src/server.rs:896-1312 | every section and every piece of unlocked I/O of a running task keeps the invariant |
| PushRuns.RunsKeepInv | src/server.rs:529-1312 | over every interleaving of registrations, offers, slices, evictions, finalizes and removals: each registered blob's outboard root, length and geometry agree with its manifest, each push keeps a matching bitfield, at most max_concurrent pushes run |
| PushRuns.StepKeepsRegistered | src/server.rs:571-629 | an entry is never replaced; only its own removal ends it |
| PushRuns.RootNeverChanges | src/server.rs:571-593 | over every run without its removal an id keeps its registered entry, root included |
| PushHistory.OnlyVerifiedRegisters | src/server.rs:1239-1312 | over every run from the empty server: behind each registered blob there is a task that read a whole file with the registered root and length, at the start of a direct registration or after it had taken the push out of the map, and stayed at that until it entered the blob, which nothing has replaced since |
| PushHistory.StepKeepsPush | src/server.rs:896-1312 | a step keeps a push, its manifest and all it has received, unless it evicts it for being idle or takes it to be finalized |
| PushHistory.PushOnlyGrows | src/server.rs:896-1312 | over every run, as long as an id has a push its manifest stays and what it has received only grows, whatever races |
| PushRuns.LeftExactly | src/server.rs:1197-1216 | the remaining count is exact if and only if the marked entry has the chunk count the slice was checked against |
| PushRuns.SameCountIsExact | src/server.rs:1106-1216 | over every run whose offers of an id all have one chunk count it is exact, evictions and restarts included |
| PushRuns.StaleCountWraps | src/server.rs:1106-1216 | a run in which it is not: a slice outlives its push, and the count it is answered with wraps |
| Uploads.BlobServer.EvictIdle | src/server.rs:958-967 | the retain loop keeps exactly the pushes that are not idle and names the others |
| Uploads.BlobServer.FirstSection | src/server.rs:958-1014 | the first section changes the map and answers as the concurrent model's section does |
| Uploads.BlobServer.MarkSection | src/server.rs:1197-1220 | the marking section, dirty count and save decision included |
| Uploads.BlobServer.PushOffer | src/server.rs:896-1073 | an offer is turned down exactly when its id serves other content, a conflicting push runs or the cap is reached; otherwise what a live push or a matching spool holds is kept, the wanted list is exactly the other runs, and with none the blob is served |
| Uploads.BlobServer.SetUpSpool | src/server.rs:1015-1060 | a matching sidecar beside a full-length part is reused, anything else starts over |
| Uploads.BlobServer.PushSlice | src/server.rs:1106-1234 | a genuine slice is always acknowledged with the exact number still missing; a bad one is refused and changes nothing held; the saved sidecar lags by the counted marks; every call is logged |
| Uploads.BlobServer.Finalize | src/server.rs:1239-1312 | with every chunk spooled the hash matches and the id is served under the offered root |
| Uploads.MarkCounts | src/server.rs:1209-1213 | with one uploader the u32 subtraction is exact and is zero only when everything is held |
| Uploads.CheckWanted | src/client.rs:1023-1032 | the client's check passes exactly the ordered lists inside the blob |
| Uploads.SumWanted | src/client.rs:1033-1033 | once the check has passed the u32 sum is exact and at most the count |
| Uploads.WriteAll | src/server.rs:1183-1191 | writing a verified slice stores its chunk and disturbs no other |
| Uploads.PushSpan | src/client.rs:1062-1160 | one wanted span: the server's log grows by the span's slices in order, counters exact |
| Uploads.BlobServer.OthersRun | src/server.rs:529-1312 | offers, slices, finalizes, registrations and removals of other ids, in any number, leave all the server has of this id as it was while its push is not idle |
| Uploads.SlicesToExactly | src/client.rs:1062-1160 | the list an upload sends names each missing chunk once, in ascending order, with its own encoding, and nothing else |
| Uploads.RunUpload | src/client.rs:1000-1160 | honest upload end to end, with any sections of other ids between its steps: from any consistent spool, an offer that is not turned down ends with the blob served under its root; the wanted list always passes the check, the server's log grows by exactly the slices of the chunks it did not hold, each once, and the bytes sent are theirs |
| Contents.ContentStore.HasMany | src/store.rs:81-83 | positional presence |
| Contents.ContentStore.Hashes | src/store.rs:106-113 | every address once |
| Snapshots.NeededChunks | src/tree.rs:202-215 | the distinct hashes the file entries use, each once, in order of first use |
| Snapshots.NeededChunkRefs | src/tree.rs:222-248 | the same with the largest length declared for each, which some entry declares |
| Builds.StoreFile | src/tree.rs:648-669 | for any lossless chunker: the references name exactly the file's bytes with true lengths, the store gains exactly the chunks they use, and only a failing put stops it |
| Builds.Walk | src/tree.rs:577-679 | the index describes the tree item by item, later names of a multiply linked file pointing at the entry that carries it; the store keeps what it had and gains exactly the chunks used; unless a put fails it succeeds exactly on trees without special files |
| Materialized.AssembledExactly | src/tree.rs:2259-2284 | over any store, corrupt ones included, a file assembles exactly when every chunk is present, genuine and of the declared length, and then to what the addresses name |
| Materialized.Destination.CreateDirConfined | src/paths.rs:186-208 | the loop over components computes the recursive form |
| Destinations.MadeDirExactly | src/paths.rs:186-208 | folders are created exactly when nothing else is in the way, and nothing else changes |
| Destinations.SpotExactly | src/tree.rs:2364-2381 | there is room for an entry exactly when nothing is in the way and no folder is in its place that the policy spares; a folder that is replaced goes with all of it |
| Materialized.Destination.WriteFile | src/tree.rs:2256-2289 | the chunk loop writes the assembled content or reports the first failure |
| Materialized.Destination.LinkFile | src/tree.rs:2291-2317 | a hard link, its source resolved and checked before its path is cleared |
| Materialized.Destination.Reconstruct | src/tree.rs:2220-2335 | the three passes in place compute the entries reordered by pass, one after the other; finished or not, what no entry takes the place of is untouched and nothing is added that no entry needs |
| Restored.PlacedOneExactly | src/tree.rs:2220-2335 | placing one entry changes its path, what is below it and the folders above, and succeeds exactly when there is room and it is in order |
| Restored.PlacedIsNamed | src/tree.rs:2220-2335 | under the default policy, for any store and any index of distinct paths: success means there was room; every file has its declared size and named content, folders and links are there, and nothing else has changed |
| Restored.OthersSpared | src/tree.rs:2220-2381 | the same of the passes on values, for a run that succeeds under either policy |
| Restored.FolderGoesWhole | src/tree.rs:2364-2381 | an entry in a folder's place needs the policy that allows it, and removes everything below |
| Restored.TreeComesBack | src/tree.rs:577-2335 | an index that describes a tree, over any genuine store that holds its chunks: under either policy it succeeds with every file, folder and link back, hard links included, if and only if no path is in another's way, nothing in the directory is in the way, and every link stays inside; under the default policy it succeeds only then |
| GcRuns.TaggedStays | src/gc.rs:157-252 | over every interleaving of puts, tag changes, guards and any number of sweeps, a tag no running sweep has missed keeps every chunk of its snapshot |
| GcRuns.GuardedStays | src/gc.rs:194-213 | a chunk under a guard taken before the mark of every running sweep and still held is never removed, whenever it is stored |
| GcRuns.FreshGuardCovers | src/gc.rs:194-201 | a guard taken while no sweep is past reading the tags covers its chunks at once |
| GcRuns.GuardSafeExactly | src/gc.rs:194-252 | a held guard keeps a stored chunk over every future exactly when no running sweep has read the temp tags without it and still means to visit the chunk |
| GcRuns.TagSafeExactly | src/gc.rs:50-53 | exactly which standing tags are safe over every future; any other tag has a run that loses a chunk |
| GcRuns.MissedTagArises | src/gc.rs:50-53 | a run from the empty store reaches a tag that is not safe |
| GcRuns.CarefulStep | src/gc.rs:50-53 | from a world in which all tags are safe, a step keeps them so if and only if it sets no tag that misses a chunk or that a running sweep would miss |
| GcRuns.WaysToBeCareful | src/gc.rs:1-53 | setting a tag is careful before any running sweep has listed the tags, or under a marked guard while none is reading them |
| GcRuns.CarefulRunsAreSafe | src/gc.rs:1-53 | over any careful run every standing tag stays safe with its chunks present |
| GcRuns.RunKeepsGenuine | src/gc.rs:228-252 | no step puts wrong content under an address |
| Collector.SnapshotTags.Set | src/gc.rs:106-121 | a tag records exactly the chunks the snapshot uses |
| Collector.TempTags.Protect | src/gc.rs:194-201 | a guard protects its set and disturbs no other, dead sets being dropped |
| Collector.TempTags.LiveSet | src/gc.rs:203-214 | the union of exactly the sets whose guards are alive |
| Collector.Sweep | src/gc.rs:228-252 | with any chunks arriving after each visit: what is left is exactly the live part of what was there and the arrivals not visited afterwards, and without arrivals the live part alone; the statistics count exactly that, and it is a run of the concurrent model |
| Collector.SweptExactly | src/gc.rs:228-252 | which addresses a sweep leaves, visit by visit and arrival by arrival |
| Collector.SnapshotsSurvive | src/gc.rs:1-53 | from an empty store, over any careful run: while a tag stands its snapshot materializes to the whole tree it was built from, exactly where there is room |
| ChunkReplies.AcceptBatchReply | src/store_client.rs:311-338 | a batch reply is an answer only if it was asked for, fits its frame and hashes to its address with the declared length; any such reply is one |
| ChunkReplies.AcceptedExactly | src/store_client.rs:311-338 | an address is answered by a list of replies exactly when one of them is such an answer |
| ChunkReplies.FetchOneChunk | src/store_client.rs:386-429 | the first good reply is taken if there is any, and exactly the bad ones before it are counted |
| FetchBooks.UnansweredSize | src/tree.rs:2068-2072 | of one group, answers and leftovers never exceed it, and fall short exactly when an answered address is listed twice |
| FetchBooks.GroupPartitioned | src/tree.rs:2068-2072 | over a group without repeats answers and leftovers are a partition |
| TreeFetch.DrainRound | src/tree.rs:2006-2067 | a round stores every good answer once, ending with the replies or a cancel |
| TreeFetch.FlushWhenDue | src/tree.rs:2006-2067 | answers are flushed whenever 32 wait, so fewer than 32 ever do |
| TreeFetch.BatchRounds | src/tree.rs:1988-2077 | one query per group, and what is left is exactly what the groups' rounds did not answer |
| TreeFetch.FetchRest | src/tree.rs:2093-2154 | any completion order of the concurrent fetches resolves each leftover exactly once with one query each, and the rejected replies add up to the same number |
| TreeFetch.FetchMissing | src/tree.rs:1934-2155 | for any replies: Ok means every needed chunk is stored, those fetched with verified content; nothing stored before changes; the leftovers are exactly what the rounds did not answer, with one query each; the final counter is the one below; without repeats the bytes are the missing lengths; a cancel reports the number of needed chunks present; a served snapshot arrives unless a put failed or somebody cancelled |
| FetchCounts.NothingLeftExactly | src/tree.rs:1988-2077 | nothing is left to the single fetches if and only if every round answers everything its group asks for |
| FetchCounts.HonestHolderSuffices | src/tree.rs:1988-2077 | a holder of everything needed leaves nothing to them |
| FetchCounts.CountsExactly | src/tree.rs:1934-2155 | the final counter is the total for all replies if and only if no batch group of the missing list repeats an answerable address |
| FetchCounts.CountsExactlyOnTrueRefs | src/tree.rs:1934-2155 | with true lengths declared, if and only if no group repeats an address |
| FetchCounts.RepeatedChunkCountsOnce | src/tree.rs:1988-2072 | an honest holder: a chunk listed twice in one group is counted once, in two groups twice |
| IndexShards.ShardIndex | src/tree.rs:826-850 | the pieces are 64 KiB but for the last, name exactly the encoded index and are all stored |
| IndexShards.ShardsPass | src/wire.rs:448-472 | the descriptor passes its check exactly for a non-empty index within the limit |
| IndexShards.GatherRound | src/tree.rs:1556-1566 | a batch round keeps the first good answer for each address, misses none and invents none |
| IndexShards.AssembleShardedIndex | src/tree.rs:1540-1591 | for any descriptor and any mix of batch and single answers, what comes back is what its addresses name; and it does if and only if no batch query is lost and each piece is the first use of a batched address or served singly |
| IndexShards.BatchesSuffice | src/tree.rs:1571-1588 | full batch answers alone are enough if and only if no piece repeats |
| IndexShards.ShardRoundTrip | src/tree.rs:826-1591 | the index that was cut comes back byte for byte, repeated pieces included, exactly when its pieces are supplied |

## Left out

- Zenoh sessions, encodings, timeouts, priorities and progress plumbing: a query is its list of replies.
- The insides of BLAKE3, the tree-hash slice format, FastCDC, zstd, encryption and postcard: contracts only.
- Splitting link targets and entry paths into components and the refusal of components that are not names, non-UTF-8 names, platform path rules.
- The writer variant of the download loop, which keeps the bitfield in memory; the striped loop's dealing of chunks to holders, which can ask one holder twice and has no termination or partition property.
- The start-up pair of truncating the partial file and saving a fresh sidecar, and the completion pair of renaming and removing the sidecar: one step each, for one blob. A crash inside either pair can leave a stale matching sidecar.
- Disks.Disk.SaveSidecar: the temporary file, rename and directory sync are one atomic step.
- Download.DownloadTo: a destination that appears during the transfer is a nondeterministic choice; the sidecar's own file format is not modelled.
- Download.FillHoles: the two-second save timer is a nondeterministic choice; backoff sleeps are not modelled.
- Uploads.RunUpload: file I/O on the server succeeds; this id has one uploader, its push is never idle, and the handlers of its steps run whole; the policy allows; responders that refuse beside the one that accepts are skipped, as are cancellation and a source that changes during the upload.
- PushRuns.RunsKeepInv: a push entry is a value in the map rather than an object; the spool's files are not part of it, since racing offers reuse the same paths and only the final hash decides. Nothing is claimed about a registered blob's backing file afterwards.
- Manifest fields beyond id, length, chunk size and root; the policy, size limits and extension list of an offer; ids' Unicode whitespace and byte length.
- Presence.CountIsMembership: says nothing of the number reported for the lengths at which the bit count is not exact.
- Selector.ParseRanges: which error is reported.
- Builds.Walk: the walk's directory order and the reuse of a parent snapshot's entries by size and time, a heuristic with a documented blind spot; modes and times.
- Materialized.Destination.Reconstruct: modes, times, creating the destination itself, I/O errors while writing, and hard links as shared storage (content only).
- Index validation beyond distinct paths and the descriptor's check.
- GcRuns.GuardedStays: guards taken after a sweep has read the temp tags, which the code does not protect.
- Collector.Sweep: store and tag-directory I/O errors.
- TreeFetch.FetchMissing: tasks aborted by an error or a cancel that store their chunk uncounted or afterwards; other users of the store during the fetch; the transfer counters are unbounded; progress events.
- IndexShards.AssembleShardedIndex: query numbers restart for the single fetches; decoding the index and recomputing its root afterwards.
- Fan-out across origins, publishing, seeding, observation and the Python linter.
