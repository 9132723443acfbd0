/** The collector itself: the tag directory, the temp-tag registry and the sweep of
    src/gc.rs, each step of which is a step of the concurrent model. */
module Collector {
  import opened Basics
  import opened Contents
  import opened Snapshots
  import opened Builds
  import opened Destinations
  import opened Materialized
  import opened Restored
  import opened GcRuns
  import Keys

  datatype GcStats = GcStats(kept: nat, removed: nat)

  /** Persistent tags, by name. */
  class SnapshotTags {
    var records: map<string, TagRecord>

    constructor ()
      ensures records == map[]
    {
      records := map[];
    }

    /** Create or replace a tag. What it keeps alive is what the entries use. */
    method Set(name: string, root: Hash, entries: seq<Entry>) returns (ok: bool)
      modifies this
      ensures !Keys.ValidId(name) ==> !ok
      ensures !ok ==> records == old(records)
      ensures ok ==> records.Keys == old(records.Keys) + {name}
      ensures ok ==> records == old(records)[name := records[name]]
      ensures ok ==> records[name].root == root && FirstUses(records[name].chunks, Refs(entries))
    {
      var io := *;
      if !Keys.ValidId(name) || io {
        return false;
      }
      var chunks := NeededChunks(entries);
      records := records[name := TagRecord(root, chunks)];
      ok := true;
    }

    method Delete(name: string) returns (existed: bool)
      modifies this
      ensures existed <==> name in old(records)
      ensures records == old(records) - {name}
    {
      existed := name in records;
      records := records - {name};
    }

    /** All tag names. */
    method List() returns (names: seq<string>)
      ensures Distinct(names) && SetOf(names) == records.Keys
    {
      names := [];
      var todo := records.Keys;
      while todo != {}
        invariant todo <= records.Keys && Distinct(names)
        invariant forall n :: n in names <==> n in records.Keys - todo
        decreases |todo|
      {
        var n :| n in todo;
        assert n !in names;
        names := names + [n];
        todo := todo - {n};
      }
    }
  }

  /** The temp-tag registry: sets it holds weakly, by guard. A set whose guard is
      gone is dead and is dropped at the next chance. */
  class TempTags {
    var sets: map<nat, set<Hash>>
    var guards: set<nat>
    var next: nat

    ghost predicate Valid()
      reads this
    {
      guards <= sets.Keys && forall t :: t in sets ==> t < next
    }

    /** The sets whose guards are alive. */
    ghost function Alive(): map<nat, set<Hash>>
      reads this
    {
      map t | t in sets && t in guards :: sets[t]
    }

    constructor ()
      ensures Valid() && Alive() == map[]
    {
      sets, guards, next := map[], {}, 0;
    }

    method Retain()
      requires Valid()
      modifies this`sets
      ensures Valid() && Alive() == old(Alive()) == sets
    {
      sets := map t | t in sets && t in guards :: sets[t];
    }

    /** Take a guard over `hashes`. */
    method Protect(hashes: set<Hash>) returns (t: nat)
      requires Valid()
      modifies this
      ensures Valid() && t !in old(Alive()) && Alive() == old(Alive())[t := hashes]
    {
      Retain();
      t := next;
      sets, guards, next := sets[t := hashes], guards + {t}, next + 1;
    }

    /** The guard goes out of scope. */
    method Drop(t: nat)
      requires Valid()
      modifies this
      ensures Valid() && Alive() == old(Alive()) - {t}
    {
      guards := guards - {t};
    }

    /** The union of all sets alive. */
    method LiveSet() returns (live: set<Hash>)
      requires Valid()
      modifies this`sets
      ensures Valid() && Alive() == old(Alive()) && live == Union(Alive())
    {
      Retain();
      live := {};
      var todo := sets.Keys;
      while todo != {}
        invariant todo <= sets.Keys
        invariant forall h :: h in live <==> exists t :: t in sets && t !in todo && h in sets[t]
        decreases |todo|
      {
        var t :| t in todo;
        live := live + sets[t];
        todo := todo - {t};
      }
    }
  }

  // ----- the sweep -----

  ghost predicate Tagged(h: Hash, tags: map<string, TagRecord>) {
    exists name :: name in tags && h in tags[name].chunks
  }

  ghost predicate Rooted(h: Hash, roots: seq<seq<Entry>>) {
    exists k :: 0 <= k < |roots| && Uses(Refs(roots[k]), h)
  }

  /** What a sweep keeps: everything reachable from tags, guards and extra roots. */
  ghost predicate Live(h: Hash, tags: map<string, TagRecord>, temps: map<nat, set<Hash>>, roots: seq<seq<Entry>>) {
    Tagged(h, tags) || h in Union(temps) || Rooted(h, roots)
  }

  /** The objects' state, as the concurrent model sees it with one sweep running. */
  ghost function Now(store: ContentStore, tags: SnapshotTags, temps: TempTags, p: Phase): World
    reads store, tags, temps
  {
    World(store.chunks, tags.records, temps.Alive(), map[0 := p])
  }

  /** The first half of the mark: the chunks of every tag. */
  method MarkTags(ghost w0: World, store: ContentStore, tags: SnapshotTags, temps: TempTags)
    returns (live: set<Hash>, ghost trace: seq<Action>)
    requires w0 == World(store.chunks, tags.records, temps.Alive(), map[])
    ensures Leads(w0, trace, Now(store, tags, temps, Reading([], live)))
    ensures forall h :: h in live <==> Tagged(h, tags.records)
    ensures PutsOf(trace) == []
  {
    hide Leads;
    var names := tags.List();
    live := {};
    trace := [StartSweep(0), ListTags(0, names)];
    SweepStarts(w0, names);
    PutsSnoc([StartSweep(0)], ListTags(0, names));
    PutsSnoc([], StartSweep(0));
    assert names[0..] == names;
    for k := 0 to |names|
      invariant Leads(w0, trace, Now(store, tags, temps, Reading(names[k..], live)))
      invariant forall h :: h in live <==> exists j :: 0 <= j < k && h in tags.records[names[j]].chunks
      invariant PutsOf(trace) == []
    {
      assert names[k] in SetOf(names);
      var record := tags.records[names[k]];
      TagIsRead(w0, trace, Now(store, tags, temps, Listing), names[k..], live);
      live := live + SetOfSeq(record.chunks);
      assert names[k..][1..] == names[k + 1..];
      PutsSnoc(trace, ReadTag(0));
      trace := trace + [ReadTag(0)];
    }
    assert names[|names|..] == [];
    forall h
      ensures h in live <==> Tagged(h, tags.records)
    {
      if name :| name in tags.records && h in tags.records[name].chunks {
        assert name in SetOf(names);
      }
    }
  }

  function SetOfSeq(xs: seq<Hash>): (s: set<Hash>)
    ensures s == SetOf(xs)
  {
    set x | x in xs
  }

  lemma UsedOnly(out: seq<Hash>, refs: seq<ChunkRef>)
    requires FirstUses(out, refs)
    ensures forall h :: h in out <==> Uses(refs, h)
  {
  }

  /** The second half: the guards alive, then the extra roots. */
  method MarkRest(ghost w0: World, ghost trace0: seq<Action>, live0: set<Hash>, roots: seq<seq<Entry>>,
                  store: ContentStore, tags: SnapshotTags, temps: TempTags)
    returns (live: set<Hash>, ghost trace: seq<Action>)
    requires temps.Valid() && Leads(w0, trace0, Now(store, tags, temps, Reading([], live0)))
    requires PutsOf(trace0) == []
    modifies temps`sets
    ensures temps.Valid() && temps.Alive() == old(temps.Alive())
    ensures Leads(w0, trace, Now(store, tags, temps, Rooting(live)))
    ensures forall h :: h in live <==> h in live0 || h in Union(temps.Alive()) || Rooted(h, roots)
    ensures PutsOf(trace) == []
  {
    hide Leads, FirstUses, Union, Uses, Refs;
    var guarded := temps.LiveSet();
    live := live0 + guarded;
    GuardsAreMarked(w0, trace0, Now(store, tags, temps, Listing), live0);
    PutsSnoc(trace0, MarkTemps(0));
    trace := trace0 + [MarkTemps(0)];
    for k := 0 to |roots|
      invariant temps.Valid() && temps.Alive() == old(temps.Alive())
      invariant Leads(w0, trace, Now(store, tags, temps, Rooting(live)))
      invariant forall h :: h in live <==>
        h in live0 || h in Union(temps.Alive()) || exists j :: 0 <= j < k && Uses(Refs(roots[j]), h)
      invariant PutsOf(trace) == []
    {
      var chunks := NeededChunks(roots[k]);
      UsedOnly(chunks, Refs(roots[k]));
      assert SetOfSeq(chunks) == SetOf(chunks);
      RootIsAdded(w0, trace, Now(store, tags, temps, Listing), live, SetOf(chunks));
      live := live + SetOfSeq(chunks);
      PutsSnoc(trace, AddRoot(0, SetOf(chunks)));
      trace := trace + [AddRoot(0, SetOf(chunks))];
    }
  }

  /** What other tasks store right after the k-th visit of a sweep's removal loop. */
  type Arrivals = nat -> seq<Bytes>

  /** The store after `puts` have landed. */
  ghost function Landed(store: Chunks, puts: seq<Bytes>): Chunks {
    if puts == [] then store
    else
      var last := puts[|puts| - 1];
      Landed(store, puts[..|puts| - 1])[Hash(last) := last]
  }

  lemma {:induction false} LandedHas(store: Chunks, puts: seq<Bytes>, h: Hash)
    ensures h in Landed(store, puts) <==> h in store || h.preimage in puts
  {
    if puts != [] {
      var front, last := puts[..|puts| - 1], puts[|puts| - 1];
      LandedHas(store, front, h);
      assert puts == front + [last];
      assert h == Hash(last) <==> h.preimage == last;
    }
  }

  /** The store after `n` visits: each removes its address unless it is live, and is
      followed by that visit's arrivals. */
  ghost function SweptStore(before: Chunks, live: set<Hash>, found: seq<Hash>, arrivals: Arrivals, n: nat): Chunks
    requires n <= |found|
  {
    if n == 0 then before
    else
      var prior := SweptStore(before, live, found, arrivals, n - 1);
      Landed(if found[n - 1] in live then prior else prior - {found[n - 1]}, arrivals(n - 1))
  }

  ghost function ArrivedBy(arrivals: Arrivals, n: nat): seq<Bytes> {
    if n == 0 then [] else ArrivedBy(arrivals, n - 1) + arrivals(n - 1)
  }

  /** The addresses the first `n` visits come to after visit `k`. */
  ghost function LaterVisits(found: seq<Hash>, k: nat, n: nat): seq<Hash>
    requires k < n <= |found|
  {
    found[k + 1..n]
  }

  /** `h` arrives after one of the first `n` visits, to stay: it is live, or no later
      one of them removes it. */
  ghost predicate ArrivesToStay(h: Hash, live: set<Hash>, found: seq<Hash>, arrivals: Arrivals, n: nat)
    requires n <= |found|
  {
    exists k: nat :: k < n && h.preimage in arrivals(k) && (h in live || h !in LaterVisits(found, k, n))
  }

  /** What is left after `n` visits: what was there and is live or not yet visited,
      and what arrived to stay. */
  lemma {:induction false} SweptExactly(before: Chunks, live: set<Hash>, found: seq<Hash>, arrivals: Arrivals, n: nat, h: Hash)
    requires n <= |found|
    ensures h in SweptStore(before, live, found, arrivals, n) <==>
            (h in before && (h in live || h !in found[..n])) || ArrivesToStay(h, live, found, arrivals, n)
  {
    if n > 0 {
      var visited := found[n - 1];
      SweptExactly(before, live, found, arrivals, n - 1, h);
      var prior := SweptStore(before, live, found, arrivals, n - 1);
      LandedHas(if visited in live then prior else prior - {visited}, arrivals(n - 1), h);
      assert found[..n] == found[..n - 1] + [visited];
      StayStep(h, live, found, arrivals, n);
    }
  }

  lemma StayStep(h: Hash, live: set<Hash>, found: seq<Hash>, arrivals: Arrivals, n: nat)
    requires 0 < n <= |found|
    ensures ArrivesToStay(h, live, found, arrivals, n) <==>
            h.preimage in arrivals(n - 1) ||
            (ArrivesToStay(h, live, found, arrivals, n - 1) && (h in live || h != found[n - 1]))
  {
    assert LaterVisits(found, n - 1, n) == [];
    forall k: nat | k < n - 1
      ensures LaterVisits(found, k, n) == LaterVisits(found, k, n - 1) + [found[n - 1]]
    {
    }
  }

  /** A sweep of a quiet store leaves exactly the live part, byte for byte. */
  lemma {:induction false} QuietSweep(before: Chunks, live: set<Hash>, found: seq<Hash>, arrivals: Arrivals, n: nat)
    requires n <= |found| && forall k: nat :: k < n ==> arrivals(k) == []
    ensures SweptStore(before, live, found, arrivals, n) ==
            map h | h in before && (h in live || h !in found[..n]) :: before[h]
  {
    if n > 0 {
      QuietSweep(before, live, found, arrivals, n - 1);
      assert found[..n] == found[..n - 1] + [found[n - 1]];
    }
  }

  /** What others put after one visit. */
  method StoreArrivals(puts: seq<Bytes>, ghost w0: World, ghost trace0: seq<Action>, ghost p: Phase,
                       store: ContentStore, tags: SnapshotTags, temps: TempTags)
    returns (ghost trace: seq<Action>)
    requires Leads(w0, trace0, Now(store, tags, temps, p))
    modifies store
    ensures Leads(w0, trace, Now(store, tags, temps, p))
    ensures PutsOf(trace) == PutsOf(trace0) + puts
    ensures store.chunks == Landed(old(store.chunks), puts)
  {
    trace := trace0;
    assert PutsOf(trace0) + puts[..0] == PutsOf(trace0);
    for n := 0 to |puts|
      invariant Leads(w0, trace, Now(store, tags, temps, p))
      invariant PutsOf(trace) == PutsOf(trace0) + puts[..n]
      invariant store.chunks == Landed(old(store.chunks), puts[..n])
    {
      ChunkIsPut(w0, trace, Now(store, tags, temps, p), puts[n]);
      PutsSnoc(trace, Put(puts[n]));
      assert puts[..n + 1] == puts[..n] + [puts[n]] && puts[..n + 1][..n] == puts[..n];
      trace := trace + [Put(puts[n])];
      store.chunks := store.chunks[Hash(puts[n]) := puts[n]];
    }
    assert puts[..|puts|] == puts;
  }

  /** Mark and sweep, with any chunks at all arriving after each visit of the removal
      loop. It is a run of the concurrent model with exactly those arrivals, and it
      leaves exactly what was there and is reachable, and what arrived to stay. */
  method Sweep(store: ContentStore, tags: SnapshotTags, temps: TempTags, roots: seq<seq<Entry>>, arrivals: Arrivals)
    returns (stats: GcStats, ghost live: set<Hash>, ghost found: seq<Hash>, ghost trace: seq<Action>)
    requires temps.Valid()
    modifies store, temps`sets
    ensures temps.Valid() && temps.Alive() == old(temps.Alive())
    ensures Leads(World(old(store.chunks), tags.records, temps.Alive(), map[]), trace,
                  World(store.chunks, tags.records, temps.Alive(), map[]))
    ensures forall h :: h in live <==> Live(h, tags.records, temps.Alive(), roots)
    // The store was listed once, and the arrivals are the given ones.
    ensures Distinct(found) && SetOf(found) == old(store.chunks).Keys
    ensures PutsOf(trace) == ArrivedBy(arrivals, |found|)
    ensures store.chunks == SweptStore(old(store.chunks), live, found, arrivals, |found|)
    ensures forall h :: h in store.chunks <==>
              (h in old(store.chunks) && h in live) || ArrivesToStay(h, live, found, arrivals, |found|)
    ensures (forall k: nat :: arrivals(k) == []) ==>
              store.chunks == map h | h in old(store.chunks) && h in live :: old(store.chunks)[h]
    ensures stats == GcStats(|old(store.chunks).Keys * live|, |old(store.chunks).Keys - live|)
  {
    ghost var w0 := World(store.chunks, tags.records, temps.Alive(), map[]);
    var marked;
    marked, trace := MarkTags(w0, store, tags, temps);
    marked, trace := MarkRest(w0, trace, marked, roots, store, tags, temps);
    var listing := store.Hashes();
    live, found := marked, listing;
    StoreIsListed(w0, trace, Now(store, tags, temps, Listing), marked, found);
    PutsSnoc(trace, ListStore(0, found));
    trace := trace + [ListStore(0, found)];
    stats, trace := RemoveUnmarked(w0, trace, marked, listing, arrivals, store, tags, temps);
    SweepEnds(w0, trace, Now(store, tags, temps, Listing), marked);
    PutsSnoc(trace, FinishSweep(0));
    trace := trace + [FinishSweep(0)];
    SweepLeaves(w0.store, live, found, arrivals);
  }

  lemma {:induction false} SweepLeaves(before: Chunks, live: set<Hash>, found: seq<Hash>, arrivals: Arrivals)
    requires SetOf(found) == before.Keys
    ensures forall h :: h in SweptStore(before, live, found, arrivals, |found|) <==>
              (h in before && h in live) || ArrivesToStay(h, live, found, arrivals, |found|)
    ensures (forall k: nat :: arrivals(k) == []) ==>
              SweptStore(before, live, found, arrivals, |found|) == map h | h in before && h in live :: before[h]
  {
    assert found[..|found|] == found;
    assert forall h :: h in before ==> h in SetOf(found);
    forall h
      ensures h in SweptStore(before, live, found, arrivals, |found|) <==>
              (h in before && h in live) || ArrivesToStay(h, live, found, arrivals, |found|)
    {
      SweptExactly(before, live, found, arrivals, |found|, h);
    }
    if forall k: nat :: arrivals(k) == [] {
      QuietSweep(before, live, found, arrivals, |found|);
    }
  }

  /** The removal loop over one listing of the store. */
  method RemoveUnmarked(ghost w0: World, ghost trace0: seq<Action>, live: set<Hash>, found: seq<Hash>, arrivals: Arrivals,
                        store: ContentStore, tags: SnapshotTags, temps: TempTags)
    returns (stats: GcStats, ghost trace: seq<Action>)
    requires Leads(w0, trace0, Now(store, tags, temps, Removing(live, found))) && PutsOf(trace0) == []
    requires Distinct(found) && SetOf(found) == store.chunks.Keys
    modifies store
    ensures Leads(w0, trace, Now(store, tags, temps, Removing(live, []))) && PutsOf(trace) == ArrivedBy(arrivals, |found|)
    ensures store.chunks == SweptStore(old(store.chunks), live, found, arrivals, |found|)
    ensures stats == GcStats(|old(store.chunks).Keys * live|, |old(store.chunks).Keys - live|)
  {
    ghost var before := store.chunks;
    stats, trace := GcStats(0, 0), trace0;
    assert found[0..] == found;
    for k := 0 to |found|
      invariant Leads(w0, trace, Now(store, tags, temps, Removing(live, found[k..])))
      invariant PutsOf(trace) == ArrivedBy(arrivals, k)
      invariant store.chunks == SweptStore(before, live, found, arrivals, k)
      invariant stats == GcStats(|SetOf(found[..k]) * live|, |SetOf(found[..k]) - live|)
    {
      StillThere(before, live, found, arrivals, k);
      VisitNext(found, k, live);
      stats, trace := VisitOne(w0, trace, live, found[k..], stats, store, tags, temps);
      assert found[k..][1..] == found[k + 1..];
      trace := StoreArrivals(arrivals(k), w0, trace, Removing(live, found[k + 1..]), store, tags, temps);
    }
    assert found[..|found|] == found && found[|found|..] == [];
  }

  /** The visit of one address that is there. */
  method VisitOne(ghost w0: World, ghost trace0: seq<Action>, live: set<Hash>, todo: seq<Hash>, stats0: GcStats,
                  store: ContentStore, tags: SnapshotTags, temps: TempTags)
    returns (stats: GcStats, ghost trace: seq<Action>)
    requires Leads(w0, trace0, Now(store, tags, temps, Removing(live, todo)))
    requires todo != [] && todo[0] in store.chunks
    modifies store
    ensures Leads(w0, trace, Now(store, tags, temps, Removing(live, todo[1..]))) && PutsOf(trace) == PutsOf(trace0)
    ensures store.chunks == if todo[0] in live then old(store.chunks) else old(store.chunks) - {todo[0]}
    ensures stats == if todo[0] in live then GcStats(stats0.kept + 1, stats0.removed) else GcStats(stats0.kept, stats0.removed + 1)
  {
    stats := stats0;
    NextIsVisited(w0, trace0, Now(store, tags, temps, Listing), live, todo);
    PutsSnoc(trace0, RemoveNext(0));
    trace := trace0 + [RemoveNext(0)];
    if todo[0] in live {
      stats := stats.(kept := stats.kept + 1);
    } else {
      var existed := store.Remove(todo[0]);
      if existed {
        stats := stats.(removed := stats.removed + 1);
      }
    }
  }

  /** An address still to be visited is still there. */
  lemma {:induction false} StillThere(before: Chunks, live: set<Hash>, found: seq<Hash>, arrivals: Arrivals, k: nat)
    requires k < |found| && Distinct(found) && SetOf(found) == before.Keys
    ensures found[k] in SweptStore(before, live, found, arrivals, k)
  {
    assert found[k] in SetOf(found);
    SweptExactly(before, live, found, arrivals, k, found[k]);
  }

  lemma VisitNext(found: seq<Hash>, k: nat, live: set<Hash>)
    requires Distinct(found) && k < |found|
    ensures found[k] !in found[..k]
    ensures forall h :: h in found[..k + 1] <==> h in found[..k] || h == found[k]
    ensures found[k] in live ==>
              && |SetOf(found[..k + 1]) * live| == |SetOf(found[..k]) * live| + 1
              && SetOf(found[..k + 1]) - live == SetOf(found[..k]) - live
    ensures found[k] !in live ==>
              && |SetOf(found[..k + 1]) - live| == |SetOf(found[..k]) - live| + 1
              && SetOf(found[..k + 1]) * live == SetOf(found[..k]) * live
  {
    assert found[..k + 1] == found[..k] + [found[k]];
    var visited := SetOf(found[..k]);
    assert SetOf(found[..k + 1]) == visited + {found[k]};
    if found[k] in live {
      assert (visited + {found[k]}) * live == visited * live + {found[k]};
    } else {
      assert (visited + {found[k]}) - live == (visited - live) + {found[k]};
    }
  }

  // ----- the life of a snapshot -----

  /** A tag that stands in a safe world materializes to the whole tree its snapshot was
      built from, exactly where there is room for it. */
  lemma {:induction false} TagMaterializes(w: World, name: string, entries: seq<Entry>, items: seq<Source>, t: Tree,
                                           policy: Policy, canon: Resolver)
    requires Describes(entries, items) && DistinctItems(items) && OneFilePerInode(items)
    requires Genuine(w.store) && TagsSafe(w) && Closed(t) && Resolves(canon)
    requires name in w.tags && FirstUses(w.tags[name].chunks, Refs(entries))
    ensures var r := Reconstructed(entries, w.store, t, policy, canon);
            r.Ok? && AllComeBack(items, r.value) <==> RoomFor(entries, t, policy)
  {
    hide RoomFor, Closed, Resolves, Describes, OneFilePerInode, DistinctItems, Reconstructed, AllComeBack;
    forall c | c in Refs(entries)
      ensures c.hash in w.store
    {
      assert Uses(Refs(entries), c.hash);
      assert c.hash in w.tags[name].chunks;
    }
    TreeComesBack(entries, items, w.store, t, policy, canon);
  }

  /** The life of a store from the empty system on: chunks are put, tags set and
      removed, guards taken and dropped, any number of sweeps run, all interleaved.
      If tags are set only for stored chunks and while no running sweep would miss
      them, then whatever tag stands at the end materializes to the tree its snapshot
      was built from, exactly where there is room for it. */
  lemma {:induction false} SnapshotsSurvive(actions: seq<Action>, name: string, entries: seq<Entry>, items: seq<Source>,
                                            t: Tree, policy: Policy, canon: Resolver)
    requires CarefulRun(EMPTY, actions)
    requires Describes(entries, items) && DistinctItems(items) && OneFilePerInode(items)
    requires Closed(t) && Resolves(canon)
    requires var w := Run(EMPTY, actions);
             name in w.tags && FirstUses(w.tags[name].chunks, Refs(entries))
    ensures var r := Reconstructed(entries, Run(EMPTY, actions).store, t, policy, canon);
            r.Ok? && AllComeBack(items, r.value) <==> RoomFor(entries, t, policy)
  {
    CarefulRunsAreSafe(EMPTY, actions);
    RunKeepsGenuine(EMPTY, actions);
    TagMaterializes(Run(EMPTY, actions), name, entries, items, t, policy, canon);
  }
}
