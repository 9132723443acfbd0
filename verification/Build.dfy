/** Building a snapshot from a tree: the walk of src/tree.rs over the items of a
    directory, in the order it visits them. */
module Builds {
  import opened Basics
  import opened Contents
  import opened Snapshots

  /** What the walk finds. A file's data, inode and link count are the file system's. */
  datatype Source =
    | SrcDir(path: Path)
    | SrcLink(path: Path, target: Target)
    | SrcFile(path: Path, data: Bytes, inode: nat, links: nat)
    | SrcSpecial(path: Path)

  datatype BuildError = UnsupportedFile | Io

  /** The content-defined chunker: any rule that cuts data into non-empty pieces of
      at most `max` bytes that join back to it. */
  type Cutter = Bytes -> seq<Bytes>

  ghost predicate Lossless(cut: Cutter, max: u32) {
    forall data :: Joined(cut(data)) == data && Bounded(cut(data), max)
  }

  ghost predicate Bounded(pieces: seq<Bytes>, max: u32) {
    forall k :: 0 <= k < |pieces| ==> 0 < |pieces[k]| <= max
  }

  /** File sizes are 64-bit. */
  ghost predicate Sized(items: seq<Source>) {
    forall k :: 0 <= k < |items| && items[k].SrcFile? ==> |items[k].data| <= U64_MAX
  }

  // ----- what an index says about a tree -----

  /** The references name non-empty contents of exactly the declared lengths. */
  ghost predicate TrueLens(refs: seq<ChunkRef>) {
    forall c :: c in refs ==> 0 < c.len == |c.hash.preimage|
  }

  ghost predicate FileOf(e: Entry, data: Bytes) {
    e.File? && e.size == |data| && Preimages(e.chunks) == data && TrueLens(e.chunks)
  }

  /** Two names of one multiply linked file. */
  predicate Linked(items: seq<Source>, j: nat, k: nat)
    requires j < |items| && k < |items|
  {
    && items[j].SrcFile? && items[k].SrcFile?
    && items[j].links > 1 && items[k].links > 1
    && items[j].inode == items[k].inode
  }

  ghost predicate SeenBefore(items: seq<Source>, k: nat)
    requires k < |items|
  {
    exists j :: 0 <= j < k && Linked(items, j, k)
  }

  /** Entry `k` of the index is item `k` of the tree; a later name of a multiply
      linked file points at the entry that carries its chunks. */
  ghost predicate DescribesAt(entries: seq<Entry>, items: seq<Source>, k: nat)
    requires k < |entries| && k < |items|
  {
    && entries[k].path == items[k].path
    && match items[k]
      case SrcDir(_) => entries[k].Dir?
      case SrcLink(_, target) => entries[k].Symlink? && entries[k].target == target
      case SrcFile(_, data, _, _) =>
        if SeenBefore(items, k) then
          && entries[k].Hardlink?
          && exists j :: 0 <= j < k && Linked(items, j, k) && entries[j].File? && entries[j].path == entries[k].source
        else FileOf(entries[k], data)
      case SrcSpecial(_) => false
  }

  ghost predicate Describes(entries: seq<Entry>, items: seq<Source>) {
    && |entries| == |items|
    && forall k :: 0 <= k < |items| ==> DescribesAt(entries, items, k)
  }

  // ----- the walk -----

  /** The inodes seen so far, each with the path of the entry that carries it. */
  ghost predicate Inodes(inodes: map<nat, Path>, entries: seq<Entry>, items: seq<Source>, n: nat)
    requires n == |entries| <= |items|
  {
    && (forall j :: 0 <= j < n && items[j].SrcFile? && items[j].links > 1 ==> items[j].inode in inodes)
    && (forall ino :: ino in inodes ==> exists j :: 0 <= j < n && Carries(entries[j], items[j], ino, inodes[ino]))
  }

  ghost predicate Carries(e: Entry, item: Source, ino: nat, path: Path) {
    e.File? && e.path == path && item.SrcFile? && item.links > 1 && item.inode == ino
  }

  /** What a walk leaves in the store: everything from before, plus exactly the
      chunks the entries use. */
  ghost predicate StoredFor(before: Chunks, after: Chunks, refs: seq<ChunkRef>) {
    && Grows(before, after)
    && (Genuine(before) ==> Genuine(after))
    && (forall h :: h in after <==> h in before || Uses(refs, h))
  }

  /** Chunk one file into the store; chunks already there are not put again. */
  method StoreFile(data: Bytes, cut: Cutter, max: u32, store: ContentStore, ghost refs0: seq<ChunkRef>,
                   ghost before: Chunks)
    returns (ok: bool, size: u64, refs: seq<ChunkRef>)
    requires Lossless(cut, max) && |data| <= U64_MAX
    requires StoredFor(before, store.chunks, refs0)
    modifies store
    ensures if ok then store.faults == old(store.faults) else store.faults > old(store.faults)
    ensures Grows(before, store.chunks) && (Genuine(before) ==> Genuine(store.chunks))
    ensures ok ==> StoredFor(before, store.chunks, refs0 + refs)
    ensures ok ==> size == |data| && Preimages(refs) == data && TrueLens(refs)
  {
    var pieces := cut(data);
    refs, size := [], 0;
    assert refs0 + [] == refs0;
    for k := 0 to |pieces|
      invariant StoredFor(before, store.chunks, refs0 + refs) && store.faults == old(store.faults)
      invariant Preimages(refs) == Joined(pieces[..k]) && size == |Joined(pieces[..k])| && TrueLens(refs)
    {
      var piece := pieces[k];
      PieceAdded(pieces, k, refs, max);
      size := size + |piece|;
      var c := ChunkRef(Hash(piece), |piece|);
      PutKeeps(before, store.chunks, refs0 + refs, c, piece);
      assert refs0 + (refs + [c]) == refs0 + refs + [c];
      refs := refs + [c];
      var here := store.Has(c.hash);
      if !here {
        var put := store.Put(c.hash, piece);
        if !put {
          return false, size, refs;
        }
      }
    }
    assert pieces[..|pieces|] == pieces;
    ok := true;
  }

  lemma PieceAdded(pieces: seq<Bytes>, k: nat, refs: seq<ChunkRef>, max: u32)
    requires k < |pieces| && Bounded(pieces, max) && |Joined(pieces)| <= U64_MAX
    requires Preimages(refs) == Joined(pieces[..k])
    ensures var next := refs + [ChunkRef(Hash(pieces[k]), |pieces[k]|)];
            Preimages(next) == Joined(pieces[..k + 1])
    ensures |Joined(pieces[..k])| + |pieces[k]| == |Joined(pieces[..k + 1])| <= U64_MAX
  {
    PreimagesSnoc(refs, ChunkRef(Hash(pieces[k]), |pieces[k]|));
    JoinedSnoc(pieces[..k], pieces[k]);
    assert pieces[..k + 1] == pieces[..k] + [pieces[k]];
    JoinedPrefix(pieces, k + 1);
  }

  lemma PutKeeps(before: Chunks, now: Chunks, refs: seq<ChunkRef>, c: ChunkRef, piece: Bytes)
    requires StoredFor(before, now, refs) && c.hash == Hash(piece)
    ensures c.hash in now ==> StoredFor(before, now, refs + [c])
    ensures c.hash !in now ==> StoredFor(before, now[c.hash := piece], refs + [c])
  {
    forall h
      ensures Uses(refs + [c], h) <==> Uses(refs, h) || h == c.hash
    {
      FirstUseSnoc(refs, c, h);
    }
  }

  /** The walk. It refuses a tree with a special file, and describes any other. */
  method Walk(items: seq<Source>, cut: Cutter, max: u32, store: ContentStore) returns (r: Result<seq<Entry>,
              BuildError>)
    requires Lossless(cut, max) && Sized(items)
    modifies store
    ensures Grows(old(store.chunks), store.chunks) && (Genuine(old(store.chunks)) ==> Genuine(store.chunks))
    ensures r.Ok? ==> Describes(r.value, items) && StoredFor(old(store.chunks), store.chunks, Refs(r.value))
    // What can stop it, and that nothing else does.
    ensures r == Err(Io) ==> store.faults > old(store.faults)
    ensures r == Err(UnsupportedFile) ==> exists k :: 0 <= k < |items| && items[k].SrcSpecial?
    ensures store.faults == old(store.faults) ==>
              (r.Ok? <==> forall k :: 0 <= k < |items| ==> !items[k].SrcSpecial?)
  {
    var entries: seq<Entry> := [];
    var inodes: map<nat, Path> := map[];
    ghost var before := store.chunks;
    for k := 0 to |items|
      invariant |entries| == k && forall j :: 0 <= j < k ==> DescribesAt(entries, items, j)
      invariant Inodes(inodes, entries, items, k)
      invariant StoredFor(before, store.chunks, Refs(entries)) && store.faults == old(store.faults)
      invariant forall j :: 0 <= j < k ==> !items[j].SrcSpecial?
    {
      if items[k].SrcSpecial? {
        return Err(UnsupportedFile);
      }
      ghost var was := entries;
      var e;
      e, inodes := Visit(items, k, inodes, cut, max, store, entries, before);
      if e.None? {
        return Err(Io);
      }
      entries := entries + [e.value];
      forall j | 0 <= j < k
        ensures DescribesAt(entries, items, j)
      {
        DescribedStays(was, e.value, items, j);
      }
    }
    r := Ok(entries);
  }

  lemma DescribedStays(entries: seq<Entry>, e: Entry, items: seq<Source>, j: nat)
    requires j < |entries| <= |items| && DescribesAt(entries, items, j)
    ensures DescribesAt(entries + [e], items, j)
  {
    if items[j].SrcFile? && SeenBefore(items, j) {
      var i :| 0 <= i < j && Linked(items, i, j) && entries[i].File? && entries[i].path == entries[j].source;
      assert (entries + [e])[i] == entries[i];
    }
  }

  /** One item's entry. */
  method Visit(items: seq<Source>, k: nat, inodes0: map<nat, Path>, cut: Cutter, max: u32, store: ContentStore,
               ghost entries: seq<Entry>, ghost before: Chunks)
    returns (e: Option<Entry>, inodes: map<nat, Path>)
    requires Lossless(cut, max) && Sized(items) && k == |entries| < |items| && !items[k].SrcSpecial?
    requires Inodes(inodes0, entries, items, k) && StoredFor(before, store.chunks, Refs(entries))
    modifies store
    ensures Grows(before, store.chunks) && (Genuine(before) ==> Genuine(store.chunks))
    ensures if e.Some? then store.faults == old(store.faults) else store.faults > old(store.faults)
    ensures e.Some? ==> DescribesAt(entries + [e.value], items, k)
    ensures e.Some? ==> Inodes(inodes, entries + [e.value], items, k + 1)
    ensures e.Some? ==> StoredFor(before, store.chunks, Refs(entries + [e.value]))
  {
    inodes := inodes0;
    match items[k] {
      case SrcDir(path) =>
        e := Some(Dir(path));
        EntryAdded(inodes0, entries, e.value, items, k);
      case SrcLink(path, target) =>
        e := Some(Symlink(path, target));
        EntryAdded(inodes0, entries, e.value, items, k);
      case SrcFile(path, data, inode, links) =>
        if links > 1 && inode in inodes {
          e := Some(Hardlink(path, inodes[inode]));
          EntryAdded(inodes0, entries, e.value, items, k);
          return;
        }
        if links > 1 {
          inodes := inodes[inode := path];
        }
        var ok, size, refs := StoreFile(data, cut, max, store, Refs(entries), before);
        if !ok {
          return None, inodes;
        }
        e := Some(File(path, size, refs));
        EntryAdded(inodes0, entries, e.value, items, k);
    }
  }

  lemma {:induction false} EntryAdded(inodes: map<nat, Path>, entries: seq<Entry>, e: Entry, items: seq<Source>, k: nat)
    requires k == |entries| < |items| && Inodes(inodes, entries, items, k) && e.path == items[k].path
    requires items[k].SrcFile? ==> e.File? || (items[k].links > 1 && items[k].inode in inodes)
    ensures Refs(entries + [e]) == Refs(entries) + if e.File? then e.chunks else []
    ensures var next := if items[k].SrcFile? && items[k].links > 1 && items[k].inode !in inodes
                        then inodes[items[k].inode := e.path] else inodes;
            Inodes(next, entries + [e], items, k + 1)
    ensures items[k].SrcFile? ==> (SeenBefore(items, k) <==> items[k].links > 1 && items[k].inode in inodes)
    ensures items[k].SrcFile? && SeenBefore(items, k) ==>
              exists j :: 0 <= j < k && Linked(items, j, k) && entries[j].File? && entries[j].path == inodes[items[k].inode]
  {
    var next := entries + [e];
    assert next[..k] == entries && next[k] == e;
    forall ino | ino in inodes
      ensures exists j :: 0 <= j < k + 1 && Carries(next[j], items[j], ino, inodes[ino])
    {
      var j :| 0 <= j < k && Carries(entries[j], items[j], ino, inodes[ino]);
      assert next[j] == entries[j];
    }
    if items[k].SrcFile? && items[k].links > 1 && items[k].inode in inodes {
      var j :| 0 <= j < k && Carries(entries[j], items[j], items[k].inode, inodes[items[k].inode]);
      assert Linked(items, j, k);
    }
    if items[k].SrcFile? && items[k].links > 1 {
      assert e.File? ==> Carries(next[k], items[k], items[k].inode, e.path);
    }
  }
}
