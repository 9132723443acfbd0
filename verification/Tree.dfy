/** Snapshots of a directory tree: their entries, and the chunks they need.
    src/tree.rs. */
module Snapshots {
  import opened Basics
  import opened Contents
  import Symlinks

  /** A path inside the tree, as the names it is made of; the root is the empty one. */
  type Path = Symlinks.Path

  type Target = seq<Symlinks.Comp>

  datatype Entry =
    | Dir(path: Path)
    | File(path: Path, size: u64, chunks: seq<ChunkRef>)
    | Symlink(path: Path, target: Target)
    | Hardlink(path: Path, source: Path)

  /** All chunk references, in entry order. */
  function Refs(entries: seq<Entry>): seq<ChunkRef> {
    if entries == [] then []
    else
      var last := entries[|entries| - 1];
      Refs(entries[..|entries| - 1]) + if last.File? then last.chunks else []
  }

  lemma RefsSnoc(entries: seq<Entry>, n: nat)
    requires n < |entries|
    ensures Refs(entries[..n + 1]) == Refs(entries[..n]) + if entries[n].File? then entries[n].chunks else []
  {
    assert entries[..n + 1][..n] == entries[..n];
  }

  lemma {:induction false} RefsOf(entries: seq<Entry>, k: nat, c: ChunkRef)
    requires k < |entries| && entries[k].File? && c in entries[k].chunks
    ensures c in Refs(entries)
  {
    if k < |entries| - 1 {
      RefsOf(entries[..|entries| - 1], k, c);
    }
  }

  // ----- the chunks a snapshot needs -----

  /** `out` lists the references' addresses once each, in order of first use. */
  ghost predicate FirstUses(out: seq<Hash>, refs: seq<ChunkRef>) {
    && Distinct(out)
    && (forall h :: h in out <==> Uses(refs, h))
    && (forall j, k :: 0 <= j < k < |out| ==> FirstUse(refs, out[j]) < FirstUse(refs, out[k]))
  }

  ghost predicate Uses(refs: seq<ChunkRef>, h: Hash) {
    exists c :: c in refs && c.hash == h
  }

  /** Where an address is first used; past the end when it is not. */
  ghost function FirstUse(refs: seq<ChunkRef>, h: Hash): nat {
    if refs == [] then 0 else if refs[0].hash == h then 0 else 1 + FirstUse(refs[1..], h)
  }

  lemma {:induction false} FirstUseSnoc(refs: seq<ChunkRef>, c: ChunkRef, h: Hash)
    ensures FirstUse(refs, h) <= |refs|
    ensures FirstUse(refs, h) < |refs| <==> Uses(refs, h)
    ensures Uses(refs, h) ==> FirstUse(refs + [c], h) == FirstUse(refs, h)
    ensures !Uses(refs, h) && c.hash == h ==> FirstUse(refs + [c], h) == |refs|
    ensures Uses(refs + [c], h) <==> Uses(refs, h) || c.hash == h
  {
    if refs != [] {
      assert (refs + [c])[1..] == refs[1..] + [c];
      FirstUseSnoc(refs[1..], c, h);
      if d :| d in refs && d.hash == h {
        assert d == refs[0] || d in refs[1..];
      }
    }
    assert c in refs + [c];
    if d :| d in refs && d.hash == h {
      assert d in refs + [c];
    }
  }

  lemma FirstUsesKept(out: seq<Hash>, refs: seq<ChunkRef>, c: ChunkRef)
    requires FirstUses(out, refs)
    ensures c.hash in out ==> FirstUses(out, refs + [c])
    ensures c.hash !in out ==> FirstUses(out + [c.hash], refs + [c])
  {
    var now := if c.hash in out then out else out + [c.hash];
    forall h
      ensures h in now <==> Uses(refs + [c], h)
    {
      FirstUseSnoc(refs, c, h);
    }
    forall j, k | 0 <= j < k < |now|
      ensures FirstUse(refs + [c], now[j]) < FirstUse(refs + [c], now[k])
    {
      assert now[j] == out[j];
      assert out[j] in out;
      FirstUseSnoc(refs, c, now[j]);
      FirstUseSnoc(refs, c, now[k]);
      assert k < |out| ==> now[k] == out[k] && out[k] in out;
    }
  }

  /** All distinct chunk hashes the file entries reference. */
  method NeededChunks(entries: seq<Entry>) returns (out: seq<Hash>)
    ensures FirstUses(out, Refs(entries))
  {
    var seen: set<Hash> := {};
    out := [];
    ghost var refs: seq<ChunkRef> := [];
    for i := 0 to |entries|
      invariant refs == Refs(entries[..i]) && Seen(seen, out, refs)
    {
      RefsSnoc(entries, i);
      if entries[i].File? {
        seen, out := SeeFile(seen, out, entries[i].chunks, refs);
        refs := refs + entries[i].chunks;
      }
    }
    assert entries[..|entries|] == entries;
  }

  ghost predicate Seen(seen: set<Hash>, out: seq<Hash>, refs: seq<ChunkRef>) {
    && FirstUses(out, refs)
    && forall h :: h in seen <==> h in out
  }

  /** One file's references: the unseen ones are appended. */
  method SeeFile(seen0: set<Hash>, out0: seq<Hash>, chunks: seq<ChunkRef>, ghost refs: seq<ChunkRef>)
    returns (seen: set<Hash>, out: seq<Hash>)
    requires Seen(seen0, out0, refs)
    ensures Seen(seen, out, refs + chunks)
  {
    seen, out := seen0, out0;
    assert refs + chunks[..0] == refs;
    for j := 0 to |chunks|
      invariant Seen(seen, out, refs + chunks[..j])
    {
      FirstUsesKept(out, refs + chunks[..j], chunks[j]);
      assert refs + chunks[..j + 1] == refs + chunks[..j] + [chunks[j]];
      if chunks[j].hash !in seen {
        seen := seen + {chunks[j].hash};
        out := out + [chunks[j].hash];
      }
    }
    assert chunks[..|chunks|] == chunks;
  }

  /** The addresses of a list of references. */
  function HashesOf(refs: seq<ChunkRef>): (hs: seq<Hash>)
    ensures |hs| == |refs| && forall k :: 0 <= k < |hs| ==> hs[k] == refs[k].hash
  {
    if refs == [] then [] else HashesOf(refs[..|refs| - 1]) + [refs[|refs| - 1].hash]
  }

  /** `lens` gives each used address the largest length any reference declares. */
  ghost predicate LargestLens(lens: map<Hash, u32>, refs: seq<ChunkRef>) {
    && (forall c :: c in refs ==> c.hash in lens && c.len <= lens[c.hash])
    && (forall h :: h in lens ==> ChunkRef(h, lens[h]) in refs)
  }

  /** All distinct references; where two disagree about a length, the larger. */
  method NeededChunkRefs(entries: seq<Entry>) returns (out: seq<ChunkRef>)
    ensures FirstUses(HashesOf(out), Refs(entries))
    ensures forall c :: c in out ==> c in Refs(entries)
    ensures forall c, d :: c in out && d in Refs(entries) && d.hash == c.hash ==> d.len <= c.len
  {
    var index: map<Hash, u32> := map[];
    var order: seq<Hash> := [];
    ghost var refs: seq<ChunkRef> := [];
    for i := 0 to |entries|
      invariant refs == Refs(entries[..i]) && Indexed(index, order, refs)
    {
      RefsSnoc(entries, i);
      if entries[i].File? {
        index, order := IndexFile(index, order, entries[i].chunks, refs);
        refs := refs + entries[i].chunks;
      }
    }
    assert entries[..|entries|] == entries;
    out := [];
    for k := 0 to |order|
      invariant |out| == k && forall j :: 0 <= j < k ==>
        out[j].hash == order[j] && order[j] in index && out[j].len == index[order[j]] && out[j] in refs
    {
      UsedIsIndexed(index, order, refs, k);
      out := out + [ChunkRef(order[k], index[order[k]])];
    }
    assert HashesOf(out) == order;
  }

  ghost predicate Indexed(index: map<Hash, u32>, order: seq<Hash>, refs: seq<ChunkRef>) {
    LargestLens(index, refs) && FirstUses(order, refs)
  }

  lemma UsedIsIndexed(index: map<Hash, u32>, order: seq<Hash>, refs: seq<ChunkRef>, k: nat)
    requires Indexed(index, order, refs) && k < |order|
    ensures order[k] in index && ChunkRef(order[k], index[order[k]]) in refs
  {
    assert order[k] in order;
  }

  /** One file's references into the index. */
  method IndexFile(index0: map<Hash, u32>, order0: seq<Hash>, chunks: seq<ChunkRef>, ghost refs: seq<ChunkRef>)
    returns (index: map<Hash, u32>, order: seq<Hash>)
    requires Indexed(index0, order0, refs)
    ensures Indexed(index, order, refs + chunks)
  {
    index, order := index0, order0;
    assert refs + chunks[..0] == refs;
    for j := 0 to |chunks|
      invariant Indexed(index, order, refs + chunks[..j])
    {
      var c := chunks[j];
      ghost var upto := refs + chunks[..j];
      FirstUsesKept(order, upto, c);
      assert refs + chunks[..j + 1] == upto + [c];
      IndexedSame(index, order, upto, c);
      if c.hash in index {
        if index[c.hash] < c.len {
          index := index[c.hash := c.len];
        }
      } else {
        index := index[c.hash := c.len];
        order := order + [c.hash];
      }
    }
    assert chunks[..|chunks|] == chunks;
  }

  lemma IndexedSame(index: map<Hash, u32>, order: seq<Hash>, refs: seq<ChunkRef>, c: ChunkRef)
    requires Indexed(index, order, refs)
    ensures c.hash in index <==> c.hash in order
  {
    if c.hash in index {
      assert ChunkRef(c.hash, index[c.hash]) in refs;
    }
  }
}
