/** The content-addressed chunk store: the trait of src/store.rs over a map, as its
    in-memory implementation keeps it. */
module Contents {
  import opened Basics

  /** A chunk as an index names it: its address and its declared length. */
  datatype ChunkRef = ChunkRef(hash: Hash, len: u32)

  type Chunks = map<Hash, Bytes>

  /** Every address holds the content it names. */
  ghost predicate Genuine(chunks: Chunks) {
    forall h :: h in chunks ==> Hash(chunks[h]) == h
  }

  ghost predicate Distinct<T>(s: seq<T>) {
    forall j, k :: 0 <= j < k < |s| ==> s[j] != s[k]
  }

  /** All the references' chunks are there. */
  ghost predicate AllStored(refs: seq<ChunkRef>, chunks: Chunks) {
    forall c :: c in refs ==> c.hash in chunks
  }

  /** Nothing is lost and nothing is overwritten with other bytes. */
  ghost predicate Grows(before: Chunks, after: Chunks) {
    forall h :: h in before ==> h in after && after[h] == before[h]
  }

  /** The contents the references name, in order. */
  ghost function Preimages(refs: seq<ChunkRef>): Bytes {
    if refs == [] then [] else Preimages(refs[..|refs| - 1]) + refs[|refs| - 1].hash.preimage
  }

  function Joined(pieces: seq<Bytes>): Bytes {
    if pieces == [] then [] else Joined(pieces[..|pieces| - 1]) + pieces[|pieces| - 1]
  }

  lemma {:induction false} PreimagesSnoc(refs: seq<ChunkRef>, c: ChunkRef)
    ensures Preimages(refs + [c]) == Preimages(refs) + c.hash.preimage
  {
    assert (refs + [c])[..|refs|] == refs;
  }

  lemma {:induction false} JoinedSnoc(pieces: seq<Bytes>, p: Bytes)
    ensures Joined(pieces + [p]) == Joined(pieces) + p
  {
    assert (pieces + [p])[..|pieces|] == pieces;
  }

  lemma {:induction false} JoinedPrefix(pieces: seq<Bytes>, n: nat)
    requires n <= |pieces|
    ensures |Joined(pieces[..n])| <= |Joined(pieces)|
  {
    if n == |pieces| {
      assert pieces[..n] == pieces;
    } else {
      JoinedPrefix(pieces[..|pieces| - 1], n);
      assert pieces[..|pieces| - 1][..n] == pieces[..n];
    }
  }

  class ContentStore {
    var chunks: Chunks
    /** How many puts have failed. */
    ghost var faults: nat

    constructor ()
      ensures chunks == map[]
    {
      chunks, faults := map[], 0;
    }

    method Has(hash: Hash) returns (present: bool)
      ensures present <==> hash in chunks
    {
      present := hash in chunks;
    }

    method Get(hash: Hash) returns (bytes: Option<Bytes>)
      ensures bytes == if hash in chunks then Some(chunks[hash]) else None
    {
      bytes := if hash in chunks then Some(chunks[hash]) else None;
    }

    /** A put may fail; it may then have landed all the same. */
    method Put(hash: Hash, bytes: Bytes) returns (ok: bool)
      modifies this
      ensures ok ==> chunks == old(chunks)[hash := bytes]
      ensures chunks == old(chunks)[hash := bytes] || chunks == old(chunks)
      ensures faults == old(faults) + if ok then 0 else 1
    {
      var lost: bool := *;
      if lost {
        faults := faults + 1;
        return false;
      }
      chunks := chunks[hash := bytes];
      ok := *;
      if !ok {
        faults := faults + 1;
      }
    }

    method Remove(hash: Hash) returns (existed: bool)
      modifies this
      ensures existed <==> hash in old(chunks)
      ensures chunks == old(chunks) - {hash}
    {
      existed := hash in chunks;
      chunks := chunks - {hash};
    }

    /** The presence of each address, in one pass. */
    method HasMany(hashes: seq<Hash>) returns (present: seq<bool>)
      ensures |present| == |hashes|
      ensures forall k :: 0 <= k < |hashes| ==> (present[k] <==> hashes[k] in chunks)
    {
      present := [];
      for k := 0 to |hashes|
        invariant |present| == k
        invariant forall j :: 0 <= j < k ==> (present[j] <==> hashes[j] in chunks)
      {
        var here := Has(hashes[k]);
        present := present + [here];
      }
    }

    /** Every address, once, in no particular order. */
    method Hashes() returns (out: seq<Hash>)
      ensures Distinct(out)
      ensures forall h :: h in out <==> h in chunks
    {
      out := [];
      var todo := chunks.Keys;
      while todo != {}
        invariant todo <= chunks.Keys && Distinct(out)
        invariant forall h :: h in out <==> h in chunks.Keys - todo
        decreases |todo|
      {
        var h :| h in todo;
        assert h !in out;
        out := out + [h];
        todo := todo - {h};
      }
    }
  }
}
