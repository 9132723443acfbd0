/** Verified slices, seen through their contract: src/verify.rs. The tree-hash
    format itself is not modelled; a payload either proves a range or it does not. */
module Slices {
  import opened Basics
  import opened Geometry

  /** Decoded bytes and where they belong in the blob. */
  datatype Leaf = Leaf(offset: nat, data: Bytes)

  /** What arrives as a slice: a proof about some content, or anything else. */
  datatype Payload = Junk | Proof(content: Bytes, units: UnitSpan)

  function EncodeSlice(blob: Bytes, units: UnitSpan): Payload {
    Proof(blob, units)
  }

  /** The leaves are consecutive pieces of `blob` covering exactly `[start, end)`. */
  ghost predicate Pieces(leaves: seq<Leaf>, blob: Bytes, start: nat, end: nat) {
    if leaves == [] then start == end
    else
      var next := start + |leaves[0].data|;
      && leaves[0].offset == start
      && next <= end <= |blob|
      && leaves[0].data == blob[start..next]
      && Pieces(leaves[1..], blob, next, end)
  }

  /** The honest encoding of a range that lies inside the blob. */
  ghost predicate Genuine(root: Hash, totalLen: nat, units: UnitSpan, payload: Payload) {
    && payload == EncodeSlice(root.preimage, units)
    && totalLen == |root.preimage|
    && units.start * KIB <= Min(units.end * KIB, totalLen)
  }

  /** The range lies inside the blob; one that reaches the stated end fixes the blob's
      length, an earlier one does not. */
  ghost predicate Reaches(root: Hash, totalLen: nat, end: nat) {
    end <= |root.preimage| && (end == totalLen ==> totalLen == |root.preimage|)
  }

  /** Decode against a pinned root. Sound: success hands over exactly the bytes of
      the range of the one blob with that root, whose length the final chunk alone
      proves. Complete: a genuine encoding decodes. Nothing else is known about it. */
  method DecodeSlice(root: Hash, totalLen: nat, units: UnitSpan, payload: Payload)
    returns (r: Option<seq<Leaf>>)
    ensures r.Some? ==>
              && units.start * KIB <= Min(units.end * KIB, totalLen)
              && Reaches(root, totalLen, Min(units.end * KIB, totalLen))
              && Pieces(r.value, root.preimage, units.start * KIB, Min(units.end * KIB, totalLen))
    ensures Genuine(root, totalLen, units, payload) ==> r.Some?
  {
    if payload.Junk? || Hash(payload.content) != root || payload.units != units {
      return None;
    }
    var start, end := units.start * KIB, Min(units.end * KIB, totalLen);
    if start > end || end > |payload.content| {
      return None;
    }
    if |payload.content| != totalLen {
      // A wrong length shows at the final chunk; before it, it may or may not.
      var noticed: bool := *;
      if end == totalLen || noticed {
        return None;
      }
    }
    return Some(Grouped(payload.content, start, end));
  }

  /** One leaf per verification group. */
  function Grouped(blob: Bytes, start: nat, end: nat): (leaves: seq<Leaf>)
    requires start <= end <= |blob|
    ensures Pieces(leaves, blob, start, end)
    decreases end - start
  {
    if start == end then []
    else
      var next := Min(start + GROUP_SIZE, end);
      [Leaf(start, blob[start..next])] + Grouped(blob, next, end)
  }
}
