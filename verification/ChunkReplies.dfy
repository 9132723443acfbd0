/** Which replies count as chunks: the two checks of src/store_client.rs. */
module ChunkReplies {
  import opened Basics
  import opened Bits
  import opened Contents

  /** The container format's own ceiling: unframing never yields more. */
  const MAX_UNPACKED: nat := 16 * 1024 * 1024

  type Unpacked = b: Bytes | |b| <= MAX_UNPACKED

  /** A reply as it arrives: a transport error, or a sample with its encoding tag
      compared, the address its key spells (if it spells one under our prefix), the
      length of its frame and what the frame holds (if it is one). */
  datatype Reply = Failure | Sample(isChunk: bool, addr: Option<Hash>, frameLen: nat, content: Option<Unpacked>)

  datatype QueryResult = Unsent | Answered(replies: seq<Reply>)

  /** One tag byte and a 4-byte length around the declared bytes. */
  function MaxFrame(len: u32): nat {
    len + 1 + 4
  }

  /** The frame holds exactly the chunk `c`. */
  predicate Holds(reply: Reply, c: ChunkRef) {
    && reply.Sample? && reply.isChunk
    && reply.frameLen <= MaxFrame(c.len)
    && reply.content.Some?
    && |reply.content.value| % U32_SPAN == c.len
    && Hash(reply.content.value) == c.hash
  }

  // ----- a batch reply -----

  /** Whether one reply of a batch is an answer, and to which address. */
  function AcceptBatchReply(reply: Reply, expected: map<Hash, u32>): (r: Option<(Hash, Unpacked)>)
    ensures r.Some? ==>
              && reply.Sample? && reply.addr == Some(r.value.0)
              && r.value.0 in expected && Holds(reply, ChunkRef(r.value.0, expected[r.value.0]))
              && Hash(r.value.1) == r.value.0 && |r.value.1| == expected[r.value.0]
    ensures r.None? && reply.Sample? && reply.addr.Some? && reply.addr.value in expected ==>
              !Holds(reply, ChunkRef(reply.addr.value, expected[reply.addr.value]))
  {
    if reply.Failure? || !reply.isChunk || reply.addr.None? then None
    else
      var hash := reply.addr.value;
      if hash !in expected then None
      else if reply.frameLen > MaxFrame(expected[hash]) then None
      else if reply.content.None? then None
      else
        var bytes := reply.content.value;
        FitsU32(|bytes|);
        if |bytes| % U32_SPAN != expected[hash] || Hash(bytes) != hash then None
        else Some((hash, bytes))
  }

  /** What a want-list asks for: the declared length by address, the last one where
      an address is listed twice. */
  function Expected(group: seq<ChunkRef>): map<Hash, u32> {
    if group == [] then map[]
    else
      var c := group[|group| - 1];
      Expected(group[..|group| - 1])[c.hash := c.len]
  }

  lemma {:induction false} ExpectedExactly(group: seq<ChunkRef>)
    ensures forall h :: h in Expected(group) ==> ChunkRef(h, Expected(group)[h]) in group
    ensures forall c :: c in group ==> c.hash in Expected(group)
  {
    if group != [] {
      ExpectedExactly(group[..|group| - 1]);
    }
  }

  /** The addresses the first `n` replies answer. */
  ghost function AcceptedBy(replies: seq<Reply>, n: nat, expected: map<Hash, u32>): set<Hash>
    requires n <= |replies|
  {
    if n == 0 then {}
    else
      var last := AcceptBatchReply(replies[n - 1], expected);
      AcceptedBy(replies, n - 1, expected) + if last.Some? then {last.value.0} else {}
  }

  /** The addresses a list of replies answers. */
  ghost function Accepted(replies: seq<Reply>, expected: map<Hash, u32>): set<Hash> {
    AcceptedBy(replies, |replies|, expected)
  }

  /** An address is answered exactly when some reply holds what was asked for it. */
  lemma {:induction false} AcceptedExactly(replies: seq<Reply>, n: nat, expected: map<Hash, u32>, h: Hash)
    requires n <= |replies|
    ensures h in AcceptedBy(replies, n, expected) <==>
            h in expected && exists k :: 0 <= k < n && AnswersFor(replies[k], ChunkRef(h, expected[h]))
  {
    if n > 0 {
      AcceptedExactly(replies, n - 1, expected, h);
      if h in expected {
        assert AnswersFor(replies[n - 1], ChunkRef(h, expected[h])) <==>
               AcceptBatchReply(replies[n - 1], expected).Some? && AcceptBatchReply(replies[n - 1], expected).value.0 == h;
      }
    }
  }

  predicate AnswersFor(reply: Reply, c: ChunkRef) {
    Holds(reply, c) && reply.addr == Some(c.hash)
  }

  // ----- a single chunk -----

  /** Wrong, as opposed to not a chunk at all: counted, and the next one awaited. */
  predicate Rejected(reply: Reply, c: ChunkRef) {
    reply.Sample? && reply.isChunk && !Holds(reply, c)
  }

  function Rejects(replies: seq<Reply>, c: ChunkRef): nat {
    if replies == [] then 0
    else Rejects(replies[..|replies| - 1], c) + if Rejected(replies[|replies| - 1], c) then 1 else 0
  }

  /** How many wrong chunks come before the first good one. */
  function BadBefore(replies: seq<Reply>, c: ChunkRef): nat {
    if replies == [] || Holds(replies[0], c) then 0
    else BadBefore(replies[1..], c) + if Rejected(replies[0], c) then 1 else 0
  }

  function BadOf(result: QueryResult, c: ChunkRef): nat {
    if result.Unsent? then 0 else BadBefore(result.replies, c)
  }

  /** Take the first good reply; count the bad ones before it. */
  method FetchOneChunk(result: QueryResult, c: ChunkRef) returns (bytes: Option<Unpacked>, rejected: nat)
    ensures bytes.Some? ==> Hash(bytes.value) == c.hash && |bytes.value| == c.len
    ensures bytes.Some? <==> result.Answered? && exists k :: 0 <= k < |result.replies| && Holds(result.replies[k], c)
    ensures bytes.Some? ==> exists k :: 0 <= k < |result.replies| && FirstGood(result.replies, c, k, rejected)
    ensures rejected == BadOf(result, c)
  {
    rejected := 0;
    if result.Unsent? {
      return None, rejected;
    }
    var replies := result.replies;
    for k := 0 to |replies|
      invariant rejected == Rejects(replies[..k], c)
      invariant forall j :: 0 <= j < k ==> !Holds(replies[j], c)
      invariant rejected + BadBefore(replies[k..], c) == BadBefore(replies, c)
    {
      assert replies[..k + 1][..k] == replies[..k];
      assert replies[k..][1..] == replies[k + 1..];
      var reply := replies[k];
      if reply.Failure? || !reply.isChunk {
        continue;
      }
      if reply.frameLen > MaxFrame(c.len) || reply.content.None? {
        rejected := rejected + 1;
        continue;
      }
      FitsU32(|reply.content.value|);
      if |reply.content.value| % U32_SPAN != c.len || Hash(reply.content.value) != c.hash {
        rejected := rejected + 1;
        continue;
      }
      assert FirstGood(replies, c, k, rejected);
      return Some(reply.content.value), rejected;
    }
    bytes := None;
  }

  ghost predicate FirstGood(replies: seq<Reply>, c: ChunkRef, k: nat, rejected: nat)
    requires k < |replies|
  {
    && Holds(replies[k], c)
    && (forall j :: 0 <= j < k ==> !Holds(replies[j], c))
    && rejected == Rejects(replies[..k], c)
  }
}
