/** What a fetch's batch rounds answer, leave and count, as functions of the replies:
    the exact value of the counter `fetch_missing` of src/tree.rs ends with. */
module FetchCounts {
  import opened Basics
  import opened Bits
  import opened Contents
  import opened Snapshots
  import opened ChunkReplies
  import opened FetchBooks

  /** Any network: what the n-th query for a batch of addresses brings back. */
  type BatchNetwork = (nat, seq<Hash>) -> QueryResult

  /** Every round always brings something back. */
  ghost predicate Answering(net: BatchNetwork) {
    forall n, hashes :: net(n, hashes).Answered?
  }

  /** What the store does not have, in order. */
  function Missing(needed: seq<ChunkRef>, chunks: Chunks): seq<ChunkRef> {
    if needed == [] then []
    else
      var c := needed[|needed| - 1];
      Missing(needed[..|needed| - 1], chunks) + if c.hash in chunks then [] else [c]
  }

  lemma {:induction false} MissingExactly(needed: seq<ChunkRef>, chunks: Chunks)
    ensures forall c :: c in Missing(needed, chunks) <==> c in needed && c.hash !in chunks
    ensures |Missing(needed, chunks)| <= |needed|
    ensures DistinctHashes(needed) ==> DistinctHashes(Missing(needed, chunks))
  {
    hide Missing, DistinctHashes;
    forall c
      ensures c in Missing(needed, chunks) <==> c in needed && c.hash !in chunks
    {
      IsMissing(needed, chunks, c);
    }
    if DistinctHashes(needed) {
      MissingDistinct(needed, chunks);
    }
    MissingSize(needed, chunks);
  }

  lemma {:induction false} IsMissing(needed: seq<ChunkRef>, chunks: Chunks, c: ChunkRef)
    ensures c in Missing(needed, chunks) <==> c in needed && c.hash !in chunks
  {
    if needed != [] {
      IsMissing(needed[..|needed| - 1], chunks, c);
      assert needed == needed[..|needed| - 1] + [needed[|needed| - 1]];
    }
  }

  lemma {:induction false} MissingSize(needed: seq<ChunkRef>, chunks: Chunks)
    ensures |Missing(needed, chunks)| <= |needed|
  {
    if needed != [] {
      MissingSize(needed[..|needed| - 1], chunks);
    }
  }

  lemma {:induction false} MissingDistinct(needed: seq<ChunkRef>, chunks: Chunks)
    requires DistinctHashes(needed)
    ensures DistinctHashes(Missing(needed, chunks))
  {
    if needed != [] {
      var front, last := needed[..|needed| - 1], needed[|needed| - 1];
      MissingDistinct(front, chunks);
      var u := Missing(front, chunks);
      forall k | 0 <= k < |u|
        ensures u[k].hash != last.hash
      {
        IsMissing(front, chunks, u[k]);
        assert u[k] in u;
      }
    }
  }

  /** The addresses of a group that its round answers. */
  ghost function AnsweredBy(net: BatchNetwork, n: nat, group: seq<ChunkRef>): set<Hash> {
    var result := net(n, HashesOf(group));
    if result.Unsent? then {} else Accepted(result.replies, Expected(group))
  }

  /** A list cut into groups of `size`, the last one as long as is left. */
  function Groups(refs: seq<ChunkRef>, size: nat): seq<seq<ChunkRef>>
    requires size > 0
  {
    if refs == [] then []
    else
      var n := Min(size, |refs|);
      [refs[..n]] + Groups(refs[n..], size)
  }

  /** The first `i` groups, joined. */
  ghost function Flat(groups: seq<seq<ChunkRef>>, i: nat): seq<ChunkRef>
    requires i <= |groups|
  {
    if i == 0 then [] else Flat(groups, i - 1) + groups[i - 1]
  }

  lemma FlatCons(g: seq<ChunkRef>, groups: seq<seq<ChunkRef>>, i: nat)
    requires i <= |groups|
    ensures Flat([g] + groups, i + 1) == g + Flat(groups, i)
  {
    if i > 0 {
      FlatCons(g, groups, i - 1);
      assert ([g] + groups)[i] == groups[i - 1];
      assert (g + Flat(groups, i - 1)) + groups[i - 1] == g + Flat(groups, i);
    } else {
      assert Flat([g] + groups, 0) == [] && [] + g == g + [];
    }
  }

  /** The groups are the whole list, as many as the quotient rounded up. */
  lemma {:induction false} GroupsFlat(refs: seq<ChunkRef>, size: nat)
    requires size > 0
    ensures Flat(Groups(refs, size), |Groups(refs, size)|) == refs
    ensures |Groups(refs, size)| == DivCeil(|refs|, size)
    decreases |refs|
  {
    if refs != [] {
      var n := Min(size, |refs|);
      GroupsFlat(refs[n..], size);
      FlatCons(refs[..n], Groups(refs[n..], size), |Groups(refs[n..], size)|);
      assert refs[..n] + refs[n..] == refs;
      DivCeilStep(|refs|, size);
    }
  }

  lemma {:induction false} GroupOfFlat(groups: seq<seq<ChunkRef>>, i: nat, k: nat, c: ChunkRef)
    requires k < i <= |groups| && c in groups[k]
    ensures c in Flat(groups, i)
  {
    if k < i - 1 {
      GroupOfFlat(groups, i - 1, k, c);
    }
  }

  /** What each round answers; query `first` is the first one. */
  ghost function RoundsAnswer(groups: seq<seq<ChunkRef>>, net: BatchNetwork, first: nat): (answered: seq<set<Hash>>)
    ensures |answered| == |groups|
  {
    if groups == [] then []
    else
      var last := |groups| - 1;
      RoundsAnswer(groups[..last], net, first) + [AnsweredBy(net, first + last, groups[last])]
  }

  lemma {:induction false} AnsweredAt(groups: seq<seq<ChunkRef>>, net: BatchNetwork, first: nat, k: nat, n: nat)
    requires k < |groups| && n == first + k
    ensures RoundsAnswer(groups, net, first)[k] == AnsweredBy(net, n, groups[k])
  {
    if k < |groups| - 1 {
      AnsweredAt(groups[..|groups| - 1], net, first, k, n);
    }
  }

  /** What the first `i` rounds leave when each answers its set. */
  ghost function LeftUpTo(groups: seq<seq<ChunkRef>>, answered: seq<set<Hash>>, i: nat): seq<ChunkRef>
    requires i <= |groups| == |answered|
  {
    if i == 0 then [] else LeftUpTo(groups, answered, i - 1) + Unanswered(groups[i - 1], answered[i - 1])
  }

  /** How many chunks they count. */
  ghost function CountUpTo(answered: seq<set<Hash>>, i: nat): nat
    requires i <= |answered|
  {
    if i == 0 then 0 else CountUpTo(answered, i - 1) + |answered[i - 1]|
  }

  /** All rounds of a fetch; a batch size of 0 turns them off. */
  ghost function RoundsLeave(missing: seq<ChunkRef>, size: nat, net: BatchNetwork): seq<ChunkRef> {
    if size == 0 then missing
    else
      var groups := Groups(missing, size);
      LeftUpTo(groups, RoundsAnswer(groups, net, 1), |groups|)
  }

  ghost function RoundsCount(missing: seq<ChunkRef>, size: nat, net: BatchNetwork): nat {
    if size == 0 then 0
    else
      var groups := Groups(missing, size);
      CountUpTo(RoundsAnswer(groups, net, 1), |groups|)
  }

  lemma NothingToAsk(missing: seq<ChunkRef>, size: nat, net: BatchNetwork)
    ensures missing == [] || size == 0 ==> RoundsLeave(missing, size, net) == missing && RoundsCount(missing, size, net) == 0
  {
  }

  /** The counter a successful fetch ends with: what was present, what the rounds
      counted, and one for each chunk they left. */
  ghost function FinalCount(needed: seq<ChunkRef>, before: Chunks, size: nat, net: BatchNetwork): int {
    var missing := Missing(needed, before);
    |needed| - |missing| + RoundsCount(missing, size, net) + |RoundsLeave(missing, size, net)|
  }

  // ----- when the counter is the total -----

  /** Some reply can be the chunk asked for: the declared length is the content's, and
      a frame can hold it. */
  ghost predicate Answerable(group: seq<ChunkRef>, h: Hash) {
    h in Expected(group) && |h.preimage| == Expected(group)[h] <= MAX_UNPACKED
  }

  /** No address is listed twice that a round could answer. */
  ghost predicate GroupCounts(group: seq<ChunkRef>) {
    forall j, k :: 0 <= j < k < |group| && group[j].hash == group[k].hash ==>
      !Answerable(group, group[j].hash)
  }

  /** No group of the list does. */
  ghost predicate GroupsCount(missing: seq<ChunkRef>, size: nat) {
    size > 0 ==> forall g :: g in Groups(missing, size) ==> GroupCounts(g)
  }

  lemma {:induction false} AnsweredInGroup(net: BatchNetwork, n: nat, group: seq<ChunkRef>, h: Hash)
    requires h in AnsweredBy(net, n, group)
    ensures Answerable(group, h) && h in HashSet(group)
  {
    var replies, expected := net(n, HashesOf(group)).replies, Expected(group);
    AcceptedExactly(replies, |replies|, expected, h);
    var k :| 0 <= k < |replies| && AnswersFor(replies[k], ChunkRef(h, expected[h]));
    FitsU32(|replies[k].content.value|);
    HashSetIs(group, h);
    ExpectedExactly(group);
  }

  lemma CountingGroup(net: BatchNetwork, n: nat, group: seq<ChunkRef>)
    requires GroupCounts(group)
    ensures NoRepeats(group, AnsweredBy(net, n, group))
  {
    forall j, k | 0 <= j < k < |group| && group[j].hash == group[k].hash
      ensures group[j].hash !in AnsweredBy(net, n, group)
    {
      if group[j].hash in AnsweredBy(net, n, group) {
        AnsweredInGroup(net, n, group, group[j].hash);
      }
    }
  }

  /** Rounds that answer only what they are asked never count more than is listed, and
      count all of it exactly if no answered address repeats in its group. */
  lemma {:induction false} RoundsTally(groups: seq<seq<ChunkRef>>, answered: seq<set<Hash>>, i: nat)
    requires i <= |groups| == |answered|
    requires forall k :: 0 <= k < |groups| ==> answered[k] <= HashSet(groups[k])
    ensures CountUpTo(answered, i) + |LeftUpTo(groups, answered, i)| <= |Flat(groups, i)|
    ensures CountUpTo(answered, i) + |LeftUpTo(groups, answered, i)| == |Flat(groups, i)| <==>
            forall k :: 0 <= k < i ==> NoRepeats(groups[k], answered[k])
  {
    if i > 0 {
      RoundsTally(groups, answered, i - 1);
      UnansweredSize(groups[i - 1], answered[i - 1]);
      assert answered[i - 1] * HashSet(groups[i - 1]) == answered[i - 1];
    }
  }

  lemma {:induction false} AnsweredAreAsked(groups: seq<seq<ChunkRef>>, net: BatchNetwork, first: nat, k: nat)
    requires k < |groups|
    ensures RoundsAnswer(groups, net, first)[k] <= HashSet(groups[k])
  {
    AnsweredAt(groups, net, first, k, first + k);
    forall h | h in AnsweredBy(net, first + k, groups[k])
      ensures h in HashSet(groups[k])
    {
      AnsweredInGroup(net, first + k, groups[k], h);
    }
  }

  /** The groups of a fetch over the network `net`, and what their rounds answer. */
  ghost predicate Fetches(needed: seq<ChunkRef>, before: Chunks, size: nat, net: BatchNetwork,
                          groups: seq<seq<ChunkRef>>, answered: seq<set<Hash>>)
    requires size > 0
  {
    groups == Groups(Missing(needed, before), size) && answered == RoundsAnswer(groups, net, 1)
  }

  /** With the given replies the counter ends at the total exactly if no answered
      address repeats in its group. */
  lemma CountOf(needed: seq<ChunkRef>, before: Chunks, size: nat, net: BatchNetwork,
                groups: seq<seq<ChunkRef>>, answered: seq<set<Hash>>)
    requires size > 0 && Fetches(needed, before, size, net, groups, answered)
    ensures FinalCount(needed, before, size, net) == |needed| <==>
            forall k :: 0 <= k < |groups| ==> NoRepeats(groups[k], answered[k])
  {
    GroupsFlat(Missing(needed, before), size);
    AllAsked(groups, net, answered);
    RoundsTally(groups, answered, |groups|);
  }

  lemma {:induction false} AllAsked(groups: seq<seq<ChunkRef>>, net: BatchNetwork, answered: seq<set<Hash>>)
    requires answered == RoundsAnswer(groups, net, 1)
    ensures forall k :: 0 <= k < |groups| ==> answered[k] <= HashSet(groups[k])
  {
    forall k | 0 <= k < |groups|
      ensures answered[k] <= HashSet(groups[k])
    {
      AnsweredAreAsked(groups, net, 1, k);
    }
  }

  // ----- an honest holder of everything -----

  /** The reply of a holder of the chunk with this address. */
  ghost function HonestReply(h: Hash): Reply {
    Sample(true, Some(h), |h.preimage|, if |h.preimage| <= MAX_UNPACKED then Some(h.preimage) else None)
  }

  ghost function HonestReplies(hashes: seq<Hash>): (replies: seq<Reply>)
    ensures |replies| == |hashes| && forall k :: 0 <= k < |hashes| ==> replies[k] == HonestReply(hashes[k])
  {
    seq(|hashes|, k requires 0 <= k < |hashes| => HonestReply(hashes[k]))
  }

  ghost function HonestNet(): BatchNetwork {
    (n: nat, hashes: seq<Hash>) => Answered(HonestReplies(hashes))
  }

  /** It answers every address that can be answered. */
  lemma HonestAnswers(n: nat, group: seq<ChunkRef>, k: nat)
    requires k < |group| && Answerable(group, group[k].hash)
    ensures group[k].hash in AnsweredBy(HonestNet(), n, group)
  {
    var h, replies := group[k].hash, HonestReplies(HashesOf(group));
    FitsU32(|h.preimage|);
    assert replies[k] == HonestReply(h);
    assert AnswersFor(replies[k], ChunkRef(h, Expected(group)[h]));
    AcceptedExactly(replies, |replies|, Expected(group), h);
  }

  lemma HonestRepeats(group: seq<ChunkRef>, n: nat)
    requires !GroupCounts(group)
    ensures !NoRepeats(group, AnsweredBy(HonestNet(), n, group))
  {
    var j, k :| 0 <= j < k < |group| && group[j].hash == group[k].hash &&
                Answerable(group, group[j].hash);
    HonestAnswers(n, group, j);
  }

  /** The counter ends at the total for all replies if and only if no group of the
      missing list repeats an address that can be answered. */
  lemma {:induction false} CountsExactly(needed: seq<ChunkRef>, before: Chunks, size: nat)
    ensures (forall net: BatchNetwork :: FinalCount(needed, before, size, net) == |needed|) <==>
            GroupsCount(Missing(needed, before), size)
  {
    if size > 0 {
      var groups := Groups(Missing(needed, before), size);
      if GroupsCount(Missing(needed, before), size) {
        forall net: BatchNetwork
          ensures FinalCount(needed, before, size, net) == |needed|
        {
          var answered := RoundsAnswer(groups, net, 1);
          AllCount(groups, net, answered);
          CountOf(needed, before, size, net, groups, answered);
        }
      } else {
        var k :| 0 <= k < |groups| && !GroupCounts(groups[k]);
        var answered := RoundsAnswer(groups, HonestNet(), 1);
        AnsweredAt(groups, HonestNet(), 1, k, 1 + k);
        HonestRepeats(groups[k], 1 + k);
        assert !NoRepeats(groups[k], answered[k]);
        CountOf(needed, before, size, HonestNet(), groups, answered);
        assert FinalCount(needed, before, size, HonestNet()) != |needed|;
      }
    }
  }

  lemma {:induction false} AllCount(groups: seq<seq<ChunkRef>>, net: BatchNetwork, answered: seq<set<Hash>>)
    requires answered == RoundsAnswer(groups, net, 1) && forall g :: g in groups ==> GroupCounts(g)
    ensures forall k :: 0 <= k < |groups| ==> NoRepeats(groups[k], answered[k])
  {
    forall k | 0 <= k < |groups|
      ensures NoRepeats(groups[k], answered[k])
    {
      AnsweredAt(groups, net, 1, k, 1 + k);
      CountingGroup(net, 1 + k, groups[k]);
    }
  }

  /** Every declared length is its chunk's, and no chunk exceeds a frame: what every
      index that was built declares. */
  ghost predicate TrueRefs(refs: seq<ChunkRef>) {
    forall c :: c in refs ==> |c.hash.preimage| == c.len <= MAX_UNPACKED
  }

  /** No group of `size` consecutive references repeats an address. */
  ghost predicate GroupsDistinct(missing: seq<ChunkRef>, size: nat) {
    size > 0 ==> forall g :: g in Groups(missing, size) ==> DistinctHashes(g)
  }

  lemma TrueGroup(group: seq<ChunkRef>)
    requires TrueRefs(group)
    ensures GroupCounts(group) <==> DistinctHashes(group)
  {
    forall k | 0 <= k < |group|
      ensures Answerable(group, group[k].hash)
    {
      ExpectedExactly(group);
      assert group[k] in group;
    }
    if !DistinctHashes(group) {
      var j, k :| 0 <= j < k < |group| && group[j].hash == group[k].hash;
      assert Answerable(group, group[j].hash);
    }
  }

  /** For references with true lengths the condition is one a caller can see: no group
      of the missing list repeats an address. */
  lemma {:induction false} CountsExactlyOnTrueRefs(needed: seq<ChunkRef>, before: Chunks, size: nat)
    requires TrueRefs(needed)
    ensures (forall net: BatchNetwork :: FinalCount(needed, before, size, net) == |needed|) <==>
            GroupsDistinct(Missing(needed, before), size)
  {
    var missing := Missing(needed, before);
    CountsExactly(needed, before, size);
    MissingExactly(needed, before);
    if size > 0 {
      var groups := Groups(missing, size);
      GroupsFlat(missing, size);
      forall k | 0 <= k < |groups|
        ensures GroupCounts(groups[k]) <==> DistinctHashes(groups[k])
      {
        forall c | c in groups[k]
          ensures c in missing
        {
          GroupOfFlat(groups, |groups|, k, c);
        }
        TrueGroup(groups[k]);
      }
    }
  }

  /** The smallest failing input: a chunk listed twice in one group and answered. It
      counts once, while in two groups it counts twice. */
  lemma RepeatedChunkCountsOnce(c: ChunkRef)
    requires |c.hash.preimage| == c.len <= MAX_UNPACKED
    ensures FinalCount([c, c], map[], 2, HonestNet()) == 1
    ensures FinalCount([c, c], map[], 1, HonestNet()) == 2
  {
    TogetherOnce(c);
    ApartTwice(c);
  }

  lemma TogetherOnce(c: ChunkRef)
    requires |c.hash.preimage| == c.len <= MAX_UNPACKED
    ensures FinalCount([c, c], map[], 2, HonestNet()) == 1
  {
    hide HonestNet, Groups, LeftUpTo, CountUpTo, RoundsAnswer, Missing, Unanswered, AnsweredBy;
    TwoMissing(c);
    TwoGrouped(c);
    OneRound([c, c], c, 1);
    RoundsOf([[c, c]], [1]);
  }

  lemma ApartTwice(c: ChunkRef)
    requires |c.hash.preimage| == c.len <= MAX_UNPACKED
    ensures FinalCount([c, c], map[], 1, HonestNet()) == 2
  {
    hide HonestNet, Groups, LeftUpTo, CountUpTo, RoundsAnswer, Missing, Unanswered, AnsweredBy;
    TwoMissing(c);
    TwoGrouped(c);
    OneRound([c], c, 1);
    OneRound([c], c, 2);
    RoundsOf([[c], [c]], [1, 1]);
  }

  /** Rounds that leave nothing and count the given numbers. */
  lemma {:induction false} RoundsOf(groups: seq<seq<ChunkRef>>, counts: seq<nat>)
    requires 1 <= |groups| == |counts| <= 2
    requires forall k :: 0 <= k < |groups| ==>
               && Unanswered(groups[k], AnsweredBy(HonestNet(), 1 + k, groups[k])) == []
               && |AnsweredBy(HonestNet(), 1 + k, groups[k])| == counts[k]
    ensures var answered := RoundsAnswer(groups, HonestNet(), 1);
            && LeftUpTo(groups, answered, |groups|) == []
            && CountUpTo(answered, |groups|) == counts[0] + if |groups| == 2 then counts[1] else 0
  {
    hide HonestNet, Unanswered, AnsweredBy, RoundsAnswer;
    var answered := RoundsAnswer(groups, HonestNet(), 1);
    forall k | 0 <= k < |groups|
      ensures answered[k] == AnsweredBy(HonestNet(), 1 + k, groups[k])
    {
      AnsweredAt(groups, HonestNet(), 1, k, 1 + k);
    }
    assert LeftUpTo(groups, answered, 1) == [] + [] && CountUpTo(answered, 1) == counts[0];
    if |groups| == 2 {
      assert LeftUpTo(groups, answered, 2) == [] + [] && CountUpTo(answered, 2) == counts[0] + counts[1];
    }
  }

  lemma TwoGrouped(c: ChunkRef)
    ensures Groups([c, c], 2) == [[c, c]] && Groups([c, c], 1) == [[c], [c]]
  {
    var two := [c, c];
    assert two[..2] == two && two[2..] == [] && two[..1] == [c] && two[1..] == [c];
    assert Groups([c], 1) == [[c]] by {
      assert [c][..1] == [c] && [c][1..] == [];
    }
    assert [[c, c]] + [] == [[c, c]] && [[c]] + [[c]] == [[c], [c]];
  }

  lemma TwoMissing(c: ChunkRef)
    ensures Missing([c, c], map[]) == [c, c]
  {
    assert [c, c][..1] == [c] && [c][..0] == [];
    assert Missing([c], map[]) == [c];
  }

  lemma {:induction false} OneRound(group: seq<ChunkRef>, c: ChunkRef, n: nat)
    requires |c.hash.preimage| == c.len <= MAX_UNPACKED && group != []
    requires forall k :: 0 <= k < |group| ==> group[k] == c
    ensures |AnsweredBy(HonestNet(), n, group)| == 1
    ensures Unanswered(group, AnsweredBy(HonestNet(), n, group)) == []
  {
    AnsweredOnce(group, c, n);
  }

  lemma {:induction false} AnsweredOnce(group: seq<ChunkRef>, c: ChunkRef, n: nat)
    requires |c.hash.preimage| == c.len <= MAX_UNPACKED && group != []
    requires forall k :: 0 <= k < |group| ==> group[k] == c
    ensures AnsweredBy(HonestNet(), n, group) == {c.hash}
    ensures Unanswered(group, {c.hash}) == []
  {
    ExpectedExactly(group);
    assert group[0] in group;
    HonestAnswers(n, group, 0);
    forall h | h in AnsweredBy(HonestNet(), n, group)
      ensures h == c.hash
    {
      AnsweredInGroup(HonestNet(), n, group, h);
    }
    UnansweredExactly(group, {c.hash});
    var left := Unanswered(group, {c.hash});
    if left != [] {
      HasMember(left);
    }
  }

  lemma HasMember(refs: seq<ChunkRef>)
    requires refs != []
    ensures exists c :: c in refs
  {
    assert refs[0] in refs;
  }

  /** The k-th round answers everything in its group. */
  ghost predicate GroupDone(groups: seq<seq<ChunkRef>>, net: BatchNetwork, k: nat)
    requires k < |groups|
  {
    forall c :: c in groups[k] ==> c.hash in AnsweredBy(net, 1 + k, groups[k])
  }

  ghost predicate AllDone(groups: seq<seq<ChunkRef>>, net: BatchNetwork) {
    forall k :: 0 <= k < |groups| ==> GroupDone(groups, net, k)
  }

  /** Nothing is left to the single fetches if and only if every round answers
      everything it asks for. */
  lemma {:induction false} NothingLeftExactly(missing: seq<ChunkRef>, size: nat, net: BatchNetwork)
    requires size > 0
    ensures RoundsLeave(missing, size, net) == [] <==> AllDone(Groups(missing, size), net)
  {
    hide AllDone, LeftUpTo, RoundsAnswer, Groups;
    AllLeftExactly(Groups(missing, size), net);
  }

  lemma {:induction false} AllLeftExactly(groups: seq<seq<ChunkRef>>, net: BatchNetwork)
    ensures LeftUpTo(groups, RoundsAnswer(groups, net, 1), |groups|) == [] <==> AllDone(groups, net)
  {
    hide GroupDone, LeftUpTo, RoundsAnswer;
    LeftExactly(groups, net, |groups|);
  }

  lemma {:induction false} LeftExactly(groups: seq<seq<ChunkRef>>, net: BatchNetwork, i: nat)
    requires i <= |groups|
    ensures LeftUpTo(groups, RoundsAnswer(groups, net, 1), i) == [] <==>
            forall k :: 0 <= k < i ==> GroupDone(groups, net, k)
  {
    hide GroupDone, Unanswered, AnsweredBy;
    if i > 0 {
      LeftExactly(groups, net, i - 1);
      RoundLeft(groups, net, i - 1);
    }
  }

  lemma {:induction false} RoundLeft(groups: seq<seq<ChunkRef>>, net: BatchNetwork, k: nat)
    requires k < |groups|
    ensures Unanswered(groups[k], RoundsAnswer(groups, net, 1)[k]) == [] <==> GroupDone(groups, net, k)
  {
    AnsweredAt(groups, net, 1, k, 1 + k);
    NoneUnanswered(groups[k], RoundsAnswer(groups, net, 1)[k]);
  }

  lemma {:induction false} NoneUnanswered(group: seq<ChunkRef>, arrived: set<Hash>)
    ensures Unanswered(group, arrived) == [] <==> forall c :: c in group ==> c.hash in arrived
  {
    UnansweredExactly(group, arrived);
    if Unanswered(group, arrived) != [] {
      HasMember(Unanswered(group, arrived));
    }
  }

  /** A fetch from an honest holder of everything needed leaves nothing to the single
      queries. */
  lemma {:induction false} HonestHolderSuffices(needed: seq<ChunkRef>, before: Chunks, size: nat)
    requires size > 0 && TrueRefs(needed)
    ensures RoundsLeave(Missing(needed, before), size, HonestNet()) == []
  {
    var missing := Missing(needed, before);
    MissingExactly(needed, before);
    var groups := Groups(missing, size);
    GroupsFlat(missing, size);
    forall k | 0 <= k < |groups|
      ensures GroupDone(groups, HonestNet(), k)
    {
      forall c | c in groups[k]
        ensures c in missing
      {
        GroupOfFlat(groups, |groups|, k, c);
      }
      GroupAnswered(groups[k], 1 + k);
    }
    NothingLeftExactly(missing, size, HonestNet());
  }

  lemma GroupAnswered(group: seq<ChunkRef>, n: nat)
    requires TrueRefs(group)
    ensures forall c :: c in group ==> c.hash in AnsweredBy(HonestNet(), n, group)
  {
    forall k | 0 <= k < |group|
      ensures group[k].hash in AnsweredBy(HonestNet(), n, group)
    {
      ExpectedExactly(group);
      assert group[k] in group;
      HonestAnswers(n, group, k);
    }
  }
}
