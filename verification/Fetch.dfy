/** Fetching the chunks a snapshot misses: `fetch_missing` of src/tree.rs. Batched
    rounds first; what they leave unanswered is fetched chunk by chunk, many at
    once, completing in any order. */
module TreeFetch {
  import opened Basics
  import opened Contents
  import opened Snapshots
  import opened ChunkReplies
  import opened FetchBooks
  import opened FetchCounts

  /** Any network: what the n-th query for a single address brings back. */
  type ChunkNetwork = (nat, Hash) -> QueryResult

  datatype FetchConfig = FetchConfig(batchSize: nat, fetchConcurrency: nat)

  datatype FetchError = Cancelled(received: nat, total: nat) | NotFound(hash: Hash) | Query | Io

  const FLUSH: nat := 32

  // ----- a batch round -----

  /** Verified replies not yet stored. */
  type Pending = seq<(Hash, Unpacked)>

  function PendingRefs(pending: Pending): (refs: seq<ChunkRef>)
    ensures |refs| == |pending|
    ensures forall k :: 0 <= k < |pending| ==> refs[k] == ChunkRef(pending[k].0, |pending[k].1|)
  {
    seq(|pending|, k requires 0 <= k < |pending| => ChunkRef(pending[k].0, |pending[k].1|))
  }

  ghost predicate Verified(pending: Pending, before: Chunks) {
    forall k :: 0 <= k < |pending| ==> Hash(pending[k].1) == pending[k].0 && pending[k].0 !in before
  }

  /** Only the chunk counters differ. */
  ghost predicate Alike(t: Tally, t0: Tally) {
    t.queries == t0.queries && t.rejected == t0.rejected
  }

  /** Store everything pending, then count it. */
  method Flush(pending: Pending, store: ContentStore, t0: Tally, ghost before: Chunks,
               ghost got: seq<ChunkRef>, ghost resumed: nat)
    returns (ok: bool, t: Tally)
    requires Booked(before, store.chunks, got, resumed, t0) && Verified(pending, before)
    requires Counted(before, store.chunks, got)
    modifies store
    ensures ok ==> Booked(before, store.chunks, got + PendingRefs(pending), resumed, t)
    ensures ok ==> Counted(before, store.chunks, got + PendingRefs(pending))
    ensures !ok ==> Booked(before, store.chunks, got, resumed, t)
    ensures if ok then store.faults == old(store.faults) else store.faults > old(store.faults)
    ensures Alike(t, t0)
  {
    t := t0;
    ok := PutAll(pending, store, t, before, got, resumed);
    if ok {
      t := CountAll(pending, t, before, store.chunks, got, resumed);
    }
  }

  method PutAll(pending: Pending, store: ContentStore, ghost t: Tally, ghost before: Chunks,
                ghost got: seq<ChunkRef>, ghost resumed: nat)
    returns (ok: bool)
    requires Booked(before, store.chunks, got, resumed, t) && Verified(pending, before)
    requires Counted(before, store.chunks, got)
    modifies store
    ensures Booked(before, store.chunks, got, resumed, t)
    ensures ok ==> Landed(PendingRefs(pending), store.chunks)
    ensures ok ==> Counted(before, store.chunks, got + PendingRefs(pending))
    ensures if ok then store.faults == old(store.faults) else store.faults > old(store.faults)
  {
    ghost var refs := PendingRefs(pending);
    assert got + refs[..0] == got;
    for k := 0 to |pending|
      invariant Booked(before, store.chunks, got, resumed, t)
      invariant Landed(refs[..k], store.chunks)
      invariant Counted(before, store.chunks, got + refs[..k]) && store.faults == old(store.faults)
    {
      var h, b := pending[k].0, pending[k].1;
      assert refs[..k + 1] == refs[..k] + [refs[k]];
      CountedMore(before, store.chunks, got + refs[..k], refs[k], b);
      assert got + refs[..k + 1] == got + refs[..k] + [refs[k]];
      PutOne(before, store.chunks, got, resumed, t, refs[..k], refs[k], b);
      var put := store.Put(h, b);
      if !put {
        return false;
      }
    }
    assert refs[..|refs|] == refs;
    ok := true;
  }

  method CountAll(pending: Pending, t0: Tally, ghost before: Chunks, ghost now: Chunks,
                  ghost got: seq<ChunkRef>, ghost resumed: nat)
    returns (t: Tally)
    requires Booked(before, now, got, resumed, t0) && Landed(PendingRefs(pending), now)
    ensures Booked(before, now, got + PendingRefs(pending), resumed, t) && Alike(t, t0)
  {
    t := t0;
    ghost var refs := PendingRefs(pending);
    assert got + refs[..0] == got;
    for k := 0 to |pending|
      invariant Booked(before, now, got + refs[..k], resumed, t) && Alike(t, t0)
    {
      assert got + refs[..k + 1] == got + refs[..k] + [refs[k]];
      assert refs[k] in refs;
      CountOne(before, now, got + refs[..k], resumed, t, refs[k]);
      t := t.Fetched(|pending[k].1|);
    }
    assert refs[..|refs|] == refs;
  }

  lemma PutOne(before: Chunks, now: Chunks, got: seq<ChunkRef>, resumed: nat, t: Tally,
               done: seq<ChunkRef>, c: ChunkRef, bytes: Unpacked)
    requires Booked(before, now, got, resumed, t) && Landed(done, now)
    requires Hash(bytes) == c.hash && c.hash !in before
    ensures Booked(before, now[c.hash := bytes], got, resumed, t)
    ensures Landed(done + [c], now[c.hash := bytes])
  {
  }

  lemma CountOne(before: Chunks, now: Chunks, got: seq<ChunkRef>, resumed: nat, t: Tally, c: ChunkRef)
    requires Booked(before, now, got, resumed, t) && c.hash in now && Hash(now[c.hash]) == c.hash
    ensures Booked(before, now, got + [c], resumed, t.Fetched(c.len))
  {
    LensSnoc(got, c);
  }

  /** What is asked for is in the group, with its declared length. */
  ghost predicate AsksFor(expected: map<Hash, u32>, group: seq<ChunkRef>) {
    forall h :: h in expected ==> ChunkRef(h, expected[h]) in group
  }

  /** The pending replies and the round's answers belong together: what is flushed,
      then what is pending. */
  ghost predicate Queued(flushed: seq<ChunkRef>, pending: Pending, arrived: set<Hash>, group: seq<ChunkRef>,
                    before: Chunks) {
    Verified(pending, before) && RoundAnswers(flushed + PendingRefs(pending), arrived, group)
  }

  lemma QueueMore(flushed: seq<ChunkRef>, pending: Pending, arrived: set<Hash>, group: seq<ChunkRef>, before: Chunks,
                  h: Hash, b: Unpacked)
    requires Queued(flushed, pending, arrived, group, before) && h !in arrived && h !in before
    requires Hash(b) == h && ChunkRef(h, |b|) in group
    ensures Queued(flushed, pending + [(h, b)], arrived + {h}, group, before)
  {
    var answers, c := flushed + PendingRefs(pending), ChunkRef(h, |b|);
    assert flushed + PendingRefs(pending + [(h, b)]) == answers + [c];
    assert forall k :: 0 <= k < |answers| ==> answers[k] in answers;
    forall g | g in arrived + {h}
      ensures exists d :: d in answers + [c] && d.hash == g
    {
      if g in arrived {
        var d :| d in answers && d.hash == g;
        assert d in answers + [c];
      } else {
        assert c in answers + [c];
      }
    }
  }

  /** After a flush the queue is empty and nothing has changed otherwise. */
  lemma NothingQueued(got: seq<ChunkRef>, flushed: seq<ChunkRef>, pending: Pending, arrived: set<Hash>,
                      group: seq<ChunkRef>, before: Chunks)
    requires Queued(flushed, pending, arrived, group, before)
    ensures Queued(flushed + PendingRefs(pending), [], arrived, group, before)
    ensures got + flushed + PendingRefs(pending) == got + (flushed + PendingRefs(pending))
  {
    var refs := PendingRefs(pending);
    assert flushed + refs + PendingRefs([]) == flushed + refs;
  }

  lemma QueueStarts(got: seq<ChunkRef>, group: seq<ChunkRef>, before: Chunks)
    ensures Queued([], [], {}, group, before) && got + [] == got
  {
    assert [] + PendingRefs([]) == [];
  }

  lemma AllFlushed(flushed: seq<ChunkRef>, arrived: set<Hash>, group: seq<ChunkRef>, before: Chunks)
    requires Queued(flushed, [], arrived, group, before)
    ensures RoundAnswers(flushed, arrived, group)
  {
    assert flushed + PendingRefs([]) == flushed;
  }

  /** One reply: queue it if it is an answer and the first for its address. */
  method TakeReply(replies: seq<Reply>, k: nat, expected: map<Hash, u32>, ghost group: seq<ChunkRef>,
                   pending0: Pending, arrived0: set<Hash>, ghost flushed: seq<ChunkRef>, ghost before: Chunks)
    returns (pending: Pending, arrived: set<Hash>)
    requires k < |replies| && AsksFor(expected, group) && forall c :: c in group ==> c.hash !in before
    requires Queued(flushed, pending0, arrived0, group, before) && arrived0 == AcceptedBy(replies, k, expected)
    ensures Queued(flushed, pending, arrived, group, before) && arrived == AcceptedBy(replies, k + 1, expected)
  {
    pending, arrived := pending0, arrived0;
    var accepted := AcceptBatchReply(replies[k], expected);
    if accepted.Some? && accepted.value.0 !in arrived {
      QueueMore(flushed, pending, arrived, group, before, accepted.value.0, accepted.value.1);
      arrived := arrived + {accepted.value.0};
      pending := pending + [accepted.value];
    }
  }

  /** Flush the queue into the round's answers when it is full or the round is over:
      fewer than `FLUSH` chunks ever wait. */
  method FlushWhenDue(last: bool, pending0: Pending, ghost arrived: set<Hash>, ghost group: seq<ChunkRef>,
                      store: ContentStore, t0: Tally,
                      ghost before: Chunks, ghost got0: seq<ChunkRef>, ghost answers0: seq<ChunkRef>, ghost resumed: nat)
    returns (ok: bool, t: Tally, pending: Pending, ghost answers: seq<ChunkRef>)
    requires Booked(before, store.chunks, got0 + answers0, resumed, t0) && Queued(answers0, pending0, arrived, group, before)
    requires Counted(before, store.chunks, got0 + answers0)
    modifies store
    ensures Booked(before, store.chunks, got0 + answers, resumed, t) && Alike(t, t0)
    ensures ok ==> Queued(answers, pending, arrived, group, before) && |pending| < FLUSH && (last ==> pending == [])
    ensures ok ==> Counted(before, store.chunks, got0 + answers)
    ensures if ok then store.faults == old(store.faults) else store.faults > old(store.faults)
  {
    ok, t, pending, answers := true, t0, pending0, answers0;
    if |pending| >= FLUSH || (last && pending != []) {
      ok, t := Flush(pending, store, t0, before, got0 + answers0, resumed);
      if ok {
        NothingQueued(got0, answers0, pending, arrived, group, before);
        answers := answers0 + PendingRefs(pending);
        pending := [];
      }
    }
  }

  /** Drain one round: verified replies go to the store in small flushes; the round
      ends with the replies or with a cancel, and flushes what it has either way. */
  method DrainRound(group: seq<ChunkRef>, expected: map<Hash, u32>, replies: seq<Reply>, store: ContentStore, t0: Tally,
                    cancel: Cancel, ghost before: Chunks, ghost got0: seq<ChunkRef>, ghost resumed: nat)
    returns (ok: bool, cancelled: bool, t: Tally, arrived: set<Hash>, ghost answers: seq<ChunkRef>)
    requires Booked(before, store.chunks, got0, resumed, t0) && AsksFor(expected, group)
    requires forall c :: c in group ==> c.hash !in before
    requires Counted(before, store.chunks, got0)
    modifies store
    ensures Booked(before, store.chunks, got0 + answers, resumed, t) && Alike(t, t0)
    ensures ok ==> RoundAnswers(answers, arrived, group) && Counted(before, store.chunks, got0 + answers)
    ensures if ok then store.faults == old(store.faults) else store.faults > old(store.faults)
    ensures cancelled ==> cancel.Possible?
    ensures ok && !cancelled ==> arrived == Accepted(replies, expected)
  {
    hide Booked, RoundAnswers, Counted;
    var pending: Pending := [];
    ok, cancelled, t, arrived, answers := true, false, t0, {}, [];
    var k := 0;
    QueueStarts(got0, group, before);
    while true
      invariant k <= |replies|
      invariant Booked(before, store.chunks, got0 + answers, resumed, t) && Alike(t, t0)
      invariant Queued(answers, pending, arrived, group, before)
      invariant Counted(before, store.chunks, got0 + answers) && store.faults == old(store.faults)
      invariant cancelled ==> cancel.Possible?
      invariant arrived == AcceptedBy(replies, k, expected)
      decreases |replies| - k
    {
      var fired: bool := *;
      if cancel.Possible? && fired {
        cancelled := true;
      }
      var last := cancelled || k == |replies|;
      if !last {
        pending, arrived := TakeReply(replies, k, expected, group, pending, arrived, answers, before);
        k := k + 1;
      }
      ok, t, pending, answers := FlushWhenDue(last, pending, arrived, group, store, t, before, got0, answers, resumed);
      if !ok {
        return;
      }
      if last {
        break;
      }
    }
    AllFlushed(answers, arrived, group, before);
  }

  // ----- the rounds -----

  /** None of the references' chunks was there. */
  ghost predicate NoneHad(refs: seq<ChunkRef>, before: Chunks) {
    forall c :: c in refs ==> c.hash !in before
  }

  /** The entries of a group that did not arrive, in order. */
  method LeftOver(group: seq<ChunkRef>, arrived: set<Hash>,
                  unanswered0: seq<ChunkRef>) returns (unanswered: seq<ChunkRef>)
    ensures unanswered == unanswered0 + Unanswered(group, arrived)
  {
    unanswered := unanswered0;
    assert unanswered0 + Unanswered(group[..0], arrived) == unanswered0;
    for k := 0 to |group|
      invariant unanswered == unanswered0 + Unanswered(group[..k], arrived)
    {
      assert group[..k + 1][..k] == group[..k];
      if group[k].hash !in arrived {
        unanswered := unanswered + [group[k]];
      }
    }
    assert group[..|group|] == group;
  }

  /** One query per group of `batchSize`. What the rounds bring and what they leave
      split the missing list, and they leave exactly what the replies do not answer. */
  method BatchRounds(missing: seq<ChunkRef>, cfg: FetchConfig, net: BatchNetwork, store: ContentStore,
                    t0: Tally, total: nat, cancel: Cancel,
                     ghost before: Chunks, ghost resumed: nat)
    returns (failed: Option<FetchError>, t: Tally, unanswered: seq<ChunkRef>, ghost got: seq<ChunkRef>)
    requires cfg.batchSize > 0 && NoneHad(missing, before) && Booked(before, store.chunks, [], resumed, t0)
    requires Counted(before, store.chunks, [])
    modifies store
    ensures store.faults >= old(store.faults)
    ensures Booked(before, store.chunks, got, resumed, t)
    ensures failed.None? ==> RoundsEnd(missing, cfg.batchSize, net, t0.queries + 1, got, unanswered)
    ensures failed.None? ==> t.queries == t0.queries + DivCeil(|missing|, cfg.batchSize) && t.rejected == t0.rejected
    ensures failed.None? ==> Counted(before, store.chunks, got)
    ensures failed.Some? && failed.value.Cancelled? ==> Counted(before, store.chunks, got) && Partly(missing, got)
    ensures failed.Some? ==> Stopped(failed.value, t, total, cancel, store.faults > old(store.faults))
    ensures failed.Some? ==> !failed.value.NotFound? && (Answering(net) ==> failed.value != Query)
  {
    hide Booked, RoundsAt, Counted, Partly;
    t, unanswered, got := t0, [], [];
    var groups := Groups(missing, cfg.batchSize);
    RoundsStart(groups, net, t0.queries + 1);
    GroupsFlat(missing, cfg.batchSize);
    for i := 0 to |groups|
      invariant Booked(before, store.chunks, got, resumed, t)
      invariant t.queries == t0.queries + i && t.rejected == t0.rejected
      invariant Counted(before, store.chunks, got) && store.faults >= old(store.faults)
      invariant RoundsAt(groups, net, t0.queries + 1, i, got, unanswered)
    {
      GroupNoneHad(groups, i, before);
      failed, t, unanswered, got :=
        NextRound(groups, i, unanswered, net, store, t, total, cancel, before, got, resumed, t0.queries + 1);
      if failed.Some? {
        if failed.value.Cancelled? {
          PartlyWhole(groups, i + 1, got);
        }
        return;
      }
    }
    failed := None;
  }

  /** The next group's round. */
  method NextRound(groups: seq<seq<ChunkRef>>, i: nat, unanswered0: seq<ChunkRef>, net: BatchNetwork,
                   store: ContentStore, t0: Tally, total: nat, cancel: Cancel,
                   ghost before: Chunks, ghost got0: seq<ChunkRef>, ghost resumed: nat, ghost first: nat)
    returns (failed: Option<FetchError>, t: Tally, unanswered: seq<ChunkRef>, ghost got: seq<ChunkRef>)
    requires i < |groups| && NoneHad(groups[i], before) && Booked(before, store.chunks, got0, resumed, t0)
    requires RoundsAt(groups, net, first, i, got0, unanswered0) && t0.queries + 1 == first + i
    requires Counted(before, store.chunks, got0)
    modifies store
    ensures store.faults >= old(store.faults)
    ensures Booked(before, store.chunks, got, resumed, t)
    ensures failed.None? ==> RoundsAt(groups, net, first, i + 1, got, unanswered) && t.queries == t0.queries + 1
    ensures failed.None? ==> t.rejected == t0.rejected && Counted(before, store.chunks, got)
    ensures failed.Some? && failed.value.Cancelled? ==>
              Counted(before, store.chunks, got) && Partly(Flat(groups, i + 1), got)
    ensures failed.Some? ==> Stopped(failed.value, t, total, cancel, store.faults > old(store.faults))
    ensures failed.Some? ==> !failed.value.NotFound? && (Answering(net) ==> failed.value != Query)
  {
    var left;
    ghost var more;
    failed, t, left, more := Round(groups[i], net, store, t0, total, cancel, before, got0, resumed);
    got := got0 + more;
    unanswered := unanswered0 + left;
    if failed.Some? && failed.value.Cancelled? {
      ghost var some :| Split(groups[i], more, some);
      SplitAppend(Flat(groups, i), got0, unanswered0, groups[i], more, some);
    }
    if failed.None? {
      RoundDone(groups, net, first, i, t.queries, got0, unanswered0, more, left);
    }
  }

  /** The first `i` rounds are done: what came and what is left split their groups, and
      are what the replies say. */
  ghost predicate RoundsAt(groups: seq<seq<ChunkRef>>, net: BatchNetwork, first: nat, i: nat,
                           got: seq<ChunkRef>, left: seq<ChunkRef>)
    requires i <= |groups|
  {
    && Split(Flat(groups, i), got, left)
    && left == LeftUpTo(groups, RoundsAnswer(groups, net, first), i)
    && |got| == CountUpTo(RoundsAnswer(groups, net, first), i)
  }

  /** So far `got` has come of the list, each chunk counted once. */
  ghost predicate Partly(all: seq<ChunkRef>, got: seq<ChunkRef>) {
    exists left :: Split(all, got, left)
  }

  lemma SplitIsPartly(all: seq<ChunkRef>, got: seq<ChunkRef>, left: seq<ChunkRef>)
    requires Split(all, got, left)
    ensures Partly(all, got)
    ensures forall c :: c in left ==> c in all
  {
  }

  lemma {:induction false} PartlyWhole(groups: seq<seq<ChunkRef>>, i: nat, got: seq<ChunkRef>)
    requires i <= |groups| && Partly(Flat(groups, i), got)
    ensures Partly(Flat(groups, |groups|), got)
    decreases |groups| - i
  {
    if i < |groups| {
      var left :| Split(Flat(groups, i), got, left);
      WholeSplit(groups[i]);
      SplitAppend(Flat(groups, i), got, left, groups[i], [], groups[i]);
      assert got + [] == got;
      PartlyWhole(groups, i + 1, got);
    }
  }

  lemma RoundsStart(groups: seq<seq<ChunkRef>>, net: BatchNetwork, first: nat)
    ensures RoundsAt(groups, net, first, 0, [], [])
  {
  }

  lemma RoundDone(groups: seq<seq<ChunkRef>>, net: BatchNetwork, first: nat, i: nat, n: nat,
                  got: seq<ChunkRef>, left: seq<ChunkRef>, more: seq<ChunkRef>, rest: seq<ChunkRef>)
    requires i < |groups| && n == first + i && RoundsAt(groups, net, first, i, got, left)
    requires Split(groups[i], more, rest)
    requires rest == Unanswered(groups[i], AnsweredBy(net, n, groups[i])) && |more| == |AnsweredBy(net, n, groups[i])|
    ensures RoundsAt(groups, net, first, i + 1, got + more, left + rest)
  {
    AnsweredAt(groups, net, first, i, n);
    SplitAppend(Flat(groups, i), got, left, groups[i], more, rest);
  }

  /** All rounds over the missing list are done. */
  ghost predicate RoundsEnd(missing: seq<ChunkRef>, size: nat, net: BatchNetwork, first: nat,
                            got: seq<ChunkRef>, left: seq<ChunkRef>)
    requires size > 0
  {
    RoundsAt(Groups(missing, size), net, first, |Groups(missing, size)|, got, left)
  }

  lemma RoundsSplit(missing: seq<ChunkRef>, size: nat, net: BatchNetwork, got: seq<ChunkRef>, left: seq<ChunkRef>)
    requires size > 0 && RoundsEnd(missing, size, net, 1, got, left)
    ensures Split(missing, got, left)
    ensures left == RoundsLeave(missing, size, net) && |got| == RoundsCount(missing, size, net)
  {
    GroupsFlat(missing, size);
  }

  lemma {:induction false} GroupNoneHad(groups: seq<seq<ChunkRef>>, i: nat, before: Chunks)
    requires i < |groups| && NoneHad(Flat(groups, |groups|), before)
    ensures NoneHad(groups[i], before)
  {
    forall c | c in groups[i]
      ensures c.hash !in before
    {
      GroupOfFlat(groups, |groups|, i, c);
    }
  }

  /** Where a failed or cancelled fetch stands: the position it reports is the number
      of chunks resolved, a cancel needs somebody who may cancel, an I/O error a failed
      put. */
  ghost predicate Stopped(e: FetchError, t: Tally, total: nat, cancel: Cancel, faulty: bool) {
    && (e.Cancelled? ==> e == Cancelled(t.received, total) && cancel.Possible?)
    && (e.Io? ==> faulty)
  }

  /** One round over one group. */
  method Round(group: seq<ChunkRef>, net: BatchNetwork, store: ContentStore, t0: Tally, total: nat, cancel: Cancel,
               ghost before: Chunks, ghost got0: seq<ChunkRef>, ghost resumed: nat)
    returns (failed: Option<FetchError>, t: Tally, left: seq<ChunkRef>, ghost answers: seq<ChunkRef>)
    requires NoneHad(group, before) && Booked(before, store.chunks, got0, resumed, t0)
    requires Counted(before, store.chunks, got0)
    modifies store
    ensures store.faults >= old(store.faults)
    ensures Booked(before, store.chunks, got0 + answers, resumed, t)
    ensures failed.None? ==> Split(group, answers, left) && t.queries == t0.queries + 1
    ensures failed.None? ==> t.rejected == t0.rejected && Counted(before, store.chunks, got0 + answers)
    ensures failed.Some? && failed.value.Cancelled? ==>
              Counted(before, store.chunks, got0 + answers) && Partly(group, answers)
    ensures failed.None? ==> left == Unanswered(group, AnsweredBy(net, t.queries, group))
    ensures failed.None? ==> |answers| == |AnsweredBy(net, t.queries, group)|
    ensures failed.Some? ==> Stopped(failed.value, t, total, cancel, store.faults > old(store.faults))
    ensures failed.Some? ==> !failed.value.NotFound? && (Answering(net) ==> failed.value != Query)
  {
    t, left, answers := t0, [], [];
    assert got0 + answers == got0;
    var fired: bool := *;
    if cancel.Possible? && fired {
      WholeSplit(group);
      return Some(Cancelled(t.received, total)), t, left, answers;
    }
    t := t.(queries := t.queries + 1);
    var result := net(t.queries, HashesOf(group));
    if result.Unsent? {
      return Some(Query), t, left, answers;
    }
    ExpectedExactly(group);
    var ok, cancelled, arrived;
    ok, cancelled, t, arrived, answers :=
      DrainRound(group, Expected(group), result.replies, store, t, cancel, before, got0, resumed);
    if !ok {
      return Some(Io), t, left, answers;
    }
    GroupSplit(group, answers, arrived);
    left := LeftOver(group, arrived, []);
    assert [] + Unanswered(group, arrived) == Unanswered(group, arrived);
    if cancelled {
      return Some(Cancelled(t.received, total)), t, left, answers;
    }
    failed := None;
  }

  // ----- the rest, one by one -----

  /** A query in flight. */
  datatype Task = Task(c: ChunkRef, query: nat)

  ghost function TaskRefs(join: seq<Task>): seq<ChunkRef> {
    seq(|join|, k requires 0 <= k < |join| => join[k].c)
  }

  /** Any good replies at all for every chunk, whenever it is asked for. */
  ghost predicate Serving(net: ChunkNetwork, refs: seq<ChunkRef>) {
    forall n: nat, c :: c in refs ==>
      net(n, c.hash).Answered? && exists k :: 0 <= k < |net(n, c.hash).replies| && Holds(net(n, c.hash).replies[k], c)
  }

  /** The wrong chunks that queries `first` onwards meet, one query for each reference. */
  ghost function BadIn(net: ChunkNetwork, refs: seq<ChunkRef>, first: nat): nat {
    if refs == [] then 0 else BadOf(net(first, refs[0].hash), refs[0]) + BadIn(net, refs[1..], first + 1)
  }

  /** Those that the tasks in flight meet. */
  ghost function BadFor(net: ChunkNetwork, join: seq<Task>): nat {
    if join == [] then 0
    else
      var task := join[|join| - 1];
      BadFor(net, join[..|join| - 1]) + BadOf(net(task.query, task.c.hash), task.c)
  }

  lemma {:induction false} BadForSnoc(net: ChunkNetwork, join: seq<Task>, task: Task)
    ensures BadFor(net, join + [task]) == BadFor(net, join) + BadOf(net(task.query, task.c.hash), task.c)
  {
    assert (join + [task])[..|join|] == join;
  }

  lemma WithoutInFront(front: seq<Task>, last: Task, k: nat)
    requires k < |front|
    ensures var join := front + [last];
            join[..k] + join[k + 1..] == (front[..k] + front[k + 1..]) + [last]
  {
    var join := front + [last];
    assert join[..k] == front[..k];
    assert join[k + 1..] == front[k + 1..] + [last];
  }

  lemma {:induction false} BadForWithout(net: ChunkNetwork, join: seq<Task>, k: nat)
    requires k < |join|
    ensures BadFor(net, join) ==
            BadFor(net, join[..k] + join[k + 1..]) + BadOf(net(join[k].query, join[k].c.hash), join[k].c)
  {
    var front, last := join[..|join| - 1], join[|join| - 1];
    assert join == front + [last];
    if k < |front| {
      BadForWithout(net, front, k);
      WithoutInFront(front, last, k);
      BadForSnoc(net, front[..k] + front[k + 1..], last);
    } else {
      assert join[..k] + join[k + 1..] == front;
    }
  }

  /** Keep the pipeline full. */
  method Spawn(iter0: seq<ChunkRef>, join0: seq<Task>, cfg: FetchConfig, t0: Tally, ghost net: ChunkNetwork)
    returns (iter: seq<ChunkRef>, join: seq<Task>, t: Tally)
    ensures TaskRefs(join) + iter == TaskRefs(join0) + iter0
    ensures |iter| <= |iter0| && t == t0.(queries := t0.queries + (|iter0| - |iter|))
    ensures BadFor(net, join) + BadIn(net, iter, t.queries + 1) == BadFor(net, join0) + BadIn(net, iter0, t0.queries + 1)
    ensures |join| >= cfg.fetchConcurrency || iter == []
    ensures |join| <= Max(|join0|, cfg.fetchConcurrency)
  {
    hide BadFor, BadOf;
    iter, join, t := iter0, join0, t0;
    while |join| < cfg.fetchConcurrency && iter != []
      invariant TaskRefs(join) + iter == TaskRefs(join0) + iter0
      invariant |iter| <= |iter0| && t == t0.(queries := t0.queries + (|iter0| - |iter|))
      invariant BadFor(net, join) + BadIn(net, iter, t.queries + 1) ==
                BadFor(net, join0) + BadIn(net, iter0, t0.queries + 1)
      invariant |join| <= Max(|join0|, cfg.fetchConcurrency)
    {
      t := t.(queries := t.queries + 1);
      ghost var was := join;
      BadForSnoc(net, was, Task(iter[0], t.queries));
      join := join + [Task(iter[0], t.queries)];
      assert TaskRefs(join) == TaskRefs(was) + [iter[0]];
      assert [iter[0]] + iter[1..] == iter;
      iter := iter[1..];
    }
  }

  function Max(a: nat, b: nat): nat {
    if a < b then b else a
  }

  /** One task runs to its end: fetch, verify, store, count. */
  method Complete(task: Task, net: ChunkNetwork, store: ContentStore, t0: Tally, ghost before: Chunks,
                  ghost got: seq<ChunkRef>, ghost resumed: nat)
    returns (failed: Option<FetchError>, t: Tally)
    requires Booked(before, store.chunks, got, resumed, t0) && task.c.hash !in before
    requires Counted(before, store.chunks, got)
    modifies store
    ensures failed.Some? ==> Booked(before, store.chunks, got, resumed, t)
    ensures failed.None? ==> Booked(before, store.chunks, got + [task.c], resumed, t)
    ensures failed.None? ==> Counted(before, store.chunks, got + [task.c])
    ensures failed.None? ==> t.rejected == t0.rejected + BadOf(net(task.query, task.c.hash), task.c)
    ensures t.queries == t0.queries
    ensures store.faults >= old(store.faults) && (failed == Some(Io) ==> store.faults > old(store.faults))
    ensures failed.Some? ==> failed == Some(NotFound(task.c.hash)) || failed == Some(Io)
    ensures Serving(net, [task.c]) && failed.Some? ==> failed == Some(Io)
  {
    t := t0;
    assert task.c in [task.c];
    var bytes, rejected := FetchOneChunk(net(task.query, task.c.hash), task.c);
    if bytes.None? {
      return Some(NotFound(task.c.hash)), t;
    }
    ChunkBooked(before, store.chunks, got, resumed, t, task.c, bytes.value);
    CountedMore(before, store.chunks, got, task.c, bytes.value);
    var put := store.Put(task.c.hash, bytes.value);
    if !put {
      return Some(Io), t;
    }
    t := t.Fetched(|bytes.value|);
    t := t.(rejected := t.rejected + rejected);
    failed := None;
  }

  /** Up to `fetchConcurrency` at once, completing in any order. */
  method FetchRest(rest: seq<ChunkRef>, cfg: FetchConfig, net: ChunkNetwork, store: ContentStore, t0: Tally, total: nat,
                   cancel: Cancel,
                   ghost before: Chunks, ghost got0: seq<ChunkRef>, ghost resumed: nat)
    returns (failed: Option<FetchError>, t: Tally, ghost got: seq<ChunkRef>)
    requires cfg.fetchConcurrency > 0 && NoneHad(rest, before) && Booked(before, store.chunks, got0, resumed, t0)
    requires Counted(before, store.chunks, got0)
    modifies store
    ensures store.faults >= old(store.faults)
    ensures Booked(before, store.chunks, got, resumed, t)
    ensures failed.None? ==> multiset(got) == multiset(got0) + multiset(rest)
    ensures failed.None? ==> t.queries == t0.queries + |rest|
    ensures failed.None? ==> t.rejected == t0.rejected + BadIn(net, rest, t0.queries + 1)
    ensures failed.Some? ==> Stopped(failed.value, t, total, cancel, store.faults > old(store.faults))
    ensures failed.Some? && failed.value.Cancelled? ==> Counted(before, store.chunks, got) && Underway(got, got0, rest)
    ensures failed.Some? ==> failed.value != Query
    ensures Serving(net, rest) && failed.Some? ==> !failed.value.NotFound?
  {
    hide Booked, Counted, Serving, InFlight, BadFor, BadIn;
    var iter, join := rest, [];
    t, got := t0, got0;
    var ticks: nat :| true;
    NothingInFlight(net, got0, rest, join);
    while true
      invariant Booked(before, store.chunks, got, resumed, t)
      invariant Counted(before, store.chunks, got) && store.faults >= old(store.faults)
      invariant got0 <= got && InFlight(got, TaskRefs(join) + iter, got0, rest)
      invariant t.rejected + BadFor(net, join) + BadIn(net, iter, t.queries + 1) ==
                t0.rejected + BadIn(net, rest, t0.queries + 1)
      invariant t.queries + |iter| == t0.queries + |rest|
      decreases |join| + |iter| + ticks
    {
      ghost var was := t;
      iter, join, t := Spawn(iter, join, cfg, t, net);
      MoreQueries(before, store.chunks, got, resumed, was, t);
      if join == [] {
        NothingLeft(net, got, got0, rest, join, iter, t.queries + 1);
        break;
      }
      var fired: bool := *;
      if cancel.Possible? && fired {
        return Some(Cancelled(t.received, total)), t, got;
      }
      var waited: bool := *;
      if ticks > 0 && waited {
        // The bounded wait ran out: look at the cancel flag again.
        ticks := ticks - 1;
        continue;
      }
      var k: nat :| k < |join|;
      var task := join[k];
      BadForWithout(net, join, k);
      TaskDone(join, k, iter, got, got0, rest);
      ServingSome(net, rest, [task.c]);
      failed, t := Complete(task, net, store, t, before, got, resumed);
      if failed.Some? {
        return;
      }
      join := join[..k] + join[k + 1..];
      got := got + [task.c];
    }
    failed := None;
  }

  /** What has come and what is queued or in flight make up the whole list. */
  ghost predicate InFlight(got: seq<ChunkRef>, left: seq<ChunkRef>, got0: seq<ChunkRef>, rest: seq<ChunkRef>) {
    && multiset(got) + multiset(left) == multiset(got0) + multiset(rest)
    && forall c :: c in left ==> c in rest
  }

  /** So far `got` has come, beginning with `got0`. */
  ghost predicate Underway(got: seq<ChunkRef>, got0: seq<ChunkRef>, rest: seq<ChunkRef>) {
    got0 <= got && exists left :: InFlight(got, left, got0, rest)
  }

  lemma UnderwaySplit(all: seq<ChunkRef>, got0: seq<ChunkRef>, rest: seq<ChunkRef>, got: seq<ChunkRef>)
    requires Split(all, got0, rest) && Underway(got, got0, rest)
    ensures Partly(all, got)
  {
    var left :| InFlight(got, left, got0, rest);
    assert |got| + |left| == |multiset(got) + multiset(left)| == |multiset(got0) + multiset(rest)| == |got0| + |rest|;
    forall c | c in all
      ensures c in left || exists d :: d in got && d.hash == c.hash
    {
      if c in rest {
        assert c in multiset(got) + multiset(left);
      } else {
        var d :| d in got0 && d.hash == c.hash;
        assert d in got;
      }
    }
    forall c | c in left || c in got
      ensures c in all
    {
      assert c in multiset(got0) + multiset(rest);
    }
    assert Split(all, got, left);
  }

  lemma MoreQueries(before: Chunks, now: Chunks, got: seq<ChunkRef>, resumed: nat, t: Tally, t': Tally)
    requires Booked(before, now, got, resumed, t) && t' == t.(queries := t'.queries)
    ensures Booked(before, now, got, resumed, t')
  {
  }

  lemma NothingLeft(net: ChunkNetwork, got: seq<ChunkRef>, got0: seq<ChunkRef>, rest: seq<ChunkRef>,
                    join: seq<Task>, iter: seq<ChunkRef>, n: nat)
    requires join == [] && iter == [] && InFlight(got, TaskRefs(join) + iter, got0, rest)
    ensures multiset(got) == multiset(got0) + multiset(rest)
    ensures BadFor(net, join) == BadIn(net, iter, n) == 0
  {
  }

  lemma {:induction false} NothingInFlight(net: ChunkNetwork, got: seq<ChunkRef>, rest: seq<ChunkRef>, join: seq<Task>)
    requires join == []
    ensures InFlight(got, TaskRefs(join) + rest, got, rest) && BadFor(net, join) == 0
  {
    assert TaskRefs(join) + rest == rest;
  }

  lemma TaskDone(join: seq<Task>, k: nat, iter: seq<ChunkRef>, got: seq<ChunkRef>, got0: seq<ChunkRef>,
                 rest: seq<ChunkRef>)
    requires k < |join| && InFlight(got, TaskRefs(join) + iter, got0, rest)
    ensures join[k].c in rest
    ensures InFlight(got + [join[k].c], TaskRefs(join[..k] + join[k + 1..]) + iter, got0, rest)
  {
    var l, c, r := TaskRefs(join[..k]), join[k].c, TaskRefs(join[k + 1..]) + iter;
    var all, left := TaskRefs(join) + iter, TaskRefs(join[..k] + join[k + 1..]) + iter;
    assert all == l + [c] + r;
    assert left == l + r;
    assert c in all;
    forall d | d in left
      ensures d in rest
    {
      assert d in all;
    }
  }

  // ----- the whole fetch -----

  /** Count what is present, list what is not. */
  method TakeStock(needed: seq<ChunkRef>, store: ContentStore) returns (t: Tally, missing: seq<ChunkRef>)
    ensures missing == Missing(needed, store.chunks) && |missing| <= |needed|
    ensures t == NOTHING.(received := |needed| - |missing|, resumed := |needed| - |missing|)
  {
    var presence := store.HasMany(HashesOf(needed));
    t, missing := NOTHING, [];
    for k := 0 to |needed|
      invariant missing == Missing(needed[..k], store.chunks) && |missing| <= k
      invariant t == NOTHING.(received := k - |missing|, resumed := k - |missing|)
    {
      assert needed[..k + 1][..k] == needed[..k];
      if presence[k] {
        t := t.Resolved();
      } else {
        missing := missing + [needed[k]];
      }
    }
    assert needed[..|needed|] == needed;
  }

  /** One query a round; a batch size of 0 turns the rounds off. */
  function Rounds(missing: nat, batchSize: nat): nat {
    if batchSize == 0 then 0 else DivCeil(missing, batchSize)
  }

  /** Fetch every needed chunk that is not there. For any replies: success means
      every needed chunk is stored, those fetched with verified content; nothing
      already there changes. Over a list without repeats, as `NeededChunkRefs` makes
      it, the counters are exact. */
  method FetchMissing(needed: seq<ChunkRef>, cfg: FetchConfig, batchNet: BatchNetwork, chunkNet: ChunkNetwork,
                    store: ContentStore, cancel: Cancel)
    returns (r: Result<Tally, FetchError>, ghost answered: seq<ChunkRef>, ghost fallback: seq<ChunkRef>)
    requires cfg.fetchConcurrency > 0
    modifies store
    ensures Grows(old(store.chunks), store.chunks)
    ensures forall h :: h in store.chunks && h !in old(store.chunks) ==> Hash(store.chunks[h]) == h
    ensures r.Ok? ==> AllStored(needed, store.chunks)
    ensures r.Ok? ==> Split(Missing(needed, old(store.chunks)), answered, fallback)
    ensures r.Ok? ==> Settled(needed, old(store.chunks), answered, fallback, r.value)
    // The rounds leave exactly what they did not answer, one query for each.
    ensures r.Ok? ==> fallback == RoundsLeave(Missing(needed, old(store.chunks)), cfg.batchSize, batchNet)
    ensures r.Ok? ==> r.value.queries == Rounds(|Missing(needed, old(store.chunks))|, cfg.batchSize) + |fallback|
    // The final counter, for any list and any replies.
    ensures r.Ok? ==> r.value.received == FinalCount(needed, old(store.chunks), cfg.batchSize, batchNet)
    // The wrong chunks met by the single queries, in whatever order they complete.
    ensures r.Ok? ==>
              r.value.rejected == BadIn(chunkNet, fallback, Rounds(|Missing(needed, old(store.chunks))|, cfg.batchSize) + 1)
    // A cancel reports where the fetch stands.
    ensures r.Err? && r.error.Cancelled? ==>
              && r.error.total == |needed| && cancel.Possible?
              && StandsAt(r.error.received, needed, old(store.chunks), store.chunks)
    // What can stop it, and that nothing else does.
    ensures r == Err(Io) ==> store.faults > old(store.faults)
    ensures Answering(batchNet) && Serving(chunkNet, needed) ==> r.Ok? || r.error.Cancelled? || r.error == Io
    ensures Answering(batchNet) && Serving(chunkNet, needed) ==>
              cancel.Never? && store.faults == old(store.faults) ==> r.Ok?
  {
    hide AllStored, RoundsLeave, RoundsCount, Serving, Answering, Booked, Counted, Partly, Underway, StandsAt, BadIn, Split,
      Missing;
    ghost var before := store.chunks;
    var t, missing := TakeStock(needed, store);
    MissingExactly(needed, before);
    ghost var resumed, got := t.resumed, [];
    NothingFetched(before, resumed, t);
    var failed, rest;
    failed, t, rest, answered := FetchBatched(missing, cfg, batchNet, store, t, |needed|, cancel, before, resumed);
    fallback := rest;
    BookedMeans(before, store.chunks, answered, resumed, t);
    if failed.Some? {
      if failed.value.Cancelled? {
        CancelStands(needed, before, store.chunks, answered, resumed, t);
      }
      return Err(failed.value), answered, fallback;
    }
    SplitIsPartly(missing, answered, rest);
    ServingSome(chunkNet, needed, rest);
    failed, t, got := FetchRest(rest, cfg, chunkNet, store, t, |needed|, cancel, before, answered, resumed);
    BookedMeans(before, store.chunks, got, resumed, t);
    if failed.Some? {
      if failed.value.Cancelled? {
        UnderwaySplit(missing, answered, rest, got);
        CancelStands(needed, before, store.chunks, got, resumed, t);
      }
      return Err(failed.value), answered, fallback;
    }
    EverythingStored(needed, before, store.chunks, answered, fallback, got, resumed, t);
    r := Ok(t);
  }

  /** The batched half, if there are batches at all, and a last look at the token. */
  method FetchBatched(missing: seq<ChunkRef>, cfg: FetchConfig, net: BatchNetwork, store: ContentStore, t0: Tally,
                      total: nat, cancel: Cancel, ghost before: Chunks, ghost resumed: nat)
    returns (failed: Option<FetchError>, t: Tally, rest: seq<ChunkRef>, ghost got: seq<ChunkRef>)
    requires NoneHad(missing, before) && Booked(before, store.chunks, [], resumed, t0) && t0.queries == 0
    requires Counted(before, store.chunks, [])
    modifies store
    ensures store.faults >= old(store.faults)
    ensures Booked(before, store.chunks, got, resumed, t)
    ensures failed.None? ==> Split(missing, got, rest) && Counted(before, store.chunks, got)
    ensures failed.None? ==> rest == RoundsLeave(missing, cfg.batchSize, net) && |got| == RoundsCount(missing, cfg.batchSize, net)
    ensures failed.None? ==> t.queries == Rounds(|missing|, cfg.batchSize) && t.rejected == t0.rejected
    ensures failed.Some? ==> Stopped(failed.value, t, total, cancel, store.faults > old(store.faults))
    ensures failed.Some? ==> !failed.value.NotFound? && (Answering(net) ==> failed.value != Query)
    ensures failed.Some? && failed.value.Cancelled? ==> Counted(before, store.chunks, got) && Partly(missing, got)
  {
    hide RoundsLeave, RoundsCount, Answering, Booked, Counted, Partly, Split;
    failed, t, rest, got := None, t0, missing, [];
    WholeSplit(missing);
    NothingToAsk(missing, cfg.batchSize, net);
    if cfg.batchSize > 0 && missing != [] {
      failed, t, rest, got := BatchRounds(missing, cfg, net, store, t, total, cancel, before, resumed);
      if failed.Some? {
        return;
      }
      RoundsSplit(missing, cfg.batchSize, net, got, rest);
      SplitIsPartly(missing, got, rest);
      var fired: bool := *;
      if cancel.Possible? && fired {
        failed := Some(Cancelled(t.received, total));
      }
    }
  }

  lemma NothingFetched(before: Chunks, resumed: nat, t: Tally)
    requires t == NOTHING.(received := resumed, resumed := resumed)
    ensures Booked(before, before, [], resumed, t) && Counted(before, before, [])
  {
  }

  lemma BookedMeans(before: Chunks, now: Chunks, got: seq<ChunkRef>, resumed: nat, t: Tally)
    requires Booked(before, now, got, resumed, t)
    ensures Grows(before, now) && forall h :: h in now && h !in before ==> Hash(now[h]) == h
    ensures t.received == resumed + |got| && t.resumed == resumed && t.fetched == |got|
  {
  }

  lemma WholeSplit(missing: seq<ChunkRef>)
    ensures Split(missing, [], missing)
  {
  }

  lemma ServingSome(net: ChunkNetwork, needed: seq<ChunkRef>, rest: seq<ChunkRef>)
    requires forall c :: c in rest ==> c in needed
    ensures Serving(net, needed) ==> Serving(net, rest)
  {
  }

  lemma {:induction false} EverythingStored(needed: seq<ChunkRef>, before: Chunks, now: Chunks, answered: seq<ChunkRef>,
                    fallback: seq<ChunkRef>,
                         got: seq<ChunkRef>, resumed: nat, t: Tally)
    requires Booked(before, now, got, resumed, t) && Split(Missing(needed, before), answered, fallback)
    requires multiset(got) == multiset(answered) + multiset(fallback)
    requires resumed == |needed| - |Missing(needed, before)|
    ensures AllStored(needed, now) && Settled(needed, before, answered, fallback, t)
  {
    var missing := Missing(needed, before);
    MissingExactly(needed, before);
    assert |got| == |multiset(got)| == |answered| + |fallback|;
    forall c | c in needed
      ensures c.hash in now
    {
      if c.hash !in before {
        assert c in missing;
        var d :| (d in fallback || d in answered) && d.hash == c.hash;
        assert d in multiset(got);
      }
    }
    if DistinctHashes(needed) {
      assert |missing| == |multiset(missing)|;
      LensPermuted(got, missing);
    }
  }

  /** The position `n` of an unfinished fetch: everything new is counted, and over a
      list without repeats it is the number of needed chunks now present. */
  ghost predicate StandsAt(n: nat, needed: seq<ChunkRef>, before: Chunks, now: Chunks) {
    && |needed| - |Missing(needed, before)| + |now.Keys - before.Keys| <= n <= |needed|
    && (DistinctHashes(needed) ==> n == |needed| - |Missing(needed, now)|)
  }

  lemma {:induction false} CancelStands(needed: seq<ChunkRef>, before: Chunks, now: Chunks, got: seq<ChunkRef>,
                                        resumed: nat, t: Tally)
    requires Booked(before, now, got, resumed, t) && Counted(before, now, got)
    requires Partly(Missing(needed, before), got)
    requires resumed == |needed| - |Missing(needed, before)|
    ensures StandsAt(t.received, needed, before, now)
  {
    var missing, added := Missing(needed, before), now.Keys - before.Keys;
    var left :| Split(missing, got, left);
    NewAreGot(before, now, got);
    if DistinctHashes(needed) {
      MissingExactly(needed, before);
      StillMissing(needed, before, now);
      GotAreNew(missing, before, now, got, left);
      UnansweredSize(missing, added);
    }
  }

  lemma {:induction false} NewAreGot(before: Chunks, now: Chunks, got: seq<ChunkRef>)
    requires Counted(before, now, got)
    ensures |now.Keys - before.Keys| <= |HashSet(got)| <= |got|
    ensures now.Keys - before.Keys <= HashSet(got)
  {
    forall h | h in now.Keys - before.Keys
      ensures h in HashSet(got)
    {
      HashSetIs(got, h);
    }
    SubsetCard(now.Keys - before.Keys, HashSet(got));
    HashSetSize(got);
  }

  lemma {:induction false} HashSetSize(refs: seq<ChunkRef>)
    ensures |HashSet(refs)| <= |refs|
  {
    if refs != [] {
      HashSetSize(refs[..|refs| - 1]);
    }
  }

  /** What a grown store still misses is what was missing and has not come. */
  lemma {:induction false} StillMissing(needed: seq<ChunkRef>, before: Chunks, now: Chunks)
    requires Grows(before, now)
    ensures Missing(needed, now) == Unanswered(Missing(needed, before), now.Keys - before.Keys)
  {
    if needed != [] {
      var front, last := needed[..|needed| - 1], needed[|needed| - 1];
      StillMissing(front, before, now);
      var u := Missing(front, before);
      UnansweredSnoc(u, last, now.Keys - before.Keys);
      assert u + [] == u && Unanswered(u, now.Keys - before.Keys) + [] == Unanswered(u, now.Keys - before.Keys);
      assert Missing(needed, before) == if last.hash in before then u else u + [last];
    }
  }

  lemma {:induction false} UnansweredSnoc(refs: seq<ChunkRef>, c: ChunkRef, arrived: set<Hash>)
    ensures Unanswered(refs + [c], arrived) == Unanswered(refs, arrived) + if c.hash in arrived then [] else [c]
  {
    assert (refs + [c])[..|refs|] == refs;
  }

  /** Of a list without repeats, as many have come as are new. */
  lemma {:induction false} GotAreNew(missing: seq<ChunkRef>, before: Chunks, now: Chunks, got: seq<ChunkRef>, left: seq<ChunkRef>)
    requires DistinctHashes(missing) && Split(missing, got, left) && Counted(before, now, got) && Landed(got, now)
    requires forall c :: c in missing ==> c.hash !in before
    ensures |got| == |(now.Keys - before.Keys) * HashSet(missing)|
    ensures NoRepeats(missing, now.Keys - before.Keys)
  {
    hide Landed, Split, Counted, Unanswered, HashSet;
    SameAddresses(missing, before, now, got, left);
    UnansweredSize(missing, HashSet(got));
    CoveredLeft(missing, got, left);
    HashSetSize(got);
    SplitSize(missing, got, left);
    assert HashSet(got) * HashSet(missing) == HashSet(got);
  }

  lemma SplitSize(all: seq<ChunkRef>, got: seq<ChunkRef>, rest: seq<ChunkRef>)
    requires Split(all, got, rest)
    ensures |got| + |rest| <= |all|
  {
  }

  lemma {:induction false} SameAddresses(missing: seq<ChunkRef>, before: Chunks, now: Chunks, got: seq<ChunkRef>,
                                         left: seq<ChunkRef>)
    requires Split(missing, got, left) && Counted(before, now, got) && Landed(got, now)
    requires forall c :: c in missing ==> c.hash !in before
    ensures (now.Keys - before.Keys) * HashSet(missing) == HashSet(got) <= HashSet(missing)
  {
    forall h
      ensures h in (now.Keys - before.Keys) * HashSet(missing) <==> h in HashSet(got)
      ensures h in HashSet(got) ==> h in HashSet(missing)
    {
      HashSetIs(got, h);
      HashSetIs(missing, h);
    }
  }

  lemma {:induction false} CoveredLeft(missing: seq<ChunkRef>, got: seq<ChunkRef>, left: seq<ChunkRef>)
    requires DistinctHashes(missing) && Split(missing, got, left)
    ensures |Unanswered(missing, HashSet(got))| <= |left|
  {
    var u := Unanswered(missing, HashSet(got));
    UnansweredExactly(missing, HashSet(got));
    forall c: ChunkRef
      ensures multiset(u)[c] <= multiset(left)[c]
    {
      DistinctCount(u, c);
      HashSetIs(got, c.hash);
    }
    assert multiset(left) == multiset(u) + (multiset(left) - multiset(u));
    assert |left| == |multiset(left)| && |u| == |multiset(u)|;
  }

  /** The final counters. */
  ghost predicate Settled(needed: seq<ChunkRef>, before: Chunks, answered: seq<ChunkRef>,
                    fallback: seq<ChunkRef>, t: Tally) {
    && t.received == t.resumed + t.fetched <= |needed|
    && t.resumed == |needed| - |Missing(needed, before)|
    && t.fetched == |answered| + |fallback|
    && t.bytesFetched == t.bytesReceived
    && (DistinctHashes(needed) ==>
          && t.received == |needed|
          && t.bytesFetched == LensOf(Missing(needed, before)))
  }
}
