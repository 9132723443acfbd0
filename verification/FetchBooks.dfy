/** The bookkeeping of a chunk fetch in src/tree.rs: what has arrived, what a round
    leaves unanswered, and the counters that must agree with both. */
module FetchBooks {
  import opened Basics
  import opened Contents

  /** The counters of a running fetch. */
  datatype Tally = Tally(received: nat, bytesReceived: nat, resumed: nat, fetched: nat, bytesFetched: nat,
      queries: nat, rejected: nat) {
    function Resolved(): Tally {
      this.(received := received + 1, resumed := resumed + 1)
    }

    function Fetched(len: nat): Tally {
      this.(received := received + 1, bytesReceived := bytesReceived + len,
            fetched := fetched + 1, bytesFetched := bytesFetched + len)
    }
  }

  const NOTHING := Tally(0, 0, 0, 0, 0, 0, 0)

  ghost function LensOf(refs: seq<ChunkRef>): nat {
    if refs == [] then 0 else LensOf(refs[..|refs| - 1]) + refs[|refs| - 1].len
  }

  lemma {:induction false} LensSnoc(refs: seq<ChunkRef>, c: ChunkRef)
    ensures LensOf(refs + [c]) == LensOf(refs) + c.len
  {
    assert (refs + [c])[..|refs|] == refs;
  }

  lemma {:induction false} LensAppend(a: seq<ChunkRef>, b: seq<ChunkRef>)
    ensures LensOf(a + b) == LensOf(a) + LensOf(b)
  {
    if b == [] {
      assert a + b == a;
    } else {
      LensAppend(a, b[..|b| - 1]);
      assert (a + b)[..|a + b| - 1] == a + b[..|b| - 1];
    }
  }

  /** Lengths do not depend on the order. */
  lemma {:induction false} LensPermuted(a: seq<ChunkRef>, b: seq<ChunkRef>)
    requires multiset(a) == multiset(b)
    ensures LensOf(a) == LensOf(b)
    decreases |a|
  {
    if a == [] {
      assert |b| == |multiset(b)| == 0;
    } else {
      var c, front := a[|a| - 1], a[..|a| - 1];
      assert a == front + [c];
      assert c in multiset(b);
      var k :| 0 <= k < |b| && b[k] == c;
      var l, r := b[..k], b[k + 1..];
      assert b == l + [c] + r;
      WithoutOne(l, c, r);
      CancelOne(multiset(front), multiset(l + r), c);
      LensPermuted(front, l + r);
    }
  }

  lemma CancelOne(a: multiset<ChunkRef>, b: multiset<ChunkRef>, c: ChunkRef)
    requires a + multiset{c} == b + multiset{c}
    ensures a == b
  {
    assert (a + multiset{c}) - multiset{c} == a && (b + multiset{c}) - multiset{c} == b;
  }

  lemma {:induction false} WithoutOne(l: seq<ChunkRef>, c: ChunkRef, r: seq<ChunkRef>)
    ensures multiset(l + [c] + r) == multiset(l + r) + multiset{c}
    ensures LensOf(l + [c] + r) == LensOf(l + r) + c.len
  {
    LensAppend(l + [c], r);
    LensSnoc(l, c);
    LensAppend(l, r);
  }

  // ----- the books -----

  /** The fetched references are in the store, with their own content. */
  ghost predicate Landed(refs: seq<ChunkRef>, chunks: Chunks) {
    forall c :: c in refs ==> c.hash in chunks && Hash(chunks[c.hash]) == c.hash
  }

  /** Since `before`: the store has only grown, by genuine chunks; `got` has arrived
      and the counters say exactly that. */
  ghost predicate Booked(before: Chunks, now: Chunks, got: seq<ChunkRef>, resumed: nat, t: Tally) {
    && Grows(before, now)
    && (forall h :: h in now && h !in before ==> Hash(now[h]) == h)
    && Landed(got, now)
    && t.resumed == resumed
    && t.fetched == |got| && t.bytesFetched == t.bytesReceived == LensOf(got)
    && t.received == t.resumed + t.fetched
  }

  /** Everything new in the store is among what was counted. */
  ghost predicate Counted(before: Chunks, now: Chunks, got: seq<ChunkRef>) {
    forall h :: h in now && h !in before ==> exists c :: c in got && c.hash == h
  }

  lemma CountedMore(before: Chunks, now: Chunks, got: seq<ChunkRef>, c: ChunkRef, bytes: Bytes)
    requires Counted(before, now, got)
    ensures Counted(before, now[c.hash := bytes], got + [c])
  {
    assert c in got + [c];
    forall h | h in now && h !in before
      ensures exists d :: d in got + [c] && d.hash == h
    {
      var d :| d in got && d.hash == h;
      assert d in got + [c];
    }
  }

  lemma ChunkBooked(before: Chunks, now: Chunks, got: seq<ChunkRef>, resumed: nat, t: Tally, c: ChunkRef, bytes: Bytes)
    requires Booked(before, now, got, resumed, t) && Hash(bytes) == c.hash && |bytes| == c.len
    requires c.hash !in before
    ensures Booked(before, now[c.hash := bytes], got + [c], resumed, t.Fetched(|bytes|))
    ensures Booked(before, now[c.hash := bytes], got, resumed, t)
  {
    LensSnoc(got, c);
  }

  // ----- splitting a list -----

  ghost predicate DistinctHashes(refs: seq<ChunkRef>) {
    forall j, k :: 0 <= j < k < |refs| ==> refs[j].hash != refs[k].hash
  }

  /** What a round leaves over, in order. */
  function Unanswered(group: seq<ChunkRef>, arrived: set<Hash>): seq<ChunkRef> {
    if group == [] then []
    else
      var c := group[|group| - 1];
      Unanswered(group[..|group| - 1], arrived) + if c.hash in arrived then [] else [c]
  }

  lemma {:induction false} UnansweredExactly(group: seq<ChunkRef>, arrived: set<Hash>)
    ensures forall c :: c in Unanswered(group, arrived) <==> c in group && c.hash !in arrived
    ensures DistinctHashes(group) ==> DistinctHashes(Unanswered(group, arrived))
  {
    if group != [] {
      var front, last := group[..|group| - 1], group[|group| - 1];
      UnansweredExactly(front, arrived);
      assert group == front + [last];
      var u := Unanswered(front, arrived);
      if DistinctHashes(group) && last.hash !in arrived {
        forall k | 0 <= k < |u|
          ensures u[k].hash != last.hash
        {
          assert u[k] in front;
        }
      }
    }
  }

  ghost function HashSet(refs: seq<ChunkRef>): set<Hash> {
    if refs == [] then {} else HashSet(refs[..|refs| - 1]) + {refs[|refs| - 1].hash}
  }

  /** Nothing that arrived is listed twice. */
  ghost predicate NoRepeats(group: seq<ChunkRef>, arrived: set<Hash>) {
    forall j, k :: 0 <= j < k < |group| && group[j].hash == group[k].hash ==> group[j].hash !in arrived
  }

  /** Answers are counted once each, so with what is left they never exceed the list.
      They fall short exactly when an answered address is listed twice. */
  lemma {:induction false} UnansweredSize(group: seq<ChunkRef>, arrived: set<Hash>)
    ensures |arrived * HashSet(group)| + |Unanswered(group, arrived)| <= |group|
    ensures |arrived * HashSet(group)| + |Unanswered(group, arrived)| == |group| <==> NoRepeats(group, arrived)
  {
    if group == [] {
      assert arrived * HashSet(group) == {};
    } else {
      var front, last := group[..|group| - 1], group[|group| - 1];
      UnansweredSize(front, arrived);
      assert group == front + [last];
      var some := arrived * HashSet(front);
      if last.hash !in arrived {
        assert arrived * HashSet(group) == some;
        assert NoRepeats(group, arrived) <==> NoRepeats(front, arrived);
      } else {
        assert arrived * HashSet(group) == some + {last.hash};
        HashSetIs(front, last.hash);
        RepeatsGrow(front, last, arrived);
      }
    }
  }

  lemma RepeatsGrow(front: seq<ChunkRef>, last: ChunkRef, arrived: set<Hash>)
    requires last.hash in arrived
    ensures NoRepeats(front + [last], arrived) <==>
            NoRepeats(front, arrived) && !exists c :: c in front && c.hash == last.hash
  {
    var group := front + [last];
    assert group[|front|] == last;
    assert forall k :: 0 <= k < |front| ==> group[k] == front[k];
    if c :| c in front && c.hash == last.hash {
      var k :| 0 <= k < |front| && front[k] == c;
      assert group[k].hash == group[|front|].hash;
    }
  }

  lemma {:induction false} HashSetIs(refs: seq<ChunkRef>, h: Hash)
    ensures h in HashSet(refs) <==> exists c :: c in refs && c.hash == h
  {
    if refs != [] {
      var front, last := refs[..|refs| - 1], refs[|refs| - 1];
      HashSetIs(front, h);
      assert refs == front + [last];
    }
  }

  /** `got` and `rest` cover the list; a list without repeats they partition. */
  ghost predicate Split(all: seq<ChunkRef>, got: seq<ChunkRef>, rest: seq<ChunkRef>) {
    && (forall c :: c in all ==> c in rest || exists d :: d in got && d.hash == c.hash)
    && (forall c :: c in rest || c in got ==> c in all)
    && |got| + |rest| <= |all|
    && (DistinctHashes(all) ==> multiset(got) + multiset(rest) == multiset(all))
  }

  /** One round's answers: each address once, all asked for. */
  ghost predicate RoundAnswers(answers: seq<ChunkRef>, arrived: set<Hash>, group: seq<ChunkRef>) {
    && DistinctHashes(answers) && |answers| == |arrived|
    && (forall c :: c in answers ==> c in group && c.hash in arrived)
    && (forall h :: h in arrived ==> exists c :: c in answers && c.hash == h)
  }

  lemma DistinctCount(s: seq<ChunkRef>, c: ChunkRef)
    requires DistinctHashes(s)
    ensures multiset(s)[c] == if c in s then 1 else 0
  {
    if s != [] {
      var front, last := s[..|s| - 1], s[|s| - 1];
      assert s == front + [last];
      DistinctCount(front, c);
    }
  }

  lemma {:induction false} GroupPartitioned(group: seq<ChunkRef>, answers: seq<ChunkRef>, arrived: set<Hash>)
    requires DistinctHashes(group) && RoundAnswers(answers, arrived, group)
    ensures multiset(answers) + multiset(Unanswered(group, arrived)) == multiset(group)
  {
    var rest := Unanswered(group, arrived);
    UnansweredExactly(group, arrived);
    forall c: ChunkRef
      ensures multiset(answers)[c] + multiset(rest)[c] == multiset(group)[c]
    {
      DistinctCount(answers, c);
      DistinctCount(rest, c);
      DistinctCount(group, c);
      if c in group && c.hash in arrived {
        var d :| d in answers && d.hash == c.hash;
        assert d in group && d == c;
      }
    }
  }

  lemma {:induction false} GroupSplit(group: seq<ChunkRef>, answers: seq<ChunkRef>, arrived: set<Hash>)
    requires RoundAnswers(answers, arrived, group)
    ensures Split(group, answers, Unanswered(group, arrived))
  {
    UnansweredExactly(group, arrived);
    UnansweredSize(group, arrived);
    assert arrived <= HashSet(group) by {
      forall h | h in arrived
        ensures h in HashSet(group)
      {
        HashSetIs(group, h);
      }
    }
    assert arrived * HashSet(group) == arrived;
    if DistinctHashes(group) {
      GroupPartitioned(group, answers, arrived);
    }
  }

  lemma SplitAppend(a: seq<ChunkRef>, got: seq<ChunkRef>, rest: seq<ChunkRef>,
                    b: seq<ChunkRef>, more: seq<ChunkRef>, left: seq<ChunkRef>)
    requires Split(a, got, rest) && Split(b, more, left)
    ensures Split(a + b, got + more, rest + left)
  {
    if DistinctHashes(a + b) {
      assert forall k :: 0 <= k < |a| ==> (a + b)[k] == a[k];
      assert forall k :: 0 <= k < |b| ==> (a + b)[|a| + k] == b[k];
    }
    forall c | c in a + b
      ensures c in rest + left || exists d :: d in got + more && d.hash == c.hash
    {
      if d :| d in got && d.hash == c.hash {
        assert d in got + more;
      }
      if d :| d in more && d.hash == c.hash {
        assert d in got + more;
      }
    }
  }
}
