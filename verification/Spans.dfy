/** Lists of half-open chunk-index spans: what it means to be the maximal runs of
    a set, the coalescing of an index list, and the batch one query carries. */
module Spans {
  import opened Basics

  /** Chunk indices `[start, end)`. */
  datatype Span = Span(start: u32, end: u32)

  /** An index of some chunk: an accepted count fits u32, so its successor does. */
  type ChunkIndex = x: int | 0 <= x < U32_MAX

  const MAX_RANGE_SPANS: nat := 128

  ghost predicate Covers(spans: seq<Span>, i: nat) {
    exists k :: 0 <= k < |spans| && spans[k].start <= i < spans[k].end
  }

  /** Non-empty spans, each ending no later than the next begins. */
  ghost predicate Ordered(spans: seq<Span>) {
    && (forall k :: 0 <= k < |spans| ==> spans[k].start < spans[k].end)
    && (forall j, k :: 0 <= j < k < |spans| ==> spans[j].end <= spans[k].start)
  }

  /** The maximal runs of `s`: ordered, never touching, covering exactly `s`. */
  ghost predicate RunsOf(spans: seq<Span>, s: set<nat>) {
    && Ordered(spans)
    && (forall j, k :: 0 <= j < k < |spans| ==> spans[j].end < spans[k].start)
    && (forall i: nat :: Covers(spans, i) <==> i in s)
  }

  function Total(spans: seq<Span>): nat
    requires forall k :: 0 <= k < |spans| ==> spans[k].start <= spans[k].end
  {
    if spans == [] then 0 else spans[0].end - spans[0].start + Total(spans[1..])
  }

  lemma {:induction false} TotalSnoc(spans: seq<Span>, r: Span)
    requires forall k :: 0 <= k < |spans| ==> spans[k].start <= spans[k].end
    requires r.start <= r.end
    ensures Total(spans + [r]) == Total(spans) + (r.end - r.start)
  {
    if spans != [] {
      assert (spans + [r])[1..] == spans[1..] + [r];
      TotalSnoc(spans[1..], r);
    }
  }

  lemma {:induction false} TotalPrefix(spans: seq<Span>, n: nat)
    requires n <= |spans| && forall k :: 0 <= k < |spans| ==> spans[k].start <= spans[k].end
    ensures Total(spans[..n]) <= Total(spans)
  {
    if n < |spans| {
      TotalPrefix(spans[..|spans| - 1], n);
      TotalSnoc(spans[..|spans| - 1], spans[|spans| - 1]);
      assert spans[..|spans| - 1] + [spans[|spans| - 1]] == spans;
      assert spans[..|spans| - 1][..n] == spans[..n];
    } else {
      assert spans[..n] == spans;
    }
  }

  // ----- uniqueness: "the" maximal runs -----

  lemma FirstRunsAgree(a: seq<Span>, b: seq<Span>, s: set<nat>)
    requires RunsOf(a, s) && RunsOf(b, s) && a != []
    ensures b != [] && b[0].start <= a[0].start
    ensures b[0].start == a[0].start ==> b[0].end <= a[0].end
  {
    assert Covers(a, a[0].start);
    assert Covers(b, a[0].start);
    if b[0].start == a[0].start && a[0].end < b[0].end {
      var i: nat := a[0].end;
      assert Covers(b, i);
    }
  }

  lemma DropFirstRun(a: seq<Span>, s: set<nat>)
    requires RunsOf(a, s) && a != []
    ensures RunsOf(a[1..], set i | i in s && i >= a[0].end)
  {
    var t := set i | i in s && i >= a[0].end;
    forall i: nat
      ensures Covers(a[1..], i) <==> i in t
    {
      if Covers(a[1..], i) {
        var k :| 0 <= k < |a[1..]| && a[1..][k].start <= i < a[1..][k].end;
        assert a[k + 1].start <= i < a[k + 1].end;
        assert Covers(a, i);
      }
      if i in t {
        assert Covers(a, i);
        var k :| 0 <= k < |a| && a[k].start <= i < a[k].end;
        assert a[1..][k - 1] == a[k];
      }
    }
  }

  /** A set has only one list of maximal runs. */
  lemma RunsUnique(a: seq<Span>, b: seq<Span>, s: set<nat>)
    requires RunsOf(a, s) && RunsOf(b, s)
    ensures a == b
  {
    if a == [] {
      if b != [] {
        FirstRunsAgree(b, a, s);
      }
    } else {
      FirstRunsAgree(a, b, s);
      FirstRunsAgree(b, a, s);
      DropFirstRun(a, s);
      DropFirstRun(b, s);
      RunsUnique(a[1..], b[1..], set i | i in s && i >= a[0].end);
      assert a == [a[0]] + a[1..] && b == [b[0]] + b[1..];
    }
  }

  /** Appending a run past everything so far. */
  lemma AppendRun(spans: seq<Span>, s: set<nat>, run: Span, t: set<nat>)
    requires RunsOf(spans, s) && run.start < run.end
    requires forall k :: 0 <= k < |spans| ==> spans[k].end < run.start
    requires forall i: nat :: i in t <==> i in s || run.start <= i < run.end
    ensures RunsOf(spans + [run], t)
  {
    var out := spans + [run];
    forall i: nat
      ensures Covers(out, i) <==> i in t
    {
      if Covers(out, i) && !(run.start <= i < run.end) {
        var k :| 0 <= k < |out| && out[k].start <= i < out[k].end;
        assert spans[k].start <= i < spans[k].end;
        assert Covers(spans, i);
      }
      if Covers(spans, i) {
        var k :| 0 <= k < |spans| && spans[k].start <= i < spans[k].end;
        assert out[k].start <= i < out[k].end;
      }
      if run.start <= i < run.end {
        assert out[|spans|].start <= i < out[|spans|].end;
      }
    }
  }

  /** Lengthening the last run by the index right after it. */
  lemma ExtendRun(spans: seq<Span>, s: set<nat>, i: ChunkIndex)
    requires RunsOf(spans, s) && spans != [] && spans[|spans| - 1].end == i
    ensures var last := spans[|spans| - 1];
            RunsOf(spans[..|spans| - 1] + [Span(last.start, i + 1)], s + {i})
  {
    var n := |spans| - 1;
    var last := spans[n];
    var out := spans[..n] + [Span(last.start, i + 1)];
    forall j: nat
      ensures Covers(out, j) <==> j in s + {i}
    {
      if Covers(out, j) && j != i {
        var k :| 0 <= k < |out| && out[k].start <= j < out[k].end;
        assert spans[k].start <= j < spans[k].end;
        assert Covers(spans, j);
      }
      if j in s {
        assert Covers(spans, j);
        var k :| 0 <= k < |spans| && spans[k].start <= j < spans[k].end;
        assert out[k].start <= j < out[k].end;
      }
      if j == i {
        assert out[n].start <= j < out[n].end;
      }
    }
  }

  // ----- coalescing an index list -----

  /** One index joins the last span if it is the very next one, else opens its own. */
  function AppendIndex(spans: seq<Span>, i: ChunkIndex): seq<Span> {
    var next: u32 := i as int + 1;
    if spans != [] && spans[|spans| - 1].end == i
    then spans[..|spans| - 1] + [Span(spans[|spans| - 1].start, next)]
    else spans + [Span(i, next)]
  }

  /** What coalescing builds before the span cap, for any index list. */
  function Coalesced(indices: seq<ChunkIndex>): seq<Span> {
    if indices == [] then []
    else AppendIndex(Coalesced(indices[..|indices| - 1]), indices[|indices| - 1])
  }

  method Coalesce(indices: seq<ChunkIndex>) returns (out: seq<Span>)
    ensures out == Coalesced(indices)[..Min(|Coalesced(indices)|, MAX_RANGE_SPANS)]
  {
    out := [];
    for n := 0 to |indices|
      invariant out == Coalesced(indices[..n])
    {
      var i := indices[n];
      assert indices[..n + 1][..n] == indices[..n];
      if out != [] && out[|out| - 1].end == i {
        out := out[..|out| - 1] + [Span(out[|out| - 1].start, i as int + 1)];
      } else {
        out := out + [Span(i, i as int + 1)];
      }
    }
    assert indices[..|indices|] == indices;
    out := out[..Min(|out|, MAX_RANGE_SPANS)];
  }

  ghost predicate Ascending(indices: seq<ChunkIndex>) {
    forall j, k :: 0 <= j < k < |indices| ==> indices[j] < indices[k]
  }

  ghost function Elements(indices: seq<ChunkIndex>): set<nat> {
    set i | i in indices
  }

  ghost predicate EndsBy(spans: seq<Span>, limit: nat) {
    forall k :: 0 <= k < |spans| ==> spans[k].end <= limit
  }

  lemma AppendIndexRuns(spans: seq<Span>, s: set<nat>, i: ChunkIndex)
    requires RunsOf(spans, s) && EndsBy(spans, i)
    ensures RunsOf(AppendIndex(spans, i), s + {i})
    ensures EndsBy(AppendIndex(spans, i), i as int + 1)
  {
    if spans != [] && spans[|spans| - 1].end == i {
      ExtendRun(spans, s, i);
    } else {
      AppendRun(spans, s, Span(i, i as int + 1), s + {i});
    }
  }

  /** On an ascending list, coalescing yields the maximal runs of its elements. */
  lemma {:induction false} CoalescedRuns(indices: seq<ChunkIndex>)
    requires Ascending(indices)
    ensures RunsOf(Coalesced(indices), Elements(indices))
    ensures indices != [] ==> EndsBy(Coalesced(indices), indices[|indices| - 1] as int + 1)
  {
    if indices != [] {
      var n := |indices| - 1;
      var init := indices[..n];
      assert indices == init + [indices[n]];
      CoalescedRuns(init);
      assert Elements(indices) == Elements(init) + {indices[n] as nat};
      assert EndsBy(Coalesced(init), indices[n]) by {
        if n > 0 {
          assert init[n - 1] == indices[n - 1] < indices[n];
        }
      }
      AppendIndexRuns(Coalesced(init), Elements(init), indices[n]);
    }
  }

  /** Coalescing the ascending list of a set's members is the set's run list,
      cut at the span cap. */
  lemma {:induction false} CoalesceAgreesWithRuns(indices: seq<ChunkIndex>, runs: seq<Span>)
    requires Ascending(indices) && RunsOf(runs, Elements(indices))
    ensures Coalesced(indices) == runs
  {
    CoalescedRuns(indices);
    RunsUnique(Coalesced(indices), runs, Elements(indices));
  }

  // ----- the batch one query carries -----

  /** Every span shortened to what is left of the budget, in order. */
  function Shrunk(holes: seq<Span>, budget: nat): (r: seq<Span>)
    requires forall k :: 0 <= k < |holes| ==> holes[k].start <= holes[k].end
  {
    if holes == [] then []
    else
      var take := Min(holes[0].end - holes[0].start, budget);
      [Span(holes[0].start, holes[0].start + take)] + Shrunk(holes[1..], budget - take)
  }

  function Retained(spans: seq<Span>): seq<Span> {
    if spans == [] then []
    else if spans[0].start < spans[0].end then [spans[0]] + Retained(spans[1..])
    else Retained(spans[1..])
  }

  /** The batch for `holes` under `budget`: at most 128 spans, cut to the budget,
      empty ones dropped. */
  function Batch(holes: seq<Span>, budget: nat): seq<Span>
    requires Ordered(holes)
  {
    Retained(Shrunk(holes[..Min(|holes|, MAX_RANGE_SPANS)], budget))
  }

  method CutBatch(holes: seq<Span>, budget: u32) returns (batch: seq<Span>)
    requires Ordered(holes)
    ensures batch == Batch(holes, budget)
  {
    var cut := ShrinkAll(holes[..Min(|holes|, MAX_RANGE_SPANS)], budget);
    batch := [];
    for k := 0 to |cut|
      invariant batch + Retained(cut[k..]) == Retained(cut)
    {
      assert cut[k..] == [cut[k]] + cut[k + 1..];
      if cut[k].start < cut[k].end {
        batch := batch + [cut[k]];
      }
    }
  }

  /** The first loop: walk the spans, spending the budget. */
  method ShrinkAll(holes: seq<Span>, budget: u32) returns (cut: seq<Span>)
    requires Ordered(holes)
    ensures cut == Shrunk(holes, budget)
  {
    cut := [];
    var left: u32 := budget;
    for k := 0 to |holes|
      invariant cut + Shrunk(holes[k..], left) == Shrunk(holes, budget)
    {
      var take: u32 := Min(holes[k].end - holes[k].start, left);
      ghost var rest := Shrunk(holes[k + 1..], left - take);
      assert Shrunk(holes[k..], left) == [Span(holes[k].start, holes[k].start + take)] + rest by {
        assert holes[k..][1..] == holes[k + 1..];
      }
      cut := cut + [Span(holes[k].start, holes[k].start + take)];
      left := left - take;
    }
  }

  // ----- what a batch guarantees -----

  /** Whole holes from the front, then at most one hole cut short. */
  ghost predicate FrontOf(b: seq<Span>, holes: seq<Span>, m: nat) {
    && m <= |holes|
    && m <= |b| <= m + 1
    && b[..m] == holes[..m]
    && (|b| == m + 1 ==> m < |holes| && b[m].start == holes[m].start < b[m].end < holes[m].end)
  }

  /** Cutting takes the lowest indices first and spends exactly what the budget
      allows. */
  lemma CutTakesFront(holes: seq<Span>, budget: nat) returns (m: nat)
    requires Ordered(holes)
    ensures FrontOf(Retained(Shrunk(holes, budget)), holes, m)
    ensures Ordered(Retained(Shrunk(holes, budget)))
    ensures Total(Retained(Shrunk(holes, budget))) == Min(budget, Total(holes))
  {
    m := 0;
    if holes != [] {
      var len := holes[0].end - holes[0].start;
      var take := Min(len, budget);
      var rest := Retained(Shrunk(holes[1..], budget - take));
      if take == len {
        var below := CutTakesFront(holes[1..], budget - take);
        CutWholeHole(holes, budget);
        FrontCons(holes, rest, below);
        m := below + 1;
      } else {
        NothingLeft(holes[1..]);
        CutMidHole(holes, budget);
      }
    }
  }

  lemma CutWholeHole(holes: seq<Span>, budget: nat)
    requires Ordered(holes) && holes != [] && holes[0].end - holes[0].start <= budget
    ensures var len := holes[0].end - holes[0].start;
            && Retained(Shrunk(holes, budget)) == [holes[0]] + Retained(Shrunk(holes[1..], budget - len))
            && Total(holes) == len + Total(holes[1..])
  {
    var len := holes[0].end - holes[0].start;
    var rest := Shrunk(holes[1..], budget - len);
    assert Shrunk(holes, budget) == [holes[0]] + rest;
    assert ([holes[0]] + rest)[1..] == rest;
  }

  lemma {:induction false} CutMidHole(holes: seq<Span>, budget: nat)
    requires Ordered(holes) && holes != [] && budget < holes[0].end - holes[0].start
    requires Retained(Shrunk(holes[1..], 0)) == []
    ensures var b := Retained(Shrunk(holes, budget));
            FrontOf(b, holes, 0) && Ordered(b) && Total(b) == budget <= Total(holes)
  {
    var first := Span(holes[0].start, holes[0].start + budget);
    assert Retained(Shrunk(holes, budget)) == if budget > 0 then [first] else [];
    assert Total(holes) == holes[0].end - holes[0].start + Total(holes[1..]);
  }

  lemma {:induction false} NothingLeft(holes: seq<Span>)
    requires Ordered(holes)
    ensures Retained(Shrunk(holes, 0)) == []
  {
    if holes != [] {
      NothingLeft(holes[1..]);
    }
  }

  lemma {:induction false} FrontCons(holes: seq<Span>, rest: seq<Span>, m: nat)
    requires holes != [] && Ordered(holes) && FrontOf(rest, holes[1..], m)
    ensures FrontOf([holes[0]] + rest, holes, m + 1)
    ensures Ordered([holes[0]] + rest)
    ensures Total([holes[0]] + rest) == holes[0].end - holes[0].start + Total(rest)
  {
    var b := [holes[0]] + rest;
    assert b[1..] == rest;
    assert b[..m + 1] == [holes[0]] + rest[..m] == holes[..m + 1];
    FrontIsOrdered(b, holes, m + 1);
  }

  lemma FrontIsOrdered(b: seq<Span>, holes: seq<Span>, m: nat)
    requires Ordered(holes) && FrontOf(b, holes, m)
    ensures Ordered(b)
    ensures forall i: nat :: Covers(b, i) ==> Covers(holes, i)
    ensures forall i: nat, j: nat :: i < j && Covers(b, j) && Covers(holes, i) ==> Covers(b, i)
  {
    forall k | 0 <= k < |b|
      ensures b[k].start == holes[k].start < b[k].end <= holes[k].end
      ensures k < m ==> b[k] == holes[k]
    {
      assert k < m ==> b[..m][k] == holes[..m][k];
    }
    forall i: nat, j: nat | i < j && Covers(b, j) && Covers(holes, i)
      ensures Covers(b, i)
    {
      var y :| 0 <= y < |b| && b[y].start <= j < b[y].end;
      var x :| 0 <= x < |holes| && holes[x].start <= i < holes[x].end;
      assert x <= y;
      assert b[x].start <= i < b[x].end;
    }
  }

  lemma TotalOfFront(holes: seq<Span>, n: nat)
    requires Ordered(holes) && n <= |holes|
    ensures n > 0 ==> Total(holes[..n]) > 0
  {
    if n > 0 {
      assert holes[..n][0] == holes[0];
    }
  }

  /** The whole contract of a batch, for the maximal runs of a set: at most 128
      ordered spans within the budget, only members of the set, empty only if
      the set is, and always the lowest members. */
  lemma BatchFacts(holes: seq<Span>, s: set<nat>, budget: nat)
    requires RunsOf(holes, s) && budget > 0
    ensures Ordered(Batch(holes, budget))
    ensures |Batch(holes, budget)| <= MAX_RANGE_SPANS
    ensures Total(Batch(holes, budget)) ==
            Min(budget, Total(holes[..Min(|holes|, MAX_RANGE_SPANS)]))
    ensures s != {} <==> Batch(holes, budget) != []
    ensures forall i: nat :: Covers(Batch(holes, budget), i) ==> i in s
    ensures forall i: nat, j: nat ::
              i < j && Covers(Batch(holes, budget), j) && i in s ==> Covers(Batch(holes, budget), i)
  {
    var n := Min(|holes|, MAX_RANGE_SPANS);
    var kept, b := holes[..n], Batch(holes, budget);
    var m := CutTakesFront(kept, budget);
    FrontIsOrdered(b, kept, m);
    FrontOf128(holes, n);
    TotalOfFront(holes, n);
    if s != {} {
      var i :| i in s;
      assert Covers(holes, i);
    }
    forall i: nat, j: nat | i < j && Covers(b, j) && i in s
      ensures Covers(b, i)
    {
      assert Covers(kept, j) && Covers(holes, i);
    }
    if b != [] {
      assert Covers(b, b[0].start);
    }
  }

  lemma FrontOf128(holes: seq<Span>, n: nat)
    requires Ordered(holes) && n <= |holes|
    ensures forall i: nat :: Covers(holes[..n], i) ==> Covers(holes, i)
    ensures forall i: nat, j: nat ::
              i < j && Covers(holes[..n], j) && Covers(holes, i) ==> Covers(holes[..n], i)
  {
    var front := holes[..n];
    assert FrontOf(front, holes, n);
    FrontIsOrdered(front, holes, n);
  }
}
