/** The `ranges` parameter of a slice query: printed by the client, parsed by the
    server. src/keys.rs. */
module Selector {
  import opened Basics
  import opened Spans
  import opened Text

  // ----- printing -----

  function SpanText(r: Span): string {
    if r.end == r.start as int + 1 then Decimal(r.start)
    else Decimal(r.start) + "-" + Decimal(r.end)
  }

  /** The texts of the non-empty spans, comma separated. */
  function Printed(ranges: seq<Span>): string {
    if ranges == [] then ""
    else
      var n := |ranges| - 1;
      var before, r := Printed(ranges[..n]), ranges[n];
      if r.start >= r.end then before
      else if before == "" then SpanText(r)
      else before + "," + SpanText(r)
  }

  method FormatRanges(ranges: seq<Span>) returns (out: string)
    ensures out == Printed(ranges)
  {
    out := "";
    for k := 0 to |ranges|
      invariant out == Printed(ranges[..k])
    {
      var r := ranges[k];
      assert ranges[..k + 1][..k] == ranges[..k];
      if r.start >= r.end {
        continue;
      }
      if out != "" {
        out := out + ",";
      }
      if r.end == r.start as int + 1 {
        out := out + Decimal(r.start);
      } else {
        out := out + (Decimal(r.start) + "-" + Decimal(r.end));
      }
    }
    assert ranges[..|ranges|] == ranges;
  }

  // ----- parsing -----

  const RANGES_KEY := "ranges="

  /** The value of the last `ranges=` parameter among `pairs`. */
  function LastRanges(pairs: seq<string>): Option<string> {
    if pairs == [] then None
    else
      match StripPrefix(pairs[|pairs| - 1], RANGES_KEY)
      case Some(r) => Some(r)
      case None => LastRanges(pairs[..|pairs| - 1])
  }

  /** One span text: `a-b`, or a bare index whose successor must fit u32. */
  function ParseSpan(text: string): Option<Span> {
    match SplitOnce(text, '-')
    case Some(cut) =>
      (match ParseU32(cut.0)
       case None => None
       case Some(a) =>
         match ParseU32(cut.1)
         case None => None
         case Some(b) => Some(Span(a, b)))
    case None =>
      match ParseU32(text)
      case None => None
      case Some(k) => if k == U32_MAX then None else Some(Span(k, k as int + 1))
  }

  /** The pieces spell exactly these spans, one each. */
  ghost predicate SpelledBy(pieces: seq<string>, spans: seq<Span>) {
    && |pieces| == |spans|
    && forall k :: 0 <= k < |spans| ==> ParseSpan(pieces[k]) == Some(spans[k])
  }

  /** `params` carries a `ranges` parameter that spells exactly these spans. */
  ghost predicate Spells(params: string, spans: seq<Span>) {
    match LastRanges(Split(params, '&'))
    case None => false
    case Some(spec) => SpelledBy(Split(spec, ','), spans)
  }

  /** What a server is willing to serve for one query. */
  ghost predicate Admissible(spans: seq<Span>, chunkCount: u32, maxChunks: u32) {
    && spans != []
    && |spans| <= MAX_RANGE_SPANS
    && Ordered(spans)
    && EndsBy(spans, chunkCount)
    && Total(spans) <= maxChunks
  }

  /** The spans a parameter string stands for, if it is admissible. Text
      determines spans, so there is at most one. */
  ghost function Selection(params: string, chunkCount: u32, maxChunks: u32): Option<seq<Span>> {
    if spans :| Spells(params, spans) && Admissible(spans, chunkCount, maxChunks)
    then Some(spans) else None
  }

  lemma SpellsOnce(params: string, a: seq<Span>, b: seq<Span>)
    requires Spells(params, a) && Spells(params, b)
    ensures a == b
  {
    var pieces := Split(LastRanges(Split(params, '&')).value, ',');
    forall k | 0 <= k < |a|
      ensures a[k] == b[k]
    {
      assert ParseSpan(pieces[k]) == Some(a[k]) == Some(b[k]);
    }
  }

  lemma SelectionIs(params: string, spans: seq<Span>, chunkCount: u32, maxChunks: u32)
    requires Spells(params, spans)
    ensures Selection(params, chunkCount, maxChunks) ==
            if Admissible(spans, chunkCount, maxChunks) then Some(spans) else None
  {
    forall other | Spells(params, other)
      ensures other == spans
    {
      SpellsOnce(params, other, spans);
    }
  }

  /** The server's parser. It returns exactly the selection: every rejection is
      justified and every acceptance meets the whole contract. */
  method ParseRanges(params: string, chunkCount: u32, maxChunks: u32) returns (r: Option<seq<Span>>)
    ensures r == Selection(params, chunkCount, maxChunks)
    ensures r.Some? ==> Spells(params, r.value) && Admissible(r.value, chunkCount, maxChunks)
  {
    var pairs := Split(params, '&');
    var spec: Option<string> := None;
    for n := 0 to |pairs|
      invariant spec == LastRanges(pairs[..n])
    {
      assert pairs[..n + 1][..n] == pairs[..n];
      match StripPrefix(pairs[n], RANGES_KEY)
      case Some(value) => spec := Some(value);
      case None =>
    }
    assert pairs[..|pairs|] == pairs;
    if spec.None? {
      return None;
    }
    r := ParsePieces(Split(spec.value, ','), chunkCount, maxChunks);
    if r.Some? {
      SelectionIs(params, r.value, chunkCount, maxChunks);
    }
  }

  /** The span loop. The u64 total and the u32 bounds are typed, so nothing wraps
      on the way. */
  method ParsePieces(pieces: seq<string>, chunkCount: u32, maxChunks: u32) returns (r: Option<seq<Span>>)
    requires pieces != []
    ensures r.Some? ==> SpelledBy(pieces, r.value) && Admissible(r.value, chunkCount, maxChunks)
    ensures r.None? ==> forall spans :: SpelledBy(pieces, spans) ==> !Admissible(spans, chunkCount, maxChunks)
  {
    var out: seq<Span> := [];
    var total: u64 := 0;
    for n := 0 to |pieces|
      invariant SpelledBy(pieces[..n], out)
      invariant out == [] || Admissible(out, chunkCount, maxChunks)
      invariant total == Total(out) <= maxChunks
    {
      if |out| >= MAX_RANGE_SPANS {
        return None;
      }
      var span := ParseSpan(pieces[n]);
      if span.None? {
        return None;
      }
      var start, end := span.value.start, span.value.end;
      if start >= end || end > chunkCount || (out != [] && start < out[|out| - 1].end) {
        Misplaced(pieces, out, span.value, chunkCount, maxChunks);
        return None;
      }
      total := total + (end - start);
      TotalSnoc(out, span.value);
      if total > maxChunks {
        TooLong(pieces, out, span.value, chunkCount, maxChunks);
        return None;
      }
      SpelledSnoc(pieces, out, span.value, chunkCount, maxChunks);
      out := out + [Span(start, end)];
    }
    assert pieces[..|pieces|] == pieces;
    r := Some(out);
  }

  /** The span after `out`, read from the next piece. */
  ghost predicate Next(pieces: seq<string>, out: seq<Span>, r: Span) {
    && |out| < |pieces|
    && SpelledBy(pieces[..|out|], out)
    && ParseSpan(pieces[|out|]) == Some(r)
  }

  lemma {:induction false} SpelledSnoc(pieces: seq<string>, out: seq<Span>, r: Span, chunkCount: u32, maxChunks: u32)
    requires Next(pieces, out, r)
    requires out == [] || Admissible(out, chunkCount, maxChunks)
    requires r.start < r.end <= chunkCount && (out != [] ==> out[|out| - 1].end <= r.start)
    requires |out| < MAX_RANGE_SPANS && Total(out + [r]) <= maxChunks
    ensures SpelledBy(pieces[..|out| + 1], out + [r])
    ensures Admissible(out + [r], chunkCount, maxChunks)
  {
    forall k | 0 <= k < |out|
      ensures out[k].end <= r.start
    {
      assert k < |out| - 1 ==> out[k].end <= out[|out| - 1].start;
    }
  }

  /** Any spelling begins with what was parsed so far. */
  lemma SpellingStarts(pieces: seq<string>, out: seq<Span>, r: Span, spans: seq<Span>)
    requires Next(pieces, out, r) && SpelledBy(pieces, spans)
    ensures |out| < |spans| && spans[..|out| + 1] == out + [r]
  {
    forall k | 0 <= k < |out|
      ensures spans[k] == out[k]
    {
      assert pieces[..|out|][k] == pieces[k];
      assert ParseSpan(pieces[k]) == Some(spans[k]);
    }
  }

  lemma Misplaced(pieces: seq<string>, out: seq<Span>, r: Span, chunkCount: u32, maxChunks: u32)
    requires Next(pieces, out, r)
    requires r.start >= r.end || r.end > chunkCount || (out != [] && r.start < out[|out| - 1].end)
    ensures forall spans :: SpelledBy(pieces, spans) ==> !Admissible(spans, chunkCount, maxChunks)
  {
    forall spans | SpelledBy(pieces, spans)
      ensures !Admissible(spans, chunkCount, maxChunks)
    {
      SpellingStarts(pieces, out, r, spans);
      var n := |out|;
      assert spans[n] == spans[..n + 1][n] == r;
      assert n > 0 ==> spans[n - 1] == spans[..n + 1][n - 1] == out[n - 1];
    }
  }

  lemma {:induction false} TooLong(pieces: seq<string>, out: seq<Span>, r: Span, chunkCount: u32, maxChunks: u32)
    requires Next(pieces, out, r)
    requires forall k :: 0 <= k < |out| ==> out[k].start <= out[k].end
    requires r.start <= r.end && Total(out + [r]) > maxChunks
    ensures forall spans :: SpelledBy(pieces, spans) ==> !Admissible(spans, chunkCount, maxChunks)
  {
    forall spans | SpelledBy(pieces, spans)
      ensures !Admissible(spans, chunkCount, maxChunks)
    {
      SpellingStarts(pieces, out, r, spans);
      if Ordered(spans) {
        TotalPrefix(spans, |out| + 1);
      }
    }
  }

  // ----- round trip -----

  lemma SpanTextRoundTrip(r: Span)
    requires r.start < r.end
    ensures ParseSpan(SpanText(r)) == Some(r)
    ensures SpanText(r) != "" && ',' !in SpanText(r) && '&' !in SpanText(r) && '?' !in SpanText(r)
  {
    DecimalRoundTrip(r.start);
    DecimalRoundTrip(r.end);
    DecimalIsDigits(r.start);
    DecimalIsDigits(r.end);
    if r.end == r.start as int + 1 {
      SplitOnceNone(SpanText(r), '-');
    } else {
      SplitOnceAt(Decimal(r.start), '-', Decimal(r.end));
    }
  }

  /** Splitting the printed form gives back the printed spans, one by one. */
  lemma {:induction false} PrintedPieces(ranges: seq<Span>)
    requires ranges != [] && forall k :: 0 <= k < |ranges| ==> ranges[k].start < ranges[k].end
    ensures Printed(ranges) != "" && SpelledBy(Split(Printed(ranges), ','), ranges)
  {
    var n := |ranges| - 1;
    var text := SpanText(ranges[n]);
    SpanTextRoundTrip(ranges[n]);
    if n == 0 {
      SplitNone(text, ',');
      assert Printed(ranges[..0]) == "";
    } else {
      PrintedPieces(ranges[..n]);
      PieceAppended(Printed(ranges[..n]), ranges[..n], text, ranges[n]);
      assert ranges[..n] + [ranges[n]] == ranges;
    }
  }

  /** Printed spans never contain a separator of the key expression. */
  lemma {:induction false} PrintedIsClean(ranges: seq<Span>, c: char)
    requires forall k :: 0 <= k < |ranges| ==> ranges[k].start < ranges[k].end
    requires c == '&' || c == '?'
    ensures c !in Printed(ranges)
  {
    if ranges != [] {
      var n := |ranges| - 1;
      var text := SpanText(ranges[n]);
      PrintedIsClean(ranges[..n], c);
      SpanTextRoundTrip(ranges[n]);
      InJoined(Printed(ranges[..n]), ",", c);
      InJoined(Printed(ranges[..n]) + ",", text, c);
    }
  }

  lemma {:induction false} PieceAppended(before: string, spans: seq<Span>, text: string, r: Span)
    requires SpelledBy(Split(before, ','), spans) && ParseSpan(text) == Some(r) && ',' !in text
    ensures SpelledBy(Split(before + "," + text, ','), spans + [r])
  {
    SplitNone(text, ',');
    SplitAt(before, ',', text);
    SpelledAppend(Split(before, ','), spans, text, r);
  }

  lemma SpelledAppend(pieces: seq<string>, spans: seq<Span>, piece: string, r: Span)
    requires SpelledBy(pieces, spans) && ParseSpan(piece) == Some(r)
    ensures SpelledBy(pieces + [piece], spans + [r])
  {
  }

  lemma OnlyParameter(params: string, value: string)
    requires StripPrefix(params, RANGES_KEY) == Some(value)
    ensures LastRanges([params]) == Some(value)
  {
  }

  lemma {:induction false} PrintedSpells(ranges: seq<Span>)
    requires ranges != [] && forall k :: 0 <= k < |ranges| ==> ranges[k].start < ranges[k].end
    ensures Spells(RANGES_KEY + Printed(ranges), ranges)
  {
    PrintedPieces(ranges);
    ParametersAreClean(ranges);
    SplitNone(RANGES_KEY + Printed(ranges), '&');
    PrefixOf(RANGES_KEY, Printed(ranges));
    OnlyParameter(RANGES_KEY + Printed(ranges), Printed(ranges));
  }

  lemma {:induction false} ParametersAreClean(ranges: seq<Span>)
    requires forall k :: 0 <= k < |ranges| ==> ranges[k].start < ranges[k].end
    ensures '&' !in RANGES_KEY + Printed(ranges)
  {
    PrintedIsClean(ranges, '&');
    InJoined(RANGES_KEY, Printed(ranges), '&');
    assert forall k :: 0 <= k < |RANGES_KEY| ==> RANGES_KEY[k] != '&';
  }

  /** Whatever the server would admit survives printing and parsing unchanged. */
  lemma {:induction false} SelectorRoundTrip(ranges: seq<Span>, chunkCount: u32, maxChunks: u32)
    requires Admissible(ranges, chunkCount, maxChunks)
    ensures Selection(RANGES_KEY + Printed(ranges), chunkCount, maxChunks) == Some(ranges)
  {
    PrintedSpells(ranges);
    SelectionIs(RANGES_KEY + Printed(ranges), ranges, chunkCount, maxChunks);
  }

  /** A batch worth sending: non-empty, only missing chunks, within the budget, and
      read back unchanged by any server that admits that many chunks. */
  ghost predicate Usable(batch: seq<Span>, missing: set<nat>, budget: u32, chunkCount: u32) {
    && Admissible(batch, chunkCount, budget)
    && (forall i: nat :: Covers(batch, i) ==> i in missing)
    && (forall cap: u32 :: budget <= cap ==>
          Selection(RANGES_KEY + Printed(batch), chunkCount, cap) == Some(batch))
  }

  /** End to end, from the holes of a bitfield: for any incomplete set of chunks
      and any parser cap at least the budget, the batch cut from its maximal runs
      is a non-empty set of missing chunks that the server reads back exactly. */
  lemma BatchReachesServer(holes: seq<Span>, missing: set<nat>, budget: u32, chunkCount: u32)
    requires RunsOf(holes, missing) && EndsBy(holes, chunkCount) && missing != {} && budget > 0
    ensures Usable(Batch(holes, budget), missing, budget, chunkCount)
  {
    var b := Batch(holes, budget);
    BatchFacts(holes, missing, budget);
    assert EndsBy(b, chunkCount) by {
      forall k | 0 <= k < |b|
        ensures b[k].end <= chunkCount
      {
        var last: nat := b[k].end - 1;
        assert Covers(b, last);
        assert Covers(holes, last);
      }
    }
    forall cap: u32 | budget <= cap
      ensures Selection(RANGES_KEY + Printed(b), chunkCount, cap) == Some(b)
    {
      SelectorRoundTrip(b, chunkCount, cap);
    }
  }
}
