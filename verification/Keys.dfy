/** Key expressions and the parsers that read them back: src/keys.rs, the reply-key
    parsers of src/client.rs, the hex form of src/hash.rs, the id rules of src/id.rs. */
module Keys {
  import opened Basics
  import opened Text

  // ----- builders -----

  function Joined(prefix: string, id: string, tail: string): string {
    prefix + "/" + id + "/" + tail
  }

  function ManifestKey(prefix: string, id: string): string {
    Joined(prefix, id, "manifest")
  }

  function SliceKey(prefix: string, id: string, index: u32): string {
    Joined(prefix, id, "slice/" + Decimal(index))
  }

  function AvailabilityKey(prefix: string, id: string): string {
    Joined(prefix, id, "have")
  }

  function PushOfferKey(prefix: string, id: string): string {
    Joined(prefix, id, "push/offer")
  }

  function PushSliceKey(prefix: string, id: string, index: u32): string {
    Joined(prefix, id, "push/slice/" + Decimal(index))
  }

  function StoreKey(prefix: string, algo: string, hex: string): string {
    Joined(prefix, algo, hex)
  }

  // ----- what ids and prefixes may be -----

  const MAX_ID_LEN: nat := 200

  predicate IsWhitespace(c: char) {
    c == ' ' || '\t' <= c <= '\r'
  }

  predicate ValidId(id: string) {
    && id != ""
    && |id| <= MAX_ID_LEN
    && id != ".."
    && id[0] != '@'
    && (forall c :: c in id ==> c !in {'/', '\\', '*', '?', '#', '$'})
    && (forall c :: c in id ==> !IsWhitespace(c))
  }

  /** No wildcard anywhere: what a server may own. */
  predicate Concrete(prefix: string) {
    prefix != "" && '*' !in prefix
  }

  // ----- parsers -----

  /** Segment by segment, with single-segment wildcards on the query's side and
      no unbounded span. */
  predicate Positional(want: seq<string>, got: seq<string>) {
    && |want| <= |got|
    && forall j :: 0 <= j < |want| ==> got[j] != "**" && (want[j] == got[j] || '*' in got[j])
  }

  function ParseId(prefix: string, key: string): Option<string> {
    var p, k := Split(prefix, '/'), Split(key, '/');
    if |k| <= |p| || !Positional(p, k) then None
    else if k[|p|] == "" || '*' in k[|p|] then None
    else Some(k[|p|])
  }

  datatype Tier2Tail = One(segment: string) | Two(first: string, second: string)

  function ParseTier2Tail(prefix: string, key: string): Option<Tier2Tail> {
    var p, k := Split(prefix, '/'), Split(key, '/');
    if |k| <= |p| || !Positional(p, k) then None
    else if |k| == |p| + 1 then Some(One(k[|p|]))
    else if |k| == |p| + 2 then Some(Two(k[|p|], k[|p| + 1]))
    else None
  }

  function ParseSliceIndex(key: string): Option<u32> {
    match RSplitOnce(key, '/')
    case None => None
    case Some(cut) => if EndsWith(cut.0, "/slice") then ParseU32(cut.1) else None
  }

  function StripSegment(key: string, segment: string): Option<string> {
    match StripSuffix(key, segment)
    case None => None
    case Some(rest) => StripSuffix(rest, "/")
  }

  function OriginOf(key: string, id: string, endpoint: string): Option<string> {
    match StripSegment(key, endpoint)
    case None => None
    case Some(rest) =>
      match StripSegment(rest, id)
      case None => None
      case Some(origin) => if origin == "" then None else Some(origin)
  }

  // ----- round trips -----

  /** The segments of a key built from parts are the parts' segments. */
  lemma {:induction false} JoinedSegments(prefix: string, id: string, tail: string)
    requires '/' !in id
    ensures Split(Joined(prefix, id, tail), '/') == Split(prefix, '/') + [id] + Split(tail, '/')
  {
    SplitAt(prefix + "/" + id, '/', tail);
    SplitAt(prefix, '/', id);
    SplitNone(id, '/');
    assert Joined(prefix, id, tail) == (prefix + "/" + id) + ['/'] + tail;
    assert prefix + "/" + id == prefix + ['/'] + id;
  }

  /** A key under a query prefix with as many segments as the server's own names
      its id exactly when the prefixes match position by position, wildcards of
      the query included. */
  lemma {:induction false} ParseIdExact(prefix: string, query: string, id: string, tail: string)
    requires ValidId(id) && |Split(query, '/')| == |Split(prefix, '/')|
    ensures ParseId(prefix, Joined(query, id, tail)) ==
            if Positional(Split(prefix, '/'), Split(query, '/')) then Some(id) else None
  {
    JoinedSegments(query, id, tail);
    var p, q, k := Split(prefix, '/'), Split(query, '/'), Split(Joined(query, id, tail), '/');
    assert k[|p|] == id;
    assert forall j :: 0 <= j < |p| ==> k[j] == q[j];
    if Positional(p, k) {
      forall j | 0 <= j < |p|
        ensures q[j] != "**" && (p[j] == q[j] || '*' in q[j])
      {
        assert k[j] == q[j];
      }
    }
  }

  /** `key` is `query`, then the segment `id`, then nothing or anything. */
  ghost predicate NamedBy(key: string, query: string, id: string) {
    key == query + "/" + id || exists rest :: key == Joined(query, id, rest)
  }

  /** `query` matches the server's prefix segment by segment. */
  ghost predicate Selects(query: string, prefix: string) {
    Positional(Split(prefix, '/'), Split(query, '/')) && |Split(query, '/')| == |Split(prefix, '/')|
  }

  predicate PlainSegment(id: string) {
    id != "" && '*' !in id && '/' !in id
  }

  /** The parser as a relation on whole keys: it reads `id` exactly from the keys
      that put it, as one plain segment, after a query prefix matching the server's. */
  lemma ParseIdExactly(prefix: string, key: string, id: string)
    ensures ParseId(prefix, key) == Some(id) <==>
            PlainSegment(id) && exists query :: Selects(query, prefix) && NamedBy(key, query, id)
  {
    if ParseId(prefix, key) == Some(id) {
      var query := ReadFrom(prefix, key, id);
    }
    if PlainSegment(id) {
      forall query | Selects(query, prefix) && NamedBy(key, query, id)
        ensures ParseId(prefix, key) == Some(id)
      {
        SegmentsNamed(key, query, id);
        SamePositions(Split(prefix, '/'), Split(query, '/'), Split(key, '/'));
      }
    }
  }

  lemma ReadFrom(prefix: string, key: string, id: string) returns (query: string)
    requires ParseId(prefix, key) == Some(id)
    ensures PlainSegment(id) && Selects(query, prefix) && NamedBy(key, query, id)
  {
    PiecesAreClean(key, '/');
    query := NameIn(key, |Split(prefix, '/')|);
    SamePositions(Split(prefix, '/'), Split(query, '/'), Split(key, '/'));
  }

  lemma SamePositions(p: seq<string>, q: seq<string>, k: seq<string>)
    requires |p| == |q| <= |k| && k[..|p|] == q
    ensures Positional(p, q) <==> Positional(p, k)
  {
    assert forall j :: 0 <= j < |p| ==> k[j] == q[j];
  }

  /** The segments before position `n`, as the query the key was built from. */
  lemma NameIn(key: string, n: nat) returns (query: string)
    requires 0 < n < |Split(key, '/')|
    ensures Split(query, '/') == Split(key, '/')[..n] && NamedBy(key, query, Split(key, '/')[n])
  {
    var tail, id, rest;
    query, tail := CutAt(key, '/', n);
    if |Split(tail, '/')| == 1 {
      OnePiece(tail, '/');
    } else {
      id, rest := CutAt(tail, '/', 1);
      OnePiece(id, '/');
      assert key == Joined(query, id, rest);
    }
  }

  lemma {:induction false} SegmentsNamed(key: string, query: string, id: string)
    requires NamedBy(key, query, id) && '/' !in id
    ensures |Split(key, '/')| > |Split(query, '/')|
    ensures Split(key, '/')[..|Split(query, '/')|] == Split(query, '/')
    ensures Split(key, '/')[|Split(query, '/')|] == id
  {
    if key == query + "/" + id {
      SplitAt(query, '/', id);
      SplitNone(id, '/');
    } else {
      var rest :| key == Joined(query, id, rest);
      JoinedSegments(query, id, rest);
    }
  }

  lemma {:induction false} SegmentsOfConcrete(s: string)
    requires '*' !in s
    ensures forall j :: 0 <= j < |Split(s, '/')| ==> '*' !in Split(s, '/')[j]
  {
    if s != "" {
      SegmentsOfConcrete(s[1..]);
    }
  }

  /** Every per-blob key a server builds under its concrete prefix names its id. */
  lemma ParseIdRoundTrip(prefix: string, id: string, index: u32)
    requires Concrete(prefix) && ValidId(id)
    ensures ParseId(prefix, ManifestKey(prefix, id)) == Some(id)
    ensures ParseId(prefix, AvailabilityKey(prefix, id)) == Some(id)
    ensures ParseId(prefix, SliceKey(prefix, id, index)) == Some(id)
    ensures ParseId(prefix, PushOfferKey(prefix, id)) == Some(id)
    ensures ParseId(prefix, PushSliceKey(prefix, id, index)) == Some(id)
  {
    ConcreteMatchesItself(prefix);
    ParseIdExact(prefix, prefix, id, "manifest");
    ParseIdExact(prefix, prefix, id, "have");
    ParseIdExact(prefix, prefix, id, "slice/" + Decimal(index));
    ParseIdExact(prefix, prefix, id, "push/offer");
    ParseIdExact(prefix, prefix, id, "push/slice/" + Decimal(index));
  }

  lemma {:induction false} ConcreteMatchesItself(prefix: string)
    requires Concrete(prefix)
    ensures Positional(Split(prefix, '/'), Split(prefix, '/'))
  {
    SegmentsOfConcrete(prefix);
  }

  /** The index of a slice key, pulled or pushed, is read back. */
  lemma SliceIndexRoundTrip(prefix: string, id: string, index: u32)
    ensures ParseSliceIndex(SliceKey(prefix, id, index)) == Some(index)
    ensures ParseSliceIndex(PushSliceKey(prefix, id, index)) == Some(index)
  {
    var digits, slice := Decimal(index), "slice";
    var head := prefix + "/" + id;
    SliceIndexAt(head, index);
    SliceIndexAt(head + "/push", index);
    assert "slice/" == slice + "/" && "push/slice/" == "push" + "/" + slice + "/" && "/push" == "/" + "push";
    assert SliceKey(prefix, id, index) == head + "/" + slice + "/" + digits;
    assert PushSliceKey(prefix, id, index) == head + "/push" + "/" + slice + "/" + digits;
  }

  lemma {:induction false} SliceIndexAt(head: string, index: u32)
    ensures ParseSliceIndex(head + "/" + "slice" + "/" + Decimal(index)) == Some(index)
  {
    DecimalIsDigits(index);
    DecimalRoundTrip(index);
    var front := head + "/" + "slice";
    RSplitOnceAt(front, '/', Decimal(index));
    SuffixOf(head, "/" + "slice");
    assert "/slice" == "/" + "slice" && front == head + ("/" + "slice");
  }

  /** The origin of a reply is read back, and nothing else is accepted: a key
      has this origin exactly when it was built from it. */
  lemma OriginRoundTrip(key: string, origin: string, id: string, endpoint: string)
    requires origin != ""
    ensures OriginOf(key, id, endpoint) == Some(origin) <==> key == Joined(origin, id, endpoint)
  {
    if key == Joined(origin, id, endpoint) {
      StripSegmentExact(key, origin + "/" + id, endpoint);
      StripSegmentExact(origin + "/" + id, origin, id);
    }
    if OriginOf(key, id, endpoint) == Some(origin) {
      var rest := StripSegment(key, endpoint).value;
      StripSegmentExact(key, rest, endpoint);
      StripSegmentExact(rest, origin, id);
    }
  }

  lemma StripSegmentExact(key: string, rest: string, segment: string)
    ensures StripSegment(key, segment) == Some(rest) <==> key == rest + "/" + segment
  {
    if key == rest + "/" + segment {
      SuffixOf(rest + "/", segment);
      SuffixOf(rest, "/");
    }
    if StripSegment(key, segment) == Some(rest) {
      var cut := StripSuffix(key, segment).value;
      assert key == cut + segment;
      assert cut == rest + "/";
    }
  }

  // ----- digests in hex -----

  const DIGEST_LEN: nat := 32

  type Octet = x: int | 0 <= x < 256

  function HexChar(nibble: nat): char
    requires nibble < 16
  {
    "0123456789abcdef"[nibble]
  }

  function HexValue(c: char): Option<nat> {
    if '0' <= c <= '9' then Some(c as nat - '0' as nat)
    else if 'a' <= c <= 'f' then Some(c as nat - 'a' as nat + 10)
    else if 'A' <= c <= 'F' then Some(c as nat - 'A' as nat + 10)
    else None
  }

  function ToHex(digest: seq<Octet>): string {
    if digest == [] then ""
    else [HexChar(digest[0] / 16), HexChar(digest[0] % 16)] + ToHex(digest[1..])
  }

  function ParsePairs(s: string): Option<seq<Octet>>
    requires |s| % 2 == 0
  {
    if s == "" then Some([])
    else
      match (HexValue(s[0]), HexValue(s[1]), ParsePairs(s[2..]))
      case (Some(hi), Some(lo), Some(rest)) =>
        assert hi < 16 && lo < 16;
        Some([hi * 16 + lo] + rest)
      case _ => None
  }

  function FromHex(s: string): Option<seq<Octet>> {
    if |s| != 2 * DIGEST_LEN then None else ParsePairs(s)
  }

  lemma {:induction false} HexPairsRoundTrip(digest: seq<Octet>)
    ensures |ToHex(digest)| == 2 * |digest|
    ensures ParsePairs(ToHex(digest)) == Some(digest)
    ensures '/' !in ToHex(digest) && '*' !in ToHex(digest)
  {
    if digest != [] {
      HexPairsRoundTrip(digest[1..]);
      var s := ToHex(digest);
      NibbleRoundTrip(digest[0] / 16);
      NibbleRoundTrip(digest[0] % 16);
      assert s[2..] == ToHex(digest[1..]);
      assert [digest[0]] + digest[1..] == digest;
    }
  }

  lemma NibbleRoundTrip(nibble: nat)
    requires nibble < 16
    ensures HexValue(HexChar(nibble)) == Some(nibble)
    ensures HexChar(nibble) != '/' && HexChar(nibble) != '*'
  {
  }

  /** A digest survives being printed and parsed, in 64 digits. */
  lemma {:induction false} HexRoundTrip(digest: seq<Octet>)
    requires |digest| == DIGEST_LEN
    ensures |ToHex(digest)| == 64
    ensures FromHex(ToHex(digest)) == Some(digest)
  {
    HexPairsRoundTrip(digest);
  }

  /** A chunk address survives being put in a store key and read back out. */
  lemma {:induction false} StoreKeyRoundTrip(prefix: string, algo: string, digest: seq<Octet>)
    requires Concrete(prefix) && '/' !in algo && |digest| == DIGEST_LEN
    ensures ParseTier2Tail(prefix, StoreKey(prefix, algo, ToHex(digest))) == Some(Two(algo, ToHex(digest)))
    ensures FromHex(ToHex(digest)) == Some(digest)
  {
    HexRoundTrip(digest);
    HexPairsRoundTrip(digest);
    TailOfJoined(prefix, algo, ToHex(digest));
  }

  lemma TailOfJoined(prefix: string, first: string, second: string)
    requires Concrete(prefix) && '/' !in first && '/' !in second
    ensures ParseTier2Tail(prefix, Joined(prefix, first, second)) == Some(Two(first, second))
  {
    JoinedSegments(prefix, first, second);
    SplitNone(second, '/');
    ConcreteMatchesItself(prefix);
  }
}
