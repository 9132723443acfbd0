/** String cutting as the program's standard library does it, and u32 decimals. */
module Text {
  import opened Basics

  /** All pieces between separators; one more piece than separators. */
  function Split(s: string, sep: char): (pieces: seq<string>)
    ensures |pieces| >= 1
  {
    if s == "" then [""]
    else
      var rest := Split(s[1..], sep);
      if s[0] == sep then [""] + rest else [[s[0]] + rest[0]] + rest[1..]
  }

  /** Cut at the first separator. */
  function SplitOnce(s: string, sep: char): Option<(string, string)> {
    if s == "" then None
    else if s[0] == sep then Some(("", s[1..]))
    else
      match SplitOnce(s[1..], sep)
      case None => None
      case Some(cut) => Some(([s[0]] + cut.0, cut.1))
  }

  /** Cut at the last separator. */
  function RSplitOnce(s: string, sep: char): Option<(string, string)> {
    if s == "" then None
    else if s[|s| - 1] == sep then Some((s[..|s| - 1], ""))
    else
      match RSplitOnce(s[..|s| - 1], sep)
      case None => None
      case Some(cut) => Some((cut.0, cut.1 + [s[|s| - 1]]))
  }

  function StripPrefix(s: string, prefix: string): Option<string> {
    if prefix <= s then Some(s[|prefix|..]) else None
  }

  predicate EndsWith(s: string, suffix: string) {
    |suffix| <= |s| && s[|s| - |suffix|..] == suffix
  }

  function StripSuffix(s: string, suffix: string): Option<string> {
    if EndsWith(s, suffix) then Some(s[..|s| - |suffix|]) else None
  }

  // ----- laws of cutting -----

  /** A separator in the text separates the two sides' pieces. */
  lemma {:induction false} SplitAt(a: string, sep: char, b: string)
    ensures Split(a + [sep] + b, sep) == Split(a, sep) + Split(b, sep)
  {
    var s := a + [sep] + b;
    if a == "" {
      assert s[1..] == b;
    } else {
      assert s[1..] == a[1..] + [sep] + b;
      SplitAt(a[1..], sep, b);
    }
  }

  /** Membership in a joined text, without looking inside. */
  lemma InJoined(a: string, b: string, c: char)
    ensures c in a + b <==> c in a || c in b
  {
  }

  lemma {:induction false} SplitNone(a: string, sep: char)
    requires sep !in a
    ensures Split(a, sep) == [a]
  {
    if a != "" {
      SplitNone(a[1..], sep);
      assert [a[0]] + a[1..] == a;
    }
  }

  /** No piece contains the separator. */
  lemma {:induction false} PiecesAreClean(s: string, sep: char)
    ensures forall k :: 0 <= k < |Split(s, sep)| ==> sep !in Split(s, sep)[k]
  {
    if s != "" {
      PiecesAreClean(s[1..], sep);
    }
  }

  lemma {:induction false} OnePiece(s: string, sep: char)
    requires |Split(s, sep)| == 1
    ensures Split(s, sep) == [s]
  {
    if s != "" {
      OnePiece(s[1..], sep);
      assert [s[0]] + s[1..] == s;
    }
  }

  /** The text can be cut between any two pieces. */
  lemma CutAt(s: string, sep: char, n: nat) returns (a: string, b: string)
    requires 0 < n < |Split(s, sep)|
    ensures s == a + [sep] + b
    ensures Split(a, sep) == Split(s, sep)[..n] && Split(b, sep) == Split(s, sep)[n..]
  {
    if s[0] == sep && n == 1 {
      a, b := "", s[1..];
    } else {
      a, b := CutAt(s[1..], sep, if s[0] == sep then n - 1 else n);
      a := [s[0]] + a;
      assert a[1..] + [sep] + b == s[1..];
    }
  }

  lemma {:induction false} SplitOnceAt(a: string, sep: char, b: string)
    requires sep !in a
    ensures SplitOnce(a + [sep] + b, sep) == Some((a, b))
  {
    var s := a + [sep] + b;
    if a == "" {
      assert s[1..] == b;
    } else {
      assert s[1..] == a[1..] + [sep] + b;
      SplitOnceAt(a[1..], sep, b);
      assert [a[0]] + a[1..] == a;
    }
  }

  lemma {:induction false} SplitOnceNone(a: string, sep: char)
    requires sep !in a
    ensures SplitOnce(a, sep) == None
  {
    if a != "" {
      SplitOnceNone(a[1..], sep);
    }
  }

  lemma {:induction false} RSplitOnceAt(a: string, sep: char, b: string)
    requires sep !in b
    ensures RSplitOnce(a + [sep] + b, sep) == Some((a, b))
  {
    var s := a + [sep] + b;
    var n := |s| - 1;
    if b == "" {
      assert s[..n] == a;
    } else {
      assert s[..n] == a + [sep] + b[..|b| - 1];
      RSplitOnceAt(a, sep, b[..|b| - 1]);
      assert b[..|b| - 1] + [b[|b| - 1]] == b;
    }
  }

  lemma SuffixOf(a: string, b: string)
    ensures EndsWith(a + b, b)
    ensures StripSuffix(a + b, b) == Some(a)
  {
    assert (a + b)[|a|..] == b && (a + b)[..|a|] == a;
  }

  lemma PrefixOf(a: string, b: string)
    ensures StripPrefix(a + b, a) == Some(b)
  {
    assert (a + b)[|a|..] == b;
  }

  // ----- decimals -----

  function DigitChar(d: nat): char
    requires d < 10
  {
    "0123456789"[d]
  }

  function DigitValue(c: char): Option<nat> {
    if '0' <= c <= '9' then Some(c as nat - '0' as nat) else None
  }

  /** Canonical decimal digits. */
  function Decimal(n: nat): string {
    if n < 10 then [DigitChar(n)] else Decimal(n / 10) + [DigitChar(n % 10)]
  }

  /** One digit more, unless it is not a digit or the value leaves u32. */
  function PushDigit(acc: u32, c: char): Option<u32> {
    match DigitValue(c)
    case None => None
    case Some(d) => if acc * 10 + d > U32_MAX then None else Some(acc * 10 + d)
  }

  function ParseDigits(s: string, acc: u32): Option<u32> {
    if s == "" then Some(acc)
    else
      match PushDigit(acc, s[0])
      case None => None
      case Some(next) => ParseDigits(s[1..], next)
  }

  /** The library's u32 parser: one optional plus sign, at least one digit,
      nothing else, and no overflow. */
  function ParseU32(s: string): Option<u32> {
    if s == "" || s == "+" then None
    else if s[0] == '+' then ParseDigits(s[1..], 0)
    else ParseDigits(s, 0)
  }

  lemma {:induction false} ParseDigitsSnoc(s: string, c: char, acc: u32)
    ensures ParseDigits(s + [c], acc) ==
            match ParseDigits(s, acc)
            case None => None
            case Some(v) => PushDigit(v, c)
  {
    if s == "" {
      assert (s + [c])[1..] == "";
    } else {
      assert (s + [c])[1..] == s[1..] + [c];
      match PushDigit(acc, s[0])
      case None =>
      case Some(next) => ParseDigitsSnoc(s[1..], c, next);
    }
  }

  lemma {:induction false} DecimalIsDigits(n: nat)
    ensures Decimal(n) != ""
    ensures forall c :: c in Decimal(n) ==> '0' <= c <= '9'
  {
    if n >= 10 {
      DecimalIsDigits(n / 10);
    }
  }

  lemma {:induction false} DigitsRoundTrip(n: u32)
    ensures ParseDigits(Decimal(n), 0) == Some(n)
  {
    if n >= 10 {
      DigitsRoundTrip(n / 10);
      ParseDigitsSnoc(Decimal(n / 10), DigitChar(n % 10), 0);
    } else {
      assert Decimal(n)[1..] == "";
    }
  }

  /** Every u32 survives printing and parsing. */
  lemma {:induction false} DecimalRoundTrip(n: u32)
    ensures ParseU32(Decimal(n)) == Some(n)
  {
    DecimalIsDigits(n);
    DigitsRoundTrip(n);
  }
}
