/** LSB-first bitfields over bytes: the membership test and the two population
    counts that src/resume.rs and src/wire.rs compute independently of it. */
module Bits {
  import opened Basics

  /** `1 << k` on a byte. */
  function Bit(k: nat): bv8
    requires k < 8
  {
    match k
    case 0 => 0x01 case 1 => 0x02 case 2 => 0x04 case 3 => 0x08
    case 4 => 0x10 case 5 => 0x20 case 6 => 0x40 case _ => 0x80
  }

  predicate TestBit(b: bv8, k: nat)
    requires k < 8
  {
    b & Bit(k) != 0
  }

  /** The lowest `v` bits, saturating at a whole byte. */
  function Mask(v: nat): bv8 {
    if v >= 8 then 0xff else Bit(v) - 1
  }

  /** How many of the lowest `v` bits of `b` are set. */
  function OnesBelow(b: bv8, v: nat): nat
    requires v <= 8
  {
    if v == 0 then 0 else OnesBelow(b, v - 1) + if TestBit(b, v - 1) then 1 else 0
  }

  function CountOnes(b: bv8): nat {
    OnesBelow(b, 8)
  }

  /** Bytes needed for `count` bits. */
  function BytesFor(count: u32): nat {
    (count + 7) / 8
  }

  // ----- single bytes -----

  lemma MaskBit(b: bv8, v: nat, k: nat)
    requires k < 8
    ensures TestBit(b & Mask(v), k) <==> k < v && TestBit(b, k)
  {
    if v == 0 {} else if v == 1 {} else if v == 2 {} else if v == 3 {}
    else if v == 4 {} else if v == 5 {} else if v == 6 {} else if v == 7 {} else {}
  }

  lemma ZeroHasNoBit(k: nat)
    requires k < 8
    ensures !TestBit(0, k)
  {
  }

  lemma OrBit(b: bv8, j: nat, k: nat)
    requires j < 8 && k < 8
    ensures TestBit(b | Bit(j), k) <==> k == j || TestBit(b, k)
  {
  }

  lemma OnesMasked(b: bv8, v: nat, k: nat)
    requires k <= 8
    ensures OnesBelow(b & Mask(v), k) == OnesBelow(b, if v < k then v else k)
  {
    if k > 0 {
      OnesMasked(b, v, k - 1);
      MaskBit(b, v, k - 1);
    }
  }

  /** Masking then counting a byte counts exactly its lowest `v` bits. */
  lemma CountMasked(b: bv8, v: nat)
    ensures CountOnes(b & Mask(v)) == OnesBelow(b, if v < 8 then v else 8)
  {
    OnesMasked(b, v, 8);
  }

  // ----- whole bitfields -----

  /** A value that fits u32 is not changed by narrowing. */
  lemma FitsU32(x: nat)
    requires x <= U32_MAX
    ensures x % U32_SPAN == x
  {
  }

  const U32_SPAN: int := U32_MAX + 1

  /** Bit `i` of a field of `count` entries. The byte count is narrowed to u32
      before the comparison. */
  predicate IsSet(bits: Bytes, count: u32, i: u32) {
    i < count && i / 8 < |bits| % U32_SPAN && TestBit(bits[i / 8], i % 8)
  }

  /** The entries below `n` whose bit is set. */
  ghost function SetBelow(bits: Bytes, count: u32, n: nat): (s: set<nat>)
    requires n <= U32_SPAN
    ensures forall i: nat :: i in s ==> i < n
  {
    if n == 0 then {}
    else SetBelow(bits, count, n - 1) + if IsSet(bits, count, n - 1) then {n - 1} else {}
  }

  lemma {:induction false} InSetBelow(bits: Bytes, count: u32, n: nat, i: nat)
    requires n <= U32_SPAN
    ensures i in SetBelow(bits, count, n) <==> i < n && IsSet(bits, count, i)
  {
    if n > 0 {
      InSetBelow(bits, count, n - 1, i);
    }
  }

  /** The same entries, counted one index at a time. */
  ghost function Members(bits: Bytes, count: u32, n: nat): nat
    requires n <= U32_SPAN
  {
    if n == 0 then 0 else Members(bits, count, n - 1) + if IsSet(bits, count, n - 1) then 1 else 0
  }

  lemma {:induction false} MembersBound(bits: Bytes, count: u32, n: nat)
    requires n <= U32_SPAN
    ensures Members(bits, count, n) <= n
  {
    if n > 0 {
      MembersBound(bits, count, n - 1);
    }
  }

  lemma {:induction false} MembersIsCard(bits: Bytes, count: u32, n: nat)
    requires n <= U32_SPAN
    ensures Members(bits, count, n) == |SetBelow(bits, count, n)|
  {
    if n > 0 {
      MembersIsCard(bits, count, n - 1);
      var before := SetBelow(bits, count, n - 1);
      assert |before + {n - 1}| == |before| + 1;
    }
  }

  /** Nothing at or past the count is a member. */
  lemma {:induction false} MembersCap(bits: Bytes, count: u32, n: nat)
    requires count <= n <= U32_SPAN
    ensures Members(bits, count, n) == Members(bits, count, count)
  {
    if count < n {
      MembersCap(bits, count, n - 1);
    }
  }

  /** The number of bytes whose base index still fits u32. */
  const ADDRESSABLE_BYTES: nat := 0x2000_0000

  /** Field lengths whose narrowed value still covers every byte an index can name. */
  predicate Addressable(n: nat) {
    Min(n, ADDRESSABLE_BYTES) <= n % U32_SPAN
  }

  /** Byte and bit addressing agree. */
  lemma IsSetAt(bits: Bytes, count: u32, j: nat, k: nat)
    requires Addressable(|bits|) && j < |bits| && k < 8 && 8 * j + k < count
    ensures IsSet(bits, count, 8 * j + k) <==> TestBit(bits[j], k)
  {
    assert (8 * j + k) / 8 == j && (8 * j + k) % 8 == k;
  }

  /** One byte's worth of entries, counted bit by bit. */
  lemma {:induction false} SetInByte(bits: Bytes, count: u32, j: nat, v: nat)
    requires Addressable(|bits|) && j < |bits| && v <= 8 && 8 * j + v <= count
    ensures Members(bits, count, 8 * j + v) ==
            Members(bits, count, 8 * j) + OnesBelow(bits[j], v)
  {
    if v > 0 {
      SetInByte(bits, count, j, v - 1);
      IsSetAt(bits, count, j, v - 1);
    }
  }

  /** Entries beyond the last byte are not members. */
  lemma {:induction false} MembersBeyondBytes(bits: Bytes, count: u32, n: nat)
    requires 8 * |bits| <= n <= U32_SPAN
    ensures Members(bits, count, n) == Members(bits, count, 8 * |bits|)
  {
    if 8 * |bits| < n {
      MembersBeyondBytes(bits, count, n - 1);
      FitsU32(|bits|);
      assert (n - 1) / 8 >= |bits|;
    }
  }

  // ----- the count of wire.rs: whole bytes, then the masked partial byte -----

  function WholeBytes(bits: Bytes, n: nat): nat
    requires n <= |bits|
  {
    if n == 0 then 0 else WholeBytes(bits, n - 1) + CountOnes(bits[n - 1])
  }

  function CountBits(bits: Bytes, limit: u32): nat {
    var full := limit / 8;
    var whole := WholeBytes(bits, Min(full, |bits|));
    if full < |bits| && limit % 8 > 0
    then whole + CountOnes(bits[full] & Mask(limit % 8))
    else whole
  }

  lemma {:induction false} WholeBytesCount(bits: Bytes, count: u32, n: nat)
    requires Addressable(|bits|) && n <= |bits| && 8 * n <= count
    ensures WholeBytes(bits, n) == Members(bits, count, 8 * n)
  {
    if n > 0 {
      WholeBytesCount(bits, count, n - 1);
      SetInByte(bits, count, n - 1, 8);
    }
  }

  /** `CountBits` is the number of members, whatever the bytes hold: neither
      forged padding bits nor surplus bytes can inflate it. */
  lemma {:induction false} CountBitsExact(bits: Bytes, limit: u32)
    requires Addressable(|bits|)
    ensures CountBits(bits, limit) == |SetBelow(bits, limit, limit)|
  {
    MembersIsCard(bits, limit, limit);
    var full := limit / 8;
    WholeBytesCount(bits, limit, Min(full, |bits|));
    if full < |bits| {
      SetInByte(bits, limit, full, limit % 8);
      CountMasked(bits[full], limit % 8);
    } else {
      MembersBeyondBytes(bits, limit, limit);
    }
  }

  /** A field of `n` bytes with only byte `k` non-zero. */
  ghost function OneByte(n: nat, k: nat, b: bv8): (bits: Bytes)
    requires k < n
    ensures |bits| == n && forall j :: 0 <= j < n ==> bits[j] == if j == k then b else 0
  {
    seq(n, j requires 0 <= j < n => if j == k then b else 0)
  }

  ghost predicate CountBitsExactAt(n: nat) {
    forall bits: Bytes, limit: u32 :: |bits| == n ==> CountBits(bits, limit) == |SetBelow(bits, limit, limit)|
  }

  /** Exactly the lengths at which counting agrees with membership for every field:
      at any other, the byte the narrowed length hides is counted and never read. */
  lemma CountBitsExactlyWhen(n: nat)
    ensures CountBitsExactAt(n) <==> Addressable(n)
  {
    if Addressable(n) {
      forall bits: Bytes, limit: u32 | |bits| == n
        ensures CountBits(bits, limit) == |SetBelow(bits, limit, limit)|
      {
        CountBitsExact(bits, limit);
      }
    } else {
      var k := n % U32_SPAN;
      var bits, limit: u32 := OneByte(n, k, 0x01), 8 * k + 1;
      HiddenByte(bits, limit, k);
      assert CountBits(bits, limit) != |SetBelow(bits, limit, limit)|;
    }
  }

  lemma {:induction false} HiddenByte(bits: Bytes, limit: u32, k: nat)
    requires k == |bits| % U32_SPAN < Min(|bits|, ADDRESSABLE_BYTES) && limit == 8 * k + 1
    requires bits[k] == 0x01 && forall j :: 0 <= j < k ==> bits[j] == 0
    ensures CountBits(bits, limit) == 1 && SetBelow(bits, limit, limit) == {}
  {
    ZeroBytes(bits, k);
    OneIsOne();
    assert limit / 8 == k && limit % 8 == 1;
    assert bits[k] & Mask(1) == 0x01;
    forall i: nat
      ensures i !in SetBelow(bits, limit, limit)
    {
      InSetBelow(bits, limit, limit, i);
      if i < limit && i / 8 < k {
        assert 0 & Bit(i % 8) == 0;
      }
    }
  }

  lemma {:induction false} ZeroBytes(bits: Bytes, n: nat)
    requires n <= |bits| && forall j :: 0 <= j < n ==> bits[j] == 0
    ensures WholeBytes(bits, n) == 0
  {
    if n > 0 {
      ZeroBytes(bits, n - 1);
      ZeroByte(8);
    }
  }

  lemma OneIsOne()
    ensures CountOnes(0x01) == 1
  {
    assert OnesBelow(0x01, 7) == OnesBelow(0x01, 6) == OnesBelow(0x01, 5) == OnesBelow(0x01, 4)
        == OnesBelow(0x01, 3) == OnesBelow(0x01, 2) == OnesBelow(0x01, 1) == 1;
  }

  // ----- the count of resume.rs: every byte present, masked by its position -----

  /** What byte `i` contributes; its base index is a wrapping u32 product. */
  function MaskedShare(b: bv8, count: u32, i: nat): nat {
    var base: u32 := (i * 8) % U32_SPAN;
    var valid := Min(if count > base then count - base else 0, 8);
    CountOnes(b & Mask(valid))
  }

  function MaskedSum(bits: Bytes, count: u32, n: nat): nat
    requires n <= |bits|
  {
    if n == 0 then 0 else MaskedSum(bits, count, n - 1) + MaskedShare(bits[n - 1], count, n - 1)
  }

  function Received(bits: Bytes, count: u32): u32 {
    MaskedSum(bits, count, |bits|) % U32_SPAN
  }

  lemma {:induction false} ShareCount(bits: Bytes, count: u32, j: nat)
    requires j < |bits| <= ADDRESSABLE_BYTES
    ensures Members(bits, count, 8 * j + 8) ==
            Members(bits, count, 8 * j) + MaskedShare(bits[j], count, j)
  {
    var base: u32 := 8 * j;
    FitsU32(j * 8);
    var valid := Min(if count > base then count - base else 0, 8);
    assert MaskedShare(bits[j], count, j) == CountOnes(bits[j] & Mask(valid));
    CountMasked(bits[j], valid);
    ShareMembers(bits, count, j, base, valid);
  }

  lemma ShareMembers(bits: Bytes, count: u32, j: nat, base: u32, valid: nat)
    requires j < |bits| <= ADDRESSABLE_BYTES && base == 8 * j
    requires valid == Min(if count > base then count - base else 0, 8)
    ensures Members(bits, count, base + 8) == Members(bits, count, base) + OnesBelow(bits[j], valid)
  {
    if base <= count {
      SetInByte(bits, count, j, valid);
      assert base + valid == Min(count, base + 8);
    } else {
      MembersCap(bits, count, base);
    }
    if count < base + 8 {
      MembersCap(bits, count, base + 8);
    }
  }

  lemma {:induction false} MaskedSumCount(bits: Bytes, count: u32, n: nat)
    requires n <= |bits| <= ADDRESSABLE_BYTES
    ensures MaskedSum(bits, count, n) == Members(bits, count, 8 * n)
  {
    if n > 0 {
      MaskedSumCount(bits, count, n - 1);
      ShareCount(bits, count, n - 1);
    }
  }

  /** The masked count is the number of members for arbitrary bytes, padding
      included, as long as every base index fits u32. */
  lemma {:induction false} ReceivedExact(bits: Bytes, count: u32)
    requires |bits| <= ADDRESSABLE_BYTES
    ensures Received(bits, count) == |SetBelow(bits, count, count)|
  {
    MembersIsCard(bits, count, count);
    MaskedSumCount(bits, count, |bits|);
    var n := 8 * |bits|;
    if count <= n {
      MembersCap(bits, count, n);
    } else {
      MembersBeyondBytes(bits, count, count);
    }
    MembersBound(bits, count, count);
    FitsU32(MaskedSum(bits, count, |bits|));
  }

  ghost predicate ReceivedExactAt(n: nat) {
    forall bits: Bytes, count: u32 :: |bits| == n ==> Received(bits, count) == |SetBelow(bits, count, count)|
  }

  /** Exactly the lengths at which the masked count is membership for every field.
      Past them the base index of the first byte too many wraps to zero, and its bits
      are counted although they belong to no index. */
  lemma ReceivedExactlyWhen(n: nat)
    ensures ReceivedExactAt(n) <==> n <= ADDRESSABLE_BYTES
  {
    if n <= ADDRESSABLE_BYTES {
      forall bits: Bytes, count: u32 | |bits| == n
        ensures Received(bits, count) == |SetBelow(bits, count, count)|
      {
        ReceivedExact(bits, count);
      }
    } else {
      var bits := OneByte(n, ADDRESSABLE_BYTES, 0x01);
      WrappedByte(bits);
      assert Received(bits, 8) != |SetBelow(bits, 8, 8)|;
    }
  }

  lemma {:induction false} WrappedByte(bits: Bytes)
    requires |bits| > ADDRESSABLE_BYTES && bits == OneByte(|bits|, ADDRESSABLE_BYTES, 0x01)
    ensures Received(bits, 8) == 1 && SetBelow(bits, 8, 8) == {}
  {
    OneShare(bits, 8, ADDRESSABLE_BYTES, |bits|);
    OneIsOne();
    assert 0x01 & Mask(8) == 0x01;
    forall i: nat
      ensures i !in SetBelow(bits, 8, 8)
    {
      InSetBelow(bits, 8, 8, i);
      if i < 8 {
        assert 0 & Bit(i % 8) == 0;
      }
    }
  }

  /** Only the non-zero byte has a share. */
  lemma {:induction false} OneShare(bits: Bytes, count: u32, k: nat, n: nat)
    requires n <= |bits| && k < |bits| && forall j :: 0 <= j < |bits| && j != k ==> bits[j] == 0
    ensures MaskedSum(bits, count, n) == if n <= k then 0 else MaskedShare(bits[k], count, k)
  {
    if n > 0 {
      OneShare(bits, count, k, n - 1);
      if n - 1 != k {
        ZeroByte(8);
        assert forall v :: 0 & Mask(v) == 0;
      }
    }
  }

  lemma {:induction false} ZeroByte(v: nat)
    requires v <= 8
    ensures OnesBelow(0, v) == 0
  {
    if v > 0 {
      ZeroByte(v - 1);
    }
  }

  /** A full bitfield has exactly the members below its count. */
  lemma {:induction false} FullMeansAll(bits: Bytes, count: u32)
    ensures |SetBelow(bits, count, count)| >= count <==>
            SetBelow(bits, count, count) == Below(count)
  {
    SubsetCard(SetBelow(bits, count, count), Below(count));
  }

  /** Setting a bit adds that member and no other. */
  lemma SetBelowMark(bits: Bytes, count: u32, i: u32)
    requires i < count && i / 8 < |bits| < U32_SPAN
    ensures var marked := bits[i / 8 := bits[i / 8] | Bit(i % 8)];
            SetBelow(marked, count, count) == SetBelow(bits, count, count) + {i}
  {
    var marked := bits[i / 8 := bits[i / 8] | Bit(i % 8)];
    forall k: nat
      ensures k in SetBelow(marked, count, count) <==> k in SetBelow(bits, count, count) + {i}
    {
      InSetBelow(marked, count, count, k);
      InSetBelow(bits, count, count, k);
      if k < count {
        MarkSets(bits, count, i, k);
      }
    }
  }

  lemma MarkSets(bits: Bytes, count: u32, i: u32, k: u32)
    requires i < count && k < count && i / 8 < |bits| < U32_SPAN
    ensures IsSet(bits[i / 8 := bits[i / 8] | Bit(i % 8)], count, k) <==> IsSet(bits, count, k) || k == i
  {
    OrBit(bits[i / 8], i % 8, k % 8);
    SamePlace(i, k);
    FitsU32(|bits|);
  }

  lemma SamePlace(i: nat, k: nat)
    ensures i == k <==> i / 8 == k / 8 && i % 8 == k % 8
  {
    assert k == 8 * (k / 8) + k % 8 && i == 8 * (i / 8) + i % 8;
  }
}
