/** The presence bitfields peers exchange: `HaveBits` and `Availability` of src/wire.rs. */
module Presence {
  import opened Basics
  import opened Bits

  /** One bit per entry of the question; `count` is the sender's own claim. */
  datatype HaveBits = HaveBits(count: u32, bits: Bytes) {
    predicate IsSet(i: u32) {
      Bits.IsSet(bits, count, i)
    }

    function CountSet(): nat {
      CountBits(bits, count)
    }

    predicate Validates(asked: nat) {
      count == asked && |bits| == BytesFor(count)
    }
  }

  /** The entries of a field that are held. */
  ghost function HeldEntries(h: HaveBits): set<nat> {
    SetBelow(h.bits, h.count, h.count)
  }

  /** For any received field, forged padding or surplus bytes included, the
      reported number is the number of indices for which `IsSet` holds. */
  lemma CountIsMembership(h: HaveBits)
    ensures Addressable(|h.bits|) ==> h.CountSet() == |HeldEntries(h)|
    ensures forall i: u32 :: i in HeldEntries(h) <==> h.IsSet(i)
  {
    if Addressable(|h.bits|) {
      CountBitsExact(h.bits, h.count);
    }
    forall i: u32
      ensures i in HeldEntries(h) <==> h.IsSet(i)
    {
      InSetBelow(h.bits, h.count, h.count, i);
    }
  }

  /** The bits stored so far are the first `n` answers, padding clear. */
  ghost predicate Records(bits: Bytes, present: seq<bool>, n: nat, size: nat)
    requires n <= |present|
  {
    && |bits| == size
    && (forall k: nat :: k < 8 * |bits| ==> (TestBit(bits[k / 8], k % 8) <==> k < n && present[k]))
  }

  /** Pack one answer per asked entry; reading the field back returns them. */
  method FromPresence(present: seq<bool>) returns (h: HaveBits)
    requires |present| <= U32_MAX
    ensures h.Validates(|present|)
    ensures forall i: u32 :: h.IsSet(i) <==> i < |present| && present[i]
  {
    var count, bits: Bytes := 0, [];
    for i := 0 to |present|
      invariant count == i
      invariant Records(bits, present, i, (i + 7) / 8)
    {
      ghost var before := bits;
      if i % 8 == 0 {
        bits := bits + [0];
      }
      OpenByte(before, bits, present, i);
      if present[i] {
        var last := |bits| - 1;
        bits := bits[last := bits[last] | Bit(i % 8)];
      }
      count := count + 1;
    }
    h := HaveBits(count, bits);
    forall i: u32
      ensures h.IsSet(i) <==> i < |present| && present[i]
    {
      if i < |present| {
        FitsU32(|bits|);
      }
    }
  }

  /** Opening a byte when one is due, then recording answer `i` in it. */
  lemma OpenByte(before: Bytes, bits: Bytes, present: seq<bool>, i: nat)
    requires i < |present| && Records(before, present, i, (i + 7) / 8)
    requires bits == if i % 8 == 0 then before + [0] else before
    ensures |bits| == i / 8 + 1
    ensures present[i] ==>
              Records(bits[i / 8 := bits[i / 8] | Bit(i % 8)], present, i + 1, i / 8 + 1)
    ensures !present[i] ==> Records(bits, present, i + 1, i / 8 + 1)
  {
    var after := bits[i / 8 := bits[i / 8] | Bit(i % 8)];
    forall k: nat | k < 8 * |bits|
      ensures TestBit(bits[k / 8], k % 8) <==> k < i && present[k]
      ensures TestBit(after[k / 8], k % 8) <==> k == i || TestBit(bits[k / 8], k % 8)
    {
      OrBit(bits[i / 8], i % 8, k % 8);
      ZeroHasNoBit(k % 8);
    }
  }

  /** All ones, with the last byte's padding cleared. */
  function Full(count: u32): HaveBits {
    var ones: Bytes := seq(BytesFor(count), _ => 0xff);
    if ones != [] && count % 8 != 0
    then HaveBits(count, ones[|ones| - 1 := Bit(count % 8) - 1])
    else HaveBits(count, ones)
  }

  /** A full answer holds every entry and counts every entry. */
  lemma FullHoldsEverything(count: u32)
    ensures Full(count).Validates(count)
    ensures forall i: u32 :: Full(count).IsSet(i) <==> i < count
    ensures Full(count).CountSet() == count
  {
    forall i: u32
      ensures Full(count).IsSet(i) <==> i < count
    {
      if i < count {
        FullBit(count, i);
      }
    }
    CountIsMembership(Full(count));
    assert HeldEntries(Full(count)) == Below(count);
  }

  lemma FullBit(count: u32, i: u32)
    requires i < count
    ensures Full(count).IsSet(i)
  {
    var j, k := i / 8, i % 8;
    assert j < BytesFor(count) && (8 * j + 8 > count ==> k < count % 8 && j == BytesFor(count) - 1);
    OnesHaveEveryBit(k);
    MaskBit(0xff, count % 8, k);
    assert 0xff & Mask(count % 8) == Mask(count % 8);
    FitsU32(BytesFor(count));
  }

  lemma OnesHaveEveryBit(k: nat)
    requires k < 8
    ensures TestBit(0xff, k)
  {
  }
}
