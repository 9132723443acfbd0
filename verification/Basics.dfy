/** Types shared by every component: machine integers, bytes, digests, results. */
module Basics {

  datatype Option<+T> = None | Some(value: T)

  datatype Result<+T, +E> = Ok(value: T) | Err(error: E)

  /** Whether anybody may cancel an operation. If so, any look at its token may find
      it cancelled. */
  datatype Cancel = Never | Possible

  const U32_MAX: int := 0xFFFF_FFFF
  const U64_MAX: int := 0xFFFF_FFFF_FFFF_FFFF

  // The integer widths of the program. Assigning to one of these types proves
  // that the program's addition, subtraction or multiplication does not wrap.
  type u32 = x: int | 0 <= x <= U32_MAX
  type u64 = x: int | 0 <= x <= U64_MAX

  type Bytes = seq<bv8>

  /** A digest, seen only through collision resistance: equal digests have
      equal preimages. */
  datatype Hash = Hash(preimage: Bytes)

  /** The wire schema version every stored and exchanged structure starts with. */
  const WIRE_VERSION: nat := 3

  function Min(a: int, b: int): int {
    if a < b then a else b
  }

  /** How many `unit`-sized pieces hold `n`: the last one may be short. */
  function DivCeil(n: nat, unit: nat): nat
    requires unit > 0
  {
    if n == 0 then 0 else if n <= unit then 1 else 1 + DivCeil(n - unit, unit)
  }

  /** `DivCeil` is the quotient rounded up. */
  lemma {:induction false} DivCeilBounds(n: nat, unit: nat)
    requires unit > 0
    ensures n <= DivCeil(n, unit) * unit < n + unit
  {
    if n > unit {
      DivCeilBounds(n - unit, unit);
      MulMonotone(DivCeil(n, unit), DivCeil(n, unit), unit);
    }
  }

  /** It is the only number with that property. */
  lemma {:induction false} DivCeilUnique(n: nat, unit: nat, q: nat)
    requires unit > 0 && n <= q * unit < n + unit
    ensures DivCeil(n, unit) == q
  {
    DivCeilBounds(n, unit);
    var r := DivCeil(n, unit);
    if r < q {
      MulMonotone(r + 1, q, unit);
    } else if q < r {
      MulMonotone(q + 1, r, unit);
    }
  }

  /** Taking one piece off leaves one piece less. */
  lemma DivCeilStep(n: nat, unit: nat)
    requires unit > 0 && n > 0
    ensures DivCeil(n, unit) == 1 + DivCeil(n - Min(n, unit), unit)
  {
  }

  lemma MulMonotone(a: nat, b: nat, s: nat)
    requires a <= b
    ensures a * s <= b * s
    ensures a > 0 ==> a * s == (a - 1) * s + s
  {
  }

  /** Cardinality is monotone under inclusion. */
  lemma SubsetCard<T>(a: set<T>, b: set<T>)
    requires a <= b
    ensures |a| <= |b|
    ensures |a| == |b| ==> a == b
  {
    assert b == a + (b - a);
    assert |b| == |a| + |b - a|;
    if |a| == |b| {
      assert b - a == {};
    }
  }

  /** The naturals below `n`. */
  ghost function Below(n: nat): (s: set<nat>)
    ensures forall i: nat :: i in s <==> i < n
    ensures |s| == n
  {
    if n == 0 then {} else Below(n - 1) + {n - 1}
  }
}
