/**
 Subnets of 32-bit addresses: the first and the last address under a mask, and when lying between
 them is the same as agreeing under the mask.
 */
module Subnets {
  type Ip = bv32

  type Size = n: bv32 | 1 <= n <= 32 witness 1

  const ONES: Ip := 0xFFFF_FFFF

  /** The first and the last address of a subnet. */
  function First(a: Ip, mask: Ip): Ip { a & mask }

  function Last(a: Ip, mask: Ip): Ip { (a & mask) | !mask }

  function PrefixMask(size: Size): Ip { ONES << (32 - size) }

  method Subnet(a: Ip, mask: Ip) returns (start: Ip, end: Ip)
    ensures start == First(a, mask) && end == Last(a, mask)
  {
    start := a & mask;
    end := start | !mask;
  }

  method MaskOfSize(size: Size) returns (mask: Ip)
    ensures mask == PrefixMask(size)
  {
    mask := ONES;
    mask := mask << (32 - size);
  }

  lemma SizeIsContiguous(size: Size)
    ensures Contiguous(PrefixMask(size))
  {
  }

  /** The mask of a prefix length has so many ones, all at the top: one at first, and with every bit
      of the length one more above the others. */
  lemma MaskGrows(size: Size)
    ensures PrefixMask(1) == 0x8000_0000
    ensures size < 32 ==> PrefixMask(size + 1) == (PrefixMask(size) >> 1) | 0x8000_0000
  {
  }

  /** All ones of the mask stand before all zeros: a one is never followed upwards by a zero. */
  predicate Contiguous(mask: Ip) { (mask << 1) & !mask == 0 }

  predicate Between(start: Ip, ip: Ip, end: Ip) { start <= ip <= end }

  predicate Within(ip: Ip, a: Ip, mask: Ip) { Between(First(a, mask), ip, Last(a, mask)) }

  /** The two addresses differ only where the mask is zero. */
  predicate Agree(x: Ip, y: Ip, mask: Ip) { (x ^ y) & mask == 0 }

  lemma WithinAgrees(ip: Ip, a: Ip, mask: Ip)
    requires Contiguous(mask) && Within(ip, a, mask)
    ensures Agree(ip, a, mask)
  {
  }

  lemma AgreesWithin(ip: Ip, a: Ip, mask: Ip)
    requires Agree(ip, a, mask)
    ensures Within(ip, a, mask)
  {
  }

  /** The last ones below a gap of the mask. */
  function Below(mask: Ip): Ip { ((mask << 1) & !mask) >> 1 }

  /** With a gap in the mask some address of the range does not agree under the mask. */
  function StrayUp(s: Ip, mask: Ip): Ip { s | Below(mask) }

  function StrayDown(s: Ip, mask: Ip): Ip { (s | !mask) & !Below(mask) }

  lemma UpIsWithin(a: Ip, mask: Ip)
    ensures Within(StrayUp(First(a, mask), mask), a, mask)
  {
  }

  lemma DownIsWithin(a: Ip, mask: Ip)
    ensures Between(First(a, mask), StrayDown(First(a, mask), mask), Last(a, mask))
  {
  }

  lemma OneStrays(a: Ip, mask: Ip)
    requires !Contiguous(mask)
    ensures !Agree(StrayUp(First(a, mask), mask), a, mask) || !Agree(StrayDown(First(a, mask), mask), a, mask)
  {
  }

  lemma GapStrays(a: Ip, mask: Ip) returns (ip: Ip)
    requires !Contiguous(mask)
    ensures Within(ip, a, mask) && !Agree(ip, a, mask)
  {
    hide First, Last, Contiguous, StrayUp, StrayDown, Agree, Between;
    UpIsWithin(a, mask);
    DownIsWithin(a, mask);
    assert Within(StrayDown(First(a, mask), mask), a, mask);
    OneStrays(a, mask);
    ip := StrayUp(First(a, mask), mask);
    if Agree(ip, a, mask) {
      ip := StrayDown(First(a, mask), mask);
    }
  }

  /** Lying in the range is agreeing with its address under the mask, for every address, if and
      only if the mask is contiguous. */
  lemma RangeIsSubnet(a: Ip, mask: Ip)
    ensures (forall ip :: Within(ip, a, mask) <==> Agree(ip, a, mask)) <==> Contiguous(mask)
  {
    hide Contiguous, Within, First, Last, Agree;
    if Contiguous(mask) {
      forall ip ensures Within(ip, a, mask) <==> Agree(ip, a, mask) {
        if Within(ip, a, mask) {
          WithinAgrees(ip, a, mask);
        }
        if Agree(ip, a, mask) {
          AgreesWithin(ip, a, mask);
        }
      }
    } else {
      var ip := GapStrays(a, mask);
    }
  }

  /** A single address is the subnet of the full mask. */
  lemma OnlyOne(ip: Ip, a: Ip)
    ensures Between(a, ip, a) <==> ip == a
  {
    hide Between, First, Last, Agree, Contiguous;
    FullMask(a);
    RangeIsSubnet(a, ONES);
    assert Within(ip, a, ONES) == Between(a, ip, a);
    FullAgreement(ip, a);
  }

  lemma FullMask(a: Ip)
    ensures First(a, ONES) == a && Last(a, ONES) == a && Contiguous(ONES)
  {
  }

  lemma FullAgreement(x: Ip, y: Ip)
    ensures Agree(x, y, ONES) <==> x == y
  {
  }
}
