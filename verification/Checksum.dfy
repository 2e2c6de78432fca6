/**
 The Internet checksum of a packet: sixteen-bit words summed in a 32-bit accumulator, the carries
 added back twice, and the complement taken. The reference is section 1 of RFC 1071, the one's
 complement of the one's complement sum.
 */
module Checksum {
  type Byte = n: nat | n < 256

  type Short = n: nat | n < 65536

  /** A word as the host reads it from two bytes in memory. */
  function Word(b0: Byte, b1: Byte, little: bool): Short { if little then b0 + 256 * b1 else 256 * b0 + b1 }

  /** The word's bytes in memory. */
  function Stored(w: Short, little: bool): (Byte, Byte) {
    if little then (w % 256, w / 256) else (w / 256, w % 256)
  }

  /** The words of a packet; an odd byte is followed by a zero byte. */
  function Words(bs: seq<Byte>, little: bool): seq<Short> {
    if bs == [] then []
    else if |bs| == 1 then [Word(bs[0], 0, little)]
    else [Word(bs[0], bs[1], little)] + Words(bs[2..], little)
  }

  /** One's complement addition: the carry comes around. */
  function Plus(a: Short, b: Short): Short { if a + b > 65535 then a + b - 65535 else a + b }

  function OnesSum(ws: seq<Short>): Short {
    if ws == [] then 0 else Plus(ws[0], OnesSum(ws[1..]))
  }

  function Complement(w: Short): Short { 65535 - w }

  function InternetChecksum(bs: seq<Byte>, little: bool): Short { Complement(OnesSum(Words(bs, little))) }

  // ---------- Plain sums ----------

  function Sum(ws: seq<Short>): (s: nat)
    ensures s <= 65535 * |ws|
  {
    if ws == [] then 0 else ws[0] + Sum(ws[1..])
  }

  /** The one's complement value of a plain sum. */
  function Residue(s: nat): Short { if s == 0 then 0 else 1 + (s - 1) % 65535 }

  lemma ModAdd(a: nat, b: nat)
    ensures (a % 65535 + b) % 65535 == (a + b) % 65535
  {
    var q := a / 65535;
    assert a + b == (a % 65535 + b) + 65535 * q;
    ModShift(a % 65535 + b, q);
  }

  lemma {:induction false} ModShift(x: nat, q: nat)
    ensures (x + 65535 * q) % 65535 == x % 65535
  {
    if q > 0 {
      ModShift(x, q - 1);
      assert x + 65535 * q == (x + 65535 * (q - 1)) + 65535;
    }
  }

  lemma ResidueAdd(s: nat, w: Short)
    ensures Residue(s + w) == Plus(w, Residue(s))
  {
    if s > 0 {
      ModAdd(s - 1, w);
    }
  }

  lemma {:induction false} OnesSumIsResidue(ws: seq<Short>)
    ensures OnesSum(ws) == Residue(Sum(ws))
  {
    if ws != [] {
      hide Plus, Residue;
      OnesSumIsResidue(ws[1..]);
      ResidueAdd(Sum(ws[1..]), ws[0]);
    } else {
      assert Residue(0) == 0;
    }
  }

  // ---------- The routine ----------

  lemma {:induction false} WordCount(bs: seq<Byte>, little: bool)
    ensures |Words(bs, little)| == (|bs| + 1) / 2
  {
    if |bs| >= 2 {
      WordCount(bs[2..], little);
    }
  }

  /** Adding the carries back twice is enough for any sum that fits the accumulator. */
  lemma TwoFolds(s: nat)
    requires s < 0x8000_0000
    ensures var f := s / 65536 + s % 65536;
      f + f / 65536 < 0x8000_0000 && (f + f / 65536) % 65536 == Residue(s)
  {
    var hi, lo := s / 65536, s % 65536;
    var f := hi + lo;
    assert s == f + 65535 * hi;
    if s > 0 {
      ModShift(f - 1, hi);
      assert s - 1 == (f - 1) + 65535 * hi;
    }
  }

  /** The accumulator holds the words of up to 65536 bytes. */
  method InCksum(addr: array<Byte>, len: nat, little: bool) returns (answer: Short)
    requires len <= addr.Length && len <= 65536
    ensures answer == InternetChecksum(addr[..len], little)
  {
    ghost var bs := addr[..len];
    WordCount(bs, little);
    hide Residue, Words, Sum, OnesSum, Word;
    var nleft := len;
    var w := 0;
    var sum := 0;
    assert bs[0..] == bs;
    while nleft > 1
      invariant w + nleft == len && sum + Sum(Words(bs[w..], little)) == Sum(Words(bs, little))
    {
      assert bs[w..][2..] == bs[w + 2..] && bs[w..][0] == addr[w] && bs[w..][1] == addr[w + 1];
      SumStep(bs[w..], little);
      sum := sum + Word(addr[w], addr[w + 1], little);
      w := w + 2;
      nleft := nleft - 2;
    }
    SumEnd(bs[w..], little);
    if nleft == 1 {
      sum := sum + Word(addr[w], 0, little);
    }
    OnesSumIsResidue(Words(bs, little));
    TwoFolds(sum);
    sum := sum / 65536 + sum % 65536;
    sum := sum + sum / 65536;
    answer := 65535 - sum % 65536;
  }

  lemma SumStep(bs: seq<Byte>, little: bool)
    requires |bs| >= 2
    ensures Sum(Words(bs, little)) == Word(bs[0], bs[1], little) + Sum(Words(bs[2..], little))
  {
  }

  lemma SumEnd(bs: seq<Byte>, little: bool)
    requires |bs| <= 1
    ensures Sum(Words(bs, little)) == if bs == [] then 0 else Word(bs[0], 0, little)
  {
  }

  /** An odd byte counts as if a zero byte followed it. */
  lemma {:induction false} PaddedByte(bs: seq<Byte>, little: bool)
    requires |bs| % 2 == 1
    ensures InternetChecksum(bs + [0], little) == InternetChecksum(bs, little)
  {
    PaddedWords(bs, little);
  }

  lemma {:induction false} PaddedWords(bs: seq<Byte>, little: bool)
    requires |bs| % 2 == 1
    ensures Words(bs + [0], little) == Words(bs, little)
  {
    if |bs| > 1 {
      assert (bs + [0])[2..] == bs[2..] + [0];
      PaddedWords(bs[2..], little);
    } else {
      assert (bs + [0])[2..] == [];
    }
  }

  /** The example of section 3 of RFC 1071: the bytes 00 01 f2 03 f4 f5 f6 f7 add up to ddf2. */
  lemma StandardExample()
    ensures InternetChecksum([0x00, 0x01, 0xf2, 0x03, 0xf4, 0xf5, 0xf6, 0xf7], false) == 0xFFFF - 0xddf2
  {
    var bs: seq<Byte> := [0x00, 0x01, 0xf2, 0x03, 0xf4, 0xf5, 0xf6, 0xf7];
    assert bs[2..] == [0xf2, 0x03, 0xf4, 0xf5, 0xf6, 0xf7];
    assert bs[2..][2..] == [0xf4, 0xf5, 0xf6, 0xf7];
    assert bs[2..][2..][2..] == [0xf6, 0xf7];
    assert Words([0xf6, 0xf7], false) == [0xf6f7];
    assert Words(bs[2..][2..], false) == [0xf4f5, 0xf6f7];
    assert Words(bs[2..], false) == [0xf203, 0xf4f5, 0xf6f7];
    assert Words(bs, false) == [0x0001, 0xf203, 0xf4f5, 0xf6f7];
    var ws: seq<Short> := Words(bs, false);
    assert ws[1..] == [0xf203, 0xf4f5, 0xf6f7] && ws[1..][1..] == [0xf4f5, 0xf6f7] && ws[1..][1..][1..] == [0xf6f7];
    assert OnesSum([0xf6f7]) == 0xf6f7;
    assert OnesSum([0xf4f5, 0xf6f7]) == 0xebed;
    assert OnesSum([0xf203, 0xf4f5, 0xf6f7]) == 0xddf1;
  }

  // ---------- A filled-in packet checks to zero ----------

  function Filled(bs: seq<Byte>, at: nat, c: Short, little: bool): seq<Byte>
    requires at + 1 < |bs|
  {
    bs[at := Stored(c, little).0][at + 1 := Stored(c, little).1]
  }

  lemma StoredReads(c: Short, little: bool)
    ensures Word(Stored(c, little).0, Stored(c, little).1, little) == c
  {
  }

  lemma {:induction false} FilledSum(bs: seq<Byte>, at: nat, c: Short, little: bool)
    requires at % 2 == 0 && at + 1 < |bs| && bs[at] == bs[at + 1] == 0
    ensures Sum(Words(Filled(bs, at, c, little), little)) == Sum(Words(bs, little)) + c
  {
    hide Words, Stored;
    var f := Filled(bs, at, c, little);
    SumStep(bs, little);
    SumStep(f, little);
    if at == 0 {
      StoredReads(c, little);
      assert f[2..] == bs[2..];
    } else {
      FilledSum(bs[2..], at - 2, c, little);
      assert f[2..] == Filled(bs[2..], at - 2, c, little);
    }
  }

  /** Main result: a packet whose zeroed checksum field is filled with its checksum checks to 0. */
  lemma FilledChecksToZero(bs: seq<Byte>, at: nat, little: bool)
    requires at % 2 == 0 && at + 1 < |bs| && bs[at] == bs[at + 1] == 0
    ensures InternetChecksum(Filled(bs, at, InternetChecksum(bs, little), little), little) == 0
  {
    hide Words, OnesSum, Residue, Filled, Sum;
    var c := InternetChecksum(bs, little);
    FilledSum(bs, at, c, little);
    OnesSumIsResidue(Words(bs, little));
    OnesSumIsResidue(Words(Filled(bs, at, c, little), little));
    ResidueAdd(Sum(Words(bs, little)), c);
  }

  /** A single changed word is noticed, unless one's complement zero is exchanged for the other. */
  lemma ChangeIsSeen(bs: seq<Byte>, at: nat, c: Short, little: bool)
    requires at % 2 == 0 && at + 1 < |bs| && bs[at] == bs[at + 1] == 0
    ensures InternetChecksum(Filled(bs, at, c, little), little) == 0
      ==> c == InternetChecksum(bs, little) || (c == 0 && InternetChecksum(bs, little) == 65535) || (c == 65535 && InternetChecksum(bs, little) == 0)
  {
    hide Words, OnesSum, Residue, Filled, Sum;
    FilledSum(bs, at, c, little);
    OnesSumIsResidue(Words(bs, little));
    OnesSumIsResidue(Words(Filled(bs, at, c, little), little));
    ResidueAdd(Sum(Words(bs, little)), c);
  }

  // ---------- Byte order ----------

  function Swapped(w: Short): Short { (w % 256) * 256 + w / 256 }

  lemma WordSwapped(b0: Byte, b1: Byte)
    ensures Word(b0, b1, true) == Swapped(Word(b0, b1, false))
  {
  }

  lemma Digits(w: Short) returns (h: Byte, l: Byte)
    ensures w == 256 * h + l
  {
    h, l := w / 256, w % 256;
  }

  lemma SwapOf(w: Short, h: Byte, l: Byte)
    requires w == 256 * h + l
    ensures Swapped(w) == 256 * l + h
    ensures Stored(w, false) == (h, l) && Stored(w, true) == (l, h)
  {
    assert w / 256 == h && w % 256 == l;
  }

  /** Swapping the bytes of both terms swaps those of their one's complement sum. */
  lemma SwapPlus(a: Short, b: Short)
    ensures Swapped(Plus(a, b)) == Plus(Swapped(a), Swapped(b))
  {
    hide Swapped, Stored;
    var a1, a0 := Digits(a);
    var b1, b0 := Digits(b);
    SwapOf(a, a1, a0);
    SwapOf(b, b1, b0);
    var hi: nat, lo: nat := (a1 as int) + b1, (a0 as int) + b0;
    if 256 * hi + lo <= 65535 {
      if lo >= 256 { SwapOf(Plus(a, b), hi + 1, lo - 256); } else { SwapOf(Plus(a, b), hi, lo); }
    } else if hi == 255 {
      SwapOf(Plus(a, b), 0, lo - 255);
    } else if lo >= 255 {
      SwapOf(Plus(a, b), hi - 255, lo - 255);
    } else {
      SwapOf(Plus(a, b), hi - 256, lo + 1);
    }
  }

  lemma {:induction false} SwapWords(bs: seq<Byte>)
    ensures OnesSum(Words(bs, true)) == Swapped(OnesSum(Words(bs, false)))
  {
    if |bs| >= 2 {
      hide Plus, Swapped, Word;
      SwapWords(bs[2..]);
      WordSwapped(bs[0], bs[1]);
      SwapPlus(Word(bs[0], bs[1], false), OnesSum(Words(bs[2..], false)));
    } else if |bs| == 1 {
      WordSwapped(bs[0], 0);
    }
  }

  /** The checksum's bytes in memory do not depend on the byte order of the host. */
  lemma ByteOrderIndependent(bs: seq<Byte>)
    ensures Stored(InternetChecksum(bs, true), true) == Stored(InternetChecksum(bs, false), false)
  {
    hide OnesSum, Words, Swapped, Stored;
    SwapWords(bs);
    var w := OnesSum(Words(bs, false));
    var h, l := Digits(w);
    SwapOf(w, h, l);
    SwapOf(Complement(w), 255 - h, 255 - l);
    SwapOf(Complement(Swapped(w)), 255 - l, 255 - h);
  }
}
