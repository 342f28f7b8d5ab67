/**
 Facts about single 64-bit words: the effect of setting and clearing one bit,
 words that agree on every bit are equal, and the word-parallel population
 count of `bitset.popcnt` counts the set bits.
 */
module Words {
  /** Bit `k` of `w`, read as `bitset.get` reads it. */
  predicate BitAt(w: bv64, k: bv6) {
    w & ((1 as bv64) << k) != 0
  }

  predicate Odd(w: bv64) { w & 1 == 1 }

  function Half(w: bv64): bv64 { w >> 1 }

  /** Bit `i` of `w`, by shifting. */
  predicate Bit(w: bv64, i: nat)
    decreases i
  {
    if i == 0 then Odd(w) else Bit(Half(w), i - 1)
  }

  lemma IndexRoundTrip(i: nat)
    requires i < 64
    ensures (i as bv6) as nat == i
  {
  }

  lemma {:induction false} NoBits(i: nat)
    ensures !Bit(0, i)
  {
    if i > 0 {
      NoBits(i - 1);
    }
  }

  lemma NextIndex(k: bv6)
    requires k < 63
    ensures (k + 1) as nat == k as nat + 1
  {
  }

  lemma SmallIndex(i: nat)
    requires i < 63
    ensures i as bv6 < 63
  {
  }

  lemma IndexOfNat(k: bv6)
    ensures (k as nat) as bv6 == k
  {
  }

  lemma IndexSucc(i: nat)
    requires i < 63
    ensures i as bv6 < 63 && (i + 1) as bv6 == (i as bv6) + 1
  {
    IndexRoundTrip(i);
    SmallIndex(i);
    NextIndex(i as bv6);
    IndexOfNat((i as bv6) + 1);
  }

  lemma ShiftedBitAt(w: bv64, k: bv6)
    requires k < 63
    ensures BitAt(w >> 1, k) == BitAt(w, k + 1)
  {
  }

  lemma BitAtZero(w: bv64)
    ensures BitAt(w, 0) == (w & 1 == 1)
  {
  }

  /** The mask test and the shift test agree. */
  lemma {:induction false} BitIsBitAt(w: bv64, i: nat)
    requires i < 64
    ensures Bit(w, i) == BitAt(w, i as bv6)
    decreases i
  {
    if i == 0 {
      BitAtZero(w);
    } else {
      BitIsBitAt(w >> 1, i - 1);
      IndexSucc(i - 1);
      ShiftedBitAt(w, (i - 1) as bv6);
    }
  }

  /** The word written by `bitset.set`. */
  function SetAt(w: bv64, k: bv6): bv64 {
    w | ((1 as bv64) << k)
  }

  /** The word written by `bitset.clear`. */
  function ClearAt(w: bv64, k: bv6): bv64 {
    w & !((1 as bv64) << k)
  }

  // How the bitwise operators act on the low bit and on the rest of the word.
  lemma OrHalf(a: bv64, b: bv64) ensures Half(a | b) == Half(a) | Half(b) {}

  lemma OrLow(a: bv64, b: bv64) ensures Odd(a | b) <==> Odd(a) || Odd(b) {}

  lemma AndNotHalf(a: bv64, b: bv64) ensures Half(a & !b) == Half(a) & !Half(b) {}

  lemma AndNotLow(a: bv64, b: bv64) ensures Odd(a & !b) <==> Odd(a) && !Odd(b) {}

  lemma XorHalf(a: bv64, b: bv64) ensures Half(a ^ b) == Half(a) ^ Half(b) {}

  lemma XorLow(a: bv64, b: bv64) ensures Odd(a ^ b) <==> Odd(a) != Odd(b) {}

  lemma {:induction false} BitOr(a: bv64, b: bv64, c: bv64, j: nat)
    requires c == a | b
    ensures Bit(c, j) == (Bit(a, j) || Bit(b, j))
    decreases j
  {
    if j == 0 {
      OrLow(a, b);
    } else {
      OrHalf(a, b);
      BitOr(Half(a), Half(b), Half(c), j - 1);
    }
  }

  lemma {:induction false} BitAndNot(a: bv64, b: bv64, c: bv64, j: nat)
    requires c == a & !b
    ensures Bit(c, j) == (Bit(a, j) && !Bit(b, j))
    decreases j
  {
    if j == 0 {
      AndNotLow(a, b);
    } else {
      AndNotHalf(a, b);
      BitAndNot(Half(a), Half(b), Half(c), j - 1);
    }
  }

  lemma {:induction false} BitXor(a: bv64, b: bv64, c: bv64, j: nat)
    requires c == a ^ b
    ensures Bit(c, j) == (Bit(a, j) != Bit(b, j))
    decreases j
  {
    if j == 0 {
      XorLow(a, b);
    } else {
      XorHalf(a, b);
      BitXor(Half(a), Half(b), Half(c), j - 1);
    }
  }

  function MaskAt(k: bv6): bv64 { (1 as bv64) << k }

  lemma HalfMask(k: bv6)
    requires k < 63
    ensures Half(MaskAt(k + 1)) == MaskAt(k) && !Odd(MaskAt(k + 1))
  {
  }

  lemma LowMask()
    ensures Half(MaskAt(0)) == 0 && Odd(MaskAt(0))
  {
  }

  lemma BitOfDoubledMask(k: bv6, l: bv6, j: nat)
    requires k < 63 && l == k + 1
    ensures Bit(MaskAt(l), j) == (j > 0 && Bit(MaskAt(k), j - 1))
  {
    HalfMask(k);
  }

  lemma BitOfLowMask(j: nat)
    ensures Bit(MaskAt(0), j) == (j == 0)
  {
    LowMask();
    if j > 0 {
      NoBits(j - 1);
    }
  }

  lemma {:induction false} BitOfMask(i: nat, j: nat)
    requires i < 64
    ensures Bit(MaskAt(i as bv6), j) == (i == j)
  {
    if i == 0 {
      BitOfLowMask(j);
    } else {
      IndexSucc(i - 1);
      BitOfDoubledMask((i - 1) as bv6, i as bv6, j);
      if j > 0 {
        BitOfMask(i - 1, j - 1);
      }
    }
  }

  lemma SetIsOr(w: bv64, k: bv6, mask: bv64, u: bv64)
    requires u == SetAt(w, k) && mask == MaskAt(k)
    ensures u == w | mask
  {
  }

  lemma ClearIsAndNot(w: bv64, k: bv6, mask: bv64, u: bv64)
    requires u == ClearAt(w, k) && mask == MaskAt(k)
    ensures u == w & !mask
  {
  }

  /** The only bit of the mask is bit `i`. */
  ghost predicate MasksOnly(mask: bv64, i: nat) {
    forall j: nat :: j < 64 ==> Bit(mask, j) == (i == j)
  }

  lemma MaskOf(i: nat, k: bv6, mask: bv64)
    requires i < 64 && k == i as bv6 && mask == MaskAt(k)
    ensures MasksOnly(mask, i)
  {
    forall j: nat | j < 64
      ensures Bit(mask, j) == (i == j)
    {
      BitOfMask(i, j);
    }
  }

  lemma OrWithMask(w: bv64, mask: bv64, i: nat, u: bv64)
    requires u == w | mask && MasksOnly(mask, i)
    ensures forall j: nat :: j < 64 ==> Bit(u, j) == (j == i || Bit(w, j))
  {
    forall j: nat | j < 64
      ensures Bit(u, j) == (j == i || Bit(w, j))
    {
      BitOr(w, mask, u, j);
    }
  }

  lemma AndNotWithMask(w: bv64, mask: bv64, i: nat, u: bv64)
    requires u == w & !mask && MasksOnly(mask, i)
    ensures forall j: nat :: j < 64 ==> Bit(u, j) == (j != i && Bit(w, j))
  {
    forall j: nat | j < 64
      ensures Bit(u, j) == (j != i && Bit(w, j))
    {
      BitAndNot(w, mask, u, j);
    }
  }

  /** Setting bit `i` decides bit `i` and changes no other bit. */
  lemma SetBit(w: bv64, i: nat, u: bv64)
    requires i < 64 && u == SetAt(w, i as bv6)
    ensures forall j: nat :: j < 64 ==> Bit(u, j) == (j == i || Bit(w, j))
  {
    var k := i as bv6;
    var mask := MaskAt(k);
    SetIsOr(w, k, mask, u);
    MaskOf(i, k, mask);
    OrWithMask(w, mask, i, u);
  }

  /** Clearing bit `i` decides bit `i` and changes no other bit. */
  lemma ClearBit(w: bv64, i: nat, u: bv64)
    requires i < 64 && u == ClearAt(w, i as bv6)
    ensures forall j: nat :: j < 64 ==> Bit(u, j) == (j != i && Bit(w, j))
  {
    var k := i as bv6;
    var mask := MaskAt(k);
    ClearIsAndNot(w, k, mask, u);
    MaskOf(i, k, mask);
    AndNotWithMask(w, mask, i, u);
  }

  lemma ShiftedOnce(w: bv64, i: nat, u: bv64)
    requires u == w >> 1
    ensures Bit(w, i + 1) == Bit(u, i)
  {
  }

  lemma ShiftedTwice(w: bv64, i: nat, u: bv64)
    requires u == w >> 2
    ensures Bit(w, i + 2) == Bit(u, i)
  {
    ShiftedOnce(w, i + 1, w >> 1);
    ShiftedOnce(w >> 1, i, u);
  }

  lemma ShiftedFourTimes(w: bv64, i: nat, u: bv64)
    requires u == w >> 4
    ensures Bit(w, i + 4) == Bit(u, i)
  {
    ShiftedTwice(w, i + 2, w >> 2);
    ShiftedTwice(w >> 2, i, u);
  }

  lemma ShiftedBit(w: bv64, i: nat, u: bv64)
    requires u == w >> 8
    ensures Bit(u, i) == Bit(w, i + 8)
  {
    ShiftedFourTimes(w, i + 4, w >> 4);
    ShiftedFourTimes(w >> 4, i, u);
  }

  lemma ShiftedBy16(w: bv64, i: nat, u: bv64)
    requires u == w >> 16
    ensures Bit(u, i) == Bit(w, i + 16)
  {
    ShiftedBit(w, i + 8, w >> 8);
    ShiftedBit(w >> 8, i, u);
  }

  lemma ShiftedBy32(w: bv64, i: nat, u: bv64)
    requires u == w >> 32
    ensures Bit(u, i) == Bit(w, i + 32)
  {
    ShiftedBy16(w, i + 16, w >> 16);
    ShiftedBy16(w >> 16, i, u);
  }

  lemma NoHighBits(w: bv64, i: nat)
    requires i >= 64
    ensures !Bit(w, i)
  {
    ShiftedBy32(w, i - 32, w >> 32);
    ShiftedBy32(w >> 32, i - 64, 0);
    NoBits(i - 64);
  }

  lemma HalfNonZero(x: bv64)
    requires x != 0 && x & 1 != 1
    ensures x >> 1 != 0 && x >> 1 < x
  {
  }

  lemma {:induction false} SomeBitIsSet(x: bv64) returns (j: nat)
    requires x != 0
    ensures Bit(x, j)
    decreases x
  {
    if x & 1 == 1 {
      j := 0;
    } else {
      HalfNonZero(x);
      j := SomeBitIsSet(x >> 1);
      j := j + 1;
    }
  }

  lemma XorNonZero(a: bv64, b: bv64)
    requires a != b
    ensures a ^ b != 0
  {
  }

  /** Two words with the same bits are the same word. */
  lemma SameBits(a: bv64, b: bv64)
    requires forall i: nat :: i < 64 ==> Bit(a, i) == Bit(b, i)
    ensures a == b
  {
    if a != b {
      XorNonZero(a, b);
      var j := SomeBitIsSet(a ^ b);
      BitXor(a, b, a ^ b, j);
      if j >= 64 {
        NoHighBits(a ^ b, j);
      }
    }
  }

  // ----- population count -----

  /** Number of set bits of `w` below position `k`. */
  function Count(w: bv64, k: nat): nat
    requires k <= 64
  {
    if k == 0 then 0 else Count(w, k - 1) + if Bit(w, k - 1) then 1 else 0
  }

  // The four steps of the loop body of `bitset.popcnt`.
  function Pairs(v: bv64): bv64 { (v & 0x5555555555555555) + ((v & 0xAAAAAAAAAAAAAAAA) >> 1) }

  function Nibbles(v: bv64): bv64 { (v & 0x3333333333333333) + ((v & 0xCCCCCCCCCCCCCCCC) >> 2) }

  function ByteSums(v: bv64): bv64 { (v & 0x0F0F0F0F0F0F0F0F) + ((v & 0xF0F0F0F0F0F0F0F0) >> 4) }

  function Product(v: bv64): bv64 { ((v * 0x0101010101010101) >> 56) & 0xFF }

  function PopWord(w: bv64): bv64 {
    Product(ByteSums(Nibbles(Pairs(w))))
  }

  function Byte(v: bv64, k: bv6): bv8 {
    ((v >> k) & 0xFF) as bv8
  }

  function Folded(w: bv64): bv64 {
    ByteSums(Nibbles(Pairs(w)))
  }

  /** The value of a byte, by counting down: arithmetic on it stays linear. */
  function Value(x: bv8): nat
    decreases x
  {
    if x == 0 then 0 else 1 + Value(x - 1)
  }

  lemma {:induction false} ValueIsNat(x: bv8)
    ensures Value(x) == x as nat
    decreases x
  {
    if x != 0 {
      ValueIsNat(x - 1);
    }
  }

  function Plus(a: bv8, b: bv8): bv8 { a + b }

  lemma ValuePred(b: bv8, c: bv8)
    requires 0 < b <= 127 && c == b - 1
    ensures c <= 126 && Value(b) == 1 + Value(c) && c + 1 == b
  {
  }

  lemma ValuePlusOne(a: bv8, c: bv8)
    requires a <= 127 && c <= 126
    ensures Value(Plus(a, c + 1)) == 1 + Value(Plus(a, c))
  {
    assert a + (c + 1) != 0;
  }

  lemma ValuePlusZero(a: bv8)
    ensures Plus(a, 0) == a && Value(0) == 0
  {
  }

  /** Bytes below 128 add without carry. */
  lemma {:induction false} ValuePlus(a: bv8, b: bv8, n: nat)
    requires a <= 127 && b <= 127 && Value(b) == n
    ensures Value(Plus(a, b)) == Value(a) + Value(b)
    decreases n
  {
    if b == 0 {
      ValuePlusZero(a);
    } else {
      var c := b - 1;
      ValuePred(b, c);
      ValuePlus(a, c, n - 1);
      ValuePlusOne(a, c);
    }
  }

  // Multiplying by 0x0101010101010101 is three doubling steps.
  function Double1(v: bv64): bv64 { v * 0x101 }

  function Double2(v: bv64): bv64 { v * 0x10001 }

  function Double3(v: bv64): bv64 { v * 0x100000001 }

  lemma Times1(v: bv64) ensures Double1(v) == v * 0x101 {}

  lemma Times2(v: bv64) ensures Double2(v * 0x101) == v * 0x1010101 {}

  lemma Times3(v: bv64) ensures Double3(v * 0x1010101) == v * 0x0101010101010101 {}

  lemma TimesIsDoubling(v: bv64)
    ensures Double3(Double2(Double1(v))) == v * 0x0101010101010101
  {
    Times1(v);
    Times2(v);
    Times3(v);
  }

  lemma Doubling1(v: bv64)
    requires v & 0xF0F0F0F0F0F0F0F0 == 0
    ensures Byte(Double1(v), 56) == Plus(Byte(v, 56), Byte(v, 48))
    ensures Byte(Double1(v), 40) == Plus(Byte(v, 40), Byte(v, 32))
    ensures Byte(Double1(v), 24) == Plus(Byte(v, 24), Byte(v, 16))
    ensures Byte(Double1(v), 8) == Plus(Byte(v, 8), Byte(v, 0))
    ensures Double1(v) & 0xE0E0E0E0E0E0E0E0 == 0
  {
  }

  lemma Doubling2(s: bv64)
    requires s & 0xE0E0E0E0E0E0E0E0 == 0
    ensures Byte(Double2(s), 56) == Plus(Byte(s, 56), Byte(s, 40))
    ensures Byte(Double2(s), 24) == Plus(Byte(s, 24), Byte(s, 8))
    ensures Double2(s) & 0xC0C0C0C0C0C0C0C0 == 0
  {
  }

  lemma Doubling3(t: bv64)
    requires t & 0xC0C0C0C0C0C0C0C0 == 0
    ensures Byte(Double3(t), 56) == Plus(Byte(t, 56), Byte(t, 24))
  {
  }

  lemma SmallBytes(v: bv64, k: bv6)
    requires v & 0x8080808080808080 == 0 && k & 7 == 0
    ensures Byte(v, k) <= 127
  {
  }

  lemma SmallerMasks(v: bv64)
    ensures v & 0xF0F0F0F0F0F0F0F0 == 0 ==> v & 0x8080808080808080 == 0
    ensures v & 0xE0E0E0E0E0E0E0E0 == 0 ==> v & 0x8080808080808080 == 0
    ensures v & 0xC0C0C0C0C0C0C0C0 == 0 ==> v & 0x8080808080808080 == 0
  {
  }

  function V(v: bv64, k: bv6): nat { Value(Byte(v, k)) }

  lemma ByteAdds(u: bv64, k: bv6, v: bv64, i: bv6, j: bv6)
    requires v & 0x8080808080808080 == 0 && i & 7 == 0 && j & 7 == 0
    requires Byte(u, k) == Plus(Byte(v, i), Byte(v, j))
    ensures V(u, k) == V(v, i) + V(v, j)
  {
    SmallBytes(v, i);
    SmallBytes(v, j);
    ValuePlus(Byte(v, i), Byte(v, j), V(v, j));
  }

  /** The top byte of the product is the sum of the bytes. */
  lemma TopByteIsSum(v: bv64)
    requires v & 0xF0F0F0F0F0F0F0F0 == 0
    ensures V(v * 0x0101010101010101, 56)
         == V(v, 56) + V(v, 48) + V(v, 40) + V(v, 32) + V(v, 24) + V(v, 16) + V(v, 8) + V(v, 0)
  {
    var s := Double1(v);
    var t := Double2(s);
    var u := Double3(t);
    SmallerMasks(v);
    Doubling1(v);
    ByteAdds(s, 56, v, 56, 48);
    ByteAdds(s, 40, v, 40, 32);
    ByteAdds(s, 24, v, 24, 16);
    ByteAdds(s, 8, v, 8, 0);
    SmallerMasks(s);
    Doubling2(s);
    ByteAdds(t, 56, s, 56, 40);
    ByteAdds(t, 24, s, 24, 8);
    SmallerMasks(t);
    Doubling3(t);
    ByteAdds(u, 56, t, 56, 24);
    TimesIsDoubling(v);
  }

  lemma FoldedMask(w: bv64)
    ensures Folded(w) & 0xF0F0F0F0F0F0F0F0 == 0
  {
  }

  function DropByte(v: bv64): bv64 { v >> 8 }

  lemma PairsShift(v: bv64) ensures Pairs(DropByte(v)) == DropByte(Pairs(v)) {}

  lemma NibblesShift(v: bv64) ensures Nibbles(DropByte(v)) == DropByte(Nibbles(v)) {}

  // A nibble sum is at most 4, so nothing is carried here either.
  lemma ByteSumsShift(v: bv64)
    requires v & 0x8888888888888888 == 0
    ensures ByteSums(DropByte(v)) == DropByte(ByteSums(v))
  {
  }

  lemma NibblesMask(v: bv64)
    requires v & 0xCCCCCCCCCCCCCCCC & ((v & 0x5555555555555555) << 1) == 0
    ensures Nibbles(v) & 0x8888888888888888 == 0
  {
  }

  lemma PairsMask(v: bv64)
    ensures Pairs(v) & 0xCCCCCCCCCCCCCCCC & ((Pairs(v) & 0x5555555555555555) << 1) == 0
  {
  }

  lemma FoldedLowByte(w: bv64)
    ensures Byte(Folded(w), 0) == Folded(w & 0xFF) as bv8
  {
  }

  function One(w: bv64, k: bv6): nat { if BitAt(w, k) then 1 else 0 }

  /** Number of set bits of the low byte. */
  function Ones(w: bv64): nat {
    One(w, 0) + One(w, 1) + One(w, 2) + One(w, 3) + One(w, 4) + One(w, 5) + One(w, 6) + One(w, 7)
  }

  lemma SmallFold(b: bv64)
    requires b <= 255
    ensures Folded(b) == (b & 1) + ((b >> 1) & 1) + ((b >> 2) & 1) + ((b >> 3) & 1)
                      + ((b >> 4) & 1) + ((b >> 5) & 1) + ((b >> 6) & 1) + ((b >> 7) & 1)
    ensures Folded(b) <= 8
  {
  }

  lemma FoldCountsByte(b: bv64)
    requires b <= 255
    ensures Value(Folded(b) as bv8) == Ones(b)
  {
    SmallFold(b);
    ValueIsNat(Folded(b) as bv8);
  }

  lemma LowOnes(w: bv64)
    ensures w & 0xFF <= 255 && Ones(w & 0xFF) == Ones(w)
  {
  }

  lemma FoldedCountsLowByte(w: bv64)
    ensures V(Folded(w), 0) == Ones(w)
  {
    FoldedLowByte(w);
    LowOnes(w);
    FoldCountsByte(w & 0xFF);
  }

  /** The folding steps never carry from one byte into the next. */
  lemma FoldedShift(w: bv64)
    ensures Folded(DropByte(w)) == DropByte(Folded(w))
  {
    PairsShift(w);
    NibblesShift(Pairs(w));
    PairsMask(w);
    NibblesMask(Pairs(w));
    ByteSumsShift(Nibbles(Pairs(w)));
  }

  /** Sum of the low `n` bytes, byte by byte. */
  function SumBytes(v: bv64, n: nat): nat
    decreases n
  {
    if n == 0 then 0 else V(v, 0) + SumBytes(DropByte(v), n - 1)
  }

  /** Sum of the low `n` bytes of the eight. */
  function BytesBelow(v: bv64, n: nat): nat {
    (if n > 7 then V(v, 56) else 0) + (if n > 6 then V(v, 48) else 0)
    + (if n > 5 then V(v, 40) else 0) + (if n > 4 then V(v, 32) else 0)
    + (if n > 3 then V(v, 24) else 0) + (if n > 2 then V(v, 16) else 0)
    + (if n > 1 then V(v, 8) else 0) + (if n > 0 then V(v, 0) else 0)
  }

  /** Set bits of the low `n` bytes. */
  function OnesOfBytes(w: bv64, n: nat): nat
    decreases n
  {
    if n == 0 then 0 else Ones(w) + OnesOfBytes(DropByte(w), n - 1)
  }

  lemma {:induction false} FoldedCounts(w: bv64, n: nat)
    ensures SumBytes(Folded(w), n) == OnesOfBytes(w, n)
    decreases n
  {
    if n > 0 {
      FoldedCountsLowByte(w);
      FoldedShift(w);
      FoldedCounts(DropByte(w), n - 1);
    }
  }

  lemma ShiftedByte(v: bv64)
    ensures V(DropByte(v), 0) == V(v, 8) && V(DropByte(v), 8) == V(v, 16) && V(DropByte(v), 16) == V(v, 24)
    ensures V(DropByte(v), 24) == V(v, 32) && V(DropByte(v), 32) == V(v, 40) && V(DropByte(v), 40) == V(v, 48)
    ensures V(DropByte(v), 48) == V(v, 56)
  {
    assert Byte(DropByte(v), 0) == Byte(v, 8);
    assert Byte(DropByte(v), 8) == Byte(v, 16);
    assert Byte(DropByte(v), 16) == Byte(v, 24);
    assert Byte(DropByte(v), 24) == Byte(v, 32);
    assert Byte(DropByte(v), 32) == Byte(v, 40);
    assert Byte(DropByte(v), 40) == Byte(v, 48);
    assert Byte(DropByte(v), 48) == Byte(v, 56);
  }

  lemma BytesBelowStep(v: bv64, n: nat)
    requires 0 < n <= 8
    ensures BytesBelow(v, n) == V(v, 0) + BytesBelow(DropByte(v), n - 1)
  {
    ShiftedByte(v);
  }

  lemma {:induction false} SumIsBytesBelow(v: bv64, n: nat)
    requires n <= 8
    ensures SumBytes(v, n) == BytesBelow(v, n)
    decreases n
  {
    if n > 0 {
      BytesBelowStep(v, n);
      SumIsBytesBelow(DropByte(v), n - 1);
    }
  }

  lemma CountStep(w: bv64, i: nat, k: bv6)
    requires i < 64 && i as bv6 == k
    ensures Count(w, i + 1) == Count(w, i) + One(w, k)
  {
    BitIsBitAt(w, i);
  }

  lemma CountLowNibble(w: bv64)
    ensures Count(w, 4) == One(w, 0) + One(w, 1) + One(w, 2) + One(w, 3)
  {
    CountStep(w, 0, 0);
    CountStep(w, 1, 1);
    CountStep(w, 2, 2);
    CountStep(w, 3, 3);
  }

  lemma CountLowByte(w: bv64)
    ensures Count(w, 8) == Ones(w)
  {
    CountLowNibble(w);
    CountStep(w, 4, 4);
    CountStep(w, 5, 5);
    CountStep(w, 6, 6);
    CountStep(w, 7, 7);
  }

  lemma {:induction false} CountShift(w: bv64, m: nat)
    requires m <= 56
    ensures Count(w, m + 8) == Ones(w) + Count(DropByte(w), m)
    decreases m
  {
    if m == 0 {
      CountLowByte(w);
    } else {
      CountShift(w, m - 1);
      ShiftedBit(w, m - 1, DropByte(w));
    }
  }

  lemma {:induction false} CountBytes(w: bv64, n: nat, m: nat)
    requires n <= 8 && m == 8 * n
    ensures Count(w, m) == OnesOfBytes(w, n)
    decreases n
  {
    if n > 0 {
      CountShift(w, m - 8);
      CountBytes(DropByte(w), n - 1, m - 8);
    }
  }

  lemma NarrowByte(x: bv64)
    requires x <= 255
    ensures x as nat == (x as bv8) as nat
  {
  }

  lemma ProductIsByte(v: bv64)
    ensures Product(v) <= 255 && Product(v) as bv8 == Byte(v * 0x0101010101010101, 56)
  {
  }

  /** `popcnt` of one word is its number of set bits. */
  lemma PopWordCounts(w: bv64)
    ensures PopWord(w) as nat == Count(w, 64)
  {
    var v := Folded(w);
    NarrowByte(Product(v));
    ProductIsByte(v);
    ValueIsNat(Product(v) as bv8);
    FoldedMask(w);
    TopByteIsSum(v);
    SumIsBytesBelow(v, 8);
    FoldedCounts(w, 8);
    CountBytes(w, 8, 64);
  }
}
