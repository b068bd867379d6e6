/** Fixed-width unsigned integers, options, big-endian fields and bit sets: the vocabulary
    every other module of the model is written in. */
module Bytes {
  type byte = x: int | 0 <= x < 0x100
  type u16 = x: int | 0 <= x < 0x1_0000
  type u32 = x: int | 0 <= x < 0x1_0000_0000
  type u64 = x: int | 0 <= x < 0x1_0000_0000_0000_0000

  const MAX_U64: u64 := 0xFFFF_FFFF_FFFF_FFFF

  datatype Option<+T> = None | Some(value: T)

  // Big-endian fields, most significant byte first.

  function U16(v: u16): (b: seq<byte>)
    ensures |b| == 2
  {
    [v / 0x100, v % 0x100]
  }

  function U32(v: u32): (b: seq<byte>)
    ensures |b| == 4
  {
    [v / 0x100_0000, v / 0x1_0000 % 0x100, v / 0x100 % 0x100, v % 0x100]
  }

  function U64(v: u64): (b: seq<byte>)
    ensures |b| == 8
  {
    U32(v / 0x1_0000_0000) + U32(v % 0x1_0000_0000)
  }

  function FromU16(a: byte, b: byte): u16 {
    a * 0x100 + b
  }

  function FromU32(a: byte, b: byte, c: byte, d: byte): u32 {
    a * 0x100_0000 + b * 0x1_0000 + c * 0x100 + d
  }

  function FromU64(hi: u32, lo: u32): u64 {
    hi * 0x1_0000_0000 + lo
  }

  lemma FieldU16(v: u16, a: byte, b: byte)
    ensures FromU16(U16(v)[0], U16(v)[1]) == v
    ensures U16(FromU16(a, b)) == [a, b]
  {}

  lemma FieldU32(v: u32)
    ensures var f := U32(v); FromU32(f[0], f[1], f[2], f[3]) == v
  {
    var high := v / 0x1_0000;
    var low := v % 0x1_0000;
    assert v == high * 0x1_0000 + low;
    assert v / 0x100_0000 == high / 0x100;
    assert v / 0x100 == high * 0x100 + low / 0x100;
    assert v / 0x100 % 0x100 == low / 0x100;
    assert v % 0x100 == low % 0x100;
  }

  lemma FieldBytes32(a: byte, b: byte, c: byte, d: byte)
    ensures U32(FromU32(a, b, c, d)) == [a, b, c, d]
  {
    var v := FromU32(a, b, c, d);
    assert v / 0x100_0000 == a;
    assert v / 0x1_0000 == a * 0x100 + b;
    assert v / 0x100 == (a * 0x100 + b) * 0x100 + c;
  }

  lemma FieldU64(v: u64, hi: u32, lo: u32)
    ensures FromU64(v / 0x1_0000_0000, v % 0x1_0000_0000) == v
    ensures U64(FromU64(hi, lo)) == U32(hi) + U32(lo)
  {}

  // Bit masks on naturals: a & b, a & ~b, and the test of one bit.

  function BitAnd(a: nat, b: nat): (r: nat)
    ensures r <= a && r <= b
  {
    if a == 0 || b == 0 then 0
    else (if a % 2 == 1 && b % 2 == 1 then 1 else 0) + 2 * BitAnd(a / 2, b / 2)
  }

  function BitClear(a: nat, b: nat): nat {
    a - BitAnd(a, b)
  }

  predicate HasBit(a: nat, i: nat) {
    if i == 0 then a % 2 == 1 else HasBit(a / 2, i - 1)
  }

  lemma {:induction false} HasBitZero(i: nat)
    ensures !HasBit(0, i)
  {
    if i > 0 {
      HasBitZero(i - 1);
    }
  }

  lemma {:induction false} BitAndIsIntersection(a: nat, b: nat, i: nat)
    ensures HasBit(BitAnd(a, b), i) <==> HasBit(a, i) && HasBit(b, i)
  {
    HasBitZero(i);
    if a != 0 && b != 0 && i > 0 {
      BitAndIsIntersection(a / 2, b / 2, i - 1);
      assert BitAnd(a, b) / 2 == BitAnd(a / 2, b / 2);
    }
  }

  lemma {:induction false} BitClearIsDifference(a: nat, b: nat, i: nat)
    ensures HasBit(BitClear(a, b), i) <==> HasBit(a, i) && !HasBit(b, i)
  {
    HasBitZero(i);
    if a != 0 && b != 0 {
      assert BitClear(a, b) % 2 == (if a % 2 == 1 && b % 2 == 0 then 1 else 0);
      assert BitClear(a, b) / 2 == BitClear(a / 2, b / 2);
      if i > 0 {
        BitClearIsDifference(a / 2, b / 2, i - 1);
      }
    }
  }

  /** A mask is inside another exactly when clearing the other leaves nothing. */
  lemma {:induction false} BitAndWithin(a: nat, b: nat)
    ensures BitAnd(a, BitAnd(a, b)) == BitAnd(a, b) == BitAnd(BitAnd(a, b), a)
    ensures BitClear(BitAnd(a, b), a) == 0
  {
    if a != 0 && b != 0 {
      BitAndWithin(a / 2, b / 2);
      assert BitAnd(a, b) / 2 == BitAnd(a / 2, b / 2);
    }
  }

  lemma {:induction false} BitAndCommutes(a: nat, b: nat)
    ensures BitAnd(a, b) == BitAnd(b, a)
  {
    if a != 0 && b != 0 {
      BitAndCommutes(a / 2, b / 2);
    }
  }

  lemma {:induction false} BitAndAssociates(a: nat, b: nat, c: nat)
    ensures BitAnd(BitAnd(a, b), c) == BitAnd(a, BitAnd(b, c))
  {
    if a != 0 && b != 0 && c != 0 {
      BitAndAssociates(a / 2, b / 2, c / 2);
      assert BitAnd(a, b) / 2 == BitAnd(a / 2, b / 2);
      assert BitAnd(b, c) / 2 == BitAnd(b / 2, c / 2);
    }
  }

  /** Every bit of `b` is a bit of `a`. */
  ghost predicate Covers(a: nat, b: nat) {
    forall i: nat :: HasBit(b, i) ==> HasBit(a, i)
  }

  /** Masking with `b` gives all of `b` exactly when every bit of `b` is there. */
  lemma {:induction false} BitAndIsAll(a: nat, b: nat)
    ensures BitAnd(a, b) == b <==> Covers(a, b)
  {
    hide BitAnd, HasBit;
    if BitAnd(a, b) == b {
      forall i: nat | HasBit(b, i)
        ensures HasBit(a, i)
      {
        BitAndIsIntersection(a, b, i);
      }
    } else if Covers(a, b) {
      AllBits(a, b);
    }
  }

  lemma {:induction false} AllBits(a: nat, b: nat)
    requires Covers(a, b)
    ensures BitAnd(a, b) == b
    decreases b
  {
    if b != 0 {
      SomeBit(b);
      var k: nat :| HasBit(b, k);
      assert HasBit(a, k);
      HasBitZero(k);
      forall i: nat | HasBit(b / 2, i)
        ensures HasBit(a / 2, i)
      {
        assert HasBit(b, i + 1);
        assert HasBit(a, i + 1);
      }
      AllBits(a / 2, b / 2);
      assert HasBit(b, 0) ==> HasBit(a, 0);
    }
  }

  lemma {:induction false} SomeBit(b: nat)
    requires b != 0
    ensures exists k: nat :: HasBit(b, k)
  {
    if b % 2 == 1 {
      assert HasBit(b, 0);
    } else {
      SomeBit(b / 2);
      var k: nat :| HasBit(b / 2, k);
      assert HasBit(b, k + 1);
    }
  }
}
