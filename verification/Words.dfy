/**
 Machine words: wrapping multiplication, rotation, xor-shift, little-endian
 loads, and which of them lose no information. The operations are wrapped in
 functions so that proofs about hash functions compose without looking at bits.
 */
module Words {
  type Byte = bv8
  type U32 = bv32
  type U64 = bv64

  // ---------- wrapping multiplication by an odd number is injective ----------

  function Mul64(x: U64, m: U64): U64 { x * m }

  lemma MulAssociates(x: U64, m: U64, i: U64)
    ensures Mul64(Mul64(x, m), i) == Mul64(x, Mul64(m, i))
  {
    MulAssociatesRaw(x, m, i);
  }

  lemma MulAssociatesRaw(x: U64, m: U64, i: U64)
    ensures Mul64(x * m, i) == Mul64(x, m * i)
  {
  }

  lemma MulByOne(x: U64)
    ensures Mul64(x, 1) == x
  {
  }

  lemma MulCancels(x: U64, y: U64, m: U64, i: U64)
    requires Mul64(m, i) == 1 && Mul64(x, m) == Mul64(y, m)
    ensures x == y
  {
    MulAssociates(x, m, i);
    MulAssociates(y, m, i);
    MulByOne(x);
    MulByOne(y);
  }

  /** By how much `m * i` exceeds 1. */
  function Excess(m: U64, i: U64): U64 { m * i - 1 }

  function Newton(m: U64, i: U64): U64 { i * (2 - m * i) }

  function MinusSquare(e: U64): U64 { -(e * e) }

  /** A Newton step squares the excess, up to sign. */
  lemma NewtonSquares(m: U64, i: U64)
    ensures Excess(m, Newton(m, i)) == MinusSquare(Excess(m, i))
  {
    NewtonSquaresRaw(m, i);
  }

  lemma NewtonSquaresRaw(m: U64, i: U64)
    ensures Excess(m, i * (2 - m * i)) == MinusSquare(m * i - 1)
  {
  }

  /** The low `bits` bits of `e` are zero, for the precisions that the Newton steps go through. */
  predicate Low(e: U64, bits: int) {
    if bits == 3 then e & 0x7 == 0
    else if bits == 6 then e & 0x3F == 0
    else if bits == 12 then e & 0xFFF == 0
    else if bits == 24 then e & 0xFF_FFFF == 0
    else if bits == 48 then e & 0xFFFF_FFFF_FFFF == 0
    else e == 0
  }

  lemma Square3(e: U64) requires Low(e, 3) ensures Low(MinusSquare(e), 6) {}

  lemma Square6(e: U64) requires Low(e, 6) ensures Low(MinusSquare(e), 12) {}

  lemma Square12(e: U64) requires Low(e, 12) ensures Low(MinusSquare(e), 24) {}

  lemma Square24(e: U64) requires Low(e, 24) ensures Low(MinusSquare(e), 48) {}

  lemma Square48(e: U64) requires Low(e, 48) ensures Low(MinusSquare(e), 64) {}

  predicate Odd(m: U64) { m & 1 == 1 }

  /** An odd number is its own inverse modulo 8. */
  lemma OddSquare(m: U64)
    requires Odd(m)
    ensures Low(Excess(m, m), 3)
  {
  }

  lemma NoExcess(m: U64, i: U64)
    requires Low(Excess(m, i), 64)
    ensures Mul64(m, i) == 1
  {
  }

  /** Every odd word has an inverse: five Newton steps take 3 correct bits to 96. */
  lemma OddInverse(m: U64) returns (i: U64)
    requires Odd(m)
    ensures Mul64(m, i) == 1
  {
    OddSquare(m);
    NewtonSquares(m, m);
    Square3(Excess(m, m));
    var i6 := Newton(m, m);
    NewtonSquares(m, i6);
    Square6(Excess(m, i6));
    var i12 := Newton(m, i6);
    NewtonSquares(m, i12);
    Square12(Excess(m, i12));
    var i24 := Newton(m, i12);
    NewtonSquares(m, i24);
    Square24(Excess(m, i24));
    var i48 := Newton(m, i24);
    NewtonSquares(m, i48);
    Square48(Excess(m, i48));
    i := Newton(m, i48);
    NoExcess(m, i);
  }

  lemma OddMulInjective(x: U64, y: U64, m: U64)
    requires Odd(m) && Mul64(x, m) == Mul64(y, m)
    ensures x == y
  {
    var i := OddInverse(m);
    MulCancels(x, y, m, i);
  }

  function Mul32(x: U32, m: U32): U32 { x * m }

  lemma Mul32Raw(x: U32, m: U32, i: U32) ensures Mul32(x * m, i) == Mul32(x, m * i) {}

  lemma Mul32ByOne(x: U32) ensures Mul32(x, 1) == x {}

  /** Multiplying by `m` is undone by multiplying by an inverse of `m`. */
  lemma Mul32Inverse(x: U32, m: U32, i: U32)
    requires Mul32(m, i) == 1
    ensures Mul32(Mul32(x, m), i) == x
  {
    Mul32Raw(x, m, i);
    Mul32ByOne(x);
  }

  // ---------- other operations that lose nothing ----------

  function Add64(x: U64, y: U64): U64 { x + y }

  function Sub64(x: U64, y: U64): U64 { x - y }

  lemma Sub64Raw(k: U64, x: U64) ensures Sub64(k + x, k) == x {}

  lemma Add64Injective(k: U64, x: U64, y: U64)
    requires Add64(k, x) == Add64(k, y)
    ensures x == y
  {
    Sub64Raw(k, x);
    Sub64Raw(k, y);
  }

  lemma Sub64Cancels(x: U64, k: U64)
    ensures Add64(Sub64(x, k), k) == x
  {
    Sub64CancelsRaw(x, k);
  }

  lemma Sub64CancelsRaw(x: U64, k: U64) ensures Add64(x - k, k) == x {}

  lemma Add64Raw(k: U64, x: U64) ensures Add64(k, x - k) == x {}

  lemma Sub64Injective(x: U64, y: U64, k: U64)
    requires Sub64(x, k) == Sub64(y, k)
    ensures x == y
  {
    Add64Raw(k, x);
    Add64Raw(k, y);
  }

  function Xor64(x: U64, y: U64): U64 { x ^ y }

  lemma Xor64Injective(x: U64, y: U64, k: U64)
    requires Xor64(x, k) == Xor64(y, k)
    ensures x == y
  {
  }

  /** `a ^= a >> 47` */
  function ShiftXor47(x: U64): U64 { x ^ (x >> 47) }

  /** Shifting by half the width or more is undone by the same operation. */
  lemma ShiftXor47Involutive(x: U64)
    ensures ShiftXor47(ShiftXor47(x)) == x
  {
    ShiftXor47Raw(x);
  }

  lemma ShiftXor47Raw(x: U64) ensures ShiftXor47(x ^ (x >> 47)) == x {}

  function Add32(x: U32, y: U32): U32 { x + y }

  function Sub32(x: U32, y: U32): U32 { x - y }

  lemma Sub32Raw(k: U32, x: U32) ensures Sub32(k + x, k) == x {}

  lemma Add32Commutes(x: U32, y: U32) ensures Add32(x, y) == Add32(y, x) {}

  lemma Add32Injective(k: U32, x: U32, y: U32)
    requires Add32(k, x) == Add32(k, y)
    ensures x == y
  {
    Sub32Raw(k, x);
    Sub32Raw(k, y);
  }

  function Xor32(x: U32, y: U32): U32 { x ^ y }

  lemma Xor32Injective(x: U32, y: U32, k: U32)
    ensures Xor32(x, k) == Xor32(y, k) ==> x == y
    ensures Xor32(k, x) == Xor32(k, y) ==> x == y
  {
  }

  function Rotate17(x: U32): U32 { x.RotateRight(17) }

  function Rotate19(x: U32): U32 { x.RotateRight(19) }

  lemma Rotate18Injective(x: U32, y: U32)
    requires Rotate18(x) == Rotate18(y)
    ensures x == y
  {
  }

  function Rotate11(x: U32): U32 { x.RotateRight(11) }

  function Rotate18(x: U32): U32 { x.RotateRight(18) }

  /** `rotate64`, which the hashes only call with amounts from 1 to 63 */
  function Rotate64(x: U64, k: U64): U64 requires 0 < k < 64 { (x >> k) | (x << (64 - k)) }

  lemma Rotate17Injective(x: U32, y: U32)
    requires Rotate17(x) == Rotate17(y)
    ensures x == y
  {
  }

  lemma Rotate19Injective(x: U32, y: U32)
    requires Rotate19(x) == Rotate19(y)
    ensures x == y
  {
  }

  function ShiftXor16(x: U32): U32 { x ^ (x >> 16) }

  function ShiftXor13(x: U32): U32 { x ^ (x >> 13) }

  lemma ShiftXor16Involutive(x: U32)
    ensures ShiftXor16(ShiftXor16(x)) == x
  {
    ShiftXor16Raw(x);
  }

  lemma ShiftXor16Raw(x: U32) ensures ShiftXor16(x ^ (x >> 16)) == x {}

  function UndoShiftXor13(x: U32): U32 { x ^ (x >> 13) ^ (x >> 26) }

  lemma ShiftXor13Inverse(x: U32)
    ensures UndoShiftXor13(ShiftXor13(x)) == x && ShiftXor13(UndoShiftXor13(x)) == x
  {
    ShiftXor13Undone(x);
    ShiftXor13Redone(x);
  }

  lemma ShiftXor13Undone(x: U32) ensures UndoShiftXor13(x ^ (x >> 13)) == x {}

  lemma ShiftXor13Redone(x: U32) ensures ShiftXor13(x ^ (x >> 13) ^ (x >> 26)) == x {}

  /** `u32::swap_bytes` and `u64::swap_bytes` */
  function SwapBytes32(x: U32): U32 {
    (x << 24) | ((x & 0xFF00) << 8) | ((x >> 8) & 0xFF00) | (x >> 24)
  }

  lemma SwapBytes32Involutive(x: U32)
    ensures SwapBytes32(SwapBytes32(x)) == x
  {
    SwapBytes32Raw(x);
  }

  lemma SwapBytes32Raw(x: U32)
    ensures SwapBytes32((x << 24) | ((x & 0xFF00) << 8) | ((x >> 8) & 0xFF00) | (x >> 24)) == x
  {
  }

  function SwapBytes64(x: U64): U64 {
    ((SwapBytes32((x & 0xFFFF_FFFF) as bv32) as bv64) << 32) | (SwapBytes32((x >> 32) as bv32) as bv64)
  }

  // ---------- loads ----------

  function Join(a: Byte, b: Byte, c: Byte, d: Byte): U32 {
    (a as bv32) | ((b as bv32) << 8) | ((c as bv32) << 16) | ((d as bv32) << 24)
  }

  lemma JoinInjective(a: Byte, b: Byte, c: Byte, d: Byte, a': Byte, b': Byte, c': Byte, d': Byte)
    requires Join(a, b, c, d) == Join(a', b', c', d')
    ensures a == a' && b == b' && c == c' && d == d'
  {
  }

  /** `unaligned_load32` on a little-endian machine. */
  function Load32(p: seq<Byte>, at: nat): U32
    requires at + 4 <= |p|
  {
    Join(p[at], p[at + 1], p[at + 2], p[at + 3])
  }

  /** `unaligned_load64` on a little-endian machine. */
  function Load64(p: seq<Byte>, at: nat): U64
    requires at + 8 <= |p|
  {
    Pair(Load32(p, at), Load32(p, at + 4))
  }

  function Pair(low: U32, high: U32): U64 { (low as bv64) | ((high as bv64) << 32) }

  function Widen(w: U32): U64 { w as bv64 }

  /** The eight bytes of a word as a little-endian machine stores them. */
  function Bytes64(w: U64): (p: seq<Byte>)
    ensures |p| == 8
  {
    Bytes32((w & 0xFFFF_FFFF) as bv32) + Bytes32((w >> 32) as bv32)
  }

  function Bytes32(w: U32): (p: seq<Byte>)
    ensures |p| == 4
  {
    [(w & 0xFF) as bv8, ((w >> 8) & 0xFF) as bv8, ((w >> 16) & 0xFF) as bv8, (w >> 24) as bv8]
  }

  lemma StoreLoad32(w: U32)
    ensures Load32(Bytes32(w), 0) == w
  {
  }

  /** Loading what was stored gives it back. */
  lemma StoreLoad64(w: U64)
    ensures Load64(Bytes64(w), 0) == w
  {
    hide Load32, Bytes32;
    var low, high := (w & 0xFFFF_FFFF) as bv32, (w >> 32) as bv32;
    var p := Bytes64(w);
    Load32Injective(p, Bytes32(low), 0);
    assert p[0..4] == Bytes32(low)[0..4];
    LoadTail32(Bytes32(low), Bytes32(high));
    StoreLoad32(low);
    StoreLoad32(high);
    PairHalves(w);
  }

  lemma LoadTail32(p: seq<Byte>, q: seq<Byte>)
    requires |p| == |q| == 4
    ensures Load32(p + q, 4) == Load32(q, 0)
  {
  }

  lemma PairHalves(w: U64)
    ensures Pair((w & 0xFFFF_FFFF) as bv32, (w >> 32) as bv32) == w
  {
  }

  lemma PairInjective(a: U32, b: U32, a': U32, b': U32)
    requires Pair(a, b) == Pair(a', b')
    ensures a == a' && b == b'
  {
  }

  lemma WidenInjective(a: U32, b: U32)
    requires Widen(a) == Widen(b)
    ensures a == b
  {
  }

  /** A load loses nothing: equal words come from equal bytes. */
  lemma Load32Injective(p: seq<Byte>, q: seq<Byte>, at: nat)
    requires at + 4 <= |p| && at + 4 <= |q|
    ensures Load32(p, at) == Load32(q, at) <==> p[at..at + 4] == q[at..at + 4]
  {
    if Load32(p, at) == Load32(q, at) {
      JoinInjective(p[at], p[at + 1], p[at + 2], p[at + 3], q[at], q[at + 1], q[at + 2], q[at + 3]);
    }
    if p[at..at + 4] == q[at..at + 4] {
      assert p[at..at + 4][0] == q[at..at + 4][0] && p[at..at + 4][1] == q[at..at + 4][1];
      assert p[at..at + 4][2] == q[at..at + 4][2] && p[at..at + 4][3] == q[at..at + 4][3];
    }
  }

  lemma Load64Injective(p: seq<Byte>, q: seq<Byte>, at: nat)
    requires at + 8 <= |p| && at + 8 <= |q|
    ensures Load64(p, at) == Load64(q, at) <==> p[at..at + 8] == q[at..at + 8]
  {
    hide Load32, Pair;
    if Load64(p, at) == Load64(q, at) {
      PairInjective(Load32(p, at), Load32(p, at + 4), Load32(q, at), Load32(q, at + 4));
    }
    Load32Injective(p, q, at);
    Load32Injective(p, q, at + 4);
    assert p[at..at + 8] == p[at..at + 4] + p[at + 4..at + 8];
    assert q[at..at + 8] == q[at..at + 4] + q[at + 4..at + 8];
    assert p[at..at + 4] == p[at..at + 8][..4] && p[at + 4..at + 8] == p[at..at + 8][4..];
    assert q[at..at + 4] == q[at..at + 8][..4] && q[at + 4..at + 8] == q[at..at + 8][4..];
  }

  function Append32(x: U32, bit: bool): U32 { (x << 1) | (if bit then 1 else 0) }

  /** `len as u32`: the low bits of `n`. */
  function Len32(n: nat): U32 { if n == 0 then 0 else Append32(Len32(n / 2), n % 2 == 1) }

  /** The conversion counts, and so wraps where the word does. */
  lemma {:induction false} Len32Counts(n: nat)
    ensures Len32(n + 1) == Add32(Len32(n), 1)
    decreases n
  {
    hide Append32, Add32;
    var half := n / 2;
    if n % 2 == 1 {
      Len32Counts(half);
      assert (n + 1) / 2 == half + 1;
      Carry32(Len32(half));
    } else if n == 0 {
      CountsToOne32();
    } else {
      NoCarry32(Len32(half));
    }
  }

  lemma CountsToOne32() ensures Append32(0, true) == Add32(0, 1) {}

  lemma Carry32(x: U32) ensures Append32(Add32(x, 1), false) == Add32(Append32(x, true), 1) {
    Carry32Raw(x);
  }

  lemma Carry32Raw(x: U32) ensures Append32(x + 1, false) == Append32(x, true) + 1 {}

  lemma NoCarry32(x: U32) ensures Append32(x, true) == Add32(Append32(x, false), 1) {}

  function Append64(x: U64, bit: bool): U64 { (x << 1) | (if bit then 1 else 0) }

  /** `len as u64`: the low bits of `n`. */
  function Len64(n: nat): U64 { if n == 0 then 0 else Append64(Len64(n / 2), n % 2 == 1) }

  /** The conversion counts, and so wraps where the word does. */
  lemma {:induction false} Len64Counts(n: nat)
    ensures Len64(n + 1) == Add64(Len64(n), 1)
    decreases n
  {
    hide Append64, Add64;
    var half := n / 2;
    if n % 2 == 1 {
      Len64Counts(half);
      assert (n + 1) / 2 == half + 1;
      Carry64(Len64(half));
    } else if n == 0 {
      CountsToOne64();
    } else {
      NoCarry64(Len64(half));
    }
  }

  lemma CountsToOne64() ensures Append64(0, true) == Add64(0, 1) {}

  lemma Carry64(x: U64) ensures Append64(Add64(x, 1), false) == Add64(Append64(x, true), 1) {
    Carry64Raw(x);
  }

  lemma Carry64Raw(x: U64) ensures Append64(x + 1, false) == Append64(x, true) + 1 {}

  lemma NoCarry64(x: U64) ensures Append64(x, true) == Add64(Append64(x, false), 1) {}
}
