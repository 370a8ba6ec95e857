/**
 The mixing functions of CityHash as `city.rs` has them, and what they do not
 lose. The hashes themselves are in `CityHash32` and `CityHash64`.
 */
module City {
  import opened Words

  const K0: U64 := 0xc3a5c85c97cb3127
  const K1: U64 := 0xb492b66fbe98f273
  const K2: U64 := 0x9ae16a3b2f90404f
  const C1: U32 := 0xcc9e2d51
  const C2: U32 := 0x1b873593
  const MUL: U64 := 0x9ddfea08eb382d69

  // ---------- mixing ----------

  /** The part of `mur` that scrambles its first argument. */
  function Scramble(a: U32): U32 { Mul32(Rotate17(Mul32(a, C1)), C2) }

  /** `h * 5 + 0xe6546b64` */
  function Affine(h: U32): U32 { Add32(0xe6546b64, Mul32(h, 5)) }

  function Mur(a: U32, h: U32): U32 { Affine(Rotate19(Xor32(h, Scramble(a)))) }

  const F1: U32 := 0x85ebca6b
  const F2: U32 := 0xc2b2ae35

  function Fmix(h: U32): U32 {
    ShiftXor16(Mul32(ShiftXor13(Mul32(ShiftXor16(h), F1)), F2))
  }

  function ShiftMix(val: U64): U64 { ShiftXor47(val) }

  function Hash64Len16(u: U64, v: U64, mul: U64): U64 {
    var a := ShiftXor47(Mul64(Xor64(u, v), mul));
    var b := ShiftXor47(Mul64(Xor64(a, v), mul));
    Mul64(b, mul)
  }

  lemma ScrambleInjective(a: U32, a': U32)
    requires Scramble(a) == Scramble(a')
    ensures a == a'
  {
    Mul32Inverse(Rotate17(Mul32(a, C1)), C2, 0x56ed309b);
    Mul32Inverse(Rotate17(Mul32(a', C1)), C2, 0x56ed309b);
    Rotate17Injective(Mul32(a, C1), Mul32(a', C1));
    Mul32Inverse(a, C1, 0xdee13bb1);
    Mul32Inverse(a', C1, 0xdee13bb1);
  }

  lemma AffineInjective(h: U32, h': U32)
    requires Affine(h) == Affine(h')
    ensures h == h'
  {
    Add32Injective(0xe6546b64, Mul32(h, 5), Mul32(h', 5));
    Mul32Inverse(h, 5, 0xcccccccd);
    Mul32Inverse(h', 5, 0xcccccccd);
  }

  /** `mur` is injective in each of its arguments. */
  lemma MurInjective(a: U32, h: U32, a': U32, h': U32)
    requires Mur(a, h) == Mur(a', h')
    ensures a == a' <==> h == h'
  {
    var x, x' := Xor32(h, Scramble(a)), Xor32(h', Scramble(a'));
    AffineInjective(Rotate19(x), Rotate19(x'));
    Rotate19Injective(x, x');
    if a == a' {
      Xor32Injective(h, h', Scramble(a));
    }
    if h == h' {
      Xor32Injective(Scramble(a), Scramble(a'), h);
      ScrambleInjective(a, a');
    }
  }

  /** The inverse of `fmix`. */
  function UndoFmix(r: U32): U32 {
    ShiftXor16(Mul32(UndoShiftXor13(Mul32(ShiftXor16(r), 0x7ed1b41d)), 0xa5cb9243))
  }

  /** `fmix` is a bijection. */
  lemma FmixBijective(h: U32)
    ensures UndoFmix(Fmix(h)) == h
    ensures Fmix(UndoFmix(h)) == h
  {
    var x1 := ShiftXor16(h);
    var x2 := Mul32(x1, F1);
    var x3 := ShiftXor13(x2);
    var x4 := Mul32(x3, F2);
    ShiftXor16Involutive(x4);
    Mul32Inverse(x3, F2, 0x7ed1b41d);
    ShiftXor13Inverse(x2);
    Mul32Inverse(x1, F1, 0xa5cb9243);
    ShiftXor16Involutive(h);

    var y1 := Mul32(x1, 0x7ed1b41d);
    var y2 := UndoShiftXor13(y1);
    var y3 := Mul32(y2, 0xa5cb9243);
    ShiftXor16Involutive(y3);
    Mul32Inverse(y2, 0xa5cb9243, F1);
    ShiftXor13Inverse(y1);
    Mul32Inverse(x1, 0x7ed1b41d, F2);
  }

  /** For every odd multiplier, `hash64_len16` is injective in its first argument. */
  lemma Hash64Len16Injective(u: U64, u': U64, v: U64, mul: U64)
    requires Odd(mul) && Hash64Len16(u, v, mul) == Hash64Len16(u', v, mul)
    ensures u == u'
  {
    var a, a' := Mul64(Xor64(u, v), mul), Mul64(Xor64(u', v), mul);
    var b, b' := Mul64(Xor64(ShiftXor47(a), v), mul), Mul64(Xor64(ShiftXor47(a'), v), mul);
    OddMulInjective(ShiftXor47(b), ShiftXor47(b'), mul);
    ShiftXor47Involutive(b);
    ShiftXor47Involutive(b');
    OddMulInjective(Xor64(ShiftXor47(a), v), Xor64(ShiftXor47(a'), v), mul);
    Xor64Injective(ShiftXor47(a), ShiftXor47(a'), v);
    ShiftXor47Involutive(a);
    ShiftXor47Involutive(a');
    OddMulInjective(Xor64(u, v), Xor64(u', v), mul);
    Xor64Injective(u, u', v);
  }
}
