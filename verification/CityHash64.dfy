/**
 CityHash's 64-bit hash as `city.rs` has it, on a little-endian machine with
 64-bit `usize`: its cases, its block loop against a fold over 64-byte blocks,
 and what seeding and short inputs cannot make collide.
 */
module CityHash64 {
  import opened Words
  import opened Reads
  import opened City

  // ---------- up to 64 bytes ----------

  /** `K2 + len * 2`, the multiplier of the short cases. */
  function ShortMul(len: nat): U64 { Add64(K2, Mul64(Len64(len), 2)) }

  /** The case of 8 to 16 bytes, from the first and the last word. */
  function Mix8To16(len: nat, first: U64, last: U64): U64 {
    var mul := ShortMul(len);
    var a := Add64(first, K2);
    var c := Add64(Mul64(Rotate64(last, 37), mul), a);
    var d := Mul64(Add64(Rotate64(a, 25), last), mul);
    Hash64Len16(c, d, mul)
  }

  /** `a << 3`, which keeps all bits of a 32-bit word. */
  function TimesEight(a: U32): U64 { (a as bv64) << 3 }

  function Mix4To7(len: nat, first: U32, last: U32): U64 {
    Hash64Len16(Add64(Len64(len), TimesEight(first)), Widen(last), ShortMul(len))
  }

  function Mix1To3(len: nat, a: Byte, b: Byte, c: Byte): U64 {
    var y := Add32(a as bv32, (b as bv32) << 8);
    var z := Add32(Len32(len), (c as bv32) << 2);
    Mul64(ShiftMix(Xor64(Mul64(Widen(y), K2), Mul64(Widen(z), K0))), K2)
  }

  function Hash64Len4To7(data: seq<Byte>): U64
    requires 4 <= |data| < 8
  {
    Mix4To7(|data|, Load32(data, 0), Load32(data, |data| - 4))
  }

  function Hash64Len0To16(data: seq<Byte>): U64
    requires |data| <= 16
  {
    var len := |data|;
    if len >= 8 then Mix8To16(len, Load64(data, 0), Load64(data, len - 8))
    else if len >= 4 then Hash64Len4To7(data)
    else if len > 0 then Mix1To3(len, data[0], data[len / 2], data[len - 1])
    else K2
  }

  /** The case of 17 to 32 bytes, from the first two and the last two words. */
  function Mix17To32(len: nat, w0: U64, w1: U64, last: U64, beforeLast: U64): U64 {
    var mul := ShortMul(len);
    var a := Mul64(w0, K1);
    var c := Mul64(last, mul);
    var d := Mul64(beforeLast, K2);
    Hash64Len16(
      Add64(Add64(Rotate64(Add64(a, w1), 43), Rotate64(c, 30)), d),
      Add64(Add64(a, Rotate64(Add64(w1, K2), 18)), c),
      mul
    )
  }

  function Hash64Len17To32(data: seq<Byte>): U64
    requires 17 <= |data| <= 32
  {
    var len := |data|;
    Mix17To32(len, Load64(data, 0), Load64(data, 8), Load64(data, len - 8), Load64(data, len - 16))
  }

  /** The case of 33 to 64 bytes, from its eight words in the order in which they are loaded. */
  function Mix33To64(len: nat, w0: U64, b: U64, c: U64, d: U64, w2: U64, w3: U64, g: U64, w7: U64): U64 {
    var mul := ShortMul(len);
    var a := Mul64(w0, K2);
    var e := Mul64(w2, K2);
    var f := Mul64(w3, 9);
    var h := Mul64(w7, mul);
    var q := Mul64(Add64(Rotate64(b, 30), c), 9);
    var u := Add64(Rotate64(Add64(a, g), 43), q);
    var v := Add64(Add64(Xor64(Add64(a, g), d), f), 1);
    var w := Add64(SwapBytes64(Mul64(Add64(u, v), mul)), h);
    var x := Add64(Rotate64(Add64(e, f), 42), c);
    var y := Mul64(Add64(SwapBytes64(Mul64(Add64(v, w), mul)), g), mul);
    var z := Add64(Add64(e, f), c);
    var a' := Add64(SwapBytes64(Add64(Mul64(Add64(x, z), mul), y)), b);
    var q' := Add64(Add64(Mul64(Add64(z, a'), mul), d), h);
    Add64(Mul64(ShiftMix(q'), mul), x)
  }

  function Hash64Len33To64(data: seq<Byte>): U64
    requires 33 <= |data| <= 64
  {
    var len := |data|;
    Mix33To64(len, Load64(data, 0), Load64(data, 8), Load64(data, len - 24), Load64(data, len - 32),
              Load64(data, 16), Load64(data, 24), Load64(data, len - 8), Load64(data, len - 16))
  }

  // Each case reads all of its input and nothing else.

  method ComputeLen0To16(data: seq<Byte>) returns (r: U64, ghost touched: set<nat>)
    requires |data| <= 16
    ensures r == Hash64Len0To16(data) && touched == Span(0, |data|)
  {
    hide Mix8To16, Mix4To7, Mix1To3, Load32, Load64;
    var len := |data|;
    touched := {};
    if len >= 8 {
      var a, b;
      a, touched := Fetch64(data, 0, touched);
      b, touched := Fetch64(data, len - 8, touched);
      r := Mix8To16(len, a, b);
    } else if len >= 4 {
      var a, b;
      a, touched := Fetch32(data, 0, touched);
      b, touched := Fetch32(data, len - 4, touched);
      r := Mix4To7(len, a, b);
    } else if len > 0 {
      var a, b, c;
      a, touched := Fetch8(data, 0, touched);
      b, touched := Fetch8(data, len / 2, touched);
      c, touched := Fetch8(data, len - 1, touched);
      r := Mix1To3(len, a, b, c);
    } else {
      r := K2;
    }
  }

  method ComputeLen17To32(data: seq<Byte>) returns (r: U64, ghost touched: set<nat>)
    requires 17 <= |data| <= 32
    ensures r == Hash64Len17To32(data) && touched == Span(0, |data|)
  {
    hide Mix17To32, Load64;
    var len := |data|;
    var a, b, c, d;
    a, touched := Fetch64(data, 0, {});
    b, touched := Fetch64(data, 8, touched);
    c, touched := Fetch64(data, len - 8, touched);
    d, touched := Fetch64(data, len - 16, touched);
    r := Mix17To32(len, a, b, c, d);
  }

  method ComputeLen33To64(data: seq<Byte>) returns (r: U64, ghost touched: set<nat>)
    requires 33 <= |data| <= 64
    ensures r == Hash64Len33To64(data) && touched == Span(0, |data|)
  {
    hide Mix33To64, Load64;
    var len := |data|;
    var a, b, c, d, e, f, g, h;
    a, touched := Fetch64(data, 0, {});
    b, touched := Fetch64(data, 8, touched);
    c, touched := Fetch64(data, len - 24, touched);
    d, touched := Fetch64(data, len - 32, touched);
    e, touched := Fetch64(data, 16, touched);
    f, touched := Fetch64(data, 24, touched);
    g, touched := Fetch64(data, len - 8, touched);
    h, touched := Fetch64(data, len - 16, touched);
    r := Mix33To64(len, a, b, c, d, e, f, g, h);
  }

  // ---------- more than 64 bytes ----------

  /** `weak_hash64_len32_with_seeds`, on the 32 bytes from `at` on. */
  function WeakHash(data: seq<Byte>, at: nat, a: U64, b: U64): (U64, U64)
    requires at + 32 <= |data|
  {
    WeakMix(Load64(data, at), Load64(data, at + 8), Load64(data, at + 16), Load64(data, at + 24), a, b)
  }

  function WeakMix(w: U64, x: U64, y: U64, z: U64, a: U64, b: U64): (U64, U64) {
    var c := Add64(a, w);
    var aa := Add64(Add64(c, x), y);
    var bb := Add64(Rotate64(Add64(Add64(b, c), z), 21), Rotate64(aa, 44));
    (Add64(aa, z), Add64(bb, c))
  }

  /** The 56 bytes of state of the block loop. */
  datatype Lanes = Lanes(x: U64, y: U64, z: U64, v: (U64, U64), w: (U64, U64))

  /** The state after the first word and the last eight words have been mixed in. */
  function StartWords(len: nat, first: U64, w: (U64, U64, U64, U64), w': (U64, U64, U64, U64)): Lanes {
    var x := w.3;
    var y := Add64(w'.2, w.1);
    var z := Hash64Len16(Add64(w.2, Len64(len)), w'.1, MUL);
    Lanes(
      Add64(Mul64(x, K1), first), y, z,
      WeakMix(w.0, w.1, w.2, w.3, Len64(len), z),
      WeakMix(w'.0, w'.1, w'.2, w'.3, Add64(y, K1), x)
    )
  }

  /** The four words from `at` on. */
  function Load256(data: seq<Byte>, at: nat): (U64, U64, U64, U64)
    requires at + 32 <= |data|
  {
    (Load64(data, at), Load64(data, at + 8), Load64(data, at + 16), Load64(data, at + 24))
  }

  function Start(len: nat, first: U64, last: seq<Byte>): Lanes
    requires |last| == 64
  {
    StartWords(len, first, Load256(last, 0), Load256(last, 32))
  }

  /** One block of eight words. */
  function RoundWords(s: Lanes, b: (U64, U64, U64, U64), b': (U64, U64, U64, U64)): Lanes {
    var x := Xor64(Mul64(Rotate64(Add64(Add64(Add64(s.x, s.y), s.v.0), b.1), 37), K1), s.w.1);
    var y := Add64(Mul64(Rotate64(Add64(Add64(s.y, s.v.1), b'.2), 42), K1), Add64(s.v.0, b'.1));
    var z := Mul64(Rotate64(Add64(s.z, s.w.0), 33), K1);
    Lanes(
      z, y, x,
      WeakMix(b.0, b.1, b.2, b.3, Mul64(s.v.1, K1), Add64(x, s.w.0)),
      WeakMix(b'.0, b'.1, b'.2, b'.3, Add64(z, s.w.1), Add64(y, b.2))
    )
  }

  function Round(s: Lanes, b: seq<Byte>): Lanes
    requires |b| == 64
  {
    RoundWords(s, Load256(b, 0), Load256(b, 32))
  }

  /** The first `n` blocks of `data`, first to last. */
  function Rounds(s: Lanes, data: seq<Byte>, n: nat): Lanes
    requires 64 * n <= |data|
    decreases n
  {
    if n == 0 then s else Rounds(Round(s, data[..64]), data[64..], n - 1)
  }

  function Finish(s: Lanes): U64 {
    Hash64Len16(
      Add64(Hash64Len16(s.v.0, s.w.0, MUL), Add64(Mul64(ShiftMix(s.y), K1), s.z)),
      Add64(Hash64Len16(s.v.1, s.w.1, MUL), s.x),
      MUL
    )
  }

  function Hash64Long(data: seq<Byte>): U64
    requires 64 < |data|
  {
    Finish(Rounds(Start(|data|, Load64(data, 0), data[|data| - 64..]), data, Blocks(|data|)))
  }

  /** `hash64` on every input. */
  function Hash64(data: seq<Byte>): U64 {
    if |data| <= 16 then Hash64Len0To16(data)
    else if |data| <= 32 then Hash64Len17To32(data)
    else if |data| <= 64 then Hash64Len33To64(data)
    else Hash64Long(data)
  }

  method FetchWeak(data: seq<Byte>, at: nat, a: U64, b: U64, ghost seen: set<nat>)
    returns (r: (U64, U64), ghost touched: set<nat>)
    requires at + 32 <= |data|
    ensures r == WeakHash(data, at, a, b) && touched == seen + Span(at, 32)
  {
    hide WeakMix;
    var w, x, y, z;
    touched := seen;
    w, touched := Fetch64(data, at, touched);
    x, touched := Fetch64(data, at + 8, touched);
    y, touched := Fetch64(data, at + 16, touched);
    z, touched := Fetch64(data, at + 24, touched);
    r := WeakMix(w, x, y, z, a, b);
  }

  /** The steps of the source on one block, in its order. */
  method Block(data: seq<Byte>, seek: nat, s: Lanes, ghost seen: set<nat>) returns (s': Lanes, ghost touched: set<nat>)
    requires seek + 64 <= |data|
    ensures s' == Round(s, data[seek..seek + 64]) && touched == seen + Span(seek, 64)
  {
    hide WeakMix, Load64, Rotate64, Mul64, Add64, Xor64;
    touched := seen;
    var x, y, z, v, w := s.x, s.y, s.z, s.v, s.w;
    var l;
    l, touched := Fetch64(data, seek + 8, touched);
    x := Mul64(Rotate64(Add64(Add64(Add64(x, y), v.0), l), 37), K1);
    x := Xor64(x, w.1);
    l, touched := Fetch64(data, seek + 48, touched);
    y := Mul64(Rotate64(Add64(Add64(y, v.1), l), 42), K1);
    l, touched := Fetch64(data, seek + 40, touched);
    y := Add64(y, Add64(v.0, l));
    z := Mul64(Rotate64(Add64(z, w.0), 33), K1);
    v, touched := FetchWeak(data, seek, Mul64(v.1, K1), Add64(x, w.0), touched);
    l, touched := Fetch64(data, seek + 16, touched);
    w, touched := FetchWeak(data, seek + 32, Add64(z, w.1), Add64(y, l), touched);
    z, x := x, z;
    s' := Lanes(x, y, z, v, w);
    BlockLoads(data, seek);
  }

  lemma BlockLoads(data: seq<Byte>, at: nat)
    requires at + 64 <= |data|
    ensures var b := data[at..at + 64];
            && Load256(b, 0) == Load256(data, at)
            && Load256(b, 32) == Load256(data, at + 32)
  {
    hide Load64;
    LoadSlice64(data, at, at + 64, 0);
    LoadSlice64(data, at, at + 64, 8);
    LoadSlice64(data, at, at + 64, 16);
    LoadSlice64(data, at, at + 64, 24);
    LoadSlice64(data, at, at + 64, 32);
    LoadSlice64(data, at, at + 64, 40);
    LoadSlice64(data, at, at + 64, 48);
    LoadSlice64(data, at, at + 64, 56);
  }

  /** The first word and the last 64 bytes, loaded from the ends of the slice. */
  method Ends(data: seq<Byte>) returns (s: Lanes, ghost touched: set<nat>)
    requires 64 < |data|
    ensures s == Start(|data|, Load64(data, 0), data[|data| - 64..])
    ensures touched == Span(0, 8) + Span(|data| - 64, 64)
  {
    hide WeakMix, Hash64Len16, Load64, Mul64, Add64, Len64, Span;
    var len := |data|;
    var x, y, z, v, w, k, l;
    touched := {};
    x, touched := Fetch64(data, len - 40, touched);
    k, touched := Fetch64(data, len - 16, touched);
    l, touched := Fetch64(data, len - 56, touched);
    y := Add64(k, l);
    k, touched := Fetch64(data, len - 48, touched);
    l, touched := Fetch64(data, len - 24, touched);
    z := Hash64Len16(Add64(k, Len64(len)), l, MUL);
    v, touched := FetchWeak(data, len - 64, Len64(len), z, touched);
    w, touched := FetchWeak(data, len - 32, Add64(y, K1), x, touched);
    l, touched := Fetch64(data, 0, touched);
    s := Lanes(Add64(Mul64(x, K1), l), y, z, v, w);
    BlockLoads(data, len - 64);
    assert data[len - 64..len] == data[len - 64..];
    EndsCover(len);
  }

  lemma EndsCover(len: nat)
    requires 64 < len
    ensures {} + Span(len - 40, 8) + Span(len - 16, 8) + Span(len - 56, 8) + Span(len - 48, 8) + Span(len - 24, 8)
            + Span(len - 64, 32) + Span(len - 32, 32) + Span(0, 8) == Span(0, 8) + Span(len - 64, 64)
  {
  }

  lemma RoundsStep(s: Lanes, data: seq<Byte>, a: nat, n: nat)
    requires 0 < n && a + 64 * n <= |data|
    ensures Rounds(s, data[a..], n) == Rounds(Round(s, data[a..a + 64]), data[a + 64..], n - 1)
  {
    assert data[a..][..64] == data[a..a + 64];
    assert data[a..][64..] == data[a + 64..];
  }

  /** The block loop folds `Round` over the blocks, stays inside the slice and reads all of it. */
  method ComputeLong(data: seq<Byte>) returns (r: U64, ghost touched: set<nat>)
    requires 64 < |data|
    ensures r == Hash64Long(data) && touched == Span(0, |data|)
  {
    hide Round, Start, Finish;
    var s;
    s, touched := Ends(data);
    ghost var start := s;
    var len := (|data| - 1) / 64 * 64;
    ghost var n := Blocks(|data|);
    assert len == 64 * n;
    ghost var left := n;
    var seek := 0;
    while true
      invariant 0 < left <= n && len == 64 * left && seek == 64 * (n - left)
      invariant Rounds(s, data[seek..], left) == Rounds(start, data, n)
      invariant touched == Span(0, seek) + (Span(0, 8) + Span(|data| - 64, 64))
      decreases len
    {
      RoundsStep(s, data, seek, left);
      s, touched := Block(data, seek, s, touched);
      SpanGrows(seek, 64, Span(0, 8) + Span(|data| - 64, 64));
      seek := seek + 64;
      len := len - 64;
      left := left - 1;
      if len == 0 {
        break;
      }
    }
    SpansMeet(seek, 64, |data|);
    r := Finish(s);
  }

  /** `hash64`: whatever the length, every byte of the input is read, and nothing else. */
  method ComputeHash64(data: seq<Byte>) returns (r: U64, ghost touched: set<nat>)
    ensures r == Hash64(data) && touched == Span(0, |data|)
  {
    hide Hash64Len0To16, Hash64Len17To32, Hash64Len33To64, Hash64Long;
    if |data| <= 32 {
      if |data| <= 16 {
        r, touched := ComputeLen0To16(data);
      } else {
        r, touched := ComputeLen17To32(data);
      }
    } else if |data| <= 64 {
      r, touched := ComputeLen33To64(data);
    } else {
      r, touched := ComputeLong(data);
    }
  }

  // ---------- seeds ----------

  /** `hash64_with_seeds` */
  function Hash64WithSeeds(data: seq<Byte>, seed0: U64, seed1: U64): U64 {
    Hash64Len16(Sub64(Hash64(data), seed0), seed1, MUL)
  }

  /** `hash64_with_seed` */
  function Hash64WithSeed(data: seq<Byte>, seed: U64): U64 { Hash64WithSeeds(data, K2, seed) }

  /** For fixed seeds, two inputs collide exactly when they collide without seeds. */
  lemma SeedingAddsNoCollisions(x: seq<Byte>, y: seq<Byte>, seed0: U64, seed1: U64)
    ensures Hash64WithSeeds(x, seed0, seed1) == Hash64WithSeeds(y, seed0, seed1) <==> Hash64(x) == Hash64(y)
  {
    SeededInjective(Hash64(x), Hash64(y), seed0, seed1);
  }

  lemma SeededInjective(h: U64, h': U64, seed0: U64, seed1: U64)
    ensures Hash64Len16(Sub64(h, seed0), seed1, MUL) == Hash64Len16(Sub64(h', seed0), seed1, MUL) ==> h == h'
  {
    hide Hash64Len16, Sub64;
    if Hash64Len16(Sub64(h, seed0), seed1, MUL) == Hash64Len16(Sub64(h', seed0), seed1, MUL) {
      Hash64Len16Injective(Sub64(h, seed0), Sub64(h', seed0), seed1, MUL);
      Sub64Injective(h, h', seed0);
    }
  }

  lemma SeedingAddsNoCollisionsWithOneSeed(x: seq<Byte>, y: seq<Byte>, seed: U64)
    ensures Hash64WithSeed(x, seed) == Hash64WithSeed(y, seed) <==> Hash64(x) == Hash64(y)
  {
    SeedingAddsNoCollisions(x, y, K2, seed);
  }

  /** For a fixed second seed, different first seeds give different hashes of the same input. */
  lemma FirstSeedMatters(x: seq<Byte>, seed0: U64, seed0': U64, seed1: U64)
    ensures Hash64WithSeeds(x, seed0, seed1) == Hash64WithSeeds(x, seed0', seed1) <==> seed0 == seed0'
  {
    hide Hash64, Hash64Len16, Sub64, Add64;
    var h := Hash64(x);
    if Hash64WithSeeds(x, seed0, seed1) == Hash64WithSeeds(x, seed0', seed1) {
      Hash64Len16Injective(Sub64(h, seed0), Sub64(h, seed0'), seed1, MUL);
      Sub64Cancels(h, seed0);
      Sub64Cancels(h, seed0');
      Add64Injective(Sub64(h, seed0), seed0, seed0');
    }
  }

  /**
   The second seed is mixed in: where the first one makes the difference equal to
   it, the result is a bijection of the second seed.
   */
  lemma SecondSeedMatters(x: seq<Byte>, seed1: U64)
    ensures Hash64WithSeeds(x, Sub64(Hash64(x), seed1), seed1) == Mul64(ShiftXor47(Mul64(seed1, MUL)), MUL)
  {
    hide Hash64, Sub64, Xor64, Mul64, ShiftXor47;
    SubSub(Hash64(x), seed1);
    Xor64Self(seed1);
    MulZero(MUL);
    ShiftXorZero();
    XorZero(seed1);
  }

  lemma SubSub(h: U64, s: U64) ensures Sub64(h, Sub64(h, s)) == s {
    SubSubRaw(h, s);
  }

  lemma SubSubRaw(h: U64, s: U64) ensures Sub64(h, h - s) == s {}

  lemma Xor64Self(x: U64) ensures Xor64(x, x) == 0 {}

  lemma MulZero(m: U64) ensures Mul64(0, m) == 0 {}

  lemma ShiftXorZero() ensures ShiftXor47(0) == 0 {}

  lemma XorZero(x: U64) ensures Xor64(0, x) == x {}

  lemma SecondSeedInjective(s: U64, s': U64)
    requires Mul64(ShiftXor47(Mul64(s, MUL)), MUL) == Mul64(ShiftXor47(Mul64(s', MUL)), MUL)
    ensures s == s'
  {
    hide Mul64, ShiftXor47;
    OddMulInjective(ShiftXor47(Mul64(s, MUL)), ShiftXor47(Mul64(s', MUL)), MUL);
    ShiftXor47Involutive(Mul64(s, MUL));
    ShiftXor47Involutive(Mul64(s', MUL));
    OddMulInjective(s, s', MUL);
  }

  // ---------- short inputs that never collide ----------

  lemma TimesEightInjective(a: U32, b: U32)
    requires TimesEight(a) == TimesEight(b)
    ensures a == b
  {
  }

  /** Every multiplier of the short cases is odd. */
  lemma ShortMulOdd(len: nat)
    ensures Odd(ShortMul(len))
  {
    OddPlusEven(Len64(len));
  }

  lemma OddPlusEven(len: U64) ensures Odd(Add64(K2, Mul64(len, 2))) {}

  lemma SameWordsSameBytes(x: seq<Byte>, y: seq<Byte>)
    requires 4 <= |x| == |y| < 8
    requires x[|x| - 4..] == y[|y| - 4..] && Load32(x, 0) == Load32(y, 0)
    ensures x == y
  {
    Load32Injective(x, y, 0);
    var n := |x|;
    assert x == x[0..4] + x[n - 4..][8 - n..];
    assert y == y[0..4] + y[n - 4..][8 - n..];
  }

  lemma FirstWordMatters(a: U32, b: U32, len: U64, v: U64, mul: U64)
    requires Odd(mul)
    requires Hash64Len16(Add64(len, TimesEight(a)), v, mul) == Hash64Len16(Add64(len, TimesEight(b)), v, mul)
    ensures a == b
  {
    hide Hash64Len16, TimesEight, Add64, Odd;
    Hash64Len16Injective(Add64(len, TimesEight(a)), Add64(len, TimesEight(b)), v, mul);
    Add64Injective(len, TimesEight(a), TimesEight(b));
    TimesEightInjective(a, b);
  }

  lemma SharedLastWord(x: seq<Byte>, y: seq<Byte>)
    requires 4 <= |x| == |y| < 8
    requires x[|x| - 4..] == y[|y| - 4..]
    requires Hash64Len4To7(x) == Hash64Len4To7(y)
    ensures x == y
  {
    hide Hash64Len16, TimesEight, ShortMul, Load32, Add64, Odd, Len64, Widen;
    var n := |x|;
    assert x[n - 4..n] == y[n - 4..n] by {
      assert x[n - 4..n] == x[n - 4..] && y[n - 4..n] == y[n - 4..];
    }
    assert Load32(x, n - 4) == Load32(y, n - 4) by {
      Load32Injective(x, y, n - 4);
    }
    ShortMulOdd(n);
    FirstWordMatters(Load32(x, 0), Load32(y, 0), Len64(n), Widen(Load32(x, n - 4)), ShortMul(n));
    SameWordsSameBytes(x, y);
  }

  /** Inputs of equal length, 4 to 7 bytes, that share their last four bytes never collide. */
  lemma SharedLastWordNeverCollides(x: seq<Byte>, y: seq<Byte>)
    requires 4 <= |x| == |y| < 8
    requires x[|x| - 4..] == y[|y| - 4..]
    ensures Hash64(x) == Hash64(y) <==> x == y
  {
    hide Hash64Len4To7;
    if Hash64(x) == Hash64(y) {
      SharedLastWord(x, y);
    }
  }
}
