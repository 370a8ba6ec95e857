/**
 CityHash's 32-bit hash as `city.rs` has it, on a little-endian machine: its
 cases, its block loop against a fold over 20-byte blocks, and the inputs on
 which it cannot collide.
 */
module CityHash32 {
  import opened Words
  import opened Reads
  import opened City

  // ---------- up to 24 bytes ----------

  /** `b as i8 as u32` */
  function SignExtend(b: Byte): U32 { if b >= 0x80 then (b as bv32) | 0xFFFF_FF00 else b as bv32 }

  /** The two accumulators of `hash32_len0_to4` after reading `data`. */
  function Accumulate(data: seq<Byte>): (U32, U32) {
    if data == [] then (0, 9)
    else
      var (b, c) := Accumulate(data[..|data| - 1]);
      var b' := Add32(Mul32(b, C1), SignExtend(data[|data| - 1]));
      (b', Xor32(c, b'))
  }

  /** `(len >> 1) & 4` */
  function Middle4(len: nat): nat { len / 2 / 4 % 2 * 4 }

  function Mix5To12(n: nat, first: U32, last: U32, middle: U32): U32 {
    var len := Len32(n);
    var d := Mul32(len, 5);
    Fmix(Mur(Add32(9, middle), Mur(Add32(d, last), Mur(Add32(len, first), d))))
  }

  function Mix13To24(n: nat, a: U32, b: U32, c: U32, d: U32, e: U32, f: U32): U32 {
    Fmix(Mur(f, Mur(e, Mur(d, Mur(c, Mur(b, Mur(a, Len32(n))))))))
  }

  function Hash32Len5To12(data: seq<Byte>): U32
    requires 5 <= |data| <= 12
  {
    var len := |data|;
    Mix5To12(len, Load32(data, 0), Load32(data, len - 4), Load32(data, Middle4(len)))
  }

  function Hash32Len13To24(data: seq<Byte>): U32
    requires 13 <= |data| <= 24
  {
    var len := |data|;
    Mix13To24(len, Load32(data, len / 2 - 4), Load32(data, 4), Load32(data, len - 8),
              Load32(data, len / 2), Load32(data, 0), Load32(data, len - 4))
  }

  function Hash32Len0To4(data: seq<Byte>): U32 {
    Fmix(Mur(Accumulate(data).0, Mur(Len32(|data|), Accumulate(data).1)))
  }

  /** How often the block loop runs: all but the last 1 to 20 bytes. */
  function Iterations(len: nat): (n: nat)
    requires 0 < len
    ensures 20 * n < len <= 20 * n + 20
  {
    (len - 1) / 20
  }

  /** `hash32` on every input. */
  function Hash32(data: seq<Byte>): U32 {
    if |data| <= 4 then Hash32Len0To4(data)
    else if |data| <= 12 then Hash32Len5To12(data)
    else if |data| <= 24 then Hash32Len13To24(data)
    else Hash32Long(data)
  }

  function Hash32Long(data: seq<Byte>): U32
    requires 24 < |data|
  {
    Finish(Rounds(Start(|data|, data[|data| - 20..]), data, Iterations(|data|)))
  }

  // Each case reads all of its input and nothing else.

  method ComputeLen0To4(data: seq<Byte>) returns (r: U32, ghost touched: set<nat>)
    ensures r == Hash32Len0To4(data) && touched == Span(0, |data|)
  {
    var b, c: U32 := 0, 9;
    touched := {};
    for i := 0 to |data|
      invariant (b, c) == Accumulate(data[..i])
      invariant touched == Span(0, i)
    {
      var v;
      v, touched := Fetch8(data, i, touched);
      SpanGrows(i, 1, {});
      b := Add32(Mul32(b, C1), SignExtend(v));
      c := Xor32(c, b);
      assert data[..i + 1][..i] == data[..i];
    }
    assert data[..|data|] == data;
    r := Fmix(Mur(b, Mur(Len32(|data|), c)));
  }

  method ComputeLen5To12(data: seq<Byte>) returns (r: U32, ghost touched: set<nat>)
    requires 5 <= |data| <= 12
    ensures r == Hash32Len5To12(data) && touched == Span(0, |data|)
  {
    hide Mix5To12, Load32;
    var len := |data|;
    var a, b, c;
    a, touched := Fetch32(data, 0, {});
    b, touched := Fetch32(data, len - 4, touched);
    c, touched := Fetch32(data, Middle4(len), touched);
    r := Mix5To12(len, a, b, c);
  }

  method ComputeLen13To24(data: seq<Byte>) returns (r: U32, ghost touched: set<nat>)
    requires 13 <= |data| <= 24
    ensures r == Hash32Len13To24(data) && touched == Span(0, |data|)
  {
    hide Mix13To24, Load32;
    var len := |data|;
    var a, b, c, d, e, f;
    a, touched := Fetch32(data, len / 2 - 4, {});
    b, touched := Fetch32(data, 4, touched);
    c, touched := Fetch32(data, len - 8, touched);
    d, touched := Fetch32(data, len / 2, touched);
    e, touched := Fetch32(data, 0, touched);
    f, touched := Fetch32(data, len - 4, touched);
    r := Mix13To24(len, a, b, c, d, e, f);
  }

  // ---------- more than 24 bytes ----------

  datatype Lanes = Lanes(h: U32, g: U32, f: U32)

  /** The lanes after `len` and the last five words have been mixed in. */
  function StartWords(len: nat, w0: U32, w1: U32, w2: U32, w3: U32, w4: U32): Lanes {
    var h := Len32(len);
    var g := Mul32(C1, h);
    Lanes(
      Affine(Rotate19(Xor32(Affine(Rotate19(Xor32(h, Scramble(w4)))), Scramble(w1)))),
      Affine(Rotate19(Xor32(Affine(Rotate19(Xor32(g, Scramble(w3)))), Scramble(w2)))),
      Affine(Rotate19(Add32(g, Scramble(w0))))
    )
  }

  function Start(len: nat, last: seq<Byte>): Lanes
    requires |last| == 20
  {
    StartWords(len, Load32(last, 0), Load32(last, 4), Load32(last, 8), Load32(last, 12), Load32(last, 16))
  }

  /** One block of five words. */
  function RoundWords(s: Lanes, w0: U32, b1: U32, w2: U32, w3: U32, b4: U32): Lanes {
    var b0 := Scramble(w0);
    var b2 := Scramble(w2);
    var b3 := Scramble(w3);
    var h := Affine(Rotate19(Xor32(Affine(Rotate18(Xor32(s.h, b0))), Add32(b3, b1))));
    var g := Affine(Rotate18(Add32(s.g, b2)));
    var f := Mul32(Rotate19(Add32(s.f, b1)), C1);
    Lanes(
      Add32(f, b0),
      SwapBytes32(Add32(h, Mul32(b4, 5))),
      Mul32(SwapBytes32(Xor32(g, b4)), 5)
    )
  }

  function Round(s: Lanes, b: seq<Byte>): Lanes
    requires |b| == 20
  {
    RoundWords(s, Load32(b, 0), Load32(b, 4), Load32(b, 8), Load32(b, 12), Load32(b, 16))
  }

  /** The first `n` blocks of `data`, first to last. */
  function Rounds(s: Lanes, data: seq<Byte>, n: nat): Lanes
    requires 20 * n <= |data|
    decreases n
  {
    if n == 0 then s else Rounds(Round(s, data[..20]), data[20..], n - 1)
  }

  function Finish(s: Lanes): U32 {
    var g := Mul32(Rotate17(Mul32(Rotate11(s.g), C1)), C1);
    var f := Mul32(Rotate17(Mul32(Rotate11(s.f), C1)), C1);
    var h := Mul32(Rotate17(Affine(Rotate19(Add32(s.h, g)))), C1);
    Mul32(Rotate17(Affine(Rotate19(Add32(h, f)))), C1)
  }

  /** The steps of the source on one block, in its order. */
  method Block(data: seq<Byte>, seek: nat, s: Lanes, ghost seen: set<nat>) returns (s': Lanes, ghost touched: set<nat>)
    requires seek + 20 <= |data|
    ensures s' == Round(s, data[seek..seek + 20]) && touched == seen + Span(seek, 20)
  {
    touched := seen;
    var h, g, f := s.h, s.g, s.f;
    var b0, b1, b2, b3, b4;
    b0, touched := Fetch32(data, seek, touched);
    b0 := Scramble(b0);
    b1, touched := Fetch32(data, seek + 4, touched);
    b2, touched := Fetch32(data, seek + 8, touched);
    b2 := Scramble(b2);
    b3, touched := Fetch32(data, seek + 12, touched);
    b3 := Scramble(b3);
    b4, touched := Fetch32(data, seek + 16, touched);

    h := Affine(Rotate18(Xor32(h, b0)));
    f := Mul32(Rotate19(Add32(f, b1)), C1);
    g := Affine(Rotate18(Add32(g, b2)));
    h := Affine(Rotate19(Xor32(h, Add32(b3, b1))));
    g := Mul32(SwapBytes32(Xor32(g, b4)), 5);
    h := SwapBytes32(Add32(h, Mul32(b4, 5)));
    f := Add32(f, b0);
    // permute3: swap f with h, then f with g
    f, h := h, f;
    f, g := g, f;
    s' := Lanes(h, g, f);
    BlockLoads(data, seek);
  }

  lemma BlockLoads(data: seq<Byte>, at: nat)
    requires at + 20 <= |data|
    ensures var b := data[at..at + 20];
            && Load32(b, 0) == Load32(data, at) && Load32(b, 4) == Load32(data, at + 4)
            && Load32(b, 8) == Load32(data, at + 8) && Load32(b, 12) == Load32(data, at + 12)
            && Load32(b, 16) == Load32(data, at + 16)
  {
    LoadSlice32(data, at, at + 20, 0);
    LoadSlice32(data, at, at + 20, 4);
    LoadSlice32(data, at, at + 20, 8);
    LoadSlice32(data, at, at + 20, 12);
    LoadSlice32(data, at, at + 20, 16);
  }

  /** The last 20 bytes, loaded from the end of the slice. */
  method Tail(data: seq<Byte>) returns (s: Lanes, ghost touched: set<nat>)
    requires 24 < |data|
    ensures s == Start(|data|, data[|data| - 20..]) && touched == Span(|data| - 20, 20)
  {
    var len := |data|;
    touched := {};
    var h := Len32(len);
    var g := Mul32(C1, h);
    var f := g;
    var a0, a1, a2, a3, a4;
    a0, touched := Fetch32(data, len - 4, touched);
    a1, touched := Fetch32(data, len - 8, touched);
    a2, touched := Fetch32(data, len - 16, touched);
    a3, touched := Fetch32(data, len - 12, touched);
    a4, touched := Fetch32(data, len - 20, touched);
    h := Affine(Rotate19(Xor32(h, Scramble(a0))));
    h := Affine(Rotate19(Xor32(h, Scramble(a2))));
    g := Affine(Rotate19(Xor32(g, Scramble(a1))));
    g := Affine(Rotate19(Xor32(g, Scramble(a3))));
    f := Affine(Rotate19(Add32(f, Scramble(a4))));
    s := Lanes(h, g, f);
    BlockLoads(data, len - 20);
    assert data[len - 20..len] == data[len - 20..];
  }

  lemma RoundsStep(s: Lanes, data: seq<Byte>, a: nat, n: nat)
    requires 0 < n && a + 20 * n <= |data|
    ensures Rounds(s, data[a..], n) == Rounds(Round(s, data[a..a + 20]), data[a + 20..], n - 1)
  {
    assert data[a..][..20] == data[a..a + 20];
    assert data[a..][20..] == data[a + 20..];
  }

  /** The block loop folds `Round` over the blocks, stays inside the slice and reads all of it. */
  method ComputeLong(data: seq<Byte>) returns (r: U32, ghost touched: set<nat>)
    requires 24 < |data|
    ensures r == Hash32Long(data) && touched == Span(0, |data|)
  {
    hide Round, Start, Finish;
    var s;
    s, touched := Tail(data);
    ghost var start := s;
    var iters := (|data| - 1) / 20;
    ghost var n := iters;
    assert n == Iterations(|data|);
    var seek := 0;
    while true
      invariant 0 < iters <= n && seek == 20 * (n - iters)
      invariant Rounds(s, data[seek..], iters) == Rounds(start, data, n)
      invariant touched == Span(0, seek) + Span(|data| - 20, 20)
      decreases iters
    {
      RoundsStep(s, data, seek, iters);
      s, touched := Block(data, seek, s, touched);
      SpanGrows(seek, 20, Span(|data| - 20, 20));
      seek := seek + 20;
      iters := iters - 1;
      if iters == 0 {
        break;
      }
    }
    SpansMeet(seek, 20, |data|);
    r := Finish(s);
  }

  /** `hash32`: whatever the length, every byte of the input is read, and nothing else. */
  method ComputeHash32(data: seq<Byte>) returns (r: U32, ghost touched: set<nat>)
    ensures r == Hash32(data) && touched == Span(0, |data|)
  {
    hide Hash32Len0To4, Hash32Len5To12, Hash32Len13To24, Hash32Long;
    if |data| <= 4 {
      r, touched := ComputeLen0To4(data);
    } else if |data| <= 12 {
      r, touched := ComputeLen5To12(data);
    } else if |data| <= 24 {
      r, touched := ComputeLen13To24(data);
    } else {
      r, touched := ComputeLong(data);
    }
  }

  // ---------- the block loop forgets nothing ----------

  /** For every block, a round is injective in the lanes. */
  lemma RoundInjective(s: Lanes, s': Lanes, w0: U32, b1: U32, w2: U32, w3: U32, b4: U32)
    requires RoundWords(s, w0, b1, w2, w3, b4) == RoundWords(s', w0, b1, w2, w3, b4)
    ensures s == s'
  {
    hide Scramble, Affine, Rotate18, Rotate19, SwapBytes32, Mul32, Add32, Xor32;
    HLane(s.h, s'.h, Scramble(w0), Add32(Scramble(w3), b1), Mul32(b4, 5));
    GLane(s.g, s'.g, Scramble(w2), b4);
    FLane(s.f, s'.f, b1, Scramble(w0));
  }

  lemma HLane(h: U32, h': U32, k: U32, m: U32, n: U32)
    requires SwapBytes32(Add32(Affine(Rotate19(Xor32(Affine(Rotate18(Xor32(h, k))), m))), n))
             == SwapBytes32(Add32(Affine(Rotate19(Xor32(Affine(Rotate18(Xor32(h', k))), m))), n))
    ensures h == h'
  {
    hide Affine, Rotate18, Rotate19, SwapBytes32, Add32, Xor32;
    var x, x' := Affine(Rotate18(Xor32(h, k))), Affine(Rotate18(Xor32(h', k)));
    var y, y' := Affine(Rotate19(Xor32(x, m))), Affine(Rotate19(Xor32(x', m)));
    SwapBytes32Involutive(Add32(y, n));
    SwapBytes32Involutive(Add32(y', n));
    AddCancels(y, y', n);
    AffineInjective(Rotate19(Xor32(x, m)), Rotate19(Xor32(x', m)));
    Rotate19Injective(Xor32(x, m), Xor32(x', m));
    Xor32Injective(x, x', m);
    AffineInjective(Rotate18(Xor32(h, k)), Rotate18(Xor32(h', k)));
    Rotate18Injective(Xor32(h, k), Xor32(h', k));
    Xor32Injective(h, h', k);
  }

  lemma GLane(g: U32, g': U32, k: U32, n: U32)
    requires Mul32(SwapBytes32(Xor32(Affine(Rotate18(Add32(g, k))), n)), 5)
             == Mul32(SwapBytes32(Xor32(Affine(Rotate18(Add32(g', k))), n)), 5)
    ensures g == g'
  {
    hide Affine, Rotate18, SwapBytes32, Add32, Xor32, Mul32;
    var x, x' := Affine(Rotate18(Add32(g, k))), Affine(Rotate18(Add32(g', k)));
    FiveInvertible();
    Mul32Inverse(SwapBytes32(Xor32(x, n)), 5, 0xcccccccd);
    Mul32Inverse(SwapBytes32(Xor32(x', n)), 5, 0xcccccccd);
    SwapBytes32Involutive(Xor32(x, n));
    SwapBytes32Involutive(Xor32(x', n));
    Xor32Injective(x, x', n);
    AffineInjective(Rotate18(Add32(g, k)), Rotate18(Add32(g', k)));
    Rotate18Injective(Add32(g, k), Add32(g', k));
    AddCancels(g, g', k);
  }

  lemma FiveInvertible() ensures Mul32(5, 0xcccccccd) == 1 {}

  lemma FLane(f: U32, f': U32, k: U32, n: U32)
    requires Add32(Mul32(Rotate19(Add32(f, k)), C1), n) == Add32(Mul32(Rotate19(Add32(f', k)), C1), n)
    ensures f == f'
  {
    hide Rotate19, Add32, Mul32;
    AddCancels(Mul32(Rotate19(Add32(f, k)), C1), Mul32(Rotate19(Add32(f', k)), C1), n);
    C1Invertible();
    Mul32Inverse(Rotate19(Add32(f, k)), C1, 0xdee13bb1);
    Mul32Inverse(Rotate19(Add32(f', k)), C1, 0xdee13bb1);
    Rotate19Injective(Add32(f, k), Add32(f', k));
    AddCancels(f, f', k);
  }

  lemma AddCancels(x: U32, x': U32, k: U32)
    requires Add32(x, k) == Add32(x', k)
    ensures x == x'
  {
    hide Add32;
    Add32Commutes(x, k);
    Add32Commutes(x', k);
    Add32Injective(k, x, x');
  }

  /** Whatever the blocks are, the loop takes different lanes to different lanes. */
  lemma {:induction false} RoundsInjective(s: Lanes, s': Lanes, data: seq<Byte>, n: nat)
    requires 20 * n <= |data| && Rounds(s, data, n) == Rounds(s', data, n)
    ensures s == s'
    decreases n
  {
    hide RoundWords, Load32;
    if n > 0 {
      var b := data[..20];
      RoundsInjective(Round(s, b), Round(s', b), data[20..], n - 1);
      RoundInjective(s, s', Load32(b, 0), Load32(b, 4), Load32(b, 8), Load32(b, 12), Load32(b, 16));
    }
  }

  // ---------- inputs that never collide ----------

  ghost predicate Covered(offsets: seq<nat>, i: nat) {
    exists k :: 0 <= k < |offsets| && offsets[k] <= i < offsets[k] + 4
  }

  /** Where the cases of 5 to 24 bytes load words from: every byte is in one of them. */
  function Offsets(len: nat): (offsets: seq<nat>)
    requires 5 <= len <= 24
    ensures forall k :: 0 <= k < |offsets| ==> offsets[k] + 4 <= len
    ensures forall i: nat :: i < len ==> Covered(offsets, i)
  {
    var o := if len <= 12 then [0, len - 4, Middle4(len)]
             else [len / 2 - 4, 4, len - 8, len / 2, 0, len - 4];
    assert forall i: nat :: i < len ==> Covered(o, i) by {
      OffsetsCover(o, len);
    }
    o
  }

  lemma OffsetsCover(o: seq<nat>, len: nat)
    requires 5 <= len <= 24
    requires o == if len <= 12 then [0, len - 4, Middle4(len)]
                  else [len / 2 - 4, 4, len - 8, len / 2, 0, len - 4]
    ensures forall i: nat :: i < len ==> Covered(o, i)
  {
    forall i: nat | i < len ensures Covered(o, i) {
      var k := if len <= 12 then (if i < 4 then 0 else if len - 4 <= i then 1 else 2)
               else if i < 4 then 4 else if i < 8 then 1 else if len - 4 <= i then 5
               else if len - 8 <= i then 2 else if i < len / 2 then 0 else 3;
      assert o[k] <= i < o[k] + 4;
    }
  }

  /** The words that those cases load. */
  function Loads(data: seq<Byte>): (words: seq<U32>)
    requires 5 <= |data| <= 24
    ensures |words| == |Offsets(|data|)|
  {
    var o := Offsets(|data|);
    seq(|o|, j requires 0 <= j < |o| => Load32(data, o[j]))
  }

  /** Two sequences that differ in exactly one place. */
  predicate DifferAt<T(==)>(x: seq<T>, y: seq<T>, k: nat) {
    k < |x| == |y| && forall j :: 0 <= j < |x| ==> (x[j] == y[j] <==> j != k)
  }

  /** Words absorbed one after the other by a two-argument mixer, the first one innermost. */
  function Absorb<T>(mix: (T, T) -> T, words: seq<T>, h: T): T {
    if words == [] then h else mix(words[|words| - 1], Absorb(mix, words[..|words| - 1], h))
  }

  /** A mixer that loses nothing about either argument makes absorbing lose nothing about any one word. */
  lemma {:induction false} AbsorbInjective<T(!new)>(mix: (T, T) -> T, x: seq<T>, y: seq<T>, h: T, k: nat)
    requires forall a, b, a', b' :: mix(a, b) == mix(a', b') ==> (a == a' <==> b == b')
    requires DifferAt(x, y, k)
    ensures Absorb(mix, x, h) != Absorb(mix, y, h)
  {
    var last := |x| - 1;
    if k < last {
      AbsorbInjective(mix, x[..last], y[..last], h, k);
    } else {
      assert x[..last] == y[..last];
    }
  }

  /** The words that the short cases absorb: up to 12 bytes, each load is shifted by a constant. */
  function Absorbed(w: seq<U32>, len: nat): (a: seq<U32>)
    requires 5 <= len <= 24 && |w| == |Offsets(len)|
    ensures |a| == |w|
  {
    if len <= 12 then [Add32(Len32(len), w[0]), Add32(Mul32(Len32(len), 5), w[1]), Add32(9, w[2])]
    else w
  }

  lemma AbsorbedDiffers(x: seq<U32>, y: seq<U32>, len: nat, k: nat)
    requires 5 <= len <= 24 && |x| == |Offsets(len)| && DifferAt(x, y, k)
    ensures DifferAt(Absorbed(x, len), Absorbed(y, len), k)
  {
    if len <= 12 {
      if k == 0 {
        ShiftedDiffers(Len32(len), x[0], y[0]);
      } else if k == 1 {
        ShiftedDiffers(Mul32(Len32(len), 5), x[1], y[1]);
      } else {
        ShiftedDiffers(9, x[2], y[2]);
      }
    }
  }

  lemma ShiftedDiffers(k: U32, x: U32, y: U32)
    requires x != y
    ensures Add32(k, x) != Add32(k, y)
  {
    if Add32(k, x) == Add32(k, y) {
      Add32Injective(k, x, y);
    }
  }

  function Seed(n: nat): U32 { if n <= 12 then Mul32(Len32(n), 5) else Len32(n) }

  lemma AbsorbStep<T>(mix: (T, T) -> T, words: seq<T>, word: T, h: T)
    ensures Absorb(mix, words + [word], h) == mix(word, Absorb(mix, words, h))
  {
    assert (words + [word])[..|words|] == words;
  }

  /** The source's nested calls are an absorption. */
  lemma Absorb3<T>(mix: (T, T) -> T, w: seq<T>, h: T)
    requires |w| == 3
    ensures Absorb(mix, w, h) == mix(w[2], mix(w[1], mix(w[0], h)))
  {
    AbsorbStep(mix, [], w[0], h);
    AbsorbStep(mix, [w[0]], w[1], h);
    AbsorbStep(mix, [w[0], w[1]], w[2], h);
    assert [] + [w[0]] == [w[0]] && [w[0]] + [w[1]] == [w[0], w[1]] && [w[0], w[1]] + [w[2]] == w;
  }

  lemma Absorb6<T>(mix: (T, T) -> T, w: seq<T>, h: T)
    requires |w| == 6
    ensures Absorb(mix, w, h) == mix(w[5], mix(w[4], mix(w[3], mix(w[2], mix(w[1], mix(w[0], h))))))
  {
    Absorb3(mix, w[..3], h);
    AbsorbStep(mix, w[..3], w[3], h);
    AbsorbStep(mix, w[..4], w[4], h);
    AbsorbStep(mix, w[..5], w[5], h);
    assert w[..3] + [w[3]] == w[..4] && w[..4] + [w[4]] == w[..5] && w[..5] + [w[5]] == w;
  }

  lemma ShortIsAbsorb(data: seq<Byte>)
    requires 5 <= |data| <= 24
    ensures Hash32(data) == Fmix(Absorb(Mur, Absorbed(Loads(data), |data|), Seed(|data|)))
  {
    var w := Absorbed(Loads(data), |data|);
    if |data| <= 12 {
      Absorb3(Mur, w, Seed(|data|));
    } else {
      Absorb6(Mur, w, Seed(|data|));
    }
  }

  lemma SignExtendInjective(a: Byte, b: Byte)
    requires SignExtend(a) == SignExtend(b)
    ensures a == b
  {
  }

  lemma AccumulateStep(b: U32, v: Byte, b': U32, v': Byte)
    requires Add32(Mul32(b, C1), SignExtend(v)) == Add32(Mul32(b', C1), SignExtend(v'))
    ensures b == b' <==> v == v'
  {
    hide Add32, Mul32, SignExtend;
    if v == v' {
      Add32Commutes(Mul32(b, C1), SignExtend(v));
      Add32Commutes(Mul32(b', C1), SignExtend(v));
      Add32Injective(SignExtend(v), Mul32(b, C1), Mul32(b', C1));
      C1Invertible();
      Mul32Inverse(b, C1, 0xdee13bb1);
      Mul32Inverse(b', C1, 0xdee13bb1);
    }
    if b == b' {
      Add32Injective(Mul32(b, C1), SignExtend(v), SignExtend(v'));
      SignExtendInjective(v, v');
    }
  }

  lemma C1Invertible() ensures Mul32(C1, 0xdee13bb1) == 1 {}

  /** The byte loop loses nothing about any one byte: inputs that differ in one byte have different accumulators. */
  lemma {:induction false} OneByteMatters(x: seq<Byte>, y: seq<Byte>, k: nat)
    requires DifferAt(x, y, k)
    ensures Accumulate(x).0 != Accumulate(y).0
  {
    hide Add32, Mul32, SignExtend, Xor32;
    var last := |x| - 1;
    var b, b' := Accumulate(x[..last]).0, Accumulate(y[..last]).0;
    if Accumulate(x).0 == Accumulate(y).0 {
      AccumulateStep(b, x[last], b', y[last]);
    }
    if k < last {
      OneByteMatters(x[..last], y[..last], k);
    } else {
      assert x[..last] == y[..last];
    }
  }

  lemma MurLosesNothing()
    ensures forall a, b, a', b' :: Mur(a, b) == Mur(a', b') ==> (a == a' <==> b == b')
  {
    forall a, b, a', b' | Mur(a, b) == Mur(a', b')
      ensures a == a' <==> b == b'
    {
      MurInjective(a, b, a', b');
    }
  }

  /** Inputs of 5 to 24 bytes that differ in exactly one loaded word never collide. */
  lemma OneLoadNeverCollides(x: seq<Byte>, y: seq<Byte>, k: nat)
    requires 5 <= |x| == |y| <= 24 && DifferAt(Loads(x), Loads(y), k)
    ensures Hash32(x) != Hash32(y)
  {
    var v, w := Absorbed(Loads(x), |x|), Absorbed(Loads(y), |x|);
    AbsorbedDiffers(Loads(x), Loads(y), |x|, k);
    MurLosesNothing();
    AbsorbInjective(Mur, v, w, Seed(|x|), k);
    ShortIsAbsorb(x);
    ShortIsAbsorb(y);
    FmixDiffers(Absorb(Mur, v, Seed(|x|)), Absorb(Mur, w, Seed(|x|)));
  }

  lemma FmixDiffers(h: U32, h': U32)
    requires h != h'
    ensures Fmix(h) != Fmix(h')
  {
    FmixBijective(h);
    FmixBijective(h');
  }

  /**
   Inputs of 12 or 24 bytes that differ inside one aligned 4-byte word never
   collide: there every aligned word is loaded exactly once.
   */
  lemma OneAlignedWordNeverCollides(x: seq<Byte>, y: seq<Byte>, at: nat)
    requires |x| == |y| && (|x| == 12 || |x| == 24)
    requires at % 4 == 0 && at + 4 <= |x|
    requires x[at..at + 4] != y[at..at + 4]
    requires x[..at] == y[..at] && x[at + 4..] == y[at + 4..]
    ensures Hash32(x) != Hash32(y)
  {
    hide Load32, Hash32;
    var o := Offsets(|x|);
    var k := AlignedLoad(|x|, at);
    forall j | 0 <= j < |o|
      ensures Load32(x, o[j]) == Load32(y, o[j]) <==> j != k
    {
      Load32Injective(x, y, o[j]);
      if j != k {
        SameElsewhere(x, y, at, o[j]);
      }
    }
    OneLoadNeverCollides(x, y, k);
  }

  lemma SameElsewhere(x: seq<Byte>, y: seq<Byte>, at: nat, o: nat)
    requires |x| == |y| && at + 4 <= |x| && o + 4 <= |x|
    requires x[..at] == y[..at] && x[at + 4..] == y[at + 4..]
    requires o + 4 <= at || o >= at + 4
    ensures x[o..o + 4] == y[o..o + 4]
  {
    if o + 4 <= at {
      assert x[o..o + 4] == x[..at][o..o + 4] && y[o..o + 4] == y[..at][o..o + 4];
    } else {
      var i := o - (at + 4);
      assert x[o..o + 4] == x[at + 4..][i..i + 4] && y[o..o + 4] == y[at + 4..][i..i + 4];
    }
  }

  /** On 12 and 24 bytes the loads are the aligned words, in some order. */
  lemma AlignedLoad(len: nat, at: nat) returns (k: nat)
    requires len == 12 || len == 24
    requires at % 4 == 0 && at + 4 <= len
    ensures k < |Offsets(len)| && Offsets(len)[k] == at
    ensures forall j :: 0 <= j < |Offsets(len)| && j != k ==> Offsets(len)[j] + 4 <= at || Offsets(len)[j] >= at + 4
  {
    if len == 12 {
      assert Offsets(12) == [0, 8, 4];
      k := if at == 0 then 0 else if at == 8 then 1 else 2;
    } else {
      assert Offsets(24) == [8, 4, 16, 12, 0, 20];
      k := if at == 8 then 0 else if at == 4 then 1 else if at == 16 then 2
           else if at == 12 then 3 else if at == 0 then 4 else 5;
    }
  }
}
