/**
 The portable path of `low_level.rs` on a little-endian machine: the mixers of
 short inputs, the loop over 64-byte blocks against its fold, and the entry
 points of 64-bit and 32-bit platforms with their streaming law.
 */
module LowLevel {
  import opened Words
  import opened Reads

  const MUL: U64 := 0x79d5f9e0de1e8cf5
  const CHUNK: nat := 1024

  const R0: U64 := 0x243f_6a88_85a3_08d3
  const R1: U64 := 0x1319_8a2e_0370_7344
  const R2: U64 := 0xa409_3822_299f_31d0
  const R3: U64 := 0x082e_fa98_ec4e_6c89
  const R4: U64 := 0x4528_21e6_38d0_1377

  /** The five words of static random data as they lie in memory. */
  const RANDOM_BYTES: seq<Byte> := Bytes64(R0) + Bytes64(R1) + Bytes64(R2) + Bytes64(R3) + Bytes64(R4)

  // ---------- mixing ----------

  /** The two halves of the 128-bit product, xored. */
  function Mix(lhs: U64, rhs: U64): U64 {
    var m: bv128 := (lhs as bv128) * (rhs as bv128);
    ((m & 0xFFFF_FFFF_FFFF_FFFF) as bv64) ^ ((m >> 64) as bv64)
  }

  function CombineRaw(state: U64, value: U64): U64 { Mix(Xor64(state, value), MUL) }

  /** `precombine_length_mix`: the random data is loaded `len` bytes in, not `len` words in. */
  function Precombine(state: U64, len: nat): U64
    requires len <= 32
  {
    Xor64(state, Load64(RANDOM_BYTES, len))
  }

  /** Only a length that is a multiple of 8 loads one of the words. */
  lemma RandomWord(k: nat)
    requires k < 5
    ensures Load64(RANDOM_BYTES, 8 * k) == [R0, R1, R2, R3, R4][k]
  {
    hide Bytes64, Load64;
    var b0, b1, b2, b3, b4 := Bytes64(R0), Bytes64(R1), Bytes64(R2), Bytes64(R3), Bytes64(R4);
    match k
    case 0 =>
      assert RANDOM_BYTES == [] + b0 + (b1 + b2 + b3 + b4);
      LoadBetween([], R0, b1 + b2 + b3 + b4);
    case 1 =>
      assert RANDOM_BYTES == b0 + b1 + (b2 + b3 + b4);
      LoadBetween(b0, R1, b2 + b3 + b4);
    case 2 =>
      assert RANDOM_BYTES == (b0 + b1) + b2 + (b3 + b4);
      LoadBetween(b0 + b1, R2, b3 + b4);
    case 3 =>
      LoadBetween(b0 + b1 + b2, R3, b4);
    case _ =>
      assert RANDOM_BYTES == (b0 + b1 + b2 + b3) + b4 + [];
      LoadBetween(b0 + b1 + b2 + b3, R4, []);
  }

  /** The static random data byte by byte. */
  function RandomTable(): (t: seq<Byte>)
    ensures |t| == 40
  {
    [0xd3, 0x08, 0xa3, 0x85, 0x88, 0x6a, 0x3f, 0x24]
    + [0x44, 0x73, 0x70, 0x03, 0x2e, 0x8a, 0x19, 0x13]
    + [0xd0, 0x31, 0x9f, 0x29, 0x22, 0x38, 0x09, 0xa4]
    + [0x89, 0x6c, 0x4e, 0xec, 0x98, 0xfa, 0x2e, 0x08]
    + [0x77, 0x13, 0xd0, 0x38, 0xe6, 0x21, 0x28, 0x45]
  }

  lemma RandomBytesAre()
    ensures RANDOM_BYTES == RandomTable()
  {
    Bytes0();
    Bytes1();
    Bytes2();
    Bytes3();
    Bytes4();
    hide Bytes64;
  }

  lemma Bytes0()
    ensures Bytes64(R0) == [0xd3, 0x08, 0xa3, 0x85, 0x88, 0x6a, 0x3f, 0x24]
  {
    assert (R0 & 0xFFFF_FFFF) as bv32 == 0x85a308d3 && (R0 >> 32) as bv32 == 0x243f6a88;
    assert Bytes32(0x85a308d3) == [0xd3, 0x08, 0xa3, 0x85];
    assert Bytes32(0x243f6a88) == [0x88, 0x6a, 0x3f, 0x24];
  }

  lemma Bytes1()
    ensures Bytes64(R1) == [0x44, 0x73, 0x70, 0x03, 0x2e, 0x8a, 0x19, 0x13]
  {
    assert (R1 & 0xFFFF_FFFF) as bv32 == 0x03707344 && (R1 >> 32) as bv32 == 0x13198a2e;
    assert Bytes32(0x03707344) == [0x44, 0x73, 0x70, 0x03];
    assert Bytes32(0x13198a2e) == [0x2e, 0x8a, 0x19, 0x13];
  }

  lemma Bytes2()
    ensures Bytes64(R2) == [0xd0, 0x31, 0x9f, 0x29, 0x22, 0x38, 0x09, 0xa4]
  {
    assert (R2 & 0xFFFF_FFFF) as bv32 == 0x299f31d0 && (R2 >> 32) as bv32 == 0xa4093822;
    assert Bytes32(0x299f31d0) == [0xd0, 0x31, 0x9f, 0x29];
    assert Bytes32(0xa4093822) == [0x22, 0x38, 0x09, 0xa4];
  }

  lemma Bytes3()
    ensures Bytes64(R3) == [0x89, 0x6c, 0x4e, 0xec, 0x98, 0xfa, 0x2e, 0x08]
  {
    assert (R3 & 0xFFFF_FFFF) as bv32 == 0xec4e6c89 && (R3 >> 32) as bv32 == 0x082efa98;
    assert Bytes32(0xec4e6c89) == [0x89, 0x6c, 0x4e, 0xec];
    assert Bytes32(0x082efa98) == [0x98, 0xfa, 0x2e, 0x08];
  }

  lemma Bytes4()
    ensures Bytes64(R4) == [0x77, 0x13, 0xd0, 0x38, 0xe6, 0x21, 0x28, 0x45]
  {
    assert (R4 & 0xFFFF_FFFF) as bv32 == 0x38d01377 && (R4 >> 32) as bv32 == 0x452821e6;
    assert Bytes32(0x38d01377) == [0x77, 0x13, 0xd0, 0x38];
    assert Bytes32(0x452821e6) == [0xe6, 0x21, 0x28, 0x45];
  }

  lemma LoadBetween(a: seq<Byte>, w: U64, b: seq<Byte>)
    ensures Load64(a + Bytes64(w) + b, |a|) == w
  {
    hide Bytes64, Load64;
    var p := a + Bytes64(w) + b;
    assert p[|a|..|a| + 8] == Bytes64(w);
    LoadSlice64(p, |a|, |a| + 8, 0);
    StoreLoad64(w);
  }

  /** Where in the random data two neighbouring bytes are. */
  function Place(a: Byte, b: Byte): nat {
    if a == 0xd3 && b == 0x08 then 0
    else if a == 0x08 && b == 0xa3 then 1
    else if a == 0xa3 && b == 0x85 then 2
    else if a == 0x85 && b == 0x88 then 3
    else if a == 0x88 && b == 0x6a then 4
    else if a == 0x6a && b == 0x3f then 5
    else if a == 0x3f && b == 0x24 then 6
    else if a == 0x24 && b == 0x44 then 7
    else if a == 0x44 && b == 0x73 then 8
    else if a == 0x73 && b == 0x70 then 9
    else if a == 0x70 && b == 0x03 then 10
    else if a == 0x03 && b == 0x2e then 11
    else if a == 0x2e && b == 0x8a then 12
    else if a == 0x8a && b == 0x19 then 13
    else if a == 0x19 && b == 0x13 then 14
    else if a == 0x13 && b == 0xd0 then 15
    else if a == 0xd0 && b == 0x31 then 16
    else if a == 0x31 && b == 0x9f then 17
    else if a == 0x9f && b == 0x29 then 18
    else if a == 0x29 && b == 0x22 then 19
    else if a == 0x22 && b == 0x38 then 20
    else if a == 0x38 && b == 0x09 then 21
    else if a == 0x09 && b == 0xa4 then 22
    else if a == 0xa4 && b == 0x89 then 23
    else if a == 0x89 && b == 0x6c then 24
    else if a == 0x6c && b == 0x4e then 25
    else if a == 0x4e && b == 0xec then 26
    else if a == 0xec && b == 0x98 then 27
    else if a == 0x98 && b == 0xfa then 28
    else if a == 0xfa && b == 0x2e then 29
    else if a == 0x2e && b == 0x08 then 30
    else if a == 0x08 && b == 0x77 then 31
    else 32
  }

  lemma PlaceIs(k: nat)
    requires k <= 32
    ensures Place(RandomTable()[k], RandomTable()[k + 1]) == k
  {
    if k < 11 { PlaceBelow11(k); } else if k < 22 { PlaceBelow22(k); } else { PlaceBelow33(k); }
  }

  lemma PlaceBelow11(k: nat)
    requires k < 11
    ensures Place(RandomTable()[k], RandomTable()[k + 1]) == k
  {
  }

  lemma PlaceBelow22(k: nat)
    requires 11 <= k < 22
    ensures Place(RandomTable()[k], RandomTable()[k + 1]) == k
  {
  }

  lemma PlaceBelow33(k: nat)
    requires 22 <= k < 33
    ensures Place(RandomTable()[k], RandomTable()[k + 1]) == k
  {
  }

  /** The 33 loads that `precombine_length_mix` can make are pairwise different. */
  lemma LoadsDiffer(k: nat, k': nat)
    requires k <= 32 && k' <= 32 && Load64(RANDOM_BYTES, k) == Load64(RANDOM_BYTES, k')
    ensures k == k'
  {
    hide Load64, Place, RandomTable;
    RandomBytesAre();
    FirstBytes(RandomTable(), k, k');
    PlaceIs(k);
    PlaceIs(k');
  }

  lemma FirstBytes(p: seq<Byte>, k: nat, k': nat)
    requires k + 8 <= |p| && k' + 8 <= |p| && Load64(p, k) == Load64(p, k')
    ensures p[k] == p[k'] && p[k + 1] == p[k' + 1]
  {
    hide Pair, Join;
    PairInjective(Load32(p, k), Load32(p, k + 4), Load32(p, k'), Load32(p, k' + 4));
    JoinInjective(p[k], p[k + 1], p[k + 2], p[k + 3], p[k'], p[k' + 1], p[k' + 2], p[k' + 3]);
  }

  /** For every state, the mixed state determines the length. */
  lemma LengthIsMixedIn(state: U64, len: nat, len': nat)
    requires len <= 32 && len' <= 32
    ensures Precombine(state, len) == Precombine(state, len') <==> len == len'
  {
    hide Load64, Xor64;
    if Precombine(state, len) == Precombine(state, len') {
      var x, y := Load64(RANDOM_BYTES, len), Load64(RANDOM_BYTES, len');
      XorCommutes(state, x);
      XorCommutes(state, y);
      Xor64Injective(x, y, state);
      LoadsDiffer(len, len');
    }
  }

  lemma XorCommutes(x: U64, y: U64) ensures Xor64(x, y) == Xor64(y, x) {}

  /** For every length, the state still matters. */
  lemma StateIsKept(state: U64, state': U64, len: nat)
    requires len <= 32
    ensures Precombine(state, len) == Precombine(state', len) <==> state == state'
  {
    hide Load64, Xor64;
    if Precombine(state, len) == Precombine(state', len) {
      Xor64Injective(state, state', Load64(RANDOM_BYTES, len));
    }
  }

  // ---------- up to 32 bytes ----------

  /** `read1to3`: `A` is read as `AAA`, `AB` as `ABB`. */
  function Read1To3(p: seq<Byte>): U32
    requires 1 <= |p| <= 3
  {
    Join(p[|p| - 1], p[|p| / 2], p[0], 0)
  }

  /** `read4to8`: the first four bytes are the high half, the last four the low half. */
  function Read4To8(p: seq<Byte>): U64
    requires 4 <= |p| <= 8
  {
    Pair(Load32(p, |p| - 4), Load32(p, 0))
  }

  function Read9To16(p: seq<Byte>): (U64, U64)
    requires 9 <= |p| <= 16
  {
    (Load64(p, 0), Load64(p, |p| - 8))
  }

  /** The word that an input of up to 8 bytes is reduced to before mixing. */
  function SmallWord(p: seq<Byte>): U64
    requires |p| <= 8
  {
    if |p| >= 4 then Read4To8(p) else if |p| > 0 then Widen(Read1To3(p)) else 0x57
  }

  function CombineSmall(state: U64, p: seq<Byte>): U64
    requires |p| <= 8
  {
    CombineRaw(state, SmallWord(p))
  }

  function Combine9To16(state: U64, p: seq<Byte>): U64
    requires 9 <= |p| <= 16
  {
    var (first, second) := Read9To16(p);
    Mix(Xor64(state, first), Xor64(MUL, second))
  }

  function MixTwice(a: U64, b: U64, c: U64, d: U64, state: U64): U64 {
    Xor64(Mix(Xor64(a, R1), Xor64(b, state)), Mix(Xor64(c, R3), Xor64(d, state)))
  }

  function Combine17To32(state: U64, p: seq<Byte>): U64
    requires 17 <= |p| <= 32
  {
    var tail := |p| - 16;
    MixTwice(Load64(p, 0), Load64(p, 8), Load64(p, tail), Load64(p, tail + 8), state)
  }

  // Each case reads all of its input and nothing else.

  method ComputeSmall(state: U64, p: seq<Byte>) returns (r: U64, ghost touched: set<nat>)
    requires |p| <= 8
    ensures r == CombineSmall(state, p) && touched == Span(0, |p|)
  {
    hide CombineRaw, Load32, Pair, Join, Widen;
    var len := |p|;
    var v: U64;
    touched := {};
    if len >= 4 {
      var high, low;
      high, touched := Fetch32(p, 0, touched);
      low, touched := Fetch32(p, len - 4, touched);
      v := Pair(low, high);
    } else if len > 0 {
      var a, b, c;
      a, touched := Fetch8(p, 0, touched);
      b, touched := Fetch8(p, len - 1, touched);
      c, touched := Fetch8(p, len / 2, touched);
      v := Widen(Join(b, c, a, 0));
    } else {
      v := 0x57;
    }
    r := CombineRaw(state, v);
  }

  method Compute9To16(state: U64, p: seq<Byte>) returns (r: U64, ghost touched: set<nat>)
    requires 9 <= |p| <= 16
    ensures r == Combine9To16(state, p) && touched == Span(0, |p|)
  {
    hide Mix, Load64, Xor64;
    var first, second;
    first, touched := Fetch64(p, 0, {});
    second, touched := Fetch64(p, |p| - 8, touched);
    r := Mix(Xor64(state, first), Xor64(MUL, second));
  }

  method Compute17To32(state: U64, p: seq<Byte>) returns (r: U64, ghost touched: set<nat>)
    requires 17 <= |p| <= 32
    ensures r == Combine17To32(state, p) && touched == Span(0, |p|)
  {
    hide MixTwice, Load64;
    var tail := |p| - 16;
    var a, b, c, d;
    a, touched := Fetch64(p, 0, {});
    b, touched := Fetch64(p, 8, touched);
    c, touched := Fetch64(p, tail, touched);
    d, touched := Fetch64(p, tail + 8, touched);
    r := MixTwice(a, b, c, d, state);
  }

  /** Reading 1 to 3 bytes loses none of them, whatever gets duplicated. */
  lemma Read1To3Injective(x: seq<Byte>, y: seq<Byte>)
    requires 1 <= |x| == |y| <= 3 && Read1To3(x) == Read1To3(y)
    ensures x == y
  {
    var n := |x|;
    JoinInjective(x[n - 1], x[n / 2], x[0], 0, y[n - 1], y[n / 2], y[0], 0);
  }

  lemma Read4To8Injective(x: seq<Byte>, y: seq<Byte>)
    requires 4 <= |x| == |y| <= 8 && Read4To8(x) == Read4To8(y)
    ensures x == y
  {
    hide Load32, Pair;
    var n := |x|;
    PairInjective(Load32(x, n - 4), Load32(x, 0), Load32(y, n - 4), Load32(y, 0));
    Load32Injective(x, y, 0);
    Load32Injective(x, y, n - 4);
    assert x == x[0..4] + x[n - 4..n][8 - n..];
    assert y == y[0..4] + y[n - 4..n][8 - n..];
  }

  /** Inputs of equal length reach the mixer as the same word only if they are the same. */
  lemma SmallWordInjective(x: seq<Byte>, y: seq<Byte>)
    requires |x| == |y| <= 8
    ensures SmallWord(x) == SmallWord(y) <==> x == y
  {
    hide Read1To3, Read4To8, Widen;
    if SmallWord(x) == SmallWord(y) {
      if |x| >= 4 {
        Read4To8Injective(x, y);
      } else if |x| > 0 {
        WidenInjective(Read1To3(x), Read1To3(y));
        Read1To3Injective(x, y);
      }
    }
  }

  lemma Read9To16Injective(x: seq<Byte>, y: seq<Byte>)
    requires 9 <= |x| == |y| <= 16
    ensures Read9To16(x) == Read9To16(y) <==> x == y
  {
    hide Load64;
    var n := |x|;
    Load64Injective(x, y, 0);
    Load64Injective(x, y, n - 8);
    if Read9To16(x) == Read9To16(y) {
      assert x == x[0..8] + x[n - 8..n][16 - n..];
      assert y == y[0..8] + y[n - 8..n][16 - n..];
    }
  }

  /** The four words of 17 to 32 bytes. */
  function Read17To32(p: seq<Byte>): (U64, U64, U64, U64)
    requires 17 <= |p| <= 32
  {
    (Load64(p, 0), Load64(p, 8), Load64(p, |p| - 16), Load64(p, |p| - 8))
  }

  lemma Read17To32Injective(x: seq<Byte>, y: seq<Byte>)
    requires 17 <= |x| == |y| <= 32
    ensures Read17To32(x) == Read17To32(y) <==> x == y
  {
    hide Load64;
    var n := |x|;
    Load64Injective(x, y, 0);
    Load64Injective(x, y, 8);
    Load64Injective(x, y, n - 16);
    Load64Injective(x, y, n - 8);
    if Read17To32(x) == Read17To32(y) {
      assert x == x[0..8] + x[8..16] + (x[n - 16..n - 8] + x[n - 8..n])[32 - n..];
      assert y == y[0..8] + y[8..16] + (y[n - 16..n - 8] + y[n - 8..n])[32 - n..];
    }
  }

  // ---------- more than 32 bytes ----------

  function MixWords32(a: U64, b: U64, c: U64, d: U64, s: U64): U64 {
    Xor64(Mix(Xor64(a, R1), Xor64(b, s)), Mix(Xor64(c, R2), Xor64(d, s)))
  }

  /** `mix_32_bytes`, on the 32 bytes from `at` on. */
  function Mix32(data: seq<Byte>, at: nat, s: U64): U64
    requires at + 32 <= |data|
  {
    MixWords32(Load64(data, at), Load64(data, at + 8), Load64(data, at + 16), Load64(data, at + 24), s)
  }

  function Seeded(seed: U64, len: nat): U64 { Xor64(Xor64(seed, R0), Len64(len)) }

  function Hash33To64(seed: U64, data: seq<Byte>): U64
    requires 33 <= |data| <= 64
  {
    Mix32(data, |data| - 32, Mix32(data, 0, Seeded(seed, |data|)))
  }

  /** `current_state` and the three duplicated states. */
  datatype Lanes = Lanes(s: U64, s0: U64, s1: U64, s2: U64)

  /** One block of eight words: each lane takes two. */
  function RoundWords(l: Lanes, a: U64, b: U64, c: U64, d: U64, e: U64, f: U64, g: U64, h: U64): Lanes {
    Lanes(
      Mix(Xor64(a, R1), Xor64(b, l.s)),
      Mix(Xor64(c, R2), Xor64(d, l.s0)),
      Mix(Xor64(e, R3), Xor64(f, l.s1)),
      Mix(Xor64(g, R4), Xor64(h, l.s2))
    )
  }

  function Round(l: Lanes, b: seq<Byte>): Lanes
    requires |b| == 64
  {
    RoundWords(l, Load64(b, 0), Load64(b, 8), Load64(b, 16), Load64(b, 24),
               Load64(b, 32), Load64(b, 40), Load64(b, 48), Load64(b, 56))
  }

  /** The first `n` blocks of `data`, first to last. */
  function Rounds(l: Lanes, data: seq<Byte>, n: nat): Lanes
    requires 64 * n <= |data|
    decreases n
  {
    if n == 0 then l else Rounds(Round(l, data[..64]), data[64..], n - 1)
  }

  function Merge(l: Lanes): U64 { Xor64(Xor64(l.s, l.s0), Add64(l.s1, l.s2)) }

  /** Merging the lanes loses nothing about any one of them. */
  lemma MergeInjective(l: Lanes, l': Lanes)
    requires Merge(l) == Merge(l')
    ensures l.s0 == l'.s0 && l.s1 == l'.s1 && l.s2 == l'.s2 ==> l == l'
    ensures l.s == l'.s && l.s1 == l'.s1 && l.s2 == l'.s2 ==> l == l'
    ensures l.s == l'.s && l.s0 == l'.s0 && l.s2 == l'.s2 ==> l == l'
    ensures l.s == l'.s && l.s0 == l'.s0 && l.s1 == l'.s1 ==> l == l'
  {
    hide Xor64, Add64;
    var x, x', a, a' := Xor64(l.s, l.s0), Xor64(l'.s, l'.s0), Add64(l.s1, l.s2), Add64(l'.s1, l'.s2);
    XorCancels(x, a, x', a');
    XorCancels(l.s, l.s0, l'.s, l'.s0);
    if l.s1 == l'.s1 && a == a' { Add64Injective(l.s1, l.s2, l'.s2); }
    if l.s2 == l'.s2 && a == a' {
      Add64Commutes(l.s1, l.s2);
      Add64Commutes(l'.s1, l.s2);
      Add64Injective(l.s2, l.s1, l'.s1);
    }
  }

  lemma XorCancels(x: U64, y: U64, x': U64, y': U64)
    ensures Xor64(x, y) == Xor64(x', y') ==> (x == x' <==> y == y')
  {
    hide Xor64;
    if Xor64(x, y) == Xor64(x', y') && x == x' {
      XorCommutes(x, y);
      XorCommutes(x, y');
      Xor64Injective(y, y', x);
    }
    if Xor64(x, y) == Xor64(x', y') && y == y' {
      Xor64Injective(x, x', y);
    }
  }

  lemma Add64Commutes(x: U64, y: U64) ensures Add64(x, y) == Add64(y, x) {}

  /** What follows the loop: the first 32 of the bytes left, if there are more, and the last 32. */
  function Finish(data: seq<Byte>, at: nat, s: U64): U64
    requires 64 < |data| && at < |data| <= at + 64
  {
    Mix32(data, |data| - 32, if |data| - at > 32 then Mix32(data, at, s) else s)
  }

  function HashGt64(seed: U64, data: seq<Byte>): U64
    requires 64 < |data|
  {
    var s := Seeded(seed, |data|);
    var n := Blocks(|data|);
    Finish(data, 64 * n, Merge(Rounds(Lanes(s, s, s, s), data, n)))
  }

  function HashGt32(seed: U64, data: seq<Byte>): U64
    requires 32 < |data|
  {
    if |data| > 64 then HashGt64(seed, data) else Hash33To64(seed, data)
  }

  method FetchMix32(data: seq<Byte>, at: nat, s: U64, ghost seen: set<nat>) returns (r: U64, ghost touched: set<nat>)
    requires at + 32 <= |data|
    ensures r == Mix32(data, at, s) && touched == seen + Span(at, 32)
  {
    hide MixWords32;
    touched := seen;
    var a, b, c, d;
    a, touched := Fetch64(data, at, touched);
    b, touched := Fetch64(data, at + 8, touched);
    c, touched := Fetch64(data, at + 16, touched);
    d, touched := Fetch64(data, at + 24, touched);
    r := MixWords32(a, b, c, d, s);
  }

  /** `low_level_hash33to64`, which reads all of its input. */
  method ComputeHash33To64(seed: U64, data: seq<Byte>) returns (r: U64, ghost touched: set<nat>)
    requires 33 <= |data| <= 64
    ensures r == Hash33To64(seed, data) && touched == Span(0, |data|)
  {
    hide Mix32;
    r, touched := FetchMix32(data, 0, Seeded(seed, |data|), {});
    r, touched := FetchMix32(data, |data| - 32, r, touched);
  }

  /** The steps of the source on one block, in its order. */
  method Block(data: seq<Byte>, at: nat, l: Lanes, ghost seen: set<nat>) returns (l': Lanes, ghost touched: set<nat>)
    requires at + 64 <= |data|
    ensures l' == Round(l, data[at..at + 64]) && touched == seen + Span(at, 64)
  {
    hide Load64, Mix, Xor64;
    touched := seen;
    var a, b, c, d, e, f, g, h;
    a, touched := Fetch64(data, at, touched);
    b, touched := Fetch64(data, at + 8, touched);
    c, touched := Fetch64(data, at + 16, touched);
    d, touched := Fetch64(data, at + 24, touched);
    e, touched := Fetch64(data, at + 32, touched);
    f, touched := Fetch64(data, at + 40, touched);
    g, touched := Fetch64(data, at + 48, touched);
    h, touched := Fetch64(data, at + 56, touched);
    var s := Mix(Xor64(a, R1), Xor64(b, l.s));
    var s0 := Mix(Xor64(c, R2), Xor64(d, l.s0));
    var s1 := Mix(Xor64(e, R3), Xor64(f, l.s1));
    var s2 := Mix(Xor64(g, R4), Xor64(h, l.s2));
    l' := Lanes(s, s0, s1, s2);
    LoadSlice64(data, at, at + 64, 0);
    LoadSlice64(data, at, at + 64, 8);
    LoadSlice64(data, at, at + 64, 16);
    LoadSlice64(data, at, at + 64, 24);
    LoadSlice64(data, at, at + 64, 32);
    LoadSlice64(data, at, at + 64, 40);
    LoadSlice64(data, at, at + 64, 48);
    LoadSlice64(data, at, at + 64, 56);
  }

  lemma RoundsStep(l: Lanes, data: seq<Byte>, a: nat, n: nat)
    requires 0 < n && a + 64 * n <= |data|
    ensures Rounds(l, data[a..], n) == Rounds(Round(l, data[a..a + 64]), data[a + 64..], n - 1)
  {
    assert data[a..][..64] == data[a..a + 64];
    assert data[a..][64..] == data[a + 64..];
  }

  /**
   `low_level_hash_len_gt64`: the loop runs until at most 64 bytes are left. It
   folds `Round` over the blocks; with the two loads after it, it reads the whole
   slice and nothing else.
   */
  method ComputeHashGt64(seed: U64, data: seq<Byte>) returns (r: U64, ghost touched: set<nat>)
    requires 64 < |data|
    ensures r == HashGt64(seed, data) && touched == Span(0, |data|)
  {
    hide Round, Mix32, Seeded, Merge;
    touched := {};
    var len := |data|;
    var at := 0;
    var s := Seeded(seed, len);
    var l := Lanes(s, s, s, s);
    ghost var n := Blocks(len);
    ghost var left := n;
    while true
      invariant 0 < left <= n && at == 64 * (n - left) && len == |data| - at
      invariant Rounds(l, data[at..], left) == Rounds(Lanes(s, s, s, s), data, n)
      invariant touched == Span(0, at)
      decreases left
    {
      RoundsStep(l, data, at, left);
      l, touched := Block(data, at, l, touched);
      SpanGrows(at, 64, {});
      at := at + 64;
      len := len - 64;
      left := left - 1;
      if len <= 64 {
        break;
      }
    }
    assert left == 0;
    r := Merge(l);
    if len > 32 {
      r, touched := FetchMix32(data, at, r, touched);
    }
    r, touched := FetchMix32(data, |data| - 32, r, touched);
  }

  /** `low_level_hash_len_gt32` */
  method ComputeHashGt32(seed: U64, data: seq<Byte>) returns (r: U64, ghost touched: set<nat>)
    requires 32 < |data|
    ensures r == HashGt32(seed, data) && touched == Span(0, |data|)
  {
    hide HashGt64, Hash33To64;
    if |data| > 64 {
      r, touched := ComputeHashGt64(seed, data);
    } else {
      r, touched := ComputeHash33To64(seed, data);
    }
  }
}
