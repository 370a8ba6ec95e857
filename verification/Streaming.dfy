/**
 The entry points of `low_level.rs`: `combine_contiguous_*` dispatches on the
 length and, for long inputs, recurses through `split_and_combine_*`, which
 hashes chunks of 1024 bytes. The methods follow the source; `Combine` says what
 they compute, and the streaming law is about `Combine`.
 */
module Streaming {
  import opened Words
  import opened Reads
  import opened LowLevel
  import CityHash32

  /** Which platform's entry point: they differ in the block hash and in what is short. */
  datatype Width = On64 | On32

  /** The longest input that has its length mixed in and is combined without a block hash. */
  function Short(w: Width): nat { if w.On64? then 32 else 8 }

  function CombineShort(w: Width, state: U64, p: seq<Byte>): U64
    requires |p| <= Short(w)
  {
    var mixed := Precombine(state, |p|);
    if |p| <= 8 then CombineSmall(mixed, p)
    else if |p| <= 16 then Combine9To16(mixed, p)
    else Combine17To32(mixed, p)
  }

  /** `hash_block_on64bit` and `hash_block_on32bit`; the latter's addition wraps. */
  function HashBlock(w: Width, state: U64, p: seq<Byte>): U64
    requires Short(w) < |p|
  {
    if w.On64? then HashGt32(state, p)
    else CombineRaw(Add64(state, Len64(|p|)), Widen(CityHash32.Hash32(p)))
  }

  /** Long inputs are hashed a chunk at a time, each chunk's hash seeding the next. */
  function Combine(w: Width, state: U64, p: seq<Byte>): U64
    decreases |p|
  {
    if |p| <= Short(w) then CombineShort(w, state, p)
    else if |p| <= CHUNK then HashBlock(w, state, p)
    else Combine(w, HashBlock(w, state, p[..CHUNK]), p[CHUNK..])
  }

  /** An empty rest leaves the state alone; `Combine` would not. */
  function CombineRest(w: Width, state: U64, p: seq<Byte>): U64 {
    if p == [] then state else Combine(w, state, p)
  }

  // The methods also account for the bytes they read: all of the input, and nothing else.

  /** `combine_contiguous_on64bit` and `combine_contiguous_on32bit` */
  method CombineContiguous(w: Width, state: U64, first: seq<Byte>) returns (r: U64, ghost touched: set<nat>)
    ensures r == Combine(w, state, first) && touched == Span(0, |first|)
    decreases |first|, if |first| > CHUNK then 3 else 1
  {
    hide CombineSmall, Combine9To16, Combine17To32, Precombine, HashBlock;
    var len := |first|;
    if len <= 8 {
      r, touched := ComputeSmall(Precombine(state, len), first);
      return;
    }
    if w.On64? && len <= 16 {
      r, touched := Compute9To16(Precombine(state, len), first);
      return;
    }
    if w.On64? && len <= 32 {
      r, touched := Compute17To32(Precombine(state, len), first);
      return;
    }
    r, touched := CombineLarge(w, state, first);
  }

  /** `hash_block_on64bit` and `hash_block_on32bit` */
  method ComputeBlock(w: Width, state: U64, data: seq<Byte>) returns (r: U64, ghost touched: set<nat>)
    requires Short(w) < |data|
    ensures r == HashBlock(w, state, data) && touched == Span(0, |data|)
  {
    hide CombineRaw, Add64, Widen, HashGt32;
    if w.On64? {
      r, touched := ComputeHashGt32(state, data);
    } else {
      var h;
      h, touched := CityHash32.ComputeHash32(data);
      r := CombineRaw(Add64(state, Len64(|data|)), Widen(h));
    }
  }

  /** `combine_large_contiguous_on64bit_length_gt32` and `combine_large_contiguous_on32bit_length_gt8` */
  method CombineLarge(w: Width, state: U64, first: seq<Byte>) returns (r: U64, ghost touched: set<nat>)
    requires Short(w) < |first|
    ensures r == Combine(w, state, first) && touched == Span(0, |first|)
    decreases |first|, if |first| > CHUNK then 2 else 0
  {
    hide HashBlock;
    if |first| <= CHUNK {
      r, touched := ComputeBlock(w, state, first);
      return;
    }
    r, touched := SplitAndCombine(w, state, first);
  }

  /** `split_and_combine_on64bit` and `split_and_combine_on32bit` */
  method SplitAndCombine(w: Width, state: U64, first: seq<Byte>) returns (r: U64, ghost touched: set<nat>)
    ensures r == CombineRest(w, state, first) && touched == Span(0, |first|)
    decreases |first|, if |first| > CHUNK then 1 else 2
  {
    hide HashBlock;
    var len := |first|;
    var ptr := first;
    r, touched := state, {};
    while len >= CHUNK
      invariant len == |ptr| <= |first|
      invariant |first| > CHUNK ==> len < CHUNK || ptr == first || len < |first|
      invariant CombineRest(w, r, ptr) == CombineRest(w, state, first)
      invariant touched == Span(0, |first| - len)
    {
      ghost var at, seen := |first| - len, touched;
      ChunkFirst(w, r, ptr);
      r, touched := ComputeBlock(w, r, ptr[..CHUNK]);
      SpanMoved(at, CHUNK);
      touched := seen + Moved(touched, at);
      len := len - CHUNK;
      ptr := ptr[CHUNK..];
    }
    if len == 0 {
      return;
    }
    ghost var seen := touched;
    r, touched := CombineContiguous(w, r, ptr);
    SpanMoved(|first| - len, len);
    touched := seen + Moved(touched, |first| - len);
  }

  /** One turn of the chunk loop. */
  lemma ChunkFirst(w: Width, state: U64, p: seq<Byte>)
    requires CHUNK <= |p|
    ensures CombineRest(w, state, p) == CombineRest(w, HashBlock(w, state, p[..CHUNK]), p[CHUNK..])
  {
    hide HashBlock;
    if |p| == CHUNK {
      assert p[..CHUNK] == p;
    }
  }

  // ---------- short inputs ----------

  /** What a short input is reduced to: the state with the length mixed in, and the words read. */
  function MixerInput(state: U64, p: seq<Byte>): (U64, seq<U64>)
    requires |p| <= 32
  {
    var words :=
      if |p| <= 8 then [SmallWord(p)]
      else if |p| <= 16 then [Read9To16(p).0, Read9To16(p).1]
      else [Read17To32(p).0, Read17To32(p).1, Read17To32(p).2, Read17To32(p).3];
    (Precombine(state, |p|), words)
  }

  /** What is made of it. */
  function Mixer(input: (U64, seq<U64>)): U64 {
    var (mixed, w) := input;
    if |w| == 1 then CombineRaw(mixed, w[0])
    else if |w| == 2 then Mix(Xor64(mixed, w[0]), Xor64(MUL, w[1]))
    else if |w| == 4 then MixTwice(w[0], w[1], w[2], w[3], mixed)
    else 0
  }

  lemma ShortIsMixer(w: Width, state: U64, p: seq<Byte>)
    requires |p| <= Short(w)
    ensures Combine(w, state, p) == Mixer(MixerInput(state, p))
  {
    hide Precombine, SmallWord, Load64, CombineRaw, Mix, MixTwice, Xor64;
  }

  /** Short inputs of any lengths reach the mixer alike only if they are the same. */
  lemma MixerSeesAll(state: U64, x: seq<Byte>, y: seq<Byte>)
    requires |x| <= 32 && |y| <= 32
    ensures MixerInput(state, x) == MixerInput(state, y) <==> x == y
  {
    hide Precombine, SmallWord, Read9To16, Read17To32;
    if MixerInput(state, x) == MixerInput(state, y) {
      LengthIsMixedIn(state, |x|, |y|);
      var v, w := MixerInput(state, x).1, MixerInput(state, y).1;
      if |x| <= 8 {
        assert v[0] == w[0];
        SmallWordInjective(x, y);
      } else if |x| <= 16 {
        assert v[0] == w[0] && v[1] == w[1];
        Read9To16Injective(x, y);
      } else {
        assert v[0] == w[0] && v[1] == w[1] && v[2] == w[2] && v[3] == w[3];
        Read17To32Injective(x, y);
      }
    }
  }

  /** Up to 1024 bytes a long input is one block; beyond that, the first 1024 bytes are. */
  lemma ChunksOf1024(w: Width, state: U64, p: seq<Byte>)
    requires (if w.On64? then 32 else 8) < |p|
    ensures |p| <= 1024 ==> Combine(w, state, p) == HashBlock(w, state, p)
    ensures |p| > 1024 ==> Combine(w, state, p) == Combine(w, HashBlock(w, state, p[..1024]), p[1024..])
  {
    hide HashBlock;
  }

  // ---------- streaming ----------

  /**
   The streaming law: after whole chunks, a non-empty continuation may come in
   the same call or in the next one.
   */
  lemma {:induction false} StreamingLaw(w: Width, state: U64, a: seq<Byte>, b: seq<Byte>)
    requires 0 < |a| && |a| % CHUNK == 0 && b != []
    ensures Combine(w, state, a + b) == Combine(w, Combine(w, state, a), b)
    decreases |a|
  {
    hide HashBlock, CombineShort;
    assert (a + b)[..CHUNK] == a[..CHUNK];
    assert (a + b)[CHUNK..] == a[CHUNK..] + b;
    if |a| == CHUNK {
      assert a[..CHUNK] == a && a[CHUNK..] + b == b;
    } else {
      StreamingLaw(w, HashBlock(w, state, a[..CHUNK]), a[CHUNK..], b);
    }
  }

  /** The pieces of a stream, fed one call at a time. */
  function Feed(w: Width, state: U64, pieces: seq<seq<Byte>>): U64
    decreases |pieces|
  {
    if pieces == [] then state else Feed(w, Combine(w, state, pieces[0]), pieces[1..])
  }

  function Concat(pieces: seq<seq<Byte>>): seq<Byte> {
    if pieces == [] then [] else pieces[0] + Concat(pieces[1..])
  }

  /** Every piece is whole chunks, except that the last may be any non-empty rest. */
  ghost predicate WholeChunks(pieces: seq<seq<Byte>>) {
    && pieces != []
    && (forall i :: 0 <= i < |pieces| ==> pieces[i] != [])
    && (forall i :: 0 <= i < |pieces| - 1 ==> |pieces[i]| % CHUNK == 0)
  }

  /** However a stream is cut at chunk boundaries, its hash is that of one contiguous slice. */
  lemma {:induction false} PiecesDoNotMatter(w: Width, state: U64, pieces: seq<seq<Byte>>)
    requires WholeChunks(pieces)
    ensures Feed(w, state, pieces) == Combine(w, state, Concat(pieces))
    decreases |pieces|
  {
    hide Combine;
    var a, rest := pieces[0], pieces[1..];
    if rest == [] {
      assert Concat(pieces) == a;
    } else {
      assert Concat(rest) != [] by {
        assert Concat(rest) == rest[0] + Concat(rest[1..]) && rest[0] == pieces[1];
      }
      PiecesDoNotMatter(w, Combine(w, state, a), rest);
      StreamingLaw(w, state, a, Concat(rest));
    }
  }

  /** An empty piece is not left out of the hash: it mixes the state, in the same way on both platforms. */
  lemma EmptyPieceMixes(w: Width, state: U64)
    ensures Combine(w, state, []) == CombineRaw(Xor64(state, R0), 0x57)
  {
    hide CombineRaw, Xor64;
    RandomWord(0);
    assert Precombine(state, 0) == Xor64(state, R0);
  }

  /**
   So the streaming law extends to an empty continuation exactly for those
   states that the mixer maps to themselves.
   */
  lemma EmptyContinuation(w: Width, state: U64, a: seq<Byte>)
    ensures Combine(w, state, a + []) == Combine(w, Combine(w, state, a), [])
            <==> CombineRaw(Xor64(Combine(w, state, a), R0), 0x57) == Combine(w, state, a)
  {
    hide Combine, CombineRaw, Xor64;
    assert a + [] == a;
    EmptyPieceMixes(w, Combine(w, state, a));
  }

  /** Not all do: every chunk has a state from which an empty continuation makes a difference on 32 bits. */
  lemma EmptyContinuationFails(a: seq<Byte>) returns (state: U64)
    requires |a| == CHUNK
    ensures Combine(On32, state, a + []) != Combine(On32, Combine(On32, state, a), [])
  {
    hide Mix, CityHash32.Hash32;
    var h := Widen(CityHash32.Hash32(a));
    state := Sub64(h, Len64(CHUNK));
    ZeroBlock(state, h, a);
    EmptyPieceCounts(On32);
    assert a + [] == a;
  }

  /** A state that cancels the chunk's own hash leads to state zero. */
  lemma ZeroBlock(state: U64, h: U64, a: seq<Byte>)
    requires |a| == CHUNK && h == Widen(CityHash32.Hash32(a)) && state == Sub64(h, Len64(CHUNK))
    ensures Combine(On32, state, a) == 0
  {
    hide Mix, Len64, Widen, CityHash32.Hash32, Add64, Sub64, Xor64;
    SubAdd(h, Len64(CHUNK));
    XorSelf(h);
    MixZero(MUL);
  }

  lemma SubAdd(h: U64, n: U64) ensures Add64(Sub64(h, n), n) == h {
    SubAddRaw(h, n);
  }

  lemma SubAddRaw(h: U64, n: U64) ensures Add64(h - n, n) == h {}

  lemma XorSelf(h: U64) ensures Xor64(h, h) == 0 {}

  lemma MixZero(m: U64) ensures Mix(0, m) == 0 {}

  /** In particular the default state is not mapped to itself. */
  lemma EmptyPieceCounts(w: Width)
    ensures Combine(w, 0, []) == 0x2bda3ac53577c4b7
  {
    hide CombineRaw, Xor64;
    EmptyPieceMixes(w, 0);
    assert Xor64(0, R0) == R0 by { XorZero(R0); }
    RawOfEmpty();
  }

  lemma XorZero(x: U64) ensures Xor64(0, x) == x {}

  lemma RawOfEmpty() ensures CombineRaw(R0, 0x57) == 0x2bda3ac53577c4b7 {
    assert Xor64(R0, 0x57) == 0x243f6a8885a30884;
    MixOfEmpty();
  }

  lemma MixOfEmpty() ensures Mix(0x243f6a8885a30884, MUL) == 0x2bda3ac53577c4b7 {}
}
