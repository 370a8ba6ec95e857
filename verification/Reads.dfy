/**
 Loads that keep account of the bytes they touch, so that a loop over a slice
 can be shown to read all of it and nothing else.
 */
module Reads {
  import opened Words

  /** The `n` positions from `at` on. */
  ghost function Span(at: nat, n: nat): set<nat> { set k: nat | at <= k < at + n && Within(k, at, n) }

  ghost predicate Within(k: nat, at: nat, n: nat) { at <= k < at + n }

  lemma SpanGrows(at: nat, n: nat, rest: set<nat>)
    ensures Span(0, at) + rest + Span(at, n) == Span(0, at + n) + rest
  {
  }

  /** A prefix and the last `n` bytes make up a slice once they meet. */
  lemma SpansMeet(at: nat, n: nat, len: nat)
    requires at <= len && n <= len <= at + n
    ensures Span(0, at) + Span(len - n, n) == Span(0, len)
  {
  }

  /** Positions in a slice that starts at `at`, as positions in the whole. */
  ghost function Moved(touched: set<nat>, at: nat): set<nat> {
    set k: nat | k in touched :: at + k
  }

  lemma SpanMoved(at: nat, n: nat)
    ensures Span(0, at) + Moved(Span(0, n), at) == Span(0, at + n)
  {
    forall k | at <= k < at + n
      ensures k in Moved(Span(0, n), at)
    {
      assert k - at in Span(0, n) && at + (k - at) == k;
    }
  }

  /** How many 64-byte blocks go through a block loop: all but the last 1 to 64 bytes. */
  function Blocks(len: nat): (n: nat)
    requires 0 < len
    ensures 64 * n < len <= 64 * n + 64
  {
    (len - 1) / 64
  }

  /** `data[at]` */
  method Fetch8(data: seq<Byte>, at: nat, ghost touched: set<nat>) returns (b: Byte, ghost touched': set<nat>)
    requires at < |data|
    ensures b == data[at] && touched' == touched + Span(at, 1)
  {
    b := data[at];
    touched' := touched + Span(at, 1);
  }

  method Fetch32(data: seq<Byte>, at: nat, ghost touched: set<nat>) returns (w: U32, ghost touched': set<nat>)
    requires at + 4 <= |data|
    ensures w == Load32(data, at) && touched' == touched + Span(at, 4)
  {
    w := Load32(data, at);
    touched' := touched + Span(at, 4);
  }

  method Fetch64(data: seq<Byte>, at: nat, ghost touched: set<nat>) returns (w: U64, ghost touched': set<nat>)
    requires at + 8 <= |data|
    ensures w == Load64(data, at) && touched' == touched + Span(at, 8)
  {
    w := Load64(data, at);
    touched' := touched + Span(at, 8);
  }

  lemma LoadSlice32(data: seq<Byte>, a: nat, b: nat, at: nat)
    requires a <= b <= |data| && a + at + 4 <= b
    ensures Load32(data[a..b], at) == Load32(data, a + at)
  {
  }

  lemma LoadSlice64(data: seq<Byte>, a: nat, b: nat, at: nat)
    requires a <= b <= |data| && a + at + 8 <= b
    ensures Load64(data[a..b], at) == Load64(data, a + at)
  {
  }
}
