/**
 The `u64` that `RawMutex` packs its four fields into, and what the source's bit
 operations do to those fields.
 */
module PackedWord {
  import opened Wrappers
  import opened MutexSpec
  import opened RawMutex

  const LOCKED_BIT: bv64 := 1
  const QUEUE_LOCKED_BIT: bv64 := 2
  const TIMEOUT_BIT: bv64 := 4
  const QUEUE_MASK: bv64 := 0xFFFF_FFFF_FFFF_FFF8

  predicate IsQueueLocked(s: bv64) { s & QUEUE_LOCKED_BIT != 0 }

  function QueueHead(s: bv64): bv64 { s & QUEUE_MASK }

  function SetQueueHead(s: bv64, p: bv64): bv64 { (s & !QUEUE_MASK) | p }

  // The 32-bit variants shift the pointer instead of relying on its alignment.

  function QueueHead32(s: bv64): bv64 { (s & QUEUE_MASK) >> 3 }

  function SetQueueHead32(s: bv64, p: bv64): bv64 { (s & !QUEUE_MASK) | (p << 3) }

  /** A pointer that leaves the three flag bits free. */
  predicate Aligned(p: bv64) { p & 7 == 0 }

  /** On 64 bits, storing a pointer keeps it and the flags apart exactly when it is 8-aligned. */
  lemma HeadFits(s: bv64, p: bv64)
    ensures QueueHead(SetQueueHead(s, p)) == p && SetQueueHead(s, p) & 7 == s & 7 <==> Aligned(p)
  {
    assert !0xFFFF_FFFF_FFFF_FFF8 == (7 as bv64);
    assert ((s & 7) | p) & 0xFFFF_FFFF_FFFF_FFF8 == p ==> p & 7 == 0;
  }

  /** On 32 bits, storing any pointer keeps it and the flags apart. */
  lemma HeadFits32(s: bv64, p: bv64)
    requires p <= 0xFFFF_FFFF
    ensures QueueHead32(SetQueueHead32(s, p)) == p
    ensures SetQueueHead32(s, p) & 7 == s & 7
    ensures SetQueueHead32(s, QueueHead32(s)) == s
  {
  }

  function Shift3(p: bv64): bv64 { p << 3 }

  /** The 32-bit variants are the 64-bit ones on the shifted pointer, which is 8-aligned whatever it was. */
  lemma ShiftedHead(s: bv64, p: bv64)
    ensures SetQueueHead32(s, p) == SetQueueHead(s, Shift3(p))
    ensures QueueHead32(s) == QueueHead(s) >> 3
    ensures Aligned(Shift3(p))
  {
  }

  /** On 32-bit pointers the shift loses nothing. */
  lemma ShiftInjective(p: bv64, q: bv64)
    requires p <= 0xFFFF_FFFF && q <= 0xFFFF_FFFF
    ensures Shift3(p) == Shift3(q) ==> p == q
    ensures Shift3(p) == 0 ==> p == 0
    ensures Shift3(p) >> 3 == p
  {
  }

  /** The unlock subtraction clears the lock bit and nothing else exactly when the bit is set. */
  lemma UnlockBorrowsIffUnlocked(s: bv64)
    ensures s - LOCKED_BIT == s & !LOCKED_BIT <==> s & LOCKED_BIT != 0
  {
    assert s & 1 == 0 ==> s - 1 != s & 0xFFFF_FFFF_FFFF_FFFE;
  }

  /** The packed word `s` holds the pointer `p` and the three flags. */
  predicate Packs(s: bv64, p: bv64, locked: bool, queueLocked: bool, timeout: bool) {
    && QueueHead(s) == p
    && (s & LOCKED_BIT != 0) == locked
    && IsQueueLocked(s) == queueLocked
    && (s & TIMEOUT_BIT != 0) == timeout
  }

  // The three flags are the three lowest bits: lock, queue lock and timeout, in this order.

  lemma LockFlag(p: bv64)
    requires Aligned(p)
    ensures Packs(p | 1, p, true, false, false)
  {
  }

  lemma QueueLockFlag(p: bv64)
    requires Aligned(p)
    ensures Packs(p | 2, p, false, true, false)
  {
  }

  lemma TimeoutFlag(p: bv64)
    requires Aligned(p)
    ensures Packs(p | 4, p, false, false, true)
  {
  }

  /** Equal fields have equal words, so comparing words compares fields. */
  lemma PacksUnique(s: bv64, s': bv64, p: bv64, l: bool, q: bool, f: bool)
    requires Packs(s, p, l, q, f) && Packs(s', p, l, q, f)
    ensures s == s'
  {
  }

  // The source's updates, one by one.

  lemma SetLocked(s: bv64, p: bv64, l: bool, q: bool, f: bool)
    requires Packs(s, p, l, q, f)
    ensures Packs(s | LOCKED_BIT, p, true, q, f)
  {
  }

  lemma SetQueueLocked(s: bv64, p: bv64, l: bool, q: bool, f: bool)
    requires Packs(s, p, l, q, f)
    ensures Packs(s | QUEUE_LOCKED_BIT, p, l, true, f)
  {
  }

  lemma SetTimeout(s: bv64, p: bv64, l: bool, q: bool, f: bool)
    requires Packs(s, p, l, q, f)
    ensures Packs(s | TIMEOUT_BIT, p, l, q, true)
  {
  }

  lemma ClearLocked(s: bv64, p: bv64, l: bool, q: bool, f: bool)
    requires Packs(s, p, l, q, f)
    ensures Packs(s & !LOCKED_BIT, p, false, q, f)
  {
  }

  lemma ClearQueueLocked(s: bv64, p: bv64, l: bool, q: bool, f: bool)
    requires Packs(s, p, l, q, f)
    ensures Packs(s & !QUEUE_LOCKED_BIT, p, l, false, f)
  {
  }

  lemma ClearLockedTimeout(s: bv64, p: bv64, l: bool, q: bool, f: bool)
    requires Packs(s, p, l, q, f)
    ensures Packs(s & !(LOCKED_BIT | TIMEOUT_BIT), p, false, q, false)
  {
  }

  lemma ClearQueueLockedTimeout(s: bv64, p: bv64, l: bool, q: bool, f: bool)
    requires Packs(s, p, l, q, f)
    ensures Packs(s & !(QUEUE_LOCKED_BIT | TIMEOUT_BIT), p, l, false, false)
  {
  }

  lemma KeepLocked(s: bv64, p: bv64, l: bool, q: bool, f: bool)
    requires Packs(s, p, l, q, f)
    ensures Packs(s & LOCKED_BIT, 0, l, false, false)
  {
  }

  lemma KeepLockedTimeout(s: bv64, p: bv64, l: bool, q: bool, f: bool)
    requires Packs(s, p, l, q, f)
    ensures Packs(s & (LOCKED_BIT | TIMEOUT_BIT), 0, l, false, f)
  {
  }

  lemma SetHead(s: bv64, p: bv64, l: bool, q: bool, f: bool, p': bv64)
    requires Packs(s, p, l, q, f) && Aligned(p')
    ensures Packs(SetQueueHead(s, p'), p', l, q, f)
  {
  }

  lemma Subtract(s: bv64, p: bv64, q: bool, f: bool)
    requires Packs(s, p, true, q, f)
    ensures Packs(s - LOCKED_BIT, p, false, q, f)
  {
  }

  /** Every aligned pointer and every choice of flags has a packed word. */
  lemma PackFlags(p: bv64, l: bool, q: bool, f: bool) returns (s: bv64)
    requires Aligned(p)
    ensures Packs(s, p, l, q, f)
  {
    s := PackLocked(p, l);
    s := PackQueueLocked(s, p, l, q);
    if f {
      SetTimeout(s, p, l, q, false);
      s := s | TIMEOUT_BIT;
    }
  }

  lemma PackNone(p: bv64)
    requires Aligned(p)
    ensures Packs(p, p, false, false, false)
  {
  }

  lemma PackLocked(p: bv64, l: bool) returns (s: bv64)
    requires Aligned(p)
    ensures Packs(s, p, l, false, false)
  {
    s := p;
    PackNone(p);
    if l {
      SetLocked(p, p, false, false, false);
      s := p | LOCKED_BIT;
    }
  }

  lemma PackQueueLocked(s: bv64, p: bv64, l: bool, q: bool) returns (s': bv64)
    requires Packs(s, p, l, false, false)
    ensures Packs(s', p, l, q, false)
  {
    SetQueueLocked(s, p, l, false, false);
    s' := if q then s | QUEUE_LOCKED_BIT else s;
  }
}
