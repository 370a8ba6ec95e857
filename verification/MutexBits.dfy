/**
 In every reachable state of `RawMutex`, each of the source's bit operations on
 the packed word is the update of the fields that `RawMutex.Step` makes.
 */
module MutexBits {
  import opened Wrappers
  import opened Threads
  import opened MutexSpec
  import opened RawMutex
  import opened NodeList
  import opened MutexInvariant
  import opened MutexTheorems
  import opened PackedWord

  /** Where the threads' nodes are: distinct, non-null and 8-aligned addresses. */
  ghost predicate Layout(addr: seq<bv64>) {
    && (forall t :: 0 <= t < |addr| ==> addr[t] != 0 && Aligned(addr[t]))
    && (forall t, u :: 0 <= t < u < |addr| ==> addr[t] != addr[u])
  }

  function Pointer(addr: seq<bv64>, head: Option<Tid>): bv64
    requires head.Some? ==> head.value < |addr|
  {
    if head.Some? then addr[head.value] else 0
  }

  /** The packed word `s` stands for the fields `w`. */
  predicate Stands(addr: seq<bv64>, s: bv64, w: Word) {
    InRange(w, |addr|) && Packs(s, Pointer(addr, w.head), w.locked, w.queueLocked, w.timeout)
  }

  /** Comparing packed words, as a compare-exchange does, compares their fields. */
  lemma SameBitsSameFields(addr: seq<bv64>, s: bv64, w: Word, s': bv64, w': Word)
    requires Layout(addr) && Stands(addr, s, w) && Stands(addr, s', w')
    ensures s == s' <==> w == w'
  {
    if w == w' {
      PacksUnique(s, s', Pointer(addr, w.head), w.locked, w.queueLocked, w.timeout);
    }
  }

  /** Every word whose head is a node has a packed form. */
  lemma Pack(addr: seq<bv64>, w: Word) returns (s: bv64)
    requires Layout(addr) && InRange(w, |addr|)
    ensures Stands(addr, s, w)
  {
    s := Pointer(addr, w.head);
    s := PackFlags(s, w.locked, w.queueLocked, w.timeout);
  }

  /** `s` is the packed word of a reachable state. */
  ghost predicate Packed(run: seq<Move>, m: Mutex, addr: seq<bv64>, s: bv64) {
    Reaches(run, m) && |addr| == |m.pc| && Layout(addr) && Stands(addr, s, m.word)
  }

  /** Every reachable state has a packed word, wherever its nodes are. */
  lemma PackedExists(run: seq<Move>, m: Mutex, addr: seq<bv64>) returns (s: bv64)
    requires Reaches(run, m) && |addr| == |m.pc| && Layout(addr)
    ensures Packed(run, m, addr, s)
  {
    var h := Trace(run, m);
    s := Pack(addr, m.word);
  }

  /** A thread whose next step compares the word with its local `state`. */
  predicate HasState(m: Mutex, t: Tid, addr: seq<bv64>, state: bv64) {
    t < |m.pc| && HasWord(m.pc[t]) && Stands(addr, state, m.pc[t].w)
  }

  // ---------- the read-modify-write operations ----------

  /** `unlock` subtracts the lock bit, which never borrows because an owner sees a locked word. */
  lemma UnlockBits(run: seq<Move>, m: Mutex, t: Tid, addr: seq<bv64>, s: bv64)
    requires Packed(run, m, addr, s) && Enabled(m, t, Unlock)
    ensures Stands(addr, s - LOCKED_BIT, Step(m, t, Unlock).word)
  {
    LockedByOwner(run, m, t);
    Subtract(s, Pointer(addr, m.word.head), m.word.queueLocked, m.word.timeout);
  }

  lemma LockedByOwner(run: seq<Move>, m: Mutex, t: Tid)
    requires Reaches(run, m) && t < |m.pc| && m.pc[t].Holding?
    ensures m.word.locked
  {
    var h := Trace(run, m);
    assert ThreadOk(m, h, t);
  }

  /** `unlock_fair` sets the timeout bit. */
  lemma FireBits(run: seq<Move>, m: Mutex, t: Tid, addr: seq<bv64>, s: bv64)
    requires Packed(run, m, addr, s) && Enabled(m, t, UnlockFair(true))
    ensures Stands(addr, s | TIMEOUT_BIT, Step(m, t, UnlockFair(true)).word)
  {
    var Word(l, q, f, head) := m.word;
    SetTimeout(s, Pointer(addr, head), l, q, f);
  }

  /** `unlock_fair` without a timeout clears the lock bit. */
  lemma UnlockFairBits(run: seq<Move>, m: Mutex, t: Tid, addr: seq<bv64>, s: bv64)
    requires Packed(run, m, addr, s) && Enabled(m, t, UnlockFair(false))
    ensures Stands(addr, s & !LOCKED_BIT, Step(m, t, UnlockFair(false)).word)
  {
    var Word(l, q, f, head) := m.word;
    ClearLocked(s, Pointer(addr, head), l, q, f);
  }

  /** `unlock_fair` after a timeout on an empty queue clears both bits. */
  lemma ClearTimeoutBits(run: seq<Move>, m: Mutex, t: Tid, addr: seq<bv64>, s: bv64)
    requires Packed(run, m, addr, s) && Enabled(m, t, ClearTimeout)
    ensures Stands(addr, s & !(LOCKED_BIT | TIMEOUT_BIT), Step(m, t, ClearTimeout).word)
  {
    var Word(l, q, f, head) := m.word;
    ClearLockedTimeout(s, Pointer(addr, head), l, q, f);
  }

  /** `unlock_slow` releases the queue bit after removing a node. */
  lemma TrimBits(run: seq<Move>, m: Mutex, t: Tid, addr: seq<bv64>, s: bv64)
    requires Packed(run, m, addr, s) && Enabled(m, t, Trim) && m.pc[t].Commit? && !m.pc[t].fair
    ensures Stands(addr, s & !QUEUE_LOCKED_BIT, Step(m, t, Trim).word)
  {
    TrimDoesNotFault(run, m, t);
    var Word(l, q, f, head) := m.word;
    ClearQueueLocked(s, Pointer(addr, head), l, q, f);
  }

  /** `unlock_slow_fair` clears the timeout bit as well. */
  lemma FairTrimBits(run: seq<Move>, m: Mutex, t: Tid, addr: seq<bv64>, s: bv64)
    requires Packed(run, m, addr, s) && Enabled(m, t, Trim) && m.pc[t].Commit? && m.pc[t].fair
    ensures Stands(addr, s & !(QUEUE_LOCKED_BIT | TIMEOUT_BIT), Step(m, t, Trim).word)
  {
    TrimDoesNotFault(run, m, t);
    var Word(l, q, f, head) := m.word;
    ClearQueueLockedTimeout(s, Pointer(addr, head), l, q, f);
  }

  lemma TrimDoesNotFault(run: seq<Move>, m: Mutex, t: Tid)
    requires Reaches(run, m) && Enabled(m, t, Trim)
    ensures m.pc[t].Commit?
    ensures Step(m, t, Trim).word == m.word.(queueLocked := false, timeout := m.word.timeout && !m.pc[t].fair)
  {
    var h := Trace(run, m);
    assert ThreadOk(m, h, t);
    assert CellOk(m.node, h.lock.waiting, h.mark, h.current, h.base, h.base);
  }

  // ---------- the compare-exchanges ----------

  /** `try_lock` and the fast path of `lock` store the bare lock bit. */
  lemma TryLockBits(run: seq<Move>, m: Mutex, t: Tid, addr: seq<bv64>, s: bv64, a: Action)
    requires Packed(run, m, addr, s) && Enabled(m, t, a) && (a == TryLock(true) || a == LockFast(true))
    ensures s == 0 && Stands(addr, LOCKED_BIT, Step(m, t, a).word)
  {
    assert Packs(0, 0, false, false, false);
    PacksUnique(s, 0, 0, false, false, false);
  }

  /** `lock_slow` takes a free lock, even over a queue. */
  lemma GrabBits(run: seq<Move>, m: Mutex, t: Tid, addr: seq<bv64>, s: bv64, state: bv64)
    requires Packed(run, m, addr, s) && Enabled(m, t, Grab(true)) && HasState(m, t, addr, state)
    ensures Stands(addr, state | LOCKED_BIT, Step(m, t, Grab(true)).word)
  {
    var Word(l, q, f, head) := m.pc[t].w;
    SetLocked(state, Pointer(addr, head), l, q, f);
  }

  /** `park!` publishes the node. */
  lemma PushBits(run: seq<Move>, m: Mutex, t: Tid, addr: seq<bv64>, s: bv64, state: bv64)
    requires Packed(run, m, addr, s) && Enabled(m, t, Push(true)) && HasState(m, t, addr, state)
    ensures Stands(addr, SetQueueHead(state, addr[t]), Step(m, t, Push(true)).word)
  {
    var Word(l, q, f, head) := m.pc[t].w;
    SetHead(state, Pointer(addr, head), l, q, f, addr[t]);
  }

  /** An unlocker takes the queue bit. */
  lemma TakeQueueBits(run: seq<Move>, m: Mutex, t: Tid, addr: seq<bv64>, s: bv64, state: bv64)
    requires Packed(run, m, addr, s) && Enabled(m, t, TakeQueue(true)) && HasState(m, t, addr, state)
    ensures Stands(addr, state | QUEUE_LOCKED_BIT, Step(m, t, TakeQueue(true)).word)
  {
    var Word(l, q, f, head) := m.pc[t].w;
    SetQueueLocked(state, Pointer(addr, head), l, q, f);
  }

  /** The queue owner lets go of a locked word. */
  lemma YieldBits(run: seq<Move>, m: Mutex, t: Tid, addr: seq<bv64>, s: bv64, state: bv64)
    requires Packed(run, m, addr, s) && Enabled(m, t, Yield(true)) && HasState(m, t, addr, state)
    ensures Stands(addr, state & !QUEUE_LOCKED_BIT, Step(m, t, Yield(true)).word)
  {
    var Word(l, q, f, head) := m.pc[t].w;
    ClearQueueLocked(state, Pointer(addr, head), l, q, f);
  }

  /** The queue owner takes the last node off. */
  lemma CutLastBits(run: seq<Move>, m: Mutex, t: Tid, addr: seq<bv64>, s: bv64, state: bv64)
    requires Packed(run, m, addr, s) && Enabled(m, t, CutLast(true)) && HasState(m, t, addr, state)
    ensures m.pc[t].Cut?
    ensures !m.pc[t].fair ==> Stands(addr, state & (LOCKED_BIT | TIMEOUT_BIT), Step(m, t, CutLast(true)).word)
    ensures m.pc[t].fair ==> Stands(addr, state & LOCKED_BIT, Step(m, t, CutLast(true)).word)
  {
    var Word(l, q, f, head) := m.pc[t].w;
    if m.pc[t].fair {
      KeepLocked(state, Pointer(addr, head), l, q, f);
    } else {
      KeepLockedTimeout(state, Pointer(addr, head), l, q, f);
    }
  }

  // ---------- 32-bit pointers ----------

  /** Where the nodes are on a 32-bit machine: distinct and non-null, of any alignment. */
  ghost predicate Layout32(ptr: seq<bv64>) {
    && (forall t :: 0 <= t < |ptr| ==> 0 < ptr[t] <= 0xFFFF_FFFF)
    && (forall t, u :: 0 <= t < u < |ptr| ==> ptr[t] != ptr[u])
  }

  function Shifted(ptr: seq<bv64>): seq<bv64> {
    seq(|ptr|, t requires 0 <= t < |ptr| => Shift3(ptr[t]))
  }

  /**
   On 32 bits the word holds shifted pointers, and they are laid out as the
   lemmas about bits ask for: those lemmas hold with `Shifted(ptr)` for `addr`.
   */
  lemma ShiftedLayout(ptr: seq<bv64>)
    requires Layout32(ptr)
    ensures Layout(Shifted(ptr))
  {
    hide Shift3, Aligned;
    forall t | 0 <= t < |ptr|
      ensures Shift3(ptr[t]) != 0 && Aligned(Shift3(ptr[t]))
    {
      ShiftedHead(0, ptr[t]);
      ShiftInjective(ptr[t], ptr[t]);
    }
    forall t, u | 0 <= t < u < |ptr|
      ensures Shift3(ptr[t]) != Shift3(ptr[u])
    {
      ShiftInjective(ptr[t], ptr[u]);
    }
  }

  /** The 32-bit `queue_head` reads back the head node's pointer, and null for an empty queue. */
  lemma HeadBits32(ptr: seq<bv64>, s: bv64, w: Word)
    requires Layout32(ptr) && Stands(Shifted(ptr), s, w)
    ensures QueueHead32(s) == Pointer(ptr, w.head)
    ensures QueueHead32(s) == 0 <==> w.head.None?
  {
    ShiftedHead(s, 0);
    if w.head.Some? {
      ShiftInjective(ptr[w.head.value], 0);
    }
  }

  /** The 32-bit `park!` publishes the node. */
  lemma PushBits32(run: seq<Move>, m: Mutex, t: Tid, ptr: seq<bv64>, s: bv64, state: bv64)
    requires Packed(run, m, Shifted(ptr), s) && Enabled(m, t, Push(true)) && HasState(m, t, Shifted(ptr), state)
    ensures Stands(Shifted(ptr), SetQueueHead32(state, ptr[t]), Step(m, t, Push(true)).word)
  {
    ShiftedHead(state, ptr[t]);
    PushBits(run, m, t, Shifted(ptr), s, state);
  }
}
