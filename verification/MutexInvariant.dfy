/**
 The inductive invariant of `RawMutex`, over the concrete state and a history
 that no step reads: the abstract lock, the queue-bit owner, and how far the
 queue's `prev` and `queue_tail` pointers have been filled in.
 */
module MutexInvariant {
  import opened Wrappers
  import opened Threads
  import opened MutexSpec
  import opened RawMutex
  import opened NodeList

  /**
   `mark` is the position, counted from the oldest node, of the newest node
   whose `queue_tail` is set. While the queue owner scans, `base` is the position
   of its local head and `current` the position it has reached.
   */
  datatype Hist = Hist(lock: Lock, session: Option<Tid>, mark: int, current: int, base: int,
                       pushes: nat, links: nat)

  function Newest(h: Hist): int { |h.lock.waiting| - 1 }

  function Track(m: Mutex, h: Hist, t: Tid, a: Action): Hist
    requires m.Shaped() && Enabled(m, t, a) && Allows(h.lock, EventOf(m, t, a))
  {
    var g := h.(lock := After(h.lock, EventOf(m, t, a)));
    match a
    case Push(ok) =>
      if !ok then g
      else if h.lock.waiting == [] then g.(mark := 0, current := 0, base := 0, pushes := h.pushes + 1)
      else g.(pushes := h.pushes + 1)
    case TakeQueue(ok) => if ok then g.(session := Some(t), current := Newest(h), base := Newest(h)) else g
    case Link => g.(current := h.current - 1, links := h.links + 1)
    case Linked => g.(mark := h.base, current := h.base)
    case Yield(ok) => if ok then g.(session := None) else g.(current := Newest(h), base := Newest(h))
    case Trim => g.(session := None, mark := h.mark - 1, current := h.mark - 1, base := h.mark - 1)
    case CutLast(ok) =>
      if ok then g.(session := None, mark := 0, current := 0, base := 0)
      else g.(current := Newest(h), base := Newest(h))
    case ClearAll => g.(session := None)
    case _ => g
  }

  // ---------- threads ----------

  /** Program points of a thread that holds the lock (a thread handed the lock may also be inside `park!`). */
  predicate OwnerPc(p: Pc) {
    || p.Holding?
    || p.Lapsed?
    || ((p.Seek? || p.Take? || p.Scan? || p.Commit? || p.Cut?) && p.fair)
  }

  predicate SessionPc(p: Pc) { p.Scan? || p.Commit? || p.Cut? }

  /** Program points between setting and clearing the timeout bit. */
  predicate TimeoutPc(p: Pc) { OwnerPc(p) && !p.Holding? }

  /** Program points that hold a local copy of the word. */
  predicate HasWord(p: Pc) { p.Loop? || p.Ready? || p.Take? || SessionPc(p) }

  predicate InRange(w: Word, n: nat) { w.head.Some? ==> w.head.value < n }

  predicate Handed(p: Phase) { (p.Removed? || p.Notified?) && p.handed }

  predicate ThreadOk(m: Mutex, h: Hist, t: Tid)
    requires m.Shaped() && |h.lock.phase| == |m.pc| && t < |m.pc|
  {
    var p := m.pc[t];
    var phase := h.lock.phase[t];
    && (OwnerPc(p) ==> h.lock.owner == Some(t))
    && (SessionPc(p) <==> h.session == Some(t))
    && (Sleeps(p) <==> !phase.Active?)
    && !p.Fault? && !p.Hollow?
    && (HasWord(p) ==> InRange(p.w, |m.pc|))
    && (p.Ready? ==> p.w.locked && m.node[t] == Prepared(m.node[t], t, p.w))
    && (p.Seek? && p.fair ==> h.lock.waiting != [])
    && (p.Take? && p.fair ==> p.w.locked && p.w.timeout && h.lock.waiting != [])
    && (SessionPc(p) && p.fair ==> p.w.locked && p.w.timeout)
    && (p.Wake? ==> p.tail < |m.pc| && h.lock.phase[p.tail] == Removed(t, p.fair))
    && (phase.Waiting? <==> t in h.lock.waiting)
    && (phase.Removed? ==> phase.remover < |m.pc| && m.pc[phase.remover] == Wake(phase.handed, t))
    && (Handed(phase) ==> h.lock.owner == Some(t))
    && (m.notified[t] <==> phase.Notified?)
    && (phase.Notified? ==> m.node[t].handoff == phase.handed)
    && (phase.Waiting? || phase.Removed? ==> !m.node[t].handoff)
  }

  // ---------- the word ----------

  predicate WordOk(m: Mutex, h: Hist)
    requires m.Shaped() && |h.lock.phase| == |m.pc|
  {
    && InRange(m.word, |m.pc|)
    && m.word.locked == h.lock.owner.Some?
    && m.word.queueLocked == h.session.Some?
    && m.word.head == (if h.lock.waiting == [] then None else Some(h.lock.waiting[Newest(h)]))
    && (h.session.Some? ==> h.session.value < |m.pc| && SessionPc(m.pc[h.session.value]))
    && (h.lock.owner.Some? ==>
          var o := h.lock.owner.value;
          && o < |m.pc|
          && (OwnerPc(m.pc[o]) || Handed(h.lock.phase[o]))
          && m.word.timeout == TimeoutPc(m.pc[o]))
    && (h.lock.owner.None? ==> !m.word.timeout)
  }

  // ---------- the queue owner ----------

  predicate SessionOk(m: Mutex, h: Hist)
    requires m.Shaped() && |h.lock.phase| == |m.pc|
  {
    match h.session
    case None => h.mark == h.current == h.base
    case Some(s) =>
      s < |m.pc| && SessionPc(m.pc[s]) &&
      var p := m.pc[s];
      var fifo := h.lock.waiting;
      && 0 <= h.mark <= h.current <= h.base < |fifo|
      && p.w.head == Some(fifo[h.base])
      && (p.Scan? ==> p.current == fifo[h.current])
      && (!p.Scan? ==> h.mark == h.base && p.tail == fifo[0])
      && (p.Cut? ==> h.base == 0 && (p.fair || !p.w.locked))
  }

  // ---------- responsibility for a free lock ----------

  /** A thread that will see to the queue: an unlocker on its way to the queue bit, or a removed thread. */
  predicate Responsible(m: Mutex, h: Hist, t: Tid)
    requires m.Shaped() && |h.lock.phase| == |m.pc|
  {
    t < |m.pc| &&
    var p := m.pc[t];
    || (p.Seek? && !p.fair)
    || (p.Take? && !p.fair && !p.w.queueLocked && p.w.head.Some?)
    || ((p.Load? || p.Loop? || p.Ready?) && p.woken)
    || h.lock.phase[t].Removed?
    || h.lock.phase[t].Notified?
  }

  ghost predicate Attended(m: Mutex, h: Hist)
    requires m.Shaped() && |h.lock.phase| == |m.pc|
  {
    m.word.locked || h.lock.waiting == [] || h.session.Some? || exists t :: Responsible(m, h, t)
  }

  // ---------- the cost of linking ----------

  /** Nodes whose `prev` link has still to be written by some iteration of `link_prev_nodes!`. */
  function Unlinked(h: Hist): int {
    if h.lock.waiting == [] then 0 else Newest(h) - h.mark - (h.base - h.current)
  }

  predicate CostOk(h: Hist) { h.links + Unlinked(h) <= h.pushes }

  ghost predicate Inv(m: Mutex, h: Hist) {
    && m.Shaped()
    && |h.lock.phase| == |m.pc|
    && Represents(m.node, h.lock.waiting, h.mark, h.current, h.base)
    && WordOk(m, h)
    && SessionOk(m, h)
    && Attended(m, h)
    && CostOk(h)
    && (forall t :: 0 <= t < |m.pc| ==> ThreadOk(m, h, t))
  }
}
