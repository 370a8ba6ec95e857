/**
 `RawMutex` as a transition system. Every atomic operation on the packed word is
 one step of one thread; `compare_exchange_weak` may fail although the word has
 the expected value; memory is sequentially consistent. A thread owns exactly
 one queue node, so a node is named by its thread and its address is reused by
 every later `park!` of that thread.

 Null dereferences are not excluded by fiat: they lead to the program point
 `Fault`, which `MutexTheorems` proves unreachable.
 */
module RawMutex {
  import opened Wrappers
  import opened Threads
  import opened MutexSpec

  /** The packed `u64`, as its four fields (`PackedWord` relates the two). */
  datatype Word = Word(locked: bool, queueLocked: bool, timeout: bool, head: Option<Tid>)

  const IDLE := Word(false, false, false, None)
  const LOCKED := Word(true, false, false, None)

  /** `ThreadData`; `handoff` says that `unpark_token` is `TOKEN_HANDOFF`. */
  datatype Node = Node(next: Option<Tid>, prev: Option<Tid>, queueTail: Option<Tid>, handoff: bool)

  /**
   Where a thread is, with its local variables. `w` is the thread's local copy
   of the word, which other threads may have changed since. `fair` tells
   `unlock_slow_fair` from `unlock_slow`; `woken` marks a `lock_slow` that has
   been through the queue.
   */
  datatype Pc =
    | Outside
    | Load(woken: bool)
    | Loop(woken: bool, w: Word)
    | Ready(woken: bool, w: Word)
    | Published                               // the node is in the queue, `park` has not been called yet
    | Parked
    | Holding
    | Lapsed                                  // timeout bit set on an empty queue
    | Seek(fair: bool)
    | Take(fair: bool, w: Word)
    | Hollow                                  // the branch of `unlock_slow_fair` for an empty queue
    | Scan(fair: bool, w: Word, current: Tid)
    | Commit(fair: bool, w: Word, tail: Tid)
    | Cut(fair: bool, w: Word, tail: Tid)
    | Wake(fair: bool, tail: Tid)
    | Fault

  /** `notified[t]` is the token of the parker inside the node of `t`. */
  datatype Mutex = Mutex(word: Word, pc: seq<Pc>, node: seq<Node>, notified: seq<bool>)
  {
    predicate Shaped() { |pc| == |node| == |notified| }

    function Goto(t: Tid, p: Pc): Mutex
      requires t < |pc|
    {
      this.(pc := pc[t := p])
    }
  }

  /** A thread that has published its node and has not returned from `park`. */
  predicate Sleeps(p: Pc) { p.Published? || p.Parked? }

  /** What a thread does next; `ok` is the outcome of a weak compare-exchange. */
  datatype Action =
    | TryLock(ok: bool)
    | LockFast(ok: bool)
    | LoadWord
    | Grab(ok: bool)
    | Spin
    | Prepare
    | Push(ok: bool)
    | Park
    | Return
    | Unlock
    | UnlockFair(fired: bool)
    | ClearTimeout
    | GiveUp
    | SpinQueue
    | TakeQueue(ok: bool)
    | ClearAll
    | Link
    | Linked
    | Yield(ok: bool)
    | SeeLast
    | CutLast(ok: bool)
    | Trim
    | Unpark

  /** A weak compare-exchange succeeds only on the expected word and may always fail. */
  predicate Cas(ok: bool, expected: Word, actual: Word) { ok ==> expected == actual }

  predicate Enabled(m: Mutex, t: Tid, a: Action)
    requires m.Shaped()
  {
    t < |m.pc| &&
    match m.pc[t]
    case Outside => (a.TryLock? || a.LockFast?) && Cas(a.ok, IDLE, m.word)
    case Load(_) => a.LoadWord?
    case Loop(_, w) =>
      || (!w.locked && a.Grab? && Cas(a.ok, w, m.word))
      || (w.locked && w.head.None? && a.Spin?)
      || (w.locked && a.Prepare?)
    case Ready(_, w) => a.Push? && Cas(a.ok, w, m.word)
    case Published => a.Park?
    case Parked => a.Return? && m.notified[t]
    case Holding => a.Unlock? || a.UnlockFair?
    case Lapsed => a.ClearTimeout?
    case Seek(_) => a.LoadWord?
    case Take(fair, w) =>
      if fair then
        if w.queueLocked then a.SpinQueue? else a.TakeQueue? && Cas(a.ok, w, m.word)
      else
        if w.queueLocked || w.head.None? then a.GiveUp? else a.TakeQueue? && Cas(a.ok, w, m.word)
    case Hollow => a.ClearAll?
    case Scan(_, _, current) =>
      if current < |m.node| && m.node[current].queueTail.Some? then a.Linked? else a.Link?
    case Commit(fair, w, tail) =>
      if !fair && w.locked then a.Yield? && Cas(a.ok, w, m.word)
      else if tail < |m.node| && m.node[tail].prev.Some? then a.Trim?
      else a.SeeLast?
    case Cut(_, w, _) => a.CutLast? && Cas(a.ok, w, m.word)
    case Wake(_, _) => a.Unpark?
    case Fault => false
  }

  /** Where a failed compare-exchange of a queue owner leads: back to the scan. */
  function Rescan(fair: bool, w: Word): Pc {
    if w.head.Some? then Scan(fair, w, w.head.value) else Fault
  }

  /** The node prepared by `park!` for a local word `w`. */
  function Prepared(n: Node, t: Tid, w: Word): Node {
    if w.head.None? then n.(queueTail := Some(t), prev := None, handoff := false)
    else n.(queueTail := None, prev := None, next := w.head, handoff := false)
  }

  /** `unlock` and the non-timeout part of `unlock_fair`, after the lock bit is cleared. */
  function AfterRelease(old_: Word): Pc {
    if old_.queueLocked || old_.head.None? then Outside else Seek(false)
  }

  function Step(m: Mutex, t: Tid, a: Action): (m': Mutex)
    requires m.Shaped() && Enabled(m, t, a)
    ensures m'.Shaped() && |m'.pc| == |m.pc|
  {
    match m.pc[t]
    case Outside =>
      if a.ok then m.(word := LOCKED).Goto(t, Holding)
      else if a.TryLock? then m else m.Goto(t, Load(false))
    case Load(woken) => m.Goto(t, Loop(woken, m.word))
    case Loop(woken, w) =>
      if a.Grab? then
        if a.ok then m.(word := w.(locked := true)).Goto(t, Holding) else m.Goto(t, Loop(woken, m.word))
      else if a.Spin? then m.Goto(t, Load(woken))
      else m.(node := m.node[t := Prepared(m.node[t], t, w)]).Goto(t, Ready(woken, w))
    case Ready(woken, w) =>
      if a.ok then m.(word := w.(head := Some(t))).Goto(t, Published) else m.Goto(t, Loop(woken, m.word))
    case Published => m.Goto(t, Parked)
    case Parked =>
      m.(notified := m.notified[t := false]).Goto(t, if m.node[t].handoff then Holding else Load(true))
    case Holding =>
      if a.Unlock? || !a.fired then m.(word := m.word.(locked := false)).Goto(t, AfterRelease(m.word))
      else m.(word := m.word.(timeout := true)).Goto(t, if m.word.head.Some? then Seek(true) else Lapsed)
    case Lapsed => m.(word := m.word.(locked := false, timeout := false)).Goto(t, AfterRelease(m.word))
    case Seek(fair) => m.Goto(t, Take(fair, m.word))
    case Take(fair, w) =>
      if a.GiveUp? then m.Goto(t, Outside)
      else if a.SpinQueue? then m.Goto(t, Seek(fair))
      else if !a.ok then m.Goto(t, Take(fair, m.word))
      else m.(word := w.(queueLocked := true)).Goto(t, if w.head.Some? then Scan(fair, w, w.head.value) else Hollow)
    case Hollow => m.(word := Word(false, false, false, m.word.head)).Goto(t, Outside)
    case Scan(fair, w, current) =>
      if a.Link? then
        if current < |m.node| && m.node[current].next.Some? && m.node[current].next.value < |m.node| then
          var next := m.node[current].next.value;
          m.(node := m.node[next := m.node[next].(prev := Some(current))]).Goto(t, Scan(fair, w, next))
        else m.Goto(t, Fault)
      else if w.head.Some? && w.head.value < |m.node| then
        var tail := m.node[current].queueTail;
        m.(node := m.node[w.head.value := m.node[w.head.value].(queueTail := tail)])
         .Goto(t, Commit(fair, w, tail.value))
      else m.Goto(t, Fault)
    case Commit(fair, w, tail) =>
      if a.Yield? then
        if a.ok then m.(word := w.(queueLocked := false)).Goto(t, Outside) else m.Goto(t, Rescan(fair, m.word))
      else if a.SeeLast? then m.Goto(t, if tail < |m.node| then Cut(fair, w, tail) else Fault)
      else if w.head.Some? && w.head.value < |m.node| then
        m.(word := m.word.(queueLocked := false, timeout := m.word.timeout && !fair),
           node := m.node[w.head.value := m.node[w.head.value].(queueTail := m.node[tail].prev)])
         .Goto(t, Wake(fair, tail))
      else m.Goto(t, Fault)
    case Cut(fair, w, tail) =>
      if a.ok then
        m.(word := Word(w.locked, false, w.timeout && !fair, None)).Goto(t, Wake(fair, tail))
      else m.Goto(t, if m.word.head.None? then Cut(fair, m.word, tail) else Rescan(fair, m.word))
    case Wake(fair, tail) =>
      if tail < |m.node| then
        m.(node := m.node[tail := m.node[tail].(handoff := m.node[tail].handoff || fair)],
           notified := m.notified[tail := true]).Goto(t, Outside)
      else m.Goto(t, Fault)
  }

  /** Any number of threads, none of them inside the mutex. */
  predicate Init(m: Mutex) {
    && m.Shaped()
    && m.word == IDLE
    && (forall t :: 0 <= t < |m.pc| ==> m.pc[t] == Outside)
    && (forall t :: 0 <= t < |m.notified| ==> !m.notified[t])
  }

  /** What a step is for the abstract lock. */
  function EventOf(m: Mutex, t: Tid, a: Action): Event
    requires m.Shaped() && Enabled(m, t, a)
  {
    match a
    case TryLock(ok) => if ok then Acquire(t) else Silent
    case LockFast(ok) => if ok then Acquire(t) else Silent
    case Grab(ok) => if ok then Acquire(t) else Silent
    case Push(ok) => if ok then Enqueue(t) else Silent
    case Unlock => Release(t)
    case UnlockFair(fired) => if fired then Silent else Release(t)
    case ClearTimeout => Release(t)
    case ClearAll => Release(t)
    case Trim => Removal(m.pc[t], t)
    case CutLast(ok) => if ok then Removal(m.pc[t], t) else Silent
    case Unpark => if m.pc[t].Wake? then Notify(t, m.pc[t].tail) else Silent
    case Return => Resume(t)
    case _ => Silent
  }

  /** Taking a node off the queue: `unlock_slow` lets it retry, `unlock_slow_fair` gives it the lock. */
  function Removal(p: Pc, t: Tid): Event
    requires p.Commit? || p.Cut?
  {
    if p.fair then HandOff(t, p.tail) else Dequeue(t, p.tail)
  }
}
