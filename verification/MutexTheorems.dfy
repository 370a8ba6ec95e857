/**
 What holds after every run of `RawMutex`: any number of threads, any
 interleaving, any spurious failure, any choice of `unlock` or `unlock_fair`.
 The statements are about the concrete state and the run only.
 */
module MutexTheorems {
  import opened Wrappers
  import opened Threads
  import opened MutexSpec
  import opened RawMutex
  import opened NodeList
  import opened MutexInvariant
  import opened MutexSteps

  /** One step of a run: who moved, how, and what it was for the abstract lock. */
  datatype Move = Move(t: Tid, a: Action, e: Event)

  /** `run` is a run of the mutex, from an initial state of any number of threads, that leads to `m`. */
  ghost predicate Reaches(run: seq<Move>, m: Mutex)
    ensures Reaches(run, m) ==> m.Shaped()
    decreases |run|, 1
  {
    if run == [] then Init(m)
    else exists before :: Continues(run, before, m)
  }

  ghost predicate Continues(run: seq<Move>, before: Mutex, m: Mutex)
    requires run != []
    decreases |run|, 0
  {
    var Move(t, a, e) := run[|run| - 1];
    && Reaches(run[..|run| - 1], before)
    && before.Shaped() && Enabled(before, t, a)
    && m == Step(before, t, a) && e == EventOf(before, t, a)
  }

  /** The run as the abstract lock sees it. */
  function Events(run: seq<Move>): seq<Event> {
    if run == [] then [] else Events(run[..|run| - 1]) + [run[|run| - 1].e]
  }

  function Pushes(run: seq<Move>): nat {
    if run == [] then 0 else Pushes(run[..|run| - 1]) + (if run[|run| - 1].a == Push(true) then 1 else 0)
  }

  function Links(run: seq<Move>): nat {
    if run == [] then 0 else Links(run[..|run| - 1]) + (if run[|run| - 1].a == Link then 1 else 0)
  }

  /** The history that belongs to a run. */
  lemma {:induction false} Trace(run: seq<Move>, m: Mutex) returns (h: Hist)
    requires Reaches(run, m)
    ensures Inv(m, h)
    ensures Follows(|m.pc|, Events(run), h.lock)
    ensures h.pushes == Pushes(run) && h.links == Links(run)
  {
    hide Represents, WordOk, SessionOk, Attended, CostOk;
    if run == [] {
      h := Start(m);
    } else {
      var before :| Continues(run, before, m);
      var Move(t, a, e) := run[|run| - 1];
      var g := Trace(run[..|run| - 1], before);
      StepKeeps(before, g, t, a);
      h := Track(before, g, t, a);
      TrackCounts(before, g, t, a);
      var events := Events(run);
      assert events[..|events| - 1] == Events(run[..|run| - 1]);
      assert Precedes(|m.pc|, events, g.lock, h.lock);
    }
  }

  lemma Start(m: Mutex) returns (h: Hist)
    requires Init(m)
    ensures Inv(m, h) && h.lock == Free(|m.pc|) && h.pushes == h.links == 0
  {
    h := Hist(Free(|m.pc|), None, 0, 0, 0, 0, 0);
    forall t | 0 <= t < |m.pc|
      ensures ThreadOk(m, h, t)
    {
    }
  }

  lemma TrackCounts(m: Mutex, h: Hist, t: Tid, a: Action)
    requires m.Shaped() && Enabled(m, t, a) && Allows(h.lock, EventOf(m, t, a))
    ensures var h' := Track(m, h, t, a);
            && h'.lock == After(h.lock, EventOf(m, t, a))
            && h'.pushes == h.pushes + (if a == Push(true) then 1 else 0)
            && h'.links == h.links + (if a == Link then 1 else 0)
    ensures |Step(m, t, a).pc| == |m.pc|
  {
  }

  /** The invariant, for the abstract state that belongs to the run. */
  lemma TraceOf(run: seq<Move>, m: Mutex, l: Lock) returns (h: Hist)
    requires Reaches(run, m) && Follows(|m.pc|, Events(run), l)
    ensures Inv(m, h) && h.lock == l
  {
    h := Trace(run, m);
    FollowsUnique(|m.pc|, Events(run), h.lock, l);
  }

  // ---------- refinement ----------

  /** Every run is one that the abstract first-in first-out lock allows. */
  lemma RefinesLock(run: seq<Move>, m: Mutex)
    requires Reaches(run, m)
    ensures exists l :: Follows(|m.pc|, Events(run), l) && m.word.locked == l.owner.Some?
  {
    var h := Trace(run, m);
  }

  /** The head, `next`, `prev` and `queue_tail` pointers represent the abstract queue. */
  ghost predicate QueueIs(m: Mutex, fifo: seq<Tid>) {
    && m.word.head == (if fifo == [] then None else Some(fifo[|fifo| - 1]))
    && exists mark: int, current: int, base: int :: Represents(m.node, fifo, mark, current, base)
  }

  /** The intrusive list is the abstract queue, and threads leave it in the order in which they were pushed. */
  lemma RefinesQueue(run: seq<Move>, m: Mutex, l: Lock)
    requires Reaches(run, m) && Follows(|m.pc|, Events(run), l)
    ensures QueueIs(m, l.waiting)
    ensures Enqueued(Events(run)) == Taken(Events(run)) + l.waiting
  {
    var h := TraceOf(run, m, l);
    FirstInFirstOut(|m.pc|, Events(run), l);
    assert Represents(m.node, h.lock.waiting, h.mark, h.current, h.base);
  }

  /**
   The scan of a queue owner walks the abstract queue: the first `queue_tail` it
   finds set is the true tail, and a `next` it follows is the next older waiter.
   Stale pointers of other nodes are never followed.
   */
  lemma ScanFollowsQueue(run: seq<Move>, m: Mutex, l: Lock, t: Tid) returns (i: nat)
    requires Reaches(run, m) && Follows(|m.pc|, Events(run), l)
    requires t < |m.pc| && m.pc[t].Scan?
    ensures i < |l.waiting| && m.pc[t].current == l.waiting[i] < |m.node|
    ensures var n := m.node[l.waiting[i]];
            && (n.queueTail.Some? ==> n.queueTail == Some(l.waiting[0]))
            && (n.queueTail.None? ==> i > 0 && n.next == Some(l.waiting[i - 1]))
  {
    var h := TraceOf(run, m, l);
    assert ThreadOk(m, h, t);
    i := h.current;
    assert CellOk(m.node, h.lock.waiting, h.mark, h.current, h.base, i);
  }

  /** Once the scan is over, the queue owner's `tail` is the oldest waiter, and the tail's `prev` the second oldest. */
  lemma TailIsTrue(run: seq<Move>, m: Mutex, l: Lock, t: Tid)
    requires Reaches(run, m) && Follows(|m.pc|, Events(run), l)
    requires t < |m.pc| && (m.pc[t].Commit? || m.pc[t].Cut?)
    ensures l.waiting != [] && m.pc[t].tail == l.waiting[0] < |m.node|
    ensures var prev := m.node[l.waiting[0]].prev;
            && (prev.Some? ==> |l.waiting| > 1 && prev == Some(l.waiting[1]))
            && (prev.None? ==> m.pc[t].w.head == Some(l.waiting[0]))
  {
    var h := TraceOf(run, m, l);
    assert ThreadOk(m, h, t);
    assert CellOk(m.node, h.lock.waiting, h.mark, h.current, h.base, 0);
  }

  // ---------- safety ----------

  /** A thread owns the lock from its acquisition, or from being removed for a hand-off, to its release. */
  ghost predicate Owns(m: Mutex, t: Tid)
    requires m.Shaped()
  {
    t < |m.pc| &&
    ( || OwnerPc(m.pc[t])
      || (Sleeps(m.pc[t]) && m.notified[t] && m.node[t].handoff)
      || exists u :: 0 <= u < |m.pc| && m.pc[u] == Wake(true, t))
  }

  lemma OwnsIffOwner(m: Mutex, h: Hist, t: Tid)
    requires Inv(m, h)
    ensures Owns(m, t) <==> h.lock.owner == Some(t)
  {
    if t < |m.pc| {
      assert ThreadOk(m, h, t);
      if exists u :: 0 <= u < |m.pc| && m.pc[u] == Wake(true, t) {
        var u :| 0 <= u < |m.pc| && m.pc[u] == Wake(true, t);
        assert ThreadOk(m, h, u);
      }
    }
  }

  /** The lock bit is set exactly when some thread owns the lock, and then exactly one does. */
  lemma MutualExclusion(run: seq<Move>, m: Mutex)
    requires Reaches(run, m)
    ensures && (m.word.locked <==> exists t :: Owns(m, t))
            && (forall t, u :: Owns(m, t) && Owns(m, u) ==> t == u)
  {
    var h := Trace(run, m);
    forall t: Tid
      ensures Owns(m, t) <==> h.lock.owner == Some(t)
    {
      OwnsIffOwner(m, h, t);
    }
    if m.word.locked {
      assert Owns(m, h.lock.owner.value);
    }
  }

  /** The queue bit is set exactly while one thread is between taking and releasing it. */
  lemma OneQueueOwner(run: seq<Move>, m: Mutex)
    requires Reaches(run, m)
    ensures && (m.word.queueLocked <==> exists t :: 0 <= t < |m.pc| && SessionPc(m.pc[t]))
            && (forall t, u :: 0 <= t < |m.pc| && 0 <= u < |m.pc| ==>
                  SessionPc(m.pc[t]) && SessionPc(m.pc[u]) ==> t == u)
  {
    var h := Trace(run, m);
    forall t | 0 <= t < |m.pc|
      ensures SessionPc(m.pc[t]) <==> h.session == Some(t)
    {
      assert ThreadOk(m, h, t);
    }
  }

  /** A compare-exchange of the queue owner fails as long as its local word is from before it took the queue bit. */
  lemma StaleWordFails(run: seq<Move>, m: Mutex, t: Tid)
    requires Reaches(run, m) && t < |m.pc| && SessionPc(m.pc[t]) && !m.pc[t].w.queueLocked
    ensures !Enabled(m, t, Yield(true)) && !Enabled(m, t, CutLast(true))
  {
    OneQueueOwner(run, m);
  }

  /** No null pointer is followed, and the empty-queue branch of `unlock_slow_fair` is dead. */
  lemma NoFault(run: seq<Move>, m: Mutex, t: Tid)
    requires Reaches(run, m) && t < |m.pc|
    ensures !m.pc[t].Fault? && !m.pc[t].Hollow?
  {
    var h := Trace(run, m);
    assert ThreadOk(m, h, t);
  }

  /** A thread that has published its node and has not been notified. */
  predicate Enlisted(m: Mutex, t: Tid)
    requires m.Shaped()
  {
    t < |m.pc| && Sleeps(m.pc[t]) && !m.notified[t]
  }

  /** A thread inside `park` that nobody has notified. */
  predicate Asleep(m: Mutex, t: Tid)
    requires m.Shaped()
  {
    t < |m.pc| && m.pc[t].Parked? && !m.notified[t]
  }

  /** The nodes a queue owner or a waker reads or writes all belong to threads that cannot have left `park!`. */
  lemma TouchesOnlyEnlisted(run: seq<Move>, m: Mutex, t: Tid)
    requires Reaches(run, m) && t < |m.pc|
    ensures var p := m.pc[t];
            && (p.Scan? ==> Enlisted(m, p.current))
            && (SessionPc(p) ==> p.w.head.Some? && Enlisted(m, p.w.head.value))
            && ((p.Commit? || p.Cut? || p.Wake?) ==> Enlisted(m, p.tail))
  {
    var h := Trace(run, m);
    assert ThreadOk(m, h, t);
    var p, fifo := m.pc[t], h.lock.waiting;
    forall i | 0 <= i < |fifo|
      ensures Enlisted(m, fifo[i])
    {
      assert CellOk(m.node, fifo, h.mark, h.current, h.base, i);
      assert fifo[i] in fifo && ThreadOk(m, h, fifo[i]);
    }
    if p.Wake? {
      assert ThreadOk(m, h, p.tail);
    } else if p.Scan? {
      assert CellOk(m.node, fifo, h.mark, h.current, h.base, h.current);
    }
  }

  // ---------- no lost wakeup ----------

  /** A thread that is on its way to a waiter, or is a removed waiter that has been told so. */
  predicate Attends(m: Mutex, t: Tid)
    requires m.Shaped()
  {
    t < |m.pc| &&
    var p := m.pc[t];
    || SessionPc(p)
    || (p.Seek? && !p.fair)
    || (p.Take? && !p.fair && !p.w.queueLocked && p.w.head.Some?)
    || p.Wake?
    || (Sleeps(p) && m.notified[t])
    || ((p.Load? || p.Loop? || p.Ready?) && p.woken)
  }

  /** A free lock with waiters always has a thread that attends to it and is able to run. */
  lemma NoLostWakeup(run: seq<Move>, m: Mutex)
    requires Reaches(run, m)
    ensures !m.word.locked && m.word.head.Some? ==>
              exists t, a :: Attends(m, t) && Enabled(m, t, a)
  {
    hide Attends, Enabled, Inv;
    var h := Trace(run, m);
    if !m.word.locked && m.word.head.Some? {
      var t := Attendant(m, h);
      var a := CanRun(m, t);
    }
  }

  lemma Attendant(m: Mutex, h: Hist) returns (t: Tid)
    requires Inv(m, h) && !m.word.locked && m.word.head.Some?
    ensures t < |m.pc| && Attends(m, t) && !m.pc[t].Fault? && !Asleep(m, t)
  {
    hide Represents, SessionOk, CostOk;
    if h.session.Some? {
      t := h.session.value;
    } else {
      t :| Responsible(m, h, t);
      assert ThreadOk(m, h, t);
      if h.lock.phase[t].Removed? {
        t := h.lock.phase[t].remover;
      }
    }
    assert ThreadOk(m, h, t);
  }

  /** Every thread that is inside the mutex and not asleep has a next step. */
  lemma CanRun(m: Mutex, t: Tid) returns (a: Action)
    requires m.Shaped() && t < |m.pc| && !m.pc[t].Fault? && !Asleep(m, t)
    ensures Enabled(m, t, a)
  {
    match m.pc[t]
    case Outside => a := LockFast(false);
    case Load(_) => a := LoadWord;
    case Loop(_, w) => a := if w.locked then Prepare else Grab(false);
    case Ready(_, _) => a := Push(false);
    case Published => a := Park;
    case Parked => a := Return;
    case Holding => a := Unlock;
    case Lapsed => a := ClearTimeout;
    case Seek(_) => a := LoadWord;
    case Take(fair, w) =>
      a := if w.queueLocked then (if fair then SpinQueue else GiveUp)
           else if !fair && w.head.None? then GiveUp else TakeQueue(false);
    case Hollow => a := ClearAll;
    case Scan(_, _, current) =>
      a := if current < |m.node| && m.node[current].queueTail.Some? then Linked else Link;
    case Commit(fair, w, tail) =>
      a := if !fair && w.locked then Yield(false)
           else if tail < |m.node| && m.node[tail].prev.Some? then Trim else SeeLast;
    case Cut(_, _, _) => a := CutLast(false);
    case Wake(_, _) => a := Unpark;
  }

  /** Nobody is left asleep: once all threads are outside or asleep, they are all outside, and the word is `IDLE`. */
  lemma QuietIsIdle(run: seq<Move>, m: Mutex)
    requires Reaches(run, m)
    requires forall t :: 0 <= t < |m.pc| ==> m.pc[t].Outside? || Asleep(m, t)
    ensures m.word == IDLE
    ensures forall t :: 0 <= t < |m.pc| ==> m.pc[t].Outside?
  {
    var h := Trace(run, m);
    forall t | 0 <= t < |m.pc|
      ensures ThreadOk(m, h, t) && (m.pc[t].Outside? || h.lock.phase[t].Waiting?)
    {
      assert ThreadOk(m, h, t);
    }
  }

  // ---------- fair hand-off ----------

  /** `unlock_fair` has set the timeout bit on a non-empty queue and not yet handed the lock over. */
  predicate HandingOver(p: Pc) { (p.Seek? || p.Take? || SessionPc(p)) && p.fair }

  /**
   While `t` is handing the lock over, the queue is not empty and nobody acquires
   or releases; the step that ends it makes the oldest waiter the owner.
   */
  lemma FairHandOff(run: seq<Move>, m: Mutex, l: Lock, t: Tid, u: Tid, a: Action)
    requires Reaches(run, m) && Follows(|m.pc|, Events(run), l)
    requires t < |m.pc| && HandingOver(m.pc[t]) && Enabled(m, u, a)
    ensures m.word.locked && m.word.timeout && m.word.head.Some? && l.waiting != []
    ensures var m', e := Step(m, u, a), EventOf(m, u, a);
            && !e.Acquire? && !e.Release?
            && (e.HandOff? ==> u == t && e.t == l.waiting[0] && Owns(m', e.t) && !m'.word.timeout)
            && (!e.HandOff? ==> HandingOver(m'.pc[t]))
  {
    hide Inv, Owns, HandingOver, Step;
    var h := TraceOf(run, m, l);
    HandingOverMeans(m, h, t);
    if u == t { OwnHandOver(m, h, t, a); } else { OthersStandBy(m, h, t, u, a); }
    if EventOf(m, u, a).HandOff? {
      HandOffOwns(m, h, u, a);
    }
  }

  lemma HandingOverMeans(m: Mutex, h: Hist, t: Tid)
    requires Inv(m, h) && t < |m.pc| && HandingOver(m.pc[t])
    ensures m.word.locked && m.word.timeout && m.word.head.Some? && h.lock.waiting != []
  {
    hide Represents, Attended, CostOk;
    assert ThreadOk(m, h, t);
  }

  lemma OwnHandOver(m: Mutex, h: Hist, t: Tid, a: Action)
    requires Inv(m, h) && t < |m.pc| && HandingOver(m.pc[t]) && Enabled(m, t, a)
    ensures var m', e := Step(m, t, a), EventOf(m, t, a);
            && !e.Acquire? && !e.Release?
            && (e.HandOff? ==> !m'.word.timeout)
            && (!e.HandOff? ==> HandingOver(m'.pc[t]))
  {
    assert ThreadOk(m, h, t);
    StepKeeps(m, h, t, a);
    assert ThreadOk(Step(m, t, a), Track(m, h, t, a), t);
    hide Inv, EventOf, Step, HandingOver;
    HandOverStep(m, h, t, a);
  }

  lemma OthersStandBy(m: Mutex, h: Hist, t: Tid, u: Tid, a: Action)
    requires Inv(m, h) && t < |m.pc| && u != t && HandingOver(m.pc[t]) && Enabled(m, u, a)
    ensures var m', e := Step(m, u, a), EventOf(m, u, a);
            !e.Acquire? && !e.Release? && !e.HandOff? && HandingOver(m'.pc[t])
  {
    assert ThreadOk(m, h, t);
    assert u < |m.pc| && ThreadOk(m, h, u);
    StepKeeps(m, h, u, a);
    hide Inv, EventOf, Step, HandingOver;
    BystanderStep(m, h, t, u, a);
  }

  /** The thread handed the lock is the oldest waiter, and then owns it. */
  lemma HandOffOwns(m: Mutex, h: Hist, u: Tid, a: Action)
    requires Inv(m, h) && Enabled(m, u, a) && EventOf(m, u, a).HandOff?
    ensures var e := EventOf(m, u, a);
            h.lock.waiting != [] && e.t == h.lock.waiting[0] && Owns(Step(m, u, a), e.t)
  {
    hide Represents, WordOk, SessionOk, Attended, CostOk, ThreadOk, Owns, Step, EventOf;
    StepKeeps(m, h, u, a);
    OwnsIffOwner(Step(m, u, a), Track(m, h, u, a), EventOf(m, u, a).t);
    TrackCounts(m, h, u, a);
  }

  /** What the thread that hands the lock over can do. */
  lemma HandOverStep(m: Mutex, h: Hist, t: Tid, a: Action)
    requires m.Shaped() && |h.lock.phase| == |m.pc| && WordOk(m, h) && t < |m.pc| && ThreadOk(m, h, t)
    requires HandingOver(m.pc[t]) && Enabled(m, t, a)
    requires !Step(m, t, a).pc[t].Fault? && !Step(m, t, a).pc[t].Hollow?
    ensures var m', e := Step(m, t, a), EventOf(m, t, a);
            && !e.Acquire? && !e.Release?
            && (e.HandOff? ==> !m'.word.timeout)
            && (!e.HandOff? ==> HandingOver(m'.pc[t]))
  {
    hide Step, EventOf, WordOk, ThreadOk;
    if m.pc[t].Seek? || m.pc[t].Take? { SeekStep(m, t, a); }
    else if m.pc[t].Scan? { ScanStep(m, t, a); }
    else { CommitStep(m, t, a); }
  }

  lemma SeekStep(m: Mutex, t: Tid, a: Action)
    requires m.Shaped() && Enabled(m, t, a) && HandingOver(m.pc[t]) && (m.pc[t].Seek? || m.pc[t].Take?)
    requires !Step(m, t, a).pc[t].Hollow?
    ensures var e := EventOf(m, t, a);
            !e.Acquire? && !e.Release? && !e.HandOff? && HandingOver(Step(m, t, a).pc[t])
  {
  }

  lemma ScanStep(m: Mutex, t: Tid, a: Action)
    requires m.Shaped() && Enabled(m, t, a) && HandingOver(m.pc[t]) && m.pc[t].Scan?
    requires !Step(m, t, a).pc[t].Fault?
    ensures var e := EventOf(m, t, a);
            !e.Acquire? && !e.Release? && !e.HandOff? && HandingOver(Step(m, t, a).pc[t])
  {
  }

  lemma CommitStep(m: Mutex, t: Tid, a: Action)
    requires m.Shaped() && Enabled(m, t, a) && HandingOver(m.pc[t]) && (m.pc[t].Commit? || m.pc[t].Cut?)
    requires !Step(m, t, a).pc[t].Fault?
    ensures var m', e := Step(m, t, a), EventOf(m, t, a);
            && !e.Acquire? && !e.Release?
            && (e.HandOff? ==> !m'.word.timeout)
            && (!e.HandOff? ==> HandingOver(m'.pc[t]))
  {
  }

  /** What anybody else can do meanwhile. */
  lemma BystanderStep(m: Mutex, h: Hist, t: Tid, u: Tid, a: Action)
    requires m.Shaped() && |h.lock.phase| == |m.pc| && t < |m.pc| && ThreadOk(m, h, t)
    requires u < |m.pc| && u != t && ThreadOk(m, h, u)
    requires HandingOver(m.pc[t]) && Enabled(m, u, a)
    requires Allows(h.lock, EventOf(m, u, a))
    ensures var m', e := Step(m, u, a), EventOf(m, u, a);
            !e.Acquire? && !e.Release? && !e.HandOff? && m'.pc[t] == m.pc[t]
  {
    StepMovesOne(m, t, u, a);
    hide Step;
  }

  /** A step moves nobody but the thread that takes it. */
  lemma StepMovesOne(m: Mutex, t: Tid, u: Tid, a: Action)
    requires m.Shaped() && t < |m.pc| && u != t && Enabled(m, u, a)
    ensures Step(m, u, a).pc[t] == m.pc[t]
  {
  }

  /** `moves` lead from `m0` to `m`. */
  ghost predicate Extends(m0: Mutex, moves: seq<Move>, m: Mutex)
    ensures Extends(m0, moves, m) && m0.Shaped() ==> m.Shaped()
    decreases |moves|, 1
  {
    if moves == [] then m == m0
    else exists before :: ExtendsBy(m0, moves, before, m)
  }

  ghost predicate ExtendsBy(m0: Mutex, moves: seq<Move>, before: Mutex, m: Mutex)
    requires moves != []
    decreases |moves|, 0
  {
    var Move(t, a, e) := moves[|moves| - 1];
    && Extends(m0, moves[..|moves| - 1], before)
    && before.Shaped() && Enabled(before, t, a)
    && m == Step(before, t, a) && e == EventOf(before, t, a)
  }

  lemma {:induction false} ExtendsReaches(run: seq<Move>, m0: Mutex, moves: seq<Move>, m: Mutex)
    requires Reaches(run, m0) && Extends(m0, moves, m)
    ensures Reaches(run + moves, m)
    decreases |moves|
  {
    if moves == [] {
      assert run + moves == run;
    } else {
      var last := |moves| - 1;
      var before :| ExtendsBy(m0, moves, before, m);
      ExtendsReaches(run, m0, moves[..last], before);
      assert (run + moves)[..|run + moves| - 1] == run + moves[..last];
      assert Continues(run + moves, before, m);
    }
  }

  /**
   However long the hand-over takes and whatever the others do meanwhile, nobody
   acquires or releases before it; with `FairHandOff`, the next owner is whoever
   is then the oldest waiter.
   */
  lemma {:induction false} NobodyOvertakes(run: seq<Move>, m0: Mutex, moves: seq<Move>, m: Mutex, t: Tid)
    requires Reaches(run, m0) && t < |m0.pc| && HandingOver(m0.pc[t])
    requires Extends(m0, moves, m) && forall i :: 0 <= i < |moves| ==> !moves[i].e.HandOff?
    ensures t < |m.pc| && HandingOver(m.pc[t])
    ensures forall i :: 0 <= i < |moves| ==> !moves[i].e.Acquire? && !moves[i].e.Release?
    decreases |moves|
  {
    hide Enabled, Step, EventOf, HandingOver;
    if moves != [] {
      var last := |moves| - 1;
      var before :| ExtendsBy(m0, moves, before, m);
      NobodyOvertakes(run, m0, moves[..last], before, t);
      ExtendsReaches(run, m0, moves[..last], before);
      HandOverGoesOn(run + moves[..last], before, t, moves[last].t, moves[last].a);
    }
  }

  lemma HandOverGoesOn(run: seq<Move>, m: Mutex, t: Tid, u: Tid, a: Action)
    requires Reaches(run, m) && t < |m.pc| && HandingOver(m.pc[t]) && Enabled(m, u, a)
    ensures var m', e := Step(m, u, a), EventOf(m, u, a);
            && !e.Acquire? && !e.Release?
            && (!e.HandOff? ==> t < |m'.pc| && HandingOver(m'.pc[t]))
  {
    var h := Trace(run, m);
    FairHandOff(run, m, h.lock, t, u, a);
  }

  /** `unlock_fair` that fires on a non-empty queue hands over: it does not just release. */
  lemma FiredHandsOver(run: seq<Move>, m: Mutex, t: Tid)
    requires Reaches(run, m) && Enabled(m, t, UnlockFair(true)) && m.word.head.Some?
    ensures HandingOver(Step(m, t, UnlockFair(true)).pc[t])
  {
  }

  /**
   From the moment `unlock_fair` fires on a non-empty queue until the hand-off,
   nobody acquires or releases, and the thread that fired stays at it.
   */
  lemma FairUnlockHandsOver(run: seq<Move>, m: Mutex, t: Tid, moves: seq<Move>, m': Mutex)
    requires Reaches(run, m) && Enabled(m, t, UnlockFair(true)) && m.word.head.Some?
    requires Extends(Step(m, t, UnlockFair(true)), moves, m')
    requires forall i :: 0 <= i < |moves| ==> !moves[i].e.HandOff?
    ensures t < |m'.pc| && HandingOver(m'.pc[t])
    ensures forall i :: 0 <= i < |moves| ==> !moves[i].e.Acquire? && !moves[i].e.Release?
  {
    FiredHandsOver(run, m, t);
    var a := UnlockFair(true);
    var next := Step(m, t, a);
    var run' := run + [Move(t, a, EventOf(m, t, a))];
    assert run'[..|run'| - 1] == run;
    assert Continues(run', m, next);
    hide Step, EventOf, HandingOver, Enabled;
    NobodyOvertakes(run', next, moves, m', t);
  }

  /** The timeout bit is set exactly while the owner is inside `unlock_fair`; so it is never set on a free lock. */
  lemma TimeoutOnlyInsideUnlockFair(run: seq<Move>, m: Mutex)
    requires Reaches(run, m)
    ensures && (m.word.timeout ==> m.word.locked)
            && (m.word.timeout <==> exists t :: 0 <= t < |m.pc| && TimeoutPc(m.pc[t]))
  {
    var h := Trace(run, m);
    if exists t :: 0 <= t < |m.pc| && TimeoutPc(m.pc[t]) {
      var t :| 0 <= t < |m.pc| && TimeoutPc(m.pc[t]);
      assert ThreadOk(m, h, t);
    }
    if m.word.timeout {
      assert TimeoutPc(m.pc[h.lock.owner.value]);
    }
  }

  // ---------- removal ----------

  /**
   Taking the last node off commits only if nobody was pushed meanwhile, and
   leaves exactly `IDLE` in `unlock_slow` and exactly the lock bit in `unlock_slow_fair`.
   */
  lemma LastNode(run: seq<Move>, m: Mutex, l: Lock, t: Tid)
    requires Reaches(run, m) && Follows(|m.pc|, Events(run), l)
    requires Enabled(m, t, CutLast(true))
    ensures l.waiting == [m.pc[t].tail]
    ensures Step(m, t, CutLast(true)).word == (if m.pc[t].fair then LOCKED else IDLE)
  {
    var h := TraceOf(run, m, l);
    CutKeeps(m, h, t);
  }

  /** Each published node is removed once, notified once after that, and its thread resumes once. */
  lemma OneWake(run: seq<Move>, m: Mutex, t: Tid)
    requires Reaches(run, m) && t < |m.pc|
    ensures var pushed, resumed := Count(Events(run), Pushed, t), Count(Events(run), Resumed, t);
            && resumed <= Count(Events(run), Woken, t) <= Count(Events(run), Unlinked, t) <= pushed
            && pushed == resumed + (if Sleeps(m.pc[t]) then 1 else 0)
            && Count(Events(run), Woken, t) == resumed + (if m.notified[t] then 1 else 0)
  {
    var h := Trace(run, m);
    assert ThreadOk(m, h, t);
    OneWakePerPush(|m.pc|, Events(run), h.lock, t);
  }

  /** Over any run, `link_prev_nodes!` steps over nodes at most as often as nodes are pushed. */
  lemma LinkingIsAmortised(run: seq<Move>, m: Mutex)
    requires Reaches(run, m)
    ensures Links(run) <= Pushes(run)
  {
    var h := Trace(run, m);
  }

  // ---------- what the calls do ----------

  /** Inside `lock`, past its fast path. */
  predicate InLock(p: Pc) { p.Load? || p.Loop? || p.Ready? || Sleeps(p) }

  /** Inside `unlock` or `unlock_fair`, past their first step. */
  predicate InUnlock(p: Pc) { p.Lapsed? || p.Seek? || p.Take? || SessionPc(p) || p.Wake? }

  /** `try_lock` never waits, and it and the fast path of `lock` succeed on the idle word only. */
  lemma TryLockDoesNotWait(m: Mutex, t: Tid)
    requires m.Shaped() && t < |m.pc| && m.pc[t].Outside?
    ensures Enabled(m, t, TryLock(true)) <==> m.word == IDLE
    ensures Enabled(m, t, LockFast(true)) <==> m.word == IDLE
    ensures Enabled(m, t, TryLock(false)) && Step(m, t, TryLock(false)) == m
    ensures m.word == IDLE ==> Step(m, t, TryLock(true)).pc[t].Holding?
  {
  }

  /** `lock` comes back holding the lock and not otherwise; the unlocks come back without it. */
  lemma CallsComeBack(run: seq<Move>, m: Mutex, t: Tid, a: Action)
    requires Reaches(run, m) && Enabled(m, t, a)
    ensures var p, p' := m.pc[t], Step(m, t, a).pc[t];
            && (a.LockFast? ==> p' == if a.ok then Holding else Load(false))
            && (InLock(p) ==> InLock(p') || p'.Holding?)
            && (p.Holding? ==> InUnlock(p') || p'.Outside?)
            && (InUnlock(p) ==> InUnlock(p') || p'.Outside?)
    ensures Step(m, t, a).pc[t].Holding? ==> Owns(Step(m, t, a), t)
    ensures Step(m, t, a).pc[t].Outside? && !m.pc[t].Outside? ==> !Owns(Step(m, t, a), t)
  {
    var h := Trace(run, m);
    StepKeeps(m, h, t, a);
    assert ThreadOk(m, h, t);
    assert ThreadOk(Step(m, t, a), Track(m, h, t, a), t);
    OwnsIffOwner(Step(m, t, a), Track(m, h, t, a), t);
    StepStays(m, t, a);
    if Step(m, t, a).pc[t].Outside? {
      NotOwnerOutside(Step(m, t, a), Track(m, h, t, a), t);
    }
  }

  lemma StepStays(m: Mutex, t: Tid, a: Action)
    requires m.Shaped() && Enabled(m, t, a)
    requires !Step(m, t, a).pc[t].Fault? && !Step(m, t, a).pc[t].Hollow? && !m.pc[t].Hollow?
    ensures var p, p' := m.pc[t], Step(m, t, a).pc[t];
            && (a.LockFast? ==> p' == if a.ok then Holding else Load(false))
            && (InLock(p) ==> InLock(p') || p'.Holding?)
            && (p.Holding? ==> InUnlock(p') || p'.Outside?)
            && (InUnlock(p) ==> InUnlock(p') || p'.Outside?)
  {
  }

  /** A thread that is outside owns nothing. */
  lemma NotOwnerOutside(m: Mutex, h: Hist, t: Tid)
    requires Inv(m, h) && t < |m.pc| && m.pc[t].Outside?
    ensures h.lock.owner != Some(t)
  {
    assert ThreadOk(m, h, t);
  }

  /** Without waiters, or with somebody at the queue, an unlock is a single step. */
  lemma UnlockIsShort(m: Mutex, t: Tid, a: Action)
    requires m.Shaped() && Enabled(m, t, a) && (a == Unlock || a == UnlockFair(false))
    ensures Step(m, t, a).pc[t].Outside? <==> m.word.queueLocked || m.word.head.None?
    ensures !Step(m, t, a).word.locked
  {
  }

  /** `unlock_slow` removes and wakes a waiter only when its local word is unlocked. */
  lemma WakesOnlyWhenFree(run: seq<Move>, m: Mutex, t: Tid, a: Action)
    requires Reaches(run, m) && Enabled(m, t, a) && EventOf(m, t, a).Dequeue?
    ensures (m.pc[t].Commit? || m.pc[t].Cut?) && !m.pc[t].w.locked
  {
    DequeuePoint(m, t, a);
    if m.pc[t].Cut? {
      CutIsFree(run, m, t);
    }
  }

  lemma DequeuePoint(m: Mutex, t: Tid, a: Action)
    requires m.Shaped() && Enabled(m, t, a) && EventOf(m, t, a).Dequeue?
    ensures (m.pc[t].Commit? && !m.pc[t].w.locked) || (m.pc[t].Cut? && !m.pc[t].fair)
  {
  }

  lemma CutIsFree(run: seq<Move>, m: Mutex, t: Tid)
    requires Reaches(run, m) && t < |m.pc| && m.pc[t].Cut? && !m.pc[t].fair
    ensures !m.pc[t].w.locked
  {
    hide Represents, WordOk, Attended, CostOk;
    var h := Trace(run, m);
    assert ThreadOk(m, h, t);
  }

  /** `lock_slow` tries for the lock only when it looks free, and spins only without a queue; otherwise it parks. */
  lemma LockSlowChooses(m: Mutex, t: Tid, a: Action)
    requires m.Shaped() && t < |m.pc| && m.pc[t].Loop? && Enabled(m, t, a)
    ensures !m.pc[t].w.locked <==> a.Grab?
    ensures a.Spin? ==> m.pc[t].w.head.None?
    ensures m.pc[t].w.locked && m.pc[t].w.head.Some? ==> a == Prepare && Step(m, t, a).pc[t].Ready?
  {
  }

  /** Every compare-exchange may fail, and one that succeeds finds the word that the thread expects. */
  lemma CompareExchange(m: Mutex, t: Tid)
    requires m.Shaped() && t < |m.pc|
    ensures Enabled(m, t, Grab(true)) ==> Enabled(m, t, Grab(false)) && m.word == m.pc[t].w
    ensures Enabled(m, t, Push(true)) ==> Enabled(m, t, Push(false)) && m.word == m.pc[t].w
    ensures Enabled(m, t, TakeQueue(true)) ==> Enabled(m, t, TakeQueue(false)) && m.word == m.pc[t].w
    ensures Enabled(m, t, Yield(true)) ==> Enabled(m, t, Yield(false)) && m.word == m.pc[t].w
    ensures Enabled(m, t, CutLast(true)) ==> Enabled(m, t, CutLast(false)) && m.word == m.pc[t].w
  {
  }
}
