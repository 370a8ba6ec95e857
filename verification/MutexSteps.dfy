/** Every step keeps the invariant and is an event the abstract lock allows. */
module MutexSteps {
  import opened Wrappers
  import opened Threads
  import opened MutexSpec
  import opened RawMutex
  import opened NodeList
  import opened MutexInvariant

  /** What each of the step lemmas establishes. */
  ghost predicate Kept(m: Mutex, h: Hist, t: Tid, a: Action)
    requires m.Shaped() && Enabled(m, t, a)
  {
    Allows(h.lock, EventOf(m, t, a)) && Inv(Step(m, t, a), Track(m, h, t, a))
  }

  /** A thread moves, and neither the word, the nodes, the parkers nor the history change. */
  lemma MoveKeeps(m: Mutex, h: Hist, t: Tid, p: Pc)
    requires Inv(m, h) && t < |m.pc|
    requires !SessionPc(m.pc[t]) && !SessionPc(p)
    requires OwnerPc(m.pc[t]) == OwnerPc(p) && TimeoutPc(m.pc[t]) == TimeoutPc(p)
    requires Sleeps(m.pc[t]) == Sleeps(p) && !m.pc[t].Wake?
    requires !p.Fault? && !p.Hollow? && !p.Wake?
    requires !p.Ready? && (HasWord(p) ==> InRange(p.w, |m.pc|))
    requires (p.Seek? || p.Take?) && p.fair ==> h.lock.waiting != []
    requires p.Take? && p.fair ==> p.w.locked && p.w.timeout
    requires Responsible(m, h, t) ==> Responsible(m.Goto(t, p), h, t) || Attended(m.Goto(t, p), h)
    ensures Inv(m.Goto(t, p), h)
  {
    var m' := m.Goto(t, p);
    assert ThreadOk(m, h, t);
    forall u | 0 <= u < |m.pc| && u != t
      ensures ThreadOk(m', h, u)
    {
      assert ThreadOk(m, h, u);
    }
    if !(m.word.locked || h.lock.waiting == [] || h.session.Some?) {
      var u :| Responsible(m, h, u);
      if u != t {
        assert Responsible(m', h, u);
      }
    }
    forall i | 0 <= i < |h.lock.waiting|
      ensures CellOk(m'.node, h.lock.waiting, h.mark, h.current, h.base, i)
    {
      assert CellOk(m.node, h.lock.waiting, h.mark, h.current, h.base, i);
    }
  }

  /** Somebody takes a free lock. */
  lemma AcquireKeeps(m: Mutex, h: Hist, t: Tid)
    requires Inv(m, h) && t < |m.pc|
    requires m.pc[t].Outside? || m.pc[t].Loop?
    requires !m.word.locked
    ensures h.lock.owner.None? && h.lock.phase[t].Active?
    ensures Inv(m.(word := m.word.(locked := true)).Goto(t, Holding), h.(lock := h.lock.(owner := Some(t))))
  {
    var m' := m.(word := m.word.(locked := true)).Goto(t, Holding);
    var h' := h.(lock := h.lock.(owner := Some(t)));
    assert ThreadOk(m, h, t);
    forall u | 0 <= u < |m.pc|
      ensures ThreadOk(m', h', u)
    {
      assert ThreadOk(m, h, u);
    }
  }

  /** The owner clears the lock bit, and with it the timeout bit if it had set that. */
  lemma ReleaseKeeps(m: Mutex, h: Hist, t: Tid)
    requires Inv(m, h) && t < |m.pc|
    requires m.pc[t].Holding? || m.pc[t].Lapsed?
    ensures Allows(h.lock, Release(t)) && m.word.locked && m.word.timeout == m.pc[t].Lapsed?
    ensures Inv(m.(word := m.word.(locked := false, timeout := false)).Goto(t, AfterRelease(m.word)),
                h.(lock := After(h.lock, Release(t))))
  {
    assert ThreadOk(m, h, t);
    var m' := m.(word := m.word.(locked := false, timeout := false)).Goto(t, AfterRelease(m.word));
    var h' := h.(lock := After(h.lock, Release(t)));
    forall u | 0 <= u < |m.pc|
      ensures ThreadOk(m', h', u)
    {
      assert ThreadOk(m, h, u);
    }
    if h.session.None? && h.lock.waiting != [] {
      assert Responsible(m', h', t);
    }
  }

  /** `unlock_fair` sets the timeout bit. */
  lemma FireKeeps(m: Mutex, h: Hist, t: Tid)
    requires Inv(m, h) && t < |m.pc| && m.pc[t].Holding?
    ensures Inv(m.(word := m.word.(timeout := true)).Goto(t, if m.word.head.Some? then Seek(true) else Lapsed), h)
  {
    assert ThreadOk(m, h, t);
    var m' := m.(word := m.word.(timeout := true)).Goto(t, if m.word.head.Some? then Seek(true) else Lapsed);
    forall u | 0 <= u < |m.pc|
      ensures ThreadOk(m', h, u)
    {
      assert ThreadOk(m, h, u);
    }
  }

  /** A locker fills in its own node, which nobody else can reach. */
  lemma PrepareKeeps(m: Mutex, h: Hist, t: Tid)
    requires Inv(m, h) && t < |m.pc| && m.pc[t].Loop? && m.pc[t].w.locked
    ensures Kept(m, h, t, Prepare)
  {
    assert ThreadOk(m, h, t);
    var m' := Step(m, t, Prepare);
    var fifo := h.lock.waiting;
    forall u | 0 <= u < |m.pc|
      ensures ThreadOk(m', h, u)
    {
      assert ThreadOk(m, h, u);
    }
    forall i | 0 <= i < |fifo|
      ensures CellOk(m'.node, fifo, h.mark, h.current, h.base, i)
    {
      assert CellOk(m.node, fifo, h.mark, h.current, h.base, i);
      assert fifo[i] in fifo;
    }
    KeepAttended(m, h, t, m', h);
  }

  /** Responsibility survives a step of `t` that leaves every other thread alone. */
  lemma KeepAttended(m: Mutex, h: Hist, t: Tid, m': Mutex, h': Hist)
    requires m.Shaped() && m'.Shaped() && |m.pc| == |m'.pc| == |h.lock.phase| == |h'.lock.phase|
    requires Attended(m, h)
    requires m.word.locked ==> m'.word.locked
    requires h.lock.waiting == [] ==> h'.lock.waiting == []
    requires h.session == h'.session
    requires forall u | 0 <= u < |m.pc| && u != t :: m.pc[u] == m'.pc[u] && h.lock.phase[u] == h'.lock.phase[u]
    requires Responsible(m, h, t) ==> Responsible(m', h', t) || Attended(m', h')
    ensures Attended(m', h')
  {
    if !(m.word.locked || h.lock.waiting == [] || h.session.Some?) {
      var u :| Responsible(m, h, u);
      if u != t {
        assert Responsible(m', h', u);
      }
    }
  }

  /** The publishing compare-exchange of `park!` appends the thread to the queue. */
  lemma PushKeeps(m: Mutex, h: Hist, t: Tid)
    requires Inv(m, h) && t < |m.pc| && m.pc[t].Ready? && m.pc[t].w == m.word
    ensures Kept(m, h, t, Push(true))
  {
    assert ThreadOk(m, h, t);
    var fifo := h.lock.waiting;
    RepresentsPush(m.node, fifo, t, h.mark, h.current, h.base);
    PushKeepsThreads(m, h, t);
    PushKeepsRest(m, h, t);
  }

  lemma PushKeepsThreads(m: Mutex, h: Hist, t: Tid)
    requires Inv(m, h) && t < |m.pc| && m.pc[t].Ready? && m.pc[t].w == m.word
    ensures Allows(h.lock, Enqueue(t))
    ensures var m', h' := Step(m, t, Push(true)), Track(m, h, t, Push(true));
            |h'.lock.phase| == |m.pc| && forall u :: 0 <= u < |m.pc| ==> ThreadOk(m', h', u)
  {
    hide Represents, SessionOk, CostOk, Attended;
    assert ThreadOk(m, h, t);
    forall u | 0 <= u < |m.pc|
      ensures ThreadOk(Step(m, t, Push(true)), Track(m, h, t, Push(true)), u)
    {
      assert ThreadOk(m, h, u);
      if u != t {
        PushKeepsOther(m, h, t, u);
      }
    }
  }

  lemma PushKeepsOther(m: Mutex, h: Hist, t: Tid, u: Tid)
    requires m.Shaped() && |h.lock.phase| == |m.pc| && Enabled(m, t, Push(true)) && m.pc[t].Ready?
    requires Allows(h.lock, Enqueue(t)) && u < |m.pc| && u != t && ThreadOk(m, h, u)
    requires h.lock.phase[u].Removed? ==> h.lock.phase[u].remover != t
    ensures ThreadOk(Step(m, t, Push(true)), Track(m, h, t, Push(true)), u)
  {
  }

  lemma PushKeepsRest(m: Mutex, h: Hist, t: Tid)
    requires Inv(m, h) && t < |m.pc| && m.pc[t].Ready? && m.pc[t].w == m.word
    requires Allows(h.lock, Enqueue(t))
    ensures var m', h' := Step(m, t, Push(true)), Track(m, h, t, Push(true));
            |h'.lock.phase| == |m.pc| && WordOk(m', h') && SessionOk(m', h') && Attended(m', h') && CostOk(h')
  {
    assert ThreadOk(m, h, t);
  }

  /** `park` returns: the token is consumed and the hand-off token read. */
  lemma ReturnKeeps(m: Mutex, h: Hist, t: Tid)
    requires Inv(m, h) && t < |m.pc| && m.pc[t].Parked? && m.notified[t]
    ensures Kept(m, h, t, Return)
  {
    assert ThreadOk(m, h, t);
    var m' := m.(notified := m.notified[t := false]).Goto(t, if m.node[t].handoff then Holding else Load(true));
    var h' := h.(lock := h.lock.Set(t, Active));
    ReturnKeepsThreads(m, h, t, m', h');
    KeepAttended(m, h, t, m', h');
  }

  lemma ReturnKeepsThreads(m: Mutex, h: Hist, t: Tid, m': Mutex, h': Hist)
    requires Inv(m, h) && t < |m.pc| && m.pc[t].Parked? && m.notified[t]
    requires m' == m.(notified := m.notified[t := false]).Goto(t, if m.node[t].handoff then Holding else Load(true))
    requires h' == h.(lock := h.lock.Set(t, Active))
    ensures forall u :: 0 <= u < |m.pc| ==> ThreadOk(m', h', u)
    ensures WordOk(m', h') && SessionOk(m', h')
  {
    assert ThreadOk(m, h, t);
    forall u | 0 <= u < |m.pc|
      ensures ThreadOk(m', h', u)
    {
      assert ThreadOk(m, h, u);
    }
  }

  /** A free queue bit is taken on a word that is exactly the local copy. */
  lemma TakeKeeps(m: Mutex, h: Hist, t: Tid)
    requires Inv(m, h) && t < |m.pc| && m.pc[t].Take? && m.pc[t].w == m.word
    requires Enabled(m, t, TakeQueue(true))
    ensures Kept(m, h, t, TakeQueue(true))
  {
    assert ThreadOk(m, h, t);
    var m', h' := Step(m, t, TakeQueue(true)), Track(m, h, t, TakeQueue(true));
    var fifo := h.lock.waiting;
    forall u | 0 <= u < |m.pc|
      ensures ThreadOk(m', h', u)
    {
      assert ThreadOk(m, h, u);
    }
    forall i | 0 <= i < |fifo|
      ensures CellOk(m'.node, fifo, h'.mark, h'.current, h'.base, i)
    {
      assert CellOk(m.node, fifo, h.mark, h.current, h.base, i);
    }
  }

  /** The nodes differ only in the list pointers of queued nodes. */
  predicate OnlyLinks(h: Hist, node: seq<Node>, node': seq<Node>) {
    |node'| == |node| &&
    forall u :: 0 <= u < |node| ==>
      node'[u] == node[u] || (u in h.lock.waiting && node'[u].handoff == node[u].handoff)
  }

  /** The queue owner moves on inside its session, writing list pointers of queued nodes. */
  lemma SessionMoveKeeps(m: Mutex, h: Hist, t: Tid, node': seq<Node>, p: Pc, h': Hist)
    requires Inv(m, h) && t < |m.pc|
    requires SessionPc(m.pc[t]) && SessionPc(p) && m.pc[t].fair == p.fair
    requires p.fair ==> p.w.locked && p.w.timeout
    requires InRange(p.w, |m.pc|)
    requires OnlyLinks(h, m.node, node')
    requires h'.lock == h.lock && h'.session == h.session
    requires Represents(node', h'.lock.waiting, h'.mark, h'.current, h'.base)
    requires CostOk(h')
    requires SessionOk(m.(node := node').Goto(t, p), h')
    ensures Inv(m.(node := node').Goto(t, p), h')
  {
    assert ThreadOk(m, h, t);
    var m' := m.(node := node').Goto(t, p);
    forall u | 0 <= u < |m.pc|
      ensures ThreadOk(m', h', u)
    {
      assert ThreadOk(m, h, u);
    }
  }

  /** One iteration of `link_prev_nodes!` steps to the next older node of the queue. */
  lemma LinkKeeps(m: Mutex, h: Hist, t: Tid)
    requires Inv(m, h) && t < |m.pc| && m.pc[t].Scan?
    requires Enabled(m, t, Link)
    ensures h.current > h.mark
    ensures Kept(m, h, t, Link)
  {
    hide Step, Represents;
    assert ThreadOk(m, h, t);
    AtNode(m, h, t);
    var fifo := h.lock.waiting;
    RepresentsLink(m.node, fifo, h.mark, h.current, h.base);
    LinkIs(m, h, t);
    SessionMoveKeeps(m, h, t, LinkOne(m.node, fifo, h.current),
                     Scan(m.pc[t].fair, m.pc[t].w, fifo[h.current - 1]),
                     h.(current := h.current - 1, links := h.links + 1));
  }

  /** The node that a scan has reached. */
  lemma AtNode(m: Mutex, h: Hist, t: Tid)
    requires Inv(m, h) && t < |m.pc| && m.pc[t].Scan?
    ensures h.session == Some(t) && 0 <= h.mark <= h.current <= h.base < |h.lock.waiting|
    ensures m.pc[t].current == h.lock.waiting[h.current] < |m.node|
    ensures m.node[m.pc[t].current].queueTail.None? <==> h.current > h.mark
  {
    assert ThreadOk(m, h, t);
    assert CellOk(m.node, h.lock.waiting, h.mark, h.current, h.base, h.current);
  }

  lemma LinkIs(m: Mutex, h: Hist, t: Tid)
    requires m.Shaped() && Enabled(m, t, Link) && m.pc[t].Scan?
    requires 0 < h.current < |h.lock.waiting| && m.pc[t].current == h.lock.waiting[h.current] < |m.node|
    requires m.node[m.pc[t].current].next == Some(h.lock.waiting[h.current - 1])
    requires h.lock.waiting[h.current - 1] < |m.node|
    ensures Step(m, t, Link) ==
            m.(node := LinkOne(m.node, h.lock.waiting, h.current))
             .Goto(t, Scan(m.pc[t].fair, m.pc[t].w, h.lock.waiting[h.current - 1]))
  {
  }

  /** The first `queue_tail` found is the oldest node; it is copied to the local head. */
  lemma LinkedKeeps(m: Mutex, h: Hist, t: Tid)
    requires Inv(m, h) && t < |m.pc| && m.pc[t].Scan?
    requires Enabled(m, t, Linked)
    ensures h.current == h.mark
    ensures Kept(m, h, t, Linked)
  {
    assert ThreadOk(m, h, t);
    var fifo := h.lock.waiting;
    assert CellOk(m.node, fifo, h.mark, h.current, h.base, h.current);
    RepresentsLinked(m.node, fifo, h.mark, h.base);
    SessionMoveKeeps(m, h, t, MarkHead(m.node, fifo, h.base), Commit(m.pc[t].fair, m.pc[t].w, fifo[0]),
                     h.(mark := h.base, current := h.base));
  }

  /** The word is locked again: the queue bit is released without waking anybody. */
  lemma YieldKeeps(m: Mutex, h: Hist, t: Tid)
    requires Inv(m, h) && t < |m.pc| && m.pc[t].Commit? && !m.pc[t].fair && m.pc[t].w.locked
    requires m.pc[t].w == m.word
    ensures Kept(m, h, t, Yield(true))
  {
    assert ThreadOk(m, h, t);
    var m', h' := Step(m, t, Yield(true)), Track(m, h, t, Yield(true));
    forall u | 0 <= u < |m.pc|
      ensures ThreadOk(m', h', u)
    {
      assert ThreadOk(m, h, u);
    }
    var fifo := h.lock.waiting;
    forall i | 0 <= i < |fifo|
      ensures CellOk(m'.node, fifo, h'.mark, h'.current, h'.base, i)
    {
      assert CellOk(m.node, fifo, h.mark, h.current, h.base, i);
    }
  }

  /** A failed compare-exchange of the queue owner makes it rescan from the actual head. */
  lemma RescanKeeps(m: Mutex, h: Hist, t: Tid, a: Action)
    requires Inv(m, h) && t < |m.pc| && Enabled(m, t, a)
    requires a == Yield(false) || a == CutLast(false)
    requires m.pc[t].Commit? || m.pc[t].Cut?
    ensures m.word.head.Some?
    ensures Kept(m, h, t, a)
  {
    assert ThreadOk(m, h, t);
    var fifo, top := h.lock.waiting, Newest(h);
    forall i | 0 <= i < |fifo|
      ensures CellOk(m.node, fifo, h.mark, top, top, i)
    {
      assert CellOk(m.node, fifo, h.mark, h.current, h.base, i);
    }
    SessionMoveKeeps(m, h, t, m.node, Rescan(m.pc[t].fair, m.word), h.(current := top, base := top));
  }

  /** The oldest node has no `prev`: it is the local head, and the only node known so far. */
  lemma SeeLastKeeps(m: Mutex, h: Hist, t: Tid)
    requires Inv(m, h) && t < |m.pc| && m.pc[t].Commit?
    requires Enabled(m, t, SeeLast)
    ensures h.base == 0
    ensures Kept(m, h, t, SeeLast)
  {
    assert ThreadOk(m, h, t);
    assert CellOk(m.node, h.lock.waiting, h.mark, h.current, h.base, 0);
    SessionMoveKeeps(m, h, t, m.node, Cut(m.pc[t].fair, m.pc[t].w, m.pc[t].tail), h);
  }

  /** The threads still queued once the oldest one is gone. */
  lemma DropOldest(m: Mutex, h: Hist, u: Tid)
    requires Inv(m, h) && h.lock.waiting != []
    ensures u in h.lock.waiting[1..] <==> u in h.lock.waiting && u != h.lock.waiting[0]
  {
    var fifo := h.lock.waiting;
    if u in fifo && u != fifo[0] {
      var i :| 0 <= i < |fifo| && fifo[i] == u;
      assert fifo[1..][i - 1] == u;
    }
  }

  /** The queue owner takes the oldest node off the queue and lets go of the queue bit. */
  lemma RemovalKeeps(m: Mutex, h: Hist, t: Tid, m': Mutex, h': Hist)
    requires Inv(m, h) && t < |m.pc| && (m.pc[t].Commit? || m.pc[t].Cut?)
    requires m.pc[t].tail < |m.pc|
    requires OnlyLinks(h, m.node, m'.node)
    requires m'.pc == m.pc[t := Wake(m.pc[t].fair, m.pc[t].tail)] && m'.notified == m.notified
    requires Allows(h.lock, Removal(m.pc[t], t))
    requires m.pc[t].fair || h.lock.owner.None? || |h.lock.waiting| > 1
    requires h'.session == None && h'.lock == After(h.lock, Removal(m.pc[t], t))
    ensures forall u :: 0 <= u < |m.pc| ==> ThreadOk(m', h', u)
    ensures Attended(m', h')
  {
    assert ThreadOk(m, h, t);
    forall u | 0 <= u < |m.pc|
      ensures ThreadOk(m', h', u)
    {
      assert ThreadOk(m, h, u);
      DropOldest(m, h, u);
    }
    assert Responsible(m', h', m.pc[t].tail);
  }

  /** What the queue owner knows once it has linked the list: its `tail` is the oldest waiter. */
  lemma TailIsOldest(m: Mutex, h: Hist, t: Tid)
    requires Inv(m, h) && t < |m.pc| && (m.pc[t].Commit? || m.pc[t].Cut?)
    ensures m.pc[t].tail < |m.pc|
    ensures Allows(h.lock, Removal(m.pc[t], t))
  {
    assert ThreadOk(m, h, t);
    var fifo := h.lock.waiting;
    assert CellOk(m.node, fifo, h.mark, h.current, h.base, 0);
    assert fifo[0] in fifo && ThreadOk(m, h, fifo[0]);
  }

  /** The oldest node is taken off a queue that has another processed node. */
  lemma TrimKeeps(m: Mutex, h: Hist, t: Tid)
    requires Inv(m, h) && t < |m.pc| && m.pc[t].Commit?
    requires Enabled(m, t, Trim)
    ensures h.base > 0 && m.pc[t].tail == h.lock.waiting[0]
    ensures Kept(m, h, t, Trim)
  {
    assert ThreadOk(m, h, t);
    TailIsOldest(m, h, t);
    var fifo := h.lock.waiting;
    assert CellOk(m.node, fifo, h.mark, h.current, h.base, 0);
    assert CellOk(m.node, fifo, h.mark, h.current, h.base, h.base);
    var node' := TrimHead(m.node, fifo, h.base);
    RepresentsTrim(m.node, fifo, h.base);
    TrimmedKeeps(m, h, t, node');
  }

  /** The state after the queue owner `t` has removed its `tail`, leaving other nodes. */
  function Trimmed(m: Mutex, t: Tid, node': seq<Node>): Mutex
    requires t < |m.pc| && (m.pc[t].Commit? || m.pc[t].Cut?)
  {
    var p := m.pc[t];
    var word := m.word.(queueLocked := false, timeout := m.word.timeout && !p.fair);
    m.(word := word, node := node').Goto(t, Wake(p.fair, p.tail))
  }

  lemma TrimmedKeeps(m: Mutex, h: Hist, t: Tid, node': seq<Node>)
    requires Inv(m, h) && t < |m.pc| && m.pc[t].Commit? && m.pc[t].tail < |m.pc|
    requires Allows(h.lock, Removal(m.pc[t], t)) && h.base > 0
    requires OnlyLinks(h, m.node, node')
    requires Represents(node', h.lock.waiting[1..], h.base - 1, h.base - 1, h.base - 1)
    ensures Inv(Trimmed(m, t, node'),
                h.(lock := After(h.lock, Removal(m.pc[t], t)), session := None,
                   mark := h.base - 1, current := h.base - 1, base := h.base - 1))
  {
    assert ThreadOk(m, h, t);
    var m' := Trimmed(m, t, node');
    var x := h.base - 1;
    var h' := h.(lock := After(h.lock, Removal(m.pc[t], t)), session := None, mark := x, current := x, base := x);
    RemovalKeeps(m, h, t, m', h');
    assert ThreadOk(m, h, m.pc[t].tail);
  }

  /** The last node is taken off the queue, which nobody was pushed onto meanwhile. */
  lemma CutKeeps(m: Mutex, h: Hist, t: Tid)
    requires Inv(m, h) && t < |m.pc| && m.pc[t].Cut? && m.pc[t].w == m.word
    ensures |h.lock.waiting| == 1
    ensures Step(m, t, CutLast(true)).word == if m.pc[t].fair then LOCKED else IDLE
    ensures Kept(m, h, t, CutLast(true))
  {
    assert ThreadOk(m, h, t);
    TailIsOldest(m, h, t);
    RemovalKeeps(m, h, t, Step(m, t, CutLast(true)), Track(m, h, t, CutLast(true)));
    assert ThreadOk(m, h, m.pc[t].tail);
  }

  /** The state after `t` has notified the thread it removed. */
  function Woke(m: Mutex, t: Tid): Mutex
    requires m.Shaped() && t < |m.pc| && m.pc[t].Wake? && m.pc[t].tail < |m.pc|
  {
    var Wake(fair, tail) := m.pc[t];
    m.(node := m.node[tail := m.node[tail].(handoff := m.node[tail].handoff || fair)],
       notified := m.notified[tail := true]).Goto(t, Outside)
  }

  /** The removed node's thread is notified, after the queue bit has been released. */
  lemma WakeKeeps(m: Mutex, h: Hist, t: Tid)
    requires Inv(m, h) && t < |m.pc| && m.pc[t].Wake?
    ensures Kept(m, h, t, Unpark)
  {
    assert ThreadOk(m, h, t);
    var Wake(fair, tail) := m.pc[t];
    RepresentsToken(m.node, h.lock.waiting, h.mark, h.current, h.base, tail, m.node[tail].handoff || fair);
    WokeKeeps(m, h, t, h.(lock := h.lock.Set(tail, Notified(fair))));
  }

  lemma WokeKeeps(m: Mutex, h: Hist, t: Tid, h': Hist)
    requires Inv(m, h) && t < |m.pc| && m.pc[t].Wake? && m.pc[t].tail < |m.pc|
    requires h' == h.(lock := h.lock.Set(m.pc[t].tail, Notified(m.pc[t].fair)))
    requires Represents(Woke(m, t).node, h.lock.waiting, h.mark, h.current, h.base)
    ensures Inv(Woke(m, t), h')
  {
    assert ThreadOk(m, h, t);
    assert ThreadOk(m, h, m.pc[t].tail);
    var m' := Woke(m, t);
    forall u | 0 <= u < |m.pc|
      ensures ThreadOk(m', h', u)
    {
      assert ThreadOk(m, h, u);
    }
    assert Responsible(m', h', m.pc[t].tail);
  }

  /** `try_lock` and the fast path of `lock`. */
  lemma FastKeeps(m: Mutex, h: Hist, t: Tid, a: Action)
    requires Inv(m, h) && Enabled(m, t, a) && m.pc[t].Outside?
    ensures Kept(m, h, t, a)
  {
    if a.ok {
      AcquireKeeps(m, h, t);
    } else if a.LockFast? {
      assert ThreadOk(m, h, t);
      MoveKeeps(m, h, t, Load(false));
    }
  }

  /** Reading the word. */
  lemma LoadKeeps(m: Mutex, h: Hist, t: Tid)
    requires Inv(m, h) && t < |m.pc| && m.pc[t].Load?
    ensures Kept(m, h, t, LoadWord)
  {
    assert ThreadOk(m, h, t);
    MoveKeeps(m, h, t, Loop(m.pc[t].woken, m.word));
  }

  /** Failing to publish. */
  lemma NoPushKeeps(m: Mutex, h: Hist, t: Tid)
    requires Inv(m, h) && t < |m.pc| && m.pc[t].Ready?
    ensures Kept(m, h, t, Push(false))
  {
    assert ThreadOk(m, h, t);
    MoveKeeps(m, h, t, Loop(m.pc[t].woken, m.word));
  }

  lemma LockStepKeeps(m: Mutex, h: Hist, t: Tid, a: Action)
    requires Inv(m, h) && Enabled(m, t, a)
    requires m.pc[t].Outside? || m.pc[t].Load? || m.pc[t].Ready?
    ensures Kept(m, h, t, a)
  {
    hide Inv, Kept;
    if m.pc[t].Outside? { FastKeeps(m, h, t, a); }
    else if m.pc[t].Load? { LoadKeeps(m, h, t); }
    else if a.ok { PushKeeps(m, h, t); }
    else { NoPushKeeps(m, h, t); }
  }

  lemma LoopStepKeeps(m: Mutex, h: Hist, t: Tid, a: Action)
    requires Inv(m, h) && Enabled(m, t, a) && m.pc[t].Loop?
    ensures Kept(m, h, t, a)
  {
    assert ThreadOk(m, h, t);
    var Loop(woken, w) := m.pc[t];
    if a.Prepare? { PrepareKeeps(m, h, t); }
    else if a.Spin? { MoveKeeps(m, h, t, Load(woken)); }
    else if a.ok { AcquireKeeps(m, h, t); }
    else { MoveKeeps(m, h, t, Loop(woken, m.word)); }
  }

  lemma UnlockStepKeeps(m: Mutex, h: Hist, t: Tid, a: Action)
    requires Inv(m, h) && Enabled(m, t, a)
    requires m.pc[t].Holding? || m.pc[t].Lapsed?
    ensures Kept(m, h, t, a)
  {
    if a.UnlockFair? && a.fired { FireKeeps(m, h, t); } else { ReleaseKeeps(m, h, t); }
  }

  lemma GiveUpKeeps(m: Mutex, h: Hist, t: Tid)
    requires Inv(m, h) && Enabled(m, t, GiveUp)
    ensures Kept(m, h, t, GiveUp)
  {
    assert ThreadOk(m, h, t);
    MoveKeeps(m, h, t, Outside);
  }

  lemma SpinQueueKeeps(m: Mutex, h: Hist, t: Tid)
    requires Inv(m, h) && Enabled(m, t, SpinQueue)
    ensures Kept(m, h, t, SpinQueue)
  {
    assert ThreadOk(m, h, t);
    MoveKeeps(m, h, t, Seek(m.pc[t].fair));
  }

  lemma NoTakeKeeps(m: Mutex, h: Hist, t: Tid)
    requires Inv(m, h) && Enabled(m, t, TakeQueue(false))
    ensures Kept(m, h, t, TakeQueue(false))
  {
    assert ThreadOk(m, h, t);
    MoveKeeps(m, h, t, Take(m.pc[t].fair, m.word));
  }

  lemma TakeStepKeeps(m: Mutex, h: Hist, t: Tid, a: Action)
    requires Inv(m, h) && Enabled(m, t, a) && m.pc[t].Take?
    ensures Kept(m, h, t, a)
  {
    hide Inv, Kept;
    if a.GiveUp? { GiveUpKeeps(m, h, t); }
    else if a.SpinQueue? { SpinQueueKeeps(m, h, t); }
    else if a.ok { TakeKeeps(m, h, t); }
    else { NoTakeKeeps(m, h, t); }
  }

  lemma SessionStepKeeps(m: Mutex, h: Hist, t: Tid, a: Action)
    requires Inv(m, h) && Enabled(m, t, a)
    requires SessionPc(m.pc[t])
    ensures Kept(m, h, t, a)
  {
    match m.pc[t]
    case Scan(_, _, _) => if a.Link? { LinkKeeps(m, h, t); } else { LinkedKeeps(m, h, t); }
    case Commit(_, _, _) =>
      if a.Trim? { TrimKeeps(m, h, t); }
      else if a.SeeLast? { SeeLastKeeps(m, h, t); }
      else if a.ok { YieldKeeps(m, h, t); }
      else { RescanKeeps(m, h, t, a); }
    case Cut(_, _, _) => if a.ok { CutKeeps(m, h, t); } else { RescanKeeps(m, h, t, a); }
  }

  /** The invariant is inductive, and every step is one the abstract lock allows. */
  lemma StepKeeps(m: Mutex, h: Hist, t: Tid, a: Action)
    requires Inv(m, h) && Enabled(m, t, a)
    ensures Kept(m, h, t, a)
  {
    assert ThreadOk(m, h, t);
    var p := m.pc[t];
    if SessionPc(p) { SessionStepKeeps(m, h, t, a); }
    else if p.Take? { TakeStepKeeps(m, h, t, a); }
    else if p.Seek? { MoveKeeps(m, h, t, Take(p.fair, m.word)); }
    else if p.Wake? { WakeKeeps(m, h, t); }
    else if p.Holding? || p.Lapsed? { UnlockStepKeeps(m, h, t, a); }
    else if p.Loop? { LoopStepKeeps(m, h, t, a); }
    else if p.Parked? { ReturnKeeps(m, h, t); }
    else if p.Published? { MoveKeeps(m, h, t, Parked); }
    else { LockStepKeeps(m, h, t, a); }
  }
}
