/**
 The queue owner's work on the heap: `ThreadData` objects whose cells are
 written in place, proved to make exactly the pointer updates that the
 transition system makes on its node table.
 */
module QueueNodes {
  import opened Wrappers
  import opened Threads
  import opened MutexSpec
  import opened RawMutex
  import opened NodeList

  /** The source's `ThreadData`; `token` is the token of its parker, which is not part of the list. */
  class ThreadData {
    var queueTail: ThreadData?
    var prev: ThreadData?
    var next: ThreadData?
    var handoff: bool
    var token: bool

    constructor ()
      ensures queueTail == prev == next == null && !handoff && !token
    {
      queueTail, prev, next, handoff, token := null, null, null, false, false;
    }
  }

  predicate Names(heap: seq<ThreadData>, r: ThreadData?, o: Option<Tid>) {
    if o.None? then r == null else o.value < |heap| && r == heap[o.value]
  }

  predicate CellMirrors(heap: seq<ThreadData>, d: ThreadData, n: Node)
    reads d
  {
    && Names(heap, d.queueTail, n.queueTail)
    && Names(heap, d.prev, n.prev)
    && Names(heap, d.next, n.next)
    && d.handoff == n.handoff
  }

  /** The objects hold, cell by cell, what the node table says. */
  ghost predicate Mirrors(heap: seq<ThreadData>, node: seq<Node>)
    reads heap
  {
    && |heap| == |node|
    && (forall t, u :: 0 <= t < u < |heap| ==> heap[t] != heap[u])
    && (forall t :: 0 <= t < |heap| ==> CellMirrors(heap, heap[t], node[t]))
  }

  /** `Cell::set` on a `prev` pointer. */
  method SetPrev(d: ThreadData, v: ThreadData, ghost heap: seq<ThreadData>, ghost node: seq<Node>,
                 ghost t: Tid, ghost u: Tid)
    requires Mirrors(heap, node) && t < |heap| && u < |heap| && d == heap[t] && v == heap[u]
    modifies d`prev
    ensures Mirrors(heap, node[t := node[t].(prev := Some(u))])
  {
    d.prev := v;
    ghost var node' := node[t := node[t].(prev := Some(u))];
    forall x | 0 <= x < |heap|
      ensures CellMirrors(heap, heap[x], node'[x])
    {
      assert old(CellMirrors(heap, heap[x], node[x]));
    }
  }

  /** `Cell::set` on a `queue_tail` pointer. */
  method SetQueueTail(d: ThreadData, v: ThreadData, ghost heap: seq<ThreadData>, ghost node: seq<Node>,
                      ghost t: Tid, ghost u: Tid)
    requires Mirrors(heap, node) && t < |heap| && u < |heap| && d == heap[t] && v == heap[u]
    modifies d`queueTail
    ensures Mirrors(heap, node[t := node[t].(queueTail := Some(u))])
  {
    d.queueTail := v;
    ghost var node' := node[t := node[t].(queueTail := Some(u))];
    forall x | 0 <= x < |heap|
      ensures CellMirrors(heap, heap[x], node'[x])
    {
      assert old(CellMirrors(heap, heap[x], node[x]));
    }
  }

  /** The node table after the iterations of `link_prev_nodes!` from position `current` down to `mark`. */
  function LinkAll(node: seq<Node>, fifo: seq<Tid>, mark: nat, current: int): seq<Node>
    decreases current - mark
  {
    if mark < current < |fifo| && fifo[current - 1] < |node|
    then LinkAll(LinkOne(node, fifo, current), fifo, mark, current - 1)
    else node
  }

  /** However many nodes were pushed since the last scan, linking makes the whole list below `base` right. */
  lemma {:induction false} LinkAllRepresents(node: seq<Node>, fifo: seq<Tid>, mark: nat, current: int, base: int)
    requires Represents(node, fifo, mark, current, base)
    ensures |LinkAll(node, fifo, mark, current)| == |node|
    ensures Represents(LinkAll(node, fifo, mark, current), fifo, mark, mark, base)
    decreases current - mark
  {
    if current > mark {
      RepresentsLink(node, fifo, mark, current, base);
      LinkAllRepresents(LinkOne(node, fifo, current), fifo, mark, current - 1, base);
    }
  }

  /** What the scan sees in the node at position `c`: the way on, or the oldest node. */
  lemma Sees(heap: seq<ThreadData>, node: seq<Node>, fifo: seq<Tid>, mark: nat, c: int, base: int)
    requires Mirrors(heap, node) && Represents(node, fifo, mark, c, base) && fifo != []
    ensures fifo[c] < |heap| && fifo[0] < |heap|
    ensures heap[fifo[c]].queueTail == null <==> c > mark
    ensures c > mark ==> fifo[c - 1] < |heap| && heap[fifo[c]].next == heap[fifo[c - 1]]
    ensures c == mark ==> heap[fifo[c]].queueTail == heap[fifo[0]]
  {
    assert CellOk(node, fifo, mark, c, base, c);
    assert CellOk(node, fifo, mark, c, base, 0);
    assert CellMirrors(heap, heap[fifo[c]], node[fifo[c]]);
    if c > mark {
      RepresentsLink(node, fifo, mark, c, base);
    }
  }

  /** `current` is the node at position `c`; its `queue_tail` is null until `mark` is reached. */
  ghost predicate Arrived(heap: seq<ThreadData>, fifo: seq<Tid>, mark: nat, c: int, current: ThreadData)
    requires 0 <= c < |fifo|
    reads current
  {
    && fifo[0] < |heap| && fifo[c] < |heap| && current == heap[fifo[c]]
    && (current.queueTail == null <==> c > mark)
    && (c == mark ==> current.queueTail == heap[fifo[0]])
  }

  /** The body of `link_prev_nodes!` for a node without `queue_tail`. */
  method LinkNext(current: ThreadData, ghost heap: seq<ThreadData>, ghost node: seq<Node>,
                  ghost fifo: seq<Tid>, ghost mark: nat, ghost c: int, ghost base: int)
    returns (next: ThreadData)
    requires Mirrors(heap, node) && Represents(node, fifo, mark, c, base) && c > mark
    requires fifo[c] < |heap| && current == heap[fifo[c]]
    modifies heap`prev
    ensures fifo[c - 1] < |heap| && next == heap[fifo[c - 1]]
    ensures Mirrors(heap, LinkOne(node, fifo, c)) && Represents(LinkOne(node, fifo, c), fifo, mark, c - 1, base)
    ensures LinkAll(LinkOne(node, fifo, c), fifo, mark, c - 1) == LinkAll(node, fifo, mark, c)
    ensures Arrived(heap, fifo, mark, c - 1, next)
  {
    Sees(heap, node, fifo, mark, c, base);
    RepresentsLink(node, fifo, mark, c, base);
    next := current.next;
    SetPrev(next, current, heap, node, fifo[c - 1], fifo[c]);
    Sees(heap, LinkOne(node, fifo, c), fifo, mark, c - 1, base);
  }

  /**
   `link_prev_nodes!`: finds the oldest node from the local head at position
   `base`, in exactly as many iterations as there are nodes above `mark`.
   */
  method LinkPrevNodes(queueHead: ThreadData, ghost heap: seq<ThreadData>, ghost node: seq<Node>,
                       ghost fifo: seq<Tid>, ghost mark: nat, ghost base: int)
    returns (queueTail: ThreadData, ghost iterations: int)
    requires Mirrors(heap, node) && Represents(node, fifo, mark, base, base) && fifo != []
    requires fifo[base] < |heap| && queueHead == heap[fifo[base]]
    modifies heap`prev
    ensures Mirrors(heap, LinkAll(node, fifo, mark, base))
    ensures fifo[0] < |heap| && queueTail == heap[fifo[0]]
    ensures iterations == base - mark
  {
    hide Mirrors, LinkOne;
    var current := queueHead;
    iterations := 0;
    ghost var table, c := node, base;
    Sees(heap, table, fifo, mark, c, base);
    while current.queueTail == null
      invariant Mirrors(heap, table) && Represents(table, fifo, mark, c, base)
      invariant mark <= c < |fifo| && Arrived(heap, fifo, mark, c, current)
      invariant LinkAll(table, fifo, mark, c) == LinkAll(node, fifo, mark, base)
      invariant iterations == base - c
      decreases c
    {
      RepresentsLink(table, fifo, mark, c, base);
      current := LinkNext(current, heap, table, fifo, mark, c, base);
      table, c := LinkOne(table, fifo, c), c - 1;
      iterations := iterations + 1;
    }
    queueTail := current.queueTail;
  }

  /**
   One pass of the loop that `unlock_slow` and `unlock_slow_fair` share, up to
   the decision: link, mark the local head, and look for the node above the tail.
   Without one the tail is the local head and nothing is removed; otherwise the
   head's `queue_tail` moves on, and the list represents the queue without its
   oldest node.
   */
  method TakeOldest(queueHead: ThreadData, ghost heap: seq<ThreadData>, ghost node: seq<Node>,
                    ghost fifo: seq<Tid>, ghost mark: nat, ghost base: int)
    returns (queueTail: ThreadData, last: bool, ghost node': seq<Node>)
    requires Mirrors(heap, node) && Represents(node, fifo, mark, base, base) && fifo != []
    requires fifo[base] < |heap| && queueHead == heap[fifo[base]]
    modifies heap`prev, heap`queueTail
    ensures fifo[0] < |heap| && queueTail == heap[fifo[0]]
    ensures last <==> base == 0
    ensures Mirrors(heap, node')
    ensures last ==> Represents(node', fifo, 0, 0, 0) && queueTail == queueHead
    ensures !last ==> Represents(node', fifo[1..], base - 1, base - 1, base - 1)
    ensures var linked := LinkAll(node, fifo, mark, base);
            && fifo[base] < |linked| == |node|
            && var marked := MarkHead(linked, fifo, base);
            && (base > 0 ==> fifo[1] < |marked|)
            && node' == if base == 0 then marked else TrimHead(marked, fifo, base)
  {
    ghost var iterations;
    queueTail, iterations := LinkPrevNodes(queueHead, heap, node, fifo, mark, base);
    node' := LinkAll(node, fifo, mark, base);
    LinkAllRepresents(node, fifo, mark, base, base);
    RepresentsLinked(node', fifo, mark, base);
    SetQueueTail(queueHead, queueTail, heap, node', fifo[base], fifo[0]);
    node' := MarkHead(node', fifo, base);

    assert CellMirrors(heap, heap[fifo[0]], node'[fifo[0]]);
    assert CellOk(node', fifo, base, base, base, 0);
    var newTail := queueTail.prev;
    last := newTail == null;
    if !last {
      RepresentsTrim(node', fifo, base);
      SetQueueTail(queueHead, newTail, heap, node', fifo[base], fifo[1]);
      node' := TrimHead(node', fifo, base);
    }
  }

  /** `park!` fills in the thread's own node for a head it has read. */
  method PrepareNode(threadData: ThreadData, queueHead: ThreadData?, ghost heap: seq<ThreadData>,
                     ghost node: seq<Node>, ghost t: Tid, ghost w: Word)
    requires Mirrors(heap, node) && t < |heap| && threadData == heap[t] && Names(heap, queueHead, w.head)
    modifies threadData`queueTail, threadData`prev, threadData`next, threadData`handoff
    ensures Mirrors(heap, node[t := Prepared(node[t], t, w)])
  {
    threadData.handoff := false;
    if queueHead == null {
      threadData.queueTail := threadData;
      threadData.prev := null;
    } else {
      threadData.queueTail := null;
      threadData.prev := null;
      threadData.next := queueHead;
    }
    ghost var node' := node[t := Prepared(node[t], t, w)];
    forall u | 0 <= u < |heap|
      ensures CellMirrors(heap, heap[u], node'[u])
    {
      assert old(CellMirrors(heap, heap[u], node[u]));
    }
  }
}
