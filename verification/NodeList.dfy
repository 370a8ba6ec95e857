/**
 The intrusive list of `ThreadData` nodes as a representation of a first-in
 first-out queue, and what each pointer update of the source does to it.
 Positions count from the oldest node; `mark` is the newest position whose
 `queue_tail` is set, and `prev` is right from there down and from `base` down
 to `current`.
 */
module NodeList {
  import opened Wrappers
  import opened Threads
  import opened MutexSpec
  import opened RawMutex

  /** Where the three pointers of the node at position `i` must point. */
  predicate CellOk(node: seq<Node>, fifo: seq<Tid>, mark: int, current: int, base: int, i: int)
    requires 0 <= i < |fifo|
  {
    && fifo[i] < |node|
    && var n := node[fifo[i]];
    && (i > 0 ==> n.next == Some(fifo[i - 1]))
    && n.prev == (if (i < mark || current <= i < base) && i + 1 < |fifo| then Some(fifo[i + 1]) else None)
    && (i == mark ==> n.queueTail == Some(fifo[0]))
    && (i > mark ==> n.queueTail == None)
  }

  /** The intrusive list that starts at the word's head represents `fifo`, oldest node first. */
  predicate Represents(node: seq<Node>, fifo: seq<Tid>, mark: int, current: int, base: int) {
    && Distinct(fifo)
    && (if fifo == [] then mark == current == base == 0 else 0 <= mark <= current <= base < |fifo|)
    && (forall i :: 0 <= i < |fifo| ==> CellOk(node, fifo, mark, current, base, i))
  }

  /** A prepared node becomes the newest one. */
  lemma RepresentsPush(node: seq<Node>, fifo: seq<Tid>, t: Tid, mark: int, current: int, base: int)
    requires Represents(node, fifo, mark, current, base)
    requires t < |node| && t !in fifo
    requires fifo == [] ==> node[t].queueTail == Some(t) && node[t].prev == None
    requires fifo != [] ==> node[t].queueTail == None && node[t].prev == None && node[t].next == Some(fifo[|fifo| - 1])
    ensures Represents(node, fifo + [t], mark, current, base)
  {
    forall i | 0 <= i < |fifo|
      ensures CellOk(node, fifo + [t], mark, current, base, i)
    {
      assert CellOk(node, fifo, mark, current, base, i);
    }
  }

  /** `(*next).prev = current`, from position `current`. */
  function LinkOne(node: seq<Node>, fifo: seq<Tid>, current: int): seq<Node>
    requires 0 < current < |fifo| && fifo[current - 1] < |node|
  {
    node[fifo[current - 1] := node[fifo[current - 1]].(prev := Some(fifo[current]))]
  }

  lemma RepresentsLink(node: seq<Node>, fifo: seq<Tid>, mark: int, current: int, base: int)
    requires Represents(node, fifo, mark, current, base) && mark < current
    ensures fifo[current] < |node| && node[fifo[current]].next == Some(fifo[current - 1])
    ensures fifo[current - 1] < |node| && fifo[base] < |node|
    ensures Represents(LinkOne(node, fifo, current), fifo, mark, current - 1, base)
  {
    var x := current - 1;
    assert CellOk(node, fifo, mark, current, base, current);
    assert CellOk(node, fifo, mark, current, base, x);
    assert CellOk(node, fifo, mark, current, base, base);
    forall i | 0 <= i < |fifo|
      ensures CellOk(LinkOne(node, fifo, current), fifo, mark, x, base, i)
    {
      assert CellOk(node, fifo, mark, current, base, i);
    }
  }

  /** `(*queue_head).queue_tail = queue_tail`, once the whole list below `base` is linked. */
  function MarkHead(node: seq<Node>, fifo: seq<Tid>, base: int): seq<Node>
    requires 0 <= base < |fifo| && fifo[base] < |node|
  {
    node[fifo[base] := node[fifo[base]].(queueTail := Some(fifo[0]))]
  }

  lemma RepresentsLinked(node: seq<Node>, fifo: seq<Tid>, mark: int, base: int)
    requires Represents(node, fifo, mark, mark, base) && fifo != []
    ensures fifo[mark] < |node| && node[fifo[mark]].queueTail == Some(fifo[0])
    ensures fifo[base] < |node|
    ensures Represents(MarkHead(node, fifo, base), fifo, base, base, base)
  {
    assert CellOk(node, fifo, mark, mark, base, mark);
    assert CellOk(node, fifo, mark, mark, base, base);
    forall i | 0 <= i < |fifo|
      ensures CellOk(MarkHead(node, fifo, base), fifo, base, base, base, i)
    {
      assert CellOk(node, fifo, mark, mark, base, i);
    }
  }

  /** `(*queue_head).queue_tail = new_tail`: the oldest node is dropped. */
  function TrimHead(node: seq<Node>, fifo: seq<Tid>, base: int): seq<Node>
    requires 0 < base < |fifo| && fifo[base] < |node|
  {
    node[fifo[base] := node[fifo[base]].(queueTail := Some(fifo[1]))]
  }

  lemma RepresentsTrim(node: seq<Node>, fifo: seq<Tid>, base: int)
    requires Represents(node, fifo, base, base, base) && 0 < base
    ensures fifo[base] < |node| && fifo[0] < |node| && node[fifo[0]].prev == Some(fifo[1])
    ensures Represents(TrimHead(node, fifo, base), fifo[1..], base - 1, base - 1, base - 1)
  {
    assert CellOk(node, fifo, base, base, base, base);
    assert CellOk(node, fifo, base, base, base, 0);
    var fifo', base' := fifo[1..], base - 1;
    forall i | 0 <= i < |fifo'|
      ensures CellOk(TrimHead(node, fifo, base), fifo', base', base', base', i)
    {
      assert CellOk(node, fifo, base, base, base, i + 1);
    }
  }

  /** The list does not depend on the hand-off tokens. */
  lemma RepresentsToken(node: seq<Node>, fifo: seq<Tid>, mark: int, current: int, base: int, t: Tid, handoff: bool)
    requires Represents(node, fifo, mark, current, base) && t < |node|
    ensures Represents(node[t := node[t].(handoff := handoff)], fifo, mark, current, base)
  {
    var node' := node[t := node[t].(handoff := handoff)];
    forall i | 0 <= i < |fifo|
      ensures CellOk(node', fifo, mark, current, base, i)
    {
      assert CellOk(node, fifo, mark, current, base, i);
    }
  }
}
