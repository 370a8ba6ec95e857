/**
 The walk of `unpark_all` along the `next` pointers of the list it has cut, on
 the nodes themselves. A waiter's node may be gone as soon as it is unparked, so
 the walk may not look at a node after that.
 */
module CutList {
  import opened Threads
  import opened Wrappers
  import opened QueueNodes
  import opened WaitGroup
  import opened WaitGroupList

  /** From `head`, the `next` pointers lead through the nodes of `list`, newest first, and end there. */
  ghost predicate Chained(heap: seq<ThreadData>, list: seq<Tid>, head: ThreadData?)
    reads heap`next
  {
    if list == [] then head == null
    else
      var last := |list| - 1;
      && list[last] < |heap| && head == heap[list[last]]
      && Chained(heap, list[..last], heap[list[last]].next)
  }

  /** No two threads share a node. */
  ghost predicate Apart(heap: seq<ThreadData>) {
    forall t, u :: 0 <= t < u < |heap| ==> heap[t] != heap[u]
  }

  lemma OnlyOne(heap: seq<ThreadData>, t: Tid)
    requires Apart(heap) && t < |heap|
    ensures forall u: Tid :: u < |heap| && u != t ==> heap[u] != heap[t]
  {
  }

  function NewestFirst(list: seq<Tid>): seq<Tid> {
    if list == [] then [] else [list[|list| - 1]] + NewestFirst(list[..|list| - 1])
  }

  /** The nodes of `list` are all still there. */
  ghost predicate Untouched(heap: seq<ThreadData>, list: seq<Tid>, gone: set<ThreadData>) {
    forall i :: 0 <= i < |list| && list[i] < |heap| ==> heap[list[i]] !in gone
  }

  lemma NothingGone(heap: seq<ThreadData>, list: seq<Tid>)
    ensures Untouched(heap, list, {})
  {
  }

  lemma StillUntouched(heap: seq<ThreadData>, list: seq<Tid>, gone: set<ThreadData>)
    requires Apart(heap) && Distinct(list) && list != [] && Untouched(heap, list, gone)
    requires list[|list| - 1] < |heap|
    ensures Untouched(heap, list[..|list| - 1], gone + {heap[list[|list| - 1]]})
    ensures heap[list[|list| - 1]] !in gone && Distinct(list[..|list| - 1])
  {
  }

  /** `(*queue_head).next.get()`, on a node that is still there. */
  method ReadNext(node: ThreadData, ghost gone: set<ThreadData>) returns (next: ThreadData?)
    requires node !in gone
    ensures next == node.next
  {
    next := node.next;
  }

  /** `(*queue_head).parker.unpark()`, after which the node may be gone. */
  method Unpark(node: ThreadData, ghost gone: set<ThreadData>) returns (ghost gone': set<ThreadData>)
    requires node !in gone
    modifies node`token
    ensures node.token && gone' == gone + {node}
  {
    node.token := true;
    gone' := gone + {node};
  }

  /** The parkers of the threads of `list` have their tokens, and the other parkers are as before. */
  twostate predicate Unparked(heap: seq<ThreadData>, list: seq<Tid>)
    reads heap
  {
    forall t: Tid :: t < |heap| ==> heap[t].token == (old(heap[t].token) || t in list)
  }

  /**
   Every node of the cut list is unparked once, newest first, and none is touched
   after that; no other node is unparked.
   */
  method UnparkAll(queueHead: ThreadData?, ghost heap: seq<ThreadData>, ghost list: seq<Tid>)
    returns (ghost unparked: seq<Tid>)
    requires Apart(heap) && Distinct(list) && Chained(heap, list, queueHead)
    modifies heap`token
    ensures Unparked(heap, list)
    ensures unparked == NewestFirst(list)
  {
    hide Untouched, Distinct, Apart;
    var head := queueHead;
    ghost var rest: seq<Tid>, gone: set<ThreadData> := list, {};
    NothingGone(heap, list);
    unparked := [];
    while head != null
      invariant Chained(heap, rest, head) && Distinct(rest)
      invariant unparked + NewestFirst(rest) == NewestFirst(list)
      invariant Untouched(heap, rest, gone)
      invariant Unparked(heap, unparked)
      decreases |rest|
    {
      ghost var last := |rest| - 1;
      ghost var t := rest[last];
      StillUntouched(heap, rest, gone);
      OnlyOne(heap, t);
      assert unparked + NewestFirst(rest) == (unparked + [t]) + NewestFirst(rest[..last]);
      var newHead := ReadNext(head, gone);
      gone := Unpark(head, gone);
      unparked, rest, head := unparked + [t], rest[..last], newHead;
    }
    OnceEach(list);
  }

  /** A thread is in that order once, exactly if it is in the list. */
  lemma {:induction false} OnceEach(list: seq<Tid>)
    requires Distinct(list)
    ensures Distinct(NewestFirst(list))
    ensures forall t :: t in NewestFirst(list) <==> t in list
  {
    if list != [] {
      var last := |list| - 1;
      OnceEach(list[..last]);
      assert list == list[..last] + [list[last]];
      assert list[last] !in list[..last];
    }
  }

  /** Publishing a node on a chained list, as `park` does, chains one more node. */
  lemma PublishedIsChained(heap: seq<ThreadData>, list: seq<Tid>, head: ThreadData?, t: Tid)
    requires Chained(heap, list, head) && t < |heap| && heap[t].next == head
    ensures Chained(heap, list + [t], heap[t])
  {
    assert (list + [t])[..|list|] == list;
  }

  // ---------- the lists of the wait group ----------

  function NodeOf(heap: seq<ThreadData>, o: Option<Tid>): ThreadData?
    requires o.Some? ==> o.value < |heap|
  {
    if o.None? then null else heap[o.value]
  }

  /** The nodes hold the `next` pointers of the transition system. */
  ghost predicate HoldsNext(heap: seq<ThreadData>, next: seq<Option<Tid>>)
    reads heap`next
  {
    |heap| == |next| && forall t :: 0 <= t < |heap| ==> Names(heap, heap[t].next, next[t])
  }

  lemma {:induction false} LinkedIsChained(heap: seq<ThreadData>, next: seq<Option<Tid>>, list: seq<Tid>)
    requires HoldsNext(heap, next) && Linked(next, list)
    ensures list != [] ==> list[|list| - 1] < |heap|
    ensures Chained(heap, list, NodeOf(heap, Newest(list)))
  {
    if list != [] {
      var last := |list| - 1;
      LinkedPrefix(next, list, last);
      LinkedIsChained(heap, next, list[..last]);
      assert list == list[..last] + [list[last]];
      PublishedIsChained(heap, list[..last], NodeOf(heap, Newest(list[..last])), list[last]);
    }
  }

  /** In every run, what the finishing worker has cut is a list that `UnparkAll` can walk from its newest node. */
  lemma CutIsChained(run: seq<Action>, s: Group, f: Tid, heap: seq<ThreadData>)
    requires Reaches(run, s) && HoldsNext(heap, s.next)
    requires f < |s.pc| && (s.pc[f].HasCut? || s.pc[f].Walking?)
    ensures var rest := s.pc[f].rest;
            && Distinct(rest)
            && (rest != [] ==> rest[|rest| - 1] < |heap|)
            && Chained(heap, rest, NodeOf(heap, Newest(rest)))
  {
    Reachable(run, s);
    PointersAreLists(run, s);
    assert ThreadOk(s, f);
    assert Rest(s) == s.pc[f].rest;
    LinkedIsChained(heap, s.next, s.pc[f].rest);
  }
}
