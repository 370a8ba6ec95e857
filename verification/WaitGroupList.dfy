/**
 The `next` pointers of the wait group's nodes, in every run: they lead through
 the list from its newest node to its oldest, and through what the finishing
 worker has cut and not unparked yet.
 */
module WaitGroupList {
  import opened Wrappers
  import opened Threads
  import opened WaitGroup

  /** From the newest node of `list`, the `next` pointers lead through all of it and end at the oldest. */
  predicate Linked(next: seq<Option<Tid>>, list: seq<Tid>) {
    forall i :: 0 <= i < |list| ==> list[i] < |next| && next[list[i]] == Newest(list[..i])
  }

  predicate NodesOk(s: Group)
    requires s.Shaped()
  {
    && Linked(s.next, s.list)
    && Linked(s.next, Rest(s))
    && (forall t :: 0 <= t < |s.pc| && s.pc[t].Prepared? ==> s.next[t] == s.pc[t].head)
  }

  /** Nodes outside the list do not matter to it. */
  lemma LinkedFrame(next: seq<Option<Tid>>, next': seq<Option<Tid>>, list: seq<Tid>)
    requires Linked(next, list) && |next'| == |next|
    requires forall u :: u in list && u < |next| ==> next'[u] == next[u]
    ensures Linked(next', list)
  {
    forall i | 0 <= i < |list|
      ensures list[i] < |next'| && next'[list[i]] == Newest(list[..i])
    {
      assert list[i] in list;
    }
  }

  lemma LinkedPush(next: seq<Option<Tid>>, list: seq<Tid>, t: Tid)
    requires Linked(next, list) && t < |next| && next[t] == Newest(list)
    ensures Linked(next, list + [t])
  {
    forall i | 0 <= i <= |list|
      ensures next[(list + [t])[i]] == Newest((list + [t])[..i])
    {
      assert (list + [t])[..i] == list[..i];
      assert list[..|list|] == list;
    }
  }

  lemma LinkedPrefix(next: seq<Option<Tid>>, list: seq<Tid>, n: nat)
    requires Linked(next, list) && n <= |list|
    ensures Linked(next, list[..n])
  {
    forall i | 0 <= i < n
      ensures next[list[..n][i]] == Newest(list[..n][..i])
    {
      assert list[..n][..i] == list[..i];
    }
  }

  lemma {:induction false} RemoveAt(list: seq<Tid>, t: Tid) returns (k: nat)
    requires Distinct(list) && t in list
    ensures k < |list| && list[k] == t && Remove(list, t) == list[..k] + list[k + 1..]
  {
    var last := |list| - 1;
    if list[last] == t {
      k := last;
    } else {
      assert t in list[..last];
      k := RemoveAt(list[..last], t);
      assert list[k + 1..] == list[..last][k + 1..] + [list[last]];
    }
  }

  /** Unlinking a node from the middle leaves the others linked. */
  lemma LinkedRemove(next: seq<Option<Tid>>, list: seq<Tid>, t: Tid)
    requires Linked(next, list) && Distinct(list) && t in list && t < |next|
    ensures Linked(Unlink(next, list, t), Remove(list, t))
  {
    hide Linked, Distinct, Unlink, Remove, Newest;
    var k := RemoveAt(list, t);
    var next', shorter := Unlink(next, list, t), Remove(list, t);
    forall i | 0 <= i < |shorter|
      ensures shorter[i] < |next'| && next'[shorter[i]] == Newest(shorter[..i])
    {
      if i < k { UnlinkBelow(next, list, t, k, i); } else { UnlinkAbove(next, list, t, k, i); }
    }
    LinkedIf(next', shorter);
  }

  lemma LinkedIf(next: seq<Option<Tid>>, list: seq<Tid>)
    requires forall i :: 0 <= i < |list| ==> list[i] < |next| && next[list[i]] == Newest(list[..i])
    ensures Linked(next, list)
  {
  }

  /** Nodes older than the one unlinked. */
  lemma UnlinkBelow(next: seq<Option<Tid>>, list: seq<Tid>, t: Tid, k: nat, i: nat)
    requires Linked(next, list) && Distinct(list) && i < k < |list| && list[k] == t < |next|
    ensures var shorter := list[..k] + list[k + 1..];
            shorter[i] < |next| && Unlink(next, list, t)[shorter[i]] == Newest(shorter[..i])
  {
    var shorter := list[..k] + list[k + 1..];
    assert shorter[i] == list[i] && shorter[..i] == list[..i];
    assert i > 0 ==> list[i - 1] != list[k];
  }

  /** Nodes newer than the one unlinked: the first of them takes over its `next`. */
  lemma UnlinkAbove(next: seq<Option<Tid>>, list: seq<Tid>, t: Tid, k: nat, i: nat)
    requires Linked(next, list) && Distinct(list) && k <= i < |list| - 1 && list[k] == t < |next|
    ensures var shorter := list[..k] + list[k + 1..];
            shorter[i] < |next| && Unlink(next, list, t)[shorter[i]] == Newest(shorter[..i])
  {
    var shorter := list[..k] + list[k + 1..];
    var u := list[i + 1];
    assert shorter[i] == u && u in list;
    assert next[u] == Some(list[i]);
    if i == k {
      assert shorter[..k] == list[..k];
    } else {
      assert list[i] != list[k];
      assert shorter[..i][i - 1] == list[i];
    }
  }

  lemma NodesKeep(s: Group, a: Action)
    requires Inv(s) && NodesOk(s) && Enabled(s, a)
    ensures NodesOk(Step(s, a))
  {
    match a
    case Load(t) => LoadKeeps(s, t);
    case Push(t, ok) => if ok { PublishKeeps(s, t); } else { QuietKeeps(s, a); }
    case Abort(t, remove) => if remove { AbortKeeps(s, t); } else { QuietKeeps(s, a); }
    case Cut(_, ok) => if ok { TakeKeeps(s, a); } else { QuietKeeps(s, a); }
    case Recut(_, ok) => if ok { TakeKeeps(s, a); } else { QuietKeeps(s, a); }
    case UnparkOne(f) => WalkKeeps(s, f);
    case _ => QuietKeeps(s, a);
  }

  /** The steps that change neither the list, the nodes nor what has been cut. */
  lemma QuietKeeps(s: Group, a: Action)
    requires Inv(s) && NodesOk(s) && Enabled(s, a)
    requires !a.Load? && !a.UnparkOne? && !((a.Push? || a.Cut? || a.Recut?) && a.ok) && !(a.Abort? && a.remove)
    ensures NodesOk(Step(s, a))
  {
    hide Linked, Inv;
    SameRest(s, a);
  }

  lemma SameRest(s: Group, a: Action)
    requires Inv(s) && Enabled(s, a)
    requires !a.UnparkOne? && !((a.Cut? || a.Recut?) && a.ok)
    ensures Rest(Step(s, a)) == Rest(s)
  {
    if !a.Add? {
      assert ThreadOk(s, a.t);
    }
  }

  lemma LoadKeeps(s: Group, t: Tid)
    requires Inv(s) && NodesOk(s) && Enabled(s, Load(t))
    ensures NodesOk(Step(s, Load(t)))
  {
    assert ThreadOk(s, t) && !Listed(s, t);
    var s' := Step(s, Load(t));
    SameRest(s, Load(t));
    LinkedFrame(s.next, s'.next, s.list);
    LinkedFrame(s.next, s'.next, Rest(s));
  }

  lemma PublishKeeps(s: Group, t: Tid)
    requires Inv(s) && NodesOk(s) && Enabled(s, Push(t, true))
    ensures NodesOk(Step(s, Push(t, true)))
  {
    SameRest(s, Push(t, true));
    LinkedPush(s.next, s.list, t);
  }

  lemma AbortKeeps(s: Group, t: Tid)
    requires Inv(s) && NodesOk(s) && Enabled(s, Abort(t, true))
    ensures NodesOk(Step(s, Abort(t, true)))
  {
    var s' := Step(s, Abort(t, true));
    SameRest(s, Abort(t, true));
    LinkedRemove(s.next, s.list, t);
    LinkedFrame(s.next, s'.next, Rest(s));
    forall u | 0 <= u < |s.pc| && s'.pc[u].Prepared?
      ensures s'.next[u] == s'.pc[u].head
    {
      assert ThreadOk(s, u) && !Listed(s, u);
    }
  }

  lemma TakeKeeps(s: Group, a: Action)
    requires Inv(s) && NodesOk(s) && Enabled(s, a) && (a.Cut? || a.Recut?) && a.ok
    ensures NodesOk(Step(s, a))
  {
    assert ThreadOk(s, a.t);
    assert Rest(Step(s, a)) == s.list;
  }

  lemma WalkKeeps(s: Group, f: Tid)
    requires Inv(s) && NodesOk(s) && Enabled(s, UnparkOne(f))
    ensures NodesOk(Step(s, UnparkOne(f)))
  {
    assert ThreadOk(s, f);
    var rest := s.pc[f].rest;
    assert Rest(s) == rest && Rest(Step(s, UnparkOne(f))) == rest[..|rest| - 1];
    LinkedPrefix(s.next, rest, |rest| - 1);
  }

  /** After every run, the nodes' pointers are the list and what is left of the cut one. */
  lemma {:induction false} PointersAreLists(run: seq<Action>, s: Group)
    requires Reaches(run, s)
    ensures NodesOk(s)
    decreases |run|
  {
    if run != [] {
      var before :| Continues(run, before, s);
      PointersAreLists(run[..|run| - 1], before);
      Reachable(run[..|run| - 1], before);
      NodesKeep(before, run[|run| - 1]);
    }
  }

  /** The node that `unpark_all` visits after `c` is the one that `next` of `c` points to. */
  lemma WalkFollowsNext(run: seq<Action>, s: Group, f: Tid)
    requires Reaches(run, s) && Enabled(s, UnparkOne(f))
    ensures var rest := s.pc[f].rest;
            var c := rest[|rest| - 1];
            && s.next[c] == Newest(rest[..|rest| - 1])
            && (s.next[c].None? <==> Step(s, UnparkOne(f)).pc[f].Reloading?)
            && (s.next[c].Some? ==> Step(s, UnparkOne(f)).pc[f] == Walking(rest[..|rest| - 1]))
  {
    PointersAreLists(run, s);
    Reachable(run, s);
    assert ThreadOk(s, f);
    assert Rest(s) == s.pc[f].rest;
  }
}
