/**
 `WaitGroup` on top of `ParkingQueue`, up to its one transition to zero: any
 number of waiters that check the counter, publish a node, check again and
 sleep, and workers of which the last one cuts the list and unparks it.

 The list is kept as the sequence of its nodes, oldest first, which
 `WaitGroupList` shows to be what the `next` pointers say; a compare-exchange
 sees only its newest node and the clear bit. A waiter whose second check saw
 zero leaves either with its node removed in one step or with it left behind.
 */
module WaitGroup {
  import opened Threads
  import opened Wrappers
  import ParkerSpec

  datatype Pc =
    | Idle
    // a waiter, inside `ParkingQueue::park`
    | First                                   // before the check at the top of the loop
    | Reading
    | Prepared(clear: bool, head: Option<Tid>)
    | Second                                  // published, before the second check
    | Parking                                 // the second check saw work left, `park` has not been called yet
    | Sleeping
    | Leaving                                 // the second check saw zero
    | Returned
    // the worker whose `done` reached zero, inside `unpark_all`
    | Finishing
    | Cutting(clear: bool, head: Option<Tid>)
    | HasCut(rest: seq<Tid>)
    | Walking(rest: seq<Tid>)
    | Reloading
    | Recutting(clear: bool, head: Option<Tid>)

  /**
   `counter` is `workers`; `token[t]` is the parker in the node of `t`, and
   `next[t]` that node's `next`. The fields after `next` are history: no step depends on them, except that `add`
   obeys its documented rule.
   */
  datatype Group = Group(counter: int, clear: bool, list: seq<Tid>, pc: seq<Pc>, token: seq<bool>,
                         next: seq<Option<Tid>>, size: nat, adds: nat, dones: nat, waited: bool, finisher: Option<Tid>,
                         slept: seq<bool>, unparks: seq<nat>)
  {
    predicate Shaped() { |pc| == |token| == |next| == |slept| == |unparks| }

    function Goto(t: Tid, p: Pc): Group
      requires t < |pc|
    {
      this.(pc := pc[t := p])
    }
  }

  function Newest(list: seq<Tid>): Option<Tid> { if list == [] then None else Some(list[|list| - 1]) }

  datatype Action =
    | Add(n: nat)
    | Done(t: Tid)
    | Wait(t: Tid)
    | CheckFirst(t: Tid, spin: bool)
    | Load(t: Tid)
    | Push(t: Tid, ok: bool)
    | CheckSecond(t: Tid)
    | Abort(t: Tid, remove: bool)
    | Park(t: Tid)
    | Wake(t: Tid)
    | Start(t: Tid)
    | Cut(t: Tid, ok: bool)
    | Decide(t: Tid)
    | UnparkOne(t: Tid)
    | Reload(t: Tid)
    | Recut(t: Tid, ok: bool)

  predicate Enabled(s: Group, a: Action)
    requires s.Shaped()
  {
    if a.Add? then
      // a positive delta at zero must come before every `wait`, and the counter reaches zero once
      s.counter > 0 || (!s.waited && s.dones == 0)
    else
      a.t < |s.pc| &&
      var p := s.pc[a.t];
      match a
      case Done(_) => p.Idle? && s.counter >= 1
      case Wait(_) => p.Idle?
      case CheckFirst(_, _) => p.First?
      case Load(_) => p.Reading?
      case Push(_, ok) => p.Prepared? && (ok ==> p.clear == s.clear && p.head == Newest(s.list))
      case CheckSecond(_) => p.Second?
      case Abort(t, remove) => p.Leaving? && (remove ==> !s.clear && t in s.list)
      case Park(_) => p.Parking?
      case Wake(t) => p.Sleeping? && s.token[t]
      case Start(_) => p.Finishing?
      case Cut(_, ok) => p.Cutting? && (ok ==> p.clear == s.clear && p.head == Newest(s.list))
      case Decide(_) => p.HasCut?
      case UnparkOne(_) => p.Walking? && p.rest != [] && p.rest[|p.rest| - 1] < |s.pc|
      case Reload(_) => p.Reloading?
      case Recut(_, ok) => p.Recutting? && (ok ==> p.clear == s.clear && p.head == Newest(s.list))
  }

  function Remove(list: seq<Tid>, t: Tid): seq<Tid> {
    if list == [] then []
    else if list[|list| - 1] == t then list[..|list| - 1]
    else Remove(list[..|list| - 1], t) + [list[|list| - 1]]
  }

  /** The newer neighbour of `t` in `list` now points past it. */
  function Unlink(next: seq<Option<Tid>>, list: seq<Tid>, t: Tid): (r: seq<Option<Tid>>)
    requires t < |next|
    ensures |r| == |next|
  {
    seq(|next|, u requires 0 <= u < |next| => if u in list && next[u] == Some(t) then next[t] else next[u])
  }

  predicate WaiterAction(a: Action) {
    a.Wait? || a.CheckFirst? || a.Load? || a.Push? || a.CheckSecond? || a.Abort? || a.Park? || a.Wake?
  }

  function Step(s: Group, a: Action): (s': Group)
    requires s.Shaped() && Enabled(s, a)
    ensures s'.Shaped() && |s'.pc| == |s.pc|
  {
    if WaiterAction(a) then WaiterStep(s, a) else WorkerStep(s, a)
  }

  /** `wait`, inside `ParkingQueue::park`. */
  function WaiterStep(s: Group, a: Action): (s': Group)
    requires s.Shaped() && Enabled(s, a) && WaiterAction(a)
    ensures s'.Shaped() && |s'.pc| == |s.pc|
  {
    match a
    case Wait(t) => s.(waited := true).Goto(t, First)
    case CheckFirst(t, spin) =>
      if s.counter == 0 then s.Goto(t, Returned) else if spin then s else s.Goto(t, Reading)
    case Load(t) => s.(next := s.next[t := Newest(s.list)]).Goto(t, Prepared(s.clear, Newest(s.list)))
    case Push(t, ok) => if ok then s.(list := s.list + [t]).Goto(t, Second) else s.Goto(t, First)
    case CheckSecond(t) =>
      if s.counter == 0 then s.Goto(t, Leaving) else s.(slept := s.slept[t := true]).Goto(t, Parking)
    case Abort(t, remove) =>
      (if remove then s.(list := Remove(s.list, t), next := Unlink(s.next, s.list, t)) else s).Goto(t, First)
    case Park(t) => s.Goto(t, Sleeping)
    case Wake(t) => s.(token := s.token[t := false]).Goto(t, First)
  }

  /** `add` and `done`, the last of which runs `unpark_all`. */
  function WorkerStep(s: Group, a: Action): (s': Group)
    requires s.Shaped() && Enabled(s, a) && !WaiterAction(a)
    ensures s'.Shaped() && |s'.pc| == |s.pc|
  {
    match a
    case Add(n) => s.(counter := s.counter + n, adds := s.adds + n)
    case Done(t) =>
      var s' := s.(counter := s.counter - 1, dones := s.dones + 1);
      if s.counter == 1 then s'.(finisher := Some(t)).Goto(t, Finishing) else s'
    case Start(t) => s.Goto(t, Cutting(s.clear, Newest(s.list)))
    case Cut(t, ok) =>
      if s.pc[t].clear then s.(finisher := None).Goto(t, Idle)
      else if ok then s.(clear := true, list := []).Goto(t, HasCut(s.list))
      else s.Goto(t, Cutting(s.clear, Newest(s.list)))
    case Decide(t) =>
      if s.pc[t].rest == [] then s.(clear := false, finisher := None).Goto(t, Idle)
      else s.Goto(t, Walking(s.pc[t].rest))
    case UnparkOne(t) =>
      var rest := s.pc[t].rest;
      var c := rest[|rest| - 1];
      s.(token := s.token[c := true], unparks := s.unparks[c := s.unparks[c] + 1])
       .Goto(t, if |rest| == 1 then Reloading else Walking(rest[..|rest| - 1]))
    case Reload(t) => s.Goto(t, Recutting(s.clear, Newest(s.list)))
    case Recut(t, ok) =>
      if ok then s.(clear := true, list := []).Goto(t, HasCut(s.list))
      else s.Goto(t, Recutting(s.clear, Newest(s.list)))
  }

  predicate Init(s: Group) {
    && s.Shaped() && s.counter == s.size && !s.clear && s.list == []
    && s.adds == 0 && s.dones == 0 && !s.waited && s.finisher.None?
    && forall t :: 0 <= t < |s.pc| ==> s.pc[t].Idle? && !s.token[t] && !s.slept[t] && s.unparks[t] == 0
  }

  // ---------- the invariant ----------

  /** A waiter whose second check saw work left and that has not returned from `park`. */
  predicate Sleeps(p: Pc) { p.Parking? || p.Sleeping? }

  predicate FinisherPc(p: Pc) {
    p.Finishing? || p.Cutting? || ClearingPc(p)
  }

  predicate ClearingPc(p: Pc) { p.HasCut? || p.Walking? || p.Reloading? || p.Recutting? }

  /** The nodes that the finisher has cut and not unparked yet. */
  function Rest(s: Group): seq<Tid>
    requires s.Shaped()
  {
    if s.finisher.Some? && s.finisher.value < |s.pc|
       && (s.pc[s.finisher.value].HasCut? || s.pc[s.finisher.value].Walking?)
    then s.pc[s.finisher.value].rest else []
  }

  /** The counter has reached zero and the list as it was then has been cut. */
  predicate IsCut(s: Group)
    requires s.Shaped()
  {
    && s.counter == 0 && s.dones > 0
    && !(s.finisher.Some? && s.finisher.value < |s.pc|
         && (s.pc[s.finisher.value].Finishing? || s.pc[s.finisher.value].Cutting?))
  }

  predicate Listed(s: Group, t: Tid)
    requires s.Shaped()
  {
    t in s.list || t in Rest(s)
  }

  predicate ThreadOk(s: Group, t: Tid)
    requires s.Shaped() && t < |s.pc|
  {
    var p := s.pc[t];
    && (FinisherPc(p) <==> s.finisher == Some(t))
    && (p.Cutting? ==> !p.clear)
    && (p.Walking? ==> p.rest != [])
    && (p.Returned? || p.Leaving? ==> s.counter == 0)
    && (!p.Idle? && !FinisherPc(p) ==> s.waited)
    && (Listed(s, t) ==> p.Second? || Sleeps(p) || ((p.Leaving? || p.First? || p.Returned?) && s.counter == 0))
    && (Listed(s, t) ==> s.unparks[t] == 0)
    && (s.unparks[t] > 0 ==>
          s.unparks[t] == 1 && s.counter == 0
          && (p.Second? || Sleeps(p) || p.Leaving? || p.First? || p.Returned?))
    && (s.token[t] ==> s.unparks[t] == 1)
    && (p.Second? ==> Listed(s, t) || s.unparks[t] == 1)
    && (Sleeps(p) ==> s.slept[t] && s.token[t] == (s.unparks[t] == 1))
    && (Sleeps(p) && s.unparks[t] == 0 ==> (t in s.list && !IsCut(s)) || t in Rest(s))
    && (s.slept[t] ==> s.counter > 0 || s.dones > 0)
    && (s.slept[t] ==> s.waited && (Sleeps(p) || s.unparks[t] == 1))
    && (s.slept[t] && !Sleeps(p) ==> s.counter == 0 && (p.First? || p.Returned?))
  }

  predicate Inv(s: Group) {
    && s.Shaped()
    && s.counter == s.size + s.adds - s.dones && s.counter >= 0
    && Distinct(s.list) && Distinct(Rest(s))
    && (forall t :: t in s.list ==> t < |s.pc| && t !in Rest(s))
    && (forall t :: t in Rest(s) ==> t < |s.pc|)
    && (s.finisher.Some? ==>
          s.finisher.value < |s.pc| && FinisherPc(s.pc[s.finisher.value]) && s.counter == 0 && s.dones > 0)
    && s.clear == (s.finisher.Some? && ClearingPc(s.pc[s.finisher.value]))
    && (forall t :: 0 <= t < |s.pc| ==> ThreadOk(s, t))
  }

  lemma AddKeeps(s: Group, a: Action)
    requires Inv(s) && Enabled(s, a) && a.Add?
    ensures Inv(Step(s, a))
  {
    var s' := Step(s, a);
    assert Rest(s') == Rest(s);
    forall u | 0 <= u < |s.pc|
      ensures ThreadOk(s', u)
    {
      assert ThreadOk(s, u);
    }
  }

  /** A worker that is not the last, or the last one. */
  lemma DoneKeeps(s: Group, a: Action)
    requires Inv(s) && Enabled(s, a) && a.Done?
    ensures Inv(Step(s, a))
  {
    var s' := Step(s, a);
    assert ThreadOk(s, a.t);
    forall u | 0 <= u < |s.pc|
      ensures ThreadOk(s', u)
    {
      assert ThreadOk(s, u);
    }
  }

  lemma EnterKeeps(s: Group, a: Action)
    requires Inv(s) && Enabled(s, a) && a.Wait?
    ensures Inv(Step(s, a))
  {
    var s' := Step(s, a);
    assert ThreadOk(s, a.t);
    assert Rest(s') == Rest(s);
    forall u | 0 <= u < |s.pc|
      ensures ThreadOk(s', u)
    {
      assert ThreadOk(s, u);
    }
  }

  lemma CheckFirstKeeps(s: Group, a: Action)
    requires Inv(s) && Enabled(s, a) && a.CheckFirst?
    ensures Inv(Step(s, a))
  {
    var s' := Step(s, a);
    assert ThreadOk(s, a.t);
    assert Rest(s') == Rest(s);
    forall u | 0 <= u < |s.pc|
      ensures ThreadOk(s', u)
    {
      assert ThreadOk(s, u);
    }
  }

  /** Reading the head, and failing to publish on it. */
  lemma PrepareKeeps(s: Group, a: Action)
    requires Inv(s) && Enabled(s, a) && (a.Load? || (a.Push? && !a.ok))
    ensures Inv(Step(s, a))
  {
    var s' := Step(s, a);
    assert ThreadOk(s, a.t);
    assert Rest(s') == Rest(s);
    forall u | 0 <= u < |s.pc|
      ensures ThreadOk(s', u)
    {
      assert ThreadOk(s, u);
    }
  }

  /** The moves of a waiter that has published its node. */
  lemma PublishedMoveKeeps(s: Group, a: Action)
    requires Inv(s) && Enabled(s, a)
    requires (a.Abort? && !a.remove) || a.Park? || a.Wake?
    ensures Inv(Step(s, a))
  {
    var s' := Step(s, a);
    assert ThreadOk(s, a.t);
    assert Rest(s') == Rest(s);
    forall u | 0 <= u < |s.pc|
      ensures ThreadOk(s', u)
    {
      assert ThreadOk(s, u);
    }
  }

  lemma CheckSecondKeeps(s: Group, a: Action)
    requires Inv(s) && Enabled(s, a) && a.CheckSecond?
    ensures Inv(Step(s, a))
  {
    var s' := Step(s, a);
    assert ThreadOk(s, a.t);
    assert Rest(s') == Rest(s);
    forall u | 0 <= u < |s.pc|
      ensures ThreadOk(s', u)
    {
      assert ThreadOk(s, u);
    }
  }

  lemma PushKeeps(s: Group, a: Action)
    requires Inv(s) && Enabled(s, a) && a.Push? && a.ok
    ensures Inv(Step(s, a))
  {
    var s' := Step(s, a);
    assert ThreadOk(s, a.t);
    assert Rest(s') == Rest(s);
    forall u | 0 <= u < |s.pc|
      ensures ThreadOk(s', u)
    {
      assert ThreadOk(s, u);
    }
  }

  lemma {:induction false} RemoveIs(list: seq<Tid>, t: Tid)
    requires Distinct(list)
    ensures Distinct(Remove(list, t))
    ensures forall u :: u in Remove(list, t) <==> u in list && u != t
  {
    if list != [] {
      var last := |list| - 1;
      var before, x := list[..last], list[last];
      RemoveIs(before, t);
      assert x !in before;
      assert forall u :: u in list <==> u in before || u == x;
    }
  }

  lemma RemoveKeeps(s: Group, a: Action)
    requires Inv(s) && Enabled(s, a) && a.Abort? && a.remove
    ensures Inv(Step(s, a))
  {
    var s' := Step(s, a);
    assert ThreadOk(s, a.t);
    RemoveIs(s.list, a.t);
    assert Rest(s') == Rest(s);
    forall u | 0 <= u < |s.pc|
      ensures ThreadOk(s', u)
    {
      assert ThreadOk(s, u);
    }
  }

  /** The moves of the finisher that change neither the list nor the parkers. */
  lemma FinisherMoveKeeps(s: Group, a: Action)
    requires Inv(s) && Enabled(s, a)
    requires a.Start? || a.Decide? || a.Reload? || ((a.Cut? || a.Recut?) && !a.ok)
    ensures Inv(Step(s, a))
  {
    var s' := Step(s, a);
    assert ThreadOk(s, a.t);
    assert Rest(s') == Rest(s);
    forall u | 0 <= u < |s.pc|
      ensures ThreadOk(s', u)
    {
      assert ThreadOk(s, u);
    }
  }

  /** The finisher takes over the whole list. */
  lemma CutKeeps(s: Group, a: Action)
    requires Inv(s) && Enabled(s, a) && (a.Cut? || a.Recut?) && a.ok
    ensures Inv(Step(s, a))
  {
    var s' := Step(s, a);
    assert ThreadOk(s, a.t);
    assert Rest(s') == s.list && Rest(s) == [];
    forall u | 0 <= u < |s.pc|
      ensures ThreadOk(s', u)
    {
      assert ThreadOk(s, u);
    }
  }

  lemma UnparkKeeps(s: Group, a: Action)
    requires Inv(s) && Enabled(s, a) && a.UnparkOne?
    ensures Inv(Step(s, a))
  {
    var s' := Step(s, a);
    assert ThreadOk(s, a.t);
    var rest := s.pc[a.t].rest;
    assert Rest(s) == rest && Rest(s') == rest[..|rest| - 1];
    assert forall u :: u in rest <==> u in Rest(s') || u == rest[|rest| - 1];
    forall u | 0 <= u < |s.pc|
      ensures ThreadOk(s', u)
    {
      assert ThreadOk(s, u);
    }
  }

  lemma StepKeeps(s: Group, a: Action)
    requires Inv(s) && Enabled(s, a)
    ensures Inv(Step(s, a))
  {
    match a
    case Add(_) => AddKeeps(s, a);
    case Done(_) => DoneKeeps(s, a);
    case Push(_, ok) => if ok { PushKeeps(s, a); } else { PrepareKeeps(s, a); }
    case Abort(_, remove) => if remove { RemoveKeeps(s, a); } else { PublishedMoveKeeps(s, a); }
    case CheckFirst(_, _) => CheckFirstKeeps(s, a);
    case Load(_) => PrepareKeeps(s, a);
    case CheckSecond(_) => CheckSecondKeeps(s, a);
    case Park(_) => PublishedMoveKeeps(s, a);
    case Wake(_) => PublishedMoveKeeps(s, a);
    case Cut(_, ok) => if ok { CutKeeps(s, a); } else { FinisherMoveKeeps(s, a); }
    case Recut(_, ok) => if ok { CutKeeps(s, a); } else { FinisherMoveKeeps(s, a); }
    case UnparkOne(_) => UnparkKeeps(s, a);
    case Start(_) => FinisherMoveKeeps(s, a);
    case Decide(_) => FinisherMoveKeeps(s, a);
    case Reload(_) => FinisherMoveKeeps(s, a);
    case Wait(_) => EnterKeeps(s, a);
  }

  // ---------- runs ----------

  ghost predicate Reaches(run: seq<Action>, s: Group)
    ensures Reaches(run, s) ==> s.Shaped()
    decreases |run|, 1
  {
    if run == [] then Init(s)
    else exists before :: Continues(run, before, s)
  }

  ghost predicate Continues(run: seq<Action>, before: Group, s: Group)
    requires run != []
    decreases |run|, 0
  {
    Reaches(run[..|run| - 1], before) && Enabled(before, run[|run| - 1]) && s == Step(before, run[|run| - 1])
  }

  lemma {:induction false} Reachable(run: seq<Action>, s: Group)
    requires Reaches(run, s)
    ensures Inv(s)
  {
    if run == [] {
      forall t | 0 <= t < |s.pc|
        ensures ThreadOk(s, t)
      {
      }
    } else {
      var before :| Continues(run, before, s);
      Reachable(run[..|run| - 1], before);
      StepKeeps(before, run[|run| - 1]);
    }
  }

  /** What the calls of `add` in a run add up to. */
  function Added(run: seq<Action>): nat {
    if run == [] then 0
    else Added(run[..|run| - 1]) + (if run[|run| - 1].Add? then run[|run| - 1].n else 0)
  }

  /** How many calls of `done` a run has. */
  function Finished(run: seq<Action>): nat {
    if run == [] then 0 else Finished(run[..|run| - 1]) + (if run[|run| - 1].Done? then 1 else 0)
  }

  /** The counter is the initial size plus what was added less what was done. */
  lemma {:induction false} CounterCounts(run: seq<Action>, s: Group)
    requires Reaches(run, s)
    ensures s.adds == Added(run) && s.dones == Finished(run)
    ensures s.counter == s.size + Added(run) - Finished(run)
  {
    if run != [] {
      var before :| Continues(run, before, s);
      CounterCounts(run[..|run| - 1], before);
      StepCounts(before, run[|run| - 1]);
    }
  }

  lemma StepCounts(s: Group, a: Action)
    requires s.Shaped() && Enabled(s, a)
    ensures var s' := Step(s, a);
            && s'.adds == s.adds + (if a.Add? then a.n else 0)
            && s'.dones == s.dones + (if a.Done? then 1 else 0)
            && s'.counter == s.counter + (if a.Add? then a.n else 0) - (if a.Done? then 1 else 0)
            && s'.size == s.size
  {
  }

  /** No waiter returns before the initial size plus what was added equals what was done. */
  lemma NoEarlyReturn(run: seq<Action>, s: Group, t: Tid)
    requires Reaches(run, s) && t < |s.pc| && s.pc[t].Returned?
    ensures s.size + Added(run) == Finished(run)
  {
    Reachable(run, s);
    CounterCounts(run, s);
    assert ThreadOk(s, t);
  }

  /** A waiter that has decided to sleep and has not been unparked. */
  predicate Enlisted(s: Group, t: Tid)
    requires s.Shaped()
  {
    t < |s.pc| && Sleeps(s.pc[t]) && !s.token[t]
  }

  /** A waiter inside `park` that nobody has unparked. */
  predicate Asleep(s: Group, t: Tid)
    requires s.Shaped()
  {
    t < |s.pc| && s.pc[t].Sleeping? && !s.token[t]
  }

  /** Every waiter asleep when the final `done` cuts the list is in the list that it cuts. */
  lemma SleepersAreCut(run: seq<Action>, s: Group, f: Tid, t: Tid)
    requires Reaches(run, s) && Enabled(s, Cut(f, true)) && Enlisted(s, t)
    ensures Step(s, Cut(f, true)).pc[f].HasCut? && t in Step(s, Cut(f, true)).pc[f].rest
  {
    Reachable(run, s);
    assert ThreadOk(s, t);
    assert ThreadOk(s, f);
  }

  /** Once the counter is zero, a sleeper is still listed, and the finisher can take its next step towards it. */
  lemma SleeperIsAttended(run: seq<Action>, s: Group, t: Tid) returns (f: Tid, a: Action)
    requires Reaches(run, s) && s.counter == 0 && Enlisted(s, t)
    ensures f < |s.pc| && FinisherPc(s.pc[f]) && Listed(s, t)
    ensures Enabled(s, a) && !a.Add? && a.t == f
  {
    Reachable(run, s);
    assert ThreadOk(s, t);
    f := s.finisher.value;
    assert ThreadOk(s, f);
    match s.pc[f]
    case Finishing => a := Start(f);
    case Cutting(_, _) => a := Cut(f, false);
    case HasCut(_) => a := Decide(f);
    case Walking(rest) =>
      assert rest[|rest| - 1] in Rest(s);
      a := UnparkOne(f);
    case Reloading => a := Reload(f);
    case Recutting(_, _) => a := Recut(f, false);
  }

  /** `unpark_all` unparks a waiter at most once, and exactly once if it slept and has gone on. */
  lemma UnparkedOnce(run: seq<Action>, s: Group, t: Tid)
    requires Reaches(run, s) && t < |s.pc|
    ensures s.unparks[t] <= 1
    ensures s.slept[t] && !Sleeps(s.pc[t]) ==> s.unparks[t] == 1
    ensures Sleeps(s.pc[t]) ==> (s.token[t] <==> s.unparks[t] == 1)
  {
    Reachable(run, s);
    assert ThreadOk(s, t);
  }

  /**
   A waiter that slept and has been woken goes straight back to its check, finds
   zero and returns; it neither publishes another node nor sleeps again.
   */
  lemma WokenReturns(run: seq<Action>, s: Group, t: Tid)
    requires Reaches(run, s) && t < |s.pc| && s.slept[t] && !Sleeps(s.pc[t])
    ensures s.pc[t].First? || s.pc[t].Returned?
    ensures forall spin :: Enabled(s, CheckFirst(t, spin)) ==> Step(s, CheckFirst(t, spin)).pc[t].Returned?
  {
    Reachable(run, s);
    assert ThreadOk(s, t);
  }

  /** Nobody is left behind: when the counter is zero and no thread can go on, every waiter has returned. */
  lemma AllReturn(run: seq<Action>, s: Group, t: Tid)
    requires Reaches(run, s) && s.counter == 0 && t < |s.pc|
    requires forall u :: 0 <= u < |s.pc| ==> s.pc[u].Idle? || s.pc[u].Returned? || Asleep(s, u)
    ensures s.pc[t].Idle? || s.pc[t].Returned?
  {
    Reachable(run, s);
    assert ThreadOk(s, t);
    if s.finisher.Some? {
      assert ThreadOk(s, s.finisher.value);
    }
  }

  // ---------- the parkers ----------

  function ParkerOf(s: Group, t: Tid): ParkerSpec.Parker
    requires s.Shaped() && t < |s.pc|
  {
    ParkerSpec.Parker(s.token[t], s.pc[t].Sleeping?)
  }

  /** What a step does to the parker in the node of `t`. */
  function CallOn(s: Group, a: Action, t: Tid): ParkerSpec.Event
    requires s.Shaped() && Enabled(s, a)
  {
    match a
    case Park(u) => if u == t then ParkerSpec.Begin else ParkerSpec.Silent
    case Wake(u) => if u == t then ParkerSpec.Return(true) else ParkerSpec.Silent
    case UnparkOne(f) =>
      var rest := s.pc[f].rest;
      if rest[|rest| - 1] == t then ParkerSpec.Unpark else ParkerSpec.Silent
    case _ => ParkerSpec.Silent
  }

  /**
   Every step is one that each node's parker allows. `unpark_all` finds no token
   in the node it unparks, whose thread has published it; a thread goes to
   `park` without a token only with its node still listed.
   */
  lemma UsesParker(run: seq<Action>, s: Group, a: Action, t: Tid)
    requires Reaches(run, s) && Enabled(s, a) && t < |s.pc|
    ensures ParkerSpec.Allows(ParkerOf(s, t), CallOn(s, a, t))
    ensures ParkerOf(Step(s, a), t) == ParkerSpec.After(ParkerOf(s, t), CallOn(s, a, t))
    ensures CallOn(s, a, t).Unpark? ==> !ParkerOf(s, t).token && Listed(s, t)
    ensures CallOn(s, a, t).Begin? ==> ParkerOf(s, t).token || Listed(s, t)
  {
    Reachable(run, s);
    OneParker(s, a, t);
    CallsFit(s, a, t);
  }

  /** A step touches no parker but the caller's own and that of the node it unparks. */
  lemma OneParker(s: Group, a: Action, t: Tid)
    requires s.Shaped() && Enabled(s, a) && t < |s.pc|
    ensures ParkerOf(Step(s, a), t) == ParkerSpec.After(ParkerOf(s, t), CallOn(s, a, t))
  {
  }

  lemma CallsFit(s: Group, a: Action, t: Tid)
    requires Inv(s) && Enabled(s, a) && t < |s.pc|
    ensures ParkerSpec.Allows(ParkerOf(s, t), CallOn(s, a, t))
    ensures CallOn(s, a, t).Unpark? ==> !ParkerOf(s, t).token && Listed(s, t)
    ensures CallOn(s, a, t).Begin? ==> ParkerOf(s, t).token || Listed(s, t)
  {
    assert ThreadOk(s, t);
    if a.UnparkOne? {
      assert ThreadOk(s, a.t);
      assert Rest(s) == s.pc[a.t].rest;
      var rest := s.pc[a.t].rest;
      assert rest[|rest| - 1] in rest;
    }
  }
}
