/**
 After the last `done`, the wait group comes to rest: every move lowers a rank,
 except a compare-exchange that fails for no reason, which changes nothing. So
 no schedule keeps a waiter from returning by making moves for ever.
 */
module WaitGroupProgress {
  import opened Wrappers
  import opened Threads
  import opened Sums
  import opened WaitGroup

  /** Moves that a thread still has before it, once the counter is zero; a node costs ten more to unpark. */
  function Weight(p: Pc): nat {
    match p
    case Returned => 0
    case First => 1
    case Idle => 2
    case Leaving => 2
    case Sleeping => 2
    case Parking => 3
    case Second => 4
    case Prepared(_, _) => 15
    case Reading => 16
    case Finishing => 7
    case Cutting(_, _) => 6
    case HasCut(rest) => 3 + 4 * |rest|
    case Walking(rest) => 2 + 4 * |rest|
    case Reloading => 5
    case Recutting(_, _) => 4
  }

  function Weights(pc: seq<Pc>): (w: seq<nat>)
    ensures |w| == |pc|
  {
    seq(|pc|, t requires 0 <= t < |pc| => Weight(pc[t]))
  }

  /** A local copy of the word that is not what the word is now. */
  predicate OutOfDate(p: Pc, s: Group) {
    (p.Cutting? || p.Recutting?) && !(p.clear == s.clear && p.head == Newest(s.list))
  }

  /** The finishing worker has to look at the word again. */
  function Stale(s: Group): nat
    requires s.Shaped()
  {
    if s.finisher.Some? && s.finisher.value < |s.pc| && OutOfDate(s.pc[s.finisher.value], s) then 1 else 0
  }

  function Base(s: Group): nat { Sum(Weights(s.pc)) + 10 * |s.list| }

  function Rank(s: Group): nat
    requires s.Shaped()
  {
    2 * Base(s) + Stale(s)
  }

  /** A compare-exchange of the finishing worker that fails although the word is as expected. */
  predicate Spurious(s: Group, a: Action)
    requires s.Shaped() && Enabled(s, a)
  {
    (a.Cut? || a.Recut?) && !a.ok && !OutOfDate(s.pc[a.t], s)
  }

  predicate AfterLastDone(s: Group) { s.counter == 0 && s.dones > 0 }

  lemma Goes(s: Group, t: Tid, p: Pc)
    requires s.Shaped() && t < |s.pc|
    ensures Sum(Weights(s.pc[t := p])) == Sum(Weights(s.pc)) - Weight(s.pc[t]) + Weight(p)
  {
    hide Weight;
    assert Weights(s.pc[t := p]) == Weights(s.pc)[t := Weight(p)];
    SumUpdate(Weights(s.pc), t, Weight(p));
  }

  lemma {:induction false} RemoveShortens(list: seq<Tid>, t: Tid)
    ensures |Remove(list, t)| <= |list|
  {
    if list != [] {
      RemoveShortens(list[..|list| - 1], t);
    }
  }

  /** A failing compare-exchange of the finishing worker leaves the weights alone. */
  predicate Retries(a: Action) { (a.Cut? || a.Recut?) && !a.ok }

  lemma BaseFalls(s: Group, a: Action)
    requires Inv(s) && AfterLastDone(s) && Enabled(s, a) && !Retries(a)
    ensures Base(Step(s, a)) < Base(s)
  {
    hide Base, Step;
    assert ThreadOk(s, a.t);
    if FinisherPc(s.pc[a.t]) { FinisherFalls(s, a); } else { WaiterFalls(s, a); }
  }

  lemma WaiterFalls(s: Group, a: Action)
    requires s.Shaped() && AfterLastDone(s) && Enabled(s, a) && !a.Add? && !FinisherPc(s.pc[a.t])
    ensures Base(Step(s, a)) < Base(s)
  {
    hide Sum, Weights, Unlink;
    Goes(s, a.t, Step(s, a).pc[a.t]);
    if a.Abort? {
      RemoveShortens(s.list, a.t);
    }
  }

  lemma FinisherFalls(s: Group, a: Action)
    requires s.Shaped() && Enabled(s, a) && !a.Add? && FinisherPc(s.pc[a.t]) && !Retries(a)
    requires s.pc[a.t].Cutting? ==> !s.pc[a.t].clear
    ensures Base(Step(s, a)) < Base(s)
  {
    hide Sum, Weights, Newest;
    Goes(s, a.t, Step(s, a).pc[a.t]);
  }

  /** Looking at the word again brings the local copy up to date. */
  lemma RetryRefreshes(s: Group, a: Action)
    requires Inv(s) && Enabled(s, a) && Retries(a) && OutOfDate(s.pc[a.t], s)
    ensures Base(Step(s, a)) == Base(s) && Stale(Step(s, a)) < Stale(s)
  {
    hide Sum, Weights;
    assert ThreadOk(s, a.t);
    Goes(s, a.t, Step(s, a).pc[a.t]);
  }

  /** After the last `done`, a spurious failure changes nothing and every other move lowers the rank. */
  lemma EveryMoveCounts(run: seq<Action>, s: Group, a: Action)
    requires Reaches(run, s) && AfterLastDone(s) && Enabled(s, a)
    ensures AfterLastDone(Step(s, a))
    ensures Spurious(s, a) ==> Step(s, a) == s
    ensures !Spurious(s, a) ==> Rank(Step(s, a)) < Rank(s)
  {
    Reachable(run, s);
    StaysAfterLastDone(s, a);
    if Spurious(s, a) {
      SpuriousIsNothing(s, a);
    } else if Retries(a) {
      RetryRefreshes(s, a);
    } else {
      BaseFalls(s, a);
    }
  }

  lemma StaysAfterLastDone(s: Group, a: Action)
    requires Inv(s) && AfterLastDone(s) && Enabled(s, a)
    ensures AfterLastDone(Step(s, a))
  {
  }

  lemma SpuriousIsNothing(s: Group, a: Action)
    requires Inv(s) && Enabled(s, a) && Spurious(s, a)
    ensures Step(s, a) == s
  {
    assert ThreadOk(s, a.t);
  }

  /** `moves` lead from `s0` to `s`, and `counted` of them are not spurious failures. */
  ghost predicate Leads(s0: Group, moves: seq<Action>, s: Group, counted: nat)
    requires s0.Shaped()
    ensures Leads(s0, moves, s, counted) ==> s.Shaped()
    decreases |moves|, 1
  {
    if moves == [] then s == s0 && counted == 0
    else exists before, n :: LeadsOn(s0, moves, before, n, s, counted)
  }

  ghost predicate LeadsOn(s0: Group, moves: seq<Action>, before: Group, n: nat, s: Group, counted: nat)
    requires s0.Shaped() && moves != []
    decreases |moves|, 0
  {
    var a := moves[|moves| - 1];
    && Leads(s0, moves[..|moves| - 1], before, n)
    && Enabled(before, a) && s == Step(before, a)
    && counted == n + (if Spurious(before, a) then 0 else 1)
  }

  lemma {:induction false} LeadsReaches(run: seq<Action>, s0: Group, moves: seq<Action>, s: Group, counted: nat)
    requires Reaches(run, s0) && Leads(s0, moves, s, counted)
    ensures Reaches(run + moves, s)
    decreases |moves|
  {
    if moves == [] {
      assert run + moves == run;
    } else {
      var last := |moves| - 1;
      var before, n :| LeadsOn(s0, moves, before, n, s, counted);
      LeadsReaches(run, s0, moves[..last], before, n);
      assert (run + moves)[..|run + moves| - 1] == run + moves[..last];
      assert Continues(run + moves, before, s);
    }
  }

  /** However it goes on after the last `done`, at most `Rank` moves are left, not counting spurious failures. */
  lemma {:induction false} MovesAreBounded(run: seq<Action>, s0: Group, moves: seq<Action>, s: Group, counted: nat)
    requires Reaches(run, s0) && AfterLastDone(s0) && Leads(s0, moves, s, counted)
    ensures AfterLastDone(s) && counted + Rank(s) <= Rank(s0)
    decreases |moves|
  {
    hide Rank, AfterLastDone, Enabled, Step, Spurious;
    if moves != [] {
      var last := |moves| - 1;
      var before, n :| LeadsOn(s0, moves, before, n, s, counted);
      MovesAreBounded(run, s0, moves[..last], before, n);
      LeadsReaches(run, s0, moves[..last], before, n);
      EveryMoveCounts(run + moves[..last], before, moves[last]);
    }
  }

  /**
   And as long as a waiter has not returned there is such a move: when only
   new calls of `wait` and spurious failures are possible, every waiter has returned.
   */
  lemma RestIsReturn(run: seq<Action>, s: Group, t: Tid)
    requires Reaches(run, s) && AfterLastDone(s) && t < |s.pc|
    requires forall a :: Enabled(s, a) ==> a.Wait? || Spurious(s, a)
    ensures s.pc[t].Idle? || s.pc[t].Returned?
  {
    Reachable(run, s);
    forall u | 0 <= u < |s.pc|
      ensures s.pc[u].Idle? || s.pc[u].Returned? || Asleep(s, u)
    {
      if !(s.pc[u].Idle? || s.pc[u].Returned? || Asleep(s, u)) {
        var a := NextMove(s, u);
        assert false;
      }
    }
    AllReturn(run, s, t);
  }

  /** A thread that is neither idle, back nor asleep has a move that counts. */
  lemma NextMove(s: Group, u: Tid) returns (a: Action)
    requires Inv(s) && u < |s.pc| && !(s.pc[u].Idle? || s.pc[u].Returned? || Asleep(s, u))
    ensures Enabled(s, a) && !a.Wait? && !Spurious(s, a)
  {
    assert ThreadOk(s, u);
    match s.pc[u]
    case First => a := CheckFirst(u, false);
    case Reading => a := Load(u);
    case Prepared(_, _) => a := Push(u, false);
    case Second => a := CheckSecond(u);
    case Parking => a := Park(u);
    case Sleeping => a := Wake(u);
    case Leaving => a := Abort(u, false);
    case Finishing => a := Start(u);
    case Cutting(_, _) => a := Cut(u, !OutOfDate(s.pc[u], s));
    case HasCut(_) => a := Decide(u);
    case Walking(rest) =>
      a := UnparkOne(u);
      assert rest[|rest| - 1] in Rest(s);
    case Reloading => a := Reload(u);
    case Recutting(_, _) => a := Recut(u, !OutOfDate(s.pc[u], s));
  }

  // ---------- one waiter, one worker ----------

  /** A group of one worker, thread 1, for which thread 0 waits; before the last `done`. */
  function Working(list: seq<Tid>, p: Pc, slept: bool): Group {
    Group(1, false, list, [p, Idle], [false, false], [None, None], 1, 0, 0, true, None, [slept, false], [0, 0])
  }

  /** The same after it; `unparks` is 1 once the waiter has been unparked. */
  function Done1(clear: bool, list: seq<Tid>, p: Pc, q: Pc, token: bool, unparks: nat): Group {
    Group(0, clear, list, [p, q], [token, false], [None, None], 1, 0, 1, true, Some(1), [true, false], [unparks, 0])
  }

  /** The states of one run, and the moves between them. */
  function At(k: nat): Group {
    match k
    case 0 => Working([], Idle, false).(waited := false)
    case 1 => Working([], First, false)
    case 2 => Working([], Reading, false)
    case 3 => Working([], Prepared(false, None), false)
    case 4 => Working([0], Second, false)
    case 5 => Working([0], Parking, true)
    case 6 => Working([0], Sleeping, true)
    case 7 => Done1(false, [0], Sleeping, Finishing, false, 0)
    case 8 => Done1(false, [0], Sleeping, Cutting(false, Some(0)), false, 0)
    case 9 => Done1(true, [], Sleeping, HasCut([0]), false, 0)
    case 10 => Done1(true, [], Sleeping, Walking([0]), false, 0)
    case 11 => Done1(true, [], Sleeping, Reloading, true, 1)
    case 12 => Done1(true, [], First, Reloading, false, 1)
    case _ => Done1(true, [], Returned, Reloading, false, 1)
  }

  function Did(k: nat): Action {
    match k
    case 0 => Wait(0)
    case 1 => CheckFirst(0, false)
    case 2 => Load(0)
    case 3 => Push(0, true)
    case 4 => CheckSecond(0)
    case 5 => Park(0)
    case 6 => Done(1)
    case 7 => Start(1)
    case 8 => Cut(1, true)
    case 9 => Decide(1)
    case 10 => UnparkOne(1)
    case 11 => Wake(0)
    case _ => CheckFirst(0, false)
  }

  lemma WaiterStepsOn(k: nat)
    requires k < 6 || k == 11 || k == 12
    ensures Enabled(At(k), Did(k)) && Step(At(k), Did(k)) == At(k + 1)
  {
    match k
    case 0 => case 1 => case 2 => case 3 => case 4 => case 5 => case _ =>
  }

  lemma WorkerStepsOn(k: nat)
    requires 6 <= k < 11
    ensures Enabled(At(k), Did(k)) && Step(At(k), Did(k)) == At(k + 1)
  {
    match k
    case 6 => case 7 => case 8 => case 9 => case _ =>
  }

  lemma {:induction false} Reach(k: nat) returns (run: seq<Action>)
    requires k <= 13
    ensures Reaches(run, At(k))
  {
    if k == 0 {
      run := [];
    } else {
      var before := Reach(k - 1);
      if 7 <= k < 12 { WorkerStepsOn(k - 1); } else { WaiterStepsOn(k - 1); }
      run := before + [Did(k - 1)];
      assert run[..|run| - 1] == before;
      hide Enabled, Step, At, Did;
      assert Continues(run, At(k - 1), At(k));
    }
  }

  /**
   While work is left, a waiter that has published its node goes to sleep; the
   last `done` unparks it once, and it returns.
   */
  lemma WaiterSleepsAndReturns() returns (run: seq<Action>, asleep: Group, run': seq<Action>, back: Group)
    ensures Reaches(run, asleep) && asleep.counter == 1 && |asleep.pc| == 2 && Asleep(asleep, 0)
    ensures Reaches(run', back) && |back.pc| == 2 && back.pc[0].Returned? && back.slept[0] && back.unparks[0] == 1
  {
    hide Reaches;
    run := Reach(6);
    run' := Reach(13);
    asleep, back := At(6), At(13);
    Ends();
    hide At;
  }

  lemma Ends()
    ensures var s := At(6); s.Shaped() && s.counter == 1 && |s.pc| == 2 && Asleep(s, 0)
    ensures var s := At(13);
            s.Shaped() && |s.pc| == 2 && s.pc[0].Returned? && s.slept[0] && s.unparks[0] == 1
  {
  }
}
