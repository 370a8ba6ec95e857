/**
 No run of `RawMutex` can lose its way: from every reachable state the threads
 can finish what they are at, until the word is `IDLE` and nobody is inside.
 Threads are advanced one at a time, in the order of the stages below; each
 move lowers the sum of the stages or, within a stage, the way left to the next.
 */
module MutexProgress {
  import opened Threads
  import opened Sums
  import opened MutexSpec
  import opened RawMutex
  import opened NodeList
  import opened MutexInvariant
  import opened MutexSteps
  import opened MutexTheorems

  /** How far a thread is from having left. A move to a higher stage is one the thread can choose not to make. */
  function Stage(p: Pc, notified: bool): nat {
    match p
    case Outside => 0
    case Wake(_, _) => 1
    case Scan(_, _, _) => 2
    case Commit(_, _, _) => 2
    case Cut(_, _, _) => 2
    case Seek(_) => 3
    case Take(_, _) => 3
    case Holding => 4
    case Lapsed => 4
    case Load(_) => 5
    case Loop(_, _) => 5
    case Ready(_, _) => 5
    case Published => if notified then 6 else 7
    case Parked => if notified then 6 else 7
    case Hollow => 0
    case Fault => 0
  }

  /** Nodes that a scan has still to step over. */
  function Ahead(h: Hist): nat { if h.current > h.mark then h.current - h.mark else 0 }

  /** How many moves a thread may make before it changes its stage, while the word stays as it is. */
  function Detour(p: Pc, word: Word, h: Hist): nat {
    match p
    case Seek(_) => 1
    case Take(_, w) => if w == word then 0 else 2
    case Load(_) => 1
    case Loop(_, w) => if w == word then 0 else 2
    case Ready(_, _) => 1
    case Published => 1
    case Scan(_, w, _) => Rescans(w, word, h) + 2 + Ahead(h)
    case Commit(_, w, _) => Rescans(w, word, h) + 1
    case Cut(_, w, _) => Rescans(w, word, h)
    case _ => 0
  }

  /** A queue owner whose local word is out of date scans once more. */
  function Rescans(w: Word, word: Word, h: Hist): nat {
    if w == word then 0 else |h.lock.waiting| + 4
  }

  function StageOf(m: Mutex, t: Tid): nat
    requires m.Shaped() && t < |m.pc|
  {
    Stage(m.pc[t], m.notified[t])
  }

  /** A move of `t` that brings `t` closer and takes nobody else further away. */
  ghost predicate Advances(m: Mutex, h: Hist, t: Tid, m': Mutex, h': Hist)
    requires m.Shaped() && m'.Shaped() && |m'.pc| == |m.pc| && t < |m.pc|
  {
    && (forall u :: 0 <= u < |m.pc| ==> StageOf(m', u) <= StageOf(m, u))
    && (StageOf(m', t) < StageOf(m, t)
        || ( && Detour(m'.pc[t], m'.word, h') < Detour(m.pc[t], m.word, h)
             && forall u :: 0 <= u < |m.pc| && u != t ==>
                  Detour(m'.pc[u], m'.word, h') == Detour(m.pc[u], m.word, h)))
  }

  /** `a` is a move that `t` can make, and it advances. */
  ghost predicate Helps(m: Mutex, h: Hist, t: Tid, a: Action)
    requires m.Shaped()
  {
    && Enabled(m, t, a)
    && Allows(h.lock, EventOf(m, t, a))
    && Advances(m, h, t, Step(m, t, a), Track(m, h, t, a))
  }

  // ---------- one thread advances ----------

  /** A move of `t` to an earlier stage. */
  lemma NextStage(m: Mutex, h: Hist, t: Tid, m': Mutex, h': Hist)
    requires m.Shaped() && m'.Shaped() && |m'.pc| == |m.pc| && t < |m.pc|
    requires m'.pc == m.pc[t := m'.pc[t]] && m'.notified == m.notified[t := m'.notified[t]]
    requires Stage(m'.pc[t], m'.notified[t]) < Stage(m.pc[t], m.notified[t])
    ensures Advances(m, h, t, m', h')
  {
    hide Stage, Detour;
  }

  /** Only the queue owner's detour depends on the history. */
  ghost predicate NoOtherSession(m: Mutex, t: Tid) {
    forall u :: 0 <= u < |m.pc| && u != t ==> !SessionPc(m.pc[u])
  }

  /** A move of `t` within its stage, which leaves the word alone. */
  lemma SameStage(m: Mutex, h: Hist, t: Tid, m': Mutex, h': Hist)
    requires m.Shaped() && m'.Shaped() && |m'.pc| == |m.pc| && t < |m.pc| && NoOtherSession(m, t)
    requires m'.pc == m.pc[t := m'.pc[t]] && m'.notified == m.notified && m'.word == m.word
    requires Stage(m'.pc[t], m.notified[t]) == Stage(m.pc[t], m.notified[t])
    requires Detour(m'.pc[t], m.word, h') < Detour(m.pc[t], m.word, h)
    ensures Advances(m, h, t, m', h')
  {
    hide Stage;
  }

  /** A step for which one of the two holds. */
  lemma OneStep(m: Mutex, h: Hist, t: Tid, a: Action)
    requires m.Shaped() && t < |m.pc| && Enabled(m, t, a) && Allows(h.lock, EventOf(m, t, a)) && NoOtherSession(m, t)
    requires var m', h' := Step(m, t, a), Track(m, h, t, a);
             && m'.Shaped() && |m'.pc| == |m.pc|
             && m'.pc == m.pc[t := m'.pc[t]] && m'.notified == m.notified[t := m'.notified[t]]
             && (Stage(m'.pc[t], m'.notified[t]) < Stage(m.pc[t], m.notified[t])
                 || ( && m'.notified == m.notified && m'.word == m.word
                      && Stage(m'.pc[t], m.notified[t]) == Stage(m.pc[t], m.notified[t])
                      && Detour(m'.pc[t], m.word, h') < Detour(m.pc[t], m.word, h)))
    ensures Helps(m, h, t, a)
  {
    hide Enabled, Step, EventOf, Track, Stage, Detour, Advances, NoOtherSession;
    var m', h' := Step(m, t, a), Track(m, h, t, a);
    if Stage(m'.pc[t], m'.notified[t]) < Stage(m.pc[t], m.notified[t]) {
      NextStage(m, h, t, m', h');
    } else {
      SameStage(m, h, t, m', h');
    }
  }

  lemma SessionsApart(m: Mutex, h: Hist, t: Tid)
    requires Inv(m, h) && t < |m.pc| && (SessionPc(m.pc[t]) || h.session.None?)
    ensures NoOtherSession(m, t)
  {
    assert ThreadOk(m, h, t);
    forall u | 0 <= u < |m.pc| && u != t
      ensures !SessionPc(m.pc[u])
    {
      assert ThreadOk(m, h, u);
    }
  }

  lemma ScanAdvances(m: Mutex, h: Hist, t: Tid) returns (a: Action)
    requires Inv(m, h) && t < |m.pc| && m.pc[t].Scan?
    ensures Helps(m, h, t, a)
  {
    SessionsApart(m, h, t);
    if Enabled(m, t, Link) {
      a := Link;
      LinkKeeps(m, h, t);
      LinkAdvances(m, h, t);
    } else {
      a := Linked;
      LinkedAdvances(m, h, t);
    }
  }

  lemma LinkAdvances(m: Mutex, h: Hist, t: Tid)
    requires m.Shaped() && Enabled(m, t, Link) && m.pc[t].Scan? && NoOtherSession(m, t)
    requires h.current > h.mark
    ensures Helps(m, h, t, Link)
  {
    OneStep(m, h, t, Link);
  }

  lemma LinkedAdvances(m: Mutex, h: Hist, t: Tid)
    requires m.Shaped() && Enabled(m, t, Linked) && m.pc[t].Scan? && NoOtherSession(m, t)
    ensures Helps(m, h, t, Linked)
  {
    OneStep(m, h, t, Linked);
  }

  /** With an up-to-date local word the queue owner's compare-exchange can succeed; otherwise it scans once more. */
  lemma CommitAdvances(m: Mutex, h: Hist, t: Tid) returns (a: Action)
    requires Inv(m, h) && t < |m.pc| && (m.pc[t].Commit? || m.pc[t].Cut?)
    ensures Helps(m, h, t, a)
  {
    SessionsApart(m, h, t);
    TailIsOldest(m, h, t);
    MarkInQueue(m, h, t);
    var p := m.pc[t];
    if p.Cut? {
      a := CutLast(p.w == m.word);
      if a.ok { RemovalAdvances(m, h, t, a); } else { RescanAdvances(m, h, t, a); }
    } else if !p.fair && p.w.locked {
      a := Yield(p.w == m.word);
      if a.ok { YieldAdvances(m, h, t); } else { RescanAdvances(m, h, t, a); }
    } else if m.node[p.tail].prev.Some? {
      a := Trim;
      RemovalAdvances(m, h, t, a);
    } else {
      a := SeeLast;
      SeeLastAdvances(m, h, t);
    }
  }

  lemma MarkInQueue(m: Mutex, h: Hist, t: Tid)
    requires Inv(m, h) && t < |m.pc| && SessionPc(m.pc[t])
    ensures 0 <= h.mark < |h.lock.waiting|
  {
    assert ThreadOk(m, h, t);
  }

  lemma YieldAdvances(m: Mutex, h: Hist, t: Tid)
    requires m.Shaped() && Enabled(m, t, Yield(true)) && m.pc[t].Commit? && NoOtherSession(m, t)
    ensures Helps(m, h, t, Yield(true))
  {
    OneStep(m, h, t, Yield(true));
  }

  lemma SeeLastAdvances(m: Mutex, h: Hist, t: Tid)
    requires m.Shaped() && Enabled(m, t, SeeLast) && m.pc[t].Commit? && NoOtherSession(m, t)
    ensures Helps(m, h, t, SeeLast)
  {
    OneStep(m, h, t, SeeLast);
  }

  lemma RemovalAdvances(m: Mutex, h: Hist, t: Tid, a: Action)
    requires m.Shaped() && Enabled(m, t, a) && (a == Trim || a == CutLast(true)) && NoOtherSession(m, t)
    requires (m.pc[t].Commit? || m.pc[t].Cut?) && Allows(h.lock, Removal(m.pc[t], t))
    ensures Helps(m, h, t, a)
  {
    OneStep(m, h, t, a);
  }

  lemma RescanAdvances(m: Mutex, h: Hist, t: Tid, a: Action)
    requires m.Shaped() && Enabled(m, t, a) && (a == Yield(false) || a == CutLast(false)) && NoOtherSession(m, t)
    requires SessionPc(m.pc[t]) && m.pc[t].w != m.word && 0 <= h.mark < |h.lock.waiting|
    ensures Helps(m, h, t, a)
  {
    OneStep(m, h, t, a);
  }

  /** With the queue bit free, an unlocker takes it or finds nothing to do. */
  lemma TakeAdvances(m: Mutex, h: Hist, t: Tid) returns (a: Action)
    requires Inv(m, h) && t < |m.pc| && h.session.None? && (m.pc[t].Seek? || m.pc[t].Take?)
    ensures Helps(m, h, t, a)
  {
    SessionsApart(m, h, t);
    var p := m.pc[t];
    a := if p.Seek? then LoadWord
         else if p.fair && p.w.queueLocked then SpinQueue
         else if !p.fair && (p.w.queueLocked || p.w.head.None?) then GiveUp
         else TakeQueue(p.w == m.word);
    UnlockerAdvances(m, h, t, a);
  }

  lemma UnlockerAdvances(m: Mutex, h: Hist, t: Tid, a: Action)
    requires m.Shaped() && Enabled(m, t, a) && NoOtherSession(m, t) && !m.word.queueLocked
    requires m.pc[t].Seek? || (m.pc[t].Take? && (a == TakeQueue(false) ==> m.pc[t].w != m.word))
    ensures Helps(m, h, t, a)
  {
    OneStep(m, h, t, a);
  }

  lemma HolderAdvances(m: Mutex, h: Hist, t: Tid) returns (a: Action)
    requires Inv(m, h) && t < |m.pc| && h.session.None? && (m.pc[t].Holding? || m.pc[t].Lapsed?)
    ensures Helps(m, h, t, a)
  {
    SessionsApart(m, h, t);
    ReleaseKeeps(m, h, t);
    a := if m.pc[t].Holding? then Unlock else ClearTimeout;
    ReleaseAdvances(m, h, t, a);
  }

  lemma ReleaseAdvances(m: Mutex, h: Hist, t: Tid, a: Action)
    requires m.Shaped() && Enabled(m, t, a) && NoOtherSession(m, t) && Allows(h.lock, Release(t))
    requires a == Unlock || a == ClearTimeout
    ensures Helps(m, h, t, a)
  {
    OneStep(m, h, t, a);
  }

  /** The one step that moves two threads: the removed one is notified. */
  lemma WakerAdvances(m: Mutex, h: Hist, t: Tid) returns (a: Action)
    requires Inv(m, h) && t < |m.pc| && m.pc[t].Wake?
    ensures Helps(m, h, t, a)
  {
    a := Unpark;
    assert ThreadOk(m, h, t);
  }

  lemma SleeperAdvances(m: Mutex, h: Hist, t: Tid) returns (a: Action)
    requires Inv(m, h) && t < |m.pc| && h.session.None? && Sleeps(m.pc[t]) && !Asleep(m, t)
    ensures Helps(m, h, t, a)
  {
    SessionsApart(m, h, t);
    assert ThreadOk(m, h, t);
    a := if m.pc[t].Published? then Park else Return;
    OneStep(m, h, t, a);
  }

  /** On a free lock, a locker takes it, once it has seen the word as it is. */
  lemma LockerAdvances(m: Mutex, h: Hist, t: Tid) returns (a: Action)
    requires Inv(m, h) && t < |m.pc| && h.session.None? && (m.pc[t].Load? || m.pc[t].Loop? || m.pc[t].Ready?)
    requires !m.word.locked
    ensures Helps(m, h, t, a)
  {
    SessionsApart(m, h, t);
    assert ThreadOk(m, h, t);
    var p := m.pc[t];
    a := if p.Load? then LoadWord
         else if p.Ready? then Push(false)
         else if p.w.locked then Prepare
         else Grab(p.w == m.word);
    OneStep(m, h, t, a);
  }

  // ---------- somebody can advance ----------

  predicate Quiet(m: Mutex)
    requires m.Shaped()
  {
    forall t :: 0 <= t < |m.pc| ==> m.pc[t].Outside? || Asleep(m, t)
  }

  /** The order in which threads are advanced: the queue owner first, lockers last. */
  predicate Urgent(m: Mutex, t: Tid)
    requires m.Shaped()
  {
    t < |m.pc| &&
    var p := m.pc[t];
    p.Wake? || p.Seek? || p.Take? || p.Holding? || p.Lapsed? || (Sleeps(p) && !Asleep(m, t))
  }

  /** Outside a session, the lock is held by a thread at one of these points, or handed to one that is being woken. */
  lemma HolderIsUrgent(m: Mutex, h: Hist) returns (t: Tid)
    requires Inv(m, h) && m.word.locked && h.session.None?
    ensures Urgent(m, t)
  {
    t := h.lock.owner.value;
    assert ThreadOk(m, h, t);
    if h.lock.phase[t].Removed? {
      t := h.lock.phase[t].remover;
    }
  }

  lemma UrgentAdvances(m: Mutex, h: Hist, t: Tid) returns (a: Action)
    requires Inv(m, h) && h.session.None? && Urgent(m, t)
    ensures Helps(m, h, t, a)
  {
    hide Helps, Inv;
    var p := m.pc[t];
    if p.Wake? { a := WakerAdvances(m, h, t); }
    else if p.Seek? || p.Take? { a := TakeAdvances(m, h, t); }
    else if p.Holding? || p.Lapsed? { a := HolderAdvances(m, h, t); }
    else { a := SleeperAdvances(m, h, t); }
  }

  lemma SomebodyAdvances(m: Mutex, h: Hist) returns (t: Tid, a: Action)
    requires Inv(m, h) && !Quiet(m)
    ensures t < |m.pc| && Helps(m, h, t, a)
  {
    hide Helps, Represents, CostOk, Attended;
    if h.session.Some? {
      t := h.session.value;
      if m.pc[t].Scan? { a := ScanAdvances(m, h, t); } else { a := CommitAdvances(m, h, t); }
    } else if exists u :: Urgent(m, u) {
      t :| Urgent(m, t);
      a := UrgentAdvances(m, h, t);
    } else {
      t :| 0 <= t < |m.pc| && !(m.pc[t].Outside? || Asleep(m, t));
      assert ThreadOk(m, h, t) && !Urgent(m, t);
      if m.word.locked {
        var o := HolderIsUrgent(m, h);
        assert false;
      }
      a := LockerAdvances(m, h, t);
    }
  }

  // ---------- the sums fall ----------

  function Stages(m: Mutex): seq<nat>
    requires m.Shaped()
  {
    seq(|m.pc|, t requires 0 <= t < |m.pc| => StageOf(m, t))
  }

  function Detours(m: Mutex, h: Hist): seq<nat> {
    seq(|m.pc|, t requires 0 <= t < |m.pc| => Detour(m.pc[t], m.word, h))
  }

  lemma AdvancesLowers(m: Mutex, h: Hist, t: Tid, m': Mutex, h': Hist)
    requires m.Shaped() && m'.Shaped() && |m'.pc| == |m.pc| && t < |m.pc|
    requires Advances(m, h, t, m', h')
    ensures Sum(Stages(m')) < Sum(Stages(m))
            || (Sum(Stages(m')) == Sum(Stages(m)) && Sum(Detours(m', h')) < Sum(Detours(m, h)))
  {
    hide Stage, Detour;
    SumFalls(Stages(m), Stages(m'));
    if StageOf(m', t) < StageOf(m, t) {
      assert Stages(m')[t] < Stages(m)[t];
    } else {
      assert Detours(m', h')[t] < Detours(m, h)[t];
      SumFalls(Detours(m, h), Detours(m', h'));
    }
  }

  /** One move, and then others. */
  lemma {:induction false} ExtendsFront(m: Mutex, first: Move, next: Mutex, moves: seq<Move>, m': Mutex)
    requires m.Shaped() && Enabled(m, first.t, first.a)
    requires next == Step(m, first.t, first.a) && first.e == EventOf(m, first.t, first.a)
    requires Extends(next, moves, m')
    ensures Extends(m, [first] + moves, m')
    decreases |moves|
  {
    hide Enabled, Step, EventOf;
    var all := [first] + moves;
    if moves == [] {
      assert all[..|all| - 1] == [];
      assert ExtendsBy(m, all, m, m');
    } else {
      var last := |moves| - 1;
      var before :| ExtendsBy(next, moves, before, m');
      ExtendsFront(m, first, next, moves[..last], before);
      assert all[..|all| - 1] == [first] + moves[..last];
      assert ExtendsBy(m, all, before, m');
    }
  }

  /** Advancing whoever can advance ends in a quiet state. */
  lemma Settle(m: Mutex, h: Hist) returns (moves: seq<Move>, m': Mutex)
    requires Inv(m, h)
    ensures Extends(m, moves, m') && m'.Shaped() && Quiet(m')
    decreases Sum(Stages(m)), Sum(Detours(m, h))
  {
    hide Enabled, Step, EventOf, Track, Stages, Detours, Advances, Represents, WordOk, SessionOk, Attended, CostOk;
    if Quiet(m) {
      moves, m' := [], m;
    } else {
      var t, a := SomebodyAdvances(m, h);
      StepKeeps(m, h, t, a);
      var next, g := Step(m, t, a), Track(m, h, t, a);
      assert |next.pc| == |m.pc|;
      AdvancesLowers(m, h, t, next, g);
      var rest;
      rest, m' := Settle(next, g);
      var first := Move(t, a, EventOf(m, t, a));
      ExtendsFront(m, first, next, rest, m');
      moves := [first] + rest;
    }
  }

  /**
   From every reachable state, whatever happened before, the mutex can still be
   brought to the word `IDLE` with every thread outside: no sleeper is cut off
   and no queue owner is bound to scan for ever.
   */
  lemma CanAlwaysFinish(run: seq<Move>, m: Mutex) returns (moves: seq<Move>, m': Mutex)
    requires Reaches(run, m)
    ensures Extends(m, moves, m') && m'.Shaped()
    ensures m'.word == IDLE && forall t :: 0 <= t < |m'.pc| ==> m'.pc[t].Outside?
  {
    var h := Trace(run, m);
    moves, m' := Settle(m, h);
    ExtendsReaches(run, m, moves, m');
    QuietIsIdle(run + moves, m');
  }
}
