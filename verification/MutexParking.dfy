/** `RawMutex` drives the parker inside each node as the one-token parker allows, and never spends a wake-up in vain. */
module MutexParking {
  import opened Threads
  import opened Wrappers
  import opened MutexSpec
  import opened RawMutex
  import opened NodeList
  import opened MutexInvariant
  import opened MutexSteps
  import opened MutexTheorems
  import ParkerSpec

  function ParkerOf(m: Mutex, t: Tid): ParkerSpec.Parker
    requires m.Shaped() && t < |m.pc|
  {
    ParkerSpec.Parker(m.notified[t], m.pc[t].Parked?)
  }

  /** What a step of `u` does to the parker in the node of `t`. */
  function CallOn(m: Mutex, u: Tid, a: Action, t: Tid): ParkerSpec.Event
    requires m.Shaped() && u < |m.pc|
  {
    if u == t && a == Park then ParkerSpec.Begin
    else if u == t && a == Return then ParkerSpec.Return(true)
    else if a == Unpark && m.pc[u].Wake? && m.pc[u].tail == t then ParkerSpec.Unpark
    else ParkerSpec.Silent
  }

  /**
   Every step is one the parker allows. An `unpark` finds no token, and its
   thread in `park` or on the way there.
   */
  lemma UsesParker(run: seq<Move>, m: Mutex, u: Tid, a: Action, t: Tid)
    requires Reaches(run, m) && Enabled(m, u, a) && t < |m.pc|
    ensures ParkerSpec.Allows(ParkerOf(m, t), CallOn(m, u, a, t))
    ensures ParkerOf(Step(m, u, a), t) == ParkerSpec.After(ParkerOf(m, t), CallOn(m, u, a, t))
    ensures CallOn(m, u, a, t).Unpark? ==> !ParkerOf(m, t).token && Sleeps(m.pc[t])
  {
    StepDoesNotFault(run, m, u, a);
    ParkerReady(run, m, u, a, t);
    OneParker(m, u, a, t);
  }

  lemma ParkerReady(run: seq<Move>, m: Mutex, u: Tid, a: Action, t: Tid)
    requires Reaches(run, m) && Enabled(m, u, a) && t < |m.pc|
    ensures Sleeps(m.pc[t]) || !m.notified[t]
    ensures ParkerSpec.Allows(ParkerOf(m, t), CallOn(m, u, a, t))
    ensures CallOn(m, u, a, t).Unpark? ==> !ParkerOf(m, t).token && Sleeps(m.pc[t])
  {
    hide Reaches, Enabled;
    TokenOnlyWhileEnlisted(run, m, t);
    CallsFit(m, u, a);
    if m.pc[u].Wake? && m.pc[u].tail == t {
      TargetEnlisted(run, m, u);
    }
  }

  /** Where a thread is when it parks, returns or unparks. */
  lemma CallsFit(m: Mutex, u: Tid, a: Action)
    requires m.Shaped() && Enabled(m, u, a)
    ensures u < |m.pc|
    ensures a == Park ==> m.pc[u].Published?
    ensures a == Return ==> m.pc[u].Parked? && m.notified[u]
    ensures a == Unpark ==> m.pc[u].Wake?
  {
  }

  lemma TargetEnlisted(run: seq<Move>, m: Mutex, u: Tid)
    requires Reaches(run, m) && u < |m.pc| && m.pc[u].Wake?
    ensures Enlisted(m, m.pc[u].tail)
  {
    TouchesOnlyEnlisted(run, m, u);
  }

  lemma TokenOnlyWhileEnlisted(run: seq<Move>, m: Mutex, t: Tid)
    requires Reaches(run, m) && t < |m.pc|
    ensures Sleeps(m.pc[t]) || !m.notified[t]
  {
    hide Represents, WordOk, SessionOk, Attended, CostOk;
    var h := Trace(run, m);
    assert ThreadOk(m, h, t);
  }

  lemma StepDoesNotFault(run: seq<Move>, m: Mutex, u: Tid, a: Action)
    requires Reaches(run, m) && Enabled(m, u, a)
    ensures !Step(m, u, a).pc[u].Fault?
  {
    var h := Trace(run, m);
    StepKeeps(m, h, u, a);
    assert ThreadOk(Step(m, u, a), Track(m, h, u, a), u);
  }

  /** A step touches no parker but the caller's own and the removed node's. */
  lemma OneParker(m: Mutex, u: Tid, a: Action, t: Tid)
    requires m.Shaped() && Enabled(m, u, a) && t < |m.pc| && !Step(m, u, a).pc[u].Fault?
    requires Sleeps(m.pc[t]) || !m.notified[t]
    ensures ParkerOf(Step(m, u, a), t) == ParkerSpec.After(ParkerOf(m, t), CallOn(m, u, a, t))
  {
    if a.Unpark? {
      WakeTouchesOne(m, u, t);
    } else if u == t {
      OwnParker(m, t, a);
    } else {
      OtherParker(m, u, a, t);
    }
  }

  lemma WakeTouchesOne(m: Mutex, u: Tid, t: Tid)
    requires m.Shaped() && Enabled(m, u, Unpark) && t < |m.pc| && !Step(m, u, Unpark).pc[u].Fault?
    ensures ParkerOf(Step(m, u, Unpark), t) == ParkerSpec.After(ParkerOf(m, t), CallOn(m, u, Unpark, t))
  {
  }

  lemma OwnParker(m: Mutex, t: Tid, a: Action)
    requires m.Shaped() && Enabled(m, t, a) && !a.Unpark?
    requires Sleeps(m.pc[t]) || !m.notified[t]
    ensures ParkerOf(Step(m, t, a), t) == ParkerSpec.After(ParkerOf(m, t), CallOn(m, t, a, t))
  {
  }

  lemma OtherParker(m: Mutex, u: Tid, a: Action, t: Tid)
    requires m.Shaped() && Enabled(m, u, a) && !a.Unpark? && t < |m.pc| && u != t
    ensures ParkerOf(Step(m, u, a), t) == ParkerOf(m, t)
  {
  }

  // ---------- an unpark before the park ----------

  /** A run goes on by one step. */
  lemma Go(run: seq<Move>, m: Mutex, t: Tid, a: Action) returns (run': seq<Move>, m': Mutex)
    requires Reaches(run, m) && Enabled(m, t, a)
    ensures Reaches(run', m') && m' == Step(m, t, a)
  {
    hide Enabled, Step, EventOf;
    m' := Step(m, t, a);
    run' := run + [Move(t, a, EventOf(m, t, a))];
    assert run'[..|run'| - 1] == run;
    assert Continues(run', m, m');
  }

  const UNUSED := Node(None, None, None, false)
  const PUBLISHED := Node(None, None, Some(1), false)

  /** The word before and after the queue bit is taken. */
  const BEFORE := Word(true, false, true, Some(1))
  const AFTER := Word(true, true, true, Some(1))

  /** Two threads, one of which holds the lock while the other has just published its node. */
  function Contended(): Mutex {
    Mutex(LOCKED.(head := Some(1)), [Holding, Published], [UNUSED, PUBLISHED], [false, false])
  }

  lemma ReachContended() returns (run: seq<Move>)
    ensures Reaches(run, Contended())
  {
    var m := Mutex(IDLE, [Outside, Outside], [UNUSED, UNUSED], [false, false]);
    run := [];
    run, m := Go(run, m, 0, LockFast(true));
    run, m := Go(run, m, 1, LockFast(false));
    run, m := Go(run, m, 1, LoadWord);
    run, m := Go(run, m, 1, Prepare);
    run, m := Go(run, m, 1, Push(true));
    assert m == Contended();
  }

  /** The holder has fired the fair timeout and taken the queue bit. */
  function HandingOn(p: Pc): Mutex {
    Contended().(word := AFTER, pc := [p, Published])
  }

  lemma ReachHandingOn() returns (run: seq<Move>)
    ensures Reaches(run, HandingOn(Scan(true, BEFORE, 1)))
  {
    run := ReachContended();
    var m := Contended();
    run, m := Go(run, m, 0, UnlockFair(true));
    run, m := Go(run, m, 0, LoadWord);
    run, m := Go(run, m, 0, TakeQueue(true));
    assert m == HandingOn(Scan(true, BEFORE, 1));
  }

  /** One scan of the single node. */
  lemma ScanOnce(run: seq<Move>, w: Word) returns (run': seq<Move>)
    requires w.head == Some(1) && Reaches(run, HandingOn(Scan(true, w, 1)))
    ensures Reaches(run', HandingOn(Cut(true, w, 1)))
  {
    var m := HandingOn(Scan(true, w, 1));
    run', m := Go(run, m, 0, Linked);
    run', m := Go(run', m, 0, SeeLast);
    assert m == HandingOn(Cut(true, w, 1));
  }

  /**
   The thread about to be unparked need not be asleep: it may have published its
   node and not have called `park` yet. Its token makes the later `park` return.
   */
  lemma UnparkBeforePark() returns (run: seq<Move>, m: Mutex)
    ensures Reaches(run, m) && m.Shaped() && m.pc == [Wake(true, 1), Published]
    ensures Enabled(m, 0, Unpark)
    ensures var woken := Step(m, 0, Unpark);
            Enabled(woken, 1, Park) && Enabled(Step(woken, 1, Park), 1, Return)
  {
    run := ReachHandingOn();
    run := ScanOnce(run, BEFORE);
    run, m := Go(run, HandingOn(Cut(true, BEFORE, 1)), 0, CutLast(false));
    assert m == HandingOn(Scan(true, AFTER, 1));
    run := ScanOnce(run, AFTER);
    run, m := Go(run, HandingOn(Cut(true, AFTER, 1)), 0, CutLast(true));
  }
}
