/**
 The futex-based `ThreadParker`: one thread that parks, any number of threads
 that unpark, and a futex whose waits may end for no reason.
 */
module FutexParker {
  import opened Wrappers
  import opened ParkerSpec
  import SemaphoreParker

  const PARKED: bv32 := 0xFFFF_FFFF
  const IDLE: bv32 := 0
  const NOTIFIED: bv32 := 1

  /** Where the parking thread is; `timed` tells `park_until` from `park`. */
  datatype Owner =
    | Outside
    | Entered(timed: bool)
    | Waiting(timed: bool)      // at the top of the loop
    | Asleep(timed: bool)       // inside the futex wait
    | Checking(timed: bool)     // the wait has returned
    | Unreachable               // the `unreachable!` arm

  /** `waking[u]` says that unparker `u` has seen `PARKED` and has not called `wake_one` yet. */
  datatype Futex = Futex(word: bv32, owner: Owner, waking: seq<bool>)

  datatype Action =
    | Enter(timed: bool)
    | FetchSub
    | Wait
    | EndWait                   // spurious wake-up, signal, or the wait's own timeout
    | Check
    | TimeOut
    | Swap(u: nat)
    | WakeOne(u: nat)

  predicate Enabled(s: Futex, a: Action) {
    match a
    case Enter(_) => s.owner.Outside?
    case FetchSub => s.owner.Entered?
    case Wait => s.owner.Waiting?
    case EndWait => s.owner.Asleep?
    case Check => s.owner.Checking?
    case TimeOut => s.owner.Waiting? && s.owner.timed
    case Swap(u) => u < |s.waking| && !s.waking[u]
    case WakeOne(u) => u < |s.waking| && s.waking[u]
  }

  function Step(s: Futex, a: Action): Futex
    requires Enabled(s, a)
  {
    match a
    case Enter(timed) => s.(owner := Entered(timed))
    case FetchSub =>
      s.(word := s.word - 1, owner := if s.word == NOTIFIED then Outside else Waiting(s.owner.timed))
    case Wait => s.(owner := if s.word == PARKED then Asleep(s.owner.timed) else Checking(s.owner.timed))
    case EndWait => s.(owner := Checking(s.owner.timed))
    case Check =>
      if s.word == NOTIFIED then s.(word := IDLE, owner := Outside) else s.(owner := Waiting(s.owner.timed))
    case TimeOut =>
      s.(word := IDLE, owner := if s.word == NOTIFIED || s.word == PARKED then Outside else Unreachable)
    case Swap(u) => s.(word := NOTIFIED, waking := s.waking[u := s.word == PARKED])
    case WakeOne(u) =>
      s.(waking := s.waking[u := false],
         owner := if s.owner.Asleep? then Checking(s.owner.timed) else s.owner)
  }

  function EventOf(s: Futex, a: Action): Event {
    match a
    case Enter(_) => Begin
    case FetchSub => if s.word == NOTIFIED then Return(true) else Silent
    case Check => if s.word == NOTIFIED then Return(true) else Silent
    case TimeOut => Return(s.word == NOTIFIED)
    case Swap(_) => Unpark
    case _ => Silent
  }

  predicate Init(s: Futex) {
    s.word == IDLE && s.owner == Outside && forall u :: 0 <= u < |s.waking| ==> !s.waking[u]
  }

  function Abstract(s: Futex): Parker { Parker(s.word == NOTIFIED, !s.owner.Outside?) }

  ghost predicate Inv(s: Futex) {
    && (s.word == IDLE || s.word == PARKED || s.word == NOTIFIED)
    && (s.owner.Outside? || s.owner.Entered? ==> s.word != PARKED)
    && (s.owner.Waiting? || s.owner.Asleep? || s.owner.Checking? ==> s.word != IDLE)
    && (s.owner.Asleep? && s.word == NOTIFIED ==> exists u :: 0 <= u < |s.waking| && s.waking[u])
    && !s.owner.Unreachable?
  }

  /** Every step keeps the invariant and is a step of the one-token parker. */
  lemma StepRefines(s: Futex, a: Action)
    requires Inv(s) && Enabled(s, a)
    ensures Inv(Step(s, a))
    ensures Allows(Abstract(s), EventOf(s, a))
    ensures Abstract(Step(s, a)) == After(Abstract(s), EventOf(s, a))
  {
    var s' := Step(s, a);
    if s'.owner.Asleep? && s'.word == NOTIFIED {
      WakerStays(s, a);
    }
  }

  /** A step that leaves the owner asleep on a notified word leaves or makes it a waker. */
  lemma WakerStays(s: Futex, a: Action)
    requires Inv(s) && Enabled(s, a)
    requires Step(s, a).owner.Asleep? && Step(s, a).word == NOTIFIED
    ensures exists u :: 0 <= u < |s.waking| && Step(s, a).waking[u]
  {
    var s' := Step(s, a);
    if a.Swap? && s.word == PARKED {
      assert s'.waking[a.u];
    } else {
      var u :| 0 <= u < |s.waking| && s.waking[u];
      assert s'.waking[u];
    }
  }

  /** A run from the initial state, with the events it is for the abstract parker. */
  ghost predicate Reaches(run: seq<Action>, events: seq<Event>, s: Futex)
    decreases |run|
  {
    if run == [] then events == [] && Init(s)
    else events != [] && exists before :: Continues(run, events, before, s)
  }

  ghost predicate Continues(run: seq<Action>, events: seq<Event>, before: Futex, s: Futex)
    requires run != [] && events != []
    decreases |run|, 0
  {
    var a := run[|run| - 1];
    && Reaches(run[..|run| - 1], events[..|events| - 1], before)
    && Enabled(before, a) && s == Step(before, a) && events[|events| - 1] == EventOf(before, a)
  }

  /** Every run of the futex parker is a run of the one-token parker. */
  lemma {:induction false} Refines(run: seq<Action>, events: seq<Event>, s: Futex)
    requires Reaches(run, events, s)
    ensures Follows(events, Abstract(s)) && Inv(s)
  {
    if run != [] {
      var before :| Continues(run, events, before, s);
      Refines(run[..|run| - 1], events[..|events| - 1], before);
      StepRefines(before, run[|run| - 1]);
      var p := Abstract(before);
      assert p == Parker(p.token, p.parked);
    }
  }

  /**
   In every reachable state the word is one of the three constants, the
   `unreachable!` arm has not been taken, and a thread asleep on `NOTIFIED`
   has an unparker that is about to wake it.
   */
  lemma NoLostWakeup(run: seq<Action>, events: seq<Event>, s: Futex)
    requires Reaches(run, events, s)
    ensures s.word == IDLE || s.word == PARKED || s.word == NOTIFIED
    ensures !s.owner.Unreachable?
    ensures s.owner.Asleep? && HasToken(events) ==> exists u :: Enabled(s, WakeOne(u))
  {
    Refines(run, events, s);
    TokensConserved(events, Abstract(s));
    if s.owner.Asleep? && s.word == NOTIFIED {
      var u :| 0 <= u < |s.waking| && s.waking[u];
      assert Enabled(s, WakeOne(u));
    }
  }

  // ---------- which call returns how ----------

  /** The last call that the owner made, if it has made one: true for `park_until`. */
  function LastCall(run: seq<Action>): Option<bool> {
    if run == [] then None
    else if run[|run| - 1].Enter? then Some(run[|run| - 1].timed)
    else LastCall(run[..|run| - 1])
  }

  predicate InCall(o: Owner) { !o.Outside? && !o.Unreachable? }

  /** The owner is in the call that it made last. */
  lemma {:induction false} InLastCall(run: seq<Action>, events: seq<Event>, s: Futex)
    requires Reaches(run, events, s)
    ensures InCall(s.owner) ==> LastCall(run) == Some(s.owner.timed)
  {
    if run != [] {
      var before :| Continues(run, events, before, s);
      InLastCall(run[..|run| - 1], events[..|events| - 1], before);
      CallStays(before, run[|run| - 1]);
      hide Enabled, Step, EventOf;
    }
  }

  /** Only `Enter` says which call it is. */
  lemma CallStays(s: Futex, a: Action)
    requires Enabled(s, a)
    ensures InCall(Step(s, a).owner) ==>
              if a.Enter? then Step(s, a).owner.timed == a.timed
              else InCall(s.owner) && Step(s, a).owner.timed == s.owner.timed
  {
  }

  /** Only `park_until` returns without a token; `park` has no such way out. */
  lemma ParkReturnsOnlyWithToken(run: seq<Action>, events: seq<Event>, s: Futex)
    requires Reaches(run, events, s) && run != [] && events[|events| - 1] == Return(false)
    ensures LastCall(run) == Some(true)
  {
    var before :| Continues(run, events, before, s);
    InLastCall(run[..|run| - 1], events[..|events| - 1], before);
  }

  // ---------- calls can return ----------

  /** A run goes on by one step. */
  lemma Go(run: seq<Action>, events: seq<Event>, s: Futex, a: Action)
    returns (run': seq<Action>, events': seq<Event>, s': Futex)
    requires Reaches(run, events, s) && Enabled(s, a)
    ensures Reaches(run', events', s') && s' == Step(s, a)
    ensures run' == run + [a] && events' == events + [EventOf(s, a)]
  {
    hide Enabled, Step, EventOf;
    run', events', s' := run + [a], events + [EventOf(s, a)], Step(s, a);
    assert run'[..|run'| - 1] == run && events'[..|events'| - 1] == events;
    assert Continues(run', events', s, s');
  }

  /** Brings the owner to the check after a wait, or out of the call. */
  lemma ToCheck(run: seq<Action>, events: seq<Event>, s: Futex)
    returns (run': seq<Action>, events': seq<Event>, s': Futex)
    requires Reaches(run, events, s) && InCall(s.owner) && s.word == NOTIFIED
    ensures Reaches(run', events', s')
    ensures (s'.owner.Checking? && s'.word == NOTIFIED)
            || (s'.owner.Outside? && events' != [] && events'[|events'| - 1] == Return(true))
    ensures |run'| <= |run| + 1
  {
    run', events', s' := run, events, s;
    match s.owner
    case Entered(_) => run', events', s' := Go(run, events, s, FetchSub);
    case Waiting(_) => run', events', s' := Go(run, events, s, Wait);
    case Asleep(_) => run', events', s' := Go(run, events, s, EndWait);
    case Checking(_) =>
  }

  /** An owner that has a token is at most two steps from returning with it. */
  lemma TokenIsTaken(run: seq<Action>, events: seq<Event>, s: Futex)
    returns (run': seq<Action>, events': seq<Event>, s': Futex)
    requires Reaches(run, events, s) && InCall(s.owner) && HasToken(events)
    ensures Reaches(run', events', s') && |run'| <= |run| + 2
    ensures s'.owner.Outside? && events' != [] && events'[|events'| - 1] == Return(true)
  {
    Refines(run, events, s);
    TokensConserved(events, Abstract(s));
    run', events', s' := ToCheck(run, events, s);
    if !s'.owner.Outside? {
      run', events', s' := Go(run', events', s', Check);
    }
  }

  /** `park_until` can always time out: at most three steps, and no token is needed. */
  lemma TimeoutReturns(run: seq<Action>, events: seq<Event>, s: Futex)
    returns (run': seq<Action>, events': seq<Event>, s': Futex)
    requires Reaches(run, events, s) && InCall(s.owner) && s.owner.timed
    ensures Reaches(run', events', s') && |run'| <= |run| + 3
    ensures s'.owner.Outside? && events' != [] && events'[|events'| - 1] == Return(HasToken(events))
  {
    Refines(run, events, s);
    TokensConserved(events, Abstract(s));
    if HasToken(events) {
      run', events', s' := TokenIsTaken(run, events, s);
    } else {
      run', events', s' := ToTimeOut(run, events, s);
      run', events', s' := Go(run', events', s', TimeOut);
    }
  }

  lemma ToTimeOut(run: seq<Action>, events: seq<Event>, s: Futex)
    returns (run': seq<Action>, events': seq<Event>, s': Futex)
    requires Reaches(run, events, s) && InCall(s.owner) && s.owner.timed && Inv(s) && s.word != NOTIFIED
    ensures Reaches(run', events', s') && |run'| <= |run| + 2
    ensures s'.owner == Waiting(true) && s'.word == PARKED
  {
    run', events', s' := run, events, s;
    if s.owner.Entered? {
      run', events', s' := Go(run, events, s, FetchSub);
    } else if s.owner.Asleep? {
      run', events', s' := Go(run, events, s, EndWait);
    }
    if s'.owner.Checking? {
      run', events', s' := Go(run', events', s', Check);
    }
  }

  // ---------- wake calls ----------

  /** How often `wake_one` has been called. */
  function Wakes(run: seq<Action>): nat {
    if run == [] then 0 else Wakes(run[..|run| - 1]) + (if run[|run| - 1].WakeOne? then 1 else 0)
  }

  /** How often the owner has subtracted one, which announces a wait unless there is a token. */
  function Announced(run: seq<Action>): nat {
    if run == [] then 0 else Announced(run[..|run| - 1]) + (if run[|run| - 1] == FetchSub then 1 else 0)
  }

  /** No `wake_one` without its own announcement: an unpark of a thread that does not wait makes no system call. */
  lemma {:induction false} WakesAreAnnounced(run: seq<Action>, events: seq<Event>, s: Futex)
    requires Reaches(run, events, s)
    ensures Wakes(run) + SemaphoreParker.Pending(s.waking) + (if s.word == PARKED then 1 else 0) <= Announced(run)
  {
    if run == [] {
      SemaphoreParker.NonePending(s.waking);
    } else {
      var before :| Continues(run, events, before, s);
      WakesAreAnnounced(run[..|run| - 1], events[..|events| - 1], before);
      Refines(run[..|run| - 1], events[..|events| - 1], before);
      OneMoreWake(before, run[|run| - 1]);
    }
  }

  lemma OneMoreWake(s: Futex, a: Action)
    requires Inv(s) && Enabled(s, a)
    ensures var s' := Step(s, a);
            SemaphoreParker.Pending(s'.waking) + (if s'.word == PARKED then 1 else 0) + (if a.WakeOne? then 1 else 0)
            <= SemaphoreParker.Pending(s.waking) + (if s.word == PARKED then 1 else 0)
               + (if a == FetchSub then 1 else 0)
  {
    if a.Swap? {
      SemaphoreParker.PendingUpdate(s.waking, a.u, s.word == PARKED);
    } else if a.WakeOne? {
      SemaphoreParker.PendingUpdate(s.waking, a.u, false);
    }
  }
}
