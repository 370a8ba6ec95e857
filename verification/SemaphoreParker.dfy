/**
 The semaphore-based `ThreadParker`, without timeouts: an unparker that finds
 the owner parked signals the semaphore after its swap, not with it.
 */
module SemaphoreParker {
  import opened ParkerSpec

  const PARKED: bv8 := 0xFF
  const IDLE: bv8 := 0
  const NOTIFIED: bv8 := 1

  datatype Owner = Outside | Entered | Waiting | Resetting

  /** `signalling[u]` says that unparker `u` is between its swap and its signal. */
  datatype Semaphore = Semaphore(word: bv8, count: nat, owner: Owner, signalling: seq<bool>)

  datatype Action = Enter | FetchSub | WaitFails | WaitSucceeds | Reset | Swap(u: nat) | Signal(u: nat)

  predicate Enabled(s: Semaphore, a: Action) {
    match a
    case Enter => s.owner.Outside?
    case FetchSub => s.owner.Entered?
    case WaitFails => s.owner.Waiting?
    case WaitSucceeds => s.owner.Waiting? && s.count > 0
    case Reset => s.owner.Resetting?
    case Swap(u) => u < |s.signalling| && !s.signalling[u]
    case Signal(u) => u < |s.signalling| && s.signalling[u]
  }

  function Step(s: Semaphore, a: Action): Semaphore
    requires Enabled(s, a)
  {
    match a
    case Enter => s.(owner := Entered)
    case FetchSub => s.(word := s.word - 1, owner := if s.word == NOTIFIED then Outside else Waiting)
    case WaitFails => s
    case WaitSucceeds => s.(count := s.count - 1, owner := Resetting)
    case Reset => s.(word := IDLE, owner := Outside)
    case Swap(u) => s.(word := NOTIFIED, signalling := s.signalling[u := s.word == PARKED])
    case Signal(u) => s.(count := s.count + 1, signalling := s.signalling[u := false])
  }

  function EventOf(s: Semaphore, a: Action): Event {
    match a
    case Enter => Begin
    case FetchSub => if s.word == NOTIFIED then Return(true) else Silent
    case Reset => Return(true)
    case Swap(_) => Unpark
    case _ => Silent
  }

  predicate Init(s: Semaphore) {
    s.word == IDLE && s.count == 0 && s.owner == Outside && forall u :: 0 <= u < |s.signalling| ==> !s.signalling[u]
  }

  function Abstract(s: Semaphore): Parker { Parker(s.word == NOTIFIED, !s.owner.Outside?) }

  /** Unparkers between their swap and their signal. */
  function Pending(signalling: seq<bool>): nat {
    if signalling == [] then 0
    else Pending(signalling[..|signalling| - 1]) + (if signalling[|signalling| - 1] then 1 else 0)
  }

  predicate Inv(s: Semaphore) {
    && s.word == (if s.owner.Waiting? && s.count + Pending(s.signalling) == 0 then PARKED
                  else if s.owner.Waiting? || s.owner.Resetting? || s.word == NOTIFIED then NOTIFIED
                  else IDLE)
    && s.count + Pending(s.signalling) <= (if s.owner.Waiting? then 1 else 0)
  }

  lemma {:induction false} PendingUpdate(signalling: seq<bool>, u: nat, b: bool)
    requires u < |signalling|
    ensures Pending(signalling[u := b]) ==
            Pending(signalling) - (if signalling[u] then 1 else 0) + (if b then 1 else 0)
  {
    var last := |signalling| - 1;
    var updated := signalling[u := b];
    if u == last {
      assert updated[..last] == signalling[..last];
    } else {
      assert updated[..last] == signalling[..last][u := b];
      PendingUpdate(signalling[..last], u, b);
    }
  }

  lemma {:induction false} NonePending(signalling: seq<bool>)
    requires forall u :: 0 <= u < |signalling| ==> !signalling[u]
    ensures Pending(signalling) == 0
  {
    if signalling != [] {
      NonePending(signalling[..|signalling| - 1]);
    }
  }

  lemma {:induction false} SomePending(signalling: seq<bool>) returns (u: nat)
    requires Pending(signalling) > 0
    ensures u < |signalling| && signalling[u]
  {
    var last := |signalling| - 1;
    if signalling[last] { u := last; } else { u := SomePending(signalling[..last]); }
  }

  /** Every step keeps the invariant and is a step of the one-token parker. */
  lemma StepRefines(s: Semaphore, a: Action)
    requires Inv(s) && Enabled(s, a)
    ensures Inv(Step(s, a))
    ensures Allows(Abstract(s), EventOf(s, a))
    ensures Abstract(Step(s, a)) == After(Abstract(s), EventOf(s, a))
  {
    match a
    case Swap(u) => PendingUpdate(s.signalling, u, s.word == PARKED);
    case Signal(u) => PendingUpdate(s.signalling, u, false);
    case _ =>
  }

  ghost predicate Reaches(run: seq<Action>, events: seq<Event>, s: Semaphore)
    decreases |run|
  {
    if run == [] then events == [] && Init(s)
    else events != [] && exists before :: Continues(run, events, before, s)
  }

  ghost predicate Continues(run: seq<Action>, events: seq<Event>, before: Semaphore, s: Semaphore)
    requires run != [] && events != []
    decreases |run|, 0
  {
    var a := run[|run| - 1];
    && Reaches(run[..|run| - 1], events[..|events| - 1], before)
    && Enabled(before, a) && s == Step(before, a) && events[|events| - 1] == EventOf(before, a)
  }

  /** Every run of the semaphore parker is a run of the one-token parker. */
  lemma {:induction false} Refines(run: seq<Action>, events: seq<Event>, s: Semaphore)
    requires Reaches(run, events, s)
    ensures Follows(events, Abstract(s)) && Inv(s)
  {
    if run == [] {
      NonePending(s.signalling);
    } else {
      var before :| Continues(run, events, before, s);
      Refines(run[..|run| - 1], events[..|events| - 1], before);
      StepRefines(before, run[|run| - 1]);
      var p := Abstract(before);
      assert p == Parker(p.token, p.parked);
    }
  }

  /**
   The semaphore count, with the signals still to come, is at most one, and zero
   whenever the owner is not waiting; a waiting owner whose token is there is
   woken by the count or by a signal to come.
   */
  lemma CountIsReset(run: seq<Action>, events: seq<Event>, s: Semaphore)
    requires Reaches(run, events, s)
    ensures s.count + Pending(s.signalling) <= 1
    ensures !s.owner.Waiting? ==> s.count == 0 && forall u :: 0 <= u < |s.signalling| ==> !s.signalling[u]
    ensures s.owner.Waiting? && HasToken(events) ==>
              Enabled(s, WaitSucceeds) || exists u :: Enabled(s, Signal(u))
  {
    Refines(run, events, s);
    TokensConserved(events, Abstract(s));
    forall u | 0 <= u < |s.signalling| && s.signalling[u]
      ensures Pending(s.signalling) > 0
    {
      PendingUpdate(s.signalling, u, false);
    }
    if s.owner.Waiting? && s.word == NOTIFIED && s.count == 0 {
      var u := SomePending(s.signalling);
      assert Enabled(s, Signal(u));
    }
  }

  /** A run goes on by one step. */
  lemma Go(run: seq<Action>, events: seq<Event>, s: Semaphore, a: Action)
    returns (run': seq<Action>, events': seq<Event>, s': Semaphore)
    requires Reaches(run, events, s) && Enabled(s, a)
    ensures Reaches(run', events', s') && s' == Step(s, a)
    ensures run' == run + [a] && events' == events + [EventOf(s, a)]
  {
    hide Enabled, Step, EventOf;
    run', events', s' := run + [a], events + [EventOf(s, a)], Step(s, a);
    assert run'[..|run'| - 1] == run && events'[..|events'| - 1] == events;
    assert Continues(run', events', s, s');
  }

  /** An owner that has a token is at most three steps from returning: a signal to come, the wait, the reset. */
  lemma TokenIsTaken(run: seq<Action>, events: seq<Event>, s: Semaphore)
    returns (run': seq<Action>, events': seq<Event>, s': Semaphore)
    requires Reaches(run, events, s) && !s.owner.Outside? && HasToken(events)
    ensures Reaches(run', events', s') && |run'| <= |run| + 3
    ensures s'.owner.Outside? && events' != [] && events'[|events'| - 1] == Return(true)
  {
    Refines(run, events, s);
    TokensConserved(events, Abstract(s));
    run', events', s' := run, events, s;
    if s.owner.Entered? {
      run', events', s' := Go(run, events, s, FetchSub);
    } else {
      if s.owner.Waiting? {
        if s.count == 0 {
          var u := SomePending(s.signalling);
          run', events', s' := Go(run, events, s, Signal(u));
        }
        run', events', s' := Go(run', events', s', WaitSucceeds);
      }
      run', events', s' := Go(run', events', s', Reset);
    }
  }

  /** Without a token, the owner does not return: nothing but a wait that fails is left to it. */
  lemma NoTokenNoReturn(run: seq<Action>, events: seq<Event>, s: Semaphore, a: Action)
    requires Reaches(run, events, s) && Enabled(s, a) && EventOf(s, a).Return?
    ensures HasToken(events) && EventOf(s, a) == Return(true)
  {
    Refines(run, events, s);
    TokensConserved(events, Abstract(s));
    StepRefines(s, a);
  }
}
