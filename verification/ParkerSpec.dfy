/**
 The abstract thread parker: one token, one thread that may park, any number of
 threads that unpark. Both platform parkers are proved to refine it, and
 `RawMutex` uses it through its `notified` flags.
 */
module ParkerSpec {
  datatype Parker = Parker(token: bool, parked: bool)

  /** `Return(ok)` is a return of `park` or `park_until`; `ok` is false for a timeout. */
  datatype Event = Silent | Unpark | Begin | Return(ok: bool)

  predicate Allows(p: Parker, e: Event) {
    match e
    case Silent => true
    case Unpark => true
    case Begin => !p.parked
    case Return(ok) => p.parked && p.token == ok
  }

  function After(p: Parker, e: Event): Parker {
    match e
    case Silent => p
    case Unpark => p.(token := true)
    case Begin => p.(parked := true)
    case Return(_) => Parker(false, false)
  }

  const EMPTY := Parker(false, false)

  /** The parker allows `events`, one after the other, from its initial state, and they lead to `p`. */
  predicate Follows(events: seq<Event>, p: Parker) {
    if events == [] then p == EMPTY
    else
      var e := events[|events| - 1];
      exists token, parked ::
        var before := Parker(token, parked);
        Follows(events[..|events| - 1], before) && Allows(before, e) && p == After(before, e)
  }

  /** Unparks that find no token, and so make one. */
  function Granted(events: seq<Event>): nat {
    if events == [] then 0
    else
      var before := events[..|events| - 1];
      Granted(before) + (if events[|events| - 1].Unpark? && !HasToken(before) then 1 else 0)
  }

  /** Whether the last thing that touched the token left it there. */
  predicate HasToken(events: seq<Event>) {
    events != [] &&
    match events[|events| - 1]
    case Unpark => true
    case Return(_) => false
    case _ => HasToken(events[..|events| - 1])
  }

  function Consumed(events: seq<Event>): nat {
    if events == [] then 0
    else Consumed(events[..|events| - 1]) + (if events[|events| - 1] == Return(true) then 1 else 0)
  }

  /** Each successful return consumes exactly one granted token, and a granted token stays until it is consumed. */
  lemma {:induction false} TokensConserved(events: seq<Event>, p: Parker)
    requires Follows(events, p)
    ensures p.token == HasToken(events)
    ensures Granted(events) == Consumed(events) + (if p.token then 1 else 0)
  {
    if events != [] {
      var before, e := events[..|events| - 1], events[|events| - 1];
      var token, parked :|
        && Follows(before, Parker(token, parked)) && Allows(Parker(token, parked), e)
        && p == After(Parker(token, parked), e);
      TokensConserved(before, Parker(token, parked));
    }
  }

  /** An `unpark` is never lost: the next return after it is a successful one. */
  lemma {:induction false} UnparkNotLost(events: seq<Event>, p: Parker, i: nat)
    requires Follows(events, p) && i < |events| - 1 && events[i] == Unpark
    requires events[|events| - 1].Return?
    requires forall j :: i < j < |events| - 1 ==> !events[j].Return?
    ensures events[|events| - 1] == Return(true)
  {
    var before, e := events[..|events| - 1], events[|events| - 1];
    var token, parked :|
      && Follows(before, Parker(token, parked)) && Allows(Parker(token, parked), e)
      && p == After(Parker(token, parked), e);
    TokensConserved(before, Parker(token, parked));
    TokenStays(before, i);
  }

  lemma {:induction false} TokenStays(events: seq<Event>, i: nat)
    requires i < |events| && events[i] == Unpark
    requires forall j :: i < j < |events| ==> !events[j].Return?
    ensures HasToken(events)
  {
    if i < |events| - 1 {
      TokenStays(events[..|events| - 1], i);
    }
  }
}
