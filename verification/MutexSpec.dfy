/**
 The abstract lock that `RawMutex` is proved to refine: at most one owner, a
 first-in first-out queue of waiters, hand-off only to the oldest waiter, and
 for every enqueued thread one removal, one notification and one resumption.
 */
module MutexSpec {
  import opened Threads
  import opened Wrappers

  /** The life of a thread with respect to the queue; `handed` says it was given the lock. */
  datatype Phase = Active | Waiting | Removed(remover: Tid, handed: bool) | Notified(handed: bool)

  /** `waiting` is ordered from the oldest waiter to the newest one. */
  datatype Lock = Lock(owner: Option<Tid>, waiting: seq<Tid>, phase: seq<Phase>)
  {
    predicate Has(t: Tid, p: Phase) { t < |phase| && phase[t] == p }

    function Set(t: Tid, p: Phase): Lock {
      if t < |phase| then this.(phase := phase[t := p]) else this
    }
  }

  datatype Event =
    | Silent
    | Acquire(t: Tid)
    | Release(t: Tid)
    | Enqueue(t: Tid)
    | Dequeue(remover: Tid, t: Tid)
    | HandOff(remover: Tid, t: Tid)
    | Notify(remover: Tid, t: Tid)
    | Resume(t: Tid)

  /** When the abstract lock lets an event happen. */
  predicate Allows(l: Lock, e: Event) {
    match e
    case Silent => true
    case Acquire(t) => l.owner.None? && l.Has(t, Active)
    case Release(t) => l.owner == Some(t) && l.Has(t, Active)
    case Enqueue(t) => l.owner.Some? && l.owner != Some(t) && l.Has(t, Active)
    case Dequeue(_, t) => l.waiting != [] && l.waiting[0] == t && l.Has(t, Waiting)
    case HandOff(remover, t) => l.owner == Some(remover) && l.waiting != [] && l.waiting[0] == t && l.Has(t, Waiting)
    case Notify(remover, t) => t < |l.phase| && l.phase[t].Removed? && l.phase[t].remover == remover
    case Resume(t) => t < |l.phase| && l.phase[t].Notified?
  }

  /** The abstract state after an allowed event. */
  function After(l: Lock, e: Event): Lock
    requires Allows(l, e)
  {
    match e
    case Silent => l
    case Acquire(t) => l.(owner := Some(t))
    case Release(t) => l.(owner := None)
    case Enqueue(t) => l.(waiting := l.waiting + [t]).Set(t, Waiting)
    case Dequeue(remover, t) => l.(waiting := l.waiting[1..]).Set(t, Removed(remover, false))
    case HandOff(remover, t) => l.(owner := Some(t), waiting := l.waiting[1..]).Set(t, Removed(remover, true))
    case Notify(_, t) => l.Set(t, Notified(l.phase[t].handed))
    case Resume(t) => l.Set(t, Active)
  }

  /** The abstract lock of `n` threads before anybody has used it. */
  function Free(n: nat): Lock { Lock(None, [], seq(n, _ => Active)) }

  /** The abstract lock allows `events` one after the other, and they lead to `l`. */
  ghost predicate Follows(n: nat, events: seq<Event>, l: Lock)
    decreases |events|, 1
  {
    if events == [] then l == Free(n)
    else exists mid :: Precedes(n, events, mid, l)
  }

  ghost predicate Precedes(n: nat, events: seq<Event>, mid: Lock, l: Lock)
    requires events != []
    decreases |events|, 0
  {
    var e := events[|events| - 1];
    Follows(n, events[..|events| - 1], mid) && Allows(mid, e) && l == After(mid, e)
  }

  /** The abstract state is a function of the events. */
  lemma {:induction false} FollowsUnique(n: nat, events: seq<Event>, l: Lock, l': Lock)
    requires Follows(n, events, l) && Follows(n, events, l')
    ensures l == l'
  {
    if events != [] {
      var mid :| Precedes(n, events, mid, l);
      var mid' :| Precedes(n, events, mid', l');
      FollowsUnique(n, events[..|events| - 1], mid, mid');
    }
  }

  /** The threads enqueued by a sequence of events, in order. */
  function Enqueued(events: seq<Event>): seq<Tid> {
    if events == [] then []
    else
      var e := events[|events| - 1];
      Enqueued(events[..|events| - 1]) + (if e.Enqueue? then [e.t] else [])
  }

  /** The threads taken off the queue by a sequence of events, in order. */
  function Taken(events: seq<Event>): seq<Tid> {
    if events == [] then []
    else
      var e := events[|events| - 1];
      Taken(events[..|events| - 1]) + (if e.Dequeue? || e.HandOff? then [e.t] else [])
  }

  /** The four things that happen to a queue node. */
  datatype Kind = Pushed | Unlinked | Woken | Resumed

  predicate Is(e: Event, kind: Kind, t: Tid) {
    match kind
    case Pushed => e == Enqueue(t)
    case Unlinked => (e.Dequeue? || e.HandOff?) && e.t == t
    case Woken => e.Notify? && e.t == t
    case Resumed => e == Resume(t)
  }

  function Count(events: seq<Event>, kind: Kind, t: Tid): nat {
    if events == [] then 0
    else Count(events[..|events| - 1], kind, t) + (if Is(events[|events| - 1], kind, t) then 1 else 0)
  }

  /** First in, first out: what was enqueued is what was taken, followed by who still waits. */
  lemma {:induction false} FirstInFirstOut(n: nat, events: seq<Event>, l: Lock)
    requires Follows(n, events, l)
    ensures Enqueued(events) == Taken(events) + l.waiting
  {
    if events != [] {
      var before, e := events[..|events| - 1], events[|events| - 1];
      var mid :| Precedes(n, events, mid, l);
      FirstInFirstOut(n, before, mid);
      var taken, waiting := Taken(before), mid.waiting;
      if e.Dequeue? || e.HandOff? {
        assert taken + waiting == (taken + [e.t]) + waiting[1..];
      } else if e.Enqueue? {
        assert taken + (waiting + [e.t]) == (taken + waiting) + [e.t];
      }
    }
  }

  predicate Bit(b: bool, n: int) { n == if b then 1 else 0 }

  /** Per thread, enqueueings, removals, notifications and resumptions follow each other one for one. */
  predicate OneForOne(p: Phase, events: seq<Event>, t: Tid) {
    && Bit(p.Waiting?, Count(events, Pushed, t) - Count(events, Unlinked, t))
    && Bit(p.Removed?, Count(events, Unlinked, t) - Count(events, Woken, t))
    && Bit(p.Notified?, Count(events, Woken, t) - Count(events, Resumed, t))
  }

  lemma {:induction false} OneWakePerPush(n: nat, events: seq<Event>, l: Lock, t: Tid)
    requires Follows(n, events, l) && t < n
    ensures |l.phase| == n
    ensures OneForOne(l.phase[t], events, t)
  {
    if events != [] {
      var mid :| Precedes(n, events, mid, l);
      OneWakePerPush(n, events[..|events| - 1], mid, t);
      OneForOneStep(mid, events[|events| - 1], events, t);
    }
  }

  lemma OneForOneStep(l: Lock, e: Event, events: seq<Event>, t: Tid)
    requires events != [] && events[|events| - 1] == e && Allows(l, e) && t < |l.phase|
    requires OneForOne(l.phase[t], events[..|events| - 1], t)
    ensures |After(l, e).phase| == |l.phase|
    ensures OneForOne(After(l, e).phase[t], events, t)
  {
    CountLast(events, Pushed, t);
    CountLast(events, Unlinked, t);
    CountLast(events, Woken, t);
    CountLast(events, Resumed, t);
  }

  lemma CountLast(events: seq<Event>, kind: Kind, t: Tid)
    requires events != []
    ensures Count(events, kind, t) ==
            Count(events[..|events| - 1], kind, t) + (if Is(events[|events| - 1], kind, t) then 1 else 0)
  {
  }
}
