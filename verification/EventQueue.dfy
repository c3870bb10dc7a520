/**
 The COM tier's event queue (com/ComHub.cpp): a bounded queue filled by pump
 threads, emptied by one dispatch thread, with a counter for what did not fit
 and an auto-reset event that wakes the dispatcher.
 */
module EventQueue {
  import opened Text

  const MAX_QUEUED: nat := 4096

  /** What the dispatcher is handed: a queued event, or the report of a gap. */
  datatype Item<+E> = Plain(event: E) | Gap(count: nat)

  /** The state under m_csQueue. */
  datatype Queue<+E> = Queue(events: seq<E>, dropped: nat)

  function Pushed<E>(q: Queue<E>, e: E): Queue<E> {
    if |q.events| >= MAX_QUEUED then q.(dropped := q.dropped + 1) else q.(events := q.events + [e])
  }

  function Next<E>(q: Queue<E>): Option<Item<E>> {
    if q.events != [] then Some(Plain(q.events[0]))
    else if q.dropped != 0 then Some(Gap(q.dropped))
    else None
  }

  function Popped<E>(q: Queue<E>): Queue<E> {
    if q.events != [] then q.(events := q.events[1..]) else q.(dropped := 0)
  }

  class HubQueue<E> {
    var events: seq<E>
    var dropped: nat

    function State(): Queue<E>
      reads this
    {
      Queue(events, dropped)
    }

    constructor ()
      ensures State() == Queue([], 0)
    {
      events, dropped := [], 0;
    }

    /** wake says whether the caller is to set the event after the lock. */
    method Push(e: E) returns (wake: bool)
      modifies this
      ensures State() == Pushed(old(State()), e)
      ensures wake <==> |old(events)| < MAX_QUEUED
    {
      wake := false;
      if |events| >= MAX_QUEUED {
        dropped := dropped + 1;
      } else {
        events := events + [e];
        wake := true;
      }
    }

    method Pop() returns (got: Option<Item<E>>)
      modifies this
      ensures got == Next(old(State()))
      ensures State() == Popped(old(State()))
    {
      got := None;
      if events != [] {
        got := Some(Plain(events[0]));
        events := events[1..];
      } else if dropped != 0 {
        got := Some(Gap(dropped));
        dropped := 0;
      }
    }
  }

  // ---------------------------------------------------------------------
  // The protocol: any number of pushing threads, one dispatcher

  datatype Dispatcher = Parked | Draining | Drained | Exited

  /**
   wake: the auto-reset event is set.  setters: threads that have left the lock
   and not yet called SetEvent.  history: every push, and whether it fitted.
   fired: everything the dispatcher has been handed, oldest first.
   */
  datatype System<+E> = System(
    q: Queue<E>, wake: bool, setters: nat, dispatcher: Dispatcher, quit: bool,
    history: seq<(E, bool)>, fired: seq<Item<E>>)

  datatype Step<+E> = Push(e: E) | SetEvent | Wake | Pop | CheckQuit | Quit

  predicate Initial<E>(s: System<E>) {
    s == System(Queue([], 0), false, 0, Parked, false, [], [])
  }

  predicate Enabled<E>(s: System<E>, step: Step<E>) {
    match step
    case Push(_) => true
    case SetEvent => s.setters > 0
    case Wake => s.dispatcher == Parked && s.wake
    case Pop => s.dispatcher == Draining
    case CheckQuit => s.dispatcher == Drained
    case Quit => true
  }

  function Do<E>(s: System<E>, step: Step<E>): System<E>
    requires Enabled(s, step)
  {
    match step
    case Push(e) =>
      var fits := |s.q.events| < MAX_QUEUED;
      s.(q := Pushed(s.q, e), history := s.history + [(e, fits)],
         setters := if fits then s.setters + 1 else s.setters)
    case SetEvent => s.(wake := true, setters := s.setters - 1)
    case Wake => s.(wake := false, dispatcher := Draining)
    case Pop =>
      (match Next(s.q)
       case None => s.(dispatcher := Drained)
       case Some(item) => s.(q := Popped(s.q), fired := s.fired + [item]))
    case CheckQuit => s.(dispatcher := if s.quit then Exited else Parked)
    case Quit => s.(quit := true, setters := if s.quit then s.setters else s.setters + 1)
  }

  ghost predicate Run<E(!new)>(s: System<E>, steps: seq<Step<E>>, t: System<E>)
    decreases |steps|
  {
    if steps == [] then s == t
    else Enabled(s, steps[0]) && Run(Do(s, steps[0]), steps[1..], t)
  }

  /** The events that fitted, in the order they were pushed. */
  function Accepted<E>(history: seq<(E, bool)>): seq<E> {
    if history == [] then []
    else
      var last := history[|history| - 1];
      Accepted(history[..|history| - 1]) + (if last.1 then [last.0] else [])
  }

  function Refused<E>(history: seq<(E, bool)>): nat {
    if history == [] then 0
    else Refused(history[..|history| - 1]) + (if history[|history| - 1].1 then 0 else 1)
  }

  /** The plain events among what was fired, in order. */
  function Events<E>(fired: seq<Item<E>>): seq<E> {
    if fired == [] then []
    else
      var last := fired[|fired| - 1];
      Events(fired[..|fired| - 1]) + (if last.Plain? then [last.event] else [])
  }

  /** The sum of the gaps reported. */
  function Reported<E>(fired: seq<Item<E>>): nat {
    if fired == [] then 0
    else
      var last := fired[|fired| - 1];
      Reported(fired[..|fired| - 1]) + (if last.Gap? then last.count else 0)
  }

  lemma CountPush<E>(history: seq<(E, bool)>, e: E, fits: bool)
    ensures Accepted(history + [(e, fits)]) == Accepted(history) + (if fits then [e] else [])
    ensures Refused(history + [(e, fits)]) == Refused(history) + (if fits then 0 else 1)
  {
    assert (history + [(e, fits)])[..|history|] == history;
  }

  lemma CountFire<E>(fired: seq<Item<E>>, item: Item<E>)
    ensures Events(fired + [item]) == Events(fired) + (if item.Plain? then [item.event] else [])
    ensures Reported(fired + [item]) == Reported(fired) + (if item.Gap? then item.count else 0)
  {
    assert (fired + [item])[..|fired|] == fired;
  }

  /** First in first out, bounded, nothing lost without being counted. */
  predicate Conserves<E(==)>(s: System<E>) {
    && |s.q.events| <= MAX_QUEUED
    && Accepted(s.history) == Events(s.fired) + s.q.events
    && Refused(s.history) == Reported(s.fired) + s.q.dropped
  }

  predicate Due<E>(s: System<E>) { |s.q.events| > 0 || s.q.dropped > 0 }

  /** A dispatcher on its way to sleep, or asleep, is about to be woken if anything is due. */
  predicate WillWake<E>(s: System<E>) {
    && (s.dispatcher in {Drained, Parked} && Due(s) ==> s.wake || s.setters > 0)
    && (s.dispatcher in {Drained, Parked} && s.q.dropped > 0 ==> |s.q.events| > 0)
    && (s.dispatcher == Parked && s.quit ==> s.wake || s.setters > 0)
  }

  predicate Inv<E(==)>(s: System<E>) { Conserves(s) && WillWake(s) }

  lemma PopConserves<E>(s: System<E>)
    requires Conserves(s) && s.dispatcher == Draining && Next(s.q).Some?
    ensures Conserves(Do(s, Pop))
  {
    hide Accepted, Refused, Events, Reported;
    CountFire(s.fired, Next(s.q).value);
    if s.q.events != [] {
      assert s.q.events == [s.q.events[0]] + s.q.events[1..];
    }
  }

  lemma StepConserves<E>(s: System<E>, step: Step<E>)
    requires Conserves(s) && Enabled(s, step)
    ensures Conserves(Do(s, step))
  {
    hide Accepted, Refused, Events, Reported;
    match step
    case Push(e) =>
      CountPush(s.history, e, |s.q.events| < MAX_QUEUED);
    case Pop =>
      if Next(s.q).Some? {
        PopConserves(s);
      }
    case SetEvent | Wake | CheckQuit | Quit =>
  }

  lemma StepWillWake<E>(s: System<E>, step: Step<E>)
    requires WillWake(s) && Enabled(s, step)
    ensures WillWake(Do(s, step))
  {
  }

  lemma StepKeepsInv<E>(s: System<E>, step: Step<E>)
    requires Inv(s) && Enabled(s, step)
    ensures Inv(Do(s, step))
  {
    StepConserves(s, step);
    StepWillWake(s, step);
    hide Conserves, WillWake, Do, Enabled;
  }

  lemma {:induction false} RunKeepsInv<E(!new)>(s: System<E>, steps: seq<Step<E>>, t: System<E>)
    requires Inv(s) && Run(s, steps, t)
    ensures Inv(t)
    decreases |steps|
  {
    if steps != [] {
      StepKeepsInv(s, steps[0]);
      RunKeepsInv(Do(s, steps[0]), steps[1..], t);
    }
  }

  /** In every state of every interleaving. */
  lemma QueueSafety<E(!new)>(s: System<E>, steps: seq<Step<E>>, t: System<E>)
    requires Initial(s) && Run(s, steps, t)
    ensures |t.q.events| <= MAX_QUEUED
    ensures Accepted(t.history) == Events(t.fired) + t.q.events
    ensures Refused(t.history) == Reported(t.fired) + t.q.dropped
    ensures |t.history| == |Events(t.fired)| + |t.q.events| + Reported(t.fired) + t.q.dropped
    ensures t.dispatcher == Parked && (Due(t) || t.quit) ==> t.wake || t.setters > 0
  {
    RunKeepsInv(s, steps, t);
    HistoryLength(t.history);
  }

  lemma HistoryLength<E>(history: seq<(E, bool)>)
    ensures |history| == |Accepted(history)| + Refused(history)
  {
  }

  /** A gap is reported only when everything accepted before it has been handed over. */
  lemma GapComesLast<E>(s: System<E>)
    requires Inv(s) && s.dispatcher == Draining && Next(s.q).Some? && Next(s.q).value.Gap?
    ensures Events(s.fired) == Accepted(s.history)
    ensures var t := Do(s, Pop); Reported(t.fired) == Refused(t.history) && !Due(t)
  {
    CountFire(s.fired, Next(s.q).value);
  }

  function Pending<E>(q: Queue<E>): seq<Item<E>> {
    Plains(q.events) + (if q.dropped > 0 then [Gap(q.dropped)] else [])
  }

  function Plains<E>(events: seq<E>): seq<Item<E>> {
    seq(|events|, i requires 0 <= i < |events| => Plain(events[i]))
  }

  predicate OwnStep<E>(step: Step<E>) { step.SetEvent? || step.Wake? || step.Pop? || step.CheckQuit? }

  /** Without another push, the threads already at work empty the queue and report the gap. */
  lemma {:induction false} DrainsFromWork<E(!new)>(s: System<E>) returns (steps: seq<Step<E>>, t: System<E>)
    requires s.dispatcher == Draining
    ensures Run(s, steps, t) && forall i :: 0 <= i < |steps| ==> OwnStep(steps[i])
    ensures !Due(t) && t.fired == s.fired + Pending(s.q) && t.history == s.history
    decreases |s.q.events|, s.q.dropped
  {
    if !Due(s) {
      return [], s;
    }
    PopFires(s);
    var rest;
    rest, t := DrainsFromWork(Do(s, Pop));
    hide Pending, Plains;
    RunOne(s, Pop, rest, t);
    steps := [Pop] + rest;
  }

  /** One pop moves one item from what is due to what has been handed over. */
  lemma PopFires<E>(s: System<E>)
    requires s.dispatcher == Draining && Due(s)
    ensures Do(s, Pop).fired + Pending(Do(s, Pop).q) == s.fired + Pending(s.q)
  {
    PendingNext(s.q);
    hide Pending, Plains;
    var u := Do(s, Pop);
    assert u.fired + Pending(u.q) == s.fired + ([Next(s.q).value] + Pending(u.q));
  }

  lemma PendingNext<E>(q: Queue<E>)
    requires q.events != [] || q.dropped != 0
    ensures Pending(q) == [Next(q).value] + Pending(Popped(q))
  {
    if q.events != [] {
      assert Plains(q.events) == [Plain(q.events[0])] + Plains(q.events[1..]);
    }
  }

  lemma RunOne<E(!new)>(s: System<E>, step: Step<E>, rest: seq<Step<E>>, t: System<E>)
    requires Enabled(s, step) && Run(Do(s, step), rest, t)
    ensures Run(s, [step] + rest, t)
  {
    hide Do, Enabled;
    assert ([step] + rest)[1..] == rest;
  }

  /** The dispatcher has made its last pop, or is about to see that it has. */
  predicate PastLastPop<E>(s: System<E>) { s.dispatcher == Exited || (s.dispatcher == Drained && s.quit) }

  /** No wake-up is ever lost: whatever is due can still be handed over, in order. */
  lemma {:induction false} NothingIsStranded<E(!new)>(s: System<E>) returns (steps: seq<Step<E>>, t: System<E>)
    requires Inv(s) && Due(s) && !PastLastPop(s)
    ensures Run(s, steps, t) && forall i :: 0 <= i < |steps| ==> OwnStep(steps[i])
    ensures !Due(t) && t.fired == s.fired + Pending(s.q) && t.history == s.history
    decreases match s.dispatcher case Drained => 3 case Parked => if s.wake then 1 else 2 case _ => 0
  {
    if s.dispatcher == Draining {
      steps, t := DrainsFromWork(s);
    } else {
      var step := if s.dispatcher == Drained then CheckQuit else if s.wake then Wake else SetEvent;
      StepKeepsInv(s, step);
      var rest;
      rest, t := NothingIsStranded(Do(s, step));
      RunOne(s, step, rest, t);
      steps := [step] + rest;
    }
  }

  /** From there nothing is handed over any more, so whatever is due or comes later is lost. */
  lemma {:induction false} NothingAfterQuit<E(!new)>(s: System<E>, steps: seq<Step<E>>, t: System<E>)
    requires PastLastPop(s) && Run(s, steps, t)
    ensures t.fired == s.fired && PastLastPop(t) && (Due(s) ==> Due(t))
    decreases |steps|
  {
    if steps != [] {
      NothingAfterQuit(Do(s, steps[0]), steps[1..], t);
    }
  }

  /** So a state with anything due can still hand something over exactly when it is not past that point. */
  lemma DeliversIff<E(!new)>(s: System<E>)
    requires Inv(s) && Due(s)
    ensures (exists steps, t :: Run(s, steps, t) && t.fired != s.fired) <==> !PastLastPop(s)
  {
    hide Run, Inv, Pending;
    if PastLastPop(s) {
      forall steps, t | Run(s, steps, t) ensures t.fired == s.fired {
        NothingAfterQuit(s, steps, t);
      }
    } else {
      var steps, t := NothingIsStranded(s);
      PendingNext(s.q);
      assert |t.fired| > |s.fired|;
      assert Run(s, steps, t) && t.fired != s.fired;
    }
  }
}
