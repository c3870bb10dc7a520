/**
 The diagnostics sink (src/FacadeNetwork.cpp): events are delivered without a
 lock from whatever thread raises them, and unregistering the sink waits until
 the count of deliveries in progress has been seen at zero.
 */
module DiagSink {
  import opened Text

  type Tid = nat
  type Sink = nat

  /**
   One open DeliverDiag frame.  Entered has drawn its serial and is not counted
   yet; Calling is inside the client's OnDiag, with the thread-local record set.
   */
  datatype Frame =
    | Entered
    | Counted
    | Holding(read: Option<Sink>)
    | Calling(sink: Sink)
    | Finishing

  /**
   stacks: the open frames of each thread, innermost last.
   installed: every sink ever registered.  retired: the sinks an unregister has
   reported quiet and that have not been registered again since.
   */
  datatype System = System(
    sink: Option<Sink>, busy: int, stacks: map<Tid, seq<Frame>>,
    waiting: set<Tid>, installed: set<Sink>, retired: set<Sink>)

  datatype Step =
    | Raise(t: Tid)                  // DeliverDiag is called
    | Count(t: Tid)                  // ++m_lDiagBusy
    | ReadSink(t: Tid)               // the plain read of m_pDiagSink
    | Call(t: Tid, wanted: bool)     // the mask test, then OnDiag or not
    | Return(t: Tid)                 // OnDiag returns or throws
    | Uncount(t: Tid)                // --m_lDiagBusy
    | Install(x: Sink)               // SetDiagSink(x)
    | Clear(t: Tid)                  // SetDiagSink(NULL): the exchange
    | SeeZero(t: Tid)                // the wait leaves by its condition
    | Expire(t: Tid)                 // the wait runs out of slices

  function Stack(s: System, t: Tid): seq<Frame> {
    if t in s.stacks then s.stacks[t] else []
  }

  /** tls_pDiagRec: is this thread inside a delivery? */
  predicate Gate(s: System, t: Tid) {
    exists i :: 0 <= i < |Stack(s, t)| && Stack(s, t)[i].Calling?
  }

  function Top(s: System, t: Tid): Frame
    requires Stack(s, t) != []
  {
    Stack(s, t)[|Stack(s, t)| - 1]
  }

  function SetTop(s: System, t: Tid, f: Frame): System
    requires Stack(s, t) != []
  {
    s.(stacks := s.stacks[t := Stack(s, t)[..|Stack(s, t)| - 1] + [f]])
  }

  predicate Initial(s: System) {
    s == System(None, 0, map[], {}, {}, {})
  }

  predicate Enabled(s: System, step: Step) {
    match step
    // Only a client's own code raises: outside every delivery, or inside its handler.
    case Raise(t) => t !in s.waiting && (Stack(s, t) == [] || Top(s, t).Calling?)
    case Count(t) => Stack(s, t) != [] && Top(s, t).Entered?
    case ReadSink(t) => Stack(s, t) != [] && Top(s, t).Counted?
    case Call(t, _) => Stack(s, t) != [] && Top(s, t).Holding?
    case Return(t) => Stack(s, t) != [] && Top(s, t).Calling?
    case Uncount(t) => Stack(s, t) != [] && Top(s, t).Finishing?
    case Install(_) => true
    case Clear(t) => t !in s.waiting && (Stack(s, t) == [] || Top(s, t).Calling?)
    case SeeZero(t) => t in s.waiting && s.busy == 0
    case Expire(t) => t in s.waiting
  }

  function Do(s: System, step: Step): System
    requires Enabled(s, step)
  {
    match step
    case Raise(t) => if Gate(s, t) then s else s.(stacks := s.stacks[t := Stack(s, t) + [Entered]])
    case Count(t) => SetTop(s, t, Counted).(busy := s.busy + 1)
    case ReadSink(t) => SetTop(s, t, Holding(s.sink))
    case Call(t, wanted) =>
      var read := Top(s, t).read;
      SetTop(s, t, if read.Some? && wanted then Calling(read.value) else Finishing)
    case Return(t) => SetTop(s, t, Finishing)
    case Uncount(t) =>
      s.(busy := s.busy - 1,
         stacks := s.stacks[t := Stack(s, t)[..|Stack(s, t)| - 1]])
    case Install(x) => s.(sink := Some(x), installed := s.installed + {x}, retired := s.retired - {x})
    case Clear(t) => s.(sink := None, waiting := if Gate(s, t) then s.waiting else s.waiting + {t})
    case SeeZero(t) =>
      s.(waiting := s.waiting - {t},
         retired := s.retired + (s.installed - (if s.sink.Some? then {s.sink.value} else {})))
    case Expire(t) => s.(waiting := s.waiting - {t})
  }

  ghost predicate Run(s: System, steps: seq<Step>, t: System)
    decreases |steps|
  {
    if steps == [] then s == t
    else Enabled(s, steps[0]) && Run(Do(s, steps[0]), steps[1..], t)
  }

  /** Which threads the count counts. */
  function InRegion(s: System): set<Tid> { Region(s.stacks) }

  function Region(stacks: map<Tid, seq<Frame>>): set<Tid> {
    set t | t in stacks && stacks[t] != [] && !stacks[t][|stacks[t]| - 1].Entered?
  }

  /** The sink a frame may still reach. */
  predicate Reaches(f: Frame, x: Sink) {
    (f.Holding? && f.read == Some(x)) || (f.Calling? && f.sink == x)
  }

  ghost predicate OneFrame(s: System) {
    forall t :: t in s.stacks ==> |s.stacks[t]| <= 1
  }

  ghost predicate Counts(s: System) { s.busy == |InRegion(s)| }

  ghost predicate Quiet(s: System) {
    && (s.sink.Some? ==> s.sink.value in s.installed && s.sink.value !in s.retired)
    && FramesQuiet(s.stacks, s.installed, s.retired)
  }

  predicate LastReaches(st: seq<Frame>, x: Sink) { st != [] && Reaches(st[|st| - 1], x) }

  /** No thread is on its way to a retired sink, or to one never registered. */
  ghost predicate FramesQuiet(stacks: map<Tid, seq<Frame>>, installed: set<Sink>, retired: set<Sink>) {
    forall t, x: Sink :: t in stacks && LastReaches(stacks[t], x) ==> x in installed && x !in retired
  }

  ghost predicate Inv(s: System) { OneFrame(s) && Counts(s) && Quiet(s) }

  lemma StepOneFrame(s: System, step: Step)
    requires OneFrame(s) && Enabled(s, step)
    ensures OneFrame(Do(s, step))
  {
    match step
    case Raise(t) =>
      if Stack(s, t) != [] {
        assert Stack(s, t)[|Stack(s, t)| - 1].Calling?;
        assert Gate(s, t);
      }
    case _ =>
  }

  /** Replacing a top frame moves at most its own thread in or out of the region. */
  lemma TopKeepsRegion(s: System, t: Tid, f: Frame)
    requires OneFrame(s) && Stack(s, t) != [] && !f.Entered?
    ensures InRegion(SetTop(s, t, f)) == InRegion(s) + {t}
    ensures t in InRegion(s) <==> !Top(s, t).Entered?
  {
    var u := SetTop(s, t, f);
    assert forall q :: q in s.stacks && q != t ==> u.stacks[q] == s.stacks[q];
    assert Top(u, t) == f;
  }

  lemma RaiseKeepsRegion(s: System, t: Tid)
    requires OneFrame(s) && Enabled(s, Raise(t))
    ensures InRegion(Do(s, Raise(t))) == InRegion(s)
  {
    if Stack(s, t) != [] {
      assert Stack(s, t)[0].Calling?;
    }
  }

  lemma UncountLeavesRegion(s: System, t: Tid)
    requires OneFrame(s) && Enabled(s, Uncount(t))
    ensures t in InRegion(s) && InRegion(Do(s, Uncount(t))) == InRegion(s) - {t}
  {
  }

  lemma StepCounts(s: System, step: Step)
    requires OneFrame(s) && Counts(s) && Enabled(s, step)
    ensures Counts(Do(s, step))
  {
    var u := Do(s, step);
    match step
    case Raise(t) => RaiseKeepsRegion(s, t);
    case Uncount(t) => UncountLeavesRegion(s, t);
    case Count(t) =>
      TopKeepsRegion(s, t, Counted);
      assert u.stacks == SetTop(s, t, Counted).stacks;
    case ReadSink(t) => StaysCounted(s, t, Holding(s.sink));
    case Call(t, wanted) =>
      StaysCounted(s, t, Finishing);
      if Top(s, t).read.Some? {
        StaysCounted(s, t, Calling(Top(s, t).read.value));
      }
    case Return(t) => StaysCounted(s, t, Finishing);
    case Install(_) | Clear(_) | SeeZero(_) | Expire(_) => assert u.stacks == s.stacks;
  }

  lemma StaysCounted(s: System, t: Tid, f: Frame)
    requires OneFrame(s) && Stack(s, t) != [] && !Top(s, t).Entered? && !f.Entered?
    ensures InRegion(SetTop(s, t, f)) == InRegion(s)
  {
    TopKeepsRegion(s, t, f);
  }

  /** While the count is zero nobody holds any sink. */
  lemma ZeroHoldsNothing(s: System)
    requires OneFrame(s) && Counts(s) && s.busy == 0
    ensures forall t, x :: t in s.stacks && s.stacks[t] != [] ==> !Reaches(Top(s, t), x)
  {
    assert InRegion(s) == {};
    forall t, x | t in s.stacks && s.stacks[t] != [] ensures !Reaches(Top(s, t), x) {
      assert t !in InRegion(s);
    }
  }

  /** Only the thread whose stack changes has to be looked at. */
  lemma StackReplaced(s: System, t: Tid, st: seq<Frame>)
    requires FramesQuiet(s.stacks, s.installed, s.retired)
    requires forall x: Sink :: LastReaches(st, x) ==> x in s.installed && x !in s.retired
    ensures FramesQuiet(s.stacks[t := st], s.installed, s.retired)
  {
  }

  lemma TopIsQuiet(s: System, t: Tid)
    requires FramesQuiet(s.stacks, s.installed, s.retired) && Stack(s, t) != []
    ensures forall x: Sink :: Reaches(Top(s, t), x) ==> x in s.installed && x !in s.retired
  {
    forall x: Sink | Reaches(Top(s, t), x) ensures x in s.installed && x !in s.retired {
      assert LastReaches(s.stacks[t], x);
    }
  }

  /** A thread's next frame reaches at most what it could already read. */
  lemma StepFramesQuiet(s: System, step: Step)
    requires OneFrame(s) && Counts(s) && Quiet(s) && Enabled(s, step)
    ensures FramesQuiet(Do(s, step).stacks, Do(s, step).installed, Do(s, step).retired)
  {
    match step
    case Raise(t) =>
      if Stack(s, t) != [] { assert Stack(s, t)[0].Calling?; }
      StackReplaced(s, t, Stack(s, t) + [Entered]);
    case Count(t) => StackReplaced(s, t, Stack(s, t)[..|Stack(s, t)| - 1] + [Counted]);
    case ReadSink(t) => StackReplaced(s, t, Stack(s, t)[..|Stack(s, t)| - 1] + [Holding(s.sink)]);
    case Return(t) => StackReplaced(s, t, Stack(s, t)[..|Stack(s, t)| - 1] + [Finishing]);
    case Call(t, wanted) =>
      TopIsQuiet(s, t);
      var next := if Top(s, t).read.Some? && wanted then Calling(Top(s, t).read.value) else Finishing;
      StackReplaced(s, t, Stack(s, t)[..|Stack(s, t)| - 1] + [next]);
    case Uncount(t) =>
      assert Stack(s, t)[..|Stack(s, t)| - 1] == [];
      StackReplaced(s, t, []);
    case SeeZero(_) =>
      ZeroHoldsNothing(s);
      forall q, x: Sink | q in s.stacks ensures !LastReaches(s.stacks[q], x) {
        assert s.stacks[q] != [] ==> !Reaches(Top(s, q), x);
      }
    case Install(_) | Clear(_) | Expire(_) =>
  }

  lemma StepQuiet(s: System, step: Step)
    requires OneFrame(s) && Counts(s) && Quiet(s) && Enabled(s, step)
    ensures Quiet(Do(s, step))
  {
    StepFramesQuiet(s, step);
    hide FramesQuiet, OneFrame, Counts;
  }

  lemma InitialInv(s: System)
    requires Initial(s)
    ensures Inv(s)
  {
    assert InRegion(s) == {};
  }

  lemma RetiredIsUnreachable(s: System, x: Sink)
    requires Inv(s) && x in s.retired
    ensures s.sink != Some(x)
    ensures forall q, i :: 0 <= i < |Stack(s, q)| ==> !Reaches(Stack(s, q)[i], x)
  {
    forall q, i | 0 <= i < |Stack(s, q)| ensures !Reaches(Stack(s, q)[i], x) {
      assert Stack(s, q)[i] == Top(s, q);
    }
  }

  lemma StepKeepsInv(s: System, step: Step)
    requires Inv(s) && Enabled(s, step)
    ensures Inv(Do(s, step))
  {
    StepOneFrame(s, step);
    StepCounts(s, step);
    StepQuiet(s, step);
    hide OneFrame, Counts, Quiet, Do;
  }

  lemma {:induction false} RunKeepsInv(s: System, steps: seq<Step>, t: System)
    requires Inv(s) && Run(s, steps, t)
    ensures Inv(t)
    decreases |steps|
  {
    hide Inv, Enabled;
    if steps != [] {
      StepKeepsInv(s, steps[0]);
      RunKeepsInv(Do(s, steps[0]), steps[1..], t);
    }
  }

  /** The sink is not registered anywhere in these steps. */
  ghost predicate NotInstalled(steps: seq<Step>, x: Sink) { forall i :: 0 <= i < |steps| ==> steps[i] != Install(x) }

  lemma {:induction false} RetiredStays(s: System, steps: seq<Step>, t: System, x: Sink)
    requires Run(s, steps, t) && x in s.retired && NotInstalled(steps, x)
    ensures x in t.retired
    decreases |steps|
  {
    if steps != [] {
      RetiredStays(Do(s, steps[0]), steps[1..], t, x);
    }
  }

  /**
   When an unregister made outside a delivery sees the count at zero, no thread
   is inside any sink that is not registered at that moment, nor can one enter
   it later, through every continuation in which it is not registered again.
   */
  lemma SeenZeroMeansQuiet(s: System, steps: seq<Step>, t: System, p: Tid, more: seq<Step>, u: System, x: Sink)
    requires Initial(s) && Run(s, steps, t) && Enabled(t, SeeZero(p)) && Run(Do(t, SeeZero(p)), more, u)
    requires x in t.installed && t.sink != Some(x) && NotInstalled(more, x)
    ensures u.sink != Some(x)
    ensures forall q, i :: 0 <= i < |Stack(u, q)| ==> !Reaches(Stack(u, q)[i], x)
  {
    hide Run, Inv;
    InitialInv(s);
    RunKeepsInv(s, steps, t);
    var z := Do(t, SeeZero(p));
    StepKeepsInv(t, SeeZero(p));
    RunKeepsInv(z, more, u);
    RetiredStays(z, more, u, x);
    RetiredIsUnreachable(u, x);
  }

  /** A handler that raises is not called from inside itself, and the count is the threads in delivery. */
  lemma OneDeliveryPerThread(s: System, steps: seq<Step>, t: System)
    requires Initial(s) && Run(s, steps, t)
    ensures forall p :: |Stack(t, p)| <= 1
    ensures t.busy == |InRegion(t)|
  {
    InitialInv(s);
    RunKeepsInv(s, steps, t);
  }

  /**
   Clearing the sink from inside a handler does not wait, because the count then
   includes this very thread: the caller is not told the sink is quiet.
   */
  lemma HandlerDoesNotWait(s: System, steps: seq<Step>, t: System, p: Tid)
    requires Initial(s) && Run(s, steps, t) && Gate(t, p) && Enabled(t, Clear(p))
    ensures t.busy > 0 && Do(t, Clear(p)).waiting == t.waiting
  {
    InitialInv(s);
    RunKeepsInv(s, steps, t);
    assert p in InRegion(t);
  }

  // ---------------------------------------------------------------------
  // Replacing one sink by another, which waits for nobody

  predicate InSink(s: System, q: Tid, x: Sink) { Stack(s, q) != [] && Top(s, q) == Calling(x) }

  /** Some continuation that does not register the sink again has a thread inside it. */
  ghost predicate CanBeIn(s: System, x: Sink) {
    exists more, u, q :: Run(s, more, u) && NotInstalled(more, x) && InSink(u, q, x)
  }

  ghost predicate Held(s: System, x: Sink) {
    exists q :: Stack(s, q) != [] && Reaches(Top(s, q), x)
  }

  lemma {:induction false} UnheldStays(s: System, steps: seq<Step>, t: System, x: Sink)
    requires Inv(s) && s.sink != Some(x) && !Held(s, x) && Run(s, steps, t) && NotInstalled(steps, x)
    ensures !Held(t, x)
    decreases |steps|
  {
    if steps != [] {
      UnheldStep(s, steps[0], x);
      StepKeepsInv(s, steps[0]);
      hide Inv, Enabled, Do, Held;
      UnheldStays(Do(s, steps[0]), steps[1..], t, x);
    }
  }

  lemma UnheldStep(s: System, step: Step, x: Sink)
    requires Inv(s) && s.sink != Some(x) && !Held(s, x) && Enabled(s, step) && step != Install(x)
    ensures Do(s, step).sink != Some(x) && !Held(Do(s, step), x)
  {
    hide Counts, Quiet;
    var t := Do(s, step);
    forall q | Stack(t, q) != [] ensures !Reaches(Top(t, q), x) {
      if Stack(s, q) != [] { assert !Reaches(Top(s, q), x); }
    }
  }

  lemma HeldCanEnter(s: System, q: Tid, x: Sink)
    requires Stack(s, q) != [] && Reaches(Top(s, q), x)
    ensures CanBeIn(s, x)
  {
    if Top(s, q).Calling? {
      assert Run(s, [], s) && NotInstalled([], x) && InSink(s, q, x);
    } else {
      var step := Call(q, true);
      var u := Do(s, step);
      assert [step][1..] == [];
      assert Run(u, [], u);
      assert Run(s, [step], u) && NotInstalled([step], x) && InSink(u, q, x);
    }
  }

  /** A sink that is not registered can still be run exactly when some thread has read it and not returned. */
  lemma UnregisteredIsReachedIff(s: System, x: Sink)
    requires Inv(s) && s.sink != Some(x)
    ensures CanBeIn(s, x) <==> Held(s, x)
  {
    hide Run, Inv;
    if q :| Stack(s, q) != [] && Reaches(Top(s, q), x) {
      HeldCanEnter(s, q, x);
    } else {
      forall more, u, q | Run(s, more, u) && NotInstalled(more, x) ensures !InSink(u, q, x) {
        UnheldStays(s, more, u, x);
      }
    }
  }

  /** SetDiagSink(y) over x returns at once: x is reached exactly when some thread holds it at that moment. */
  lemma ReplacedSinkIsReachedIff(s: System, steps: seq<Step>, t: System, x: Sink, y: Sink)
    requires Initial(s) && Run(s, steps, t) && x != y
    ensures CanBeIn(Do(t, Install(y)), x) <==> Held(t, x)
  {
    var z := Do(t, Install(y));
    ReachesInv(s, steps, t, Install(y));
    UnregisteredIsReachedIff(z, x);
    SameHolders(t, z, x);
  }

  /** So with a clear made inside a handler, which does not wait either: its own thread holds the sink it runs. */
  lemma ClearedInHandlerIsReachedIff(s: System, steps: seq<Step>, t: System, p: Tid, x: Sink)
    requires Initial(s) && Run(s, steps, t) && Enabled(t, Clear(p)) && Gate(t, p)
    ensures Do(t, Clear(p)).waiting == t.waiting
    ensures CanBeIn(Do(t, Clear(p)), x) <==> Held(t, x)
    ensures InSink(t, p, x) ==> CanBeIn(Do(t, Clear(p)), x)
  {
    var z := Do(t, Clear(p));
    ReachesInv(s, steps, t, Clear(p));
    UnregisteredIsReachedIff(z, x);
    SameHolders(t, z, x);
  }

  /** And with a wait that ran out of its budget. */
  lemma ExpiredWaitIsReachedIff(s: System, steps: seq<Step>, t: System, p: Tid, x: Sink)
    requires Initial(s) && Run(s, steps, t) && Enabled(t, Expire(p)) && t.sink != Some(x)
    ensures CanBeIn(Do(t, Expire(p)), x) <==> Held(t, x)
  {
    var z := Do(t, Expire(p));
    ReachesInv(s, steps, t, Expire(p));
    UnregisteredIsReachedIff(z, x);
    SameHolders(t, z, x);
  }

  lemma ReachesInv(s: System, steps: seq<Step>, t: System, step: Step)
    requires Initial(s) && Run(s, steps, t) && Enabled(t, step)
    ensures Inv(Do(t, step))
  {
    hide Run, Inv;
    InitialInv(s);
    RunKeepsInv(s, steps, t);
    StepKeepsInv(t, step);
  }

  lemma SameHolders(s: System, t: System, x: Sink)
    requires s.stacks == t.stacks
    ensures Held(s, x) <==> Held(t, x)
  {
    assert forall q :: Stack(s, q) == Stack(t, q);
  }

  /** A run that ends with one sink registered and a thread inside the one it replaced. */
  lemma ReplacedWhileInside(s: System, q: Tid, x: Sink, y: Sink) returns (steps: seq<Step>, t: System)
    requires Initial(s)
    ensures Run(s, steps, t) && t.sink == Some(y) && InSink(t, q, x)
  {
    var s1 := Do(s, Install(x));
    var s2, entering := Entering(s1, q);
    var last, tail := InsideThenReplaced(s2, q, x, y);
    t := last;
    hide Do, Enabled;
    RunAppend(s1, entering, s2, tail, t);
    RunOne(s, Install(x), entering + tail, t);
    steps := [Install(x)] + (entering + tail);
  }

  /** A thread outside every delivery comes to hold the sink of the moment. */
  lemma Entering(s: System, q: Tid) returns (t: System, steps: seq<Step>)
    requires Stack(s, q) == [] && q !in s.waiting
    ensures Run(s, steps, t) && t.sink == s.sink && Stack(t, q) == [Holding(s.sink)]
  {
    var s1 := Do(s, Raise(q));
    assert Stack(s1, q) == [Entered];
    var s2 := Do(s1, Count(q));
    assert Stack(s2, q) == [Counted];
    t := Do(s2, ReadSink(q));
    assert Stack(t, q) == [Holding(s.sink)];
    RunOne(s2, ReadSink(q), [], t);
    hide Do, Enabled;
    RunOne(s1, Count(q), [ReadSink(q)], t);
    RunOne(s, Raise(q), [Count(q)] + [ReadSink(q)], t);
    steps := [Raise(q)] + ([Count(q)] + [ReadSink(q)]);
  }

  lemma InsideThenReplaced(s: System, q: Tid, x: Sink, y: Sink) returns (t: System, steps: seq<Step>)
    requires Stack(s, q) != [] && Top(s, q) == Holding(Some(x))
    ensures Run(s, steps, t) && t.sink == Some(y) && InSink(t, q, x)
  {
    var u := Do(s, Call(q, true));
    t := Do(u, Install(y));
    RunOne(u, Install(y), [], t);
    RunOne(s, Call(q, true), [Install(y)], t);
    steps := [Call(q, true)] + [Install(y)];
  }

  lemma RunOne(s: System, step: Step, rest: seq<Step>, t: System)
    requires Enabled(s, step) && Run(Do(s, step), rest, t)
    ensures Run(s, [step] + rest, t)
  {
    hide Do, Enabled;
    assert ([step] + rest)[1..] == rest;
  }

  lemma {:induction false} RunAppend(s: System, a: seq<Step>, t: System, b: seq<Step>, u: System)
    requires Run(s, a, t) && Run(t, b, u)
    ensures Run(s, a + b, u)
    decreases |a|
  {
    hide Do, Enabled;
    if a == [] {
      assert a + b == b;
    } else {
      RunAppend(Do(s, a[0]), a[1..], t, b, u);
      assert (a + b)[1..] == a[1..] + b;
    }
  }

  // ---------------------------------------------------------------------
  // Who waits, who is called, and that a wait can end

  /** A clear waits exactly when it is made outside every handler; the sink is gone either way. */
  lemma ClearWaitsIff(s: System, steps: seq<Step>, t: System, p: Tid)
    requires Initial(s) && Run(s, steps, t) && Enabled(t, Clear(p))
    ensures var u := Do(t, Clear(p));
      && (p in u.waiting <==> forall x :: !InSink(t, p, x))
      && u.sink == None && forall q :: q != p ==> (q in u.waiting <==> q in t.waiting)
  {
    InitialInv(s);
    hide Inv, Run;
    RunKeepsInv(s, steps, t);
    GateIsTop(t, p);
  }

  lemma GateIsTop(s: System, p: Tid)
    requires Inv(s)
    ensures Gate(s, p) <==> exists x :: InSink(s, p, x)
  {
    hide Counts, Quiet;
    if Stack(s, p) != [] && Top(s, p).Calling? {
      assert Stack(s, p)[|Stack(s, p)| - 1].Calling?;
      assert InSink(s, p, Top(s, p).sink);
    }
  }

  /** A thread enters a sink exactly when it has read that very one and the sink wants the event. */
  lemma CallsWhatItRead(s: System, q: Tid, wanted: bool, x: Sink)
    requires Enabled(s, Call(q, wanted))
    ensures InSink(Do(s, Call(q, wanted)), q, x) <==> wanted && Top(s, q) == Holding(Some(x))
  {
  }

  /** An event raised outside every delivery can be handed to the sink of the moment. */
  lemma RaisedIsDelivered(s: System, q: Tid, x: Sink) returns (steps: seq<Step>, t: System)
    requires Stack(s, q) == [] && q !in s.waiting && s.sink == Some(x)
    ensures Run(s, steps, t) && InSink(t, q, x)
  {
    var u, entering := Entering(s, q);
    t := Do(u, Call(q, true));
    RunOne(u, Call(q, true), [], t);
    hide Do, Enabled;
    RunAppend(s, entering, u, [Call(q, true)], t);
    steps := entering + [Call(q, true)];
  }

  /** How far a counted thread is from leaving. */
  function Left(f: Frame): nat {
    match f
    case Counted => 3
    case Holding(_) => 2
    case Calling(_) => 1
    case _ => 0
  }

  function LeavingStep(f: Frame, q: Tid): Step {
    match f
    case Counted => ReadSink(q)
    case Holding(_) => Call(q, false)
    case Calling(_) => Return(q)
    case _ => Uncount(q)
  }

  /** A thread in delivery leaves by itself, and takes only itself off the count. */
  lemma {:induction false} OneLeaves(s: System, q: Tid) returns (steps: seq<Step>, t: System)
    requires Inv(s) && q in InRegion(s)
    ensures Run(s, steps, t) && Inv(t) && t.waiting == s.waiting && InRegion(t) == InRegion(s) - {q}
    ensures forall i :: 0 <= i < |steps| ==> Leaving(steps[i])
    decreases Left(Top(s, q))
  {
    var step := LeavingStep(Top(s, q), q);
    LeavingAdvances(s, q);
    StepKeepsInv(s, step);
    hide Inv, Do, Enabled, InRegion;
    var u := Do(s, step);
    if step == Uncount(q) {
      RunOne(s, step, [], u);
      return [step], u;
    }
    var rest;
    rest, t := OneLeaves(u, q);
    RunOne(s, step, rest, t);
    steps := [step] + rest;
  }

  predicate Leaving(step: Step) { step.ReadSink? || (step.Call? && !step.wanted) || step.Return? || step.Uncount? }

  lemma LeavingAdvances(s: System, q: Tid)
    requires Inv(s) && q in InRegion(s)
    ensures var step := LeavingStep(Top(s, q), q);
      && Enabled(s, step) && Leaving(step)
      && var u := Do(s, step);
      && u.waiting == s.waiting
      && (if step == Uncount(q) then InRegion(u) == InRegion(s) - {q}
          else InRegion(u) == InRegion(s) && Left(Top(u, q)) < Left(Top(s, q)))
  {
    hide Counts, Quiet;
    match Top(s, q)
    case Counted => StaysCounted(s, q, Holding(s.sink));
    case Holding(_) => StaysCounted(s, q, Finishing);
    case Calling(_) => StaysCounted(s, q, Finishing);
    case Finishing => UncountLeavesRegion(s, q);
  }

  /** So a wait can always see the count at zero, if no new event comes in: no delivery depends on the waiter. */
  lemma {:induction false} WaitCanEnd(s: System, p: Tid) returns (steps: seq<Step>, t: System)
    requires Inv(s) && p in s.waiting
    ensures Run(s, steps, t) && Enabled(t, SeeZero(p))
    ensures forall i :: 0 <= i < |steps| ==> Leaving(steps[i])
    decreases |InRegion(s)|
  {
    if s.busy == 0 { return [], s; }
    CountIsRegion(s);
    hide Inv, InRegion, Do;
    var q :| q in InRegion(s);
    var first, u := OneLeaves(s, q);
    var rest;
    rest, t := WaitCanEnd(u, p);
    RunAppend(s, first, u, rest, t);
    steps := first + rest;
  }

  lemma CountIsRegion(s: System)
    requires Inv(s)
    ensures s.busy == |InRegion(s)|
  {
  }
}
