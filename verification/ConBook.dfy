/**
 A hub's connection bookkeeping (src/FacadeHub.cpp): what it armed, who turned
 up and what a Disconnect could not retire, against the kernel's own list of
 connections.  Any number of client calls are in progress and drop the lock
 between their critical sections; the pump runs in between.
 */
module ConBook {
  import opened Text
  import opened Snapshot

  type Addr = string
  type ConId = nat
  type Caller = nat

  /** Who asked CloseCon to retract: a Link taking its listener back, or a Disconnect. */
  datatype Why = Unwind | Retire(wasUp: bool)

  /** Where a client call in progress stands. */
  datatype Call =
    | Arming(peer: Addr, prev: Option<ArmedCon>)       // recorded, the post is under way
    | RollingBack(peer: Addr, prev: Option<ArmedCon>)  // the post was refused
    | Found(peer: Addr)                                // Disconnect: the connection exists
    | Erasing(peer: Addr, why: Why)                    // CloseCon is entered
    | Waiting(peer: Addr, why: Why)                    // record erased, destroy signalled
    | Marking(peer: Addr, wasUp: bool, gone: bool)     // Disconnect: back from CloseCon
    | Recording(peer: Addr, gone: bool)                // about to write m_setUnretired

  /**
   Where the pump's handler stands.  A login files the connection under the name
   the other end claims and marks the peer up, in either order and not at once;
   a close takes the connection off the list, or redials it, and then marks the
   peer down.
   */
  datatype Pump =
    | Ready
    | LoggingIn(id: ConId, name: Addr, filed: bool, marked: bool)
    | Closed(name: Addr)

  /**
   cons: the connections on the hub and the peer each is filed under.
   partial: peers whose Link unwind ran out of its budget and that no CloseCon has seen gone since.
   unseen: peers a CloseCon reported gone on an exception, without looking, and none has seen gone since.
   loggedIn, closed: peers of which any login, or any close, was ever handled.
   */
  datatype System = System(
    armed: map<Addr, ArmedCon>, peers: map<Addr, bool>, unretired: set<Addr>, cons: map<ConId, Addr>,
    calls: map<Caller, Call>, pump: Pump, partial: set<Addr>, unseen: set<Addr>, loggedIn: set<Addr>, closed: set<Addr>)

  datatype Step =
    | BeginArm(c: Caller, p: Addr, record: ArmedCon)
    | PostOk(c: Caller, id: ConId) | PostRefused(c: Caller) | RollBack(c: Caller)
    | BeginDisconnect(c: Caller, p: Addr) | ReadUp(c: Caller)
    | BeginUnwind(c: Caller, p: Addr)
    | EraseArmed(c: Caller)
    | SeeGone(c: Caller)  // ConExists said no
    | Threw(c: Caller)    // the catch: gone, without looking
    | TimeOut(c: Caller)
    | MarkDown(c: Caller) | Record(c: Caller)
    // the pump's own
    | Login(id: ConId, name: Addr) | File | MarkUp
    | CloseEvent(id: ConId, restarts: bool) | MarkClosed
    // the kernel's
    | Spawn(id: ConId, clone: ConId) | Drop(id: ConId)

  /** ConExists: is any connection filed under the peer? */
  predicate HasCon(cons: map<ConId, Addr>, p: Addr) { exists id :: id in cons && cons[id] == p }

  function IsUp(peers: map<Addr, bool>, p: Addr): bool { p in peers && peers[p] }

  function Lookup(armed: map<Addr, ArmedCon>, p: Addr): Option<ArmedCon> {
    if p in armed then Some(armed[p]) else None
  }

  /** What a refused arm puts back. */
  function Restored(armed: map<Addr, ArmedCon>, p: Addr, prev: Option<ArmedCon>): map<Addr, ArmedCon> {
    if prev.Some? then armed[p := prev.value] else armed - {p}
  }

  /** The peers DrainCons signals. */
  function DrainSet(armed: map<Addr, ArmedCon>, peers: map<Addr, bool>, unretired: set<Addr>): set<Addr> {
    (set p | p in peers && peers[p]) + (armed.Keys - peers.Keys) + unretired
  }

  predicate Drained(s: System, p: Addr) { p in DrainSet(s.armed, s.peers, s.unretired) }

  predicate Initial(s: System) {
    s == System(map[], map[], {}, map[], map[], Ready, {}, {}, {}, {})
  }

  predicate Enabled(s: System, step: Step) {
    match step
    case BeginArm(c, p, _) => c !in s.calls && p != ""
    case PostOk(c, id) => c in s.calls && s.calls[c].Arming? && id !in s.cons && !HasCon(s.cons, s.calls[c].peer)
    case PostRefused(c) => c in s.calls && s.calls[c].Arming?
    case RollBack(c) => c in s.calls && s.calls[c].RollingBack?
    case BeginDisconnect(c, p) => c !in s.calls && p != "" && HasCon(s.cons, p)
    case ReadUp(c) => c in s.calls && s.calls[c].Found?
    case BeginUnwind(c, p) => c !in s.calls && p != ""
    case EraseArmed(c) => c in s.calls && s.calls[c].Erasing?
    case SeeGone(c) => c in s.calls && s.calls[c].Waiting? && !HasCon(s.cons, s.calls[c].peer)
    case Threw(c) => c in s.calls && s.calls[c].Waiting?
    case TimeOut(c) => c in s.calls && s.calls[c].Waiting?
    case MarkDown(c) => c in s.calls && s.calls[c].Marking?
    case Record(c) => c in s.calls && s.calls[c].Recording?
    case Login(id, name) => s.pump == Ready && id in s.cons && name != ""
    case File => s.pump.LoggingIn? && !s.pump.filed
    case MarkUp => s.pump.LoggingIn? && !s.pump.marked
    case CloseEvent(id, _) => s.pump == Ready && id in s.cons
    case MarkClosed => s.pump.Closed?
    case Spawn(id, clone) => id in s.cons && clone !in s.cons
    case Drop(id) => id in s.cons
  }

  function Go(s: System, c: Caller, call: Call): System { s.(calls := s.calls[c := call]) }

  function End(s: System, c: Caller): System { s.(calls := s.calls - {c}) }

  /** CloseCon comes back to its caller, which for a Link unwind is the end of the matter. */
  function Return(s: System, c: Caller, gone: bool): System
    requires c in s.calls && s.calls[c].Waiting?
  {
    var call := s.calls[c];
    if call.why.Unwind? then End(s, c) else Go(s, c, Marking(call.peer, call.why.wasUp, gone))
  }

  function Do(s: System, step: Step): System
    requires Enabled(s, step)
  {
    match step
    case BeginArm(c, p, record) => Go(s.(armed := s.armed[p := record]), c, Arming(p, Lookup(s.armed, p)))
    case PostOk(c, id) => End(s.(cons := s.cons[id := s.calls[c].peer]), c)
    case PostRefused(c) => Go(s, c, RollingBack(s.calls[c].peer, s.calls[c].prev))
    case RollBack(c) => End(s.(armed := Restored(s.armed, s.calls[c].peer, s.calls[c].prev)), c)
    case BeginDisconnect(c, p) => Go(s, c, Found(p))
    case ReadUp(c) => Go(s, c, Erasing(s.calls[c].peer, Retire(IsUp(s.peers, s.calls[c].peer))))
    case BeginUnwind(c, p) => Go(s, c, Erasing(p, Unwind))
    case EraseArmed(c) => Go(s.(armed := s.armed - {s.calls[c].peer}), c, Waiting(s.calls[c].peer, s.calls[c].why))
    case SeeGone(c) =>
      Return(s.(partial := s.partial - {s.calls[c].peer}, unseen := s.unseen - {s.calls[c].peer}), c, true)
    case Threw(c) => Return(s.(unseen := s.unseen + {s.calls[c].peer}), c, true)
    case TimeOut(c) =>
      Return(if s.calls[c].why.Unwind? then s.(partial := s.partial + {s.calls[c].peer}) else s, c, false)
    case MarkDown(c) =>
      var call := s.calls[c];
      Go(s.(peers := if call.wasUp then s.peers[call.peer := false] else s.peers), c, Recording(call.peer, call.gone))
    case Record(c) =>
      var p := s.calls[c].peer;
      End(s.(unretired := if s.calls[c].gone then s.unretired - {p} else s.unretired + {p}), c)
    case Login(id, name) => s.(pump := LoggingIn(id, name, false, false), loggedIn := s.loggedIn + {name})
    case File =>
      s.(cons := if s.pump.id in s.cons then s.cons[s.pump.id := s.pump.name] else s.cons,
         pump := if s.pump.marked then Ready else s.pump.(filed := true))
    case MarkUp =>
      s.(peers := s.peers[s.pump.name := true],
         pump := if s.pump.filed then Ready else s.pump.(marked := true))
    case CloseEvent(id, restarts) =>
      s.(cons := if restarts then s.cons else s.cons - {id},
         pump := Closed(s.cons[id]), closed := s.closed + {s.cons[id]})
    case MarkClosed => s.(peers := s.peers[s.pump.name := false], pump := Ready)
    case Spawn(id, clone) => s.(cons := s.cons[clone := s.cons[id]])
    case Drop(id) => s.(cons := s.cons - {id})
  }

  /** No call in progress names the peer. */
  predicate Alone(s: System, p: Addr) { forall c :: c in s.calls ==> s.calls[c].peer != p }

  /** No call begins on a peer that another call in progress names. */
  predicate Serial(s: System, step: Step) {
    step.BeginArm? || step.BeginDisconnect? || step.BeginUnwind? ==> Alone(s, step.p)
  }

  /** A run; a serial one has its calls serialised peer by peer. */
  ghost predicate Run(s: System, steps: seq<Step>, t: System, serial: bool)
    decreases |steps|
  {
    if steps == [] then s == t
    else Enabled(s, steps[0]) && (serial ==> Serial(s, steps[0])) && Run(Do(s, steps[0]), steps[1..], t, serial)
  }

  /** A login has filed a connection under the name and has still to mark it. */
  predicate MarkDue(s: System, p: Addr) {
    s.pump.LoggingIn? && s.pump.name == p && s.pump.filed && !s.pump.marked
  }

  /** Some record speaks for the peer other than what it is armed with and what was not retired. */
  predicate Noted(s: System, p: Addr) { p in s.peers || MarkDue(s, p) || p in s.unseen }

  predicate SpokenFor(s: System, p: Addr) {
    Noted(s, p) || p in s.unretired || p in s.partial || p in s.armed
  }

  /** The call in progress leaves a record behind, or is about to. */
  predicate Answers(s: System, call: Call) {
    var p := call.peer;
    match call
    case Arming(_, prev) => Noted(s, p) || p in s.unretired || p in s.partial || prev.Some?
    case RollingBack(_, prev) => Noted(s, p) || p in s.unretired || p in s.partial || prev.Some?
    case Found(_) => SpokenFor(s, p)
    case Erasing(_, _) => SpokenFor(s, p)
    case Waiting(_, _) => true
    case Marking(_, _, gone) => gone ==> Noted(s, p)
    case Recording(_, gone) => gone ==> Noted(s, p)
  }

  predicate Accounted(s: System, p: Addr) {
    && (Alone(s, p) ==> SpokenFor(s, p))
    && (forall c :: c in s.calls && s.calls[c].peer == p ==> Answers(s, s.calls[c]))
  }

  ghost predicate AllAccounted(s: System) {
    forall id :: id in s.cons ==> Accounted(s, s.cons[id])
  }

  predicate Apart(s: System) {
    forall c, d :: c in s.calls && d in s.calls && c != d ==> s.calls[c].peer != s.calls[d].peer
  }

  /** What a call has read or written is still so. */
  predicate CallOk(s: System, call: Call) {
    match call
    case Arming(p, _) => p in s.armed
    case Erasing(p, why) => why.Retire? && why.wasUp ==> p in s.peers
    case Waiting(p, why) => why.Retire? && why.wasUp ==> p in s.peers
    case Marking(p, wasUp, _) => wasUp ==> p in s.peers
    case _ => true
  }

  ghost predicate CallsOk(s: System) { forall c :: c in s.calls ==> CallOk(s, s.calls[c]) }

  predicate PumpIsAt(s: System, p: Addr) { s.pump != Ready && s.pump.name == p }

  /** Rows appear at a login or a close and at nothing else, and at every one of them by its end. */
  predicate RowsMatch(s: System) {
    && s.peers.Keys <= s.loggedIn + s.closed
    && (forall p :: p in s.loggedIn + s.closed && !PumpIsAt(s, p) ==> p in s.peers)
    && (s.pump != Ready ==> s.pump.name in s.loggedIn + s.closed)
    && (s.pump.LoggingIn? ==> s.pump.name in s.loggedIn && (s.pump.marked ==> s.pump.name in s.peers))
    && (forall p :: p in s.peers && s.peers[p] ==> p in s.loggedIn)
  }

  ghost predicate Inv(s: System) { AllAccounted(s) && Apart(s) && CallsOk(s) && RowsMatch(s) }

  predicate OfPump(step: Step) {
    step.Login? || step.File? || step.MarkUp? || step.CloseEvent? || step.MarkClosed? || step.Spawn? || step.Drop?
  }

  lemma NotedIsEnough(s: System, p: Addr)
    requires Noted(s, p)
    ensures Accounted(s, p)
  {
  }

  lemma PumpStepAccounted(s: System, step: Step)
    requires Inv(s) && Enabled(s, step) && OfPump(step)
    ensures AllAccounted(Do(s, step))
  {
    var t := Do(s, step);
    forall id | id in t.cons ensures Accounted(t, t.cons[id]) {
      var p := t.cons[id];
      if step.File? && id == s.pump.id {
        NotedIsEnough(t, p);
      } else {
        assert id in s.cons ==> s.cons[id] == p;
        PumpKeeps(s, step, p);
      }
    }
  }

  lemma PumpKeeps(s: System, step: Step, p: Addr)
    requires AllAccounted(s) && HasCon(s.cons, p) && Enabled(s, step) && OfPump(step)
    ensures Accounted(Do(s, step), p)
  {
    var id :| id in s.cons && s.cons[id] == p;
    assert Accounted(s, s.cons[id]);
    hide AllAccounted, Accounted, HasCon;
    PumpNotes(s, step, p);
    var t := Do(s, step);
    assert t.calls == s.calls && t.armed == s.armed && t.unretired == s.unretired && t.partial == s.partial;
    hide Do, Enabled, Noted;
    AccountGrows(s, t, p);
  }

  lemma PumpNotes(s: System, step: Step, p: Addr)
    requires Enabled(s, step) && OfPump(step)
    ensures Noted(s, p) ==> Noted(Do(s, step), p)
  {
  }

  lemma AccountGrows(s: System, t: System, p: Addr)
    requires Accounted(s, p) && (Noted(s, p) ==> Noted(t, p))
    requires t.calls == s.calls && t.armed == s.armed && t.unretired == s.unretired && t.partial == s.partial
    ensures Accounted(t, p)
  {
    hide Noted;
    forall c | c in t.calls && t.calls[c].peer == p ensures Answers(t, t.calls[c]) {
      assert Answers(s, s.calls[c]);
    }
  }

  /** The peer a call's step is about. */
  function PeerOf(s: System, step: Step): Addr
    requires Enabled(s, step) && !OfPump(step)
  {
    if step.BeginArm? || step.BeginDisconnect? || step.BeginUnwind? then step.p else s.calls[step.c].peer
  }

  /** What a call's step leaves as it was. */
  predicate SameElsewhere(s: System, t: System, p: Addr) {
    && t.pump == s.pump
    && (p in t.peers <==> p in s.peers) && (p in t.unretired <==> p in s.unretired)
    && (p in t.partial <==> p in s.partial) && (p in t.unseen <==> p in s.unseen)
    && (p in t.armed <==> p in s.armed)
  }

  /** Only the stepping call's own entry changes, and not its peer. */
  lemma CallsChange(s: System, step: Step)
    requires Enabled(s, step)
    ensures var t := Do(s, step);
      if OfPump(step) then t.calls == s.calls
      else
        && (step.c in t.calls ==> t.calls[step.c].peer == PeerOf(s, step))
        && (t.calls == s.calls - {step.c} || (step.c in t.calls && t.calls == s.calls[step.c := t.calls[step.c]]))
  {
  }

  lemma RecordsElsewhere(s: System, step: Step, p: Addr)
    requires Enabled(s, step) && !OfPump(step) && p != PeerOf(s, step)
    ensures SameElsewhere(s, Do(s, step), p)
  {
  }

  lemma OtherPeer(s: System, step: Step, p: Addr)
    requires Accounted(s, p) && Enabled(s, step) && !OfPump(step) && p != PeerOf(s, step)
    ensures Accounted(Do(s, step), p)
  {
    RecordsElsewhere(s, step, p);
    CallsChange(s, step);
    assert step.c in s.calls ==> s.calls[step.c].peer != p;
    hide Do, Enabled, PeerOf;
    var t := Do(s, step);
    forall c | c in t.calls && t.calls[c].peer == p ensures Answers(t, t.calls[c]) {
      assert c in s.calls && t.calls[c] == s.calls[c];
    }
    if Alone(t, p) {
      forall c | c in s.calls ensures s.calls[c].peer != p {
        assert c != step.c ==> c in t.calls;
      }
    }
  }

  /** A call's step on its own peer, which no other call names. */
  lemma OwnPeer(s: System, step: Step, p: Addr)
    requires Apart(s) && CallsOk(s) && Enabled(s, step) && Serial(s, step) && !OfPump(step) && p == PeerOf(s, step)
    requires HasCon(s.cons, p) ==> Accounted(s, p)
    requires HasCon(Do(s, step).cons, p)
    ensures Accounted(Do(s, step), p)
  {
    var t := Do(s, step);
    if step.c in s.calls {
      assert CallOk(s, s.calls[step.c]);
      assert forall c :: c in s.calls && c != step.c ==> s.calls[c].peer != p;
      OwnStep(s, step, p);
    } else {
      assert forall c :: c in s.calls ==> s.calls[c].peer != p;
      OwnBegin(s, step, p);
    }
  }

  lemma OwnBegin(s: System, step: Step, p: Addr)
    requires Enabled(s, step) && !OfPump(step) && step.c !in s.calls && p == PeerOf(s, step) && Alone(s, p)
    requires HasCon(s.cons, p) ==> Accounted(s, p)
    requires HasCon(Do(s, step).cons, p)
    ensures Accounted(Do(s, step), p)
  {
    var t := Do(s, step);
    assert t.cons == s.cons && SpokenFor(s, p);
    assert Answers(t, t.calls[step.c]);
    assert !Alone(t, p);
  }

  lemma OwnStep(s: System, step: Step, p: Addr)
    requires Enabled(s, step) && !OfPump(step) && step.c in s.calls && p == s.calls[step.c].peer
    requires CallOk(s, s.calls[step.c]) && forall c :: c in s.calls && c != step.c ==> s.calls[c].peer != p
    requires HasCon(s.cons, p) ==> Accounted(s, p)
    requires HasCon(Do(s, step).cons, p)
    ensures Accounted(Do(s, step), p)
  {
    var t, c := Do(s, step), step.c;
    assert forall d :: d in t.calls && d != c ==> t.calls[d].peer != p;
    OwnAnswer(s, step, p);
    hide Do, Enabled, Answers, SpokenFor;
    if c in t.calls {
      assert !Alone(t, p);
    }
  }

  lemma OwnAnswer(s: System, step: Step, p: Addr)
    requires Enabled(s, step) && !OfPump(step) && step.c in s.calls && p == s.calls[step.c].peer
    requires CallOk(s, s.calls[step.c])
    requires HasCon(s.cons, p) ==> Accounted(s, p)
    requires HasCon(Do(s, step).cons, p)
    ensures var t := Do(s, step);
      if step.c in t.calls then t.calls[step.c].peer == p && Answers(t, t.calls[step.c]) else SpokenFor(t, p)
  {
    if HasCon(s.cons, p) {
      assert Answers(s, s.calls[step.c]);
    }
    hide Alone, Accounted;
  }

  lemma CallStepAccounted(s: System, step: Step)
    requires Inv(s) && Enabled(s, step) && Serial(s, step) && !OfPump(step)
    ensures AllAccounted(Do(s, step))
  {
    hide RowsMatch, Accounted;
    var t, q := Do(s, step), PeerOf(s, step);
    forall id | id in t.cons ensures Accounted(t, t.cons[id]) {
      var p := t.cons[id];
      if p == q {
        if other :| other in s.cons && s.cons[other] == q { assert Accounted(s, s.cons[other]); }
        OwnPeer(s, step, q);
      } else {
        assert id in s.cons && s.cons[id] == p;
        OtherPeer(s, step, p);
      }
    }
  }

  lemma StepApart(s: System, step: Step)
    requires Apart(s) && Enabled(s, step) && Serial(s, step)
    ensures Apart(Do(s, step))
  {
    CallsChange(s, step);
    if !OfPump(step) {
      assert forall d :: d in s.calls && d != step.c ==> s.calls[d].peer != PeerOf(s, step);
    }
    hide Do, Enabled, PeerOf;
  }

  lemma StepCallsOk(s: System, step: Step)
    requires Apart(s) && CallsOk(s) && Enabled(s, step) && Serial(s, step)
    ensures CallsOk(Do(s, step))
  {
    var t := Do(s, step);
    CallsChange(s, step);
    forall c | c in t.calls ensures CallOk(t, t.calls[c]) {
      if OfPump(step) {
        assert CallOk(s, s.calls[c]);
        PumpKeepsCallOk(s, step, s.calls[c]);
      } else if c != step.c {
        assert CallOk(s, s.calls[c]) && s.calls[c].peer != PeerOf(s, step);
        RecordsElsewhere(s, step, s.calls[c].peer);
        hide Do, Enabled, PeerOf;
      } else {
        OwnCallOk(s, step);
      }
    }
  }

  lemma PumpKeepsCallOk(s: System, step: Step, call: Call)
    requires Enabled(s, step) && OfPump(step) && CallOk(s, call)
    ensures CallOk(Do(s, step), call)
  {
  }

  lemma OwnCallOk(s: System, step: Step)
    requires CallsOk(s) && Enabled(s, step) && !OfPump(step) && step.c in Do(s, step).calls
    ensures CallOk(Do(s, step), Do(s, step).calls[step.c])
  {
    assert step.c in s.calls ==> CallOk(s, s.calls[step.c]);
    hide CallsOk;
  }

  lemma StepRows(s: System, step: Step)
    requires RowsMatch(s) && CallsOk(s) && Enabled(s, step)
    ensures RowsMatch(Do(s, step))
  {
    if OfPump(step) {
      PumpKeepsRows(s, step);
    } else {
      if step.MarkDown? { assert CallOk(s, s.calls[step.c]); }
      CallKeepsRows(s, step);
    }
  }

  lemma PumpKeepsRows(s: System, step: Step)
    requires RowsMatch(s) && Enabled(s, step) && OfPump(step)
    ensures RowsMatch(Do(s, step))
  {
  }

  /** A call adds no row; Disconnect lowers one. */
  lemma CallKeepsRows(s: System, step: Step)
    requires RowsMatch(s) && Enabled(s, step) && !OfPump(step)
    requires step.MarkDown? ==> CallOk(s, s.calls[step.c])
    ensures RowsMatch(Do(s, step))
  {
    var t := Do(s, step);
    assert t.pump == s.pump && t.loggedIn == s.loggedIn && t.closed == s.closed;
    assert t.peers == s.peers || (step.MarkDown? && t.peers == s.peers[s.calls[step.c].peer := false]);
    hide Do, Enabled;
  }

  lemma {:induction false} RunKeepsInv(s: System, steps: seq<Step>, t: System)
    requires Inv(s) && Run(s, steps, t, true)
    ensures Inv(t)
    decreases |steps|
  {
    if steps != [] {
      if OfPump(steps[0]) { PumpStepAccounted(s, steps[0]); } else { CallStepAccounted(s, steps[0]); }
      StepApart(s, steps[0]);
      StepCallsOk(s, steps[0]);
      StepRows(s, steps[0]);
      hide AllAccounted, Apart, CallsOk, RowsMatch, Do, Enabled, Serial;
      RunKeepsInv(Do(s, steps[0]), steps[1..], t);
    }
  }

  lemma InitialInv(s: System)
    requires Initial(s)
    ensures Inv(s)
  {
  }

  /**
   A connection whose peer no call in progress names escapes the drain exactly
   when its peer has a false row and no timed-out Disconnect remembers it, or when
   nothing is recorded of its peer and the login that filed it has still to mark
   the peer, or a Link unwind timed out on it, or a CloseCon reported it gone on
   an exception.
   */
  lemma DrainCovers(s: System, steps: seq<Step>, t: System, id: ConId)
    requires Initial(s) && Run(s, steps, t, true) && id in t.cons && Alone(t, t.cons[id])
    ensures var p := t.cons[id];
      !Drained(t, p) <==>
        (p !in t.unretired
         && if p in t.peers then !t.peers[p]
            else p !in t.armed && (MarkDue(t, p) || p in t.partial || p in t.unseen))
  {
    InitialInv(s);
    RunKeepsInv(s, steps, t);
    assert Accounted(t, t.cons[id]);
  }

  /**
   Without an unwind that timed out or an exception that hid a connection, and but
   for the one login whose mark is still due, every connection is drained or its
   peer has a false row.
   */
  lemma DrainMissesOnlyFalseRows(s: System, steps: seq<Step>, t: System, id: ConId)
    requires Initial(s) && Run(s, steps, t, true) && id in t.cons && Alone(t, t.cons[id])
    requires t.cons[id] !in t.partial && t.cons[id] !in t.unseen
    ensures var p := t.cons[id];
      Drained(t, p) || (p in t.peers && !t.peers[p]) || MarkDue(t, p)
  {
    DrainCovers(s, steps, t, id);
  }

  /**
   A false row does not mean that the peer was up: with the pump between handlers,
   an armed peer that never began a login escapes the drain exactly when a close
   of it has been handled and no timed-out Disconnect remembers it.
   */
  lemma NeverUpEscapesIff(s: System, steps: seq<Step>, t: System, p: Addr)
    requires Initial(s) && Run(s, steps, t, true) && t.pump == Ready && p in t.armed && p !in t.loggedIn
    ensures !Drained(t, p) <==> p in t.closed && p !in t.unretired
  {
    InitialInv(s);
    RunKeepsInv(s, steps, t);
    assert !PumpIsAt(t, p);
  }

  /** A dial that is armed, closed before any login, and redialled. */
  lemma NeverUpEscapes(s: System, c: Caller, p: Addr, record: ArmedCon, id: ConId) returns (steps: seq<Step>, t: System)
    requires Initial(s) && p != ""
    ensures Run(s, steps, t, true) && t.calls == map[] && t.pump == Ready && t.partial == {} && t.unseen == {}
    ensures id in t.cons && t.cons[id] == p && p in t.armed && p !in t.loggedIn && !Drained(t, p)
  {
    var s2, armSteps := ArmRun(s, c, p, record, id);
    var s3 := Do(s2, CloseEvent(id, true));
    t := Do(s3, MarkClosed);
    RunOne(s3, MarkClosed, [], t, true);
    RunOne(s2, CloseEvent(id, true), [MarkClosed], t, true);
    RunAppend(s, armSteps, s2, [CloseEvent(id, true)] + [MarkClosed], t, true);
    steps := armSteps + ([CloseEvent(id, true)] + [MarkClosed]);
  }

  /**
   A connection filed under a name nothing is recorded of is not drained until
   the mark, which puts the peer where the drain finds it.
   */
  lemma FiledBeforeMarkedEscapes(s: System, id: ConId, name: Addr) returns (steps: seq<Step>, t: System)
    requires s.pump == Ready && id in s.cons && name != ""
    requires name !in s.peers && name !in s.armed && name !in s.unretired
    ensures Run(s, steps, t, true) && t.calls == s.calls && t.partial == s.partial && t.unseen == s.unseen
    ensures id in t.cons && t.cons[id] == name && !Drained(t, name)
    ensures Enabled(t, MarkUp) && Drained(Do(t, MarkUp), name)
  {
    var s1 := Do(s, Login(id, name));
    t := Do(s1, File);
    RunOne(s1, File, [], t, true);
    RunOne(s, Login(id, name), [File], t, true);
    steps := [Login(id, name)] + [File];
  }

  /** A peer has no row exactly while no login or close of it was ever handled, but for the one the pump is at. */
  lemma NoRowMeansUnseen(s: System, steps: seq<Step>, t: System, p: Addr)
    requires Initial(s) && Run(s, steps, t, true)
    ensures p in t.peers ==> p in t.loggedIn + t.closed
    ensures p !in t.peers && p in t.loggedIn + t.closed ==> PumpIsAt(t, p)
    ensures IsUp(t.peers, p) ==> p in t.loggedIn
  {
    InitialInv(s);
    RunKeepsInv(s, steps, t);
  }

  /** Does this step end a Disconnect of the peer that reported its connection gone? */
  predicate Retires(s: System, step: Step, p: Addr) {
    step.Record? && step.c in s.calls && s.calls[step.c] == Recording(p, true)
  }

  /** A run in which no Disconnect reports the peer's connection gone. */
  ghost predicate RunUnretired(s: System, steps: seq<Step>, t: System, p: Addr)
    decreases |steps|
  {
    if steps == [] then s == t
    else Enabled(s, steps[0]) && !Retires(s, steps[0], p) && RunUnretired(Do(s, steps[0]), steps[1..], t, p)
  }

  /** What a timed-out Disconnect could not retire is signalled by every drain until a Disconnect does retire it. */
  lemma {:induction false} UnretiredStaysDrained(s: System, steps: seq<Step>, t: System, p: Addr)
    requires p in s.unretired && RunUnretired(s, steps, t, p)
    ensures Drained(t, p)
    decreases |steps|
  {
    if steps != [] {
      UnretiredStep(s, steps[0], p);
      hide Do, Enabled, Drained, Retires;
      UnretiredStaysDrained(Do(s, steps[0]), steps[1..], t, p);
    }
  }

  lemma UnretiredStep(s: System, step: Step, p: Addr)
    requires p in s.unretired && Enabled(s, step) && !Retires(s, step, p)
    ensures p in Do(s, step).unretired
  {
  }

  // ---------------------------------------------------------------------
  // A refused arm

  /** Does this step end the caller's arm? */
  predicate Leaves(step: Step, c: Caller) { (step.PostOk? || step.RollBack?) && step.c == c }

  lemma ArmStep(s: System, step: Step, c: Caller, p: Addr, prev: Option<ArmedCon>)
    requires c in s.calls && s.calls[c] in {Arming(p, prev), RollingBack(p, prev)}
    requires Enabled(s, step) && !Leaves(step, c)
    ensures c in Do(s, step).calls && Do(s, step).calls[c] in {Arming(p, prev), RollingBack(p, prev)}
  {
    CallsChange(s, step);
    if OfPump(step) || step.c != c {
      hide Do, Enabled;
    }
  }

  lemma {:induction false} ArmKeepsPrev(s: System, steps: seq<Step>, t: System,
                                        c: Caller, p: Addr, prev: Option<ArmedCon>)
    requires c in s.calls && s.calls[c] in {Arming(p, prev), RollingBack(p, prev)}
    requires Run(s, steps, t, true) && forall i :: 0 <= i < |steps| ==> !Leaves(steps[i], c)
    ensures c in t.calls && t.calls[c] in {Arming(p, prev), RollingBack(p, prev)}
    decreases |steps|
  {
    if steps != [] {
      ArmStep(s, steps[0], c, p, prev);
      hide Do, Enabled, Serial;
      ArmKeepsPrev(Do(s, steps[0]), steps[1..], t, c, p, prev);
    }
  }

  /**
   The last section of a refused arm puts back exactly what the arm found recorded
   of its peer, whatever the pump and the calls on other peers did meanwhile, and
   touches nothing else.
   */
  lemma RefusedArmRestores(s: System, c: Caller, p: Addr, record: ArmedCon, steps: seq<Step>, t: System)
    requires Enabled(s, BeginArm(c, p, record)) && Run(Do(s, BeginArm(c, p, record)), steps, t, true)
    requires forall i :: 0 <= i < |steps| ==> !Leaves(steps[i], c)
    requires Enabled(t, RollBack(c))
    ensures var u := Do(t, RollBack(c));
      Lookup(u.armed, p) == Lookup(s.armed, p) && u.armed - {p} == t.armed - {p} && u.cons == t.cons
  {
    ArmKeepsPrev(Do(s, BeginArm(c, p, record)), steps, t, c, p, Lookup(s.armed, p));
  }

  // ---------------------------------------------------------------------
  // Runs that hide a connection

  /**
   A Link unwind that times out hides its connection: armed for a peer nothing
   else is recorded of, it is still on the hub and no drain signals it.  So does
   one that ends in an exception.
   */
  lemma UnwindHides(s: System, c: Caller, p: Addr, record: ArmedCon, id: ConId, threw: bool)
    returns (steps: seq<Step>, t: System)
    requires s.calls == map[] && p != "" && !HasCon(s.cons, p) && id !in s.cons
    requires p !in s.peers && p !in s.unretired
    ensures Run(s, steps, t, true) && t.calls == map[] && id in t.cons && t.cons[id] == p
    ensures !Drained(t, p) && p !in t.peers
  {
    var s2, armSteps := ArmRun(s, c, p, record, id);
    var u, unwind := QuietUnwind(s2, c, p, threw);
    t := u;
    RunAppend(s, armSteps, s2, unwind, t, true);
    steps := armSteps + unwind;
  }

  lemma QuietUnwind(s: System, c: Caller, p: Addr, threw: bool) returns (t: System, steps: seq<Step>)
    requires c !in s.calls && Alone(s, p) && p != ""
    ensures Run(s, steps, t, true)
    ensures t == s.(armed := s.armed - {p}, partial := if threw then s.partial else s.partial + {p},
                    unseen := if threw then s.unseen + {p} else s.unseen)
  {
    var last := if threw then Threw(c) else TimeOut(c);
    var s1 := Do(s, BeginUnwind(c, p));
    var s2 := Do(s1, EraseArmed(c));
    t := Do(s2, last);
    assert t.calls == s.calls;
    hide Do, Enabled;
    RunOne(s2, last, [], t, true);
    RunOne(s1, EraseArmed(c), [last], t, true);
    RunOne(s, BeginUnwind(c, p), [EraseArmed(c)] + [last], t, true);
    steps := [BeginUnwind(c, p)] + ([EraseArmed(c)] + [last]);
  }

  /** A Disconnect that ends in an exception reports success, forgets the peer and leaves its connection. */
  lemma ThrewHides(s: System, c: Caller, p: Addr, id: ConId) returns (steps: seq<Step>, t: System)
    requires s.calls == map[] && p != "" && id in s.cons && s.cons[id] == p && p !in s.peers
    ensures Run(s, steps, t, true) && t.calls == map[] && t.cons == s.cons && !Drained(t, p)
  {
    var s3, head := QuietStart(s, c, p, true);
    var s4 := Do(s3, Threw(c));
    var end, tail := QuietEnd(s4, c, true);
    t := end;
    hide Do, Enabled;
    RunOne(s3, Threw(c), tail, t, true);
    RunAppend(s, head, s3, [Threw(c)] + tail, t, true);
    steps := head + ([Threw(c)] + tail);
  }

  /**
   Two arms of one peer at once: the first caller's rollback erases the record the
   second one wrote, and with it what the drain would have found.
   */
  lemma TwoArmsHide(s: System, p: Addr, a: ArmedCon, b: ArmedCon, id: ConId) returns (steps: seq<Step>, t: System)
    requires s.calls == map[] && p != "" && !HasCon(s.cons, p) && id !in s.cons
    requires p !in s.armed && p !in s.peers && p !in s.unretired
    ensures Run(s, steps, t, false) && t.calls == map[] && id in t.cons && t.cons[id] == p
    ensures p !in t.armed && t.partial == s.partial && t.unseen == s.unseen && !Drained(t, p)
  {
    var s1 := Do(s, BeginArm(1, p, a));
    var s2 := Do(s1, BeginArm(2, p, b));
    var s3 := Do(s2, PostOk(2, id));
    var u, tail := Refuse(s3, 1);
    t := u;
    hide Do, Enabled;
    RunOne(s2, PostOk(2, id), tail, t, false);
    var after2 := [PostOk(2, id)] + tail;
    RunOne(s1, BeginArm(2, p, b), after2, t, false);
    RunOne(s, BeginArm(1, p, a), [BeginArm(2, p, b)] + after2, t, false);
    steps := [BeginArm(1, p, a)] + ([BeginArm(2, p, b)] + after2);
  }

  lemma Refuse(s: System, c: Caller) returns (t: System, steps: seq<Step>)
    requires c in s.calls && s.calls[c].Arming?
    ensures Run(s, steps, t, false)
    ensures t == s.(armed := Restored(s.armed, s.calls[c].peer, s.calls[c].prev), calls := s.calls - {c})
  {
    var u := Do(s, PostRefused(c));
    t := Do(u, RollBack(c));
    RunOne(u, RollBack(c), [], t, false);
    RunOne(s, PostRefused(c), [RollBack(c)], t, false);
    steps := [PostRefused(c)] + [RollBack(c)];
    assert u.calls - {c} == s.calls - {c};
  }

  /**
   An arm recorded before another call erases and posted after the old connection
   left: the Disconnect takes the new connection's record away and remembers nothing.
   */
  lemma ArmDuringDisconnectHides(s: System, p: Addr, record: ArmedCon, old0: ConId, new0: ConId)
    returns (steps: seq<Step>, t: System)
    requires s.calls == map[] && p != "" && p !in s.peers && p !in s.unretired
    requires s.cons == map[old0 := p] && old0 != new0
    ensures Run(s, steps, t, false) && t.calls == map[] && t.cons == map[new0 := p]
    ensures p !in t.armed && p !in t.partial + t.unseen && !Drained(t, p)
  {
    assert old0 in s.cons;
    var s1 := Do(s, BeginArm(2, p, record));
    var s4, head := QuietStart(s1, 1, p, false);
    var end, rest := PostWhileWaiting(s4, p, old0, new0);
    t := end;
    hide Do, Enabled;
    RunAppend(s1, head, s4, rest, t, false);
    RunOne(s, BeginArm(2, p, record), head + rest, t, false);
    steps := [BeginArm(2, p, record)] + (head + rest);
  }

  lemma PostWhileWaiting(s: System, p: Addr, old0: ConId, new0: ConId) returns (t: System, steps: seq<Step>)
    requires s.cons == map[old0 := p] && old0 != new0
    requires exists prev :: s.calls == map[1 := Waiting(p, Retire(false)), 2 := Arming(p, prev)]
    ensures Run(s, steps, t, false)
    ensures t == s.(cons := map[new0 := p], calls := map[], unretired := s.unretired - {p},
                    partial := s.partial - {p}, unseen := s.unseen - {p})
  {
    var s1, wait := QuietWait(s, 1, old0, true, false);
    assert s1.cons == map[];
    var s2 := Do(s1, PostOk(2, new0));
    var end, tail := QuietEnd(s2, 1, false);
    t := end;
    hide Do, Enabled;
    RunOne(s1, PostOk(2, new0), tail, t, false);
    RunAppend(s, wait, s1, [PostOk(2, new0)] + tail, t, false);
    steps := wait + ([PostOk(2, new0)] + tail);
  }

  // ---------------------------------------------------------------------
  // Undisturbed calls

  /** Undisturbed, the sections of a Disconnect do together what the call promises. */
  lemma QuietDisconnect(s: System, c: Caller, p: Addr, id: ConId, leaves: bool) returns (steps: seq<Step>, t: System)
    requires c !in s.calls && Alone(s, p) && p != "" && id in s.cons && s.cons[id] == p
    requires forall other :: other in s.cons && other != id ==> s.cons[other] != p
    ensures Run(s, steps, t, true) && t.calls == s.calls
    ensures t.armed == s.armed - {p} && t.peers == if p in s.peers then s.peers[p := false] else s.peers
    ensures t.cons == if leaves then s.cons - {id} else s.cons
    ensures t.unretired == if leaves then s.unretired - {p} else s.unretired + {p}
  {
    var s3, head := QuietStart(s, c, p, true);
    var s4, wait := QuietWait(s3, c, id, leaves, true);
    var end, tail := QuietEnd(s4, c, true);
    t := end;
    RunAppend(s3, wait, s4, tail, t, true);
    RunAppend(s, head, s3, wait + tail, t, true);
    steps := head + (wait + tail);
  }

  lemma QuietStart(s: System, c: Caller, p: Addr, serial: bool) returns (t: System, steps: seq<Step>)
    requires c !in s.calls && (serial ==> Alone(s, p)) && p != "" && HasCon(s.cons, p)
    ensures Run(s, steps, t, serial)
    ensures t == s.(armed := s.armed - {p}, calls := s.calls[c := Waiting(p, Retire(IsUp(s.peers, p)))])
  {
    var s1 := Do(s, BeginDisconnect(c, p));
    var s2 := Do(s1, ReadUp(c));
    t := Do(s2, EraseArmed(c));
    RunOne(s2, EraseArmed(c), [], t, serial);
    RunOne(s1, ReadUp(c), [EraseArmed(c)], t, serial);
    RunOne(s, BeginDisconnect(c, p), [ReadUp(c)] + [EraseArmed(c)], t, serial);
    steps := [BeginDisconnect(c, p)] + ([ReadUp(c)] + [EraseArmed(c)]);
  }

  lemma QuietWait(s: System, c: Caller, id: ConId, leaves: bool, serial: bool) returns (t: System, steps: seq<Step>)
    requires c in s.calls && s.calls[c].Waiting? && s.calls[c].why.Retire?
    requires id in s.cons && s.cons[id] == s.calls[c].peer
    requires forall other :: other in s.cons && other != id ==> s.cons[other] != s.calls[c].peer
    ensures Run(s, steps, t, serial)
    ensures var (p, seen) := (s.calls[c].peer, if leaves then {s.calls[c].peer} else {});
      t == s.(calls := s.calls[c := Marking(p, s.calls[c].why.wasUp, leaves)],
              cons := if leaves then s.cons - {id} else s.cons, partial := s.partial - seen, unseen := s.unseen - seen)
  {
    if leaves {
      var u := Do(s, Drop(id));
      t := Do(u, SeeGone(c));
      RunOne(u, SeeGone(c), [], t, serial);
      RunOne(s, Drop(id), [SeeGone(c)], t, serial);
      steps := [Drop(id)] + [SeeGone(c)];
    } else {
      t := Do(s, TimeOut(c));
      RunOne(s, TimeOut(c), [], t, serial);
      steps := [TimeOut(c)];
    }
  }

  lemma QuietEnd(s: System, c: Caller, serial: bool) returns (t: System, steps: seq<Step>)
    requires c in s.calls && s.calls[c].Marking?
    ensures Run(s, steps, t, serial)
    ensures var call := s.calls[c];
      t == s.(peers := if call.wasUp then s.peers[call.peer := false] else s.peers, calls := s.calls - {c},
              unretired := if call.gone then s.unretired - {call.peer} else s.unretired + {call.peer})
  {
    var u := Do(s, MarkDown(c));
    t := Do(u, Record(c));
    assert u.calls - {c} == s.calls - {c};
    RunOne(u, Record(c), [], t, serial);
    RunOne(s, MarkDown(c), [Record(c)], t, serial);
    steps := [MarkDown(c)] + [Record(c)];
  }

  lemma ArmRun(s: System, c: Caller, p: Addr, record: ArmedCon, id: ConId) returns (t: System, steps: seq<Step>)
    requires c !in s.calls && Alone(s, p) && p != "" && !HasCon(s.cons, p) && id !in s.cons
    ensures Run(s, steps, t, true)
    ensures t == s.(armed := s.armed[p := record], cons := s.cons[id := p])
  {
    var u := Do(s, BeginArm(c, p, record));
    t := Do(u, PostOk(c, id));
    assert t.calls == s.calls;
    RunOne(u, PostOk(c, id), [], t, true);
    RunOne(s, BeginArm(c, p, record), [PostOk(c, id)], t, true);
    steps := [BeginArm(c, p, record)] + [PostOk(c, id)];
  }

  lemma {:induction false} RunAppend(s: System, a: seq<Step>, t: System, b: seq<Step>, u: System, serial: bool)
    requires Run(s, a, t, serial) && Run(t, b, u, serial)
    ensures Run(s, a + b, u, serial)
    decreases |a|
  {
    hide Do, Enabled, Serial;
    if a == [] {
      assert a + b == b;
    } else {
      RunAppend(Do(s, a[0]), a[1..], t, b, u, serial);
      assert (a + b)[1..] == a[1..] + b;
    }
  }

  lemma RunOne(s: System, step: Step, rest: seq<Step>, t: System, serial: bool)
    requires Enabled(s, step) && (serial ==> Serial(s, step)) && Run(Do(s, step), rest, t, serial)
    ensures Run(s, [step] + rest, t, serial)
  {
    hide Do, Enabled, Serial;
    assert ([step] + rest)[1..] == rest;
  }
}
