/**
 The handshake between Ping and Close (src/FacadeHub.cpp): any number of client
 threads wait inside the hub for an answer, the pump answers, and one close has
 to know that every waiter is out before it frees the hub.
 */
module PingClose {

  type Tid = nat
  type Handle = nat

  /** One m_mapPings row; owner is the thread whose frame registered it. */
  datatype PingRow = PingRow(owner: Tid, handle: Handle, answered: bool)

  /** What m_oCSectPeers guards here. */
  datatype Table = Table(rows: map<nat, PingRow>, nextId: nat, closing: bool)

  function Register(t: Table, owner: Tid, h: Handle): Table {
    t.(nextId := t.nextId + 1, rows := t.rows[t.nextId + 1 := PingRow(owner, h, false)])
  }

  /** The handles the answer to a ping signals: one, or none for a stray or repeated pong. */
  function AnswerSignals(t: Table, id: nat): set<Handle> {
    if id in t.rows && !t.rows[id].answered then {t.rows[id].handle} else {}
  }

  function Answer(t: Table, id: nat): Table {
    if id in t.rows then t.(rows := t.rows[id := t.rows[id].(answered := true)]) else t
  }

  function Erase(t: Table, id: nat): Table { t.(rows := t.rows - {id}) }

  function AllHandles(t: Table): set<Handle> { set id | id in t.rows :: t.rows[id].handle }

  /** The critical sections, in the shape the hub runs them. */
  class PingTable {
    var rows: map<nat, PingRow>
    var nextId: nat
    var closing: bool

    function State(): Table
      reads this
    {
      Table(rows, nextId, closing)
    }

    constructor ()
      ensures State() == Table(map[], 0, false)
    {
      rows, nextId, closing := map[], 0, false;
    }

    /** Ping's first section: refused once a close has begun. */
    method Begin(owner: Tid, h: Handle) returns (ok: bool, id: nat)
      modifies this
      ensures ok <==> !old(closing)
      ensures ok ==> State() == Register(old(State()), owner, h) && id == nextId
      ensures !ok ==> State() == old(State())
    {
      if closing {
        return false, 0;
      }
      nextId := nextId + 1;
      rows := rows[nextId := PingRow(owner, h, false)];
      return true, nextId;
    }

    /** HandlePrivate's Pong branch. */
    method Pong(id: nat) returns (signalled: set<Handle>)
      modifies this
      ensures signalled == AnswerSignals(old(State()), id)
      ensures State() == Answer(old(State()), id)
    {
      signalled := {};
      if id in rows && !rows[id].answered {
        signalled := {rows[id].handle};
        rows := rows[id := rows[id].(answered := true)];
      }
    }

    /** Ping's last section. */
    method Leave(id: nat) returns (answered: bool)
      modifies this
      ensures answered <==> id in old(rows) && old(rows)[id].answered
      ensures State() == Erase(old(State()), id)
    {
      answered := false;
      if id in rows {
        answered := rows[id].answered;
        rows := rows - {id};
      }
    }

    /** CloseInternal's first section: mark, then signal every waiter. */
    method MarkClosing() returns (signalled: set<Handle>)
      modifies this
      ensures State() == old(State()).(closing := true)
      ensures signalled == AllHandles(State())
    {
      closing := true;
      signalled := {};
      var left := rows.Keys;
      while left != {}
        invariant left <= rows.Keys
        invariant signalled == set id | id in rows && id !in left :: rows[id].handle
      {
        var id :| id in left;
        signalled := signalled + {rows[id].handle};
        left := left - {id};
      }
    }
  }

  // ---------------------------------------------------------------------
  // The protocol

  /**
   Where one thread is inside Ping.  Created has an event and has not taken the
   lock; Leaving has erased its row and only closes its own handle.
   */
  datatype Pc =
    | Created(handle: Handle)
    | Registered(id: nat, handle: Handle)
    | Waiting(id: nat, handle: Handle)
    | Returning(id: nat, handle: Handle, signalled: bool)
    | Leaving(id: nat, handle: Handle, signalled: bool, answered: bool)

  datatype Closer = NotClosing | Marked | SawEmpty | GaveUp

  /**
   handles: the open events, and whether each is set (they are manual-reset).
   stray: some SetEvent hit a handle its owner had closed.
   pongs: the ids answered so far.  succeeded: the ids whose Ping returned S_OK.
   */
  datatype System = System(
    table: Table, handles: map<Handle, bool>, nextHandle: Handle, threads: map<Tid, Pc>,
    closer: Closer, stray: bool, pongs: set<nat>, succeeded: set<nat>)

  datatype Step =
    | Create(t: Tid) | Enter(t: Tid) | Post(t: Tid, ok: bool)
    | Woken(t: Tid) | Timeout(t: Tid) | Leave(t: Tid) | Finish(t: Tid)
    | Pong(id: nat) | Mark | Check | GiveUp

  /** Between registering its row and erasing it a thread uses the hub. */
  predicate Inside(pc: Pc) { pc.Registered? || pc.Waiting? || pc.Returning? }

  predicate Initial(s: System) {
    s == System(Table(map[], 0, false), map[], 0, map[], NotClosing, false, {}, {})
  }

  predicate Enabled(s: System, step: Step) {
    match step
    case Create(t) => t !in s.threads
    case Enter(t) => t in s.threads && s.threads[t].Created?
    case Post(t, _) => t in s.threads && s.threads[t].Registered?
    case Woken(t) =>
      && t in s.threads && s.threads[t].Waiting?
      && s.threads[t].handle in s.handles && s.handles[s.threads[t].handle]
    case Timeout(t) => t in s.threads && s.threads[t].Waiting?
    case Leave(t) => t in s.threads && s.threads[t].Returning?
    case Finish(t) => t in s.threads && s.threads[t].Leaving?
    case Pong(_) => true
    case Mark => s.closer == NotClosing
    case Check => s.closer == Marked
    case GiveUp => s.closer == Marked
  }

  function Signal(s: System, hs: set<Handle>): System {
    s.(handles := map h | h in s.handles :: s.handles[h] || h in hs,
       stray := s.stray || exists h :: h in hs && h !in s.handles)
  }

  function Do(s: System, step: Step): System
    requires Enabled(s, step)
  {
    match step
    case Create(t) =>
      s.(handles := s.handles[s.nextHandle := false], nextHandle := s.nextHandle + 1,
         threads := s.threads[t := Created(s.nextHandle)])
    case Enter(t) =>
      var h := s.threads[t].handle;
      if s.table.closing then s.(handles := s.handles - {h}, threads := s.threads - {t})
      else
        var table := Register(s.table, t, h);
        s.(table := table, threads := s.threads[t := Registered(table.nextId, h)])
    case Post(t, ok) =>
      var pc := s.threads[t];
      s.(threads := s.threads[t := if ok then Waiting(pc.id, pc.handle) else Returning(pc.id, pc.handle, false)])
    case Woken(t) => s.(threads := s.threads[t := Returning(s.threads[t].id, s.threads[t].handle, true)])
    case Timeout(t) => s.(threads := s.threads[t := Returning(s.threads[t].id, s.threads[t].handle, false)])
    case Leave(t) =>
      var pc := s.threads[t];
      var answered := pc.id in s.table.rows && s.table.rows[pc.id].answered;
      s.(table := Erase(s.table, pc.id), threads := s.threads[t := Leaving(pc.id, pc.handle, pc.signalled, answered)])
    case Finish(t) =>
      var pc := s.threads[t];
      s.(handles := s.handles - {pc.handle}, threads := s.threads - {t},
         succeeded := if pc.signalled && pc.answered then s.succeeded + {pc.id} else s.succeeded)
    case Pong(id) =>
      Signal(s, AnswerSignals(s.table, id)).(
        table := Answer(s.table, id),
        pongs := if id in s.table.rows then s.pongs + {id} else s.pongs)
    case Mark => Signal(s, AllHandles(s.table)).(table := s.table.(closing := true), closer := Marked)
    case Check => if s.table.rows == map[] then s.(closer := SawEmpty) else s
    case GiveUp => s.(closer := GaveUp)
  }

  ghost predicate Run(s: System, steps: seq<Step>, t: System)
    decreases |steps|
  {
    if steps == [] then s == t
    else Enabled(s, steps[0]) && Run(Do(s, steps[0]), steps[1..], t)
  }

  /** Rows and the threads inside the hub are the same thing seen twice. */
  ghost predicate Paired(s: System) { ThreadsHaveRows(s) && RowsHaveThreads(s) }

  ghost predicate ThreadsHaveRows(s: System) {
    forall t :: t in s.threads && Inside(s.threads[t]) ==>
      && s.threads[t].id in s.table.rows
      && s.table.rows[s.threads[t].id].owner == t
      && s.table.rows[s.threads[t].id].handle == s.threads[t].handle
  }

  ghost predicate RowsHaveThreads(s: System) {
    forall id :: id in s.table.rows ==>
      var o := s.table.rows[id].owner;
      id <= s.table.nextId && o in s.threads && Inside(s.threads[o]) && s.threads[o].id == id
  }

  /** Every thread holds an open event of its own. */
  ghost predicate OwnHandles(s: System) { HandlesOpen(s) && HandlesApart(s) }

  ghost predicate HandlesOpen(s: System) {
    && (forall t :: t in s.threads ==> s.threads[t].handle in s.handles)
    && (forall h :: h in s.handles ==> h < s.nextHandle)
    && !s.stray
  }

  ghost predicate HandlesApart(s: System) {
    forall t, u :: t in s.threads && u in s.threads && t != u ==> s.threads[t].handle != s.threads[u].handle
  }

  ghost predicate Signalled(s: System) {
    && (s.closer != NotClosing ==> s.table.closing)
    && (s.table.closing ==> forall id :: id in s.table.rows ==>
          s.table.rows[id].handle in s.handles && s.handles[s.table.rows[id].handle])
    && (s.closer == SawEmpty ==> s.table.rows == map[])
  }

  ghost predicate Honest(s: System) {
    && (forall id :: id in s.table.rows && s.table.rows[id].answered ==> id in s.pongs)
    && (forall t :: t in s.threads && s.threads[t].Leaving? && s.threads[t].answered ==> s.threads[t].id in s.pongs)
    && s.succeeded <= s.pongs
  }

  /** An event is set by the answer to its own ping and by the close, and by nothing else. */
  ghost predicate EventsTell(s: System) { RowsTell(s) && CreatedUnset(s) }

  ghost predicate RowsTell(s: System) {
    && (forall id :: id in s.pongs ==> id <= s.table.nextId)
    && (forall id :: id in s.table.rows ==> RowTells(s, id))
  }

  predicate RowTells(s: System, id: nat)
    requires id in s.table.rows
  {
    var row := s.table.rows[id];
    && (row.answered <==> id in s.pongs)
    && row.handle in s.handles
    && (s.handles[row.handle] <==> id in s.pongs || s.table.closing)
  }

  ghost predicate CreatedUnset(s: System) {
    forall t :: t in s.threads && s.threads[t].Created? && s.threads[t].handle in s.handles ==>
      !s.handles[s.threads[t].handle]
  }

  /** A ping that has left its row has left it for good. */
  ghost predicate Departed(s: System) {
    && (forall t :: t in s.threads && s.threads[t].Leaving? ==>
          s.threads[t].id <= s.table.nextId && s.threads[t].id !in s.table.rows)
    && (forall id :: id in s.succeeded ==> id <= s.table.nextId && id !in s.table.rows)
  }

  ghost predicate Inv(s: System) {
    Paired(s) && OwnHandles(s) && Signalled(s) && Honest(s) && EventsTell(s) && Departed(s)
  }

  lemma StepThreads(s: System, step: Step)
    requires Paired(s) && Enabled(s, step)
    ensures ThreadsHaveRows(Do(s, step))
  {
  }

  lemma StepRows(s: System, step: Step)
    requires Paired(s) && Enabled(s, step)
    ensures RowsHaveThreads(Do(s, step))
  {
  }

  lemma StepPaired(s: System, step: Step)
    requires Paired(s) && Enabled(s, step)
    ensures Paired(Do(s, step))
  {
    StepThreads(s, step);
    StepRows(s, step);
    hide ThreadsHaveRows, RowsHaveThreads, Do;
  }

  lemma StepHandlesOpen(s: System, step: Step)
    requires Paired(s) && OwnHandles(s) && Enabled(s, step)
    ensures HandlesOpen(Do(s, step))
  {
    hide ThreadsHaveRows;
    if step.Pong? || step.Mark? { RowHandlesOpen(s); }
  }

  lemma RowHandlesOpen(s: System)
    requires Paired(s) && HandlesOpen(s)
    ensures forall id :: id in s.table.rows ==> s.table.rows[id].handle in s.handles
  {
  }

  lemma StepHandlesApart(s: System, step: Step)
    requires OwnHandles(s) && Enabled(s, step)
    ensures HandlesApart(Do(s, step))
  {
  }

  lemma StepOwnHandles(s: System, step: Step)
    requires Paired(s) && OwnHandles(s) && Enabled(s, step)
    ensures OwnHandles(Do(s, step))
  {
    StepHandlesOpen(s, step);
    StepHandlesApart(s, step);
    hide Paired, HandlesOpen, HandlesApart, Do, Enabled;
  }

  lemma StepSignalled(s: System, step: Step)
    requires Paired(s) && OwnHandles(s) && Signalled(s) && Enabled(s, step)
    ensures Signalled(Do(s, step))
  {
  }

  lemma StepHonest(s: System, step: Step)
    requires Paired(s) && Honest(s) && Enabled(s, step)
    ensures Honest(Do(s, step))
  {
  }

  lemma StepCreatedUnset(s: System, step: Step)
    requires Paired(s) && OwnHandles(s) && CreatedUnset(s) && Enabled(s, step)
    ensures CreatedUnset(Do(s, step))
  {
    RowHandlesAreInside(s);
    hide Paired;
  }

  /** The event of a row is that of a thread which has registered. */
  lemma RowHandlesAreInside(s: System)
    requires Paired(s)
    ensures forall id :: id in s.table.rows ==> var o := s.table.rows[id].owner;
      o in s.threads && Inside(s.threads[o]) && s.threads[o].handle == s.table.rows[id].handle
  {
  }

  /** Two rows never share an event. */
  lemma RowsApart(s: System, i: nat, j: nat)
    requires Paired(s) && HandlesApart(s) && i in s.table.rows && j in s.table.rows && i != j
    ensures s.table.rows[i].handle != s.table.rows[j].handle
  {
  }

  lemma PongTells(s: System, answered: nat, id: nat)
    requires Paired(s) && OwnHandles(s) && RowsTell(s) && id in s.table.rows
    ensures RowTells(Do(s, Pong(answered)), id)
  {
    assert RowTells(s, id);
    if answered in s.table.rows && answered != id { RowsApart(s, answered, id); }
    hide Paired, OwnHandles, RowsTell;
  }

  lemma OtherTells(s: System, step: Step, id: nat)
    requires Paired(s) && OwnHandles(s) && EventsTell(s) && Enabled(s, step) && !step.Pong?
    requires id in Do(s, step).table.rows
    ensures RowTells(Do(s, step), id)
  {
    if id in s.table.rows { assert RowTells(s, id); }
  }

  lemma StepRowsTell(s: System, step: Step)
    requires Paired(s) && OwnHandles(s) && EventsTell(s) && Enabled(s, step)
    ensures RowsTell(Do(s, step))
  {
    var t := Do(s, step);
    assert forall id :: id in t.pongs ==> id <= t.table.nextId;
    hide Paired, OwnHandles, CreatedUnset;
    forall id | id in t.table.rows ensures RowTells(t, id) {
      if step.Pong? {
        PongTells(s, step.id, id);
      } else {
        OtherTells(s, step, id);
      }
    }
  }

  lemma StepDeparted(s: System, step: Step)
    requires Paired(s) && Departed(s) && Enabled(s, step)
    ensures Departed(Do(s, step))
  {
  }

  lemma StepKeepsInv(s: System, step: Step)
    requires Inv(s) && Enabled(s, step)
    ensures Inv(Do(s, step))
  {
    StepPaired(s, step);
    StepOwnHandles(s, step);
    StepSignalled(s, step);
    StepHonest(s, step);
    StepCreatedUnset(s, step);
    StepRowsTell(s, step);
    StepDeparted(s, step);
    hide Paired, OwnHandles, Signalled, Honest, RowsTell, CreatedUnset, Departed, Do;
  }

  lemma {:induction false} RunKeepsInv(s: System, steps: seq<Step>, t: System)
    requires Inv(s) && Run(s, steps, t)
    ensures Inv(t)
    decreases |steps|
  {
    hide Inv, Do;
    if steps != [] {
      StepKeepsInv(s, steps[0]);
      RunKeepsInv(Do(s, steps[0]), steps[1..], t);
    }
  }

  lemma {:induction false} SawEmptyIsFinal(s: System, steps: seq<Step>, t: System)
    requires s.closer == SawEmpty && Run(s, steps, t)
    ensures t.closer == SawEmpty
    decreases |steps|
  {
    if steps != [] {
      SawEmptyIsFinal(Do(s, steps[0]), steps[1..], t);
    }
  }

  /**
   Once the close has seen the map empty, then and for ever after no thread is
   between registering and erasing a row, none can register, and no event has
   been set after its owner closed it.
   */
  lemma EmptyMeansOut(s: System, steps: seq<Step>, t: System, more: seq<Step>, u: System)
    requires Initial(s) && Run(s, steps, t) && t.closer == SawEmpty && Run(t, more, u)
    ensures u.table.rows == map[] && u.table.closing && !u.stray
    ensures forall p :: p in u.threads ==> !Inside(u.threads[p])
    ensures forall p :: Enabled(u, Enter(p)) ==> Do(u, Enter(p)).threads == u.threads - {p}
  {
    hide Run, Do;
    assert Inv(s);
    RunKeepsInv(s, steps, t);
    RunKeepsInv(t, more, u);
    SawEmptyIsFinal(t, more, u);
    forall p | Enabled(u, Enter(p)) ensures Do(u, Enter(p)).threads == u.threads - {p} {
      EnterRefused(u, p);
    }
  }

  lemma EnterRefused(u: System, p: Tid)
    requires u.table.closing && Enabled(u, Enter(p))
    ensures Do(u, Enter(p)).threads == u.threads - {p}
  {
  }

  /** Does the thread's next step take the hub's lock, or its pump's queue? */
  ghost predicate CanTouchHub(s: System, p: Tid) {
    Enabled(s, Enter(p)) || Enabled(s, Post(p, true)) || Enabled(s, Post(p, false)) || Enabled(s, Leave(p))
  }

  /**
   The threads that can still touch the hub after that are exactly those between
   creating their event and taking the lock, which the close does not wait for.
   */
  lemma StillTouchesIff(s: System, steps: seq<Step>, t: System, p: Tid)
    requires Initial(s) && Run(s, steps, t) && t.closer == SawEmpty
    ensures CanTouchHub(t, p) <==> p in t.threads && t.threads[p].Created?
  {
    assert Run(t, [], t);
    EmptyMeansOut(s, steps, t, [], t);
    hide Run, Do;
  }

  /** And there can be such a thread when the close has seen the map empty. */
  lemma CreatedMayTouch(s: System, p: Tid) returns (steps: seq<Step>, t: System)
    requires Initial(s)
    ensures Run(s, steps, t) && t.closer == SawEmpty && CanTouchHub(t, p)
  {
    var s1 := Do(s, Create(p));
    var s2 := Do(s1, Mark);
    t := Do(s2, Check);
    assert AllHandles(s1.table) == {};
    RunOne(s, Create(p));
    RunOne(s1, Mark);
    RunOne(s2, Check);
    RunAppend(s1, [Mark], s2, [Check], t);
    RunAppend(s, [Create(p)], s1, [Mark] + [Check], t);
    steps := [Create(p)] + ([Mark] + [Check]);
  }

  /** After the mark every waiter can run: its event is set, and only its own wait holds it. */
  lemma WaitersAreReleased(s: System, steps: seq<Step>, t: System, p: Tid)
    requires Initial(s) && Run(s, steps, t) && t.table.closing
    requires p in t.threads && t.threads[p].Waiting?
    ensures Enabled(t, Woken(p))
  {
    hide Run, Do;
    assert Inv(s);
    RunKeepsInv(s, steps, t);
  }

  /** S_OK is only ever returned for a ping a pong has answered; a close is not an answer. */
  lemma SuccessWasAnswered(s: System, steps: seq<Step>, t: System)
    requires Initial(s) && Run(s, steps, t)
    ensures t.succeeded <= t.pongs
  {
    hide Run, Do;
    assert Inv(s);
    RunKeepsInv(s, steps, t);
  }

  /** In every run the event of a registered thread is set exactly when its ping was answered or a close began. */
  lemma SetIffAnsweredOrClosing(s: System, steps: seq<Step>, t: System, p: Tid)
    requires Initial(s) && Run(s, steps, t) && p in t.threads && Inside(t.threads[p])
    ensures t.threads[p].handle in t.handles
    ensures t.handles[t.threads[p].handle] <==> t.threads[p].id in t.pongs || t.table.closing
  {
    hide Run, Do;
    assert Inv(s);
    RunKeepsInv(s, steps, t);
    assert RowTells(t, t.threads[p].id);
  }

  /** The first pong of a registered ping sets its event; a stray or a repeated one changes no event. */
  lemma PongSetsOneEvent(s: System, steps: seq<Step>, t: System, id: nat)
    requires Initial(s) && Run(s, steps, t)
    ensures id in t.table.rows ==> t.table.rows[id].handle in t.handles
    ensures Do(t, Pong(id)).handles ==
      if id in t.table.rows && id !in t.pongs then t.handles[t.table.rows[id].handle := true] else t.handles
    ensures !Do(t, Pong(id)).stray
  {
    assert Inv(s);
    hide Inv, Run, Do;
    RunKeepsInv(s, steps, t);
    PongEvent(t, id);
  }

  lemma PongEvent(s: System, id: nat)
    requires Inv(s)
    ensures id in s.table.rows ==> s.table.rows[id].handle in s.handles
    ensures Do(s, Pong(id)).handles ==
      if id in s.table.rows && id !in s.pongs then s.handles[s.table.rows[id].handle := true] else s.handles
    ensures !Do(s, Pong(id)).stray
  {
    assert !s.stray;
    if id in s.table.rows { assert RowTells(s, id); }
    hide Paired, Signalled, Honest, EventsTell, OwnHandles;
  }

  /** The ping's thread goes out without having been woken, or has gone. */
  ghost predicate Unwoken(s: System, id: nat) {
    && id <= s.table.nextId && id !in s.succeeded
    && forall t :: t in s.threads && !s.threads[t].Created? && s.threads[t].id == id ==>
         (s.threads[t].Returning? || s.threads[t].Leaving?) && !s.threads[t].signalled
  }

  lemma UnwokenStep(s: System, step: Step, id: nat)
    requires Unwoken(s, id) && Enabled(s, step)
    ensures Unwoken(Do(s, step), id)
  {
  }

  lemma {:induction false} UnwokenStays(s: System, steps: seq<Step>, t: System, id: nat)
    requires Unwoken(s, id) && Run(s, steps, t)
    ensures Unwoken(t, id)
    decreases |steps|
  {
    hide Unwoken, Do, Enabled;
    if steps != [] {
      UnwokenStep(s, steps[0], id);
      UnwokenStays(Do(s, steps[0]), steps[1..], t, id);
    }
  }

  /** A ping that ran out of time, or was never posted, does not succeed any more, not even if the pong still comes. */
  lemma LateAnswerIsNoSuccess(s: System, steps: seq<Step>, t: System, step: Step, more: seq<Step>, u: System)
    requires Initial(s) && Run(s, steps, t) && (step.Timeout? || (step.Post? && !step.ok)) && Enabled(t, step)
    requires Run(Do(t, step), more, u)
    ensures t.threads[step.t].id !in u.succeeded
  {
    assert Inv(s);
    hide Inv, Run, Do;
    RunKeepsInv(s, steps, t);
    GoesOutUnwoken(t, step);
    UnwokenStays(Do(t, step), more, u, t.threads[step.t].id);
  }

  lemma GoesOutUnwoken(s: System, step: Step)
    requires Inv(s) && (step.Timeout? || (step.Post? && !step.ok)) && Enabled(s, step)
    ensures Unwoken(Do(s, step), s.threads[step.t].id)
  {
    hide OwnHandles, Signalled, Honest, EventsTell;
  }

  // ---------------------------------------------------------------------
  // The close does not depend on any answer or time-out

  predicate WaiterStep(step: Step) { (step.Post? && step.ok) || step.Woken? || step.Leave? || step.Check? }

  lemma {:induction false} RunAppend(s: System, a: seq<Step>, t: System, b: seq<Step>, u: System)
    requires Run(s, a, t) && Run(t, b, u)
    ensures Run(s, a + b, u)
    decreases |a|
  {
    hide Do;
    if a == [] {
      assert a + b == b;
    } else {
      assert (a + b)[0] == a[0] && (a + b)[1..] == a[1..] + b;
      RunAppend(Do(s, a[0]), a[1..], t, b, u);
    }
  }

  lemma RunOne(s: System, step: Step)
    requires Enabled(s, step)
    ensures Run(s, [step], Do(s, step))
  {
    assert [step][1..] == [];
  }

  /** A pong of a waiting ping lets its thread run, and the thread then returns success. */
  lemma PongIsReturned(s: System, steps: seq<Step>, t: System, p: Tid) returns (u: System)
    requires Initial(s) && Run(s, steps, t) && p in t.threads && t.threads[p].Waiting?
    ensures var id := t.threads[p].id;
      Run(t, [Pong(id), Woken(p), Leave(p), Finish(p)], u) && id in u.succeeded && p !in u.threads
  {
    assert Inv(s);
    hide Inv, Run, Do;
    RunKeepsInv(s, steps, t);
    var id := t.threads[p].id;
    var t1 := Do(t, Pong(id));
    PongWakes(t, p);
    u := WokenSucceeds(t1, p);
    RunOne(t, Pong(id));
    RunAppend(t, [Pong(id)], t1, [Woken(p), Leave(p), Finish(p)], u);
    assert [Pong(id)] + [Woken(p), Leave(p), Finish(p)] == [Pong(id), Woken(p), Leave(p), Finish(p)];
  }

  lemma PongWakes(s: System, p: Tid)
    requires Inv(s) && p in s.threads && s.threads[p].Waiting?
    ensures var (id, t) := (s.threads[p].id, Do(s, Pong(s.threads[p].id)));
      && t.threads == s.threads && Enabled(t, Woken(p))
      && id in t.table.rows && t.table.rows[id].answered
  {
    var id := s.threads[p].id;
    assert RowTells(s, id);
    hide Signalled, Honest, EventsTell, RowsHaveThreads, OwnHandles;
  }

  lemma WokenSucceeds(s: System, p: Tid) returns (t: System)
    requires p in s.threads && s.threads[p].Waiting? && Enabled(s, Woken(p))
    requires s.threads[p].id in s.table.rows && s.table.rows[s.threads[p].id].answered
    ensures Run(s, [Woken(p), Leave(p), Finish(p)], t) && s.threads[p].id in t.succeeded && p !in t.threads
  {
    var s1 := Do(s, Woken(p));
    var s2 := Do(s1, Leave(p));
    t := Do(s2, Finish(p));
    RunOne(s2, Finish(p));
    RunOne(s1, Leave(p));
    RunOne(s, Woken(p));
    hide Do, Enabled;
    RunAppend(s1, [Leave(p)], s2, [Finish(p)], t);
    RunAppend(s, [Woken(p)], s1, [Leave(p)] + [Finish(p)], t);
    assert [Woken(p)] + ([Leave(p)] + [Finish(p)]) == [Woken(p), Leave(p), Finish(p)];
  }

  /** A waiter's own next step. */
  function NextStep(s: System, p: Tid): Step
    requires p in s.threads
  {
    match s.threads[p]
    case Registered(_, _) => Post(p, true)
    case Waiting(_, _) => Woken(p)
    case _ => Leave(p)
  }

  /** How many steps a waiter is from erasing its row. */
  function WayOut(pc: Pc): nat {
    match pc
    case Registered(_, _) => 2
    case Waiting(_, _) => 1
    case _ => 0
  }

  /** The thread that owns a row leaves by itself once a close has begun. */
  lemma {:induction false} OneLeaves(s: System, p: Tid) returns (steps: seq<Step>, t: System)
    requires Inv(s) && s.closer == Marked && p in s.threads && Inside(s.threads[p])
    ensures Run(s, steps, t) && forall i :: 0 <= i < |steps| ==> WaiterStep(steps[i])
    ensures Inv(t) && t.closer == Marked && |t.table.rows| < |s.table.rows|
    decreases WayOut(s.threads[p])
  {
    hide Inv, Do, Enabled, Inside, WayOut, NextStep, WaiterStep, Run;
    var step := NextStep(s, p);
    WaiterCanStep(s, p);
    NextIsWaiters(s, p);
    var u := Do(s, step);
    WaiterAdvances(s, p, step);
    StepKeepsInv(s, step);
    RunOne(s, step);
    steps, t := [step], u;
    if step != Leave(p) {
      var rest;
      rest, t := OneLeaves(u, p);
      RunAppend(s, [step], u, rest, t);
      steps := [step] + rest;
    }
  }

  lemma NextIsWaiters(s: System, p: Tid)
    requires p in s.threads
    ensures WaiterStep(NextStep(s, p))
  {
  }

  lemma WaiterCanStep(s: System, p: Tid)
    requires Inv(s) && s.closer == Marked && p in s.threads && Inside(s.threads[p])
    ensures Enabled(s, NextStep(s, p))
  {
    hide Honest, EventsTell, RowsHaveThreads, HandlesApart;
  }

  /** One step of a waiter's way out: it gets nearer the end, or its row goes. */
  lemma WaiterAdvances(s: System, p: Tid, step: Step)
    requires Inv(s) && s.closer == Marked && p in s.threads && Inside(s.threads[p])
    requires step == NextStep(s, p)
    requires Enabled(s, step)
    ensures var u := Do(s, step);
      && u.closer == Marked
      && (step != Leave(p) ==>
            && p in u.threads && Inside(u.threads[p]) && |u.table.rows| == |s.table.rows|
            && WayOut(u.threads[p]) < WayOut(s.threads[p]))
      && (step == Leave(p) ==> |u.table.rows| < |s.table.rows|)
  {
    if step == Leave(p) {
      var u := Do(s, step);
      assert s.threads[p].id in s.table.rows;
      assert u.table.rows.Keys == s.table.rows.Keys - {s.threads[p].id};
      assert |u.table.rows| == |u.table.rows.Keys| && |s.table.rows| == |s.table.rows.Keys|;
    }
  }

  /** So the waiters alone always bring the close to an empty map. */
  lemma {:induction false} CloseCanFinish(s: System) returns (steps: seq<Step>, t: System)
    requires Inv(s) && s.closer == Marked
    ensures Run(s, steps, t) && forall i :: 0 <= i < |steps| ==> WaiterStep(steps[i])
    ensures t.closer == SawEmpty
    decreases |s.table.rows|
  {
    if s.table.rows == map[] {
      RunOne(s, Check);
      return [Check], Do(s, Check);
    }
    var id :| id in s.table.rows;
    var u, first, rest;
    first, u := OneLeaves(s, s.table.rows[id].owner);
    rest, t := CloseCanFinish(u);
    RunAppend(s, first, u, rest, t);
    steps := first + rest;
  }
}
