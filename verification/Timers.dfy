/**
 Timers that never fire early (src/FacadeHub.cpp).  A client sets and kills
 timers from any thread; the pump arms kernel timers, whose deadlines are
 truncated to whole seconds, and refuses to deliver before the client's own.
 */
module Timers {
  import opened Text

  const MAX_REARMS: nat := 2

  /** A time truncated to the second the kernel's clock shows. */
  function Second(t: int): int { t - t % 1000 }

  function RoundUp(t: int): int { Second(t + 999) }

  /** SetPITimer: the deadline of a timer armed at a system time. */
  function KernelDeadline(sys: int, delay: nat): int { Second(sys) + delay }

  /** What the pump sees at a wake-up. */
  predicate Elapsed(wake: int, deadline: int) { Second(wake) >= deadline }

  lemma SecondMonotone(a: int, b: int)
    requires a <= b
    ensures Second(a) <= Second(b)
  {
    if a / 1000 == b / 1000 {
      assert Second(a) == 1000 * (a / 1000) && Second(b) == 1000 * (b / 1000);
    } else {
      assert a / 1000 < b / 1000;
    }
  }

  lemma RoundUpIsLeast(deadline: int, wake: int)
    ensures Elapsed(RoundUp(deadline), deadline) && deadline <= RoundUp(deadline) <= deadline + 999
    ensures Elapsed(wake, deadline) <==> RoundUp(deadline) <= wake
  {
    assert Second(RoundUp(deadline)) == RoundUp(deadline);
    if Elapsed(wake, deadline) {
      SecondMonotone(deadline + 999, Second(wake) + 999);
    }
    if RoundUp(deadline) <= wake {
      SecondMonotone(RoundUp(deadline), wake);
    }
  }

  // Below, the reads of one arming on a tick clock that the system clock leads
  // by offset: the tick at t1, for a re-arm the position in the second at t2,
  // and the kernel's own clock at t3.

  function PlainArm(t1: int, t3: int, offset: int, due: int): int
    requires due > t1
  {
    KernelDeadline(t3 + offset, due - t1)
  }

  /**
   The plain arm can elapse early exactly when what its delay lacks to a whole
   second, and the time the arming took, are together less than the position in
   the second at which the kernel armed it.
   */
  lemma PlainCanBeEarlyIff(t1: int, t3: int, offset: int, due: int)
    requires t1 <= t3 && t1 < due
    ensures (exists wake :: wake >= t3 + offset && Elapsed(wake, PlainArm(t1, t3, offset, due)) && wake < due + offset)
       <==> (t1 - due) % 1000 + (t3 - t1) < (t3 + offset) % 1000
  {
    EarlyIffRounded(t1, t3, offset, due);
    RoundUpDelay(Second(t3 + offset), due - t1);
  }

  /** A delay on top of a whole second rounds up by what it lacks to one. */
  lemma RoundUpDelay(second: int, delay: int)
    requires second % 1000 == 0
    ensures RoundUp(second + delay) == second + delay + (-delay) % 1000
  {
  }

  lemma EarlyIffRounded(t1: int, t3: int, offset: int, due: int)
    requires t1 <= t3 && t1 < due
    ensures (exists wake :: wake >= t3 + offset && Elapsed(wake, PlainArm(t1, t3, offset, due)) && wake < due + offset)
            <==> RoundUp(PlainArm(t1, t3, offset, due)) < due + offset
  {
    var deadline := PlainArm(t1, t3, offset, due);
    var first := RoundUp(deadline);
    RoundUpIsLeast(deadline, first);
    SecondMonotone(Second(t3 + offset) + 1000, deadline + 999);
    assert first > t3 + offset;
    if wake :| wake >= t3 + offset && Elapsed(wake, deadline) && wake < due + offset {
      RoundUpIsLeast(deadline, wake);
    }
  }

  /** And then by less than a second. */
  lemma PlainIsEarlyByLessThanASecond(t1: int, t3: int, offset: int, due: int, wake: int)
    requires t1 <= t3 && t1 < due && Elapsed(wake, PlainArm(t1, t3, offset, due))
    ensures wake - offset > due - 1000
  {
  }

  /** A 200 ms timer set 5 ms before a second boundary elapses on the boundary, 195 ms early. */
  lemma PlainArmEarlyWitness()
    ensures Elapsed(1000, PlainArm(995, 995, 0, 1195)) && !Elapsed(999, PlainArm(995, 995, 0, 1195))
  {
  }

  /**
   A compensated arm is early by no more than the system clock was stepped
   forward between the reading and the wake-up: not at all at a constant offset.
   offset2 and offsetWake are the offsets in force at those two moments.
   */
  lemma CompensatedIsNotEarly(t1: int, t2: int, sys3: int, offset2: int, offsetWake: int, due: int, wake: int)
    requires t1 <= t2 && t1 < due && t2 + offset2 <= sys3
    requires Elapsed(wake + offsetWake, KernelDeadline(sys3, due - t1 + (t2 + offset2) % 1000))
    ensures wake >= due - (offsetWake - offset2)
  {
    SecondMonotone(t2 + offset2, sys3);
  }

  // ---------------------------------------------------------------------
  // The protocol

  type Id = nat
  /** 0 is no kernel timer. */
  type Kid = nat

  datatype Row = Row(kid: Kid, key: nat, due: int, rearms: nat)
  type Rows = map<Id, Row>

  /** What On_PITimer decides under the lock. */
  datatype Outcome = Stray | Again(due: int) | Deliver(key: nat) | Retracted

  function Decide(rows: Rows, id: Id, cancel: bool, now: int): Outcome {
    if id !in rows then Stray
    else if !cancel && now < rows[id].due && rows[id].rearms < MAX_REARMS then Again(rows[id].due)
    else if cancel then Retracted
    else Deliver(rows[id].key)
  }

  /** The row is not erased until the timer is spent. */
  function Decided(rows: Rows, id: Id, cancel: bool, now: int): Rows {
    if Decide(rows, id, cancel, now).Again? then rows[id := rows[id].(rearms := rows[id].rearms + 1)] else rows - {id}
  }

  /** The kernel's answer to an arm, filed; 0 is its refusal. */
  function Recorded(rows: Rows, id: Id, kid: Kid): Rows {
    if id !in rows then rows
    else if kid != 0 then rows[id := rows[id].(kid := kid)]
    else rows - {id}
  }

  /** m_mapTimers and m_uNextTimerId, one method per critical section. */
  class TimerTable {
    var rows: Rows
    var next: Id

    constructor ()
      ensures rows == map[] && next == 0
    {
      rows, next := map[], 0;
    }

    method Insert(tick: int, delay: nat, key: nat) returns (id: Id)
      modifies this
      ensures id == old(next) + 1 == next && rows == old(rows)[id := Row(0, key, tick + delay, 0)]
    {
      next := next + 1;
      id := next;
      rows := rows[id := Row(0, key, tick + delay, 0)];
    }

    /** kill: the row has gone, so what was just armed is retracted. */
    method Record(id: Id, kid: Kid) returns (kill: bool)
      modifies this`rows
      ensures rows == Recorded(old(rows), id, kid)
      ensures kill <==> id !in old(rows) && kid != 0
    {
      kill := false;
      if id in rows {
        if kid != 0 {
          rows := rows[id := rows[id].(kid := kid)];
        } else {
          rows := rows - {id};
        }
      } else {
        kill := kid != 0;
      }
    }

    /** The kernel timer that is to be killed, or 0. */
    method Kill(id: Id) returns (kid: Kid)
      modifies this`rows
      ensures rows == old(rows) - {id} && kid == if id in old(rows) then old(rows)[id].kid else 0
    {
      kid := 0;
      if id in rows {
        kid := rows[id].kid;
        rows := rows - {id};
      }
    }

    method OnPITimer(cancel: bool, id: Id, tick: int) returns (outcome: Outcome)
      modifies this`rows
      ensures outcome == Decide(old(rows), id, cancel, tick)
      ensures rows == Decided(old(rows), id, cancel, tick)
    {
      if id !in rows { return Stray; }
      var row := rows[id];
      if !cancel && tick < row.due && row.rearms < MAX_REARMS {
        rows := rows[id := row.(rearms := row.rearms + 1)];
        return Again(row.due);
      }
      rows := rows - {id};
      return if cancel then Retracted else Deliver(row.key);
    }
  }

  datatype KernelTimer = KernelTimer(id: Id, deadline: int)

  /** What the pump is doing about one facade timer. */
  datatype Pump =
    | Ready
    | Looked(id: Id, due: int, again: bool)                 // deadline read; again: a compensated re-arm
    | Ticked(id: Id, due: int, delay: nat)                  // re-arm only: the position in the second is next
    | Delayed(id: Id, due: int, delay: nat, again: bool)    // about to call SetPITimer
    | Armed(id: Id, kid: Kid)                               // about to record the answer
    | Elapsing(id: Id, cancel: bool)                        // On_PITimer is entered

  datatype Ask = Ask(key: nat, due: int)
  datatype Fire = Fire(id: Id, key: nat, at: int)

  /**
   posting: SetTimer calls between the row and the post.  timers: Timer messages
   not yet taken.  kills: ids that Kill messages name; a client may send several,
   so taking one leaves the id.  asked, fired, killed: what every SetTimer asked for,
   every OnTimer so far, and the ids whose Kill message has been processed.
   */
  datatype System = System(
    now: int, offset: int, next: Id, rows: Rows, posting: set<Id>, timers: set<Id>, kills: set<Id>,
    live: map<Kid, KernelTimer>, pump: Pump, asked: map<Id, Ask>, fired: seq<Fire>, killed: set<Id>)

  datatype Step =
    | Pass(millis: nat)
    // any client thread
    | Insert(delay: nat, key: nat) | PostTimer(id: Id) | PostFails(id: Id) | PostKill(id: Id)
    // the pump
    | TakeTimer(id: Id) | TakeKill(id: Id) | ReadTick | ReadSecond | KernelArm(kid: Kid) | Record
    | Elapse(kid: Kid) | Cancel(kid: Kid) | Handle

  predicate Initial(s: System) {
    && s.next == 0 && s.rows == map[] && s.posting == {} && s.timers == {} && s.kills == {}
    && s.live == map[] && s.pump == Ready && s.asked == map[] && s.fired == [] && s.killed == {}
  }

  predicate Enabled(s: System, step: Step) {
    match step
    case Pass(_) => true
    case Insert(_, _) => true
    case PostTimer(id) => id in s.posting
    case PostFails(id) => id in s.posting
    case PostKill(id) => 0 < id <= s.next
    case TakeTimer(id) => s.pump == Ready && id in s.timers
    case TakeKill(id) => s.pump == Ready && id in s.kills
    case ReadTick => s.pump.Looked?
    case ReadSecond => s.pump.Ticked?
    // The kernel may give out the number of a dead timer again; 0 is its refusal.
    case KernelArm(kid) => s.pump.Delayed? && kid !in s.live
    case Record => s.pump.Armed?
    case Elapse(kid) => s.pump == Ready && kid in s.live && Elapsed(s.now + s.offset, s.live[kid].deadline)
    case Cancel(kid) => s.pump == Ready && kid in s.live
    case Handle => s.pump.Elapsing?
  }

  function DoRecord(s: System): System
    requires s.pump.Armed?
  {
    s.(rows := Recorded(s.rows, s.pump.id, s.pump.kid), pump := Ready,
       live := if s.pump.id in s.rows then s.live else s.live - {s.pump.kid})
  }

  function DoHandle(s: System): System
    requires s.pump.Elapsing?
  {
    var (id, cancel) := (s.pump.id, s.pump.cancel);
    var outcome := Decide(s.rows, id, cancel, s.now);
    s.(rows := Decided(s.rows, id, cancel, s.now),
       pump := if outcome.Again? then Looked(id, outcome.due, true) else Ready,
       fired := if outcome.Deliver? then s.fired + [Fire(id, outcome.key, s.now)] else s.fired)
  }

  function DoReadTick(s: System): System
    requires s.pump.Looked?
  {
    var (id, due, again) := (s.pump.id, s.pump.due, s.pump.again);
    if due <= s.now then s.(pump := Delayed(id, due, 0, again))
    else if again then s.(pump := Ticked(id, due, due - s.now))
    else s.(pump := Delayed(id, due, due - s.now, false))
  }

  function Do(s: System, step: Step): System
    requires Enabled(s, step)
  {
    match step
    case Pass(millis) => s.(now := s.now + millis)
    case Insert(delay, key) =>
      var id := s.next + 1;
      s.(next := id, posting := s.posting + {id},
         rows := s.rows[id := Row(0, key, s.now + delay, 0)], asked := s.asked[id := Ask(key, s.now + delay)])
    case PostTimer(id) => s.(posting := s.posting - {id}, timers := s.timers + {id})
    case PostFails(id) => s.(posting := s.posting - {id}, rows := s.rows - {id})
    case PostKill(id) => s.(kills := s.kills + {id})
    case TakeTimer(id) =>
      s.(timers := s.timers - {id}, pump := if id in s.rows then Looked(id, s.rows[id].due, false) else Ready)
    case TakeKill(id) =>
      s.(killed := s.killed + {id}, rows := s.rows - {id},
         live := if id in s.rows then s.live - {s.rows[id].kid} else s.live)
    case ReadTick => DoReadTick(s)
    case ReadSecond =>
      s.(pump := Delayed(s.pump.id, s.pump.due, s.pump.delay + (s.now + s.offset) % 1000, true))
    case KernelArm(kid) =>
      s.(pump := Armed(s.pump.id, kid),
         live := if kid == 0 then s.live
                 else s.live[kid := KernelTimer(s.pump.id, KernelDeadline(s.now + s.offset, s.pump.delay))])
    case Record => DoRecord(s)
    case Elapse(kid) => s.(pump := Elapsing(s.live[kid].id, false), live := s.live - {kid})
    case Cancel(kid) => s.(pump := Elapsing(s.live[kid].id, true), live := s.live - {kid})
    case Handle => DoHandle(s)
  }

  ghost predicate Run(s: System, steps: seq<Step>, t: System)
    decreases |steps|
  {
    if steps == [] then s == t
    else Enabled(s, steps[0]) && Run(Do(s, steps[0]), steps[1..], t)
  }

  /** Is the pump between taking up this timer and recording what became of it? */
  predicate Busy(s: System, id: Id) { !s.pump.Ready? && s.pump.id == id }

  /** Its row is waiting for its first arm. */
  predicate Unarmed(s: System, id: Id) {
    && 0 < id <= s.next && !Busy(s, id)
    && (id in s.rows ==> s.rows[id].kid == 0 && s.rows[id].rearms == 0)
  }

  ghost predicate Pending(s: System) {
    && s.posting !! s.timers
    && forall id :: id in s.posting || id in s.timers ==> Unarmed(s, id)
  }

  predicate IsOwned(s: System, k: Kid)
    requires k in s.live
  {
    || (s.pump.Armed? && s.pump.kid == k && s.live[k].id == s.pump.id)
    || (!Busy(s, s.live[k].id) && s.live[k].id in s.rows && s.rows[s.live[k].id].kid == k)
  }

  predicate Owns(s: System, id: Id)
    requires id in s.rows
  {
    !Busy(s, id) && s.rows[id].kid != 0 ==> s.rows[id].kid in s.live && s.live[s.rows[id].kid].id == id
  }

  /** Each live kernel timer is named by its row, except for one the pump has armed and not yet recorded. */
  ghost predicate LiveOwned(s: System) { forall k :: k in s.live ==> IsOwned(s, k) }

  predicate ArmedIsLive(s: System) {
    && 0 !in s.live
    && (s.pump.Armed? && s.pump.kid != 0 ==> s.pump.kid in s.live && s.live[s.pump.kid].id == s.pump.id)
  }

  /** And back, except for the row the pump is busy with. */
  ghost predicate RowsOwn(s: System) {
    && (forall id :: id in s.rows ==> Owns(s, id))
    && (!s.pump.Ready? ==> s.pump.id in s.rows)
  }

  ghost predicate Owned(s: System) { LiveOwned(s) && ArmedIsLive(s) && RowsOwn(s) }

  /** Ids are handed out once; what was asked for is in the row until it is spent. */
  ghost predicate Honest(s: System) { IdsOnce(s) && RowsHonest(s) }

  ghost predicate IdsOnce(s: System) {
    && (forall id :: id in s.asked <==> 0 < id <= s.next)
    && (forall id :: id in s.killed ==> 0 < id <= s.next)
    && (forall id :: id in s.kills ==> 0 < id <= s.next)
  }

  ghost predicate RowsHonest(s: System) {
    forall id :: id in s.rows ==>
      && id in s.asked && id !in s.killed
      && s.rows[id].key == s.asked[id].key && s.rows[id].due == s.asked[id].due
  }

  ghost predicate FiredOk(s: System) {
    && (forall i :: 0 <= i < |s.fired| ==> var f := s.fired[i];
          f.id in s.asked && f.id !in s.rows && f.key == s.asked[f.id].key && f.at >= s.asked[f.id].due)
    && (forall i, j :: 0 <= i < j < |s.fired| ==> s.fired[i].id != s.fired[j].id)
  }

  /** Armed so that it cannot elapse before the client's deadline. */
  predicate Safe(s: System, due: int, deadline: int) { s.now >= due || deadline >= due + s.offset }

  /** A row on its second arm has a safe kernel timer. */
  ghost predicate SecondArmSafe(s: System) {
    forall k :: k in s.live && s.live[k].id in s.rows && s.rows[s.live[k].id].rearms == 1 ==>
      Safe(s, s.rows[s.live[k].id].due, s.live[k].deadline)
  }

  ghost predicate OneRearm(s: System) { forall id :: id in s.rows ==> s.rows[id].rearms <= 1 }

  /** And is getting one, at every stage of it. */
  ghost predicate StageOk(s: System) {
    match s.pump
    case Looked(id, due, again) => id in s.rows ==> s.rows[id].due == due && (s.rows[id].rearms == 1 <==> again)
    case Ticked(id, due, delay) =>
      s.now + delay >= due && (id in s.rows ==> s.rows[id].due == due && s.rows[id].rearms == 1)
    case Delayed(id, due, delay, again) =>
      && (id in s.rows ==> s.rows[id].due == due && (s.rows[id].rearms == 1 <==> again))
      && (again ==> Safe(s, due, Second(s.now + s.offset) + delay))
    case Elapsing(id, cancel) => id in s.rows && s.rows[id].rearms == 1 && !cancel ==> s.now >= s.rows[id].due
    case _ => true
  }

  ghost predicate Compensated(s: System) { SecondArmSafe(s) && OneRearm(s) && StageOk(s) }

  /** A row that is not armed is on its way to be: nothing forgets one. */
  ghost predicate NotLost(s: System) {
    forall id :: id in s.rows ==> s.rows[id].kid != 0 || Busy(s, id) || id in s.posting || id in s.timers
  }

  ghost predicate Inv(s: System) {
    Pending(s) && Owned(s) && Honest(s) && FiredOk(s) && Compensated(s) && NotLost(s)
  }

  lemma StepPending(s: System, step: Step)
    requires Inv(s) && Enabled(s, step)
    ensures Pending(Do(s, step))
  {
    hide Compensated, FiredOk, NotLost;
  }

  lemma StepLiveOwned(s: System, step: Step)
    requires Inv(s) && Enabled(s, step)
    ensures LiveOwned(Do(s, step))
  {
    hide Compensated, FiredOk, RowsOwn, NotLost;
    var t := Do(s, step);
    forall k | k in t.live ensures IsOwned(t, k) {
      if k in s.live { assert IsOwned(s, k); }
    }
  }

  lemma StepArmedIsLive(s: System, step: Step)
    requires ArmedIsLive(s) && Enabled(s, step)
    ensures ArmedIsLive(Do(s, step))
  {
  }

  lemma StepRowsOwn(s: System, step: Step)
    requires Inv(s) && Enabled(s, step)
    ensures RowsOwn(Do(s, step))
  {
    hide Compensated, FiredOk, Honest, NotLost;
    var t := Do(s, step);
    forall id | id in t.rows ensures Owns(t, id) {
      if id in s.rows { assert Owns(s, id); }
    }
  }

  lemma StepIds(s: System, step: Step)
    requires IdsOnce(s) && Enabled(s, step)
    ensures IdsOnce(Do(s, step))
  {
  }

  lemma StepRowsHonest(s: System, step: Step)
    requires Honest(s) && Enabled(s, step)
    ensures RowsHonest(Do(s, step))
  {
  }

  lemma StepFired(s: System, step: Step)
    requires Inv(s) && Enabled(s, step)
    ensures FiredOk(Do(s, step))
  {
    hide Pending, Owned, NotLost;
  }

  lemma StepSecondArm(s: System, step: Step)
    requires Inv(s) && Enabled(s, step)
    ensures SecondArmSafe(Do(s, step))
  {
    hide FiredOk, Pending, RowsOwn, NotLost;
    var t := Do(s, step);
    forall k | k in t.live && t.live[k].id in t.rows && t.rows[t.live[k].id].rearms == 1
      ensures Safe(t, t.rows[t.live[k].id].due, t.live[k].deadline)
    {
      if k in s.live { assert IsOwned(s, k); }
    }
  }

  lemma StepOneRearm(s: System, step: Step)
    requires Inv(s) && Enabled(s, step)
    ensures OneRearm(Do(s, step))
  {
    hide FiredOk, Pending, Honest, LiveOwned, SecondArmSafe, NotLost;
  }

  lemma StepStage(s: System, step: Step)
    requires Inv(s) && Enabled(s, step)
    ensures StageOk(Do(s, step))
  {
    if step.Elapse? {
      ElapseStage(s, step.kid);
    } else {
      OtherStage(s, step);
    }
  }

  /** A safe timer that elapses is not early. */
  lemma ElapseStage(s: System, kid: Kid)
    requires SecondArmSafe(s) && Enabled(s, Elapse(kid))
    ensures StageOk(Do(s, Elapse(kid)))
  {
  }

  lemma OtherStage(s: System, step: Step)
    requires Inv(s) && Enabled(s, step) && !step.Elapse?
    ensures StageOk(Do(s, step))
  {
    hide FiredOk, LiveOwned, SecondArmSafe, NotLost;
    if step.Pass? { SecondMonotone(s.now + s.offset, s.now + step.millis + s.offset); }
  }

  lemma StepNotLost(s: System, step: Step)
    requires NotLost(s) && Enabled(s, step)
    ensures NotLost(Do(s, step))
  {
  }

  lemma StepKeepsInv(s: System, step: Step)
    requires Inv(s) && Enabled(s, step)
    ensures Inv(Do(s, step))
  {
    StepPending(s, step);
    StepLiveOwned(s, step);
    StepArmedIsLive(s, step);
    StepRowsOwn(s, step);
    StepIds(s, step);
    StepRowsHonest(s, step);
    StepFired(s, step);
    StepSecondArm(s, step);
    StepOneRearm(s, step);
    StepStage(s, step);
    StepNotLost(s, step);
    hide Pending, LiveOwned, ArmedIsLive, RowsOwn, IdsOnce, RowsHonest, FiredOk, NotLost;
    hide SecondArmSafe, OneRearm, StageOk, Do, Enabled;
  }

  lemma {:induction false} RunKeepsInv(s: System, steps: seq<Step>, t: System)
    requires Inv(s) && Run(s, steps, t)
    ensures Inv(t)
    decreases |steps|
  {
    hide Inv, Enabled, Do;
    if steps != [] {
      StepKeepsInv(s, steps[0]);
      RunKeepsInv(Do(s, steps[0]), steps[1..], t);
    }
  }

  lemma InitialInv(s: System)
    requires Initial(s)
    ensures Inv(s)
  {
  }

  /** No OnTimer is early, none comes twice for one id, and each carries the key its SetTimer gave. */
  lemma NeverEarlyNeverTwice(s: System, steps: seq<Step>, t: System)
    requires Initial(s) && Run(s, steps, t)
    ensures forall i :: 0 <= i < |t.fired| ==> var f := t.fired[i];
      f.id in t.asked && f.key == t.asked[f.id].key && f.at >= t.asked[f.id].due
    ensures forall i, j :: 0 <= i < j < |t.fired| ==> t.fired[i].id != t.fired[j].id
  {
    InitialInv(s);
    RunKeepsInv(s, steps, t);
  }

  /** One re-arm always settles it: the bound on re-arms is never what lets a timer through. */
  lemma OneRearmSettles(s: System, steps: seq<Step>, t: System)
    requires Initial(s) && Run(s, steps, t)
    ensures forall id :: id in t.rows ==> t.rows[id].rearms <= 1
    ensures t.pump.Elapsing? ==> t.pump.id in t.rows
    ensures t.pump.Elapsing? && !t.pump.cancel && t.now < t.rows[t.pump.id].due ==> t.rows[t.pump.id].rearms == 0
  {
    InitialInv(s);
    RunKeepsInv(s, steps, t);
  }

  /** Between two pump actions each live kernel timer belongs to exactly one row, which names it, and back. */
  lemma TimersAreOwned(s: System, steps: seq<Step>, t: System)
    requires Initial(s) && Run(s, steps, t) && t.pump == Ready
    ensures forall k :: k in t.live ==> t.live[k].id in t.rows && t.rows[t.live[k].id].kid == k
    ensures forall id :: id in t.rows && t.rows[id].kid != 0 ==>
      t.rows[id].kid in t.live && t.live[t.rows[id].kid].id == id
    ensures forall j, k :: j in t.live && k in t.live && t.live[j].id == t.live[k].id ==> j == k
  {
    InitialInv(s);
    RunKeepsInv(s, steps, t);
  }

  lemma {:induction false} KilledStays(s: System, steps: seq<Step>, t: System, id: Id)
    requires Inv(s) && id in s.killed && Run(s, steps, t)
    ensures id !in t.rows && id in t.killed && s.fired <= t.fired
    ensures forall i :: |s.fired| <= i < |t.fired| ==> t.fired[i].id != id
    decreases |steps|
  {
    if steps != [] {
      hide Inv, Enabled, Do;
      var u := Do(s, steps[0]);
      KilledStep(s, steps[0], id);
      StepKeepsInv(s, steps[0]);
      KilledStays(u, steps[1..], t, id);
    }
  }

  lemma KilledStep(s: System, step: Step, id: Id)
    requires Inv(s) && Enabled(s, step) && id in s.killed
    ensures var u := Do(s, step);
      && id in u.killed && id !in s.rows && s.fired <= u.fired
      && (forall i :: |s.fired| <= i < |u.fired| ==> u.fired[i].id != id)
  {
    hide Pending, Owned, FiredOk, Compensated;
  }

  /** Once its Kill message has been processed a timer is silent. */
  lemma KilledIsSilent(s: System, steps: seq<Step>, t: System, more: seq<Step>, u: System, id: Id)
    requires Initial(s) && Run(s, steps, t) && id in t.killed && Run(t, more, u)
    ensures id !in u.rows && t.fired <= u.fired
    ensures forall i :: |t.fired| <= i < |u.fired| ==> u.fired[i].id != id
  {
    hide Inv, Run;
    InitialInv(s);
    RunKeepsInv(s, steps, t);
    KilledStays(t, more, u, id);
  }

  // ---------------------------------------------------------------------
  // What is delivered

  /**
   What becomes of a timer that has elapsed, in every reachable state: delivered
   once, with the key it was given, when its deadline has come; kept and armed
   again when it has not; dropped when the kernel cancelled it.
   */
  lemma ElapsedIsDelivered(s: System, steps: seq<Step>, t: System)
    requires Initial(s) && Run(s, steps, t) && t.pump.Elapsing?
    ensures var (id, u) := (t.pump.id, Do(t, Handle));
      && id in t.rows && id in t.asked
      && (t.pump.cancel ==> u == t.(rows := t.rows - {id}, pump := Ready))
      && (!t.pump.cancel && t.now >= t.asked[id].due ==>
            u == t.(rows := t.rows - {id}, pump := Ready, fired := t.fired + [Fire(id, t.asked[id].key, t.now)]))
      && (!t.pump.cancel && t.now < t.asked[id].due ==>
            u == t.(rows := t.rows[id := t.rows[id].(rearms := 1)], pump := Looked(id, t.asked[id].due, true)))
  {
    InitialInv(s);
    hide Inv, Run, Do;
    RunKeepsInv(s, steps, t);
    HandleDelivers(t);
  }

  lemma HandleDelivers(t: System)
    requires Inv(t) && t.pump.Elapsing?
    ensures var (id, u) := (t.pump.id, Do(t, Handle));
      && id in t.rows && id in t.asked
      && (t.pump.cancel ==> u == t.(rows := t.rows - {id}, pump := Ready))
      && (!t.pump.cancel && t.now >= t.asked[id].due ==>
            u == t.(rows := t.rows - {id}, pump := Ready, fired := t.fired + [Fire(id, t.asked[id].key, t.now)]))
      && (!t.pump.cancel && t.now < t.asked[id].due ==>
            u == t.(rows := t.rows[id := t.rows[id].(rearms := 1)], pump := Looked(id, t.asked[id].due, true)))
  {
    hide Pending, LiveOwned, FiredOk, NotLost;
  }

  /** Its row is there, and the pump is not about to drop it. */
  predicate CanCome(s: System, id: Id) {
    id in s.rows && s.pump != Elapsing(id, true) && s.pump != Armed(id, 0)
  }

  ghost predicate FiredSince(s: System, t: System, id: Id) {
    exists i :: |s.fired| <= i < |t.fired| && t.fired[i].id == id
  }

  /** Time, the pump, and a post and an arm that are not refused. */
  predicate Delivering(step: Step) {
    || step.Pass? || step.PostTimer? || step.TakeTimer? || step.ReadTick? || step.ReadSecond?
    || (step.KernelArm? && step.kid != 0) || step.Record? || step.Elapse? || step.Handle?
  }

  ghost predicate AllDelivering(steps: seq<Step>) { forall i :: 0 <= i < |steps| ==> Delivering(steps[i]) }

  lemma {:induction false} RunAppend(s: System, a: seq<Step>, t: System, b: seq<Step>, u: System)
    requires Run(s, a, t) && Run(t, b, u)
    ensures Run(s, a + b, u)
    decreases |a|
  {
    hide Do, Enabled;
    if a == [] {
      assert a + b == b;
    } else {
      assert (a + b)[0] == a[0] && (a + b)[1..] == a[1..] + b;
      RunAppend(Do(s, a[0]), a[1..], t, b, u);
    }
  }

  lemma RunOne(s: System, step: Step)
    requires Enabled(s, step)
    ensures Run(s, [step], Do(s, step))
  {
    hide Do, Enabled;
    assert [step][1..] == [];
  }

  /** The kernel has a number to give. */
  lemma FreshKid(kids: set<Kid>) returns (kid: Kid)
    ensures kid != 0 && forall k :: k in kids ==> k < kid
  {
    kid := 1;
    var left := kids;
    while left != {}
      invariant kid != 0 && left <= kids
      invariant forall k :: k in kids && k !in left ==> k < kid
      decreases |left|
    {
      var k :| k in left;
      if k >= kid { kid := k + 1; }
      left := left - {k};
    }
  }

  /** How far the pump is from its next message. */
  function Stage(pump: Pump): nat {
    match pump
    case Ready => 0
    case Armed(_, _) => 1
    case Delayed(_, _, _, _) => 2
    case Ticked(_, _, _) => 3
    case Looked(_, _, _) => 4
    case Elapsing(_, _) => 5
  }

  /** The pump's own next step, given a number the kernel may use. */
  function NextStep(pump: Pump, kid: Kid): Step
    requires !pump.Ready?
  {
    match pump
    case Armed(_, _) => Record
    case Delayed(_, _, _, _) => KernelArm(kid)
    case Ticked(_, _, _) => ReadSecond
    case Looked(_, _, _) => ReadTick
    case Elapsing(_, _) => Handle
  }

  /** What a step of the pump leaves nearer, and of a row that can come either there or delivered. */
  ghost predicate Advanced(s: System, u: System, id: Id) {
    && Stage(u.pump) < Stage(s.pump) && u.posting == s.posting && u.timers == s.timers && s.fired <= u.fired
    && (CanCome(u, id) || FiredSince(s, u, id))
  }

  lemma PumpAdvances(s: System, id: Id, kid: Kid)
    requires Inv(s) && CanCome(s, id) && !s.pump.Ready? && kid != 0 && kid !in s.live
    ensures var step := NextStep(s.pump, kid); Enabled(s, step) && Delivering(step) && Advanced(s, Do(s, step), id)
  {
    if s.pump.Elapsing? {
      HandleAdvances(s, id);
    } else {
      hide Inv;
    }
  }

  lemma HandleAdvances(s: System, id: Id)
    requires Inv(s) && CanCome(s, id) && s.pump.Elapsing?
    ensures Advanced(s, Do(s, Handle), id)
  {
    HandleDelivers(s);
    hide Inv, DoHandle;
    var u := Do(s, Handle);
    if s.pump.id == id && s.now >= s.asked[id].due { assert u.fired[|s.fired|].id == id; }
  }

  /** The pump comes to its next message with the row still there, or delivers it on the way. */
  lemma {:induction false} PumpSettles(s: System, id: Id) returns (steps: seq<Step>, t: System)
    requires Inv(s) && CanCome(s, id)
    ensures Run(s, steps, t) && AllDelivering(steps) && Inv(t)
    ensures FiredSince(s, t, id) || (t.pump.Ready? && CanCome(t, id))
    ensures t.posting == s.posting && t.timers == s.timers && s.fired <= t.fired
    decreases Stage(s.pump)
  {
    if s.pump.Ready? { return [], s; }
    var kid := FreshKid(s.live.Keys);
    var step := NextStep(s.pump, kid);
    PumpAdvances(s, id, kid);
    StepKeepsInv(s, step);
    hide Inv, Do, Enabled, CanCome, NextStep;
    RunOne(s, step);
    var u := Do(s, step);
    if FiredSince(s, u, id) { return [step], u; }
    var rest;
    rest, t := PumpSettles(u, id);
    RunAppend(s, [step], u, rest, t);
    steps := [step] + rest;
    if FiredSince(u, t, id) { FiredLater(s, u, t, id); }
  }

  lemma FiredLater(s: System, t: System, u: System, id: Id)
    requires s.fired <= t.fired && t.fired <= u.fired
    requires FiredSince(t, u, id)
    ensures FiredSince(s, u, id)
  {
  }

  function Max(a: int, b: int): int { if a >= b then a else b }

  /** How long to wait until the kernel shows a deadline as past and the client's own is. */
  function Patience(s: System, id: Id): nat
    requires id in s.rows && s.rows[id].kid in s.live
  {
    Max(0, Max(RoundUp(s.live[s.rows[id].kid].deadline) - s.offset, s.rows[id].due) - s.now)
  }

  lemma PatienceSuffices(s: System, id: Id)
    requires id in s.rows && s.rows[id].kid in s.live
    ensures var now := s.now + Patience(s, id);
      Elapsed(now + s.offset, s.live[s.rows[id].kid].deadline) && now >= s.rows[id].due
  {
    RoundUpIsLeast(s.live[s.rows[id].kid].deadline, s.now + Patience(s, id) + s.offset);
    hide RoundUp, Elapsed;
  }

  lemma RowIsLive(s: System, id: Id)
    requires Inv(s) && s.pump.Ready? && id in s.rows && s.rows[id].kid != 0
    ensures var kid := s.rows[id].kid; kid in s.live && s.live[kid].id == id
    ensures id in s.asked && s.asked[id].due == s.rows[id].due
  {
    assert Owns(s, id);
    hide Pending, LiveOwned, RowsOwn, FiredOk, NotLost, Compensated, IdsOnce;
  }

  lemma ArmedElapses(s: System, id: Id)
    requires Inv(s) && s.pump.Ready? && id in s.rows && s.rows[id].kid != 0
    ensures s.rows[id].kid in s.live
    ensures var (kid, s1) := (s.rows[id].kid, Do(s, Pass(Patience(s, id))));
      && Enabled(s1, Elapse(kid))
      && var s2 := Do(s1, Elapse(kid));
      s2.pump == Elapsing(id, false) && s2.fired == s.fired && id in s2.asked && s2.now >= s2.asked[id].due
  {
    hide Inv, Patience, Elapsed;
    RowIsLive(s, id);
    PatienceSuffices(s, id);
  }

  /** A timer the kernel has is delivered once enough time has passed. */
  lemma ArmedComes(s: System, id: Id) returns (steps: seq<Step>, t: System)
    requires Inv(s) && s.pump.Ready? && id in s.rows && s.rows[id].kid != 0
    ensures Run(s, steps, t) && AllDelivering(steps) && FiredSince(s, t, id) && s.fired <= t.fired
  {
    hide Inv, Patience;
    ArmedElapses(s, id);
    var (pass, elapse) := (Pass(Patience(s, id)), Elapse(s.rows[id].kid));
    var s1 := Do(s, pass);
    StepKeepsInv(s, pass);
    var s2 := Do(s1, elapse);
    StepKeepsInv(s1, elapse);
    HandleDelivers(s2);
    t := Do(s2, Handle);
    assert t.fired[|s.fired|].id == id;
    RunOne(s, pass);
    RunOne(s1, elapse);
    RunOne(s2, Handle);
    hide Do, Enabled;
    RunAppend(s1, [elapse], s2, [Handle], t);
    RunAppend(s, [pass], s1, [elapse] + [Handle], t);
    steps := [pass] + ([elapse] + [Handle]);
  }

  /** A row not yet armed gets there. */
  lemma UnarmedStarts(s: System, id: Id) returns (steps: seq<Step>, t: System)
    requires Inv(s) && s.pump.Ready? && id in s.rows && s.rows[id].kid == 0
    ensures Run(s, steps, t) && AllDelivering(steps) && Inv(t)
    ensures CanCome(t, id) && id !in t.posting && id !in t.timers && s.fired == t.fired
  {
    hide Pending, Owned, Honest, FiredOk, Compensated;
    if id in s.posting {
      var s1 := Do(s, PostTimer(id));
      t := Do(s1, TakeTimer(id));
      StepKeepsInv(s, PostTimer(id));
      StepKeepsInv(s1, TakeTimer(id));
      RunOne(s, PostTimer(id));
      RunOne(s1, TakeTimer(id));
      RunAppend(s, [PostTimer(id)], s1, [TakeTimer(id)], t);
      steps := [PostTimer(id)] + [TakeTimer(id)];
    } else {
      t := Do(s, TakeTimer(id));
      assert !(id in s.posting);
      StepKeepsInv(s, TakeTimer(id));
      RunOne(s, TakeTimer(id));
      steps := [TakeTimer(id)];
    }
  }

  /** A row that can come does come. */
  lemma RowComes(s: System, id: Id) returns (steps: seq<Step>, t: System)
    requires Inv(s) && CanCome(s, id)
    ensures Run(s, steps, t) && AllDelivering(steps) && FiredSince(s, t, id) && s.fired <= t.fired
  {
    hide Run, AllDelivering, FiredSince, Pending, Owned, Honest, FiredOk, Compensated;
    steps, t := PumpSettles(s, id);
    if FiredSince(s, t, id) { return; }
    if t.rows[id].kid == 0 {
      var start, u := UnarmedStarts(t, id);
      Chain(s, steps, t, start, u);
      var settle, v := PumpSettles(u, id);
      Chain(s, steps + start, u, settle, v);
      steps, t := steps + start + settle, v;
      if FiredSince(u, t, id) {
        FiredLater(s, u, t, id);
        return;
      }
    }
    var last, w := ArmedComes(t, id);
    Chain(s, steps, t, last, w);
    FiredLater(s, t, w, id);
    steps, t := steps + last, w;
  }

  lemma Chain(s: System, a: seq<Step>, t: System, b: seq<Step>, u: System)
    requires Run(s, a, t) && Run(t, b, u) && AllDelivering(a) && AllDelivering(b)
    ensures Run(s, a + b, u) && AllDelivering(a + b)
  {
    hide Run, Delivering;
    RunAppend(s, a, t, b, u);
  }

  /** A row that has gone stays gone, and one about to be dropped is not delivered. */
  lemma {:induction false} GoneStaysGone(s: System, steps: seq<Step>, t: System, id: Id)
    requires Run(s, steps, t) && !CanCome(s, id) && 0 < id <= s.next
    ensures !FiredSince(s, t, id) && s.fired <= t.fired
    decreases |steps|
  {
    if steps != [] {
      var u := Do(s, steps[0]);
      GoneStep(s, steps[0], id);
      hide Do, Enabled, CanCome;
      GoneStaysGone(u, steps[1..], t, id);
      assert forall i :: |s.fired| <= i < |u.fired| ==> t.fired[i] == u.fired[i];
    }
  }

  lemma GoneStep(s: System, step: Step, id: Id)
    requires Enabled(s, step) && !CanCome(s, id) && 0 < id <= s.next
    ensures var u := Do(s, step);
      !CanCome(u, id) && id <= u.next && !FiredSince(s, u, id) && s.fired <= u.fired
  {
  }

  /**
   From every reachable state, an id that SetTimer gave out can still be delivered
   exactly when its row is there and the pump is not about to drop it for a
   cancelled or a refused kernel timer.
   */
  lemma ComesIff(s: System, steps: seq<Step>, t: System, id: Id)
    requires Initial(s) && Run(s, steps, t) && 0 < id <= t.next
    ensures (exists more, u :: Run(t, more, u) && FiredSince(t, u, id))
       <==> id in t.rows && t.pump != Elapsing(id, true) && t.pump != Armed(id, 0)
  {
    if CanCome(t, id) {
      InitialInv(s);
      hide Inv, Run, FiredSince;
      RunKeepsInv(s, steps, t);
      var more, u := RowComes(t, id);
      assert Run(t, more, u) && FiredSince(t, u, id);
    } else {
      forall more, u | Run(t, more, u) ensures !FiredSince(t, u, id) {
        GoneStaysGone(t, more, u, id);
      }
    }
  }

  /** It then takes no client: time, the pump, and no refusal. */
  lemma TimerComes(s: System, steps: seq<Step>, t: System, id: Id) returns (more: seq<Step>, u: System)
    requires Initial(s) && Run(s, steps, t) && id in t.rows
    requires t.pump != Elapsing(id, true) && t.pump != Armed(id, 0)
    ensures Run(t, more, u) && AllDelivering(more) && FiredSince(t, u, id)
  {
    InitialInv(s);
    hide Inv, Run, FiredSince, AllDelivering;
    RunKeepsInv(s, steps, t);
    more, u := RowComes(t, id);
  }
}
