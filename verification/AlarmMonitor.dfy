/** The monitor that keeps one alarm registered with the system close to the soonest one it knows
    (anomaly/AlarmMonitor.cpp). */
module AlarmMonitoring {
  import opened Options
  import opened Bits
  import opened IndexedHeap

  /** An alarm object: queues compare the objects themselves, by address. */
  datatype InternalAlarm = InternalAlarm(address: nat, timestampSec: UInt32)

  predicate SmallerTimestamp(a: InternalAlarm, b: InternalAlarm) { a.timestampSec < b.timestampSec }

  ghost predicate IsSoonest(s: set<InternalAlarm>, a: InternalAlarm)
  {
    a in s && forall b :: b in s ==> a.timestampSec <= b.timestampSec
  }

  lemma SoonerOf(s: set<InternalAlarm>, a: InternalAlarm, x: InternalAlarm)
    requires IsSoonest(s - {x}, a) && x in s
    ensures IsSoonest(s, if a.timestampSec <= x.timestampSec then a else x)
  {
  }

  lemma {:induction false} SoonestExists(s: set<InternalAlarm>)
    requires s != {}
    ensures exists a :: IsSoonest(s, a)
  {
    var x :| x in s;
    if s == {x} {
      assert IsSoonest(s, x);
    } else {
      SoonestExists(s - {x});
      var a :| IsSoonest(s - {x}, a);
      SoonerOf(s, a, x);
    }
  }

  ghost function Soonest(s: set<InternalAlarm>): (t: UInt32)
    requires s != {}
    ensures exists a :: a in s && a.timestampSec == t
    ensures forall a :: a in s ==> t <= a.timestampSec
  {
    SoonestExists(s);
    var a :| IsSoonest(s, a);
    a.timestampSec
  }

  // ---------- the steps, on values ----------

  /** Registered time 0 stands for "none". */
  datatype Monitor = Monitor(minUpdate: UInt32, alarms: set<InternalAlarm>, registered: UInt32)

  function AddTo(m: Monitor, alarm: Option<InternalAlarm>): Monitor
  {
    if alarm.None? || alarm.value.timestampSec < 1 then m
    else
      var t := alarm.value.timestampSec;
      m.(alarms := m.alarms + {alarm.value},
         registered := if m.registered < 1 || (t + m.minUpdate) % TWO32 < m.registered then t else m.registered)
  }

  ghost function RemoveFrom(m: Monitor, alarm: Option<InternalAlarm>): Monitor
  {
    if alarm.None? || alarm.value !in m.alarms then m
    else
      var rest := m.alarms - {alarm.value};
      m.(alarms := rest,
         registered := if rest == {} then 0
                       else if Soonest(rest) > (m.registered + m.minUpdate) % TWO32 then Soonest(rest)
                       else m.registered)
  }

  function Due(alarms: set<InternalAlarm>, t: UInt32): set<InternalAlarm>
  {
    set a | a in alarms && a.timestampSec <= t
  }

  ghost function RegisterTop(m: Monitor): Monitor
  {
    m.(registered := if m.alarms == {} then 0 else Soonest(m.alarms))
  }

  ghost function PopFrom(m: Monitor, t: UInt32): Monitor
  {
    if Due(m.alarms, t) == {} then m else RegisterTop(m.(alarms := m.alarms - Due(m.alarms, t)))
  }

  ghost function Connect(m: Monitor, present: bool): Monitor
  {
    if present && m.alarms != {} then RegisterTop(m) else m
  }

  // ---------- how far the registered time is from the soonest alarm ----------

  ghost predicate CloseToSoonest(m: Monitor)
  {
    && (m.registered == 0 <==> m.alarms == {})
    && (m.alarms != {} ==> Soonest(m.alarms) - m.minUpdate <= m.registered <= Soonest(m.alarms) + m.minUpdate)
  }

  /** The monitor refuses alarms at time 0. */
  predicate FromOne(alarms: set<InternalAlarm>) { forall a :: a in alarms ==> 1 <= a.timestampSec }

  lemma SoonestOf(s: set<InternalAlarm>, a: InternalAlarm)
    requires a in s && forall b :: b in s ==> a.timestampSec <= b.timestampSec
    ensures Soonest(s) == a.timestampSec
  {
  }

  /** When the sum that `add` compares does not fit in 32 bits, the wrapped sum may be below the
      registered time, and the new alarm is then registered although it may be far from the soonest. */
  ghost predicate AddKeepsClose(m: Monitor, alarm: Option<InternalAlarm>)
  {
    || alarm.None? || alarm.value.timestampSec < 1 || m.alarms == {}
    || alarm.value.timestampSec + m.minUpdate < TWO32
    || alarm.value.timestampSec + m.minUpdate - TWO32 >= m.registered
    || alarm.value.timestampSec <= Soonest(m.alarms) + m.minUpdate
  }

  lemma SoonestWith(m: Monitor, a: InternalAlarm)
    ensures Soonest(m.alarms + {a})
         == if m.alarms != {} && Soonest(m.alarms) <= a.timestampSec then Soonest(m.alarms) else a.timestampSec
  {
  }

  /** Out of every state that is close, exactly the additions that pass this test keep it close. */
  lemma AddStaysClose(m: Monitor, alarm: Option<InternalAlarm>)
    requires CloseToSoonest(m) && FromOne(m.alarms)
    ensures CloseToSoonest(AddTo(m, alarm)) <==> AddKeepsClose(m, alarm)
    ensures FromOne(AddTo(m, alarm).alarms)
  {
    if alarm.Some? {
      SoonestWith(m, alarm.value);
    }
  }

  /** Removal always keeps it close, also when its own sum wraps around. */
  lemma RemoveStaysClose(m: Monitor, alarm: Option<InternalAlarm>)
    requires CloseToSoonest(m) && FromOne(m.alarms)
    ensures CloseToSoonest(RemoveFrom(m, alarm)) && FromOne(RemoveFrom(m, alarm).alarms)
  {
  }

  lemma RegisterTopIsClose(m: Monitor)
    requires FromOne(m.alarms)
    ensures CloseToSoonest(RegisterTop(m))
  {
  }

  // ---------- runs ----------

  datatype MonitorOp =
    | Add(alarm: Option<InternalAlarm>)
    | Remove(alarm: Option<InternalAlarm>)
    | PopSoonerThan(t: UInt32)
    | SetCompanionService(present: bool)

  ghost function MonitorStep(m: Monitor, op: MonitorOp): Monitor
  {
    match op
    case Add(alarm) => AddTo(m, alarm)
    case Remove(alarm) => RemoveFrom(m, alarm)
    case PopSoonerThan(t) => PopFrom(m, t)
    case SetCompanionService(present) => Connect(m, present)
  }

  ghost function MonitorRun(minUpdate: UInt32, ops: seq<MonitorOp>): Monitor
  {
    if ops == [] then Monitor(minUpdate, {}, 0)
    else MonitorStep(MonitorRun(minUpdate, ops[..|ops| - 1]), ops[|ops| - 1])
  }

  ghost predicate KeepsClose(m: Monitor, op: MonitorOp) { op.Add? ==> AddKeepsClose(m, op.alarm) }

  lemma StepStaysClose(m: Monitor, op: MonitorOp)
    requires CloseToSoonest(m) && FromOne(m.alarms)
    ensures CloseToSoonest(MonitorStep(m, op)) <==> KeepsClose(m, op)
    ensures FromOne(MonitorStep(m, op).alarms)
  {
    match op
    case Add(alarm) => AddStaysClose(m, alarm);
    case Remove(alarm) => RemoveStaysClose(m, alarm);
    case PopSoonerThan(t) => RegisterTopIsClose(m.(alarms := m.alarms - Due(m.alarms, t)));
    case SetCompanionService(_) => RegisterTopIsClose(m);
  }

  /** The state after the first `n` operations. */
  ghost function StateAfter(minUpdate: UInt32, ops: seq<MonitorOp>, n: nat): Monitor
    requires n <= |ops|
  {
    MonitorRun(minUpdate, ops[..n])
  }

  lemma StateAfterMore(minUpdate: UInt32, ops: seq<MonitorOp>, n: nat)
    requires n < |ops|
    ensures StateAfter(minUpdate, ops, n + 1) == MonitorStep(StateAfter(minUpdate, ops, n), ops[n])
  {
    assert ops[..n + 1][..n] == ops[..n];
  }

  /** All alarms of every run are at 1 s or later. */
  lemma {:induction false} RunFromOne(minUpdate: UInt32, ops: seq<MonitorOp>)
    ensures FromOne(MonitorRun(minUpdate, ops).alarms)
  {
    if ops != [] {
      RunFromOne(minUpdate, ops[..|ops| - 1]);
    }
  }

  lemma {:induction false} CloseUpTo(minUpdate: UInt32, ops: seq<MonitorOp>, n: nat)
    requires n <= |ops|
    requires forall i :: 0 <= i < n ==> KeepsClose(StateAfter(minUpdate, ops, i), ops[i])
    ensures CloseToSoonest(StateAfter(minUpdate, ops, n))
  {
    if n > 0 {
      var m := StateAfter(minUpdate, ops, n - 1);
      CloseUpTo(minUpdate, ops, n - 1);
      RunFromOne(minUpdate, ops[..n - 1]);
      StateAfterMore(minUpdate, ops, n - 1);
      assert KeepsClose(m, ops[n - 1]);
      StepStaysClose(m, ops[n - 1]);
    }
  }

  /** Over every run: no time is registered exactly when the queue is empty, and otherwise the
      registered time is within the minimum difference of the soonest alarm, in all states of the
      run, if and only if every addition passes the test in the state it meets. */
  lemma RegisteredNearSoonest(minUpdate: UInt32, ops: seq<MonitorOp>)
    ensures (forall n :: 0 <= n <= |ops| ==> CloseToSoonest(StateAfter(minUpdate, ops, n)))
       <==> (forall n :: 0 <= n < |ops| ==> KeepsClose(StateAfter(minUpdate, ops, n), ops[n]))
  {
    if forall n :: 0 <= n < |ops| ==> KeepsClose(StateAfter(minUpdate, ops, n), ops[n]) {
      forall n | 0 <= n <= |ops| ensures CloseToSoonest(StateAfter(minUpdate, ops, n)) {
        CloseUpTo(minUpdate, ops, n);
      }
    }
    if forall n :: 0 <= n <= |ops| ==> CloseToSoonest(StateAfter(minUpdate, ops, n)) {
      forall n | 0 <= n < |ops| ensures KeepsClose(StateAfter(minUpdate, ops, n), ops[n]) {
        var m := StateAfter(minUpdate, ops, n);
        RunFromOne(minUpdate, ops[..n]);
        StateAfterMore(minUpdate, ops, n);
        assert CloseToSoonest(m) && CloseToSoonest(StateAfter(minUpdate, ops, n + 1));
        StepStaysClose(m, ops[n]);
      }
    }
  }

  /** When the soonest alarm left is not due, all that were due are gone. */
  lemma AllDuePopped(all: set<InternalAlarm>, popped: set<InternalAlarm>, t: UInt32, top: Option<InternalAlarm>)
    requires popped <= Due(all, t) && (top.None? ==> all <= popped) && (top.Some? ==> top.value.timestampSec > t)
    requires top.Some? ==> forall b :: b in all && b !in popped ==> !SmallerTimestamp(b, top.value)
    ensures popped == Due(all, t)
  {
  }

  // ---------- the object ----------

  class AlarmMonitor {
    const minUpdateTimeSec: UInt32
    const pq: IndexedPriorityQueue<InternalAlarm>
    var registeredAlarmTimeSec: UInt32

    ghost predicate Valid()
      reads this, pq
    {
      pq.Valid() && pq.less == SmallerTimestamp
    }

    ghost function State(): Monitor
      reads this, pq
    {
      Monitor(minUpdateTimeSec, pq.Contents(), registeredAlarmTimeSec)
    }

    constructor (minUpdate: UInt32)
      ensures Valid() && fresh(pq) && State() == Monitor(minUpdate, {}, 0)
    {
      minUpdateTimeSec, registeredAlarmTimeSec := minUpdate, 0;
      pq := new IndexedPriorityQueue(SmallerTimestamp);
    }

    /** The time of the soonest alarm, if there is one. */
    method TopTime() returns (t: Option<UInt32>)
      requires Valid()
      ensures t == if pq.Contents() == {} then None else Some(Soonest(pq.Contents()))
    {
      var top := pq.Top();
      if top.None? {
        return None;
      }
      assert forall b :: b in pq.Contents() ==> !SmallerTimestamp(b, top.value);
      SoonestOf(pq.Contents(), top.value);
      t := Some(top.value.timestampSec);
    }

    method SetStatsCompanionService(present: bool)
      requires Valid()
      modifies this
      ensures Valid() && State() == Connect(old(State()), present)
    {
      if !present {
        return;
      }
      var t := TopTime();
      if t.Some? {
        registeredAlarmTimeSec := t.value;
      }
    }

    method Add(alarm: Option<InternalAlarm>)
      requires Valid()
      modifies this, pq
      ensures Valid() && State() == AddTo(old(State()), alarm)
    {
      if alarm.None? || alarm.value.timestampSec < 1 {
        return;
      }
      pq.Push(alarm);
      if registeredAlarmTimeSec < 1 || (alarm.value.timestampSec + minUpdateTimeSec) % TWO32 < registeredAlarmTimeSec {
        registeredAlarmTimeSec := alarm.value.timestampSec;
      }
    }

    method Remove(alarm: Option<InternalAlarm>)
      requires Valid()
      modifies this, pq
      ensures Valid() && State() == RemoveFrom(old(State()), alarm)
    {
      if alarm.None? {
        return;
      }
      var wasPresent := pq.Remove(alarm);
      if !wasPresent {
        return;
      }
      var soonest := TopTime();
      if soonest.None? {
        registeredAlarmTimeSec := 0;
      } else if soonest.value > (registeredAlarmTimeSec + minUpdateTimeSec) % TWO32 {
        registeredAlarmTimeSec := soonest.value;
      }
    }

    /** Takes the due alarms off the queue one by one. */
    method PopDue(timestampSec: UInt32) returns (oldAlarms: set<InternalAlarm>)
      requires Valid()
      modifies pq
      ensures Valid() && oldAlarms == Due(old(pq.Contents()), timestampSec)
      ensures pq.Contents() == old(pq.Contents()) - oldAlarms
    {
      oldAlarms := {};
      ghost var all := pq.Contents();
      var t := pq.Top();
      while t.Some? && t.value.timestampSec <= timestampSec
        invariant Valid() && t == pq.First()
        invariant t.None? <==> pq.Contents() == {}
        invariant t.Some? ==> t.value in pq.Contents()
        invariant t.Some? ==> forall b :: b in pq.Contents() ==> !SmallerTimestamp(b, t.value)
        invariant oldAlarms <= Due(all, timestampSec) && pq.Contents() == all - oldAlarms
        decreases pq.Contents()
      {
        oldAlarms := oldAlarms + {t.value};
        pq.Pop();
        t := pq.Top();
      }
      AllDuePopped(all, oldAlarms, timestampSec, t);
    }

    method PopSoonerThan(timestampSec: UInt32) returns (oldAlarms: set<InternalAlarm>)
      requires Valid()
      modifies this, pq
      ensures Valid() && State() == PopFrom(old(State()), timestampSec)
      ensures oldAlarms == Due(old(State()).alarms, timestampSec)
    {
      oldAlarms := PopDue(timestampSec);
      if oldAlarms != {} {
        var t := TopTime();
        registeredAlarmTimeSec := if t.None? then 0 else t.value;
      }
    }
  }
}
