/** Duration anomaly trackers own alarms, one per key, in one shared monitor
    (anomaly/DurationAnomalyTracker.cpp). */
module DurationAlarms {
  import opened Options
  import opened Limits
  import opened Bits
  import opened Dimensions
  import opened Refractory
  import opened AlarmMonitoring
  import opened AnomalyTracking

  datatype Tracker = Tracker(quiet: Quiet, alarms: map<Key, InternalAlarm>)

  /** Alarm time in whole seconds, rounded up, in 32 bits. */
  function RoundUpSec(timestampNs: int): UInt32
  {
    (TruncDiv(timestampNs - 1, NS_PER_SEC) % TWO32 + 1) % TWO32
  }

  lemma RoundsUp(timestampNs: int)
    requires 1 <= timestampNs <= (TWO32 - 1) * NS_PER_SEC
    ensures 1 <= RoundUpSec(timestampNs)
    ensures timestampNs <= RoundUpSec(timestampNs) * NS_PER_SEC < timestampNs + NS_PER_SEC
  {
  }

  // ---------- one tracker, on values ----------

  function NewAlarm(timestampNs: int, address: nat): InternalAlarm
  {
    InternalAlarm(address, RoundUpSec(timestampNs))
  }

  function Started(t: Tracker, k: Key, timestampNs: int, address: nat): Tracker
  {
    if t.quiet.InPeriod(timestampNs, k) then t else t.(alarms := t.alarms[k := NewAlarm(timestampNs, address)])
  }

  function Without(queue: set<InternalAlarm>, t: Tracker, k: Key): set<InternalAlarm>
  {
    if k in t.alarms then queue - {t.alarms[k]} else queue
  }

  /** The monitor refuses an alarm at time 0. */
  function StartedQueue(queue: set<InternalAlarm>, t: Tracker, k: Key, timestampNs: int,
                        address: nat): set<InternalAlarm>
  {
    if t.quiet.InPeriod(timestampNs, k) then queue
    else Without(queue, t, k) + (if RoundUpSec(timestampNs) < 1 then {} else {NewAlarm(timestampNs, address)})
  }

  function RequestedBy(requested: map<InternalAlarm, int>, t: Tracker, k: Key, timestampNs: int,
                       address: nat): map<InternalAlarm, int>
  {
    if t.quiet.InPeriod(timestampNs, k) then requested else requested[NewAlarm(timestampNs, address) := timestampNs]
  }

  /** A late stop declares the anomaly that the alarm would have. */
  function Stopped(t: Tracker, k: Key, timestampNs: int): Tracker
  {
    if k !in t.alarms then t
    else
      var late := timestampNs >= NS_PER_SEC * t.alarms[k].timestampSec;
      Tracker(if late then Declare(t.quiet, timestampNs, k) else t.quiet, t.alarms - {k})
  }

  function FiredKeys(t: Tracker, fired: set<InternalAlarm>): set<Key>
  {
    set k | k in t.alarms && t.alarms[k] in fired
  }

  function Informed(t: Tracker, timestampNs: int, fired: set<InternalAlarm>): Tracker
  {
    var keys := FiredKeys(t, fired);
    Tracker(DeclareAll(t.quiet, timestampNs, keys), t.alarms - keys)
  }

  // ---------- several trackers, one queue ----------

  /** `pending` holds alarms popped from the queue that no tracker has been told about yet;
      `requested` remembers the time each alarm was asked for. */
  datatype World = World(trackers: seq<Tracker>, queue: set<InternalAlarm>, pending: set<InternalAlarm>,
                         requested: map<InternalAlarm, int>)

  datatype Op =
    | Start(i: nat, k: Key, ns: int, address: nat)
    | Stop(i: nat, k: Key, ns: int)
    | CancelAll(i: nat)
    | Detect(i: nat, k: Key, ns: int)
    | Pop(t: UInt32)
    | Inform(ns: int)

  /** Each tracker takes its own alarms out of the fired set before the next one looks at it. */
  function InformAll(ts: seq<Tracker>, timestampNs: int, fired: set<InternalAlarm>): (r: seq<Tracker>)
    ensures |r| == |ts|
  {
    if ts == [] then []
    else [Informed(ts[0], timestampNs, fired)] + InformAll(ts[1..], timestampNs, fired - ts[0].alarms.Values)
  }

  function Step(w: World, op: Op): World
  {
    match op
    case Pop(t) => w.(queue := w.queue - Due(w.queue, t), pending := w.pending + Due(w.queue, t))
    case Inform(ns) => w.(trackers := InformAll(w.trackers, ns, w.pending), pending := {})
    case _ =>
      if op.i >= |w.trackers| then w
      else
        var i, t := op.i, w.trackers[op.i];
        match op
        case Start(_, k, ns, address) =>
          w.(trackers := w.trackers[i := Started(t, k, ns, address)],
             queue := StartedQueue(w.queue, t, k, ns, address),
             requested := RequestedBy(w.requested, t, k, ns, address))
        case Stop(_, k, ns) => w.(trackers := w.trackers[i := Stopped(t, k, ns)], queue := Without(w.queue, t, k))
        case CancelAll(_) => w.(trackers := w.trackers[i := t.(alarms := map[])], queue := w.queue - t.alarms.Values)
        case Detect(_, k, ns) => w.(trackers := w.trackers[i := t.(quiet := Declare(t.quiet, ns, k))])
        case _ => w
  }

  function Run(w: World, ops: seq<Op>): World
  {
    if ops == [] then w else Step(Run(w, ops[..|ops| - 1]), ops[|ops| - 1])
  }

  /** Nothing is owned or queued yet. */
  predicate Initial(w: World)
  {
    && w.queue == {} && w.pending == {} && w.requested == map[]
    && forall i :: 0 <= i < |w.trackers| ==>
         w.trackers[i].alarms == map[] && w.trackers[i].quiet.ends == map[] && w.trackers[i].quiet.declared == map[]
  }

  // ---------- ownership ----------

  predicate Owns(ts: seq<Tracker>, i: nat, k: Key, a: InternalAlarm)
  {
    i < |ts| && k in ts[i].alarms && ts[i].alarms[k] == a
  }

  ghost predicate Owned(ts: seq<Tracker>, a: InternalAlarm) { exists i, k :: Owns(ts, i, k, a) }

  ghost predicate Ownership(w: World)
  {
    && (forall a :: a in w.queue ==> Owned(w.trackers, a))
    && (forall i, k, a :: Owns(w.trackers, i, k, a) ==> a in w.queue + w.pending)
    && (forall a :: a in w.queue ==> a !in w.pending)
    && (forall i, k, j, l, a :: Owns(w.trackers, i, k, a) && Owns(w.trackers, j, l, a) ==> i == j && k == l)
  }

  /** A new alarm object is none of the live ones, and an alarm that is not refused in the quiet
      time does not round to the reserved time 0. */
  predicate FreshStart(w: World, op: Op)
  {
    op.Start? && op.i < |w.trackers| ==>
      FreshObject(w, op.address) && (w.trackers[op.i].quiet.InPeriod(op.ns, op.k) || RoundUpSec(op.ns) >= 1)
  }

  /** The address of a new alarm object is not that of a live one. */
  predicate FreshObject(w: World, address: nat) { forall a :: a in w.queue + w.pending ==> a.address != address }

  predicate FreshStarts(w: World, ops: seq<Op>)
  {
    ops == [] || (FreshStarts(w, ops[..|ops| - 1]) && FreshStart(Run(w, ops[..|ops| - 1]), ops[|ops| - 1]))
  }

  /** Dropping keys of one tracker, with their alarms, from trackers and queue alike. */
  lemma DropKeeps(w: World, i: nat, t': Tracker, gone: set<Key>, queue': set<InternalAlarm>)
    requires Ownership(w) && i < |w.trackers|
    requires t'.alarms == w.trackers[i].alarms - gone
    requires forall a :: a in queue' <==> a in w.queue && forall k :: k in gone ==> !Owns(w.trackers, i, k, a)
    ensures Ownership(w.(trackers := w.trackers[i := t'], queue := queue'))
  {
    var ts := w.trackers[i := t'];
    assert forall j, k, a :: Owns(ts, j, k, a) <==> Owns(w.trackers, j, k, a) && !(j == i && k in gone);
    forall a | a in queue' ensures Owned(ts, a) {
      var j, k :| Owns(w.trackers, j, k, a);
      assert Owns(ts, j, k, a);
    }
  }

  lemma OwnsWith(ts: seq<Tracker>, us: seq<Tracker>, i: nat, k: Key, a: InternalAlarm, j: nat, l: Key, b: InternalAlarm)
    requires i < |ts| && us == ts[i := ts[i].(alarms := ts[i].alarms[k := a])] && k !in ts[i].alarms
    ensures Owns(us, j, l, b) <==> Owns(ts, j, l, b) || (j == i && l == k && b == a)
  {
  }

  lemma AddKeeps(w: World, i: nat, k: Key, a: InternalAlarm)
    requires Ownership(w) && i < |w.trackers| && k !in w.trackers[i].alarms
    requires a !in w.queue && a !in w.pending
    ensures var t := w.trackers[i];
            Ownership(w.(trackers := w.trackers[i := t.(alarms := t.alarms[k := a])], queue := w.queue + {a}))
  {
    var t, ts := w.trackers[i], w.trackers;
    var us := ts[i := t.(alarms := t.alarms[k := a])];
    forall j: nat, l, b ensures Owns(us, j, l, b) <==> Owns(ts, j, l, b) || (j == i && l == k && b == a) {
      OwnsWith(ts, us, i, k, a, j, l, b);
    }
    forall j: nat, l, b | Owns(us, j, l, b) ensures b in w.queue + {a} + w.pending {
      if b != a { assert Owns(ts, j, l, b); }
    }
    forall j: nat, l, j': nat, l', b | Owns(us, j, l, b) && Owns(us, j', l', b) ensures j == j' && l == l' {
      if b != a {
        assert Owns(ts, j, l, b) && Owns(ts, j', l', b);
      } else {
        assert !Owns(ts, j, l, a) && !Owns(ts, j', l', a);
      }
    }
    forall b | b in w.queue + {a} ensures Owned(us, b) {
      if b == a {
        assert Owns(us, i, k, a);
      } else {
        var j, l :| Owns(ts, j, l, b);
        assert Owns(us, j, l, b);
      }
    }
  }

  /** A start that is refused in the quiet time, or whose time does not round to the reserved 0,
      keeps ownership. Any other breaks it: the tracker then owns an alarm that the monitor refused
      and that nobody will ever fire. */
  lemma StartKeepsIff(w: World, i: nat, k: Key, ns: int, address: nat)
    requires Ownership(w) && i < |w.trackers| && FreshObject(w, address)
    ensures Ownership(Step(w, Start(i, k, ns, address))) <==> w.trackers[i].quiet.InPeriod(ns, k) || RoundUpSec(ns) >= 1
  {
    var t, a, r := w.trackers[i], NewAlarm(ns, address), Step(w, Start(i, k, ns, address));
    assert w.trackers[i := t] == w.trackers;
    if !t.quiet.InPeriod(ns, k) {
      var t1 := t.(alarms := t.alarms - {k});
      var w1 := w.(trackers := w.trackers[i := t1], queue := Without(w.queue, t, k));
      DropKeeps(w, i, t1, {k}, w1.queue);
      assert t1.alarms[k := a] == t.alarms[k := a];
      if RoundUpSec(ns) >= 1 {
        AddKeeps(w1, i, k, a);
        assert w1.trackers[i := t1.(alarms := t1.alarms[k := a])] == r.trackers;
      } else {
        assert Owns(r.trackers, i, k, a) && a !in r.queue + r.pending;
      }
    }
  }

  /** Because no alarm has two owners, telling the trackers one after the other is telling each of
      them the whole set. */
  lemma {:induction false} InformAllAt(ts: seq<Tracker>, timestampNs: int, fired: set<InternalAlarm>, i: nat)
    requires i < |ts|
    requires forall j, k, l, a :: Owns(ts, j, k, a) && Owns(ts, i, l, a) ==> j == i
    ensures InformAll(ts, timestampNs, fired)[i] == Informed(ts[i], timestampNs, fired)
  {
    if i > 0 {
      var rest, i1 := ts[1..], i - 1;
      forall j: nat, k, l, a | Owns(rest, j, k, a) && Owns(rest, i1, l, a) ensures j == i1 {
        assert Owns(ts, j + 1, k, a) && Owns(ts, i, l, a);
      }
      var left := fired - ts[0].alarms.Values;
      InformAllAt(rest, timestampNs, left, i - 1);
      forall k | k in ts[i].alarms && ts[i].alarms[k] in fired ensures ts[i].alarms[k] in left {
        var a := ts[i].alarms[k];
        if a in ts[0].alarms.Values {
          var l :| l in ts[0].alarms && ts[0].alarms[l] == a;
          assert Owns(ts, 0, l, a) && Owns(ts, i, k, a);
        }
      }
      assert FiredKeys(ts[i], left) == FiredKeys(ts[i], fired);
    }
  }

  lemma InformKeeps(w: World, ns: int)
    requires Ownership(w)
    ensures Ownership(Step(w, Inform(ns)))
  {
    var ts := InformAll(w.trackers, ns, w.pending);
    forall j: nat, k, a ensures Owns(ts, j, k, a) <==> Owns(w.trackers, j, k, a) && a !in w.pending {
      if j < |ts| {
        InformAllAt(w.trackers, ns, w.pending, j);
      }
    }
    forall a | a in w.queue ensures Owned(ts, a) {
      var j, k :| Owns(w.trackers, j, k, a);
      assert Owns(ts, j, k, a);
    }
  }

  lemma StepKeepsOwnership(w: World, op: Op)
    requires Ownership(w) && FreshStart(w, op)
    ensures Ownership(Step(w, op))
  {
    match op
    case Pop(t) =>
    case Inform(ns) => InformKeeps(w, ns);
    case _ =>
      if op.i < |w.trackers| {
        var i, t := op.i, w.trackers[op.i];
        match op
        case Start(_, k, ns, address) => StartKeepsIff(w, i, k, ns, address);
        case Stop(_, k, ns) => DropKeeps(w, i, Stopped(t, k, ns), {k}, Without(w.queue, t, k));
        case CancelAll(_) => DropKeeps(w, i, t.(alarms := map[]), t.alarms.Keys, w.queue - t.alarms.Values);
        case Detect(_, k, ns) => DropKeeps(w, i, t.(quiet := Declare(t.quiet, ns, k)), {}, w.queue);
        case _ =>
      }
  }

  /** Over any interleaving of starts, stops, cancellations, count detections, pops and
      notifications, distinct keys own distinct alarms, and whenever no popped alarm is waiting to
      be announced the queue is exactly the union of what the trackers own. */
  lemma {:induction false} QueueIsWhatTrackersOwn(w: World, ops: seq<Op>)
    requires Initial(w) && FreshStarts(w, ops)
    ensures var r := Run(w, ops);
            Ownership(r) && (r.pending == {} ==> forall a :: a in r.queue <==> Owned(r.trackers, a))
  {
    if ops != [] {
      QueueIsWhatTrackersOwn(w, ops[..|ops| - 1]);
      StepKeepsOwnership(Run(w, ops[..|ops| - 1]), ops[|ops| - 1]);
    }
  }

  // ---------- what stopping and firing declare ----------

  /** A start gives the key a new alarm for the next full second, unless it falls into the quiet time;
      it touches no other key and declares nothing. */
  lemma StartArmsIff(t: Tracker, k: Key, timestampNs: int, address: nat, l: Key)
    ensures var r := Started(t, k, timestampNs, address);
            && r.quiet == t.quiet
            && (l in r.alarms <==> l in t.alarms || (l == k && !t.quiet.InPeriod(timestampNs, k)))
            && (l in r.alarms ==>
                  r.alarms[l] == if l == k && !t.quiet.InPeriod(timestampNs, k)
                                 then InternalAlarm(address, RoundUpSec(timestampNs)) else t.alarms[l])
  {
  }

  /** One more declaration, unless the key is quiet. */
  function Declaring(q: Quiet, timestampNs: int, k: Key, due: bool): seq<int>
  {
    if due && !q.InPeriod(timestampNs, k) then q.Times(k) + [timestampNs] else q.Times(k)
  }

  /** A stop declares exactly when the key has an alarm whose time has come, and then forgets it; it
      touches no other key. */
  lemma StopDeclaresIff(t: Tracker, k: Key, timestampNs: int, l: Key)
    ensures var due := k in t.alarms && timestampNs >= t.alarms[k].timestampSec * NS_PER_SEC;
            Stopped(t, k, timestampNs).quiet.Times(l) == Declaring(t.quiet, timestampNs, l, l == k && due)
    ensures l in Stopped(t, k, timestampNs).alarms <==> l in t.alarms && l != k
    ensures l in t.alarms && l != k ==> Stopped(t, k, timestampNs).alarms[l] == t.alarms[l]
  {
  }

  /** Firing declares exactly the keys whose alarm is among the fired ones, and forgets them. */
  lemma FiringDeclaresIff(t: Tracker, timestampNs: int, fired: set<InternalAlarm>, l: Key)
    ensures var due := l in t.alarms && t.alarms[l] in fired;
            && Informed(t, timestampNs, fired).quiet.Times(l) == Declaring(t.quiet, timestampNs, l, due)
            && (l in Informed(t, timestampNs, fired).alarms <==> l in t.alarms && !due)
  {
  }

  // ---------- no alarm fires early ----------

  predicate StartsInRange(ops: seq<Op>)
  {
    forall i :: 0 <= i < |ops| && ops[i].Start? ==> 1 <= ops[i].ns <= (TWO32 - 1) * NS_PER_SEC
  }

  predicate Requested(w: World, a: InternalAlarm)
  {
    a in w.requested && w.requested[a] <= a.timestampSec * NS_PER_SEC < w.requested[a] + NS_PER_SEC
  }

  predicate AllRequested(w: World) { forall a :: a in w.queue ==> Requested(w, a) }

  lemma StepKeepsRequests(w: World, op: Op)
    requires op.Start? ==> 1 <= op.ns <= (TWO32 - 1) * NS_PER_SEC
    requires AllRequested(w)
    ensures AllRequested(Step(w, op))
  {
  }

  /** An alarm popped at second `t` was asked for at or before that time, and every alarm is less
      than a second late. */
  lemma {:induction false} NoAlarmFiresEarly(w: World, ops: seq<Op>, t: UInt32)
    requires Initial(w) && StartsInRange(ops)
    ensures AllRequested(Run(w, ops))
    ensures forall a :: a in Due(Run(w, ops).queue, t) ==> Run(w, ops).requested[a] <= t * NS_PER_SEC
  {
    if ops != [] {
      var init, op := ops[..|ops| - 1], ops[|ops| - 1];
      NoAlarmFiresEarly(w, init, t);
      StepKeepsRequests(Run(w, init), op);
    }
    forall a | a in Due(Run(w, ops).queue, t) ensures Run(w, ops).requested[a] <= t * NS_PER_SEC {
      assert Requested(Run(w, ops), a);
    }
  }

  // ---------- declarations are spaced ----------

  function TimeOf(op: Op): Option<int>
  {
    match op
    case Stop(_, _, ns) => Some(ns)
    case Detect(_, _, ns) => Some(ns)
    case Inform(ns) => Some(ns)
    case _ => None
  }

  /** Declaration times keep the end of the period within 32 bits. */
  predicate TimesInRange(period: UInt32, ops: seq<Op>)
  {
    forall j :: 0 <= j < |ops| && TimeOf(ops[j]).Some? ==> InRange(period, TimeOf(ops[j]).value)
  }

  lemma {:induction false} InformAllSpaced(ts: seq<Tracker>, ns: int, fired: set<InternalAlarm>, i: nat, k: Key)
    requires i < |ts| && Covered(ts[i].quiet, k)
    requires ts[i].quiet.periodSec.Some? ==> InRange(ts[i].quiet.periodSec.value, ns)
    ensures Covered(InformAll(ts, ns, fired)[i].quiet, k)
    ensures InformAll(ts, ns, fired)[i].quiet.periodSec == ts[i].quiet.periodSec
  {
    if i == 0 {
      DeclareStaysCovered(ts[0].quiet, ns, FiredKeys(ts[0], fired), k);
    } else {
      InformAllSpaced(ts[1..], ns, fired - ts[0].alarms.Values, i - 1, k);
    }
  }

  ghost predicate Spacing(q: Quiet, k: Key, period: UInt32) { q.periodSec == Some(period) && Covered(q, k) }

  /** What one step other than a notification may do to the declarations of a tracker. */
  lemma QuietAfter(w: World, op: Op, i: nat)
    requires i < |w.trackers| && !op.Inform?
    ensures var q := w.trackers[i].quiet;
            && i < |Step(w, op).trackers|
            && (|| Step(w, op).trackers[i].quiet == q
                || ((op.Stop? || op.Detect?) && Step(w, op).trackers[i].quiet == Declare(q, op.ns, op.k)))
  {
  }

  lemma StepKeepsSpacing(w: World, op: Op, i: nat, k: Key, period: UInt32)
    requires i < |w.trackers| && Spacing(w.trackers[i].quiet, k, period)
    requires TimeOf(op).Some? ==> InRange(period, TimeOf(op).value)
    ensures i < |Step(w, op).trackers| && Spacing(Step(w, op).trackers[i].quiet, k, period)
  {
    if op.Inform? {
      InformAllSpaced(w.trackers, op.ns, w.pending, i, k);
    } else {
      QuietAfter(w, op, i);
      if op.Stop? || op.Detect? {
        DeclareStaysCovered(w.trackers[i].quiet, op.ns, {op.k}, k);
      }
    }
  }

  /** Whichever route reaches a declaration, and in whatever order the times come, two anomalies
      declared for one key of one tracker are at least one refractory period apart. */
  lemma {:induction false} AllRoutesAreSpaced(w: World, ops: seq<Op>, i: nat, k: Key, period: UInt32)
    requires Initial(w) && i < |w.trackers| && w.trackers[i].quiet.periodSec == Some(period)
    requires TimesInRange(period, ops)
    ensures var r := Run(w, ops);
            i < |r.trackers| && r.trackers[i].quiet.periodSec == Some(period)
            && Covered(r.trackers[i].quiet, k) && Spaced(r.trackers[i].quiet.Times(k), period)
  {
    if ops != [] {
      AllRoutesAreSpaced(w, ops[..|ops| - 1], i, k, period);
      StepKeepsSpacing(Run(w, ops[..|ops| - 1]), ops[|ops| - 1], i, k, period);
    }
  }

  // ---------- the object ----------

  /** The registered time is close to the soonest alarm, and no alarm is at the reserved time 0. */
  ghost predicate Close(m: Monitor) { CloseToSoonest(m) && FromOne(m.alarms) }

  /** Starting an alarm removes the old one first; the new one then has to pass the monitor's test. */
  ghost predicate StartKeepsClose(m: Monitor, t: Tracker, k: Key, timestampNs: int, address: nat)
  {
    var m1 := if k in t.alarms then RemoveFrom(m, Some(t.alarms[k])) else m;
    t.quiet.InPeriod(timestampNs, k) || AddKeepsClose(m1, Some(NewAlarm(timestampNs, address)))
  }

  class DurationAnomalyTracker {
    const monitor: AlarmMonitor
    const base: AnomalyTracker
    var alarms: map<Key, InternalAlarm>

    ghost predicate Valid()
      reads this, monitor, monitor.pq
    {
      monitor.Valid()
    }

    ghost function State(): Tracker
      reads this, base
    {
      Tracker(base.Quieting(), alarms)
    }

    constructor (numBuckets: nat, threshold: Option<real>, periodSec: Option<UInt32>, monitor: AlarmMonitor)
      requires monitor.Valid() && numBuckets >= 1
      ensures Valid() && this.monitor == monitor && fresh(base)
      ensures State() == Tracker(Quiet(periodSec, map[], map[]), map[])
    {
      this.monitor := monitor;
      base := new AnomalyTracker(numBuckets, threshold, periodSec);
      alarms := map[];
    }

    /** `address` is where the new alarm object lives. */
    method StartAlarm(k: Key, timestampNs: int, address: nat)
      requires Valid()
      modifies this, monitor, monitor.pq
      ensures Valid() && State() == Started(old(State()), k, timestampNs, address)
      ensures monitor.State().alarms == StartedQueue(old(monitor.State().alarms), old(State()), k, timestampNs, address)
      ensures old(Close(monitor.State())) ==>
        (Close(monitor.State()) <==> old(StartKeepsClose(monitor.State(), State(), k, timestampNs, address)))
    {
      var timestampSec := (TruncDiv(timestampNs - 1, NS_PER_SEC) % TWO32 + 1) % TWO32;
      var quiet := base.IsInRefractoryPeriod(timestampNs, k);
      if quiet {
        return;
      }
      if k in alarms {
        RemoveKeepsClose(monitor.State(), alarms[k]);
        monitor.Remove(Some(alarms[k]));
      }
      var alarm := InternalAlarm(address, timestampSec);
      alarms := alarms[k := alarm];
      AddClose(monitor.State(), alarm);
      monitor.Add(Some(alarm));
    }

    method StopAlarm(k: Key, timestampNs: int)
      requires Valid()
      modifies this, base, monitor, monitor.pq
      ensures Valid() && State() == Stopped(old(State()), k, timestampNs)
      ensures monitor.State().alarms == Without(old(monitor.State().alarms), old(State()), k)
      ensures old(Close(monitor.State())) ==> Close(monitor.State())
    {
      if k !in alarms {
        return;
      }
      var alarm := alarms[k];
      if timestampNs >= NS_PER_SEC * alarm.timestampSec {
        base.DeclareAnomaly(timestampNs, k);
      }
      RemoveKeepsClose(monitor.State(), alarm);
      monitor.Remove(Some(alarm));
      alarms := alarms - {k};
    }

    method CancelAllAlarms()
      requires Valid()
      modifies this, monitor, monitor.pq
      ensures Valid() && State() == old(State()).(alarms := map[])
      ensures monitor.State().alarms == old(monitor.State().alarms) - old(alarms).Values
      ensures old(Close(monitor.State())) ==> Close(monitor.State())
    {
      var todo := alarms.Keys;
      while todo != {}
        invariant Valid() && todo <= alarms.Keys && State() == old(State())
        invariant monitor.State().alarms ==
          old(monitor.State().alarms) - (set k | k in alarms && k !in todo :: alarms[k])
        invariant old(Close(monitor.State())) ==> Close(monitor.State())
      {
        var k :| k in todo;
        RemoveKeepsClose(monitor.State(), alarms[k]);
        monitor.Remove(Some(alarms[k]));
        todo := todo - {k};
      }
      alarms := map[];
    }

    /** Returns the fired alarms that belong to someone else. */
    method InformAlarmsFired(timestampNs: int, firedAlarms: set<InternalAlarm>) returns (rest: set<InternalAlarm>)
      modifies this, base
      ensures State() == Informed(old(State()), timestampNs, firedAlarms)
      ensures rest == firedAlarms - old(alarms).Values
    {
      rest := firedAlarms;
      NothingFired(State(), timestampNs, firedAlarms);
      if firedAlarms == {} || alarms == map[] {
        return;
      }
      var matched := map k | k in alarms && alarms[k] in firedAlarms :: alarms[k];
      RestOfFired(alarms, matched, firedAlarms);
      assert matched.Keys == FiredKeys(State(), firedAlarms);
      rest := FireAll(timestampNs, matched, firedAlarms);
    }

    method FireAll(timestampNs: int, matched: map<Key, InternalAlarm>,
                   firedAlarms: set<InternalAlarm>) returns (rest: set<InternalAlarm>)
      modifies this`alarms, base
      ensures State() == FiredSoFar(old(State()), timestampNs, matched.Keys)
      ensures rest == firedAlarms - matched.Values
    {
      rest := firedAlarms;
      var todo := matched.Keys;
      while todo != {}
        invariant todo <= matched.Keys
        invariant State() == FiredSoFar(old(State()), timestampNs, matched.Keys - todo)
        invariant rest == firedAlarms - AlarmsOf(matched, matched.Keys - todo)
      {
        var k :| k in todo;
        ghost var done := matched.Keys - todo;
        FiredOneMore(old(State()), timestampNs, done, k);
        AlarmsOfMore(matched, done, k);
        Fire(timestampNs, k);
        rest := rest - {matched[k]};
        todo := todo - {k};
        assert matched.Keys - todo == done + {k};
      }
      assert matched.Keys - todo == matched.Keys && AlarmsOf(matched, matched.Keys) == matched.Values;
    }

    /** The alarm of one key has fired. */
    method Fire(timestampNs: int, k: Key)
      modifies this`alarms, base
      ensures State() == Tracker(Declare(old(State()).quiet, timestampNs, k), old(alarms) - {k})
    {
      base.DeclareAnomaly(timestampNs, k);
      alarms := alarms - {k};
    }
  }

  function AlarmsOf(alarms: map<Key, InternalAlarm>, keys: set<Key>): set<InternalAlarm>
    requires keys <= alarms.Keys
  {
    set k | k in keys :: alarms[k]
  }

  lemma RestOfFired(alarms: map<Key, InternalAlarm>, matched: map<Key, InternalAlarm>, fired: set<InternalAlarm>)
    requires matched == map k | k in alarms && alarms[k] in fired :: alarms[k]
    ensures fired - matched.Values == fired - alarms.Values
  {
    forall a | a in fired && a in alarms.Values ensures a in matched.Values {
      var k :| k in alarms && alarms[k] == a;
      assert matched[k] == a;
    }
  }

  lemma AlarmsOfMore(alarms: map<Key, InternalAlarm>, keys: set<Key>, k: Key)
    requires keys <= alarms.Keys && k in alarms
    ensures AlarmsOf(alarms, keys + {k}) == AlarmsOf(alarms, keys) + {alarms[k]}
  {
  }

  lemma RemoveKeepsClose(m: Monitor, a: InternalAlarm)
    ensures Close(m) ==> Close(RemoveFrom(m, Some(a)))
  {
    if Close(m) { RemoveStaysClose(m, Some(a)); }
  }

  lemma AddClose(m: Monitor, a: InternalAlarm)
    ensures Close(m) ==> (Close(AddTo(m, Some(a))) <==> AddKeepsClose(m, Some(a)))
  {
    if Close(m) { AddStaysClose(m, Some(a)); }
  }

  function FiredSoFar(t: Tracker, timestampNs: int, keys: set<Key>): Tracker
  {
    Tracker(DeclareAll(t.quiet, timestampNs, keys), t.alarms - keys)
  }

  lemma FiredOneMore(t: Tracker, timestampNs: int, keys: set<Key>, k: Key)
    requires k !in keys
    ensures FiredSoFar(t, timestampNs, keys + {k})
         == Tracker(Declare(FiredSoFar(t, timestampNs, keys).quiet, timestampNs, k),
                    FiredSoFar(t, timestampNs, keys).alarms - {k})
  {
    DeclareOneMore(t.quiet, timestampNs, keys, k);
  }

  lemma NothingFired(t: Tracker, timestampNs: int, fired: set<InternalAlarm>)
    ensures fired == {} || t.alarms == map[] ==> Informed(t, timestampNs, fired) == t
  {
  }
}
