/** When to pull next (external/StatsPullerManager.cpp): receivers with intervals share one alarm. */
module PullSchedule {
  import opened Options
  import opened Limits
  import opened Bits

  const NO_ALARM_UPDATE: int := TWO63 - 1
  const MIN_INTERVAL_NS: int := 60 * NS_PER_SEC

  /** A registration: `key` is the atom and configuration, `receiver` the object that wants data. */
  datatype ReceiverInfo = ReceiverInfo(key: nat, receiver: nat, nextPullTimeNs: int, intervalNs: int)

  datatype Schedule = Schedule(receivers: seq<ReceiverInfo>, nextPullTimeNs: int)

  /** Whole minutes, but at least one. */
  function RoundedInterval(intervalNs: int): (r: int)
    ensures r >= MIN_INTERVAL_NS
    ensures r % MIN_INTERVAL_NS == 0
    ensures intervalNs >= MIN_INTERVAL_NS ==> r <= intervalNs < r + MIN_INTERVAL_NS
  {
    var minutes := if intervalNs >= 0 then intervalNs / NS_PER_SEC / 60 else -((-intervalNs) / NS_PER_SEC / 60);
    var rounded := minutes * NS_PER_SEC * 60;
    if rounded < MIN_INTERVAL_NS then MIN_INTERVAL_NS else rounded
  }

  predicate Same(info: ReceiverInfo, key: nat, receiver: nat) { info.key == key && info.receiver == receiver }

  predicate IsRegistered(list: seq<ReceiverInfo>, key: nat, receiver: nat)
  {
    exists i :: 0 <= i < |list| && Same(list[i], key, receiver)
  }

  function Register(s: Schedule, key: nat, receiver: nat, nextNs: int, intervalNs: int): Schedule
  {
    if IsRegistered(s.receivers, key, receiver) then s
    else Schedule(s.receivers + [ReceiverInfo(key, receiver, nextNs, RoundedInterval(intervalNs))],
                  if nextNs < s.nextPullTimeNs then nextNs else s.nextPullTimeNs)
  }

  function Without(list: seq<ReceiverInfo>, key: nat, receiver: nat): seq<ReceiverInfo>
  {
    if list == [] then []
    else if Same(list[0], key, receiver) then list[1..]
    else [list[0]] + Without(list[1..], key, receiver)
  }

  // ---------- firing ----------

  predicate Due(info: ReceiverInfo, t: int) { info.nextPullTimeNs <= t }

  /** How many intervals were missed, kept in a 32-bit `int`. */
  function BucketsAhead(info: ReceiverInfo, t: int): int
    requires info.intervalNs > 0 && Due(info, t)
  {
    ToInt32((t - info.nextPullTimeNs) / info.intervalNs % TWO32)
  }

  function Advanced(info: ReceiverInfo, t: int): ReceiverInfo
    requires info.intervalNs > 0 && Due(info, t)
  {
    info.(nextPullTimeNs := info.nextPullTimeNs + (BucketsAhead(info, t) + 1) * info.intervalNs)
  }

  function FiredInfo(info: ReceiverInfo, t: int, alive: set<nat>): ReceiverInfo
    requires info.intervalNs > 0
  {
    if Due(info, t) && info.receiver in alive then Advanced(info, t) else info
  }

  predicate Paced(list: seq<ReceiverInfo>)
  {
    forall i :: 0 <= i < |list| ==> list[i].intervalNs >= MIN_INTERVAL_NS && list[i].nextPullTimeNs >= -TWO63
  }

  function Fired(list: seq<ReceiverInfo>, t: int, alive: set<nat>): (r: seq<ReceiverInfo>)
    requires Paced(list)
    ensures |r| == |list| && forall i :: 0 <= i < |list| ==> r[i] == FiredInfo(list[i], t, alive)
  {
    seq(|list|, i requires 0 <= i < |list| => FiredInfo(list[i], t, alive))
  }

  /** The earliest time after `t`, or the time that means none. */
  function EarliestAfter(list: seq<ReceiverInfo>, t: int): int
  {
    if list == [] then NO_ALARM_UPDATE
    else
      var m, info := EarliestAfter(list[..|list| - 1], t), list[|list| - 1];
      if !Due(info, t) && info.nextPullTimeNs < m then info.nextPullTimeNs else m
  }

  function Fire(s: Schedule, t: int, alive: set<nat>): Schedule
    requires Paced(s.receivers)
  {
    Schedule(Fired(s.receivers, t, alive), EarliestAfter(Fired(s.receivers, t, alive), t))
  }

  // ---------- the arithmetic of one receiver ----------

  lemma QuotientBounds(x: nat, d: int)
    requires d > 0
    ensures x / d * d <= x < (x / d + 1) * d
  {
  }

  lemma QuotientSmall(x: nat, d: int)
    requires d >= MIN_INTERVAL_NS && x < TWO64
    ensures x / d < TWO31
  {
  }

  lemma ProductOrder(a: nat, b: nat, c: nat, d: nat)
    requires a >= b && c >= d
    ensures a * c >= b * d
  {
  }

  /** The floor of one minute keeps the quotient far below the limit of an `int`. */
  lemma QuotientFits(info: ReceiverInfo, t: int)
    requires info.intervalNs >= MIN_INTERVAL_NS && -TWO63 <= info.nextPullTimeNs <= t < TWO63
    ensures BucketsAhead(info, t) == (t - info.nextPullTimeNs) / info.intervalNs
  {
    QuotientSmall(t - info.nextPullTimeNs, info.intervalNs);
  }

  predicate GridStep(a: int, b: int, interval: int, k: nat) { b == a + k * interval }

  /** `b` is on the grid of `a`. */
  ghost predicate OnGrid(a: int, b: int, interval: int) { exists k: nat :: GridStep(a, b, interval, k) }

  /** A receiver that was due is next after `t`, on its grid, and at most one interval away. */
  lemma AdvancedIsNext(info: ReceiverInfo, t: int)
    requires info.intervalNs >= MIN_INTERVAL_NS && -TWO63 <= info.nextPullTimeNs <= t < TWO63
    ensures t < Advanced(info, t).nextPullTimeNs <= t + info.intervalNs
    ensures OnGrid(info.nextPullTimeNs, Advanced(info, t).nextPullTimeNs, info.intervalNs)
  {
    var x, d := t - info.nextPullTimeNs, info.intervalNs;
    QuotientFits(info, t);
    QuotientBounds(x, d);
    assert (x / d + 1) * d == x / d * d + d;
    assert GridStep(info.nextPullTimeNs, Advanced(info, t).nextPullTimeNs, d, x / d + 1);
  }

  // ---------- the shared alarm ----------

  /** `x` is the earliest of the times after `t`, or stands for none. */
  ghost predicate IsEarliest(list: seq<ReceiverInfo>, t: int, x: int)
  {
    && x <= NO_ALARM_UPDATE
    && (forall i :: 0 <= i < |list| && !Due(list[i], t) ==> x <= list[i].nextPullTimeNs)
    && (x == NO_ALARM_UPDATE || exists i :: 0 <= i < |list| && !Due(list[i], t) && list[i].nextPullTimeNs == x)
  }

  lemma {:induction false} EarliestIsEarliest(list: seq<ReceiverInfo>, t: int)
    ensures IsEarliest(list, t, EarliestAfter(list, t))
  {
    if list != [] {
      var init := list[..|list| - 1];
      EarliestIsEarliest(init, t);
      var m := EarliestAfter(init, t);
      if m != NO_ALARM_UPDATE {
        var i :| 0 <= i < |init| && !Due(init[i], t) && init[i].nextPullTimeNs == m;
        assert list[i] == init[i];
      }
      forall i | 0 <= i < |list| && !Due(list[i], t) ensures EarliestAfter(list, t) <= list[i].nextPullTimeNs {
        if i < |init| { assert list[i] == init[i]; }
      }
    }
  }

  lemma EarliestUnique(list: seq<ReceiverInfo>, t: int, x: int, y: int)
    requires IsEarliest(list, t, x) && IsEarliest(list, t, y)
    ensures x == y
  {
  }

  /** After the alarm at `t`: every live receiver is scheduled after `t`, those that were due on
      their grid and at most one interval away, and the shared alarm is the earliest of all times
      after `t`. */
  lemma FiringReschedules(s: Schedule, t: int, alive: set<nat>, i: nat)
    requires Paced(s.receivers) && t < TWO63 && i < |s.receivers|
    ensures var r, r' := s.receivers[i], Fire(s, t, alive).receivers[i];
            && (r.receiver in alive ==> t < r'.nextPullTimeNs)
            && (r.receiver in alive && Due(r, t) ==>
                  r'.nextPullTimeNs <= t + r.intervalNs && OnGrid(r.nextPullTimeNs, r'.nextPullTimeNs, r.intervalNs))
            && (!(r.receiver in alive && Due(r, t)) ==> r' == r)
    ensures IsEarliest(Fire(s, t, alive).receivers, t, Fire(s, t, alive).nextPullTimeNs)
  {
    var r := s.receivers[i];
    if r.receiver in alive && Due(r, t) {
      AdvancedIsNext(r, t);
    }
    EarliestIsEarliest(Fired(s.receivers, t, alive), t);
  }

  // ---------- runs ----------

  datatype Op =
    | RegisterOp(key: nat, receiver: nat, nextNs: Int64, intervalNs: int)
    | UnRegisterOp(key: nat, receiver: nat)
    | Dies(receiver: nat)
    | Fires(t: Int64)

  /** The schedule and the receivers that are gone. */
  datatype World = World(schedule: Schedule, dead: set<nat>)

  function Alive(list: seq<ReceiverInfo>, dead: set<nat>): set<nat>
  {
    set i | 0 <= i < |list| && list[i].receiver !in dead :: list[i].receiver
  }

  function Step(w: World, op: Op): World
    requires Paced(w.schedule.receivers)
  {
    var s := w.schedule;
    match op
    case RegisterOp(key, receiver, nextNs, intervalNs) => w.(schedule := Register(s, key, receiver, nextNs, intervalNs))
    case UnRegisterOp(key, receiver) => w.(schedule := s.(receivers := Without(s.receivers, key, receiver)))
    case Dies(receiver) => w.(dead := w.dead + {receiver})
    case Fires(t) => w.(schedule := Fire(s, t, Alive(s.receivers, w.dead)))
  }

  /** The shared alarm is not later than any live receiver. */
  predicate NotLate(w: World)
  {
    && Paced(w.schedule.receivers)
    && forall i :: 0 <= i < |w.schedule.receivers| && w.schedule.receivers[i].receiver !in w.dead ==>
         w.schedule.nextPullTimeNs <= w.schedule.receivers[i].nextPullTimeNs
  }

  lemma {:induction false} WithoutKeeps(list: seq<ReceiverInfo>, key: nat, receiver: nat)
    ensures forall i :: 0 <= i < |Without(list, key, receiver)| ==> Without(list, key, receiver)[i] in list
  {
    if list != [] {
      WithoutKeeps(list[1..], key, receiver);
    }
  }

  lemma FireNotLate(w: World, t: Int64)
    requires NotLate(w)
    ensures NotLate(Step(w, Fires(t)))
  {
    var s := w.schedule;
    var alive := Alive(s.receivers, w.dead);
    var fired := Fired(s.receivers, t, alive);
    forall i | 0 <= i < |fired|
      ensures fired[i].intervalNs >= MIN_INTERVAL_NS && fired[i].nextPullTimeNs >= -TWO63
      ensures fired[i].receiver !in w.dead ==> EarliestAfter(fired, t) <= fired[i].nextPullTimeNs {
      FiringReschedules(s, t, alive, i);
      assert s.receivers[i].receiver !in w.dead ==> s.receivers[i].receiver in alive;
    }
  }

  lemma StepNotLate(w: World, op: Op)
    requires NotLate(w)
    ensures NotLate(Step(w, op))
  {
    match op
    case Fires(t) => FireNotLate(w, t);
    case UnRegisterOp(key, receiver) =>
      WithoutKeeps(w.schedule.receivers, key, receiver);
      var list := Without(w.schedule.receivers, key, receiver);
      forall i | 0 <= i < |list| ensures list[i].intervalNs >= MIN_INTERVAL_NS && list[i].nextPullTimeNs >= -TWO63
                 && (list[i].receiver !in w.dead ==> w.schedule.nextPullTimeNs <= list[i].nextPullTimeNs) {
        var j :| 0 <= j < |w.schedule.receivers| && w.schedule.receivers[j] == list[i];
      }
    case _ =>
  }

  /** Any run from an empty manager; in every state it reaches the shared alarm is not late. */
  function Run(ops: seq<Op>): (w: World)
    ensures NotLate(w)
  {
    if ops == [] then World(Schedule([], NO_ALARM_UPDATE), {})
    else
      var v := Run(ops[..|ops| - 1]);
      StepNotLate(v, ops[|ops| - 1]);
      Step(v, ops[|ops| - 1])
  }

  // ---------- who is registered, and on which grid ----------

  /** The registrations of one receiver for one key. */
  function Entries(list: seq<ReceiverInfo>, key: nat, receiver: nat): seq<ReceiverInfo>
  {
    if list == [] then []
    else (if Same(list[0], key, receiver) then [list[0]] else []) + Entries(list[1..], key, receiver)
  }

  lemma {:induction false} EntriesConcat(a: seq<ReceiverInfo>, b: seq<ReceiverInfo>, key: nat, receiver: nat)
    ensures Entries(a + b, key, receiver) == Entries(a, key, receiver) + Entries(b, key, receiver)
  {
    if a == [] {
      assert a + b == b;
    } else {
      assert (a + b)[0] == a[0] && (a + b)[1..] == a[1..] + b;
      EntriesConcat(a[1..], b, key, receiver);
    }
  }

  lemma {:induction false} RegisteredEntries(list: seq<ReceiverInfo>, key: nat, receiver: nat)
    ensures IsRegistered(list, key, receiver) <==> Entries(list, key, receiver) != []
  {
    if list != [] {
      RegisteredEntries(list[1..], key, receiver);
      if i :| 0 <= i < |list| && Same(list[i], key, receiver) && i > 0 { assert Same(list[1..][i - 1], key, receiver); }
      if i :| 0 <= i < |list[1..]| && Same(list[1..][i], key, receiver) { assert Same(list[i + 1], key, receiver); }
    }
  }

  /** Unregistering takes the first registration of that receiver and touches no other. */
  lemma {:induction false} WithoutEntries(list: seq<ReceiverInfo>, k: nat, r: nat, key: nat, receiver: nat)
    ensures var entries := Entries(list, key, receiver);
            Entries(Without(list, k, r), key, receiver)
            == if k == key && r == receiver && entries != [] then entries[1..] else entries
  {
    if list != [] {
      WithoutEntries(list[1..], k, r, key, receiver);
      var rest := Without(list[1..], k, r);
      if !Same(list[0], k, r) {
        assert ([list[0]] + rest)[1..] == rest;
      }
    }
  }

  lemma FiredTail(list: seq<ReceiverInfo>, t: int, alive: set<nat>)
    requires list != [] && Paced(list)
    ensures Paced(list[1..]) && Fired(list, t, alive)[1..] == Fired(list[1..], t, alive)
    ensures Fired(list, t, alive) == [FiredInfo(list[0], t, alive)] + Fired(list[1..], t, alive)
  {
  }

  lemma EntriesCons(x: ReceiverInfo, list: seq<ReceiverInfo>, key: nat, receiver: nat)
    ensures Entries([x] + list, key, receiver)
         == (if Same(x, key, receiver) then [x] else []) + Entries(list, key, receiver)
  {
    assert ([x] + list)[1..] == list;
  }

  lemma FiredConcat(a: seq<ReceiverInfo>, b: seq<ReceiverInfo>, t: int, alive: set<nat>)
    requires Paced(a) && Paced(b)
    ensures Paced(a + b) && Fired(a + b, t, alive) == Fired(a, t, alive) + Fired(b, t, alive)
  {
  }

  lemma {:induction false} FiredEntries(list: seq<ReceiverInfo>, t: int, alive: set<nat>, key: nat, receiver: nat)
    requires Paced(list)
    ensures Paced(Entries(list, key, receiver))
    ensures Entries(Fired(list, t, alive), key, receiver) == Fired(Entries(list, key, receiver), t, alive)
  {
    if list != [] {
      var x, rest := list[0], list[1..];
      var head := if Same(x, key, receiver) then [x] else [];
      FiredTail(list, t, alive);
      FiredEntries(rest, t, alive, key, receiver);
      EntriesCons(FiredInfo(x, t, alive), Fired(rest, t, alive), key, receiver);
      FiredConcat(head, Entries(rest, key, receiver), t, alive);
    }
  }

  /** What one more operation does to the registration in force: a second one is ignored until the
      first is taken back. */
  function NextInForce(before: Option<Op>, op: Op, key: nat, receiver: nat): Option<Op>
  {
    match op
    case RegisterOp(k, r, _, _) => if k == key && r == receiver && before.None? then Some(op) else before
    case UnRegisterOp(k, r) => if k == key && r == receiver then None else before
    case _ => before
  }

  /** The registration that is in force for a receiver after a run. */
  function InForce(ops: seq<Op>, key: nat, receiver: nat): Option<Op>
  {
    if ops == [] then None
    else NextInForce(InForce(ops[..|ops| - 1], key, receiver), ops[|ops| - 1], key, receiver)
  }

  /** An entry made by that operation: its rounded interval, and a time on the grid that starts at the
      time asked for. */
  ghost predicate MadeBy(op: Op, info: ReceiverInfo)
  {
    && op.RegisterOp? && info.key == op.key && info.receiver == op.receiver
    && info.intervalNs == RoundedInterval(op.intervalNs)
    && OnGrid(op.nextNs, info.nextPullTimeNs, info.intervalNs)
  }

  ghost predicate StandsFor(entries: seq<ReceiverInfo>, op: Option<Op>)
  {
    match op
    case None => entries == []
    case Some(o) => |entries| == 1 && MadeBy(o, entries[0])
  }

  lemma GridFurther(a: int, b: int, c: int, d: int)
    requires OnGrid(a, b, d) && OnGrid(b, c, d)
    ensures OnGrid(a, c, d)
  {
    var k: nat :| GridStep(a, b, d, k);
    var m: nat :| GridStep(b, c, d, m);
    assert (k + m) * d == k * d + m * d;
    assert GridStep(a, c, d, k + m);
  }

  lemma GridHere(a: int, d: int)
    ensures OnGrid(a, a, d)
  {
    assert GridStep(a, a, d, 0);
  }

  lemma FiredStands(entries: seq<ReceiverInfo>, op: Option<Op>, t: Int64, alive: set<nat>)
    requires Paced(entries) && StandsFor(entries, op)
    ensures StandsFor(Fired(entries, t, alive), op)
  {
    if op.Some? {
      var info := entries[0];
      if Due(info, t) && info.receiver in alive {
        AdvancedIsNext(info, t);
        GridFurther(op.value.nextNs, info.nextPullTimeNs, Advanced(info, t).nextPullTimeNs, info.intervalNs);
      }
    }
  }

  lemma RegisterStands(s: Schedule, op: Op, before: Option<Op>, key: nat, receiver: nat)
    requires op.RegisterOp? && StandsFor(Entries(s.receivers, key, receiver), before)
    ensures StandsFor(Entries(Register(s, op.key, op.receiver, op.nextNs, op.intervalNs).receivers, key, receiver),
                      NextInForce(before, op, key, receiver))
  {
    var info := ReceiverInfo(op.key, op.receiver, op.nextNs, RoundedInterval(op.intervalNs));
    RegisteredEntries(s.receivers, op.key, op.receiver);
    EntriesConcat(s.receivers, [info], key, receiver);
    assert [info][1..] == [] && Entries([], key, receiver) == [];
    GridHere(op.nextNs, info.intervalNs);
  }

  lemma StepStands(w: World, op: Op, before: Option<Op>, key: nat, receiver: nat)
    requires NotLate(w) && StandsFor(Entries(w.schedule.receivers, key, receiver), before)
    ensures StandsFor(Entries(Step(w, op).schedule.receivers, key, receiver),
                      NextInForce(before, op, key, receiver))
  {
    var s := w.schedule;
    match op
    case RegisterOp(_, _, _, _) => RegisterStands(s, op, before, key, receiver);
    case UnRegisterOp(k, r) => WithoutEntries(s.receivers, k, r, key, receiver);
    case Dies(_) =>
    case Fires(t) =>
      var alive := Alive(s.receivers, w.dead);
      FiredEntries(s.receivers, t, alive, key, receiver);
      FiredStands(Entries(s.receivers, key, receiver), before, t, alive);
  }

  /** In every run a receiver is registered at most once, exactly while a registration is in force, with
      the rounded interval of that registration and a time on the grid that it asked for. */
  lemma {:induction false} RegistrationsStand(ops: seq<Op>, key: nat, receiver: nat)
    ensures StandsFor(Entries(Run(ops).schedule.receivers, key, receiver), InForce(ops, key, receiver))
  {
    if ops != [] {
      var init := ops[..|ops| - 1];
      RegistrationsStand(init, key, receiver);
      StepStands(Run(init), ops[|ops| - 1], InForce(init, key, receiver), key, receiver);
    }
  }

  // ---------- the object ----------

  /** The places below `n` that are due, in order. */
  function DuePlaces(list: seq<ReceiverInfo>, t: int, n: nat): seq<nat>
    requires n <= |list|
  {
    if n == 0 then []
    else DuePlaces(list, t, n - 1) + (if Due(list[n - 1], t) then [n - 1] else [])
  }

  lemma {:induction false} DuePlacesAre(list: seq<ReceiverInfo>, t: int, n: nat)
    requires n <= |list|
    ensures var r := DuePlaces(list, t, n);
            && (forall i :: 0 <= i < |r| ==> r[i] < n && Due(list[r[i]], t))
            && (forall i, j :: 0 <= i < j < |r| ==> r[i] < r[j])
            && (forall k :: 0 <= k < n && Due(list[k], t) ==> k in r)
  {
    if n > 0 {
      DuePlacesAre(list, t, n - 1);
    }
  }

  lemma {:induction false} WithoutAt(list: seq<ReceiverInfo>, key: nat, receiver: nat, i: nat)
    requires i <= |list| && (i < |list| ==> Same(list[i], key, receiver))
    requires forall j :: 0 <= j < i ==> !Same(list[j], key, receiver)
    ensures Without(list, key, receiver) == if i < |list| then list[..i] + list[i + 1..] else list
  {
    if i > 0 {
      WithoutAt(list[1..], key, receiver, i - 1);
      assert [list[0]] + list[1..][..i - 1] == list[..i];
      if i < |list| {
        assert list[1..][i..] == list[i + 1..];
      }
    }
  }

  /** The places in `done` have been dealt with. */
  predicate Progress(list: seq<ReceiverInfo>, now: seq<ReceiverInfo>, done: seq<nat>, t: int, alive: set<nat>)
    requires Paced(list)
  {
    && |now| == |list|
    && forall i :: 0 <= i < |list| ==> now[i] == if i in done then FiredInfo(list[i], t, alive) else list[i]
  }

  lemma ProgressDone(list: seq<ReceiverInfo>, now: seq<ReceiverInfo>, t: int, alive: set<nat>)
    requires Paced(list) && Progress(list, now, DuePlaces(list, t, |list|), t, alive)
    ensures now == Fired(list, t, alive)
  {
    DuePlacesAre(list, t, |list|);
  }

  /** Each due place comes up once. */
  lemma NextPlace(list: seq<ReceiverInfo>, due: seq<nat>, j: nat, t: int)
    requires due == DuePlaces(list, t, |list|) && j < |due|
    ensures due[j] < |list| && Due(list[due[j]], t) && due[j] !in due[..j] && due[..j + 1] == due[..j] + [due[j]]
  {
    DuePlacesAre(list, t, |list|);
  }

  lemma MoreProgress(list: seq<ReceiverInfo>, now: seq<ReceiverInfo>, done: seq<nat>, i: nat, t: int, alive: set<nat>)
    requires Paced(list) && Progress(list, now, done, t, alive) && i < |list| && i !in done
    ensures now[i] == list[i]
    ensures Progress(list, now[i := FiredInfo(list[i], t, alive)], done + [i], t, alive)
  {
  }

  /** Dealing with one more receiver keeps the earliest time up to date. */
  lemma EarlierOrNot(now: seq<ReceiverInfo>, i: nat, t: int, alive: set<nat>, x: int)
    requires i < |now| && Due(now[i], t) && t < TWO63 && IsEarliest(now, t, x)
    requires now[i].intervalNs >= MIN_INTERVAL_NS && now[i].nextPullTimeNs >= -TWO63
    ensures var info := FiredInfo(now[i], t, alive);
            IsEarliest(now[i := info], t,
                       if now[i].receiver in alive && info.nextPullTimeNs < x then info.nextPullTimeNs else x)
  {
    if now[i].receiver in alive {
      AdvancedIsNext(now[i], t);
      StillEarliest(now, t, x, i, Advanced(now[i], t));
    } else {
      assert now[i := now[i]] == now;
    }
  }

  class StatsPullerManager {
    var receivers: seq<ReceiverInfo>
    var nextPullTimeNs: int

    ghost predicate Valid()
      reads this
    {
      Paced(receivers)
    }

    ghost function State(): Schedule
      reads this
    {
      Schedule(receivers, nextPullTimeNs)
    }

    constructor ()
      ensures Valid() && State() == Schedule([], NO_ALARM_UPDATE)
    {
      receivers, nextPullTimeNs := [], NO_ALARM_UPDATE;
    }

    method RegisterReceiver(key: nat, receiver: nat, nextNs: Int64, intervalNs: int)
      requires Valid()
      modifies this
      ensures Valid() && State() == Register(old(State()), key, receiver, nextNs, intervalNs)
    {
      for i := 0 to |receivers|
        invariant State() == old(State()) && forall j :: 0 <= j < i ==> !Same(receivers[j], key, receiver)
      {
        if receivers[i].key == key && receivers[i].receiver == receiver {
          return;
        }
      }
      receivers := receivers + [ReceiverInfo(key, receiver, nextNs, RoundedInterval(intervalNs))];
      if nextNs < nextPullTimeNs {
        nextPullTimeNs := nextNs;
      }
    }

    method UnRegisterReceiver(key: nat, receiver: nat)
      requires Valid()
      modifies this
      ensures Valid() && State() == old(State()).(receivers := Without(old(receivers), key, receiver))
    {
      for i := 0 to |receivers|
        invariant State() == old(State()) && forall j :: 0 <= j < i ==> !Same(receivers[j], key, receiver)
      {
        if receivers[i].key == key && receivers[i].receiver == receiver {
          WithoutAt(receivers, key, receiver, i);
          receivers := receivers[..i] + receivers[i + 1..];
          return;
        }
      }
      WithoutAt(receivers, key, receiver, |receivers|);
    }

    /** First round: which receivers are due, and the earliest of the others. */
    method Collect(t: int) returns (due: seq<nat>, earliest: int)
      ensures due == DuePlaces(receivers, t, |receivers|) && IsEarliest(receivers, t, earliest)
    {
      due, earliest := [], NO_ALARM_UPDATE;
      for i := 0 to |receivers|
        invariant due == DuePlaces(receivers, t, i) && earliest <= NO_ALARM_UPDATE
        invariant forall j :: 0 <= j < i && !Due(receivers[j], t) ==> earliest <= receivers[j].nextPullTimeNs
        invariant earliest == NO_ALARM_UPDATE ||
                  exists j :: 0 <= j < i && !Due(receivers[j], t) && receivers[j].nextPullTimeNs == earliest
      {
        if receivers[i].nextPullTimeNs <= t {
          due := due + [i];
        } else if receivers[i].nextPullTimeNs < earliest {
          earliest := receivers[i].nextPullTimeNs;
        }
      }
    }

    /** Moves one due receiver past `t` if it is alive. */
    method Reschedule(i: nat, t: Int64, alive: set<nat>, earliest0: int) returns (earliest: int)
      requires i < |receivers| && Due(receivers[i], t)
      requires receivers[i].intervalNs >= MIN_INTERVAL_NS && receivers[i].nextPullTimeNs >= -TWO63
      requires IsEarliest(receivers, t, earliest0)
      modifies this`receivers
      ensures receivers == old(receivers)[i := FiredInfo(old(receivers[i]), t, alive)]
      ensures IsEarliest(receivers, t, earliest)
    {
      EarlierOrNot(receivers, i, t, alive, earliest0);
      earliest := earliest0;
      var info := receivers[i];
      if info.receiver in alive {
        QuotientFits(info, t);
        var numBucketsAhead := (t - info.nextPullTimeNs) / info.intervalNs;
        var next := info.nextPullTimeNs + (numBucketsAhead + 1) * info.intervalNs;
        receivers := receivers[i := info.(nextPullTimeNs := next)];
        if next < earliest {
          earliest := next;
        }
      } else {
        assert receivers[i := info] == receivers;
      }
    }

    /** Pulls for the receivers that are due and moves the live ones past `elapsedTimeNs`. */
    method OnAlarmFired(elapsedTimeNs: Int64, alive: set<nat>)
      requires Valid()
      modifies this
      ensures State() == Fire(old(State()), elapsedTimeNs, alive)
    {
      ghost var list := receivers;
      var due, minNextPullTimeNs := Collect(elapsedTimeNs);
      for j := 0 to |due|
        invariant Progress(list, receivers, due[..j], elapsedTimeNs, alive)
        invariant IsEarliest(receivers, elapsedTimeNs, minNextPullTimeNs)
      {
        NextPlace(list, due, j, elapsedTimeNs);
        MoreProgress(list, receivers, due[..j], due[j], elapsedTimeNs, alive);
        minNextPullTimeNs := Reschedule(due[j], elapsedTimeNs, alive, minNextPullTimeNs);
      }
      assert due[..|due|] == due;
      ProgressDone(list, receivers, elapsedTimeNs, alive);
      EarliestIsEarliest(receivers, elapsedTimeNs);
      EarliestUnique(receivers, elapsedTimeNs, minNextPullTimeNs, EarliestAfter(receivers, elapsedTimeNs));
      nextPullTimeNs := minNextPullTimeNs;
    }
  }

  lemma StillEarliest(list: seq<ReceiverInfo>, t: int, x: int, i: nat, info: ReceiverInfo)
    requires i < |list| && Due(list[i], t) && !Due(info, t) && IsEarliest(list, t, x)
    ensures IsEarliest(list[i := info], t, if info.nextPullTimeNs < x then info.nextPullTimeNs else x)
  {
    var more := list[i := info];
    assert more[i] == info;
    if x != NO_ALARM_UPDATE {
      var j :| 0 <= j < |list| && !Due(list[j], t) && list[j].nextPullTimeNs == x;
      assert more[j] == list[j];
    }
    forall j | 0 <= j < |more| && !Due(more[j], t) && j != i ensures x <= more[j].nextPullTimeNs {
      assert more[j] == list[j];
    }
  }
}
