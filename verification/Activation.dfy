/** Activation of metrics by events, with a time to live, and its save and restore across restarts
    (metrics/MetricProducer.cpp). */
module MetricActivation {
  import opened Options

  datatype ActivationState = NotActive | Active | ActiveOnBoot

  datatype Activation = Activation(ttlNs: int, startNs: int, state: ActivationState, activateOnBoot: bool) {
    function EndNs(): int { ttlNs + startNs }

    /** Active and not past its time to live. */
    predicate LiveAt(t: int) { state == Active && t <= EndNs() }
  }

  /** Activations by matcher index; `deactivations` names the activations an event cancels. */
  datatype Producer = Producer(activations: map<int, Activation>, deactivations: map<int, seq<int>>, isActive: bool)

  predicate SomeActive(m: map<int, Activation>) { exists k :: k in m && m[k].state == Active }

  predicate SomeLive(m: map<int, Activation>, t: int) { exists k :: k in m && m[k].LiveAt(t) }

  function ExpiredOne(a: Activation, t: int): Activation
  {
    if a.state == Active && t > a.EndNs() then a.(state := NotActive) else a
  }

  function Expired(m: map<int, Activation>, t: int): map<int, Activation>
  {
    map k | k in m :: ExpiredOne(m[k], t)
  }

  function FlushIfExpire(p: Producer, t: int): Producer
  {
    if !p.isActive then p
    else p.(activations := Expired(p.activations, t),
            isActive := p.activations == map[] || SomeActive(Expired(p.activations, t)))
  }

  function Activate(p: Producer, k: int, t: int): Producer
  {
    if k !in p.activations then p
    else
      var a := p.activations[k];
      if a.activateOnBoot then
        if a.state == NotActive then p.(activations := p.activations[k := a.(state := ActiveOnBoot)]) else p
      else p.(activations := p.activations[k := a.(startNs := t, state := Active)], isActive := true)
  }

  function Cancelled(m: map<int, Activation>, keys: seq<int>): map<int, Activation>
  {
    map k | k in m :: if k in keys then m[k].(state := NotActive) else m[k]
  }

  function Cancel(p: Producer, k: int): Producer
  {
    if k !in p.deactivations then p else p.(activations := Cancelled(p.activations, p.deactivations[k]))
  }

  // ---------- save and restore ----------

  datatype SavedState = SavedActive | SavedOnBoot

  datatype Saved = Saved(index: int, remainingTtlNs: Option<int>, state: Option<SavedState>)

  datatype DumpReportReason = DEVICE_SHUTDOWN | TERMINATION_SIGNAL_RECEIVED | STATSCOMPANION_DIED | OTHER_REASON

  predicate IsSaved(a: Activation, t: int)
  {
    !(a.state == NotActive || (a.state == Active && a.EndNs() < t))
  }

  function SaveOne(k: int, a: Activation, t: int, reason: DumpReportReason): Saved
  {
    if a.state == Active then Saved(k, Some(a.EndNs() - t), Some(SavedActive))
    else if reason == DEVICE_SHUTDOWN || reason == TERMINATION_SIGNAL_RECEIVED then
      Saved(k, Some(a.ttlNs), Some(SavedActive))
    else if reason == STATSCOMPANION_DIED then Saved(k, None, Some(SavedOnBoot))
    else Saved(k, None, None)
  }

  /** The entries for `m`, in any order, each once. */
  ghost predicate IsSaveOf(entries: seq<Saved>, m: map<int, Activation>, t: int, reason: DumpReportReason)
  {
    && (forall i :: 0 <= i < |entries| ==>
          && entries[i].index in m && IsSaved(m[entries[i].index], t)
          && entries[i] == SaveOne(entries[i].index, m[entries[i].index], t, reason))
    && (forall k :: k in m && IsSaved(m[k], t) ==> SaveOne(k, m[k], t, reason) in entries)
    && (forall i, j :: 0 <= i < j < |entries| ==> entries[i].index != entries[j].index)
  }

  function LoadOne(p: Producer, e: Saved, t: int): Producer
  {
    if e.index !in p.activations then p
    else
      var a := p.activations[e.index];
      if e.state == None || e.state == Some(SavedActive) then
        var remaining := if e.remainingTtlNs.Some? then e.remainingTtlNs.value else 0;
        p.(activations := p.activations[e.index := a.(startNs := t + remaining - a.ttlNs, state := Active)],
           isActive := true)
      else p.(activations := p.activations[e.index := a.(state := ActiveOnBoot)])
  }

  function Load(p: Producer, entries: seq<Saved>, t: int): Producer
  {
    if p.activations == map[] || entries == [] then p
    else LoadOne(Load(p, entries[..|entries| - 1], t), entries[|entries| - 1], t)
  }

  /** The same metric right after start-up. */
  function Fresh(p: Producer): Producer
  {
    p.(activations := map k | k in p.activations :: p.activations[k].(startNs := 0, state := NotActive),
       isActive := p.activations == map[])
  }

  // ---------- an active activation means an active metric ----------

  predicate Inv(p: Producer)
  {
    (p.activations == map[] ==> p.isActive) && (SomeActive(p.activations) ==> p.isActive)
  }

  datatype Op =
    | FlushAt(t: int)
    | ActivateAt(k: int, t: int)
    | CancelBy(k: int)
    | LoadAt(entries: seq<Saved>, t: int)

  function Step(p: Producer, op: Op): Producer
  {
    match op
    case FlushAt(t) => FlushIfExpire(p, t)
    case ActivateAt(k, t) => Activate(p, k, t)
    case CancelBy(k) => Cancel(p, k)
    case LoadAt(entries, t) => Load(p, entries, t)
  }

  function Run(p: Producer, ops: seq<Op>): Producer
  {
    if ops == [] then p else Step(Run(p, ops[..|ops| - 1]), ops[|ops| - 1])
  }

  lemma {:induction false} LoadKeepsInv(p: Producer, entries: seq<Saved>, t: int)
    requires Inv(p)
    ensures Inv(Load(p, entries, t)) && Load(p, entries, t).activations.Keys == p.activations.Keys
    ensures Load(p, entries, t).deactivations == p.deactivations
  {
    if p.activations != map[] && entries != [] {
      LoadKeepsInv(p, entries[..|entries| - 1], t);
      assert Load(p, entries[..|entries| - 1], t).activations.Keys != {};
    }
  }

  lemma CancelKeepsInv(p: Producer, k: int)
    requires Inv(p)
    ensures Inv(Cancel(p, k))
  {
  }

  lemma FlushKeepsInv(p: Producer, t: int)
    requires Inv(p)
    ensures Inv(FlushIfExpire(p, t))
  {
  }

  lemma StepKeepsInv(p: Producer, op: Op)
    requires Inv(p)
    ensures Inv(Step(p, op))
  {
    match op
    case FlushAt(t) => FlushKeepsInv(p, t);
    case ActivateAt(k, t) =>
      var q := Activate(p, k, t);
      assert forall x :: x in q.activations && q.activations[x].state == Active ==>
        q.isActive || (x in p.activations && p.activations[x].state == Active);
    case CancelBy(k) => CancelKeepsInv(p, k);
    case LoadAt(entries, t) => LoadKeepsInv(p, entries, t);
  }

  /** In every reachable state, any active activation makes the metric active. */
  lemma {:induction false} ActiveMeansActive(p: Producer, ops: seq<Op>)
    requires p == Fresh(p)
    ensures Inv(Run(p, ops))
  {
    if ops == [] {
      assert forall k :: k in p.activations ==> Fresh(p).activations[k].state == NotActive;
    } else {
      ActiveMeansActive(p, ops[..|ops| - 1]);
      StepKeepsInv(Run(p, ops[..|ops| - 1]), ops[|ops| - 1]);
    }
  }

  // ---------- what a restored activation is ----------

  function LoadedOne(a: Activation, e: Saved, t: int): Activation
  {
    if e.state == Some(SavedOnBoot) then a.(state := ActiveOnBoot)
    else a.(startNs := t + (if e.remainingTtlNs.Some? then e.remainingTtlNs.value else 0) - a.ttlNs, state := Active)
  }

  lemma LoadOneAt(p: Producer, e: Saved, t: int)
    requires e.index in p.activations
    ensures LoadOne(p, e, t).activations[e.index] == LoadedOne(p.activations[e.index], e, t)
  {
    match e.state
    case None =>
    case Some(SavedActive) =>
    case Some(SavedOnBoot) =>
  }

  predicate Mentions(entries: seq<Saved>, k: int) { exists i :: 0 <= i < |entries| && entries[i].index == k }

  lemma {:induction false} LoadAtKey(p: Producer, entries: seq<Saved>, t: int, k: int, e: Saved)
    requires k in p.activations && e.index == k
    requires forall i :: 0 <= i < |entries| && entries[i].index == k ==> entries[i] == e
    ensures var q := Load(p, entries, t);
            && q.activations.Keys == p.activations.Keys && q.deactivations == p.deactivations
            && q.activations[k] ==
                 (if Mentions(entries, k) then LoadedOne(p.activations[k], e, t) else p.activations[k])
            && (Mentions(entries, k) && e.state != Some(SavedOnBoot) ==> q.isActive)
  {
    if entries != [] {
      var n := |entries| - 1;
      LoadAtKey(p, entries[..n], t, k, e);
      assert Load(p, entries, t) == LoadOne(Load(p, entries[..n], t), entries[n], t);
      assert Mentions(entries, k) <==> Mentions(entries[..n], k) || entries[n].index == k by {
        if i :| 0 <= i < |entries| && entries[i].index == k && i < n { assert entries[..n][i].index == k; }
        if i :| 0 <= i < |entries[..n]| && entries[..n][i].index == k { assert entries[i].index == k; }
      }
      var a := Load(p, entries[..n], t).activations[k];
      if entries[n].index == k {
        LoadOneAt(Load(p, entries[..n], t), e, t);
      } else {
        assert Load(p, entries, t).activations[k] == a;
      }
    }
  }

  /** What save at `t` and load at `t'` into a fresh producer make of one activation. */
  lemma Restored(p: Producer, entries: seq<Saved>, t: int, t': int, reason: DumpReportReason, k: int)
    requires IsSaveOf(entries, p.activations, t, reason) && k in p.activations
    ensures var q := Load(Fresh(p), entries, t');
            var a := p.activations[k];
            && q.activations.Keys == p.activations.Keys && q.deactivations == p.deactivations
            && q.activations[k] ==
                 (if IsSaved(a, t) then LoadedOne(a.(startNs := 0), SaveOne(k, a, t, reason), t')
                  else a.(startNs := 0, state := NotActive))
            && (IsSaved(a, t) && SaveOne(k, a, t, reason).state != Some(SavedOnBoot) ==> q.isActive)
  {
    var a := p.activations[k];
    var e := SaveOne(k, a, t, reason);
    LoadAtKey(Fresh(p), entries, t', k, e);
    if IsSaved(a, t) {
      assert e in entries;
      var i :| 0 <= i < |entries| && entries[i] == e;
      assert entries[i].index == k;
      assert Mentions(entries, k);
    }
  }

  /** Shutting down turns on-boot activations into active ones with their full time to live. */
  lemma ShutdownActivates(p: Producer, entries: seq<Saved>, t: int, t': int, reason: DumpReportReason, k: int, d: nat)
    requires reason == DEVICE_SHUTDOWN || reason == TERMINATION_SIGNAL_RECEIVED
    requires IsSaveOf(entries, p.activations, t, reason) && k in p.activations && p.activations[k].state == ActiveOnBoot
    ensures var q := Load(Fresh(p), entries, t');
            k in q.activations && q.isActive && (q.activations[k].LiveAt(t' + d) <==> d <= p.activations[k].ttlNs)
  {
    Restored(p, entries, t, t', reason, k);
  }

  /** For any other reason an on-boot activation is written without a state, which is read back as
      active with nothing left to live. */
  lemma OtherReasonsActivateForAnInstant(p: Producer, entries: seq<Saved>, t: int, t': int, k: int, d: nat)
    requires IsSaveOf(entries, p.activations, t, OTHER_REASON) && k in p.activations
    requires p.activations[k].state == ActiveOnBoot
    ensures var q := Load(Fresh(p), entries, t');
            k in q.activations && q.isActive && (q.activations[k].LiveAt(t' + d) <==> d == 0)
  {
    Restored(p, entries, t, t', OTHER_REASON, k);
  }

  // ---------- a restart of the companion service goes unnoticed ----------

  /** Alike up to a shift of time: the same activations are alive, with the same time left. */
  predicate AlikeAt(a: Activation, b: Activation, t: int, shift: int)
  {
    && a.ttlNs == b.ttlNs && a.activateOnBoot == b.activateOnBoot
    && (a.LiveAt(t) <==> b.LiveAt(t + shift))
    && (a.LiveAt(t) ==> b.startNs == a.startNs + shift)
  }

  predicate Alike(p: Producer, q: Producer, t: int, shift: int)
  {
    && Inv(p) && Inv(q)
    && p.activations.Keys == q.activations.Keys && p.deactivations == q.deactivations
    && forall k :: k in p.activations ==> AlikeAt(p.activations[k], q.activations[k], t, shift)
  }

  lemma RestoredAlike(p: Producer, entries: seq<Saved>, t: int, t': int)
    requires Inv(p) && IsSaveOf(entries, p.activations, t, STATSCOMPANION_DIED)
    ensures Alike(p, Load(Fresh(p), entries, t'), t, t' - t)
  {
    var q := Load(Fresh(p), entries, t');
    assert Fresh(p).activations.Keys == p.activations.Keys;
    LoadKeepsInv(Fresh(p), entries, t');
    forall k | k in p.activations ensures AlikeAt(p.activations[k], q.activations[k], t, t' - t) {
      Restored(p, entries, t, t', STATSCOMPANION_DIED, k);
    }
  }

  lemma AlikeLater(p: Producer, q: Producer, t: int, x: int, shift: int)
    requires Alike(p, q, t, shift) && t <= x
    ensures Alike(p, q, x, shift)
  {
  }

  function Shifted(op: Op, shift: int): Op
  {
    match op
    case FlushAt(t) => FlushAt(t + shift)
    case ActivateAt(k, t) => ActivateAt(k, t + shift)
    case CancelBy(k) => CancelBy(k)
    case LoadAt(entries, t) => LoadAt(entries, t + shift)
  }

  function ShiftedAll(ops: seq<Op>, shift: int): (r: seq<Op>)
    ensures |r| == |ops|
  {
    seq(|ops|, i requires 0 <= i < |ops| => Shifted(ops[i], shift))
  }

  lemma FlushStaysAlike(p: Producer, q: Producer, t: int, shift: int)
    requires Alike(p, q, t, shift)
    ensures Alike(FlushIfExpire(p, t), FlushIfExpire(q, t + shift), t, shift)
  {
  }

  lemma ActivateStaysAlike(p: Producer, q: Producer, k: int, t: int, shift: int)
    requires Alike(p, q, t, shift)
    ensures Alike(Activate(p, k, t), Activate(q, k, t + shift), t, shift)
  {
  }

  lemma CancelStaysAlike(p: Producer, q: Producer, k: int, t: int, shift: int)
    requires Alike(p, q, t, shift)
    ensures Alike(Cancel(p, k), Cancel(q, k), t, shift)
  {
  }

  /** Flushing tells whether anything is alive. */
  lemma ActivityIsLife(p: Producer, t: int)
    requires Inv(p)
    ensures FlushIfExpire(p, t).isActive <==> p.activations == map[] || SomeLive(p.activations, t)
  {
    if k :| k in p.activations && p.activations[k].LiveAt(t) {
      assert p.activations[k].state == Active;
      assert Expired(p.activations, t)[k].state == Active;
    }
    if k :| k in Expired(p.activations, t) && Expired(p.activations, t)[k].state == Active {
      assert p.activations[k].LiveAt(t);
    }
  }

  lemma AlikeActivity(p: Producer, q: Producer, t: int, shift: int)
    requires Alike(p, q, t, shift)
    ensures FlushIfExpire(p, t).isActive == FlushIfExpire(q, t + shift).isActive
  {
  }

  /** The operations happen in order of time, between `t` and `x`, and none is a load. */
  predicate InOrder(ops: seq<Op>, t: int, x: int)
  {
    if ops == [] then t <= x
    else
      var init, op := ops[..|ops| - 1], ops[|ops| - 1];
      match op
      case LoadAt(_, _) => false
      case CancelBy(_) => InOrder(init, t, x)
      case _ => op.t <= x && InOrder(init, t, op.t)
  }

  /** A step at time `t`, or a cancellation, which has no time of its own. */
  lemma StepStaysAlike(p: Producer, q: Producer, op: Op, t: int, shift: int)
    requires Alike(p, q, t, shift) && !op.LoadAt? && (!op.CancelBy? ==> op.t == t)
    ensures Alike(Step(p, op), Step(q, Shifted(op, shift)), t, shift)
  {
    match op
    case FlushAt(_) => FlushStaysAlike(p, q, t, shift);
    case ActivateAt(k, _) => ActivateStaysAlike(p, q, k, t, shift);
    case CancelBy(k) => CancelStaysAlike(p, q, k, t, shift);
  }

  lemma ShiftedLast(ops: seq<Op>, shift: int)
    requires ops != []
    ensures var n := |ops| - 1;
            && ShiftedAll(ops, shift)[..n] == ShiftedAll(ops[..n], shift)
            && ShiftedAll(ops, shift)[n] == Shifted(ops[n], shift)
  {
  }

  lemma {:induction false} RunStaysAlike(p: Producer, q: Producer, ops: seq<Op>, t: int, x: int, shift: int)
    requires Alike(p, q, t, shift) && InOrder(ops, t, x)
    ensures Alike(Run(p, ops), Run(q, ShiftedAll(ops, shift)), x, shift)
    decreases |ops|
  {
    if ops == [] {
      AlikeLater(p, q, t, x, shift);
    } else {
      var init, op := ops[..|ops| - 1], ops[|ops| - 1];
      var y := if op.CancelBy? then x else op.t;
      var p1, q1 := Run(p, init), Run(q, ShiftedAll(init, shift));
      ShiftedLast(ops, shift);
      RunStaysAlike(p, q, init, t, y, shift);
      StepStaysAlike(p1, q1, op, y, shift);
      AlikeLater(Step(p1, op), Step(q1, Shifted(op, shift)), y, x, shift);
    }
  }

  /** Saving at `t` when the companion service dies and loading at `t'` into a fresh producer: from
      then on, whatever flushes, activations and cancellations follow, the restored metric is active
      exactly when the original would have been, at the same distance in time. */
  lemma RestartIsInvisible(p: Producer, entries: seq<Saved>, t: int, t': int, ops: seq<Op>, x: int)
    requires Inv(p) && IsSaveOf(entries, p.activations, t, STATSCOMPANION_DIED) && InOrder(ops, t, x)
    ensures FlushIfExpire(Run(p, ops), x).isActive
         == FlushIfExpire(Run(Load(Fresh(p), entries, t'), ShiftedAll(ops, t' - t)), x + (t' - t)).isActive
  {
    var q := Load(Fresh(p), entries, t');
    RestoredAlike(p, entries, t, t');
    RunStaysAlike(p, q, ops, t, x, t' - t);
    AlikeActivity(Run(p, ops), Run(q, ShiftedAll(ops, t' - t)), x, t' - t);
  }

  // ---------- how long a metric is active, from what happened alone ----------

  /** An activation that takes effect at once. */
  predicate Immediate(p: Producer, k: int) { k in p.activations && !p.activations[k].activateOnBoot }

  /** The operation cancels activation `k`. */
  predicate Cancels(p: Producer, op: Op, k: int)
  {
    op.CancelBy? && op.k in p.deactivations && k in p.deactivations[op.k]
  }

  /** The operation activates `k`, and its time to live covers `x`. */
  predicate Covers(p: Producer, op: Op, k: int, x: int)
  {
    op.ActivateAt? && op.k == k && Immediate(p, k) && op.t <= x <= op.t + p.activations[k].ttlNs
  }

  /** Operation `i` activates `k` for a time that covers `x`, and nothing after it cancels `k`. */
  predicate LastsUntil(p: Producer, ops: seq<Op>, i: nat, k: int, x: int)
  {
    i < |ops| && Covers(p, ops[i], k, x) && forall j :: i < j < |ops| ==> !Cancels(p, ops[j], k)
  }

  ghost predicate Lasts(p: Producer, ops: seq<Op>, k: int, x: int) { exists i: nat :: LastsUntil(p, ops, i, k, x) }

  lemma LastsMore(p: Producer, ops: seq<Op>, op: Op, k: int, x: int)
    ensures Lasts(p, ops + [op], k, x) <==> Covers(p, op, k, x) || (Lasts(p, ops, k, x) && !Cancels(p, op, k))
  {
    var more, n := ops + [op], |ops|;
    assert more[n] == op;
    if Lasts(p, more, k, x) {
      var i: nat :| LastsUntil(p, more, i, k, x);
      if i < n {
        assert !Cancels(p, more[n], k) && ops[i] == more[i];
        forall j | i < j < n ensures !Cancels(p, ops[j], k) { assert ops[j] == more[j]; }
        assert LastsUntil(p, ops, i, k, x);
      }
    }
    if Covers(p, op, k, x) {
      assert LastsUntil(p, more, n, k, x);
    } else if Lasts(p, ops, k, x) && !Cancels(p, op, k) {
      var i: nat :| LastsUntil(p, ops, i, k, x);
      assert LastsUntil(p, more, i, k, x);
    }
  }

  /** What a run without loads never changes. */
  predicate SameConfig(p: Producer, q: Producer)
  {
    && q.activations.Keys == p.activations.Keys && q.deactivations == p.deactivations
    && forall k :: k in p.activations ==>
         q.activations[k].ttlNs == p.activations[k].ttlNs
         && q.activations[k].activateOnBoot == p.activations[k].activateOnBoot
  }

  /** An on-boot activation is never active in such a run. */
  predicate OnBootWaits(p: Producer)
  {
    forall k :: k in p.activations && p.activations[k].activateOnBoot ==> p.activations[k].state != Active
  }

  lemma StepKeepsConfig(p: Producer, q: Producer, op: Op)
    requires SameConfig(p, q) && OnBootWaits(q) && !op.LoadAt?
    ensures SameConfig(p, Step(q, op)) && OnBootWaits(Step(q, op))
  {
  }

  lemma {:induction false} RunKeepsConfig(p: Producer, ops: seq<Op>, t: int, x: int)
    requires OnBootWaits(p) && InOrder(ops, t, x)
    ensures SameConfig(p, Run(p, ops)) && OnBootWaits(Run(p, ops))
    decreases |ops|
  {
    if ops != [] {
      var init, op := ops[..|ops| - 1], ops[|ops| - 1];
      RunKeepsConfig(p, init, t, if op.CancelBy? then x else op.t);
      StepKeepsConfig(p, Run(p, init), op);
    }
  }

  /** Nothing that lasted until `x` was started after `y`, when the run ended at `y`. */
  lemma {:induction false} LastsSince(p: Producer, ops: seq<Op>, t: int, y: int, k: int, x: int)
    requires InOrder(ops, t, y) && Lasts(p, ops, k, x)
    ensures Immediate(p, k) && x <= y + p.activations[k].ttlNs
    decreases |ops|
  {
    var i: nat :| LastsUntil(p, ops, i, k, x);
    TimesUpTo(ops, t, y, i);
  }

  lemma {:induction false} TimesUpTo(ops: seq<Op>, t: int, x: int, i: nat)
    requires InOrder(ops, t, x) && i < |ops| && ops[i].ActivateAt?
    ensures ops[i].t <= x
    decreases |ops|
  {
    var init, op := ops[..|ops| - 1], ops[|ops| - 1];
    if i < |init| {
      assert init[i] == ops[i];
      TimesUpTo(init, t, if op.CancelBy? then x else op.t, i);
    }
  }

  /** One step, for one activation that so far is alive at `x` exactly when it lasts. */
  lemma StepLife(p: Producer, q: Producer, op: Op, k: int, x: int, lasts: bool)
    requires SameConfig(p, q) && OnBootWaits(q) && Inv(q) && k in p.activations
    requires !op.LoadAt? && (!op.CancelBy? ==> op.t <= x)
    requires q.activations[k].LiveAt(x) <==> lasts
    requires op.ActivateAt? && lasts ==> Immediate(p, k) && x <= op.t + p.activations[k].ttlNs
    ensures Step(q, op).activations[k].LiveAt(x) <==> Covers(p, op, k, x) || (lasts && !Cancels(p, op, k))
  {
    match op
    case FlushAt(y) => assert !q.isActive ==> q.activations[k].state != Active;
    case ActivateAt(l, y) =>
    case CancelBy(d) =>
  }

  /** An activation is alive at `x` exactly when it was activated, for long enough, and not
      cancelled since. */
  lemma {:induction false} LifeOf(p: Producer, ops: seq<Op>, t: int, x: int, y: int, k: int)
    requires p == Fresh(p) && InOrder(ops, t, y) && y <= x && k in p.activations
    ensures SameConfig(p, Run(p, ops)) && (Run(p, ops).activations[k].LiveAt(x) <==> Lasts(p, ops, k, x))
    decreases |ops|
  {
    FreshWaits(p);
    RunKeepsConfig(p, ops, t, y);
    if ops == [] {
      assert Fresh(p).activations[k].state == NotActive;
    } else {
      var init, op := ops[..|ops| - 1], ops[|ops| - 1];
      var z := if op.CancelBy? then y else op.t;
      assert ops == init + [op];
      LifeOf(p, init, t, x, z, k);
      RunKeepsConfig(p, init, t, z);
      ActiveMeansActive(p, init);
      if Lasts(p, init, k, x) { LastsSince(p, init, t, z, k, x); }
      StepLife(p, Run(p, init), op, k, x, Lasts(p, init, k, x));
      LastsMore(p, init, op, k, x);
    }
  }

  lemma FreshWaits(p: Producer)
    requires p == Fresh(p)
    ensures OnBootWaits(p)
  {
    forall k | k in p.activations ensures p.activations[k].state == NotActive {
      assert Fresh(p).activations[k].state == NotActive;
    }
  }

  lemma {:induction false} SomeLasts(p: Producer, ops: seq<Op>, t: int, x: int)
    requires p == Fresh(p) && InOrder(ops, t, x)
    ensures SomeLive(Run(p, ops).activations, x) <==> exists k :: Lasts(p, ops, k, x)
  {
    var q := Run(p, ops);
    FreshWaits(p);
    RunKeepsConfig(p, ops, t, x);
    forall k ensures k in q.activations && q.activations[k].LiveAt(x) <==> Lasts(p, ops, k, x) {
      if k in p.activations { LifeOf(p, ops, t, x, x, k); } else { NoSuchActivation(p, ops, k, x); }
    }
  }

  lemma SameEmptiness(m: map<int, Activation>, n: map<int, Activation>)
    requires m.Keys == n.Keys
    ensures m == map[] <==> n == map[]
  {
    assert m == map[] <==> m.Keys == {};
    assert n == map[] <==> n.Keys == {};
  }

  /** From start-up on, whatever happens in order of time: after a flush at `x` the metric is active
      exactly when it has no activations, or when an activation that takes effect at once was made
      within its time to live before `x` and not cancelled since. */
  lemma {:induction false} ActiveIffActivated(p: Producer, ops: seq<Op>, t: int, x: int)
    requires p == Fresh(p) && InOrder(ops, t, x)
    ensures FlushIfExpire(Run(p, ops), x).isActive <==> p.activations == map[] || exists k :: Lasts(p, ops, k, x)
  {
    FreshWaits(p);
    RunKeepsConfig(p, ops, t, x);
    ActiveMeansActive(p, ops);
    ActivityIsLife(Run(p, ops), x);
    SameEmptiness(p.activations, Run(p, ops).activations);
    SomeLasts(p, ops, t, x);
  }

  lemma NoSuchActivation(p: Producer, ops: seq<Op>, k: int, x: int)
    requires k !in p.activations
    ensures !Lasts(p, ops, k, x)
  {
  }

  /** Arming an on-boot activation and shutting down: after the next start it is alive for its whole
      time to live, and not a moment longer. */
  lemma ArmedThenBooted(p: Producer, k: int, t: int, entries: seq<Saved>, x: int, t': int, d: nat)
    requires p == Fresh(p) && k in p.activations && p.activations[k].activateOnBoot
    requires IsSaveOf(entries, Activate(p, k, t).activations, x, DEVICE_SHUTDOWN)
    ensures var q := Load(Fresh(Activate(p, k, t)), entries, t');
            k in q.activations && q.isActive && (q.activations[k].LiveAt(t' + d) <==> d <= p.activations[k].ttlNs)
  {
    assert Fresh(p).activations[k].state == NotActive;
    ShutdownActivates(Activate(p, k, t), entries, x, t', DEVICE_SHUTDOWN, k, d);
  }

  // ---------- after one flush the restart has left no trace at all ----------

  /** Equal up to a shift of time; the start of what is not active does not matter. */
  predicate SameAt(a: Activation, b: Activation, shift: int)
  {
    && a.ttlNs == b.ttlNs && a.activateOnBoot == b.activateOnBoot && a.state == b.state
    && (a.state == Active ==> b.startNs == a.startNs + shift)
  }

  predicate Same(p: Producer, q: Producer, shift: int)
  {
    && Inv(p) && Inv(q) && p.isActive == q.isActive
    && p.activations.Keys == q.activations.Keys && p.deactivations == q.deactivations
    && forall k :: k in p.activations ==> SameAt(p.activations[k], q.activations[k], shift)
  }

  /** The same activations wait for the next boot. */
  predicate SameOnBoot(p: Producer, q: Producer)
  {
    p.activations.Keys == q.activations.Keys && forall k :: k in p.activations ==>
      (p.activations[k].state == ActiveOnBoot <==> q.activations[k].state == ActiveOnBoot)
  }

  lemma RestoredOnBoot(p: Producer, entries: seq<Saved>, t: int, t': int)
    requires IsSaveOf(entries, p.activations, t, STATSCOMPANION_DIED)
    ensures SameOnBoot(p, Load(Fresh(p), entries, t'))
  {
    var q := Load(Fresh(p), entries, t');
    LoadKeepsKeys(Fresh(p), entries, t');
    forall k | k in p.activations
      ensures p.activations[k].state == ActiveOnBoot <==> q.activations[k].state == ActiveOnBoot
    {
      Restored(p, entries, t, t', STATSCOMPANION_DIED, k);
    }
  }

  lemma {:induction false} LoadKeepsKeys(p: Producer, entries: seq<Saved>, t: int)
    ensures Load(p, entries, t).activations.Keys == p.activations.Keys
  {
    if p.activations != map[] && entries != [] {
      LoadKeepsKeys(p, entries[..|entries| - 1], t);
    }
  }

  /** What flushing makes of one activation, whether or not the metric was active. */
  lemma FlushedOne(p: Producer, t: int, k: int)
    requires Inv(p) && k in p.activations
    ensures var a, b := p.activations[k], FlushIfExpire(p, t).activations[k];
            && b.ttlNs == a.ttlNs && b.startNs == a.startNs && b.activateOnBoot == a.activateOnBoot
            && (b.state == Active <==> a.LiveAt(t)) && (b.state == ActiveOnBoot <==> a.state == ActiveOnBoot)
  {
    assert !p.isActive ==> p.activations[k].state != Active;
  }

  lemma FlushKeepsShape(p: Producer, t: int)
    ensures FlushIfExpire(p, t).activations.Keys == p.activations.Keys
    ensures FlushIfExpire(p, t).deactivations == p.deactivations
  {
  }

  lemma FlushMakesSame(p: Producer, q: Producer, t: int, shift: int)
    requires Alike(p, q, t, shift) && SameOnBoot(p, q)
    ensures Same(FlushIfExpire(p, t), FlushIfExpire(q, t + shift), shift)
  {
    var p1, q1 := FlushIfExpire(p, t), FlushIfExpire(q, t + shift);
    FlushKeepsInv(p, t);
    FlushKeepsInv(q, t + shift);
    FlushKeepsShape(p, t);
    FlushKeepsShape(q, t + shift);
    forall k | k in p1.activations ensures SameAt(p1.activations[k], q1.activations[k], shift) {
      FlushedOne(p, t, k);
      FlushedOne(q, t + shift, k);
      assert AlikeAt(p.activations[k], q.activations[k], t, shift);
    }
    AlikeActivity(p, q, t, shift);
  }

  lemma SameIsAlike(p: Producer, q: Producer, t: int, shift: int)
    requires Same(p, q, shift)
    ensures Alike(p, q, t, shift) && SameOnBoot(p, q)
  {
  }

  lemma ActivateStaysSame(p: Producer, q: Producer, k: int, t: int, shift: int)
    requires Same(p, q, shift)
    ensures Same(Activate(p, k, t), Activate(q, k, t + shift), shift)
  {
    StepKeepsInv(p, ActivateAt(k, t));
    StepKeepsInv(q, ActivateAt(k, t + shift));
    if k in p.activations {
      assert SameAt(p.activations[k], q.activations[k], shift);
    }
  }

  lemma CancelStaysSame(p: Producer, q: Producer, k: int, shift: int)
    requires Same(p, q, shift)
    ensures Same(Cancel(p, k), Cancel(q, k), shift)
  {
    CancelKeepsInv(p, k);
    CancelKeepsInv(q, k);
  }

  lemma LoadOneStaysSame(p: Producer, q: Producer, e: Saved, t: int, shift: int)
    requires Same(p, q, shift) && Inv(LoadOne(p, e, t)) && Inv(LoadOne(q, e, t + shift))
    ensures Same(LoadOne(p, e, t), LoadOne(q, e, t + shift), shift)
  {
    if e.index in p.activations {
      assert SameAt(p.activations[e.index], q.activations[e.index], shift);
    }
  }

  lemma {:induction false} LoadStaysSame(p: Producer, q: Producer, entries: seq<Saved>, t: int, shift: int)
    requires Same(p, q, shift)
    ensures Same(Load(p, entries, t), Load(q, entries, t + shift), shift)
  {
    SameEmptiness(p.activations, q.activations);
    if p.activations != map[] && entries != [] {
      var n := |entries| - 1;
      LoadKeepsInv(p, entries, t);
      LoadKeepsInv(q, entries, t + shift);
      LoadStaysSame(p, q, entries[..n], t, shift);
      LoadOneStaysSame(Load(p, entries[..n], t), Load(q, entries[..n], t + shift), entries[n], t, shift);
    }
  }

  lemma StepStaysSame(p: Producer, q: Producer, op: Op, shift: int)
    requires Same(p, q, shift)
    ensures Same(Step(p, op), Step(q, Shifted(op, shift)), shift)
  {
    match op
    case FlushAt(t) =>
      SameIsAlike(p, q, t, shift);
      FlushMakesSame(p, q, t, shift);
    case ActivateAt(k, t) => ActivateStaysSame(p, q, k, t, shift);
    case CancelBy(k) => CancelStaysSame(p, q, k, shift);
    case LoadAt(entries, t) => LoadStaysSame(p, q, entries, t, shift);
  }

  lemma {:induction false} RunStaysSame(p: Producer, q: Producer, ops: seq<Op>, shift: int)
    requires Same(p, q, shift)
    ensures Same(Run(p, ops), Run(q, ShiftedAll(ops, shift)), shift)
  {
    if ops != [] {
      var init, op := ops[..|ops| - 1], ops[|ops| - 1];
      ShiftedLast(ops, shift);
      RunStaysSame(p, q, init, shift);
      StepStaysSame(Run(p, init), Run(q, ShiftedAll(init, shift)), op, shift);
    }
  }

  lemma SameSaves(p: Producer, q: Producer, shift: int, saved: seq<Saved>, x: int, reason: DumpReportReason)
    requires Same(p, q, shift)
    ensures IsSaveOf(saved, p.activations, x, reason) <==> IsSaveOf(saved, q.activations, x + shift, reason)
  {
    forall k | k in p.activations
      ensures IsSaved(p.activations[k], x) <==> IsSaved(q.activations[k], x + shift)
      ensures IsSaved(p.activations[k], x) ==>
        SaveOne(k, p.activations[k], x, reason) == SaveOne(k, q.activations[k], x + shift, reason)
    {
      assert SameAt(p.activations[k], q.activations[k], shift);
    }
  }

  /** Both are active or neither is, and a save at any time and for any reason writes the same. */
  ghost predicate Indistinguishable(p: Producer, q: Producer, shift: int)
  {
    && p.isActive == q.isActive
    && forall saved, x, reason ::
         IsSaveOf(saved, p.activations, x, reason) <==> IsSaveOf(saved, q.activations, x + shift, reason)
  }

  predicate Twins(p: Producer, q: Producer, t: int, shift: int) { Alike(p, q, t, shift) && SameOnBoot(p, q) }

  lemma RestoredTwins(p: Producer, q: Producer, entries: seq<Saved>, t: int, t': int)
    requires Inv(p) && IsSaveOf(entries, p.activations, t, STATSCOMPANION_DIED) && q == Load(Fresh(p), entries, t')
    ensures Twins(p, q, t, t' - t)
  {
    RestoredAlike(p, entries, t, t');
    RestoredOnBoot(p, entries, t, t');
  }

  lemma FlushedThenRun(p: Producer, q: Producer, t: int, y: int, shift: int, ops: seq<Op>)
    requires Twins(p, q, t, shift) && t <= y
    ensures Indistinguishable(Run(FlushIfExpire(p, y), ops),
                              Run(FlushIfExpire(q, y + shift), ShiftedAll(ops, shift)), shift)
  {
    AlikeLater(p, q, t, y, shift);
    FlushMakesSame(p, q, y, shift);
    RunSaves(FlushIfExpire(p, y), FlushIfExpire(q, y + shift), shift, ops);
  }

  lemma RunSaves(p: Producer, q: Producer, shift: int, ops: seq<Op>)
    requires Same(p, q, shift)
    ensures Indistinguishable(Run(p, ops), Run(q, ShiftedAll(ops, shift)), shift)
  {
    var p1, q1 := Run(p, ops), Run(q, ShiftedAll(ops, shift));
    RunStaysSame(p, q, ops, shift);
    forall saved, x, reason
      ensures IsSaveOf(saved, p1.activations, x, reason) <==> IsSaveOf(saved, q1.activations, x + shift, reason)
    {
      SameSaves(p1, q1, shift, saved, x, reason);
    }
  }

  /** As soon as both were flushed once, which every log event does first, the restored metric and
      the original cannot be told apart, up to the shift in time, whatever follows, loads included. */
  lemma {:induction false} RestartIsForgotten(p: Producer, entries: seq<Saved>, t: int, t': int, y: int, ops: seq<Op>)
    requires Inv(p) && IsSaveOf(entries, p.activations, t, STATSCOMPANION_DIED) && t <= y
    ensures var shift := t' - t;
            Indistinguishable(Run(FlushIfExpire(p, y), ops),
                              Run(FlushIfExpire(Load(Fresh(p), entries, t'), y + shift), ShiftedAll(ops, shift)), shift)
  {
    var q := Load(Fresh(p), entries, t');
    RestoredTwins(p, q, entries, t, t');
    FlushedThenRun(p, q, t, y, t' - t, ops);
  }

  /** Without that flush it can differ: an on-boot activation that has expired unnoticed is not
      saved, so it is armed again in the restored metric, but not in the original. */
  lemma ArmedAgainUnflushed(p: Producer, entries: seq<Saved>, t: int, t': int, k: int, y: int)
    requires IsSaveOf(entries, p.activations, t, STATSCOMPANION_DIED) && k in p.activations
    requires p.activations[k].activateOnBoot && p.activations[k].state == Active && p.activations[k].EndNs() < t
    ensures Activate(p, k, y) == p
    ensures var q := Activate(Load(Fresh(p), entries, t'), k, y + (t' - t));
            k in q.activations && q.activations[k].state == ActiveOnBoot
  {
    Restored(p, entries, t, t', STATSCOMPANION_DIED, k);
  }

  // ---------- the object ----------

  lemma SomeElement(s: set<int>)
    requires s != {}
    ensures exists k :: k in s
  {
    assert (forall k :: k !in s) ==> s == {};
  }

  /** The activations in `todo` are still to be looked at. */
  function ExpiredPart(m: map<int, Activation>, t: int, todo: set<int>): map<int, Activation>
  {
    map k | k in m :: if k in todo then m[k] else ExpiredOne(m[k], t)
  }

  /** The activations that were looked at. */
  function Seen(m: map<int, Activation>, todo: set<int>): map<int, Activation>
  {
    map k | k in m && k !in todo :: m[k]
  }

  /** An activation that is not saved changes nothing. */
  lemma SaveSkip(entries: seq<Saved>, m: map<int, Activation>, n: map<int, Activation>, k: int, t: int,
                 reason: DumpReportReason)
    requires IsSaveOf(entries, m, t, reason) && k !in m && k in n && n == m[k := n[k]] && !IsSaved(n[k], t)
    ensures IsSaveOf(entries, n, t, reason)
  {
  }

  lemma SaveAdd(entries: seq<Saved>, m: map<int, Activation>, n: map<int, Activation>, k: int, t: int,
                reason: DumpReportReason)
    requires IsSaveOf(entries, m, t, reason) && k !in m && k in n && n == m[k := n[k]] && IsSaved(n[k], t)
    ensures IsSaveOf(entries + [SaveOne(k, n[k], t, reason)], n, t, reason)
  {
    var e := SaveOne(k, n[k], t, reason);
    var more := entries + [e];
    forall l | l in n && IsSaved(n[l], t) ensures SaveOne(l, n[l], t, reason) in more {
      if l == k { assert more[|entries|] == e; } else { assert SaveOne(l, m[l], t, reason) in entries; }
    }
  }

  lemma SaveMore(entries: seq<Saved>, m: map<int, Activation>, todo: set<int>, k: int, t: int, reason: DumpReportReason)
    requires k in todo && k in m && IsSaveOf(entries, Seen(m, todo), t, reason)
    ensures IsSaveOf(if IsSaved(m[k], t) then entries + [SaveOne(k, m[k], t, reason)] else entries,
                     Seen(m, todo - {k}), t, reason)
  {
    var seen, n := Seen(m, todo), Seen(m, todo - {k});
    assert n == seen[k := m[k]];
    if IsSaved(m[k], t) { SaveAdd(entries, seen, n, k, t, reason); } else { SaveSkip(entries, seen, n, k, t, reason); }
  }

  class ActivatedMetric {
    var eventActivations: map<int, Activation>
    const eventDeactivations: map<int, seq<int>>
    var isActive: bool

    ghost function State(): Producer
      reads this
    {
      Producer(eventActivations, eventDeactivations, isActive)
    }

    constructor (activations: map<int, Activation>, deactivations: map<int, seq<int>>)
      ensures State() == Fresh(Producer(activations, deactivations, isActive))
    {
      eventActivations := map k | k in activations :: activations[k].(startNs := 0, state := NotActive);
      eventDeactivations := deactivations;
      isActive := activations == map[];
    }

    method EvaluateActiveState(t: int) returns (active: bool)
      modifies this`eventActivations
      ensures eventActivations == Expired(old(eventActivations), t)
      ensures active <==> eventActivations == map[] || SomeActive(eventActivations)
    {
      active := eventActivations == map[];
      ghost var m := eventActivations;
      var todo := eventActivations.Keys;
      while todo != {}
        invariant todo <= m.Keys && eventActivations == ExpiredPart(m, t, todo)
        invariant active <==> m == map[] || exists k :: k in m && k !in todo && ExpiredOne(m[k], t).state == Active
      {
        SomeElement(todo);
        var k :| k in todo;
        var a := eventActivations[k];
        if a.state == Active && t > a.ttlNs + a.startNs {
          a := a.(state := NotActive);
          eventActivations := eventActivations[k := a];
        }
        if a.state == Active {
          active := true;
        }
        assert eventActivations == ExpiredPart(m, t, todo - {k});
        todo := todo - {k};
      }
      assert eventActivations.Keys == m.Keys;
    }

    method FlushExpired(t: int)
      modifies this
      ensures State() == FlushIfExpire(old(State()), t)
    {
      if !isActive {
        return;
      }
      isActive := EvaluateActiveState(t);
      assert eventActivations.Keys == old(eventActivations.Keys);
    }

    method ActivateBy(k: int, t: int)
      modifies this
      ensures State() == Activate(old(State()), k, t)
    {
      if k !in eventActivations {
        return;
      }
      var a := eventActivations[k];
      if a.activateOnBoot {
        if a.state == NotActive {
          eventActivations := eventActivations[k := a.(state := ActiveOnBoot)];
        }
        return;
      }
      eventActivations := eventActivations[k := a.(startNs := t, state := Active)];
      isActive := true;
    }

    /** The events of `deactivations` only name activations of this metric. */
    method CancelEventActivation(k: int)
      requires k in eventDeactivations ==>
        forall i :: 0 <= i < |eventDeactivations[k]| ==> eventDeactivations[k][i] in eventActivations
      modifies this
      ensures State() == Cancel(old(State()), k)
    {
      if k !in eventDeactivations {
        return;
      }
      var keys := eventDeactivations[k];
      for i := 0 to |keys|
        invariant eventActivations == Cancelled(old(eventActivations), keys[..i]) && isActive == old(isActive)
      {
        assert keys[..i + 1] == keys[..i] + [keys[i]];
        eventActivations := eventActivations[keys[i] := eventActivations[keys[i]].(state := NotActive)];
      }
      assert keys[..|keys|] == keys;
    }

    method LoadActiveMetric(entries: seq<Saved>, t: int)
      modifies this
      ensures State() == Load(old(State()), entries, t)
    {
      if |eventActivations| == 0 {
        return;
      }
      for i := 0 to |entries|
        invariant State() == Load(old(State()), entries[..i], t)
      {
        var e := entries[i];
        assert entries[..i + 1][..i] == entries[..i];
        if e.index !in eventActivations {
          continue;
        }
        var a := eventActivations[e.index];
        if e.state.None? || e.state.value == SavedActive {
          var remaining := if e.remainingTtlNs.Some? then e.remainingTtlNs.value else 0;
          eventActivations := eventActivations[e.index := a.(startNs := t + remaining - a.ttlNs, state := Active)];
          isActive := true;
        } else {
          eventActivations := eventActivations[e.index := a.(state := ActiveOnBoot)];
        }
      }
      assert entries[..|entries|] == entries;
    }

    method SaveActiveMetric(t: int, reason: DumpReportReason) returns (entries: seq<Saved>)
      ensures IsSaveOf(entries, eventActivations, t, reason)
    {
      entries := [];
      var todo := eventActivations.Keys;
      while todo != {}
        invariant todo <= eventActivations.Keys
        invariant IsSaveOf(entries, Seen(eventActivations, todo), t, reason)
      {
        SomeElement(todo);
        var k :| k in todo;
        var a := eventActivations[k];
        SaveMore(entries, eventActivations, todo, k, t, reason);
        todo := todo - {k};
        if !(a.state == NotActive || (a.state == Active && a.startNs + a.ttlNs < t)) {
          entries := entries + [SaveOne(k, a, t, reason)];
        }
      }
      assert Seen(eventActivations, todo) == eventActivations;
    }
  }
}
