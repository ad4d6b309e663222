/** A condition started and stopped by events, per dimension key
    (condition/SimpleConditionTracker.cpp). */
module SimpleCondition {
  import opened Options
  import opened Limits
  import opened FieldPath
  import opened Dimensions
  import opened FieldMatch
  import opened ConditionLogic
  import opened MatcherDag

  type DimKey = HashableDimensionKey

  /** `dimensions` are the output dimensions; a tracker with some is sliced. */
  datatype Config = Config(countNesting: bool, dimensions: seq<Matcher>, hasAny: bool,
                           start: Option<nat>, stop: Option<nat>, stopAll: Option<nat>) {
    predicate Sliced() { |dimensions| > 0 }
  }

  /** `counts` holds the number of starts per key; `initial` is the state of keys it does not hold. */
  datatype Tracker = Tracker(initial: ConditionState, counts: map<DimKey, nat>, toTrue: set<DimKey>,
                             toFalse: set<DimKey>)

  datatype Outcome = Outcome(tracker: Tracker, state: ConditionState, changed: bool)

  function StateOf(n: nat): ConditionState { if n > 0 then True else False }

  predicate HitGuardRail(cfg: Config, t: Tracker, k: DimKey)
  {
    cfg.Sliced() && k !in t.counts && |t.counts| > SOFT_LIMIT - 1 && |t.counts| + 1 > HARD_LIMIT
  }

  function StartedOrStopped(cfg: Config, t: Tracker, k: DimKey, start: bool): Outcome
  {
    if HitGuardRail(cfg, t, k) then Outcome(t, Unknown, false)
    else if k !in t.counts then
      var state := if start then True else False;
      if start && t.initial != True then
        Outcome(t.(counts := t.counts[k := 1], toTrue := t.toTrue + {k}), state, true)
      else if t.initial != False then
        Outcome(t.(counts := t.counts[k := 0], toFalse := t.toFalse + {k}), state, true)
      else Outcome(t, state, false)
    else
      var n := t.counts[k];
      if start then
        Outcome(t.(counts := t.counts[k := n + 1], toTrue := if n == 0 then t.toTrue + {k} else t.toTrue), True, n == 0)
      else
        var m := if n == 0 then 0 else if cfg.countNesting then n - 1 else 0;
        var counts := if t.initial == False && m == 0 then t.counts - {k} else t.counts[k := m];
        Outcome(t.(counts := counts, toFalse := if n > 0 && m == 0 then t.toFalse + {k} else t.toFalse),
                StateOf(m), n > 0 && m == 0)
  }

  function AllStopped(t: Tracker): Outcome
  {
    Outcome(Tracker(False, map[], t.toTrue, t.toFalse + set k | k in t.counts && t.counts[k] > 0),
            False, !(t.initial == False && t.counts == map[]))
  }

  /** What a tracker reports when the event does not concern it. */
  function Overall(cfg: Config, t: Tracker): ConditionState
  {
    if cfg.Sliced() then (if exists k :: k in t.counts && t.counts[k] > 0 then True else t.initial)
    else if DEFAULT_DIMENSION_KEY in t.counts then StateOf(t.counts[DEFAULT_DIMENSION_KEY])
    else t.initial
  }

  datatype Kind = Start | Stop | StopAll

  predicate IsMatched(matcher: Option<nat>, values: seq<MatchingState>)
  {
    matcher.Some? && matcher.value < |values| && values[matcher.value] == Matched
  }

  /** What an event is to the tracker: stop_all goes before stop, stop before start. */
  function KindOf(cfg: Config, values: seq<MatchingState>): Option<Kind>
  {
    if IsMatched(cfg.stopAll, values) then Some(StopAll)
    else if IsMatched(cfg.stop, values) then Some(Stop)
    else if IsMatched(cfg.start, values) then Some(Start)
    else None
  }

  function Forget(t: Tracker): Tracker { t.(toTrue := {}, toFalse := {}) }

  /** One event: its kind and the key it has for this tracker. */
  function Step(cfg: Config, t: Tracker, kind: Option<Kind>, k: DimKey): Outcome
  {
    match kind
    case None => Outcome(Forget(t), Overall(cfg, t), false)
    case Some(StopAll) => AllStopped(Forget(t))
    case Some(s) =>
      if cfg.Sliced() && cfg.hasAny then Outcome(Forget(t), t.initial, false)
      else StartedOrStopped(cfg, Forget(t), k, s.Start?)
  }

  // ---------- queries ----------

  /** The state of one key, fully linked. */
  function Query(t: Tracker, k: DimKey): ConditionState
  {
    var s := Either(NotEvaluated, t.initial);
    if k in t.counts then Either(s, StateOf(t.counts[k])) else s
  }

  predicate Proper(t: Tracker)
  {
    && (t.initial == False || t.initial == Unknown)
    && (t.initial == False ==> forall k :: k in t.counts ==> t.counts[k] > 0)
  }

  /** A step reports the new state of the key, and a change exactly when the state changed. */
  lemma StepReports(cfg: Config, t: Tracker, k: DimKey, start: bool)
    requires Proper(t) && !HitGuardRail(cfg, t, k)
    ensures var o := StartedOrStopped(cfg, t, k, start);
            && Proper(o.tracker)
            && o.state == Query(o.tracker, k)
            && (o.changed <==> Query(t, k) != Query(o.tracker, k))
            && (o.tracker.toTrue - t.toTrue <= {k}) && (o.tracker.toFalse - t.toFalse <= {k})
            && (k !in t.toTrue ==> (k in o.tracker.toTrue <==> o.changed && o.state == True))
            && (k !in t.toFalse ==> (k in o.tracker.toFalse <==> o.changed && o.state == False))
            && forall l :: l != k ==> Query(o.tracker, l) == Query(t, l)
  {
  }

  /** After stop_all every key is false; the keys that were true are reported as changed. */
  lemma StopAllReports(t: Tracker, k: DimKey)
    requires Proper(t)
    ensures var o := AllStopped(t);
            && Proper(o.tracker) && Query(o.tracker, k) == False
            && (Query(t, k) != False ==> o.changed)
            && (k !in t.toFalse ==> (k in o.tracker.toFalse <==> Query(t, k) == True))
  {
  }

  // ---------- the state of a key is a function of its history ----------

  function NextDepth(nesting: bool, d: nat, kind: Kind): nat
  {
    match kind
    case Start => d + 1
    case Stop => if d == 0 || !nesting then 0 else d - 1
    case StopAll => 0
  }

  /** How many starts are open, never below zero; without nesting one stop closes all. */
  function Depth(nesting: bool, h: seq<Kind>): nat
  {
    if h == [] then 0 else NextDepth(nesting, Depth(nesting, h[..|h| - 1]), h[|h| - 1])
  }

  /** What a key's own history says: unknown until the first evidence, unless false by default. */
  function Answer(nesting: bool, default: ConditionState, h: seq<Kind>): ConditionState
  {
    if Depth(nesting, h) > 0 then True else if h == [] then default else False
  }

  datatype Event = Event(kind: Option<Kind>, key: DimKey)

  function RunFrom(cfg: Config, t: Tracker, events: seq<Event>): Tracker
  {
    if events == [] then t
    else
      var e := events[|events| - 1];
      Step(cfg, RunFrom(cfg, t, events[..|events| - 1]), e.kind, e.key).tracker
  }

  /** Whether an event counts for key `k`: it is a stop_all, or about `k` and not dropped. */
  predicate CountsFor(cfg: Config, t: Tracker, e: Event, k: DimKey)
  {
    e.kind.Some? && (e.kind.value.StopAll? || (e.key == k && !(cfg.Sliced() && cfg.hasAny) && !HitGuardRail(cfg, t, k)))
  }

  /** The accepted events of key `k`, in order. */
  function History(cfg: Config, t: Tracker, events: seq<Event>, k: DimKey): seq<Kind>
  {
    if events == [] then []
    else
      var init, e := events[..|events| - 1], events[|events| - 1];
      var h := History(cfg, t, init, k);
      if CountsFor(cfg, RunFrom(cfg, t, init), e, k) then h + [e.kind.value] else h
  }

  /** What the tracker holds of a key with history `h`. */
  predicate Holds(cfg: Config, t: Tracker, default: ConditionState, h: seq<Kind>, k: DimKey)
  {
    && Proper(t)
    && (t.initial == False <==> default == False || StopAll in h)
    && (if k in t.counts then t.counts[k] else 0) == Depth(cfg.countNesting, h)
    && (t.initial != False ==> (k in t.counts <==> h != []))
  }

  lemma StopAllHolds(cfg: Config, t: Tracker, default: ConditionState, h: seq<Kind>, k: DimKey)
    requires Holds(cfg, t, default, h, k)
    ensures Holds(cfg, AllStopped(t).tracker, default, h + [StopAll], k)
  {
  }

  lemma OwnHolds(cfg: Config, t: Tracker, default: ConditionState, h: seq<Kind>, k: DimKey, start: bool)
    requires Holds(cfg, t, default, h, k) && !HitGuardRail(cfg, t, k)
    ensures Holds(cfg, StartedOrStopped(cfg, t, k, start).tracker, default, h + [if start then Start else Stop], k)
  {
  }

  lemma OtherHolds(cfg: Config, t: Tracker, default: ConditionState, h: seq<Kind>, k: DimKey, l: DimKey, start: bool)
    requires Holds(cfg, t, default, h, k) && (l != k || HitGuardRail(cfg, t, k))
    ensures Holds(cfg, StartedOrStopped(cfg, t, l, start).tracker, default, h, k)
  {
  }

  lemma ForgetHolds(cfg: Config, t: Tracker, default: ConditionState, h: seq<Kind>, k: DimKey)
    requires Holds(cfg, t, default, h, k)
    ensures Holds(cfg, Forget(t), default, h, k) && (HitGuardRail(cfg, Forget(t), k) <==> HitGuardRail(cfg, t, k))
  {
  }

  /** A start or stop of key `l` that reaches the tracker. */
  lemma MatchedHolds(cfg: Config, t: Tracker, default: ConditionState, h: seq<Kind>, k: DimKey, l: DimKey, s: Kind)
    requires Holds(cfg, t, default, h, k) && !s.StopAll?
    ensures Holds(cfg, StartedOrStopped(cfg, t, l, s.Start?).tracker, default,
                  if l == k && !HitGuardRail(cfg, t, k) then h + [s] else h, k)
  {
    if l == k && !HitGuardRail(cfg, t, k) {
      OwnHolds(cfg, t, default, h, k, s.Start?);
    } else {
      OtherHolds(cfg, t, default, h, k, l, s.Start?);
    }
  }

  lemma {:induction false} StepHolds(cfg: Config, t: Tracker, default: ConditionState, h: seq<Kind>, k: DimKey,
                                     e: Event)
    requires Holds(cfg, t, default, h, k)
    ensures Holds(cfg, Step(cfg, t, e.kind, e.key).tracker, default,
                  if CountsFor(cfg, t, e, k) then h + [e.kind.value] else h, k)
  {
    ForgetHolds(cfg, t, default, h, k);
    match e.kind
    case None =>
    case Some(StopAll) => StopAllHolds(cfg, Forget(t), default, h, k);
    case Some(s) => MatchedHolds(cfg, Forget(t), default, h, k, e.key, s);
  }

  lemma {:induction false} RunHolds(cfg: Config, default: ConditionState, events: seq<Event>, k: DimKey)
    requires default == False || default == Unknown
    ensures Holds(cfg, RunFrom(cfg, Tracker(default, map[], {}, {}), events), default,
                  History(cfg, Tracker(default, map[], {}, {}), events, k), k)
  {
    if events != [] {
      var t := Tracker(default, map[], {}, {});
      var init, e := events[..|events| - 1], events[|events| - 1];
      RunHolds(cfg, default, init, k);
      StepHolds(cfg, RunFrom(cfg, t, init), default, History(cfg, t, init, k), k, e);
    }
  }

  /** After any run, a fully linked query is the function of the key's accepted history; a tracker
      that is false by default never stores a zero. */
  lemma QueryIsAnswer(cfg: Config, default: ConditionState, events: seq<Event>, k: DimKey)
    requires default == False || default == Unknown
    ensures var start := Tracker(default, map[], {}, {});
            var t := RunFrom(cfg, start, events);
            && Query(t, k) == Answer(cfg.countNesting, default, History(cfg, start, events, k))
            && (default == False ==> forall l :: l in t.counts ==> t.counts[l] > 0)
  {
    RunHolds(cfg, default, events, k);
  }

  /** The events of key `k`, dropped or not. */
  function AllEvents(events: seq<Event>, k: DimKey): seq<Kind>
  {
    if events == [] then []
    else
      var h, e := AllEvents(events[..|events| - 1], k), events[|events| - 1];
      if e.kind.Some? && (e.kind.value.StopAll? || e.key == k) then h + [e.kind.value] else h
  }

  /** A start or a stop, whose key is kept. */
  predicate IsKeyed(e: Event) { e.kind.Some? && !e.kind.value.StopAll? }

  lemma {:induction false} KeysSeen(cfg: Config, default: ConditionState, events: seq<Event>, keys: set<DimKey>)
    requires forall i :: 0 <= i < |events| && IsKeyed(events[i]) ==> events[i].key in keys
    ensures RunFrom(cfg, Tracker(default, map[], {}, {}), events).counts.Keys <= keys
  {
    if events != [] {
      KeysSeen(cfg, default, events[..|events| - 1], keys);
    }
  }

  lemma RoomLeft(cfg: Config, t: Tracker, k: DimKey, keys: set<DimKey>)
    requires t.counts.Keys <= keys && k in keys && |keys| <= HARD_LIMIT
    ensures !HitGuardRail(cfg, t, k)
  {
    if k !in t.counts {
      assert t.counts.Keys <= keys - {k};
      SubsetSize(t.counts.Keys, keys - {k});
      assert |t.counts| == |t.counts.Keys|;
    }
  }

  /** With at most as many keys as the hard limit, no event is dropped. */
  lemma {:induction false} NothingDropped(cfg: Config, default: ConditionState, events: seq<Event>, keys: set<DimKey>,
                                          k: DimKey)
    requires !(cfg.Sliced() && cfg.hasAny) && |keys| <= HARD_LIMIT && k in keys
    requires forall i :: 0 <= i < |events| && IsKeyed(events[i]) ==> events[i].key in keys
    ensures History(cfg, Tracker(default, map[], {}, {}), events, k) == AllEvents(events, k)
  {
    if events != [] {
      var init := events[..|events| - 1];
      NothingDropped(cfg, default, init, keys, k);
      KeysSeen(cfg, default, init, keys);
      RoomLeft(cfg, RunFrom(cfg, Tracker(default, map[], {}, {}), init), k, keys);
    }
  }

  /** A sliced tracker drops exactly the events of new keys that come when it holds as many as the hard
      limit; an unsliced one drops nothing. */
  lemma DroppedIff(cfg: Config, t: Tracker, k: DimKey, start: bool)
    requires Proper(t)
    ensures HitGuardRail(cfg, t, k) <==> cfg.Sliced() && k !in t.counts && |t.counts| >= HARD_LIMIT
    ensures HitGuardRail(cfg, t, k) ==> StartedOrStopped(cfg, t, k, start) == Outcome(t, Unknown, false)
  {
  }

  lemma StepBounded(cfg: Config, t: Tracker, kind: Option<Kind>, k: DimKey)
    requires cfg.Sliced() && |t.counts| <= HARD_LIMIT
    ensures |Step(cfg, t, kind, k).tracker.counts| <= HARD_LIMIT
  {
    var r := Step(cfg, t, kind, k).tracker;
    if k in t.counts {
      SubsetSize(r.counts.Keys, t.counts.Keys);
    } else {
      SubsetSize(r.counts.Keys, t.counts.Keys + {k});
    }
    assert |r.counts| == |r.counts.Keys| && |t.counts| == |t.counts.Keys|;
  }

  /** So it never holds more. */
  lemma {:induction false} KeysBounded(cfg: Config, default: ConditionState, events: seq<Event>)
    requires cfg.Sliced()
    ensures |RunFrom(cfg, Tracker(default, map[], {}, {}), events).counts| <= HARD_LIMIT
  {
    if events != [] {
      var init, e := events[..|events| - 1], events[|events| - 1];
      KeysBounded(cfg, default, init);
      StepBounded(cfg, RunFrom(cfg, Tracker(default, map[], {}, {}), init), e.kind, e.key);
    }
  }

  // ---------- queries by key ----------

  /** The key of an event for a tracker. */
  function EventKey(cfg: Config, values: seq<FieldValue>): DimKey
  {
    if cfg.Sliced() then KeyOf(Filtered(cfg.dimensions, values)) else DEFAULT_DIMENSION_KEY
  }

  /** `a` has all dimensions of `b`. */
  predicate Contains(a: DimKey, b: DimKey)
  {
    if |a| < |b| then false
    else if |a| == |b| then a == b
    else forall i :: 0 <= i < |b| ==> b[i] in a
  }

  /** A partially linked query: the best of all keys that contain the asked one. */
  function PartialQuery(t: Tracker, k: DimKey): ConditionState
  {
    if exists l :: l in t.counts && Contains(l, k) && t.counts[l] > 0 then True
    else if exists l :: l in t.counts && Contains(l, k) then Either(t.initial, False)
    else t.initial
  }

  /** The answer to a metric, which may have no key for this condition. */
  function Met(cfg: Config, t: Tracker, key: Option<DimKey>, isPartialLink: bool): ConditionState
  {
    match key
    case None => if cfg.Sliced() then t.initial else Query(t, DEFAULT_DIMENSION_KEY)
    case Some(k) => if isPartialLink then PartialQuery(t, k) else Query(t, k)
  }

  /** The overall state is that of the one key, or for a sliced tracker true when some key is. */
  lemma OverallIsBest(cfg: Config, t: Tracker)
    requires Proper(t)
    ensures !cfg.Sliced() ==> Overall(cfg, t) == Query(t, DEFAULT_DIMENSION_KEY)
    ensures cfg.Sliced() ==> Overall(cfg, t) == if exists k :: Query(t, k) == True then True else t.initial
  {
    if k :| k in t.counts && t.counts[k] > 0 { assert Query(t, k) == True; }
    if k :| Query(t, k) == True { assert k in t.counts && t.counts[k] > 0; }
  }

  /** A partially linked query is true when some key that contains the asked one is, and unknown when
      nothing is known of any such key. */
  lemma PartialIsBest(t: Tracker, k: DimKey)
    requires Proper(t)
    ensures PartialQuery(t, k) == True <==> exists l :: Contains(l, k) && Query(t, l) == True
    ensures PartialQuery(t, k) == Unknown <==> forall l :: Contains(l, k) ==> Query(t, l) == Unknown
  {
    SelfContained(k);
    if PartialQuery(t, k) == True {
      var l :| l in t.counts && Contains(l, k) && t.counts[l] > 0;
      assert Query(t, l) == True;
    }
    if l :| Contains(l, k) && Query(t, l) == True { assert l in t.counts && t.counts[l] > 0; }
    if l :| l in t.counts && Contains(l, k) { assert Query(t, l) != Unknown; }
  }

  lemma SelfContained(k: DimKey)
    ensures Contains(k, k)
  {
  }

  /** Keys of equal length contain each other only when they are equal, so linking fully or partially
      is then the same. */
  lemma PartialIsFull(t: Tracker, k: DimKey)
    requires Proper(t) && forall l :: l in t.counts ==> |l| == |k|
    ensures PartialQuery(t, k) == Query(t, k)
  {
  }

  /** More dimensions contain fewer. */
  lemma LongerContains(a: DimKey, b: DimKey)
    ensures Contains(a + b, a) && Contains(a + b, b)
  {
    assert b == [] ==> a + b == a;
    assert a == [] ==> a + b == b;
    forall i | 0 <= i < |a| ensures a[i] in a + b { assert (a + b)[i] == a[i]; }
    forall i | 0 <= i < |b| ensures b[i] in a + b { assert (a + b)[|a| + i] == b[i]; }
  }

  // ---------- from matcher results to the state ----------

  /** One event as the tracker meets it: which matchers matched, and its values. */
  datatype Input = Input(matched: seq<MatchingState>, values: seq<FieldValue>)

  function EventOf(cfg: Config, i: Input): Event { Event(KindOf(cfg, i.matched), EventKey(cfg, i.values)) }

  function EventsOf(cfg: Config, inputs: seq<Input>): (es: seq<Event>)
    ensures |es| == |inputs| && forall i :: 0 <= i < |inputs| ==> es[i] == EventOf(cfg, inputs[i])
  {
    seq(|inputs|, i requires 0 <= i < |inputs| => EventOf(cfg, inputs[i]))
  }

  /** The starts of key `k` that are open: stop_all closes all of them; else a stop closes one, or all
      when nesting is not counted; else a start opens one. */
  function OpenStarts(cfg: Config, inputs: seq<Input>, k: DimKey): nat
  {
    if inputs == [] then 0
    else
      var open, i := OpenStarts(cfg, inputs[..|inputs| - 1], k), inputs[|inputs| - 1];
      if IsMatched(cfg.stopAll, i.matched) then 0
      else if EventKey(cfg, i.values) != k then open
      else if IsMatched(cfg.stop, i.matched) then (if cfg.countNesting && open > 0 then open - 1 else 0)
      else if IsMatched(cfg.start, i.matched) then open + 1
      else open
  }

  /** The event says something about key `k`. */
  predicate Concerns(cfg: Config, i: Input, k: DimKey)
  {
    || IsMatched(cfg.stopAll, i.matched)
    || (EventKey(cfg, i.values) == k && (IsMatched(cfg.stop, i.matched) || IsMatched(cfg.start, i.matched)))
  }

  predicate EverConcerned(cfg: Config, inputs: seq<Input>, k: DimKey)
  {
    exists i :: 0 <= i < |inputs| && Concerns(cfg, inputs[i], k)
  }

  lemma {:induction false} EventsSnoc(cfg: Config, inputs: seq<Input>)
    requires inputs != []
    ensures EventsOf(cfg, inputs)[..|inputs| - 1] == EventsOf(cfg, inputs[..|inputs| - 1])
  {
  }

  lemma {:induction false} AllEventsStep(cfg: Config, inputs: seq<Input>, k: DimKey)
    requires inputs != []
    ensures var n := |inputs| - 1;
            var h, kind := AllEvents(EventsOf(cfg, inputs[..n]), k), KindOf(cfg, inputs[n].matched);
            && (Concerns(cfg, inputs[n], k) ==> kind.Some?)
            && AllEvents(EventsOf(cfg, inputs), k) == if Concerns(cfg, inputs[n], k) then h + [kind.value] else h
  {
    EventsSnoc(cfg, inputs);
  }

  lemma {:induction false} OpenStep(cfg: Config, inputs: seq<Input>, k: DimKey)
    requires inputs != [] && Concerns(cfg, inputs[|inputs| - 1], k)
    ensures var n := |inputs| - 1;
            var kind := KindOf(cfg, inputs[n].matched);
            kind.Some? && OpenStarts(cfg, inputs, k)
                       == NextDepth(cfg.countNesting, OpenStarts(cfg, inputs[..n], k), kind.value)
  {
  }

  lemma {:induction false} DepthIsOpenStarts(cfg: Config, inputs: seq<Input>, k: DimKey)
    ensures var h := AllEvents(EventsOf(cfg, inputs), k);
            && Depth(cfg.countNesting, h) == OpenStarts(cfg, inputs, k)
            && (h != [] <==> EverConcerned(cfg, inputs, k))
  {
    if inputs != [] {
      var n := |inputs| - 1;
      DepthIsOpenStarts(cfg, inputs[..n], k);
      AllEventsStep(cfg, inputs, k);
      EverSnoc(cfg, inputs, k);
      if Concerns(cfg, inputs[n], k) {
        OpenStep(cfg, inputs, k);
        OneMoreKind(cfg.countNesting, AllEvents(EventsOf(cfg, inputs[..n]), k), KindOf(cfg, inputs[n].matched).value);
      }
    }
  }

  lemma OneMoreKind(nesting: bool, h: seq<Kind>, s: Kind)
    ensures Depth(nesting, h + [s]) == NextDepth(nesting, Depth(nesting, h), s)
  {
    assert (h + [s])[..|h|] == h;
  }

  lemma EverSnoc(cfg: Config, inputs: seq<Input>, k: DimKey)
    requires inputs != []
    ensures var n := |inputs| - 1;
            EverConcerned(cfg, inputs, k) <==> EverConcerned(cfg, inputs[..n], k) || Concerns(cfg, inputs[n], k)
  {
    var n := |inputs| - 1;
    if j :| 0 <= j < n && Concerns(cfg, inputs[..n][j], k) { assert Concerns(cfg, inputs[j], k); }
    if j :| 0 <= j < n && Concerns(cfg, inputs[j], k) { assert Concerns(cfg, inputs[..n][j], k); }
  }

  /** End to end, from matcher results: with at most as many keys as the hard limit, a key is true
      while one of its starts is open, false once an event has concerned it, and else what the tracker
      assumes from the start. */
  lemma {:induction false} QueryFromMatches(cfg: Config, default: ConditionState, inputs: seq<Input>, keys: set<DimKey>,
                                            k: DimKey)
    requires (default == False || default == Unknown) && !(cfg.Sliced() && cfg.hasAny)
    requires |keys| <= HARD_LIMIT && k in keys
    requires forall i :: 0 <= i < |inputs| && IsKeyed(EventOf(cfg, inputs[i])) ==>
      EventKey(cfg, inputs[i].values) in keys
    ensures Query(RunFrom(cfg, Tracker(default, map[], {}, {}), EventsOf(cfg, inputs)), k)
         == if OpenStarts(cfg, inputs, k) > 0 then True
            else if EverConcerned(cfg, inputs, k) then False
            else default
  {
    var events := EventsOf(cfg, inputs);
    QueryIsAnswer(cfg, default, events, k);
    NothingDropped(cfg, default, events, keys, k);
    DepthIsOpenStarts(cfg, inputs, k);
  }

  /** What evaluation reports for one event: false after stop_all, the new state of the event's key
      after a start or a stop, and otherwise the overall state. */
  lemma ReportedState(cfg: Config, t: Tracker, i: Input)
    requires Proper(t) && !(cfg.Sliced() && cfg.hasAny)
    requires !HitGuardRail(cfg, t, EventKey(cfg, i.values))
    ensures var k, o := EventKey(cfg, i.values), Step(cfg, t, KindOf(cfg, i.matched), EventKey(cfg, i.values));
            o.state ==
              if IsMatched(cfg.stopAll, i.matched) then False
              else if IsMatched(cfg.stop, i.matched) || IsMatched(cfg.start, i.matched) then Query(o.tracker, k)
              else Overall(cfg, t)
  {
    var k := EventKey(cfg, i.values);
    assert Proper(Forget(t)) && !HitGuardRail(cfg, Forget(t), k);
    StepReports(cfg, Forget(t), k, true);
    StepReports(cfg, Forget(t), k, false);
  }

  // ---------- the object ----------

  class SimpleConditionTracker {
    const cfg: Config
    var initialValue: ConditionState
    var slicedConditionState: map<DimKey, nat>
    var lastChangedToTrueDimensions: set<DimKey>
    var lastChangedToFalseDimensions: set<DimKey>

    ghost function State(): Tracker
      reads this
    {
      Tracker(initialValue, slicedConditionState, lastChangedToTrueDimensions, lastChangedToFalseDimensions)
    }

    constructor (cfg: Config, initialFalse: bool)
      ensures this.cfg == cfg && State() == Tracker(if initialFalse then False else Unknown, map[], {}, {})
    {
      this.cfg := cfg;
      initialValue := if initialFalse then False else Unknown;
      slicedConditionState, lastChangedToTrueDimensions, lastChangedToFalseDimensions := map[], {}, {};
    }

    predicate HitGuardRailAt(k: DimKey)
      reads this
    {
      && cfg.Sliced() && k !in slicedConditionState
      && |slicedConditionState| > SOFT_LIMIT - 1 && |slicedConditionState| + 1 > HARD_LIMIT
    }

    method HandleStopAll() returns (state: ConditionState, changed: bool)
      modifies this
      ensures Outcome(State(), state, changed) == AllStopped(old(State()))
    {
      changed := if initialValue == False && slicedConditionState == map[] then false else true;
      var todo := slicedConditionState.Keys;
      while todo != {}
        invariant todo <= slicedConditionState.Keys
        invariant initialValue == old(initialValue) && slicedConditionState == old(slicedConditionState)
        invariant lastChangedToTrueDimensions == old(lastChangedToTrueDimensions)
        invariant lastChangedToFalseDimensions == old(lastChangedToFalseDimensions)
          + set k | k in slicedConditionState && k !in todo && slicedConditionState[k] > 0
      {
        var k :| k in todo;
        if slicedConditionState[k] > 0 {
          lastChangedToFalseDimensions := lastChangedToFalseDimensions + {k};
        }
        todo := todo - {k};
      }
      initialValue, slicedConditionState, state := False, map[], False;
    }

    method HandleConditionEvent(k: DimKey, matchStart: bool) returns (state: ConditionState, changed: bool)
      modifies this
      ensures Outcome(State(), state, changed) == StartedOrStopped(cfg, old(State()), k, matchStart)
    {
      changed := false;
      if HitGuardRailAt(k) {
        return Unknown, false;
      }
      if k !in slicedConditionState {
        state := if matchStart then True else False;
        if matchStart && initialValue != True {
          slicedConditionState := slicedConditionState[k := 1];
          changed := true;
          lastChangedToTrueDimensions := lastChangedToTrueDimensions + {k};
        } else if initialValue != False {
          slicedConditionState := slicedConditionState[k := 0];
          lastChangedToFalseDimensions := lastChangedToFalseDimensions + {k};
          changed := true;
        }
      } else {
        var startedCount := slicedConditionState[k];
        state := if startedCount > 0 then True else False;
        if matchStart {
          if startedCount == 0 {
            lastChangedToTrueDimensions := lastChangedToTrueDimensions + {k};
            changed := true;
          }
          slicedConditionState := slicedConditionState[k := startedCount + 1];
          state := True;
        } else {
          if startedCount > 0 {
            if cfg.countNesting {
              startedCount := startedCount - 1;
              if startedCount == 0 { state := False; }
            } else {
              startedCount := 0;
              state := False;
            }
            if startedCount == 0 {
              lastChangedToFalseDimensions := lastChangedToFalseDimensions + {k};
              changed := true;
            }
          }
          slicedConditionState := slicedConditionState[k := startedCount];
          if initialValue == False && startedCount == 0 {
            slicedConditionState := slicedConditionState - {k};
          }
        }
      }
    }

    /** The state of a tracker that the event does not concern. */
    method ReportOverall() returns (state: ConditionState)
      ensures state == Overall(cfg, State())
    {
      if cfg.Sliced() {
        state := initialValue;
        var todo := slicedConditionState.Keys;
        while todo != {}
          invariant todo <= slicedConditionState.Keys && state == initialValue
          invariant forall k :: k in slicedConditionState && k !in todo ==> slicedConditionState[k] == 0
        {
          var k :| k in todo;
          if slicedConditionState[k] > 0 {
            return True;
          }
          todo := todo - {k};
        }
      } else if DEFAULT_DIMENSION_KEY !in slicedConditionState {
        state := initialValue;
      } else {
        state := if slicedConditionState[DEFAULT_DIMENSION_KEY] > 0 then True else False;
      }
    }

    /** Steps the tracker for an event, unless this event was evaluated before (`cached`). */
    method EvaluateCondition(cached: ConditionState, changed0: bool, matcherValues: seq<MatchingState>,
                             values: seq<FieldValue>)
      returns (state: ConditionState, changed: bool)
      modifies this
      ensures cached != NotEvaluated ==> State() == old(State()) && state == cached && changed == changed0
      ensures cached == NotEvaluated ==>
        Outcome(State(), state, changed) == Step(cfg, old(State()), KindOf(cfg, matcherValues), EventKey(cfg, values))
    {
      state, changed := cached, changed0;
      if cached != NotEvaluated {
        return;
      }
      lastChangedToTrueDimensions, lastChangedToFalseDimensions := {}, {};
      if IsMatched(cfg.stopAll, matcherValues) {
        state, changed := HandleStopAll();
        return;
      }
      var matchedState := -1;
      if IsMatched(cfg.start, matcherValues) {
        matchedState := 1;
      }
      if IsMatched(cfg.stop, matcherValues) {
        matchedState := 0;
      }
      if matchedState < 0 {
        changed := false;
        state := ReportOverall();
        return;
      }
      state, changed := HandleMatched(values, matchedState == 1);
    }

    /** A start or a stop, for the key the event has in the output dimensions. */
    method HandleMatched(values: seq<FieldValue>, matchStart: bool) returns (state: ConditionState, changed: bool)
      modifies this
      ensures Outcome(State(), state, changed) ==
        if cfg.Sliced() && cfg.hasAny then Outcome(old(State()), old(initialValue), false)
        else StartedOrStopped(cfg, old(State()), EventKey(cfg, values), matchStart)
    {
      state, changed := initialValue, false;
      if |cfg.dimensions| == 0 {
        state, changed := HandleConditionEvent(DEFAULT_DIMENSION_KEY, matchStart);
      } else if !cfg.hasAny {
        var _, output := FilterValues(cfg.dimensions, values);
        state, changed := HandleConditionEvent(KeyOf(output), matchStart);
      }
    }

    /** The state for a metric's key, if it links to this condition. */
    method IsConditionMet(cached: ConditionState, key: Option<DimKey>,
                          isPartialLink: bool) returns (state: ConditionState)
      requires initialValue != NotEvaluated
      ensures state == if cached != NotEvaluated then cached else Met(cfg, State(), key, isPartialLink)
    {
      if cached != NotEvaluated {
        return cached;
      }
      state := Either(NotEvaluated, initialValue);
      if key.None? {
        if !cfg.Sliced() && DEFAULT_DIMENSION_KEY in slicedConditionState {
          state := Either(state, StateOf(slicedConditionState[DEFAULT_DIMENSION_KEY]));
        }
      } else if isPartialLink {
        state := PartialState(key.value);
      } else if key.value in slicedConditionState {
        state := Either(state, StateOf(slicedConditionState[key.value]));
      }
    }

    method PartialState(key: DimKey) returns (state: ConditionState)
      requires initialValue != NotEvaluated
      ensures state == PartialQuery(State(), key)
    {
      state := Either(NotEvaluated, initialValue);
      var todo := slicedConditionState.Keys;
      ghost var done: set<DimKey> := {};
      while todo != {}
        invariant todo + done == slicedConditionState.Keys && todo !! done
        invariant var asked := map k | k in slicedConditionState && k in done :: slicedConditionState[k];
                  state == PartialQuery(State().(counts := asked), key)
      {
        var k :| k in todo;
        if Contains(k, key) {
          state := Either(state, StateOf(slicedConditionState[k]));
        }
        PartialOneMore(State(), done, k, key);
        todo, done := todo - {k}, done + {k};
      }
      assert (map k | k in slicedConditionState && k in done :: slicedConditionState[k]) == slicedConditionState;
    }
  }

  lemma PartialOneMore(t: Tracker, done: set<DimKey>, k: DimKey, key: DimKey)
    requires t.initial != NotEvaluated && k in t.counts && k !in done
    ensures var a := PartialQuery(t.(counts := map l | l in t.counts && l in done :: t.counts[l]), key);
            PartialQuery(t.(counts := map l | l in t.counts && l in done + {k} :: t.counts[l]), key)
            == if Contains(k, key) then Either(a, StateOf(t.counts[k])) else a
  {
  }
}
