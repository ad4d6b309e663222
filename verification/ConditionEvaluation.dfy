/** Evaluating all conditions for one event (condition/CombinationConditionTracker.cpp): simple
    trackers are stepped, combinations recomputed, each at most once. */
module ConditionEvaluation {
  import opened Options
  import opened FieldPath
  import opened Dag
  import opened ConditionLogic
  import opened MatcherDag
  import opened SimpleCondition
  import ConditionDag

  /** An initialised tracker; a combination keeps its unsliced children apart. */
  datatype Node =
    | Leaf(cfg: Config)
    | Combined(operation: LogicalOperation, kids: seq<nat>, unSlicedKids: seq<nat>, sliced: bool)

  /** All trackers and the event they look at. */
  datatype Setting = Setting(nodes: seq<Node>, matcherValues: seq<MatchingState>, values: seq<FieldValue>)

  /** What the evaluation of an event changes. `unSliced` is the stored condition of combinations. */
  datatype Round = Round(trackers: seq<Tracker>, unSliced: seq<ConditionState>, cache: seq<ConditionState>,
                         changed: seq<bool>)

  function NodeGraph(nodes: seq<Node>): (g: Graph)
    ensures |g.kids| == |nodes|
    ensures forall i :: 0 <= i < |nodes| ==> g.kids[i] == Some(if nodes[i].Leaf? then [] else nodes[i].kids)
  {
    Graph(seq(|nodes|, i requires 0 <= i < |nodes| => Some(if nodes[i].Leaf? then [] else nodes[i].kids)))
  }

  function Stepped(e: Setting, trackers: seq<Tracker>, i: nat): Outcome
    requires i < |e.nodes| && i < |trackers| && e.nodes[i].Leaf?
  {
    Step(e.nodes[i].cfg, trackers[i], KindOf(e.nodes[i].cfg, e.matcherValues), EventKey(e.nodes[i].cfg, e.values))
  }

  function StateAt(e: Setting, trackers: seq<Tracker>, i: nat, states: seq<ConditionState>): ConditionState
  {
    if i >= |e.nodes| || i >= |trackers| then Unknown
    else match e.nodes[i]
      case Leaf(_) => Stepped(e, trackers, i).state
      case Combined(op, _, _, _) => Combine(op, states)
  }

  /** The recursive evaluation of the event, from the trackers as they were before it. */
  function EventRule(e: Setting, trackers: seq<Tracker>): (nat, seq<ConditionState>) -> ConditionState
  {
    (i: nat, states: seq<ConditionState>) => StateAt(e, trackers, i, states)
  }

  predicate Sized(e: Setting, r: Round)
  {
    |r.trackers| == |r.unSliced| == |r.cache| == |r.changed| == |e.nodes|
  }

  ghost predicate ReadyAt(e: Setting, trackers: seq<Tracker>, i: nat)
    requires i < |e.nodes| == |trackers|
  {
    && IsGood(NodeGraph(e.nodes), i)
    && match e.nodes[i]
       case Leaf(_) => trackers[i].initial != NotEvaluated
       case Combined(_, kids, unSlicedKids, _) => forall k :: 0 <= k < |unSlicedKids| ==> unSlicedKids[k] in kids
  }

  /** Trackers were properly initialised: no cycles, known initial values. */
  ghost predicate Ready(e: Setting, trackers: seq<Tracker>)
  {
    && |trackers| == |e.nodes|
    && forall i {:trigger ReadyAt(e, trackers, i)} :: 0 <= i < |e.nodes| ==> ReadyAt(e, trackers, i)
  }

  // ---------- initialisation makes it ready ----------

  /** The evaluated node of an initialised tracker: a combination keeps what initialisation found. */
  predicate NodeOf(p: ConditionDag.Predicate, t: ConditionDag.Tracker, node: Node)
  {
    if p.Simple? then node.Leaf?
    else node == Combined(t.operation, t.children, t.split.unSlicedChildren, t.split.sliced)
  }

  ghost predicate Initialized(nodes: seq<ConditionDag.Predicate>, index: map<int, nat>, ts: seq<ConditionDag.Tracker>)
  {
    && |ts| == |nodes|
    && (forall i :: 0 <= i < |nodes| ==> IsGood(ConditionDag.ConditionGraph(nodes, index), i))
    && forall i :: 0 <= i < |nodes| && nodes[i].Combination? ==> ConditionDag.Ready(nodes, index, i, ts[i])
  }

  lemma SameGraph(nodes: seq<ConditionDag.Predicate>, index: map<int, nat>, ts: seq<ConditionDag.Tracker>,
                  es: seq<Node>)
    requires Initialized(nodes, index, ts) && |es| == |nodes|
    requires forall i :: 0 <= i < |nodes| ==> NodeOf(nodes[i], ts[i], es[i])
    ensures NodeGraph(es) == ConditionDag.ConditionGraph(nodes, index)
  {
    var g := ConditionDag.ConditionGraph(nodes, index);
    forall i | 0 <= i < |nodes| ensures NodeGraph(es).kids[i] == g.kids[i] {
      assert NodeOf(nodes[i], ts[i], es[i]);
    }
    assert NodeGraph(es).kids == g.kids;
  }

  /** Unsliced children are children. */
  lemma UnSlicedAreKids(nodes: seq<ConditionDag.Predicate>, index: map<int, nat>, i: nat, t: ConditionDag.Tracker,
                        x: nat)
    requires i < |nodes| && nodes[i].Combination? && ConditionDag.Ready(nodes, index, i, t)
    requires x in t.split.unSlicedChildren
    ensures x in t.children
  {
    var g, rule, c := ConditionDag.ConditionGraph(nodes, index), ConditionDag.SplitRule(nodes, index), t.children;
    forall k | 0 <= k < |c| ensures IsGood(g, c[k]) {
      GoodChild(g, i, c[k]);
    }
    ValEquation(g, rule, i, Vals(g, rule, c));
    ConditionDag.JoinedSplits(c, Vals(g, rule, c), x);
  }

  /** What initialisation establishes for all trackers of a configuration is what evaluation needs. */
  lemma InitializedIsReady(nodes: seq<ConditionDag.Predicate>, index: map<int, nat>, ts: seq<ConditionDag.Tracker>,
                           e: Setting, trackers: seq<Tracker>)
    requires Initialized(nodes, index, ts) && |e.nodes| == |trackers| == |nodes|
    requires forall i :: 0 <= i < |nodes| ==> NodeOf(nodes[i], ts[i], e.nodes[i])
    requires forall i :: 0 <= i < |nodes| && nodes[i].Simple? ==> trackers[i].initial != NotEvaluated
    ensures Ready(e, trackers)
  {
    SameGraph(nodes, index, ts, e.nodes);
    forall i | 0 <= i < |e.nodes| ensures ReadyAt(e, trackers, i) {
      assert NodeOf(nodes[i], ts[i], e.nodes[i]);
      if nodes[i].Combination? {
        var t := ts[i];
        forall k | 0 <= k < |t.split.unSlicedChildren| ensures t.split.unSlicedChildren[k] in t.children {
          UnSlicedAreKids(nodes, index, i, t, t.split.unSlicedChildren[k]);
        }
      }
    }
  }

  /** Untouched before its evaluation; afterwards stepped once from the state before the event. */
  predicate LeafDone(e: Setting, before: Round, r: Round, i: nat)
    requires Sized(e, before) && Sized(e, r) && i < |e.nodes| && e.nodes[i].Leaf?
  {
    if r.cache[i] == NotEvaluated then r.trackers[i] == before.trackers[i]
    else
      var o := Stepped(e, before.trackers, i);
      r.trackers[i] == o.tracker && r.changed[i] == o.changed
  }

  predicate ChangedAt(r: Round, j: nat) { j < |r.changed| && r.changed[j] }

  predicate EvaluatedAt(cache: seq<ConditionState>, j: nat) { j < |cache| && cache[j] != NotEvaluated }

  predicate KidsEvaluated(cache: seq<ConditionState>, kids: seq<nat>)
  {
    forall k :: 0 <= k < |kids| ==> EvaluatedAt(cache, kids[k])
  }

  predicate KidChanged(r: Round, kids: seq<nat>) { exists k :: 0 <= k < |kids| && ChangedAt(r, kids[k]) }

  /** An unsliced combination stores its condition and changed when that did; a sliced one stores
      the condition of its unsliced part and changed when a child did. */
  predicate CombinedDone(e: Setting, before: Round, r: Round, i: nat)
    requires Sized(e, before) && Sized(e, r) && i < |e.nodes| && e.nodes[i].Combined?
  {
    if r.cache[i] == NotEvaluated then r.unSliced[i] == before.unSliced[i] && r.changed[i] == before.changed[i]
    else
      && KidsEvaluated(r.cache, e.nodes[i].kids)
      && if e.nodes[i].sliced then
           && (r.changed[i] <==> before.changed[i] || KidChanged(r, e.nodes[i].kids))
           && KidsEvaluated(r.cache, e.nodes[i].unSlicedKids)
           && r.unSliced[i] == Combine(e.nodes[i].operation, Picked(e.nodes[i].unSlicedKids, r.cache))
         else r.unSliced[i] == r.cache[i] && (r.changed[i] <==> before.unSliced[i] != r.cache[i])
  }

  predicate NodeDone(e: Setting, before: Round, r: Round, i: nat)
    requires Sized(e, before) && Sized(e, r) && i < |e.nodes|
  {
    if e.nodes[i].Leaf? then LeafDone(e, before, r, i) else CombinedDone(e, before, r, i)
  }

  /** The entries of the cache are those of the recursive evaluation. */
  ghost predicate CachedAt(g: Graph, rule: (nat, seq<ConditionState>) -> ConditionState, cache: seq<ConditionState>,
                           j: nat)
    requires j < |cache|
  {
    cache[j] != NotEvaluated ==> IsGood(g, j) && cache[j] == Val(g, rule, j)
  }

  ghost predicate Cached(g: Graph, rule: (nat, seq<ConditionState>) -> ConditionState, cache: seq<ConditionState>)
  {
    forall j {:trigger CachedAt(g, rule, cache, j)} :: 0 <= j < |cache| ==> CachedAt(g, rule, cache, j)
  }

  ghost predicate Done(e: Setting, before: Round, r: Round)
  {
    && Sized(e, before) && Sized(e, r)
    && Cached(NodeGraph(e.nodes), EventRule(e, before.trackers), r.cache)
    && forall j {:trigger NodeDone(e, before, r, j)} :: 0 <= j < |e.nodes| ==> NodeDone(e, before, r, j)
  }

  /** What was evaluated stays evaluated. */
  ghost predicate Extends(a: seq<ConditionState>, b: seq<ConditionState>)
  {
    |a| == |b| && forall j :: EvaluatedAt(a, j) ==> EvaluatedAt(b, j)
  }

  /** Evaluating a tracker does not reach those of height `h` or more. */
  ghost predicate Below(e: Setting, a: Round, b: Round, h: nat)
  {
    && |a.cache| == |b.cache|
    && forall j :: 0 <= j < |a.cache| && Height(NodeGraph(e.nodes), j) >= h ==> b.cache[j] == a.cache[j]
  }

  lemma RoundsChain(e: Setting, a: Round, b: Round, c: Round, h: nat, h1: nat)
    requires Extends(a.cache, b.cache) && Extends(b.cache, c.cache)
    requires Below(e, a, b, h) && Below(e, b, c, h1 + 1) && h1 < h
    ensures Extends(a.cache, c.cache) && Below(e, a, c, h)
  {
  }

  lemma LeafState(e: Setting, trackers: seq<Tracker>, i: nat)
    requires i < |e.nodes| == |trackers| && ReadyAt(e, trackers, i) && e.nodes[i].Leaf?
    ensures Val(NodeGraph(e.nodes), EventRule(e, trackers), i) == Stepped(e, trackers, i).state != NotEvaluated
  {
  }

  lemma CombinedState(e: Setting, trackers: seq<Tracker>, r: Round, i: nat)
    requires IsGood(NodeGraph(e.nodes), i) && i < |e.nodes| == |trackers| == |r.cache| && e.nodes[i].Combined?
    requires Cached(NodeGraph(e.nodes), EventRule(e, trackers), r.cache) && KidsEvaluated(r.cache, e.nodes[i].kids)
    ensures Val(NodeGraph(e.nodes), EventRule(e, trackers), i)
         == Combine(e.nodes[i].operation, Picked(e.nodes[i].kids, r.cache))
  {
    var g, rule, kids := NodeGraph(e.nodes), EventRule(e, trackers), e.nodes[i].kids;
    forall k | 0 <= k < |kids| ensures IsGood(g, kids[k]) && r.cache[kids[k]] == Val(g, rule, kids[k]) {
      assert EvaluatedAt(r.cache, kids[k]) && CachedAt(g, rule, r.cache, kids[k]);
    }
    ValEquation(g, rule, i, Picked(kids, r.cache));
  }

  /** Changing only what belongs to an unevaluated node leaves the other nodes done. */
  lemma OthersStayDone(e: Setting, before: Round, r: Round, r': Round, i: nat, j: nat)
    requires Sized(e, before) && Sized(e, r) && Sized(e, r') && i < |e.nodes| && j < |e.nodes| && j != i
    requires r.cache[i] == NotEvaluated && NodeDone(e, before, r, j)
    requires r'.cache == r.cache[i := r'.cache[i]] && r'.changed == r.changed[i := r'.changed[i]]
    requires r'.trackers == r.trackers[i := r'.trackers[i]] && r'.unSliced == r.unSliced[i := r'.unSliced[i]]
    ensures NodeDone(e, before, r', j)
  {
    if e.nodes[j].Combined? && r.cache[j] != NotEvaluated {
      KidsUntouched(r, r', i, e.nodes[j].kids);
      if e.nodes[j].sliced {
        KidsUntouched(r, r', i, e.nodes[j].unSlicedKids);
      }
    }
  }

  /** Evaluated children are not the unevaluated node that changes. */
  lemma KidsUntouched(r: Round, r': Round, i: nat, kids: seq<nat>)
    requires |r.cache| == |r'.cache| == |r.changed| == |r'.changed| && i < |r.cache| && r.cache[i] == NotEvaluated
    requires r'.cache == r.cache[i := r'.cache[i]] && r'.changed == r.changed[i := r'.changed[i]]
    requires KidsEvaluated(r.cache, kids)
    ensures KidsEvaluated(r'.cache, kids) && (KidChanged(r', kids) <==> KidChanged(r, kids))
    ensures Picked(kids, r'.cache) == Picked(kids, r.cache)
  {
    forall k | 0 <= k < |kids|
      ensures EvaluatedAt(r'.cache, kids[k]) && (ChangedAt(r', kids[k]) <==> ChangedAt(r, kids[k]))
      ensures r'.cache[kids[k]] == r.cache[kids[k]]
    {
      assert EvaluatedAt(r.cache, kids[k]);
    }
  }

  lemma NodeMadeDone(e: Setting, before: Round, r: Round, r': Round, i: nat)
    requires Done(e, before, r) && Sized(e, r') && i < |e.nodes| && r.cache[i] == NotEvaluated
    requires r'.cache == r.cache[i := r'.cache[i]] && r'.changed == r.changed[i := r'.changed[i]]
    requires r'.trackers == r.trackers[i := r'.trackers[i]] && r'.unSliced == r.unSliced[i := r'.unSliced[i]]
    requires IsGood(NodeGraph(e.nodes), i) && r'.cache[i] == Val(NodeGraph(e.nodes), EventRule(e, before.trackers), i)
    requires NodeDone(e, before, r', i)
    ensures Done(e, before, r')
  {
    var g, rule := NodeGraph(e.nodes), EventRule(e, before.trackers);
    forall j | 0 <= j < |e.nodes| ensures NodeDone(e, before, r', j) && CachedAt(g, rule, r'.cache, j) {
      assert NodeDone(e, before, r, j) && CachedAt(g, rule, r.cache, j);
      if j != i { OthersStayDone(e, before, r, r', i, j); }
    }
  }

  /** Evaluates one tracker. Whatever was evaluated before, and however many combinations share a
      tracker, each simple tracker takes one step from its state before the event. */
  method EvaluateCondition(e: Setting, ghost before: Round, i: nat, r0: Round) returns (r: Round)
    requires Sized(e, before) && Ready(e, before.trackers) && Done(e, before, r0) && i < |e.nodes|
    ensures Done(e, before, r) && Extends(r0.cache, r.cache) && EvaluatedAt(r.cache, i)
    ensures Below(e, r0, r, Height(NodeGraph(e.nodes), i) + 1)
    decreases Height(NodeGraph(e.nodes), i), 1
  {
    r := r0;
    if r0.cache[i] != NotEvaluated {
      return;
    }
    assert NodeDone(e, before, r0, i) && ReadyAt(e, before.trackers, i);
    match e.nodes[i]
    case Leaf(_) =>
      var o := Stepped(e, r0.trackers, i);
      r := Round(r0.trackers[i := o.tracker], r0.unSliced, r0.cache[i := o.state], r0.changed[i := o.changed]);
      LeafState(e, before.trackers, i);
      NodeMadeDone(e, before, r0, r, i);
    case Combined(_, _, _, _) =>
      var r1 := EvaluateKids(e, before, i, r0);
      r := Recompute(e, before, i, r1);
  }

  method EvaluateKids(e: Setting, ghost before: Round, i: nat, r0: Round) returns (r: Round)
    requires Sized(e, before) && Ready(e, before.trackers) && Done(e, before, r0) && i < |e.nodes|
    requires e.nodes[i].Combined?
    ensures Done(e, before, r) && Extends(r0.cache, r.cache) && KidsEvaluated(r.cache, e.nodes[i].kids)
    ensures Below(e, r0, r, Height(NodeGraph(e.nodes), i))
    decreases Height(NodeGraph(e.nodes), i), 0
  {
    r := r0;
    var kids := e.nodes[i].kids;
    ghost var g, h := NodeGraph(e.nodes), Height(NodeGraph(e.nodes), i);
    assert ReadyAt(e, before.trackers, i) && g.kids[i] == Some(kids);
    ChildrenAreLower(g, i, kids);
    for k := 0 to |kids|
      invariant Done(e, before, r) && Extends(r0.cache, r.cache) && Below(e, r0, r, h)
      invariant KidsEvaluated(r.cache, kids[..k])
    {
      ghost var was := r;
      r := EvaluateKid(e, before, kids[k], r);
      RoundsChain(e, r0, was, r, h, Height(g, kids[k]));
      OneMoreKid(was.cache, r.cache, kids, k);
    }
    assert kids[..|kids|] == kids;
  }

  lemma OneMoreKid(a: seq<ConditionState>, b: seq<ConditionState>, kids: seq<nat>, k: nat)
    requires k < |kids| && KidsEvaluated(a, kids[..k]) && Extends(a, b) && EvaluatedAt(b, kids[k])
    ensures KidsEvaluated(b, kids[..k + 1])
  {
    forall m | 0 <= m <= k ensures EvaluatedAt(b, kids[m]) {
      if m < k { assert EvaluatedAt(a, kids[..k][m]); }
    }
  }

  /** A child is evaluated unless the cache knows it. */
  method EvaluateKid(e: Setting, ghost before: Round, j: nat, r0: Round) returns (r: Round)
    requires Sized(e, before) && Ready(e, before.trackers) && Done(e, before, r0) && j < |e.nodes|
    ensures Done(e, before, r) && Extends(r0.cache, r.cache) && EvaluatedAt(r.cache, j)
    ensures Below(e, r0, r, Height(NodeGraph(e.nodes), j) + 1)
    decreases Height(NodeGraph(e.nodes), j), 2
  {
    r := r0;
    if r.cache[j] == NotEvaluated {
      r := EvaluateCondition(e, before, j, r);
    }
  }

  /** A combination from its evaluated children. */
  method Recompute(e: Setting, ghost before: Round, i: nat, r0: Round) returns (r: Round)
    requires Sized(e, before) && Ready(e, before.trackers) && Done(e, before, r0) && i < |e.nodes|
    requires e.nodes[i].Combined?
    requires r0.cache[i] == NotEvaluated && KidsEvaluated(r0.cache, e.nodes[i].kids)
    ensures Done(e, before, r) && Extends(r0.cache, r.cache) && EvaluatedAt(r.cache, i)
    ensures r.cache == r0.cache[i := r.cache[i]]
  {
    var Combined(op, kids, unSlicedKids, sliced) := e.nodes[i];
    assert NodeDone(e, before, r0, i) && ReadyAt(e, before.trackers, i);
    CombinedState(e, before.trackers, r0, i);
    var newCondition := EvaluateCombinationCondition(kids, op, r0.cache);
    if !sliced {
      var nonSlicedChanged := r0.unSliced[i] != newCondition;
      r := Round(r0.trackers, r0.unSliced[i := newCondition], r0.cache[i := newCondition],
                 r0.changed[i := nonSlicedChanged]);
    } else {
      UnSlicedEvaluated(r0, kids, unSlicedKids);
      var unSliced := EvaluateCombinationCondition(unSlicedKids, op, r0.cache);
      var changed := AnyChanged(r0, kids, r0.changed[i]);
      r := Round(r0.trackers, r0.unSliced[i := unSliced], r0.cache[i := newCondition], r0.changed[i := changed]);
      KidsUntouched(r0, r, i, unSlicedKids);
    }
    KidsUntouched(r0, r, i, kids);
    NodeMadeDone(e, before, r0, r, i);
  }

  lemma UnSlicedEvaluated(r: Round, kids: seq<nat>, unSlicedKids: seq<nat>)
    requires KidsEvaluated(r.cache, kids) && forall k :: 0 <= k < |unSlicedKids| ==> unSlicedKids[k] in kids
    ensures KidsEvaluated(r.cache, unSlicedKids)
  {
  }

  method AnyChanged(r: Round, kids: seq<nat>, changed0: bool) returns (changed: bool)
    requires forall k :: 0 <= k < |kids| ==> kids[k] < |r.changed|
    ensures changed <==> changed0 || KidChanged(r, kids)
  {
    changed := changed0;
    for k := 0 to |kids|
      invariant changed == changed0 && forall m :: 0 <= m < k ==> !ChangedAt(r, kids[m])
    {
      if r.changed[kids[k]] {
        changed := true;
        assert ChangedAt(r, kids[k]);
        break;
      }
    }
  }

  /** All conditions to be evaluated for an event, in any order. */
  method EvaluateInOrder(e: Setting, before: Round, order: seq<nat>) returns (r: Round)
    requires Sized(e, before) && Ready(e, before.trackers) && forall k :: 0 <= k < |order| ==> order[k] < |e.nodes|
    requires forall j :: 0 <= j < |e.nodes| ==> before.cache[j] == NotEvaluated
    ensures Done(e, before, r) && forall k :: 0 <= k < |order| ==> EvaluatedAt(r.cache, order[k])
  {
    r := before;
    assert forall j :: 0 <= j < |e.nodes| ==> NodeDone(e, before, before, j);
    for k := 0 to |order|
      invariant Done(e, before, r) && forall m :: 0 <= m < k ==> EvaluatedAt(r.cache, order[m])
    {
      r := EvaluateCondition(e, before, order[k], r);
    }
  }
}
