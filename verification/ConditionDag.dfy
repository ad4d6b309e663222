/** Three-valued conditions combined by logical operations (condition/condition_util.cpp). */
module ConditionLogic {
  import opened Options
  import opened Dag

  datatype LogicalOperation = LOGICAL_OPERATION_UNSPECIFIED | AND | OR | NOT | NAND | NOR

  /** The children of a combination, or None when its own configuration is wrong. */
  function CombinationKids(op: Option<LogicalOperation>, ids: seq<int>, index: map<int, nat>): Option<seq<nat>>
  {
    if op.None? || (op.value == NOT && |ids| != 1) then None else LookUp(ids, index)
  }

  datatype ConditionState = NotEvaluated | Unknown | False | True

  /** The enum's order, and the `|` that takes the larger of two states. */
  function Level(s: ConditionState): int
  {
    match s case NotEvaluated => -2 case Unknown => -1 case False => 0 case True => 1
  }

  function Either(l: ConditionState, r: ConditionState): ConditionState { if Level(l) >= Level(r) then l else r }

  /** What a combination is worth: unknown as soon as one child is. */
  function Combine(op: LogicalOperation, states: seq<ConditionState>): (r: ConditionState)
    ensures r != NotEvaluated
  {
    if Unknown in states then Unknown
    else match op
      case AND => if False in states then False else True
      case OR => if True in states then True else False
      case NOT => if states == [] then Unknown else if states[0] == False then True else False
      case NAND => if False in states then True else False
      case NOR => if True in states then False else True
      case LOGICAL_OPERATION_UNSPECIFIED => False
  }

  /** What negation does to a state that is known. */
  function Negated(s: ConditionState): ConditionState
  {
    match s case True => False case False => True case _ => s
  }

  function AllNegated(states: seq<ConditionState>): (r: seq<ConditionState>)
    ensures |r| == |states| && forall i :: 0 <= i < |states| ==> r[i] == Negated(states[i])
  {
    seq(|states|, i requires 0 <= i < |states| => Negated(states[i]))
  }

  predicate Known(states: seq<ConditionState>)
  {
    forall i :: 0 <= i < |states| ==> states[i] == True || states[i] == False
  }

  /** On known states the operations are those of logic: AND when all are true, OR when one is, NOT of
      a single one, NAND and NOR as their negations. */
  lemma CombineTruth(states: seq<ConditionState>)
    requires Known(states)
    ensures Combine(AND, states) == if forall i :: 0 <= i < |states| ==> states[i] == True then True else False
    ensures Combine(OR, states) == if exists i :: 0 <= i < |states| && states[i] == True then True else False
    ensures Combine(NAND, states) == Negated(Combine(AND, states))
    ensures Combine(NOR, states) == Negated(Combine(OR, states))
    ensures |states| == 1 ==> Combine(NOT, states) == Negated(states[0])
  {
  }

  /** One unknown child makes every combination unknown. */
  lemma UnknownSpreads(op: LogicalOperation, states: seq<ConditionState>)
    requires Unknown in states
    ensures Combine(op, states) == Unknown
  {
  }

  /** De Morgan, unknown states included. */
  lemma DeMorgan(states: seq<ConditionState>)
    requires forall i :: 0 <= i < |states| ==> states[i] != NotEvaluated
    ensures Combine(NAND, states) == Combine(OR, AllNegated(states))
    ensures Combine(NOR, states) == Combine(AND, AllNegated(states))
  {
    var r := AllNegated(states);
    forall s | s == True || s == False || s == Unknown ensures s in states <==> Negated(s) in r {
      if i :| 0 <= i < |states| && states[i] == s { assert r[i] == Negated(s); }
      if i :| 0 <= i < |r| && r[i] == Negated(s) { assert states[i] == s; }
    }
  }

  method EvaluateCombinationCondition(children: seq<nat>, operation: LogicalOperation, cache: seq<ConditionState>)
    returns (newCondition: ConditionState)
    requires forall k :: 0 <= k < |children| ==> children[k] < |cache|
    ensures newCondition == Combine(operation, Picked(children, cache))
  {
    var hasUnknown, hasFalse, hasTrue := false, false, false;
    ghost var states := Picked(children, cache);
    for k := 0 to |children|
      invariant !hasUnknown && Unknown !in states[..k]
      invariant hasFalse == (False in states[..k]) && hasTrue == (True in states[..k])
    {
      var childState := cache[children[k]];
      assert states[..k + 1] == states[..k] + [childState];
      if childState == Unknown {
        hasUnknown := true;
        assert states[k] == Unknown;
        break;
      }
      if childState == False {
        hasFalse := true;
      }
      if childState == True {
        hasTrue := true;
      }
    }
    assert states[..|children|] == states;
    if hasUnknown {
      return Unknown;
    }
    match operation
    case AND => newCondition := if hasFalse then False else True;
    case OR => newCondition := if hasTrue then True else False;
    case NOT =>
      newCondition := if |children| == 0 then Unknown else if cache[children[0]] == False then True else False;
    case NAND => newCondition := if hasFalse then True else False;
    case NOR => newCondition := if hasTrue then False else True;
    case LOGICAL_OPERATION_UNSPECIFIED => newCondition := False;
  }
}

/** Initialisation of the condition trackers of a configuration
    (condition/CombinationConditionTracker.cpp): depth first, with a stack to detect cycles. */
module ConditionDag {
  import opened Options
  import opened Dag
  import opened ConditionLogic

  /** A simple predicate is known by the state its tracker reports, by whether that is sliced and by
      the matchers it listens to; combinations name their children by id. */
  datatype Predicate =
    | Simple(state: ConditionState, sliced: bool, matchers: set<int>)
    | Combination(operation: Option<LogicalOperation>, ids: seq<int>)

  function KidsOf(p: Predicate, index: map<int, nat>): Option<seq<nat>>
  {
    match p
    case Simple(_, _, _) => Some([])
    case Combination(op, ids) => CombinationKids(op, ids, index)
  }

  function ConditionGraph(nodes: seq<Predicate>, index: map<int, nat>): (g: Graph)
    ensures |g.kids| == |nodes| && forall i :: 0 <= i < |nodes| ==> g.kids[i] == KidsOf(nodes[i], index)
  {
    Graph(seq(|nodes|, i requires 0 <= i < |nodes| => KidsOf(nodes[i], index)))
  }

  // ---------- the recursive evaluation ----------

  function NodeState(nodes: seq<Predicate>, i: nat, states: seq<ConditionState>): ConditionState
  {
    if i >= |nodes| then Unknown
    else match nodes[i]
      case Simple(state, _, _) => state
      case Combination(op, _) => if op.None? then Unknown else Combine(op.value, states)
  }

  /** The recursive three-valued evaluation, as a rule for one node. */
  function Rule(nodes: seq<Predicate>): (nat, seq<ConditionState>) -> ConditionState
  {
    (i: nat, states: seq<ConditionState>) => NodeState(nodes, i, states)
  }

  // ---------- sliced and unsliced children ----------

  /** Whether a tracker is sliced, which of its children are and are not, and all matchers below it. */
  datatype Split = Split(sliced: bool, slicedChildren: seq<nat>, unSlicedChildren: seq<nat>, matchers: set<int>)

  const NO_CHILDREN := Split(false, [], [], {})

  function WithChild(s: Split, c: nat, child: Split): Split
  {
    if child.sliced then Split(true, s.slicedChildren + [c], s.unSlicedChildren, s.matchers + child.matchers)
    else Split(s.sliced, s.slicedChildren, s.unSlicedChildren + [c], s.matchers + child.matchers)
  }

  function Joined(c: seq<nat>, splits: seq<Split>): Split
    requires |c| == |splits|
  {
    if c == [] then NO_CHILDREN
    else
      var n := |c| - 1;
      WithChild(Joined(c[..n], splits[..n]), c[n], splits[n])
  }

  function SplitAt(nodes: seq<Predicate>, index: map<int, nat>, i: nat, splits: seq<Split>): Split
  {
    if i >= |nodes| then NO_CHILDREN
    else match nodes[i]
      case Simple(_, sliced, matchers) => Split(sliced, [], [], matchers)
      case Combination(_, ids) =>
        var c := LookUp(ids, index);
        if c.Some? && |c.value| == |splits| then Joined(c.value, splits) else NO_CHILDREN
  }

  function SplitRule(nodes: seq<Predicate>, index: map<int, nat>): (nat, seq<Split>) -> Split
  {
    (i: nat, splits: seq<Split>) => SplitAt(nodes, index, i, splits)
  }

  /** The children gone through so far and how they split. */
  ghost predicate SplitCollected(g: Graph, rule: (nat, seq<Split>) -> Split, c: seq<nat>, s: Split)
  {
    (forall m :: 0 <= m < |c| ==> IsGood(g, c[m])) && s == Joined(c, Vals(g, rule, c))
  }

  lemma SplitCollectedMore(g: Graph, rule: (nat, seq<Split>) -> Split, c: seq<nat>, s: Split, k: nat)
    requires SplitCollected(g, rule, c, s) && IsGood(g, k)
    ensures SplitCollected(g, rule, c + [k], WithChild(s, k, Val(g, rule, k)))
  {
    var d := c + [k];
    var all, more := Vals(g, rule, c), Vals(g, rule, d);
    assert d[..|d| - 1] == c && more[..|more| - 1] == all && more[|more| - 1] == Val(g, rule, k);
  }

  lemma SplitCollectedNone(g: Graph, rule: (nat, seq<Split>) -> Split)
    ensures SplitCollected(g, rule, [], NO_CHILDREN)
  {
  }

  predicate HasChild(c: seq<nat>, splits: seq<Split>, x: nat, sliced: bool)
    requires |c| == |splits|
  {
    exists m :: 0 <= m < |c| && c[m] == x && splits[m].sliced == sliced
  }

  lemma HasChildSnoc(c: seq<nat>, splits: seq<Split>, x: nat, sliced: bool)
    requires |c| == |splits| > 0
    ensures var n := |c| - 1;
            HasChild(c, splits, x, sliced)
            <==> HasChild(c[..n], splits[..n], x, sliced) || (c[n] == x && splits[n].sliced == sliced)
  {
    var n := |c| - 1;
    if HasChild(c[..n], splits[..n], x, sliced) {
      var m :| 0 <= m < n && c[..n][m] == x && splits[..n][m].sliced == sliced;
      assert c[m] == x && splits[m].sliced == sliced;
    }
    if HasChild(c, splits, x, sliced) {
      var m :| 0 <= m < |c| && c[m] == x && splits[m].sliced == sliced;
      assert m < n ==> c[..n][m] == x && splits[..n][m].sliced == sliced;
    }
  }

  /** The two lists are exactly the sliced and the other children, and a combination is sliced when
      the first is not empty. */
  lemma {:induction false} JoinedSplits(c: seq<nat>, splits: seq<Split>, x: nat)
    requires |c| == |splits|
    ensures var s := Joined(c, splits);
            && (x in s.slicedChildren <==> HasChild(c, splits, x, true))
            && (x in s.unSlicedChildren <==> HasChild(c, splits, x, false))
            && (s.sliced <==> s.slicedChildren != [])
  {
    if c != [] {
      JoinedSplits(c[..|c| - 1], splits[..|c| - 1], x);
      HasChildSnoc(c, splits, x, true);
      HasChildSnoc(c, splits, x, false);
    }
  }

  /** What a tracker can have from a simple predicate below it: it is sliced, or a matcher concerns it. */
  datatype Trait = IsSliced | ListensTo(matcher: int)

  predicate Has(s: Split, tr: Trait)
  {
    match tr case IsSliced => s.sliced case ListensTo(matcher) => matcher in s.matchers
  }

  predicate IsSource(nodes: seq<Predicate>, j: nat, tr: Trait)
  {
    && j < |nodes| && nodes[j].Simple?
    && match tr case IsSliced => nodes[j].sliced case ListensTo(matcher) => matcher in nodes[j].matchers
  }

  lemma {:induction false} JoinedHas(c: seq<nat>, splits: seq<Split>, tr: Trait)
    requires |c| == |splits|
    ensures Has(Joined(c, splits), tr) <==> exists m :: 0 <= m < |splits| && Has(splits[m], tr)
  {
    if c != [] {
      var n := |c| - 1;
      JoinedHas(c[..n], splits[..n], tr);
      if m :| 0 <= m < |splits[..n]| && Has(splits[..n][m], tr) { assert Has(splits[m], tr); }
      if m :| 0 <= m < |splits| && Has(splits[m], tr) && m < n { assert Has(splits[..n][m], tr); }
    }
  }

  /** Some path leads from `i` down to a simple predicate with that trait. */
  ghost predicate LeadsToSource(nodes: seq<Predicate>, index: map<int, nat>, i: nat, tr: Trait)
  {
    exists p :: StartsAt(ConditionGraph(nodes, index), p, i) && IsSource(nodes, p[|p| - 1], tr)
  }

  lemma ConsSource(nodes: seq<Predicate>, index: map<int, nat>, i: nat, j: nat, tr: Trait)
    requires Edge(ConditionGraph(nodes, index), i, j) && LeadsToSource(nodes, index, j, tr)
    ensures LeadsToSource(nodes, index, i, tr)
  {
    var g := ConditionGraph(nodes, index);
    var p :| StartsAt(g, p, j) && IsSource(nodes, p[|p| - 1], tr);
    ConsPath(g, i, p);
    assert StartsAt(g, [i] + p, i) && ([i] + p)[|p|] == p[|p| - 1];
  }

  lemma {:induction false} CombinationSplit(nodes: seq<Predicate>, index: map<int, nat>, i: nat, n: nat,
                                            splits: seq<Split>, tr: Trait)
    requires Good(ConditionGraph(nodes, index), i, n) && nodes[i].Combination?
    requires splits == Values(ConditionGraph(nodes, index), SplitRule(nodes, index),
                              ConditionGraph(nodes, index).kids[i].value, n - 1)
    ensures Has(Value(ConditionGraph(nodes, index), SplitRule(nodes, index), i, n), tr)
       <==> exists m :: 0 <= m < |splits| && Has(splits[m], tr)
  {
    var g, rule := ConditionGraph(nodes, index), SplitRule(nodes, index);
    var c := g.kids[i].value;
    assert g.kids[i] == KidsOf(nodes[i], index) == LookUp(nodes[i].ids, index);
    assert Value(g, rule, i, n) == rule(i, splits);
    assert rule(i, splits) == SplitAt(nodes, index, i, splits) == Joined(c, splits);
    JoinedHas(c, splits, tr);
  }

  lemma {:induction false} HasLeads(nodes: seq<Predicate>, index: map<int, nat>, i: nat, n: nat, tr: Trait)
    requires Good(ConditionGraph(nodes, index), i, n)
    requires Has(Value(ConditionGraph(nodes, index), SplitRule(nodes, index), i, n), tr)
    ensures LeadsToSource(nodes, index, i, tr)
    decreases n
  {
    var g, rule := ConditionGraph(nodes, index), SplitRule(nodes, index);
    if nodes[i].Simple? {
      assert StartsAt(g, [i], i) && IsSource(nodes, [i][0], tr);
    } else {
      var c := g.kids[i].value;
      var splits := Values(g, rule, c, n - 1);
      CombinationSplit(nodes, index, i, n, splits, tr);
      var m :| 0 <= m < |splits| && Has(splits[m], tr);
      HasLeads(nodes, index, c[m], n - 1, tr);
      ConsSource(nodes, index, i, c[m], tr);
    }
  }

  lemma {:induction false} LeadsHas(nodes: seq<Predicate>, index: map<int, nat>, p: seq<nat>, n: nat, tr: Trait)
    requires Path(ConditionGraph(nodes, index), p) && Good(ConditionGraph(nodes, index), p[0], n)
    requires IsSource(nodes, p[|p| - 1], tr)
    ensures Has(Value(ConditionGraph(nodes, index), SplitRule(nodes, index), p[0], n), tr)
    decreases |p|
  {
    var g, rule := ConditionGraph(nodes, index), SplitRule(nodes, index);
    if |p| > 1 {
      var c, q := g.kids[p[0]].value, p[1..];
      assert Edge(g, p[0], p[1]);
      forall m: nat | m + 1 < |q| ensures Edge(g, q[m], q[m + 1]) {
        assert Edge(g, p[m + 1], p[m + 2]);
      }
      var k :| 0 <= k < |c| && c[k] == p[1];
      LeadsHas(nodes, index, q, n - 1, tr);
      var splits := Values(g, rule, c, n - 1);
      assert Has(splits[k], tr);
      CombinationSplit(nodes, index, p[0], n, splits, tr);
    }
  }

  /** A tracker is sliced exactly when a simple predicate below it is, and it is concerned by exactly
      the matchers of the simple predicates below it. */
  lemma SplitFromSources(nodes: seq<Predicate>, index: map<int, nat>, i: nat, tr: Trait)
    requires IsGood(ConditionGraph(nodes, index), i)
    ensures Has(Val(ConditionGraph(nodes, index), SplitRule(nodes, index), i), tr)
       <==> LeadsToSource(nodes, index, i, tr)
  {
    var g, rule := ConditionGraph(nodes, index), SplitRule(nodes, index);
    var n: nat :| Good(g, i, n) && Val(g, rule, i) == Value(g, rule, i, n);
    if Has(Value(g, rule, i, n), tr) {
      HasLeads(nodes, index, i, n, tr);
    }
    if LeadsToSource(nodes, index, i, tr) {
      var p :| StartsAt(g, p, i) && IsSource(nodes, p[|p| - 1], tr);
      LeadsHas(nodes, index, p, n, tr);
    }
  }

  // ---------- one tracker ----------

  datatype Tracker = Tracker(initialized: bool, operation: LogicalOperation, children: seq<nat>, split: Split,
                             unSlicedPart: ConditionState)

  /** A combination that is initialised. */
  ghost predicate Ready(nodes: seq<Predicate>, index: map<int, nat>, i: nat, t: Tracker)
    requires i < |nodes|
  {
    var g := ConditionGraph(nodes, index);
    && IsGood(g, i) && g.kids[i] == Some(t.children)
    && nodes[i].Combination? && nodes[i].operation == Some(t.operation)
    && t.split == Val(g, SplitRule(nodes, index), i)
    && (forall k :: 0 <= k < |t.split.unSlicedChildren| ==> IsGood(g, t.split.unSlicedChildren[k]))
    && t.unSlicedPart == Combine(t.operation, Vals(g, Rule(nodes), t.split.unSlicedChildren))
  }

  /** What an entry of the cache must be. */
  ghost predicate Evaluated(nodes: seq<Predicate>, index: map<int, nat>, i: nat, state: ConditionState)
  {
    IsGood(ConditionGraph(nodes, index), i) && state == Val(ConditionGraph(nodes, index), Rule(nodes), i)
  }

  /** One tracker with its places in the stack and in the cache. */
  ghost predicate Consistent(nodes: seq<Predicate>, index: map<int, nat>, i: nat, t: Tracker, onStack: bool,
                             state: ConditionState)
    requires i < |nodes|
  {
    && (nodes[i].Simple? ==> nodes[i].state != NotEvaluated && !onStack && !t.initialized
                             && t.split == Split(nodes[i].sliced, [], [], nodes[i].matchers))
    && (t.initialized ==> !onStack && Ready(nodes, index, i, t))
    && (nodes[i].Combination? && !t.initialized && !onStack ==> t.children == [] && t.split == NO_CHILDREN)
    && (state != NotEvaluated ==> Evaluated(nodes, index, i, state))
  }

  /** An initialised tracker, simple or not, knows how it is sliced. */
  lemma SplitIsVal(nodes: seq<Predicate>, index: map<int, nat>, i: nat, t: Tracker, onStack: bool,
                   state: ConditionState)
    requires i < |nodes| && Consistent(nodes, index, i, t, onStack, state) && IsGood(ConditionGraph(nodes, index), i)
    requires nodes[i].Combination? ==> t.initialized
    ensures t.split == Val(ConditionGraph(nodes, index), SplitRule(nodes, index), i)
  {
    if nodes[i].Simple? {
      ValEquation(ConditionGraph(nodes, index), SplitRule(nodes, index), i, []);
    }
  }

  /** A combination all of whose children were accepted. */
  lemma BecomesGood(nodes: seq<Predicate>, index: map<int, nat>, i: nat, t: Tracker)
    requires i < |nodes| && nodes[i].Combination? && nodes[i].operation == Some(t.operation)
    requires (t.operation == NOT ==> |nodes[i].ids| == 1) && Resolved(t.children, nodes[i].ids, index)
    requires SplitCollected(ConditionGraph(nodes, index), SplitRule(nodes, index), t.children, t.split)
    ensures var g := ConditionGraph(nodes, index);
            && IsGood(g, i) && g.kids[i] == Some(t.children) && t.split == Val(g, SplitRule(nodes, index), i)
            && forall k :: 0 <= k < |t.split.unSlicedChildren| ==> t.split.unSlicedChildren[k] in t.children
  {
    var g, rule := ConditionGraph(nodes, index), SplitRule(nodes, index);
    ResolvedIsLookUp(t.children, nodes[i].ids, index);
    GoodNode(g, i);
    ValEquation(g, rule, i, Vals(g, rule, t.children));
    forall k | 0 <= k < |t.split.unSlicedChildren| ensures t.split.unSlicedChildren[k] in t.children {
      JoinedSplits(t.children, Vals(g, rule, t.children), t.split.unSlicedChildren[k]);
    }
  }

  class ConditionTrackers {
    const nodes: seq<Predicate>
    const index: map<int, nat>
    var trackers: seq<Tracker>
    var stack: seq<bool>
    var cache: seq<ConditionState>

    ghost function Config(): Graph { ConditionGraph(nodes, index) }

    ghost predicate Sized()
      reads this
    {
      |trackers| == |stack| == |cache| == |nodes| && forall id :: id in index ==> index[id] < |nodes|
    }

    ghost predicate Valid()
      reads this
    {
      && Sized()
      && forall i {:trigger trackers[i]} ::
           0 <= i < |nodes| ==> Consistent(nodes, index, i, trackers[i], stack[i], cache[i])
    }

    /** Trackers on the stack or initialised are left alone, `but` one, and nothing evaluated is
        undone. */
    twostate predicate KeptBut(but: int)
      reads this
    {
      && old(Sized()) && Sized()
      && (forall j :: 0 <= j < |nodes| && j != but && (old(stack[j]) || old(trackers[j].initialized)) ==>
            trackers[j] == old(trackers[j]))
      && (forall j :: 0 <= j < |nodes| && old(cache[j]) != NotEvaluated ==> cache[j] != NotEvaluated)
    }

    constructor (nodes: seq<Predicate>, index: map<int, nat>)
      requires forall id :: id in index ==> index[id] < |nodes|
      requires forall i :: 0 <= i < |nodes| && nodes[i].Simple? ==> nodes[i].state != NotEvaluated
      ensures Valid() && this.nodes == nodes && this.index == index
      ensures forall i :: 0 <= i < |nodes| ==> !stack[i] && cache[i] == NotEvaluated
    {
      this.nodes, this.index := nodes, index;
      trackers := seq(|nodes|, i requires 0 <= i < |nodes| =>
        Tracker(false, LOGICAL_OPERATION_UNSPECIFIED, [],
                if nodes[i].Simple? then Split(nodes[i].sliced, [], [], nodes[i].matchers) else NO_CHILDREN, Unknown));
      stack := seq(|nodes|, _ => false);
      cache := seq(|nodes|, _ => NotEvaluated);
    }

    /** Initialises a tracker: succeeds exactly when everything below it is sane and acyclic, and
        then leaves its recursive evaluation in the cache. */
    method Init(i: nat) returns (ok: bool)
      requires Valid() && i < |nodes| && !stack[i] && Above(Config(), stack, i)
      modifies this
      ensures Valid() && KeptBut(-1)
      ensures ok <==> IsGood(Config(), i)
      ensures ok ==> stack == old(stack) && cache[i] != NotEvaluated
      ensures ok && nodes[i].Combination? ==> trackers[i].initialized
      decreases |Off(stack)|, 0, Height(Config(), i), 3
    {
      match nodes[i]
      case Simple(_, _, _) =>
        InitSimple(i);
        ok := true;
      case Combination(_, _) =>
        if trackers[i].initialized {
          InitAgain(i);
          ok := true;
        } else {
          ok := InitNew(i);
        }
    }

    /** A simple tracker reports its state once. */
    method InitSimple(i: nat)
      requires Valid() && i < |nodes| && nodes[i].Simple?
      modifies this`cache
      ensures Valid() && KeptBut(-1) && IsGood(Config(), i) && cache[i] != NotEvaluated
    {
      assert Good(Config(), i, 1);
      assert Consistent(nodes, index, i, trackers[i], stack[i], cache[i]);
      if cache[i] != NotEvaluated {
        return;
      }
      ValEquation(Config(), Rule(nodes), i, []);
      cache := cache[i := nodes[i].state];
    }

    /** All of `c` are evaluated. */
    ghost predicate Known(c: seq<nat>)
      reads this
    {
      forall k :: 0 <= k < |c| ==> c[k] < |cache| && cache[c[k]] != NotEvaluated
    }

    /** The states of evaluated trackers are those of the recursive evaluation. */
    lemma KnownStates(c: seq<nat>)
      requires Valid() && Known(c)
      ensures forall k :: 0 <= k < |c| ==> IsGood(Config(), c[k])
      ensures Picked(c, cache) == Vals(Config(), Rule(nodes), c)
    {
      forall k | 0 <= k < |c| ensures Evaluated(nodes, index, c[k], cache[c[k]]) {
        assert Consistent(nodes, index, c[k], trackers[c[k]], stack[c[k]], cache[c[k]]);
      }
    }

    /** Stores the combination of the children's states. */
    method Evaluate(i: nat)
      requires Valid() && i < |nodes| && IsGood(Config(), i) && nodes[i].Combination?
      requires Config().kids[i] == Some(trackers[i].children) && nodes[i].operation == Some(trackers[i].operation)
      requires Known(trackers[i].children)
      modifies this`cache
      ensures Valid() && KeptBut(-1) && cache[i] != NotEvaluated
    {
      var c := trackers[i].children;
      KnownStates(c);
      var state := EvaluateCombinationCondition(c, trackers[i].operation, cache);
      ValEquation(Config(), Rule(nodes), i, Picked(c, cache));
      cache := cache[i := state];
    }

    method InitAgain(i: nat)
      requires Valid() && i < |nodes| && !stack[i] && Above(Config(), stack, i) && trackers[i].initialized
      modifies this
      ensures Valid() && KeptBut(-1) && stack == old(stack) && cache[i] != NotEvaluated && trackers[i].initialized
      decreases |Off(stack)|, 0, Height(Config(), i), 2
    {
      var c := trackers[i].children;
      assert Ready(nodes, index, i, trackers[i]);
      ReadChildren(i, c);
      Evaluate(i);
    }

    method ReadChildren(i: nat, c: seq<nat>)
      requires Valid() && i < |nodes| && !stack[i] && Above(Config(), stack, i) && IsGood(Config(), i)
      requires Config().kids[i] == Some(c)
      modifies this
      ensures Valid() && KeptBut(-1) && stack == old(stack) && Known(c)
      decreases |Off(stack)|, 0, Height(Config(), i), 1
    {
      for k := 0 to |c|
        invariant Valid() && KeptBut(-1) && stack == old(stack)
        invariant forall m :: 0 <= m < k ==> c[m] < |cache| && cache[c[m]] != NotEvaluated
      {
        ReadAgain(i, c[k]);
      }
    }

    /** A child of an initialised combination is asked unless the cache knows it. */
    method ReadAgain(i: nat, c: nat)
      requires Valid() && i < |nodes| && !stack[i] && Above(Config(), stack, i)
      requires IsGood(Config(), i) && Edge(Config(), i, c)
      modifies this
      ensures Valid() && KeptBut(-1) && stack == old(stack) && c < |cache| && cache[c] != NotEvaluated
      decreases |Off(stack)|, 0, Height(Config(), i), 0
    {
      ChildIsLower(Config(), i, c);
      OffStack(Config(), stack, i, c);
      if cache[c] == NotEvaluated {
        var _ := Init(c);
      }
    }

    /** One child of a combination that is on top of the stack `before`. */
    method InitChild(i: nat, id: int, ghost before: seq<bool>) returns (ok: bool)
      requires Valid() && i < |nodes| && |before| == |nodes| && !before[i] && stack == before[i := true]
      requires Above(Config(), before, i) && (IsGood(Config(), i) ==> Needs(Config(), index, i, id))
      requires SplitCollected(Config(), SplitRule(nodes, index), trackers[i].children, trackers[i].split)
      modifies this
      ensures Valid() && KeptBut(i) && trackers[i].operation == old(trackers[i].operation)
      ensures !ok ==> !IsGood(Config(), i)
      ensures ok ==> && stack == old(stack) && id in index && cache[index[id]] != NotEvaluated
                     && trackers[i].children == old(trackers[i].children) + [index[id]]
                     && SplitCollected(Config(), SplitRule(nodes, index), trackers[i].children, trackers[i].split)
      decreases |Off(stack)|, 1, 0, 0
    {
      if id !in index {
        return false;
      }
      var c := index[id];
      if stack[c] {
        StackMeansCycle(Config(), before, i, c);
        return false;
      }
      AboveChild(Config(), before, i, c);
      ok := Init(c);
      assert trackers[i] == old(trackers[i]);
      if ok {
        AddChild(i, c);
      } else if IsGood(Config(), i) {
        GoodChild(Config(), i, c);
      }
    }

    /** Records an initialised child of the tracker on top of the stack. */
    method AddChild(i: nat, c: nat)
      requires Valid() && i < |nodes| && c < |nodes| && stack[i] && IsGood(Config(), c)
      requires nodes[c].Combination? ==> trackers[c].initialized
      requires SplitCollected(Config(), SplitRule(nodes, index), trackers[i].children, trackers[i].split)
      modifies this`trackers
      ensures Valid() && trackers == old(trackers)[i := trackers[i]]
      ensures trackers[i].operation == old(trackers[i].operation)
      ensures trackers[i].children == old(trackers[i].children) + [c]
      ensures SplitCollected(Config(), SplitRule(nodes, index), trackers[i].children, trackers[i].split)
    {
      var t, split := trackers[i], trackers[c].split;
      SplitIsVal(nodes, index, c, trackers[c], stack[c], cache[c]);
      SplitCollectedMore(Config(), SplitRule(nodes, index), t.children, t.split, c);
      trackers := trackers[i := t.(children := t.children + [c], split := WithChild(t.split, c, split))];
    }

    method InitNew(i: nat) returns (ok: bool)
      requires Valid() && i < |nodes| && !stack[i] && Above(Config(), stack, i)
      requires nodes[i].Combination? && !trackers[i].initialized
      modifies this
      ensures Valid() && KeptBut(-1)
      ensures ok <==> IsGood(Config(), i)
      ensures ok ==> stack == old(stack) && cache[i] != NotEvaluated && trackers[i].initialized
      decreases |Off(stack)|, 0, Height(Config(), i), 1
    {
      PushShrinks(stack, i);
      stack := stack[i := true];
      var Combination(op, ids) := nodes[i];
      if op.None? {
        return false;
      }
      trackers := trackers[i := trackers[i].(operation := op.value)];
      if op.value == NOT && |ids| != 1 {
        return false;
      }
      SplitCollectedNone(Config(), SplitRule(nodes, index));
      ok := InitChildren(i, old(stack));
      if ok {
        Finish(i);
        assert stack == old(stack);
      }
    }

    method InitChildren(i: nat, ghost before: seq<bool>) returns (ok: bool)
      requires Valid() && i < |nodes| && |before| == |nodes| && !before[i] && stack == before[i := true]
      requires Above(Config(), before, i) && nodes[i].Combination? && trackers[i].children == []
      requires nodes[i].operation == Some(trackers[i].operation)
      requires trackers[i].operation == NOT ==> |nodes[i].ids| == 1
      requires SplitCollected(Config(), SplitRule(nodes, index), trackers[i].children, trackers[i].split)
      modifies this
      ensures Valid() && KeptBut(i) && trackers[i].operation == old(trackers[i].operation)
      ensures !ok ==> !IsGood(Config(), i)
      ensures ok ==> && stack == old(stack) && Resolved(trackers[i].children, nodes[i].ids, index)
                     && Known(trackers[i].children)
                     && SplitCollected(Config(), SplitRule(nodes, index), trackers[i].children, trackers[i].split)
      decreases |Off(stack)|, 3, 0, 0
    {
      var ids := nodes[i].ids;
      for k := 0 to |ids|
        invariant Valid() && KeptBut(i) && trackers[i].operation == old(trackers[i].operation)
        invariant stack == old(stack) && Resolved(trackers[i].children, ids[..k], index) && Known(trackers[i].children)
        invariant SplitCollected(Config(), SplitRule(nodes, index), trackers[i].children, trackers[i].split)
      {
        ok := InitNext(i, k, before);
        if !ok {
          return;
        }
      }
      assert ids[..|ids|] == ids;
      ok := true;
    }

    /** One round of that loop. */
    method InitNext(i: nat, k: nat, ghost before: seq<bool>) returns (ok: bool)
      requires Valid() && i < |nodes| && |before| == |nodes| && !before[i] && stack == before[i := true]
      requires Above(Config(), before, i) && nodes[i].Combination? && k < |nodes[i].ids|
      requires nodes[i].operation == Some(trackers[i].operation)
      requires trackers[i].operation == NOT ==> |nodes[i].ids| == 1
      requires Resolved(trackers[i].children, nodes[i].ids[..k], index) && Known(trackers[i].children)
      requires SplitCollected(Config(), SplitRule(nodes, index), trackers[i].children, trackers[i].split)
      modifies this
      ensures Valid() && KeptBut(i) && trackers[i].operation == old(trackers[i].operation)
      ensures !ok ==> !IsGood(Config(), i)
      ensures ok ==> && stack == old(stack) && Resolved(trackers[i].children, nodes[i].ids[..k + 1], index)
                     && Known(trackers[i].children)
                     && SplitCollected(Config(), SplitRule(nodes, index), trackers[i].children, trackers[i].split)
      decreases |Off(stack)|, 2, 0, 0
    {
      var ids := nodes[i].ids;
      ghost var c := trackers[i].children;
      if IsGood(Config(), i) { KidNeeded(Config(), ids, index, i, k); }
      ok := InitChild(i, ids[k], before);
      if ok {
        ResolvedMore(c, ids, k, index);
      }
    }

    /** All children of the tracker on top of the stack are initialised: so is the tracker. */
    method Finish(i: nat)
      requires Valid() && i < |nodes| && stack[i] && nodes[i].Combination?
      requires nodes[i].operation == Some(trackers[i].operation)
      requires trackers[i].operation == NOT ==> |nodes[i].ids| == 1
      requires Resolved(trackers[i].children, nodes[i].ids, index) && Known(trackers[i].children)
      requires SplitCollected(Config(), SplitRule(nodes, index), trackers[i].children, trackers[i].split)
      modifies this
      ensures Valid() && KeptBut(i) && IsGood(Config(), i) && cache[i] != NotEvaluated && trackers[i].initialized
      ensures stack == old(stack)[i := false]
    {
      var t := trackers[i];
      BecomesGood(nodes, index, i, t);
      KnownStates(t.split.unSlicedChildren);
      var unSlicedPart := EvaluateCombinationCondition(t.split.unSlicedChildren, t.operation, cache);
      Evaluate(i);
      MarkInitialized(i, unSlicedPart);
    }

    method MarkInitialized(i: nat, unSlicedPart: ConditionState)
      requires Valid() && i < |nodes| && Ready(nodes, index, i, trackers[i].(unSlicedPart := unSlicedPart))
      modifies this`stack, this`trackers
      ensures Valid() && stack == old(stack)[i := false]
      ensures trackers == old(trackers)[i := old(trackers[i]).(initialized := true, unSlicedPart := unSlicedPart)]
    {
      stack := stack[i := false];
      trackers := trackers[i := trackers[i].(initialized := true, unSlicedPart := unSlicedPart)];
    }

    /** The first `n` trackers are initialised and evaluated. */
    ghost predicate InitializedUpTo(n: nat)
      requires Sized() && n <= |nodes|
      reads this
    {
      forall j {:trigger cache[j]} ::
        0 <= j < n ==> cache[j] != NotEvaluated && (nodes[j].Combination? ==> trackers[j].initialized)
    }

    /** They are then all as the recursive evaluation says. */
    lemma AllAreReady()
      requires Valid() && InitializedUpTo(|nodes|)
      ensures forall i :: 0 <= i < |nodes| ==> IsGood(Config(), i)
      ensures forall i :: 0 <= i < |nodes| ==> Evaluated(nodes, index, i, cache[i])
      ensures forall i :: 0 <= i < |nodes| && nodes[i].Combination? ==> Ready(nodes, index, i, trackers[i])
    {
      forall i | 0 <= i < |nodes|
        ensures IsGood(Config(), i) && Evaluated(nodes, index, i, cache[i])
        ensures nodes[i].Combination? ==> Ready(nodes, index, i, trackers[i])
      {
        assert cache[i] != NotEvaluated;
        assert Consistent(nodes, index, i, trackers[i], stack[i], cache[i]);
      }
    }

    /** Initialises all trackers of a configuration in turn: accepted exactly when all of it is good,
        that is (GoodIffAcyclic) sane and acyclic. */
    method InitAll() returns (ok: bool)
      requires Valid() && forall i :: 0 <= i < |nodes| ==> !stack[i]
      modifies this
      ensures Valid()
      ensures ok <==> forall i :: 0 <= i < |nodes| ==> IsGood(Config(), i)
      ensures ok ==> forall i :: 0 <= i < |nodes| ==> Evaluated(nodes, index, i, cache[i])
      ensures ok ==> forall i :: 0 <= i < |nodes| && nodes[i].Combination? ==> Ready(nodes, index, i, trackers[i])
    {
      for i := 0 to |nodes|
        invariant Valid() && stack == old(stack) && InitializedUpTo(i)
      {
        NothingAbove(Config(), stack, i);
        ok := Init(i);
        if !ok {
          return;
        }
      }
      ok := true;
      AllAreReady();
    }
  }
}
