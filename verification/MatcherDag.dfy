/** Atom matchers combined by logical operations (matchers/CombinationAtomMatchingTracker.cpp,
    SimpleAtomMatchingTracker.cpp, matcher_util.cpp): initialisation and evaluation per event. */
module MatcherDag {
  import opened Options
  import opened Dag
  import opened ConditionLogic
  import opened LogParser
  import opened DfsOrder
  import opened SimpleMatch

  datatype MatchingState = NotComputed | NotMatched | Matched

  datatype AtomMatcher =
    | SimpleMatcher(atomId: Option<int>, fields: seq<FieldValueMatcher>)
    | CombinationMatcher(operation: Option<LogicalOperation>, ids: seq<int>)

  /** What a combination is worth, given its children. */
  predicate CombinationHolds(op: LogicalOperation, states: seq<MatchingState>)
    requires op == NOT ==> |states| >= 1
  {
    match op
    case AND => forall k :: 0 <= k < |states| ==> states[k] == Matched
    case OR => exists k :: 0 <= k < |states| && states[k] == Matched
    case NOT => states[0] == NotMatched
    case NAND => exists k :: 0 <= k < |states| && states[k] != Matched
    case NOR => forall k :: 0 <= k < |states| ==> states[k] != Matched
    case LOGICAL_OPERATION_UNSPECIFIED => false
  }

  function Flipped(states: seq<MatchingState>): (r: seq<MatchingState>)
    ensures |r| == |states|
  {
    seq(|states|, k requires 0 <= k < |states| => if states[k] == Matched then NotMatched else Matched)
  }

  /** On computed results the operations are those of logic, and De Morgan's laws hold. */
  lemma CombinationLogic(states: seq<MatchingState>)
    requires forall k :: 0 <= k < |states| ==> states[k] != NotComputed
    ensures CombinationHolds(AND, states) <==> forall k :: 0 <= k < |states| ==> states[k] == Matched
    ensures CombinationHolds(OR, states) <==> exists k :: 0 <= k < |states| && states[k] == Matched
    ensures CombinationHolds(NAND, states) <==> !CombinationHolds(AND, states)
    ensures CombinationHolds(NOR, states) <==> !CombinationHolds(OR, states)
    ensures |states| == 1 ==> (CombinationHolds(NOT, states) <==> !CombinationHolds(AND, states))
    ensures CombinationHolds(NAND, states) <==> CombinationHolds(OR, Flipped(states))
    ensures CombinationHolds(NOR, states) <==> CombinationHolds(AND, Flipped(states))
  {
    var flipped := Flipped(states);
    forall k | 0 <= k < |states| ensures flipped[k] == Matched <==> states[k] != Matched {}
    if CombinationHolds(NAND, states) {
      var k :| 0 <= k < |states| && states[k] != Matched;
      assert flipped[k] == Matched;
    }
  }

  method CombinationMatch(children: seq<nat>, operation: LogicalOperation,
                          results: seq<MatchingState>) returns (matched: bool)
    requires forall k :: 0 <= k < |children| ==> children[k] < |results|
    requires operation == NOT ==> |children| >= 1
    ensures matched <==> CombinationHolds(operation, Picked(children, results))
  {
    ghost var s := Picked(children, results);
    match operation
    case AND =>
      matched := true;
      for k := 0 to |children|
        invariant matched && forall m :: 0 <= m < k ==> s[m] == Matched
      {
        if results[children[k]] != Matched {
          matched := false;
          assert s[k] != Matched;
          break;
        }
      }
    case OR =>
      matched := false;
      for k := 0 to |children|
        invariant !matched && forall m :: 0 <= m < k ==> s[m] != Matched
      {
        if results[children[k]] == Matched {
          matched := true;
          assert s[k] == Matched;
          break;
        }
      }
    case NOT => matched := results[children[0]] == NotMatched;
    case NAND =>
      matched := false;
      for k := 0 to |children|
        invariant !matched && forall m :: 0 <= m < k ==> s[m] == Matched
      {
        if results[children[k]] != Matched {
          matched := true;
          assert s[k] != Matched;
          break;
        }
      }
    case NOR =>
      matched := true;
      for k := 0 to |children|
        invariant matched && forall m :: 0 <= m < k ==> s[m] != Matched
      {
        if results[children[k]] == Matched {
          matched := false;
          assert s[k] == Matched;
          break;
        }
      }
    case LOGICAL_OPERATION_UNSPECIFIED => matched := false;
  }

  // ---------- the configuration as a graph ----------

  function KidsOf(m: AtomMatcher, index: map<int, nat>): Option<seq<nat>>
  {
    match m
    case SimpleMatcher(atomId, _) => if atomId.None? then None else Some([])
    case CombinationMatcher(op, ids) => CombinationKids(op, ids, index)
  }

  function MatcherGraph(nodes: seq<AtomMatcher>, index: map<int, nat>): (g: Graph)
    ensures |g.kids| == |nodes| && forall i :: 0 <= i < |nodes| ==> g.kids[i] == KidsOf(nodes[i], index)
  {
    Graph(seq(|nodes|, i requires 0 <= i < |nodes| => KidsOf(nodes[i], index)))
  }

  // ---------- the atoms a matcher cares about ----------

  function Union(sets: seq<set<int>>): set<int>
  {
    if sets == [] then {} else Union(sets[..|sets| - 1]) + sets[|sets| - 1]
  }

  function AtomsAt(nodes: seq<AtomMatcher>, i: nat, sets: seq<set<int>>): set<int>
  {
    if i >= |nodes| then {}
    else match nodes[i]
      case SimpleMatcher(atomId, _) => if atomId.Some? then {atomId.value} else {}
      case CombinationMatcher(_, _) => Union(sets)
  }

  /** The atoms of all simple matchers below a node. */
  function AtomRule(nodes: seq<AtomMatcher>): (nat, seq<set<int>>) -> set<int>
  {
    (i: nat, sets: seq<set<int>>) => AtomsAt(nodes, i, sets)
  }

  lemma {:induction false} InUnion(sets: seq<set<int>>, id: int)
    ensures id in Union(sets) <==> exists k :: 0 <= k < |sets| && id in sets[k]
  {
    if sets != [] {
      var n := |sets| - 1;
      InUnion(sets[..n], id);
      if k :| 0 <= k < |sets[..n]| && id in sets[..n][k] { assert id in sets[k]; }
      if k :| 0 <= k < |sets| && id in sets[k] && k < n { assert id in sets[..n][k]; }
    }
  }

  /** Some path leads from `i` down to a simple matcher for atom `id`. */
  ghost predicate LeadsTo(nodes: seq<AtomMatcher>, index: map<int, nat>, i: nat, id: int)
  {
    exists p :: StartsAt(MatcherGraph(nodes, index), p, i) && IsFor(nodes, p[|p| - 1], id)
  }

  predicate IsFor(nodes: seq<AtomMatcher>, j: nat, id: int)
  {
    j < |nodes| && nodes[j].SimpleMatcher? && nodes[j].atomId == Some(id)
  }

  lemma ConsLeads(nodes: seq<AtomMatcher>, index: map<int, nat>, i: nat, j: nat, id: int)
    requires Edge(MatcherGraph(nodes, index), i, j) && LeadsTo(nodes, index, j, id)
    ensures LeadsTo(nodes, index, i, id)
  {
    var g := MatcherGraph(nodes, index);
    var p :| StartsAt(g, p, j) && IsFor(nodes, p[|p| - 1], id);
    ConsPath(g, i, p);
    assert StartsAt(g, [i] + p, i) && ([i] + p)[|p|] == p[|p| - 1];
  }

  lemma {:induction false} AtomLeads(nodes: seq<AtomMatcher>, index: map<int, nat>, i: nat, n: nat, id: int)
    requires Good(MatcherGraph(nodes, index), i, n) && id in Value(MatcherGraph(nodes, index), AtomRule(nodes), i, n)
    ensures LeadsTo(nodes, index, i, id)
    decreases n
  {
    var g := MatcherGraph(nodes, index);
    if nodes[i].SimpleMatcher? {
      assert StartsAt(g, [i], i) && IsFor(nodes, [i][0], id);
    } else {
      var c := g.kids[i].value;
      var sets := Values(g, AtomRule(nodes), c, n - 1);
      InUnion(sets, id);
      var k :| 0 <= k < |sets| && id in sets[k];
      AtomLeads(nodes, index, c[k], n - 1, id);
      ConsLeads(nodes, index, i, c[k], id);
    }
  }

  lemma {:induction false} LeadsAtom(nodes: seq<AtomMatcher>, index: map<int, nat>, p: seq<nat>, n: nat, id: int)
    requires Path(MatcherGraph(nodes, index), p) && Good(MatcherGraph(nodes, index), p[0], n)
    requires IsFor(nodes, p[|p| - 1], id)
    ensures id in Value(MatcherGraph(nodes, index), AtomRule(nodes), p[0], n)
    decreases |p|
  {
    var g := MatcherGraph(nodes, index);
    if |p| > 1 {
      var c, q := g.kids[p[0]].value, p[1..];
      assert Edge(g, p[0], p[1]);
      forall m: nat | m + 1 < |q| ensures Edge(g, q[m], q[m + 1]) {
        assert Edge(g, p[m + 1], p[m + 2]);
      }
      var k :| 0 <= k < |c| && c[k] == p[1];
      LeadsAtom(nodes, index, q, n - 1, id);
      var sets := Values(g, AtomRule(nodes), c, n - 1);
      assert id in sets[k];
      InUnion(sets, id);
    }
  }

  /** The atoms recorded for a matcher are exactly those of the simple matchers below it. */
  lemma AtomsAreDescendants(nodes: seq<AtomMatcher>, index: map<int, nat>, i: nat, id: int)
    requires IsGood(MatcherGraph(nodes, index), i)
    ensures id in Val(MatcherGraph(nodes, index), AtomRule(nodes), i) <==> LeadsTo(nodes, index, i, id)
  {
    var g := MatcherGraph(nodes, index);
    var n: nat :| Good(g, i, n) && Val(g, AtomRule(nodes), i) == Value(g, AtomRule(nodes), i, n);
    if id in Value(g, AtomRule(nodes), i, n) {
      AtomLeads(nodes, index, i, n, id);
    }
    if LeadsTo(nodes, index, i, id) {
      var p :| StartsAt(g, p, i) && IsFor(nodes, p[|p| - 1], id);
      LeadsAtom(nodes, index, p, n, id);
    }
  }

  // ---------- the evaluation of an event ----------

  /** A tracker: its children and the atoms it cares about are known once it is initialised. */
  datatype MatcherTracker = MatcherTracker(initialized: bool, operation: LogicalOperation, children: seq<nat>,
                                           atomIds: set<int>)

  /** What the field matchers of a simple matcher say of an event. */
  predicate SimpleHolds(env: Env, m: AtomMatcher, ev: Event)
  {
    && m.SimpleMatcher? && m.atomId == Some(ev.tag)
    && AllHold(env, m.fields, ev.values, Range(0, |ev.values|), 0)
  }

  /** The state of a node, guarded by the atoms it cares about. */
  function ResultAt(nodes: seq<AtomMatcher>, trackers: seq<MatcherTracker>, env: Env, ev: Event,
                    i: nat, states: seq<MatchingState>): MatchingState
  {
    if i >= |nodes| || i >= |trackers| || ev.tag !in trackers[i].atomIds then NotMatched
    else
      var holds := match nodes[i]
        case SimpleMatcher(_, _) => SimpleHolds(env, nodes[i], ev)
        case CombinationMatcher(op, _) =>
          op.Some? && (op.value == NOT ==> |states| >= 1) && CombinationHolds(op.value, states);
      if holds then Matched else NotMatched
  }

  function MatchRule(nodes: seq<AtomMatcher>, trackers: seq<MatcherTracker>, env: Env, ev: Event):
    (nat, seq<MatchingState>) -> MatchingState
  {
    (i: nat, states: seq<MatchingState>) => ResultAt(nodes, trackers, env, ev, i, states)
  }

  /** The entries of the cache agree with the recursive evaluation. */
  ghost predicate Memo(g: Graph, rule: (nat, seq<MatchingState>) -> MatchingState, results: seq<MatchingState>)
  {
    forall j {:trigger MemoAt(g, rule, results, j)} :: 0 <= j < |results| ==> MemoAt(g, rule, results, j)
  }

  ghost predicate MemoAt(g: Graph, rule: (nat, seq<MatchingState>) -> MatchingState, results: seq<MatchingState>,
                         j: nat)
    requires j < |results|
  {
    results[j] != NotComputed ==> IsGood(g, j) && results[j] == Val(g, rule, j)
  }

  lemma MemoWith(g: Graph, rule: (nat, seq<MatchingState>) -> MatchingState, results: seq<MatchingState>, i: nat,
                 s: MatchingState)
    requires Memo(g, rule, results) && i < |results| && IsGood(g, i) && s == Val(g, rule, i)
    ensures Memo(g, rule, results[i := s])
  {
    var more := results[i := s];
    forall j | 0 <= j < |more| ensures MemoAt(g, rule, more, j) {
      assert MemoAt(g, rule, results, j);
    }
  }

  /** No entry, once computed, changes. */
  predicate KeepsComputed(a: seq<MatchingState>, b: seq<MatchingState>)
  {
    |a| == |b| && forall j :: 0 <= j < |a| && a[j] != NotComputed ==> b[j] == a[j]
  }

  lemma LeafResult(g: Graph, nodes: seq<AtomMatcher>, trackers: seq<MatcherTracker>, env: Env, ev: Event, i: nat)
    requires IsGood(g, i) && i < |nodes| == |trackers| && (ev.tag in trackers[i].atomIds ==> nodes[i].SimpleMatcher?)
    ensures Val(g, MatchRule(nodes, trackers, env, ev), i)
         == if ev.tag in trackers[i].atomIds && SimpleHolds(env, nodes[i], ev) then Matched else NotMatched
  {
    var c, rule := g.kids[i].value, MatchRule(nodes, trackers, env, ev);
    forall k | 0 <= k < |c| ensures IsGood(g, c[k]) {
      GoodChild(g, i, c[k]);
    }
    ValEquation(g, rule, i, Vals(g, rule, c));
  }

  lemma CombinedResult(g: Graph, nodes: seq<AtomMatcher>, trackers: seq<MatcherTracker>, env: Env, ev: Event,
                       i: nat, c: seq<nat>, results: seq<MatchingState>)
    requires IsGood(g, i) && g.kids[i] == Some(c) && Memo(g, MatchRule(nodes, trackers, env, ev), results)
    requires forall k :: 0 <= k < |c| ==> c[k] < |results| && results[c[k]] != NotComputed
    ensures Val(g, MatchRule(nodes, trackers, env, ev), i) == ResultAt(nodes, trackers, env, ev, i, Picked(c, results))
  {
    var rule := MatchRule(nodes, trackers, env, ev);
    forall k | 0 <= k < |c| ensures IsGood(g, c[k]) && results[c[k]] == Val(g, rule, c[k]) {
      assert MemoAt(g, rule, results, c[k]);
    }
    ValEquation(g, rule, i, Picked(c, results));
  }

  /** The children found so far are initialised and their atoms collected. */
  ghost predicate AtomsCollected(g: Graph, rule: (nat, seq<set<int>>) -> set<int>, c: seq<nat>, atoms: set<int>)
  {
    (forall m :: 0 <= m < |c| ==> IsGood(g, c[m])) && atoms == Union(Vals(g, rule, c))
  }

  lemma AtomsCollectedNone(g: Graph, rule: (nat, seq<set<int>>) -> set<int>)
    ensures AtomsCollected(g, rule, [], {})
  {
  }

  lemma AtomsCollectedMore(g: Graph, rule: (nat, seq<set<int>>) -> set<int>, c: seq<nat>, atoms: set<int>, k: nat)
    requires AtomsCollected(g, rule, c, atoms) && IsGood(g, k)
    ensures AtomsCollected(g, rule, c + [k], atoms + Val(g, rule, k))
  {
    var sets, more := Vals(g, rule, c), Vals(g, rule, c + [k]);
    assert more[..|more| - 1] == sets && more[|more| - 1] == Val(g, rule, k);
  }

  // ---------- one tracker ----------

  ghost predicate TrackerReady(nodes: seq<AtomMatcher>, index: map<int, nat>, i: nat, t: MatcherTracker)
    requires i < |nodes|
  {
    var g := MatcherGraph(nodes, index);
    && IsGood(g, i) && g.kids[i] == Some(t.children)
    && (nodes[i].CombinationMatcher? ==> nodes[i].operation == Some(t.operation))
    && t.atomIds == Val(g, AtomRule(nodes), i)
  }

  /** One tracker with its place in the stack. */
  ghost predicate Consistent(nodes: seq<AtomMatcher>, index: map<int, nat>, i: nat, t: MatcherTracker, onStack: bool)
    requires i < |nodes|
  {
    && (t.initialized ==> !onStack && TrackerReady(nodes, index, i, t))
    && (!t.initialized && !onStack ==> t.children == [] && t.atomIds == {})
    && (nodes[i].SimpleMatcher? ==> !onStack && (t.initialized <==> nodes[i].atomId.Some?))
  }

  /** A combination all of whose children were accepted. */
  lemma BecomesReady(nodes: seq<AtomMatcher>, index: map<int, nat>, i: nat, t: MatcherTracker)
    requires i < |nodes| && nodes[i].CombinationMatcher? && nodes[i].operation == Some(t.operation)
    requires (t.operation == NOT ==> |nodes[i].ids| == 1) && Resolved(t.children, nodes[i].ids, index)
    requires AtomsCollected(MatcherGraph(nodes, index), AtomRule(nodes), t.children, t.atomIds)
    ensures TrackerReady(nodes, index, i, t)
  {
    var g, rule := MatcherGraph(nodes, index), AtomRule(nodes);
    ResolvedIsLookUp(t.children, nodes[i].ids, index);
    GoodNode(g, i);
    ValEquation(g, rule, i, Vals(g, rule, t.children));
  }

  /** A simple matcher is ready from the start. */
  lemma SimpleReady(nodes: seq<AtomMatcher>, index: map<int, nat>, i: nat, t: MatcherTracker)
    requires i < |nodes| && nodes[i].SimpleMatcher? && nodes[i].atomId.Some?
    requires t.children == [] && t.atomIds == {nodes[i].atomId.value}
    ensures TrackerReady(nodes, index, i, t)
  {
    assert Good(MatcherGraph(nodes, index), i, 1);
    ValEquation(MatcherGraph(nodes, index), AtomRule(nodes), i, []);
  }

  function NewTracker(m: AtomMatcher): MatcherTracker
  {
    if m.SimpleMatcher? && m.atomId.Some? then MatcherTracker(true, LOGICAL_OPERATION_UNSPECIFIED, [], {m.atomId.value})
    else MatcherTracker(false, LOGICAL_OPERATION_UNSPECIFIED, [], {})
  }

  class AtomMatchingTrackers {
    const nodes: seq<AtomMatcher>
    const index: map<int, nat>
    var trackers: seq<MatcherTracker>
    var stack: seq<bool>

    ghost function Config(): Graph { MatcherGraph(nodes, index) }

    ghost predicate Sized()
      reads this
    {
      |trackers| == |stack| == |nodes| && forall id :: id in index ==> index[id] < |nodes|
    }

    ghost predicate Valid()
      reads this
    {
      && Sized()
      && forall i {:trigger trackers[i]} :: 0 <= i < |nodes| ==> Consistent(nodes, index, i, trackers[i], stack[i])
    }

    /** Trackers on the stack or initialised are left alone, `but` one. */
    twostate predicate KeptBut(but: int)
      reads this
    {
      && old(Sized()) && Sized()
      && (forall j :: 0 <= j < |nodes| && j != but && (old(stack[j]) || old(trackers[j].initialized)) ==>
            trackers[j] == old(trackers[j]))
    }

    constructor (nodes: seq<AtomMatcher>, index: map<int, nat>)
      requires forall id :: id in index ==> index[id] < |nodes|
      ensures Valid() && this.nodes == nodes && this.index == index && forall i :: 0 <= i < |nodes| ==> !stack[i]
    {
      this.nodes, this.index := nodes, index;
      trackers := seq(|nodes|, i requires 0 <= i < |nodes| => NewTracker(nodes[i]));
      stack := seq(|nodes|, _ => false);
      new;
      forall i | 0 <= i < |nodes| ensures Consistent(nodes, index, i, trackers[i], stack[i]) {
        if trackers[i].initialized { SimpleReady(nodes, index, i, trackers[i]); }
      }
    }

    /** Initialises a tracker: succeeds exactly when everything below it is sane and acyclic, and
        then records the atoms of all simple matchers below it. */
    method Init(i: nat) returns (ok: bool)
      requires Valid() && i < |nodes| && !stack[i] && Above(Config(), stack, i)
      modifies this
      ensures Valid() && KeptBut(-1)
      ensures ok <==> IsGood(Config(), i)
      ensures ok ==> stack == old(stack) && trackers[i].initialized
      decreases |Off(stack)|, 1
    {
      if trackers[i].initialized {
        return true;
      }
      if nodes[i].SimpleMatcher? {
        return false;
      }
      ok := InitNew(i);
    }

    method InitNew(i: nat) returns (ok: bool)
      requires Valid() && i < |nodes| && !stack[i] && Above(Config(), stack, i)
      requires nodes[i].CombinationMatcher? && !trackers[i].initialized
      modifies this
      ensures Valid() && KeptBut(-1)
      ensures ok <==> IsGood(Config(), i)
      ensures ok ==> stack == old(stack) && trackers[i].initialized
      decreases |Off(stack)|, 0
    {
      PushShrinks(stack, i);
      stack := stack[i := true];
      var CombinationMatcher(op, ids) := nodes[i];
      if op.None? {
        return false;
      }
      trackers := trackers[i := trackers[i].(operation := op.value)];
      if op.value == NOT && |ids| != 1 {
        return false;
      }
      ok := InitChildren(i, old(stack));
      if ok {
        Finish(i);
        assert stack == old(stack);
      }
    }

    method InitChildren(i: nat, ghost before: seq<bool>) returns (ok: bool)
      requires Valid() && i < |nodes| && |before| == |nodes| && !before[i] && stack == before[i := true]
      requires Above(Config(), before, i) && nodes[i].CombinationMatcher?
      requires trackers[i].children == [] && trackers[i].atomIds == {}
      modifies this
      ensures Valid() && KeptBut(i) && trackers[i].operation == old(trackers[i].operation)
      ensures !ok ==> !IsGood(Config(), i)
      ensures ok ==> && stack == old(stack) && Resolved(trackers[i].children, nodes[i].ids, index)
                     && AtomsCollected(Config(), AtomRule(nodes), trackers[i].children, trackers[i].atomIds)
      decreases |Off(stack)|, 4
    {
      var ids := nodes[i].ids;
      AtomsCollectedNone(Config(), AtomRule(nodes));
      for k := 0 to |ids|
        invariant Valid() && KeptBut(i) && trackers[i].operation == old(trackers[i].operation)
        invariant stack == old(stack) && Resolved(trackers[i].children, ids[..k], index)
        invariant AtomsCollected(Config(), AtomRule(nodes), trackers[i].children, trackers[i].atomIds)
      {
        ok := InitNext(i, k, before);
        if !ok {
          return;
        }
      }
      assert ids[..|ids|] == ids;
      ok := true;
    }

    /** One round of that loop. */
    method InitNext(i: nat, k: nat, ghost before: seq<bool>) returns (ok: bool)
      requires Valid() && i < |nodes| && |before| == |nodes| && !before[i] && stack == before[i := true]
      requires Above(Config(), before, i) && nodes[i].CombinationMatcher? && k < |nodes[i].ids|
      requires Resolved(trackers[i].children, nodes[i].ids[..k], index)
      requires AtomsCollected(Config(), AtomRule(nodes), trackers[i].children, trackers[i].atomIds)
      modifies this
      ensures Valid() && KeptBut(i) && trackers[i].operation == old(trackers[i].operation)
      ensures !ok ==> !IsGood(Config(), i)
      ensures ok ==> && stack == old(stack) && Resolved(trackers[i].children, nodes[i].ids[..k + 1], index)
                     && AtomsCollected(Config(), AtomRule(nodes), trackers[i].children, trackers[i].atomIds)
      decreases |Off(stack)|, 3
    {
      var ids := nodes[i].ids;
      ghost var c := trackers[i].children;
      if IsGood(Config(), i) { KidNeeded(Config(), ids, index, i, k); }
      ok := InitChild(i, ids[k], before);
      if ok {
        ResolvedMore(c, ids, k, index);
      }
    }

    /** One child of a combination that is on top of the stack `before`. */
    method InitChild(i: nat, id: int, ghost before: seq<bool>) returns (ok: bool)
      requires Valid() && i < |nodes| && |before| == |nodes| && !before[i] && stack == before[i := true]
      requires Above(Config(), before, i) && (IsGood(Config(), i) ==> Needs(Config(), index, i, id))
      requires AtomsCollected(Config(), AtomRule(nodes), trackers[i].children, trackers[i].atomIds)
      modifies this
      ensures Valid() && KeptBut(i) && trackers[i].operation == old(trackers[i].operation)
      ensures !ok ==> !IsGood(Config(), i)
      ensures ok ==> && stack == old(stack) && id in index
                     && trackers[i].children == old(trackers[i].children) + [index[id]]
                     && AtomsCollected(Config(), AtomRule(nodes), trackers[i].children, trackers[i].atomIds)
      decreases |Off(stack)|, 2
    {
      if id !in index {
        return false;
      }
      var c := index[id];
      if stack[c] {
        StackMeansCycle(Config(), before, i, c);
        return false;
      }
      AboveChild(Config(), before, i, c);
      ok := Init(c);
      if ok {
        AddChild(i, c);
      } else if IsGood(Config(), i) {
        GoodChild(Config(), i, c);
      }
    }

    /** Records an initialised child of the tracker on top of the stack. */
    method AddChild(i: nat, c: nat)
      requires Valid() && i < |nodes| && c < |nodes| && stack[i] && trackers[c].initialized
      requires AtomsCollected(Config(), AtomRule(nodes), trackers[i].children, trackers[i].atomIds)
      modifies this`trackers
      ensures Valid() && trackers == old(trackers)[i := trackers[i]]
      ensures trackers[i].operation == old(trackers[i].operation)
      ensures trackers[i].children == old(trackers[i].children) + [c]
      ensures AtomsCollected(Config(), AtomRule(nodes), trackers[i].children, trackers[i].atomIds)
    {
      var t, atoms := trackers[i], trackers[c].atomIds;
      assert TrackerReady(nodes, index, c, trackers[c]);
      AtomsCollectedMore(Config(), AtomRule(nodes), t.children, t.atomIds, c);
      trackers := trackers[i := t.(children := t.children + [c], atomIds := t.atomIds + atoms)];
    }

    /** All children of the node on top of the stack are initialised: so is the node. */
    method Finish(i: nat)
      requires Valid() && i < |nodes| && stack[i] && nodes[i].CombinationMatcher?
      requires nodes[i].operation == Some(trackers[i].operation)
      requires trackers[i].operation == NOT ==> |nodes[i].ids| == 1
      requires Resolved(trackers[i].children, nodes[i].ids, index)
      requires AtomsCollected(Config(), AtomRule(nodes), trackers[i].children, trackers[i].atomIds)
      modifies this
      ensures Valid() && KeptBut(i) && IsGood(Config(), i) && trackers[i].initialized && stack == old(stack)[i := false]
    {
      BecomesReady(nodes, index, i, trackers[i]);
      trackers := trackers[i := trackers[i].(initialized := true)];
      stack := stack[i := false];
    }

    /** Initialises all trackers of a configuration in turn. */
    method InitAll() returns (ok: bool)
      requires Valid() && forall i :: 0 <= i < |nodes| ==> !stack[i]
      modifies this
      ensures Valid()
      ensures ok <==> forall i :: 0 <= i < |nodes| ==> IsGood(Config(), i)
      ensures ok ==> AllReady()
    {
      for i := 0 to |nodes|
        invariant Valid() && stack == old(stack)
        invariant forall j :: 0 <= j < i ==> trackers[j].initialized && IsGood(Config(), j)
      {
        NothingAbove(Config(), stack, i);
        ok := Init(i);
        if !ok {
          return;
        }
      }
      ok := true;
    }

    // ---------- evaluation for one event ----------

    ghost function Matching(env: Env, ev: Event): (nat, seq<MatchingState>) -> MatchingState
      reads this
    {
      MatchRule(nodes, trackers, env, ev)
    }

    ghost predicate AllReady()
      reads this
    {
      |trackers| == |nodes| && forall j {:trigger Ready(j)} :: 0 <= j < |nodes| ==> Ready(j)
    }

    ghost predicate Ready(j: nat)
      requires j < |nodes| == |trackers|
      reads this
    {
      TrackerReady(nodes, index, j, trackers[j])
    }

    /** Evaluates one tracker on the cache of the event. */
    method OnLogEvent(i: nat, env: Env, ev: Event,
                      results0: seq<MatchingState>) returns (results: seq<MatchingState>)
      requires AllReady() && i < |nodes| == |results0| && WellFormed(Paths(ev.values))
      requires Memo(Config(), Matching(env, ev), results0)
      ensures Memo(Config(), Matching(env, ev), results) && KeepsComputed(results0, results)
      ensures results[i] != NotComputed
      decreases Height(Config(), i), 1
    {
      results := results0;
      if results[i] != NotComputed {
        return;
      }
      assert Ready(i);
      var state: MatchingState;
      if ev.tag !in trackers[i].atomIds {
        LeafResult(Config(), nodes, trackers, env, ev, i);
        state := NotMatched;
      } else if nodes[i].SimpleMatcher? {
        LeafResult(Config(), nodes, trackers, env, ev, i);
        var matched := MatchesEvent(env, nodes[i].atomId.value, nodes[i].fields, ev);
        state := if matched then Matched else NotMatched;
      } else {
        results := EvaluateChildren(i, env, ev, results);
        CombinedResult(Config(), nodes, trackers, env, ev, i, trackers[i].children, results);
        var matched := CombinationMatch(trackers[i].children, trackers[i].operation, results);
        state := if matched then Matched else NotMatched;
      }
      MemoWith(Config(), Matching(env, ev), results, i, state);
      results := results[i := state];
    }

    /** Evaluates the children that are not in the cache yet. */
    method EvaluateChildren(i: nat, env: Env, ev: Event,
                            results0: seq<MatchingState>) returns (results: seq<MatchingState>)
      requires AllReady() && i < |nodes| == |results0| && WellFormed(Paths(ev.values))
      requires Memo(Config(), Matching(env, ev), results0)
      ensures Memo(Config(), Matching(env, ev), results) && KeepsComputed(results0, results)
      ensures var c := trackers[i].children;
              forall k :: 0 <= k < |c| ==> c[k] < |nodes| && results[c[k]] != NotComputed
      decreases Height(Config(), i), 0
    {
      var c := trackers[i].children;
      assert Ready(i);
      ChildrenAreLower(Config(), i, c);
      results := results0;
      for k := 0 to |c|
        invariant Memo(Config(), Matching(env, ev), results) && KeepsComputed(results0, results)
        invariant forall m :: 0 <= m < k ==> results[c[m]] != NotComputed
      {
        if results[c[k]] == NotComputed {
          results := OnLogEvent(c[k], env, ev, results);
        }
      }
    }

    /** In whatever order the trackers are visited, the cache ends up with the recursive evaluation
        of each of them. */
    method OnLogEventInOrder(order: seq<nat>, env: Env, ev: Event) returns (results: seq<MatchingState>)
      requires AllReady() && WellFormed(Paths(ev.values)) && forall k :: 0 <= k < |order| ==> order[k] < |nodes|
      ensures |results| == |nodes| && Memo(Config(), Matching(env, ev), results)
      ensures forall k :: 0 <= k < |order| ==> results[order[k]] != NotComputed
    {
      results := seq(|nodes|, _ => NotComputed);
      for k := 0 to |order|
        invariant |results| == |nodes| && Memo(Config(), Matching(env, ev), results)
        invariant forall m :: 0 <= m < k ==> results[order[m]] != NotComputed
      {
        results := OnLogEvent(order[k], env, ev, results);
      }
    }
  }
}
