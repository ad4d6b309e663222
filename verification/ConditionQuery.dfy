/** Asking a condition for its state under a metric's keys (isConditionMet in
    condition/CombinationConditionTracker.cpp): a memoised walk that changes no tracker. */
module ConditionQuery {
  import opened Options
  import opened Dag
  import opened ConditionLogic
  import opened SimpleCondition
  import opened ConditionEvaluation

  /** The trackers as they are, the keys of the asking metric and how it links to them. */
  datatype Question = Question(nodes: seq<Node>, trackers: seq<Tracker>, keys: map<nat, DimKey>, isPartialLink: bool)

  function KeyFor(q: Question, i: nat): Option<DimKey> { if i in q.keys then Some(q.keys[i]) else None }

  function AnswerAt(q: Question, i: nat, states: seq<ConditionState>): ConditionState
  {
    if i >= |q.nodes| || i >= |q.trackers| then Unknown
    else match q.nodes[i]
      case Leaf(cfg) => Met(cfg, q.trackers[i], KeyFor(q, i), q.isPartialLink)
      case Combined(op, _, _, _) => Combine(op, states)
  }

  /** The recursive answer, as a rule for one node. */
  function QueryRule(q: Question): (nat, seq<ConditionState>) -> ConditionState
  {
    (i: nat, states: seq<ConditionState>) => AnswerAt(q, i, states)
  }

  ghost predicate AnswerableAt(q: Question, i: nat)
    requires i < |q.nodes| == |q.trackers|
  {
    IsGood(NodeGraph(q.nodes), i) && (q.nodes[i].Leaf? ==> q.trackers[i].initial != NotEvaluated)
  }

  /** Initialised trackers: no cycles, known initial values. */
  ghost predicate Answerable(q: Question)
  {
    |q.trackers| == |q.nodes| && forall i {:trigger AnswerableAt(q, i)} :: 0 <= i < |q.nodes| ==> AnswerableAt(q, i)
  }

  ghost predicate Answers(q: Question, cache: seq<ConditionState>)
  {
    |cache| == |q.nodes| && Cached(NodeGraph(q.nodes), QueryRule(q), cache)
  }

  lemma LeafAnswer(q: Question, i: nat)
    requires i < |q.nodes| == |q.trackers| && AnswerableAt(q, i) && q.nodes[i].Leaf?
    ensures Val(NodeGraph(q.nodes), QueryRule(q), i)
         == Met(q.nodes[i].cfg, q.trackers[i], KeyFor(q, i), q.isPartialLink) != NotEvaluated
  {
    ValEquation(NodeGraph(q.nodes), QueryRule(q), i, []);
  }

  lemma CombinedAnswer(q: Question, cache: seq<ConditionState>, i: nat)
    requires i < |q.nodes| == |q.trackers| && AnswerableAt(q, i) && q.nodes[i].Combined? && Answers(q, cache)
    requires KidsEvaluated(cache, q.nodes[i].kids)
    ensures Val(NodeGraph(q.nodes), QueryRule(q), i) == Combine(q.nodes[i].operation, Picked(q.nodes[i].kids, cache))
  {
    var g, rule, kids := NodeGraph(q.nodes), QueryRule(q), q.nodes[i].kids;
    forall k | 0 <= k < |kids| ensures IsGood(g, kids[k]) && cache[kids[k]] == Val(g, rule, kids[k]) {
      assert EvaluatedAt(cache, kids[k]) && CachedAt(g, rule, cache, kids[k]);
    }
    ValEquation(g, rule, i, Picked(kids, cache));
  }

  lemma AnsweredAt(q: Question, cache: seq<ConditionState>, i: nat, s: ConditionState)
    requires i < |q.nodes| == |q.trackers| && AnswerableAt(q, i) && Answers(q, cache)
    requires s == Val(NodeGraph(q.nodes), QueryRule(q), i)
    ensures Answers(q, cache[i := s])
  {
    var g, rule, more := NodeGraph(q.nodes), QueryRule(q), cache[i := s];
    forall j | 0 <= j < |cache| ensures CachedAt(g, rule, more, j) {
      assert CachedAt(g, rule, cache, j);
    }
  }

  /** Fills the cache with the recursive answer, asking each shared tracker once. */
  method IsConditionMet(q: Question, i: nat, cache0: seq<ConditionState>) returns (cache: seq<ConditionState>)
    requires Answerable(q) && i < |q.nodes| && Answers(q, cache0)
    ensures Answers(q, cache) && Extends(cache0, cache) && EvaluatedAt(cache, i)
    decreases Height(NodeGraph(q.nodes), i), 1
  {
    assert AnswerableAt(q, i);
    cache := cache0;
    match q.nodes[i]
    case Leaf(cfg) =>
      if cache[i] == NotEvaluated {
        LeafAnswer(q, i);
        AnsweredAt(q, cache, i, Met(cfg, q.trackers[i], KeyFor(q, i), q.isPartialLink));
        cache := cache[i := Met(cfg, q.trackers[i], KeyFor(q, i), q.isPartialLink)];
      }
    case Combined(op, kids, _, _) =>
      cache := AskKids(q, i, cache);
      CombinedAnswer(q, cache, i);
      var state := EvaluateCombinationCondition(kids, op, cache);
      AnsweredAt(q, cache, i, state);
      cache := cache[i := state];
  }

  method AskKids(q: Question, i: nat, cache0: seq<ConditionState>) returns (cache: seq<ConditionState>)
    requires Answerable(q) && i < |q.nodes| && Answers(q, cache0) && q.nodes[i].Combined?
    ensures Answers(q, cache) && Extends(cache0, cache) && KidsEvaluated(cache, q.nodes[i].kids)
    decreases Height(NodeGraph(q.nodes), i), 0
  {
    var kids := q.nodes[i].kids;
    assert AnswerableAt(q, i);
    ChildrenAreLower(NodeGraph(q.nodes), i, kids);
    cache := cache0;
    for k := 0 to |kids|
      invariant Answers(q, cache) && Extends(cache0, cache)
      invariant forall m :: 0 <= m < k ==> EvaluatedAt(cache, kids[m])
    {
      if cache[kids[k]] == NotEvaluated {
        cache := IsConditionMet(q, kids[k], cache);
      }
    }
  }
}
