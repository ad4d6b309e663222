/** Graphs of trackers that refer to each other by index: which nodes a depth-first initialisation
    may accept, and what a recursive evaluation over them yields. */
module Dag {
  import opened Options

  /** `kids[i]` lists the children of node `i`; None marks a node that is broken in itself. */
  datatype Graph = Graph(kids: seq<Option<seq<nat>>>)

  predicate Sane(g: Graph, i: nat) { i < |g.kids| && g.kids[i].Some? }

  predicate Edge(g: Graph, i: nat, j: nat) { Sane(g, i) && j in g.kids[i].value }

  /** Every path from `i` visits fewer than `n + 1` nodes, all of them sane. */
  predicate Good(g: Graph, i: nat, n: nat)
    decreases n
  {
    n > 0 && Sane(g, i) && forall k :: 0 <= k < |g.kids[i].value| ==> Good(g, g.kids[i].value[k], n - 1)
  }

  ghost predicate IsGood(g: Graph, i: nat) { exists n: nat :: Good(g, i, n) }

  lemma {:induction false} GoodMore(g: Graph, i: nat, n: nat, m: nat)
    requires Good(g, i, n) && n <= m
    ensures Good(g, i, m)
    decreases n
  {
    forall k | 0 <= k < |g.kids[i].value| ensures Good(g, g.kids[i].value[k], m - 1) {
      GoodMore(g, g.kids[i].value[k], n - 1, m - 1);
    }
  }

  lemma GoodChild(g: Graph, i: nat, j: nat)
    requires IsGood(g, i) && Edge(g, i, j)
    ensures IsGood(g, j)
  {
    var n: nat :| Good(g, i, n);
    var k :| 0 <= k < |g.kids[i].value| && g.kids[i].value[k] == j;
    assert Good(g, j, n - 1);
  }

  lemma {:induction false} CommonDepth(g: Graph, c: seq<nat>) returns (n: nat)
    requires forall k :: 0 <= k < |c| ==> IsGood(g, c[k])
    ensures forall k :: 0 <= k < |c| ==> Good(g, c[k], n)
  {
    if c == [] {
      n := 0;
    } else {
      var last := |c| - 1;
      var a := CommonDepth(g, c[..last]);
      assert IsGood(g, c[last]);
      var b: nat :| Good(g, c[last], b);
      n := if a < b then b else a;
      forall k | 0 <= k < |c| ensures Good(g, c[k], n) {
        if k < last { assert Good(g, c[..last][k], a); GoodMore(g, c[k], a, n); } else { GoodMore(g, c[k], b, n); }
      }
    }
  }

  lemma GoodNode(g: Graph, i: nat)
    requires Sane(g, i) && forall k :: 0 <= k < |g.kids[i].value| ==> IsGood(g, g.kids[i].value[k])
    ensures IsGood(g, i)
  {
    var n := CommonDepth(g, g.kids[i].value);
    assert Good(g, i, n + 1);
  }

  // ---------- paths ----------

  ghost predicate Path(g: Graph, p: seq<nat>)
  {
    |p| >= 1 && forall k: nat :: k + 1 < |p| ==> Edge(g, p[k], p[k + 1])
  }

  ghost predicate PathBetween(g: Graph, p: seq<nat>, i: nat, j: nat)
  {
    Path(g, p) && |p| >= 2 && p[0] == i && p[|p| - 1] == j
  }

  /** There is a path of at least one edge from `i` to `j`. */
  ghost predicate Reaches(g: Graph, i: nat, j: nat) { exists p :: PathBetween(g, p, i, j) }

  lemma EdgeReaches(g: Graph, i: nat, j: nat)
    requires Edge(g, i, j)
    ensures Reaches(g, i, j)
  {
    assert PathBetween(g, [i, j], i, j);
  }

  lemma ReachesStep(g: Graph, i: nat, j: nat, k: nat)
    requires Reaches(g, i, j) && Edge(g, j, k)
    ensures Reaches(g, i, k)
  {
    var p :| PathBetween(g, p, i, j);
    var q := p + [k];
    forall m: nat | m + 1 < |q| ensures Edge(g, q[m], q[m + 1]) {
      if m + 1 < |p| { assert Edge(g, p[m], p[m + 1]); }
    }
    assert PathBetween(g, q, i, k);
  }

  /** Walking down a path uses up depth. */
  lemma {:induction false} GoodAlong(g: Graph, p: seq<nat>, n: nat)
    requires Path(g, p) && Good(g, p[0], n)
    ensures |p| <= n && Good(g, p[|p| - 1], n + 1 - |p|)
    decreases |p|
  {
    if |p| > 1 {
      var q := p[1..];
      assert Edge(g, p[0], p[1]);
      forall m: nat | m + 1 < |q| ensures Edge(g, q[m], q[m + 1]) {
        assert Edge(g, p[m + 1], p[m + 2]);
      }
      var k :| 0 <= k < |g.kids[p[0]].value| && g.kids[p[0]].value[k] == p[1];
      GoodAlong(g, q, n - 1);
    }
  }

  lemma {:induction false} NoReturn(g: Graph, i: nat, n: nat)
    requires Good(g, i, n) && Reaches(g, i, i)
    ensures false
    decreases n
  {
    var p :| PathBetween(g, p, i, i);
    GoodAlong(g, p, n);
    NoReturn(g, i, n + 1 - |p|);
  }

  /** No good node lies on a cycle. */
  lemma GoodHasNoCycle(g: Graph, i: nat)
    requires IsGood(g, i)
    ensures !Reaches(g, i, i)
  {
    if Reaches(g, i, i) {
      var n: nat :| Good(g, i, n);
      NoReturn(g, i, n);
    }
  }

  // ---------- good means sane and acyclic ----------

  ghost predicate StartsAt(g: Graph, p: seq<nat>, i: nat) { Path(g, p) && p[0] == i }

  /** Everything reachable from `i` is sane, and no path from it visits a node twice. */
  ghost predicate SaneAndAcyclic(g: Graph, i: nat)
  {
    forall p :: StartsAt(g, p, i) ==>
      Sane(g, p[|p| - 1]) && forall a, b :: 0 <= a < b < |p| ==> p[a] != p[b]
  }

  lemma StretchReaches(g: Graph, p: seq<nat>, a: nat, b: nat)
    requires Path(g, p) && a < b < |p|
    ensures Reaches(g, p[a], p[b])
  {
    var q := p[a..b + 1];
    forall m: nat | m + 1 < |q| ensures Edge(g, q[m], q[m + 1]) {
      assert Edge(g, p[a + m], p[a + m + 1]);
    }
    assert PathBetween(g, q, p[a], p[b]);
  }

  lemma PrefixPath(g: Graph, p: seq<nat>, a: nat)
    requires Path(g, p) && a < |p|
    ensures Path(g, p[..a + 1])
  {
  }

  lemma GoodIsAcyclic(g: Graph, i: nat)
    requires IsGood(g, i)
    ensures SaneAndAcyclic(g, i)
  {
    var n: nat :| Good(g, i, n);
    forall p | StartsAt(g, p, i) ensures Sane(g, p[|p| - 1]) && forall a, b :: 0 <= a < b < |p| ==> p[a] != p[b] {
      GoodAlong(g, p, n);
      forall a, b | 0 <= a < b < |p| ensures p[a] != p[b] {
        PrefixPath(g, p, a);
        GoodAlong(g, p[..a + 1], n);
        StretchReaches(g, p, a, b);
        assert IsGood(g, p[a]);
        GoodHasNoCycle(g, p[a]);
      }
    }
  }

  lemma ConsPath(g: Graph, i: nat, p: seq<nat>)
    requires Path(g, p) && Edge(g, i, p[0])
    ensures Path(g, [i] + p)
  {
  }

  /** A node that is not good to depth `n` starts a path to a broken node or one of `n + 1` nodes. */
  lemma {:induction false} LongPath(g: Graph, i: nat, n: nat) returns (p: seq<nat>)
    requires !Good(g, i, n)
    ensures StartsAt(g, p, i) && |p| <= n + 1
    ensures Sane(g, p[|p| - 1]) ==> |p| == n + 1
    decreases n
  {
    p := [i];
    if n > 0 && Sane(g, i) {
      var k :| 0 <= k < |g.kids[i].value| && !Good(g, g.kids[i].value[k], n - 1);
      var q := LongPath(g, g.kids[i].value[k], n - 1);
      ConsPath(g, i, q);
      p := [i] + q;
    }
  }

  /** Pigeonhole: numbers below `m`, all different, are at most `m`. */
  lemma {:induction false} AtMost(p: seq<nat>, m: nat)
    requires forall a, b :: 0 <= a < b < |p| ==> p[a] != p[b]
    requires forall a :: 0 <= a < |p| ==> p[a] < m
    ensures |p| <= m
  {
    assert p != [] ==> p[0] < m;
    if m > 0 {
      if a :| 0 <= a < |p| && p[a] == m - 1 {
        AtMost(p[..a] + p[a + 1..], m - 1);
      } else {
        AtMost(p, m - 1);
      }
    }
  }

  lemma AcyclicIsGood(g: Graph, i: nat)
    requires SaneAndAcyclic(g, i)
    ensures IsGood(g, i)
  {
    var n := |g.kids|;
    if !Good(g, i, n) {
      var p := LongPath(g, i, n);
      assert StartsAt(g, p, i);
      forall a | 0 <= a < |p| ensures p[a] < n {
        if a + 1 < |p| { assert Edge(g, p[a], p[a + 1]); }
      }
      AtMost(p, n);
    }
  }

  /** The two descriptions of an acceptable node agree. */
  lemma GoodIffAcyclic(g: Graph, i: nat)
    ensures IsGood(g, i) <==> SaneAndAcyclic(g, i)
  {
    if IsGood(g, i) { GoodIsAcyclic(g, i); }
    if SaneAndAcyclic(g, i) { AcyclicIsGood(g, i); }
  }

  // ---------- height ----------

  predicate Least(g: Graph, i: nat, m: nat) { m > 0 && Good(g, i, m) && !Good(g, i, m - 1) }

  lemma {:induction false} LeastDepth(g: Graph, i: nat, n: nat)
    requires Good(g, i, n)
    ensures exists m: nat :: Least(g, i, m)
    decreases n
  {
    if Good(g, i, n - 1) {
      LeastDepth(g, i, n - 1);
    } else {
      assert Least(g, i, n);
    }
  }

  ghost function Height(g: Graph, i: nat): (h: nat)
    ensures IsGood(g, i) ==> Least(g, i, h)
  {
    if IsGood(g, i) then
      var n: nat :| Good(g, i, n);
      LeastDepth(g, i, n);
      var m: nat :| Least(g, i, m);
      m
    else 0
  }

  lemma ChildIsLower(g: Graph, i: nat, j: nat)
    requires IsGood(g, i) && Edge(g, i, j)
    ensures IsGood(g, j) && Height(g, j) < Height(g, i)
  {
    GoodChild(g, i, j);
    var h := Height(g, i);
    var k :| 0 <= k < |g.kids[i].value| && g.kids[i].value[k] == j;
    assert Good(g, j, h - 1);
    if Height(g, j) >= h {
      GoodMore(g, j, h - 1, Height(g, j) - 1);
    }
  }

  lemma ChildrenAreLower(g: Graph, i: nat, c: seq<nat>)
    requires IsGood(g, i) && g.kids[i] == Some(c)
    ensures forall k :: 0 <= k < |c| ==> c[k] < |g.kids| && Height(g, c[k]) < Height(g, i)
  {
    forall k | 0 <= k < |c| ensures c[k] < |g.kids| && Height(g, c[k]) < Height(g, i) {
      ChildIsLower(g, i, c[k]);
    }
  }

  // ---------- evaluation ----------

  /** The value of a node from the values of its children, recursively. */
  function Value<V>(g: Graph, f: (nat, seq<V>) -> V, i: nat, n: nat): V
    requires Good(g, i, n)
    decreases n, 0
  {
    f(i, Values(g, f, g.kids[i].value, n - 1))
  }

  function Values<V>(g: Graph, f: (nat, seq<V>) -> V, c: seq<nat>, n: nat): (vs: seq<V>)
    requires forall k :: 0 <= k < |c| ==> Good(g, c[k], n)
    ensures |vs| == |c| && forall k :: 0 <= k < |c| ==> vs[k] == Value(g, f, c[k], n)
    decreases n, 1
  {
    seq(|c|, k requires 0 <= k < |c| => Value(g, f, c[k], n))
  }

  lemma {:induction false} ValueStable<V>(g: Graph, f: (nat, seq<V>) -> V, i: nat, n: nat, m: nat)
    requires Good(g, i, n) && Good(g, i, m)
    ensures Value(g, f, i, n) == Value(g, f, i, m)
    decreases n
  {
    var c := g.kids[i].value;
    forall k | 0 <= k < |c| ensures Value(g, f, c[k], n - 1) == Value(g, f, c[k], m - 1) {
      ValueStable(g, f, c[k], n - 1, m - 1);
    }
    assert Values(g, f, c, n - 1) == Values(g, f, c, m - 1);
  }

  ghost function Val<V>(g: Graph, f: (nat, seq<V>) -> V, i: nat): V
    requires IsGood(g, i)
  {
    var n: nat :| Good(g, i, n);
    Value(g, f, i, n)
  }

  ghost function Vals<V>(g: Graph, f: (nat, seq<V>) -> V, c: seq<nat>): (vs: seq<V>)
    requires forall k :: 0 <= k < |c| ==> IsGood(g, c[k])
    ensures |vs| == |c| && forall k :: 0 <= k < |c| ==> vs[k] == Val(g, f, c[k])
  {
    seq(|c|, k requires 0 <= k < |c| => Val(g, f, c[k]))
  }

  /** The equation that determines the values: no depth in sight. */
  lemma ValEquation<V>(g: Graph, f: (nat, seq<V>) -> V, i: nat, vs: seq<V>)
    requires IsGood(g, i) && |vs| == |g.kids[i].value|
    requires forall k :: 0 <= k < |vs| ==> IsGood(g, g.kids[i].value[k]) && vs[k] == Val(g, f, g.kids[i].value[k])
    ensures Val(g, f, i) == f(i, vs)
  {
    var c := g.kids[i].value;
    var n: nat :| Good(g, i, n) && Val(g, f, i) == Value(g, f, i, n);
    forall k | 0 <= k < |c| ensures Value(g, f, c[k], n - 1) == vs[k] {
      var m: nat :| Good(g, c[k], m) && Val(g, f, c[k]) == Value(g, f, c[k], m);
      ValueStable(g, f, c[k], n - 1, m);
    }
    var ws := Values(g, f, c, n - 1);
    assert |ws| == |vs| && forall k :: 0 <= k < |c| ==> ws[k] == vs[k];
    assert ws == vs;
    assert Value(g, f, i, n) == f(i, ws);
  }

  /** The entries of a cache at the given places. */
  function Picked<V>(places: seq<nat>, cache: seq<V>): (s: seq<V>)
    requires forall k :: 0 <= k < |places| ==> places[k] < |cache|
    ensures |s| == |places| && forall k :: 0 <= k < |places| ==> s[k] == cache[places[k]]
  {
    seq(|places|, k requires 0 <= k < |places| => cache[places[k]])
  }

  // ---------- the recursion stack of a depth-first search ----------

  /** The nodes not on the stack. */
  ghost function Off(stack: seq<bool>): set<nat> { set m: nat | m < |stack| && !stack[m] }

  lemma PushShrinks(stack: seq<bool>, i: nat)
    requires i < |stack| && !stack[i]
    ensures |Off(stack[i := true])| < |Off(stack)|
  {
    assert Off(stack) == Off(stack[i := true]) + {i};
  }

  /** The stack holds nodes above `i`; a broken one need not lead anywhere. */
  ghost predicate Above(g: Graph, stack: seq<bool>, i: nat)
  {
    forall m: nat :: m < |stack| && stack[m] && IsGood(g, m) ==> Reaches(g, m, i)
  }

  lemma NothingAbove(g: Graph, stack: seq<bool>, i: nat)
    requires forall m :: 0 <= m < |stack| ==> !stack[m]
    ensures Above(g, stack, i)
  {
  }

  lemma GoodAfter(g: Graph, m: nat, i: nat)
    requires IsGood(g, m) && Reaches(g, m, i)
    ensures IsGood(g, i)
  {
    var n: nat :| Good(g, m, n);
    var p :| PathBetween(g, p, m, i);
    GoodAlong(g, p, n);
  }

  /** Going down to a child keeps the stack above it, whether or not the parent is pushed. */
  lemma AboveChild(g: Graph, stack: seq<bool>, i: nat, c: nat)
    requires Above(g, stack, i) && i < |stack| && (IsGood(g, i) ==> Edge(g, i, c))
    ensures Above(g, stack, c) && Above(g, stack[i := true], c)
  {
    forall m: nat | m < |stack| && (stack[m] || m == i) && IsGood(g, m) ensures Reaches(g, m, c) {
      if m != i || stack[m] {
        GoodAfter(g, m, i);
        ReachesStep(g, m, i, c);
      } else {
        EdgeReaches(g, i, c);
      }
    }
  }

  /** A child of a good node is not on the stack above that node. */
  lemma OffStack(g: Graph, stack: seq<bool>, i: nat, c: nat)
    requires Above(g, stack, i) && i < |stack| && c < |stack| && IsGood(g, i) && Edge(g, i, c)
    ensures !stack[c] && Above(g, stack, c)
  {
    AboveChild(g, stack, i, c);
    if stack[c] {
      StackMeansCycle(g, stack, i, c);
    }
  }

  /** Meeting the stack again means a cycle: no good node has a child on it. */
  lemma StackMeansCycle(g: Graph, stack: seq<bool>, i: nat, c: nat)
    requires Above(g, stack, i) && i < |stack| && c < |stack|
    requires (stack[c] || c == i) && (IsGood(g, i) ==> Edge(g, i, c))
    ensures !IsGood(g, i)
  {
    if IsGood(g, i) {
      GoodChild(g, i, c);
      if stack[c] {
        ReachesStep(g, c, i, c);
      } else {
        EdgeReaches(g, i, i);
      }
      GoodHasNoCycle(g, c);
    }
  }

  // ---------- children named by id ----------

  /** The indices behind a list of ids, or None when one is missing. */
  function LookUp(ids: seq<int>, index: map<int, nat>): Option<seq<nat>>
  {
    if exists k :: 0 <= k < |ids| && ids[k] !in index then None
    else Some(seq(|ids|, k requires 0 <= k < |ids| => index[ids[k]]))
  }

  predicate Resolved(c: seq<nat>, ids: seq<int>, index: map<int, nat>)
  {
    |c| == |ids| && forall k :: 0 <= k < |ids| ==> ids[k] in index && c[k] == index[ids[k]]
  }

  lemma ResolvedMore(c: seq<nat>, ids: seq<int>, k: nat, index: map<int, nat>)
    requires k < |ids| && Resolved(c, ids[..k], index) && ids[k] in index
    ensures Resolved(c + [index[ids[k]]], ids[..k + 1], index)
  {
  }

  lemma ResolvedIsLookUp(c: seq<nat>, ids: seq<int>, index: map<int, nat>)
    requires Resolved(c, ids, index)
    ensures LookUp(ids, index) == Some(c)
  {
    assert LookUp(ids, index).Some?;
    assert LookUp(ids, index).value == c;
  }

  /** Node `i` has the node named `id` as a child. */
  ghost predicate Needs(g: Graph, index: map<int, nat>, i: nat, id: int) { id in index && Edge(g, i, index[id]) }

  lemma KidNeeded(g: Graph, ids: seq<int>, index: map<int, nat>, i: nat, k: nat)
    requires Sane(g, i) && g.kids[i] == LookUp(ids, index) && k < |ids|
    ensures Needs(g, index, i, ids[k])
  {
    assert g.kids[i].value[k] == index[ids[k]];
  }
}
