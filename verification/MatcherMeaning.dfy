/** What field matchers say of the values that writers put into events: positions pick nodes of a
    list, and leaf tests compare values as numbers and strings. */
module MatcherMeaning {
  import opened Options
  import opened Bits
  import opened FieldPath
  import opened LogParser
  import opened EventWriter
  import opened WireFormat
  import opened DfsOrder
  import opened SimpleMatch
  import opened KeyValueLists

  // ---------- leaf tests ----------

  /** On a whole number exactly one of less, equal and greater passes, the others combine them, and a
      boolean test asks whether the number is not zero. */
  lemma {:induction false} WholeTests(env: Env, fv: FieldValue, i: int)
    requires IsWhole(fv.value)
    ensures Passes(env, EqInt(i), fv) <==> !Passes(env, LtInt(i), fv) && !Passes(env, GtInt(i), fv)
    ensures !(Passes(env, LtInt(i), fv) && Passes(env, GtInt(i), fv))
    ensures Passes(env, LteInt(i), fv) <==> Passes(env, LtInt(i), fv) || Passes(env, EqInt(i), fv)
    ensures Passes(env, GteInt(i), fv) <==> !Passes(env, LtInt(i), fv)
    ensures Passes(env, LtInt(i + 1), fv) <==> Passes(env, LteInt(i), fv)
    ensures Passes(env, EqInt(Whole(fv.value)), fv) && Passes(env, LtInt(Whole(fv.value) + 1), fv)
    ensures Passes(env, EqBool(true), fv) <==> !Passes(env, EqInt(0), fv)
    ensures Passes(env, EqBool(false), fv) <==> Passes(env, EqInt(0), fv)
  {
  }

  /** Nothing but a whole number passes those, and nothing but a float passes the float tests. */
  lemma {:induction false} OtherValues(env: Env, fv: FieldValue, i: int, b: bool, x: UInt32)
    ensures !IsWhole(fv.value) ==>
      && !Passes(env, EqInt(i), fv) && !Passes(env, LtInt(i), fv) && !Passes(env, GtInt(i), fv)
      && !Passes(env, LteInt(i), fv) && !Passes(env, GteInt(i), fv) && !Passes(env, EqBool(b), fv)
    ensures !fv.value.FloatV? ==> !Passes(env, LtFloat(x), fv) && !Passes(env, GtFloat(x), fv)
  {
  }

  /** The two float tests are each other's mirror. */
  lemma {:induction false} FloatTests(env: Env, v: FieldValue, w: FieldValue)
    requires v.value.FloatV? && w.value.FloatV?
    ensures Passes(env, LtFloat(w.value.bits), v) <==> Passes(env, GtFloat(v.value.bits), w)
    ensures Passes(env, LtFloat(w.value.bits), v) <==> env.floatLess(v.value.bits, w.value.bits)
  {
  }

  /** A list of strings passes when one of them does, and its negation when none does. */
  lemma {:induction false} StringTests(env: Env, fv: FieldValue, ss: seq<seq<Byte>>)
    ensures Passes(env, EqAnyString(ss), fv) <==> exists s :: s in ss && Passes(env, EqString(s), fv)
    ensures Passes(env, NeqAnyString(ss), fv) <==> !Passes(env, EqAnyString(ss), fv)
  {
    if s :| s in ss && Passes(env, EqString(s), fv) {
      var k :| 0 <= k < |ss| && ss[k] == s;
      assert TryMatchString(env, fv, ss[k]);
    }
    if k :| 0 <= k < |ss| && TryMatchString(env, fv, ss[k]) { assert ss[k] in ss; }
  }

  /** A string is compared with what was logged; a uid with the uid or the packages behind the name. */
  lemma {:induction false} StringTest(env: Env, fv: FieldValue, s: seq<Byte>)
    requires IsPath(fv.field.field)
    ensures fv.value.StrV? && !fv.annotations.uid ==> (Passes(env, EqString(s), fv) <==> s == fv.value.str)
    ensures fv.value.IntV? && !fv.annotations.uid && fv.field.field.p0 != 1 ==> !Passes(env, EqString(s), fv)
    ensures fv.value.IntV? && (fv.annotations.uid || (fv.field.field.p0 == 1 && PosAtDepth(fv.field.field, 2) == 1)) ==>
      (Passes(env, EqString(s), fv) <==>
         if s in env.aidToUid then fv.value.i == env.aidToUid[s] else s in env.appNames(fv.value.i))
  {
    AttributionUidPath(fv);
  }

  // ---------- a list of items with two components each ----------

  /** The values of a list in field `p0` from place `a` on: item `i` has component 1 and component
      `second[i]`. Nothing else belongs to the field. */
  predicate ListAt(vs: seq<FieldValue>, a: nat, p0: nat, second: seq<nat>)
  {
    var n := |second|;
    && 1 <= p0 <= 127 && 1 <= n <= 127 && a + 2 * n <= |vs|
    && (forall i :: 0 <= i < n ==> 2 <= second[i] <= 127)
    && (forall j {:trigger HasPath(vs, a, p0, second, j)} :: a <= j < a + 2 * n ==> HasPath(vs, a, p0, second, j))
    && (forall j {:trigger Outside(vs, p0, j)} :: 0 <= j < |vs| && !(a <= j < a + 2 * n) ==> Outside(vs, p0, j))
  }

  predicate HasPath(vs: seq<FieldValue>, a: nat, p0: nat, second: seq<nat>, j: nat)
    requires j < |vs| && a <= j < a + 2 * |second|
  {
    vs[j].field.field == ItemPathOf(p0, second, j - a)
  }

  predicate Outside(vs: seq<FieldValue>, p0: nat, j: nat)
    requires j < |vs|
  {
    Pos(vs, j, 0) != p0
  }

  function ItemPathOf(p0: nat, second: seq<nat>, k: nat): Word
    requires k < 2 * |second|
  {
    var i := k / 2;
    Pack(2, p0, WithLast(i + 1, i + 1 == |second|), if k % 2 == 0 then 1 else second[i])
  }

  lemma {:induction false} PlaceOf(vs: seq<FieldValue>, a: nat, p0: nat, second: seq<nat>, k: nat)
    requires ListAt(vs, a, p0, second) && k < 2 * |second|
    ensures Pos(vs, a + k, 0) == p0 && Pos(vs, a + k, 1) == k / 2 + 1
    ensures Pos(vs, a + k, 2) == if k % 2 == 0 then 1 else second[k / 2]
    ensures IsLast(vs, a + k, 1) <==> k / 2 + 1 == |second|
  {
    assert HasPath(vs, a, p0, second, a + k);
  }

  ghost predicate IsSpan(s: set<nat>, start: nat, end: nat) { forall j :: j in s <==> start <= j < end }

  /** The values of item `i`. */
  function ItemRange(a: nat, i: nat): set<nat> { {a + 2 * i, a + 2 * i + 1} }

  lemma {:induction false} FieldValues(vs: seq<FieldValue>, a: nat, p0: nat, second: seq<nat>, all: set<nat>)
    requires ListAt(vs, a, p0, second) && all == Range(0, |vs|)
    ensures WithPos(vs, all, 0, p0) == Range(a, a + 2 * |second|)
  {
    forall j | 0 <= j < |vs| ensures Pos(vs, j, 0) == p0 <==> a <= j < a + 2 * |second| {
      if a <= j < a + 2 * |second| { PlaceOf(vs, a, p0, second, j - a); } else { assert Outside(vs, p0, j); }
    }
  }

  lemma {:induction false} ItemValues(vs: seq<FieldValue>, a: nat, p0: nat, second: seq<nat>, i: nat, s: set<nat>)
    requires ListAt(vs, a, p0, second) && i < |second| && IsSpan(s, a, a + 2 * |second|)
    ensures WithPos(vs, s, 1, i + 1) == ItemRange(a, i)
  {
    forall j | a <= j < a + 2 * |second| ensures Pos(vs, j, 1) == i + 1 <==> j in ItemRange(a, i) {
      PlaceOf(vs, a, p0, second, j - a);
    }
  }

  lemma {:induction false} LastValues(vs: seq<FieldValue>, a: nat, p0: nat, second: seq<nat>, s: set<nat>)
    requires ListAt(vs, a, p0, second) && IsSpan(s, a, a + 2 * |second|)
    ensures LastItems(vs, s, 1) == ItemRange(a, |second| - 1)
  {
    var last := a + 2 * (|second| - 1);
    forall j | a <= j < a + 2 * |second| ensures IsLast(vs, j, 1) <==> j in ItemRange(a, |second| - 1) {
      PlaceOf(vs, a, p0, second, j - a);
    }
    assert last in s && IsLast(vs, last, 1);
  }

  /** What a sub-matcher says of one item: a leaf test on the component it names. */
  predicate SubMeans(env: Env, m: FieldValueMatcher, index: nat, first: FieldValue, other: FieldValue)
  {
    && (m.field == 1 || m.field == index) && m.position.None?
    && if m.test.MatchesTuple? then m.test.subs == [] else Passes(env, m.test, if m.field == 1 then first else other)
  }

  predicate ItemMeans(env: Env, subs: seq<FieldValueMatcher>, index: nat, first: FieldValue, other: FieldValue)
  {
    forall k :: 0 <= k < |subs| ==> SubMeans(env, subs[k], index, first, other)
  }

  lemma {:induction false} Components(vs: seq<FieldValue>, a: nat, p0: nat, second: seq<nat>, i: nat, c: int)
    requires ListAt(vs, a, p0, second) && i < |second|
    ensures WithPos(vs, ItemRange(a, i), 2, c)
         == if c == 1 then {a + 2 * i} else if c == second[i] then {a + 2 * i + 1} else {}
  {
    PlaceOf(vs, a, p0, second, 2 * i);
    PlaceOf(vs, a, p0, second, 2 * i + 1);
    assert a + 2 * i + 1 == a + (2 * i + 1);
  }

  lemma {:induction false} TooDeep(env: Env, subs: seq<FieldValueMatcher>, vs: seq<FieldValue>, s: set<nat>)
    requires Indexes(vs, s)
    ensures AllHold(env, subs, vs, s, 3) <==> subs == []
  {
    if subs != [] { assert !Holds(env, subs[0], vs, s, 3); }
  }

  lemma {:induction false} SubHolds(env: Env, m: FieldValueMatcher, vs: seq<FieldValue>, a: nat, p0: nat,
                                    second: seq<nat>, i: nat)
    requires ListAt(vs, a, p0, second) && i < |second|
    ensures Holds(env, m, vs, ItemRange(a, i), 2)
       <==> SubMeans(env, m, second[i], vs[a + 2 * i], vs[a + 2 * i + 1])
  {
    var t := WithPos(vs, ItemRange(a, i), 2, m.field);
    Components(vs, a, p0, second, i, m.field);
    if m.test.MatchesTuple? { TooDeep(env, m.test.subs, vs, t); }
  }

  lemma {:induction false} ItemHoldsIff(env: Env, subs: seq<FieldValueMatcher>, vs: seq<FieldValue>, a: nat, p0: nat,
                                        second: seq<nat>, i: nat)
    requires ListAt(vs, a, p0, second) && i < |second|
    ensures AllHold(env, subs, vs, ItemRange(a, i), 2)
       <==> ItemMeans(env, subs, second[i], vs[a + 2 * i], vs[a + 2 * i + 1])
  {
    forall k | 0 <= k < |subs|
      ensures Holds(env, subs[k], vs, ItemRange(a, i), 2)
         <==> SubMeans(env, subs[k], second[i], vs[a + 2 * i], vs[a + 2 * i + 1])
    {
      SubHolds(env, subs[k], vs, a, p0, second, i);
    }
  }

  /** Item `i` satisfies all sub-matchers. */
  predicate NodeMeans(env: Env, subs: seq<FieldValueMatcher>, vs: seq<FieldValue>, a: nat, second: seq<nat>, i: nat)
    requires i < |second| && a + 2 * |second| <= |vs|
  {
    ItemMeans(env, subs, second[i], vs[a + 2 * i], vs[a + 2 * i + 1])
  }

  /** A tuple on a list: all its sub-matchers are satisfied by the first item, by the last one, or by
      one and the same item; other positions never match. */
  lemma {:induction false} TupleOnList(env: Env, vs: seq<FieldValue>, a: nat, p0: nat, second: seq<nat>,
                                       position: Position,
                    subs: seq<FieldValueMatcher>)
    requires ListAt(vs, a, p0, second)
    ensures Holds(env, FieldValueMatcher(p0, Some(position), MatchesTuple(subs)), vs, Range(0, |vs|), 0)
       <==> match position
            case FIRST => NodeMeans(env, subs, vs, a, second, 0)
            case LAST => NodeMeans(env, subs, vs, a, second, |second| - 1)
            case ANY => exists i :: 0 <= i < |second| && NodeMeans(env, subs, vs, a, second, i)
            case _ => false
  {
    var t := Range(a, a + 2 * |second|);
    FieldValues(vs, a, p0, second, Range(0, |vs|));
    assert a in t;
    ListHolds(env, vs, a, p0, second, position, subs, t);
  }

  lemma {:induction false} ListHolds(env: Env, vs: seq<FieldValue>, a: nat, p0: nat, second: seq<nat>,
                                     position: Position,
                  subs: seq<FieldValueMatcher>, t: set<nat>)
    requires ListAt(vs, a, p0, second) && IsSpan(t, a, a + 2 * |second|)
    ensures Indexes(vs, t)
    ensures ItemHolds(env, subs, vs, t, 1, position)
       <==> match position
            case FIRST => NodeMeans(env, subs, vs, a, second, 0)
            case LAST => NodeMeans(env, subs, vs, a, second, |second| - 1)
            case ANY => exists i :: 0 <= i < |second| && NodeMeans(env, subs, vs, a, second, i)
            case _ => false
  {
    match position
    case FIRST => ItemValues(vs, a, p0, second, 0, t); ItemHoldsIff(env, subs, vs, a, p0, second, 0);
    case LAST => LastValues(vs, a, p0, second, t); ItemHoldsIff(env, subs, vs, a, p0, second, |second| - 1);
    case ANY => AnyItemHolds(env, vs, a, p0, second, subs, t);
    case _ =>
  }

  lemma {:induction false} ItemAt(env: Env, vs: seq<FieldValue>, a: nat, p0: nat, second: seq<nat>,
                                  subs: seq<FieldValueMatcher>,
               t: set<nat>, j: nat)
    requires ListAt(vs, a, p0, second) && IsSpan(t, a, a + 2 * |second|) && a <= j < a + 2 * |second|
    ensures AllHold(env, subs, vs, WithPos(vs, t, 1, Pos(vs, j, 1)), 2)
       <==> NodeMeans(env, subs, vs, a, second, (j - a) / 2)
  {
    var i := (j - a) / 2;
    PlaceOf(vs, a, p0, second, j - a);
    ItemValues(vs, a, p0, second, i, t);
    assert WithPos(vs, t, 1, Pos(vs, j, 1)) == ItemRange(a, i);
    ItemHoldsIff(env, subs, vs, a, p0, second, i);
  }

  lemma {:induction false} AnyItemHolds(env: Env, vs: seq<FieldValue>, a: nat, p0: nat, second: seq<nat>,
                                        subs: seq<FieldValueMatcher>,
                     t: set<nat>)
    requires ListAt(vs, a, p0, second) && IsSpan(t, a, a + 2 * |second|)
    ensures ItemHolds(env, subs, vs, t, 1, ANY)
       <==> exists i :: 0 <= i < |second| && NodeMeans(env, subs, vs, a, second, i)
  {
    if ItemHolds(env, subs, vs, t, 1, ANY) {
      AnyItemMeans(env, vs, a, p0, second, subs, t);
    }
    if i :| 0 <= i < |second| && NodeMeans(env, subs, vs, a, second, i) {
      ItemAt(env, vs, a, p0, second, subs, t, a + 2 * i);
      SatisfiedBy(env, vs, subs, t, a + 2 * i);
    }
  }

  lemma {:induction false} AnyItemMeans(env: Env, vs: seq<FieldValue>, a: nat, p0: nat, second: seq<nat>,
                                        subs: seq<FieldValueMatcher>, t: set<nat>)
    requires ListAt(vs, a, p0, second) && IsSpan(t, a, a + 2 * |second|)
    requires ItemHolds(env, subs, vs, t, 1, ANY)
    ensures exists i :: 0 <= i < |second| && NodeMeans(env, subs, vs, a, second, i)
  {
    var j := SatisfiedItem(env, vs, subs, t);
    ItemAt(env, vs, a, p0, second, subs, t, j);
  }

  lemma {:induction false} SatisfiedItem(env: Env, vs: seq<FieldValue>, subs: seq<FieldValueMatcher>, t: set<nat>)
    returns (j: nat)
    requires Indexes(vs, t) && ItemHolds(env, subs, vs, t, 1, ANY)
    ensures j in t && AllHold(env, subs, vs, WithPos(vs, t, 1, Pos(vs, j, 1)), 2)
  {
    j :| j in t && AllHold(env, subs, vs, WithPos(vs, t, 1, Pos(vs, j, 1)), 2);
  }

  lemma {:induction false} SatisfiedBy(env: Env, vs: seq<FieldValue>, subs: seq<FieldValueMatcher>, t: set<nat>, j: nat)
    requires Indexes(vs, t) && j in t && AllHold(env, subs, vs, WithPos(vs, t, 1, Pos(vs, j, 1)), 2)
    ensures ItemHolds(env, subs, vs, t, 1, ANY)
  {
  }

  /** A leaf test on a list without naming a component: some value of the first item, of the last
      item, or of any item passes. */
  lemma {:induction false} LeafOnList(env: Env, vs: seq<FieldValue>, a: nat, p0: nat, second: seq<nat>,
                                      position: Option<Position>,
                   test: Test)
    requires ListAt(vs, a, p0, second) && !test.MatchesTuple?
    ensures var n := |second|;
            var start := if position == Some(LAST) then a + 2 * (n - 1) else a;
            var end := if position == Some(FIRST) then a + 2 else a + 2 * n;
            Holds(env, FieldValueMatcher(p0, position, test), vs, Range(0, |vs|), 0)
            <==> exists j :: start <= j < end && Passes(env, test, vs[j])
  {
    var t := Range(a, a + 2 * |second|);
    FieldValues(vs, a, p0, second, Range(0, |vs|));
    assert a in t;
    LeafHolds(env, vs, p0, position, test, Range(0, |vs|), t);
    var n := |second|;
    if position.None? {
      PassesInRange(env, vs, test, t, a, a + 2 * n);
    } else {
      SelectedSpan(vs, a, p0, second, position.value, t);
      var start := if position == Some(LAST) then a + 2 * (n - 1) else a;
      var end := if position == Some(FIRST) then a + 2 else a + 2 * n;
      PassesInRange(env, vs, test, Selected(vs, t, 1, position.value), start, end);
    }
  }

  lemma {:induction false} SelectedSpan(vs: seq<FieldValue>, a: nat, p0: nat, second: seq<nat>, position: Position,
                                        t: set<nat>)
    requires ListAt(vs, a, p0, second) && IsSpan(t, a, a + 2 * |second|)
    ensures Indexes(vs, t)
    ensures IsSpan(Selected(vs, t, 1, position), if position == LAST then a + 2 * (|second| - 1) else a,
                   if position == FIRST then a + 2 else a + 2 * |second|)
  {
    ItemValues(vs, a, p0, second, 0, t);
    LastValues(vs, a, p0, second, t);
  }

  lemma {:induction false} LeafHolds(env: Env, vs: seq<FieldValue>, p0: nat, position: Option<Position>, test: Test,
                                     all: set<nat>, t: set<nat>)
    requires Indexes(vs, all) && Indexes(vs, t) && WithPos(vs, all, 0, p0) == t && t != {} && !test.MatchesTuple?
    ensures Holds(env, FieldValueMatcher(p0, position, test), vs, all, 0)
       <==> SomePasses(env, test, vs, if position.None? then t else Selected(vs, t, 1, position.value))
  {
  }

  lemma {:induction false} PassesInRange(env: Env, vs: seq<FieldValue>, test: Test, s: set<nat>, start: nat, end: nat)
    requires end <= |vs| && IsSpan(s, start, end)
    ensures Indexes(vs, s)
    ensures SomePasses(env, test, vs, s) <==> exists j :: start <= j < end && Passes(env, test, vs[j])
  {
  }

  // ---------- a field with one value ----------

  predicate ScalarAt(vs: seq<FieldValue>, a: nat, p0: nat)
  {
    && 1 <= p0 <= 127 && a < |vs| && vs[a].field.field == Pack(0, p0, 0, 0)
    && forall j :: 0 <= j < |vs| && j != a ==> Pos(vs, j, 0) != p0
  }

  /** A leaf test on a field with one value asks that value; FIRST finds no first item in it. */
  lemma {:induction false} LeafOnScalar(env: Env, vs: seq<FieldValue>, a: nat, p0: nat, position: Option<Position>,
                                        test: Test)
    requires ScalarAt(vs, a, p0) && !test.MatchesTuple?
    ensures Holds(env, FieldValueMatcher(p0, position, test), vs, Range(0, |vs|), 0)
       <==> position != Some(FIRST) && Passes(env, test, vs[a])
  {
    var t := WithPos(vs, Range(0, |vs|), 0, p0);
    assert t == {a} && Pos(vs, a, 1) == 0 && !IsLast(vs, a, 1);
  }

  /** A field that the event does not have matches nothing. */
  lemma {:induction false} AbsentField(env: Env, m: FieldValueMatcher, vs: seq<FieldValue>)
    requires forall j :: 0 <= j < |vs| ==> Pos(vs, j, 0) != m.field
    ensures !Holds(env, m, vs, Range(0, |vs|), 0)
  {
  }

  // ---------- what the writers put there ----------

  /** Values of other fields. */
  predicate Elsewhere(vs: seq<FieldValue>, p0: nat) { forall j :: 0 <= j < |vs| ==> Pos(vs, j, 0) != p0 }

  lemma {:induction false} ChainIsList(pre: seq<FieldValue>, tag: int, p0: nat, nodes: seq<Node>, post: seq<FieldValue>)
    requires 1 <= p0 <= 127 && 1 <= |nodes| <= 127 && Elsewhere(pre, p0) && Elsewhere(post, p0)
    ensures ListAt(pre + ChainValues(tag, p0, nodes) + post, |pre|, p0, seq(|nodes|, _ => 2))
  {
    var chain, second := ChainValues(tag, p0, nodes), seq(|nodes|, _ => 2);
    var vs, a := pre + chain + post, |pre|;
    forall j | a <= j < a + 2 * |nodes| ensures HasPath(vs, a, p0, second, j) {
      var k := j - a;
      assert vs[j] == chain[k] == ChainValue(tag, p0, nodes, k);
      assert second[k / 2] == 2 && 1 + k % 2 == if k % 2 == 0 then 1 else 2;
    }
    forall j | 0 <= j < |vs| && !(a <= j < a + 2 * |nodes|) ensures Outside(vs, p0, j) {
      if j < a {
        assert vs[j] == pre[j] && Pos(pre, j, 0) != p0;
      } else {
        var k := j - a - 2 * |nodes|;
        assert vs[j] == post[k] && Pos(post, k, 0) != p0;
      }
    }
  }

  /** On an attribution chain, between values of other fields, a tuple asks the uid (component 1) and
      the tag (component 2) of the first node, of the last one, or of one and the same node. */
  lemma {:induction false} TupleOnChain(env: Env, pre: seq<FieldValue>, tag: int, p0: nat, nodes: seq<Node>,
                                        post: seq<FieldValue>,
                     position: Position, subs: seq<FieldValueMatcher>)
    requires 1 <= p0 <= 127 && 1 <= |nodes| <= 127 && Elsewhere(pre, p0) && Elsewhere(post, p0)
    ensures var vs := pre + ChainValues(tag, p0, nodes) + post;
            Holds(env, FieldValueMatcher(p0, Some(position), MatchesTuple(subs)), vs, Range(0, |vs|), 0)
            <==> match position
                 case FIRST => ChainNodeMeans(env, subs, tag, p0, nodes, 0)
                 case LAST => ChainNodeMeans(env, subs, tag, p0, nodes, |nodes| - 1)
                 case ANY => exists i :: 0 <= i < |nodes| && ChainNodeMeans(env, subs, tag, p0, nodes, i)
                 case _ => false
  {
    var second, vs := seq(|nodes|, _ => 2), pre + ChainValues(tag, p0, nodes) + post;
    ChainIsList(pre, tag, p0, nodes, post);
    TupleOnList(env, vs, |pre|, p0, second, position, subs);
    forall i | 0 <= i < |nodes|
      ensures NodeMeans(env, subs, vs, |pre|, second, i) <==> ChainNodeMeans(env, subs, tag, p0, nodes, i)
    {
      ChainNode(pre, tag, p0, nodes, post, i);
    }
  }

  lemma {:induction false} ChainNode(pre: seq<FieldValue>, tag: int, p0: nat, nodes: seq<Node>, post: seq<FieldValue>,
                                     i: nat)
    requires i < |nodes|
    ensures var vs := pre + ChainValues(tag, p0, nodes) + post;
            && vs[|pre| + 2 * i] == ChainValue(tag, p0, nodes, 2 * i)
            && vs[|pre| + 2 * i + 1] == ChainValue(tag, p0, nodes, 2 * i + 1)
  {
  }

  predicate ChainNodeMeans(env: Env, subs: seq<FieldValueMatcher>, tag: int, p0: nat, nodes: seq<Node>, i: nat)
    requires i < |nodes|
  {
    ItemMeans(env, subs, 2, ChainValue(tag, p0, nodes, 2 * i), ChainValue(tag, p0, nodes, 2 * i + 1))
  }

  /** The matcher of one uid, spelled out. */
  lemma {:induction false} UidOfNode(env: Env, tag: int, p0: nat, nodes: seq<Node>, i: nat, uid: int)
    requires i < |nodes|
    ensures ChainNodeMeans(env, [FieldValueMatcher(1, None, EqInt(uid))], tag, p0, nodes, i)
       <==> ToInt32(nodes[i].uid) == uid
    ensures ChainNodeMeans(env, [FieldValueMatcher(1, None, LtInt(uid))], tag, p0, nodes, i)
       <==> ToInt32(nodes[i].uid) < uid
  {
    assert 2 * i / 2 == i && 2 * i % 2 == 0;
    var eq, lt := FieldValueMatcher(1, None, EqInt(uid)), FieldValueMatcher(1, None, LtInt(uid));
    assert [eq][0] == eq && [lt][0] == lt;
    assert ChainNodeMeans(env, [eq], tag, p0, nodes, i) <==>
      SubMeans(env, [eq][0], 2, ChainValue(tag, p0, nodes, 2 * i), ChainValue(tag, p0, nodes, 2 * i + 1));
    assert ChainNodeMeans(env, [lt], tag, p0, nodes, i) <==>
      SubMeans(env, [lt][0], 2, ChainValue(tag, p0, nodes, 2 * i), ChainValue(tag, p0, nodes, 2 * i + 1));
  }

  lemma {:induction false} ListValuesLength(tag: int, p0: nat, pairs: seq<KeyValue>, i: nat)
    requires 1 <= i <= |pairs| + 1
    ensures |ListValues(tag, p0, pairs, i)| == 2 * (|pairs| + 1 - i)
    decreases |pairs| + 1 - i
  {
    if i <= |pairs| {
      ListValuesLength(tag, p0, pairs, i + 1);
    }
  }

  lemma AfterTwo(a: seq<FieldValue>, b: seq<FieldValue>, k: nat)
    requires |a| == 2 && k < 2 + |b|
    ensures (a + b)[k] == if k < 2 then a[k] else b[k - 2]
  {
  }

  /** Place `k` holds a component of pair number `m`, counted from 1. */
  lemma {:induction false} ListValueAt(tag: int, p0: nat, pairs: seq<KeyValue>, i: nat, k: nat, m: nat, c: nat)
    requires 1 <= i <= m <= |pairs| && c < 2 && k == 2 * (m - i) + c
    ensures |ListValues(tag, p0, pairs, i)| == 2 * (|pairs| + 1 - i)
    ensures ListValues(tag, p0, pairs, i)[k] == PairValues(tag, p0, m, |pairs|, pairs[m - 1])[c]
    decreases m - i
  {
    ListValuesLength(tag, p0, pairs, i);
    ListValuesLength(tag, p0, pairs, i + 1);
    AfterTwo(PairValues(tag, p0, i, |pairs|, pairs[i - 1]), ListValues(tag, p0, pairs, i + 1), k);
    if i < m {
      ListValueAt(tag, p0, pairs, i + 1, k - 2, m, c);
    }
  }

  /** A list of key-value pairs is such a list: component 1 is the key, and the value stands at the
      component of its type. */
  lemma {:induction false} PairsAreList(pre: seq<FieldValue>, tag: int, p0: nat, pairs: seq<KeyValue>,
                                        post: seq<FieldValue>)
    requires 1 <= p0 <= 127 && 1 <= |pairs| <= 127 && Elsewhere(pre, p0) && Elsewhere(post, p0)
    ensures ListAt(pre + ListValues(tag, p0, pairs, 1) + post, |pre|, p0,
                   seq(|pairs|, i requires 0 <= i < |pairs| => ValueIndex(pairs[i].value)))
  {
    var list := ListValues(tag, p0, pairs, 1);
    var second := seq(|pairs|, i requires 0 <= i < |pairs| => ValueIndex(pairs[i].value));
    ListValuesLength(tag, p0, pairs, 1);
    var vs, a := pre + list + post, |pre|;
    forall j | a <= j < a + 2 * |pairs| ensures HasPath(vs, a, p0, second, j) {
      var k := j - a;
      ListValueAt(tag, p0, pairs, 1, k, 1 + k / 2, k % 2);
      assert vs[j] == list[k];
    }
    forall j | 0 <= j < |vs| && !(a <= j < a + 2 * |pairs|) ensures Outside(vs, p0, j) {
      if j < a {
        assert vs[j] == pre[j] && Pos(pre, j, 0) != p0;
      } else {
        var k := j - a - 2 * |pairs|;
        assert vs[j] == post[k] && Pos(post, k, 0) != p0;
      }
    }
  }
}
