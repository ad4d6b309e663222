/** Merging pulled rows that agree on everything but their additive fields
    (external/puller_util.cpp): sort, then add each row onto the next one where possible. */
module PullMerge {
  import opened Options
  import opened FieldPath

  /** A number of one of the numeric types, floating ones as exact reals, or anything else. */
  datatype CellValue = IntNum(n: int) | LongNum(n: int) | FloatNum(x: real) | DoubleNum(x: real) | Other(text: seq<nat>)

  datatype Cell = Cell(field: Field, value: CellValue)

  type Row = seq<Cell>

  function Num(v: CellValue): real
  {
    match v
    case IntNum(n) => n as real
    case LongNum(n) => n as real
    case FloatNum(x) => x
    case DoubleNum(x) => x
    case Other(_) => 0.0
  }

  predicate SameType(a: CellValue, b: CellValue)
  {
    a.IntNum? == b.IntNum? && a.LongNum? == b.LongNum? && a.FloatNum? == b.FloatNum? && a.DoubleNum? == b.DoubleNum?
  }

  /** `a += b`: only numbers of one type can be added. */
  function Plus(a: CellValue, b: CellValue): CellValue
  {
    if !SameType(a, b) then a
    else match a
      case IntNum(n) => IntNum(n + b.n)
      case LongNum(n) => LongNum(n + b.n)
      case FloatNum(x) => FloatNum(x + b.x)
      case DoubleNum(x) => DoubleNum(x + b.x)
      case Other(_) => a
  }

  predicate IsAdditive(additive: set<nat>, c: Cell) { PosAtDepth(c.field.field, 0) in additive }

  /** The rows differ at most on additive fields. */
  predicate CanMerge(additive: set<nat>, a: Row, b: Row)
  {
    |a| == |b| && forall p :: 0 <= p < |a| ==> a[p] == b[p] || IsAdditive(additive, a[p])
  }

  /** Row `b` with the additive fields of `a` added. */
  function Added(additive: set<nat>, a: Row, b: Row): (r: Row)
    requires |a| == |b|
    ensures |r| == |b|
    ensures forall p :: 0 <= p < |b| ==>
      r[p] == if IsAdditive(additive, a[p]) then b[p].(value := Plus(b[p].value, a[p].value)) else b[p]
  {
    seq(|b|, p requires 0 <= p < |b| =>
      if IsAdditive(additive, a[p]) then b[p].(value := Plus(b[p].value, a[p].value)) else b[p])
  }

  /** The merge of a sorted list of rows. */
  function Merged(additive: set<nat>, rows: seq<Row>): seq<Row>
    decreases |rows|
  {
    if |rows| <= 1 then rows
    else if CanMerge(additive, rows[0], rows[1]) then
      Merged(additive, [Added(additive, rows[0], rows[1])] + rows[2..])
    else [rows[0]] + Merged(additive, rows[1..])
  }

  // ---------- the loops ----------

  method NeedMerge(additive: set<nat>, lhs: Row, rhs: Row) returns (needMerge: bool)
    ensures needMerge <==> CanMerge(additive, lhs, rhs)
  {
    if |lhs| != |rhs| {
      return false;
    }
    needMerge := true;
    for p := 0 to |lhs|
      invariant needMerge && forall q :: 0 <= q < p ==> lhs[q] == rhs[q] || IsAdditive(additive, lhs[q])
    {
      if lhs[p] != rhs[p] {
        if PosAtDepth(lhs[p].field.field, 0) !in additive {
          needMerge := false;
          break;
        }
      }
    }
  }

  method AddOnto(additive: set<nat>, lhs: Row, rhs0: Row) returns (rhs: Row)
    requires |lhs| == |rhs0|
    ensures rhs == Added(additive, lhs, rhs0)
  {
    rhs := rhs0;
    for p := 0 to |lhs|
      invariant |rhs| == |rhs0|
      invariant forall q :: 0 <= q < p ==> rhs[q] == Added(additive, lhs, rhs0)[q]
      invariant forall q :: p <= q < |rhs| ==> rhs[q] == rhs0[q]
    {
      if PosAtDepth(lhs[p].field.field, 0) in additive {
        rhs := rhs[p := rhs[p].(value := Plus(rhs[p].value, lhs[p].value))];
      }
    }
  }

  /** The merge phase on rows that are already sorted. */
  method MergeRows(additive: set<nat>, sorted: seq<Row>) returns (mergedData: seq<Row>)
    requires |sorted| > 0
    ensures mergedData == Merged(additive, sorted)
  {
    var data := sorted;
    mergedData := [];
    assert data[0..] == data;
    for i := 0 to |data| - 1
      invariant |data| == |sorted| && mergedData + Merged(additive, data[i..]) == Merged(additive, sorted)
    {
      ghost var rest := data[i..];
      assert rest[0] == data[i] && rest[1] == data[i + 1] && rest[1..] == data[i + 1..] && rest[2..] == data[i + 2..];
      var needMerge := NeedMerge(additive, data[i], data[i + 1]);
      if !needMerge {
        mergedData := mergedData + [data[i]];
      } else {
        var row := AddOnto(additive, data[i], data[i + 1]);
        data := data[i + 1 := row];
        assert data[i + 1..] == [row] + rest[2..];
      }
    }
    assert data[|data| - 1..] == [data[|data| - 1]];
    mergedData := mergedData + [data[|data| - 1]];
  }

  // ---------- conservation ----------

  /** Rows of one size have the same fields, of the same types, in the same places. */
  predicate SameShape(a: Row, b: Row)
  {
    |a| == |b| ==> forall p :: 0 <= p < |a| ==> a[p].field == b[p].field && SameType(a[p].value, b[p].value)
  }

  predicate Shaped(rows: seq<Row>)
  {
    forall i, j :: 0 <= i < |rows| && 0 <= j < |rows| ==> SameShape(rows[i], rows[j])
  }

  /** What the rows of one group have in common: all fields that are not additive. */
  function GroupOf(additive: set<nat>, r: Row): seq<Option<Cell>>
  {
    seq(|r|, p requires 0 <= p < |r| => if IsAdditive(additive, r[p]) then None else Some(r[p]))
  }

  /** Total of the field at place `p` over the rows of group `g`. */
  function Total(additive: set<nat>, rows: seq<Row>, g: seq<Option<Cell>>, p: nat): real
  {
    if rows == [] then 0.0
    else
      var first := if GroupOf(additive, rows[0]) == g && p < |rows[0]| then Num(rows[0][p].value) else 0.0;
      first + Total(additive, rows[1..], g, p)
  }

  lemma AddedGroup(additive: set<nat>, a: Row, b: Row)
    requires CanMerge(additive, a, b) && SameShape(a, b)
    ensures GroupOf(additive, a) == GroupOf(additive, b) == GroupOf(additive, Added(additive, a, b))
    ensures SameShape(Added(additive, a, b), b)
  {
  }

  lemma MergedPairShaped(additive: set<nat>, rows: seq<Row>)
    requires Shaped(rows) && |rows| >= 2 && |rows[0]| == |rows[1]|
    ensures Shaped([Added(additive, rows[0], rows[1])] + rows[2..])
  {
  }

  /** Merging conserves the total of every additive field within every group. */
  lemma {:induction false} MergeConserves(additive: set<nat>, rows: seq<Row>, g: seq<Option<Cell>>, p: nat)
    requires Shaped(rows) && (p < |g| ==> g[p] == None)
    ensures Total(additive, Merged(additive, rows), g, p) == Total(additive, rows, g, p)
    decreases |rows|
  {
    if |rows| > 1 {
      var a, b := rows[0], rows[1];
      if CanMerge(additive, a, b) {
        MergedPairShaped(additive, rows);
        MergeConserves(additive, [Added(additive, a, b)] + rows[2..], g, p);
        TotalPair(additive, rows, g, p);
      } else {
        MergeConserves(additive, rows[1..], g, p);
        var m := Merged(additive, rows[1..]);
        assert ([a] + m)[1..] == m;
      }
    }
  }

  lemma TotalPair(additive: set<nat>, rows: seq<Row>, g: seq<Option<Cell>>, p: nat)
    requires |rows| >= 2 && CanMerge(additive, rows[0], rows[1]) && SameShape(rows[0], rows[1])
    requires p < |g| ==> g[p] == None
    ensures Total(additive, [Added(additive, rows[0], rows[1])] + rows[2..], g, p) == Total(additive, rows, g, p)
  {
  }

  // ---------- sorting ----------

  lemma {:induction false} TotalRemove(additive: set<nat>, rows: seq<Row>, j: nat, g: seq<Option<Cell>>, p: nat)
    requires j < |rows|
    ensures Total(additive, rows, g, p)
         == Total(additive, [rows[j]], g, p) + Total(additive, rows[..j] + rows[j + 1..], g, p)
  {
    var rest := rows[..j] + rows[j + 1..];
    assert [rows[j]][1..] == [];
    if j == 0 {
      assert rest == rows[1..];
    } else {
      TotalRemove(additive, rows[1..], j - 1, g, p);
      assert rest[0] == rows[0] && rest[1..] == rows[1..][..j - 1] + rows[1..][j..];
    }
  }

  lemma RemoveOne(rows: seq<Row>, j: nat)
    requires j < |rows|
    ensures multiset(rows[..j] + rows[j + 1..]) == multiset(rows) - multiset{rows[j]}
  {
    assert rows == rows[..j] + [rows[j]] + rows[j + 1..];
  }

  /** Sorting does not change any total. */
  lemma {:induction false} TotalOfPermutation(additive: set<nat>, a: seq<Row>, b: seq<Row>, g: seq<Option<Cell>>,
                                              p: nat)
    requires multiset(a) == multiset(b)
    ensures Total(additive, a, g, p) == Total(additive, b, g, p)
  {
    if a == [] {
      assert |multiset(b)| == 0;
    } else {
      assert a[0] in multiset(b);
      var j :| 0 <= j < |b| && b[j] == a[0];
      var a1, b1 := a[1..], b[..j] + b[j + 1..];
      assert multiset(a1) == multiset(b1) by {
        RemoveOne(b, j);
        assert a == [a[0]] + a1;
      }
      assert Total(additive, a, g, p) == Total(additive, [b[j]], g, p) + Total(additive, a1, g, p) by {
        assert [b[j]][1..] == [];
      }
      TotalRemove(additive, b, j, g, p);
      TotalOfPermutation(additive, a1, b1, g, p);
    }
  }

  /** A total order on cells, as FieldValue's is when no float is involved. */
  ghost predicate TotalOrder(less: (Cell, Cell) -> bool)
  {
    forall a, b :: !(less(a, b) && less(b, a)) && (a == b || less(a, b) || less(b, a))
  }

  /** The first place where two rows of one size differ. */
  function FirstDifference(a: Row, b: Row, p: nat): (q: nat)
    requires |a| == |b| && p <= |a|
    ensures p <= q <= |a| && (q < |a| ==> a[q] != b[q]) && forall k :: p <= k < q ==> a[k] == b[k]
    decreases |a| - p
  {
    if p == |a| || a[p] != b[p] then p else FirstDifference(a, b, p + 1)
  }

  /** The order of the sort: by size, then by the first cell that differs. */
  predicate RowLess(less: (Cell, Cell) -> bool, a: Row, b: Row)
  {
    if |a| != |b| then |a| < |b|
    else
      var p := FirstDifference(a, b, 0);
      p < |a| && less(a[p], b[p])
  }

  ghost predicate Sorted(less: (Cell, Cell) -> bool, rows: seq<Row>)
  {
    forall i, j :: 0 <= i < j < |rows| ==> !RowLess(less, rows[j], rows[i])
  }

  /** For every outcome of the sort: totals of the result are those of the pulled rows. */
  lemma SortAndMergeConserve(additive: set<nat>, data: seq<Row>, sorted: seq<Row>, g: seq<Option<Cell>>, p: nat)
    requires multiset(sorted) == multiset(data) && Shaped(sorted) && (p < |g| ==> g[p] == None)
    ensures Total(additive, Merged(additive, sorted), g, p) == Total(additive, data, g, p)
  {
    MergeConserves(additive, sorted, g, p);
    TotalOfPermutation(additive, sorted, data, g, p);
  }

  // ---------- groups in the result ----------

  type Group = seq<Option<Cell>>

  function Groups(additive: set<nat>, rows: seq<Row>): (gs: seq<Group>)
    ensures |gs| == |rows| && forall i :: 0 <= i < |rows| ==> gs[i] == GroupOf(additive, rows[i])
  {
    seq(|rows|, i requires 0 <= i < |rows| => GroupOf(additive, rows[i]))
  }

  /** A list with runs of equal entries shortened to one. */
  function Squeezed(gs: seq<Group>): seq<Group>
  {
    if |gs| <= 1 then gs else if gs[0] == gs[1] then Squeezed(gs[1..]) else [gs[0]] + Squeezed(gs[1..])
  }

  lemma MergeIffSameGroup(additive: set<nat>, a: Row, b: Row)
    requires SameShape(a, b)
    ensures CanMerge(additive, a, b) <==> GroupOf(additive, a) == GroupOf(additive, b)
  {
    if CanMerge(additive, a, b) {
      AddedGroup(additive, a, b);
    }
    if GroupOf(additive, a) == GroupOf(additive, b) {
      assert |GroupOf(additive, a)| == |a| && |GroupOf(additive, b)| == |b|;
      forall p | 0 <= p < |a| ensures a[p] == b[p] || IsAdditive(additive, a[p]) {
        assert GroupOf(additive, a)[p] == GroupOf(additive, b)[p];
      }
    }
  }

  /** Merging squeezes the groups of the sorted rows. */
  lemma {:induction false} MergedGroups(additive: set<nat>, rows: seq<Row>)
    requires Shaped(rows)
    ensures Groups(additive, Merged(additive, rows)) == Squeezed(Groups(additive, rows))
    decreases |rows|
  {
    var gs := Groups(additive, rows);
    if |rows| > 1 {
      MergeIffSameGroup(additive, rows[0], rows[1]);
      assert gs[1..] == Groups(additive, rows[1..]);
      if CanMerge(additive, rows[0], rows[1]) {
        var more := [Added(additive, rows[0], rows[1])] + rows[2..];
        AddedGroup(additive, rows[0], rows[1]);
        MergedPairShaped(additive, rows);
        MergedGroups(additive, more);
        assert Groups(additive, more) == gs[1..];
      } else {
        MergedGroups(additive, rows[1..]);
        assert Groups(additive, Merged(additive, rows)) == [gs[0]] + Groups(additive, Merged(additive, rows[1..]));
      }
    }
  }

  predicate Distinct(gs: seq<Group>) { forall i, j :: 0 <= i < j < |gs| ==> gs[i] != gs[j] }

  /** Equal entries stand next to each other. */
  predicate Contiguous(gs: seq<Group>)
  {
    forall i, j, k :: 0 <= i < j < k < |gs| && gs[i] == gs[k] ==> gs[j] == gs[i]
  }

  lemma {:induction false} SqueezedHas(gs: seq<Group>, g: Group)
    ensures g in Squeezed(gs) <==> g in gs
  {
    if |gs| > 1 {
      SqueezedHas(gs[1..], g);
    }
  }

  lemma ContiguousTail(gs: seq<Group>)
    requires gs != []
    ensures Contiguous(gs) <==> Contiguous(gs[1..]) && (|gs| > 1 && gs[0] != gs[1] ==> gs[0] !in gs[1..])
  {
  }

  lemma DistinctCons(g: Group, gs: seq<Group>)
    ensures Distinct([g] + gs) <==> g !in gs && Distinct(gs)
  {
    var more := [g] + gs;
    if Distinct(more) {
      forall j | 0 <= j < |gs| ensures gs[j] != g { assert more[0] != more[j + 1]; }
      forall i, j | 0 <= i < j < |gs| ensures gs[i] != gs[j] { assert more[i + 1] != more[j + 1]; }
    }
  }

  /** Squeezing leaves no duplicates exactly when equal entries were next to each other. */
  lemma {:induction false} SqueezedDistinct(gs: seq<Group>)
    ensures Distinct(Squeezed(gs)) <==> Contiguous(gs)
  {
    if |gs| > 1 {
      SqueezedDistinct(gs[1..]);
      ContiguousTail(gs);
      if gs[0] != gs[1] {
        DistinctCons(gs[0], Squeezed(gs[1..]));
        SqueezedHas(gs[1..], gs[0]);
      }
    }
  }

  /** No two rows of the result share a group exactly when, in the sorted list, rows of one group
      stand next to each other. */
  lemma ResultGroupsDistinct(additive: set<nat>, rows: seq<Row>)
    requires Shaped(rows)
    ensures Distinct(Groups(additive, Merged(additive, rows))) <==> Contiguous(Groups(additive, rows))
  {
    MergedGroups(additive, rows);
    SqueezedDistinct(Groups(additive, rows));
  }

  // ---------- when rows of a group are neighbours ----------

  predicate NotAfter(less: (Cell, Cell) -> bool, a: Row, b: Row) { !RowLess(less, b, a) }

  /** No pulled row sorts between two rows of a group it does not belong to. */
  predicate NoneBetween(additive: set<nat>, less: (Cell, Cell) -> bool, data: seq<Row>)
  {
    forall a, b, c :: a in data && b in data && c in data && SortsBetween(additive, less, a, b, c) ==>
                        GroupOf(additive, b) == GroupOf(additive, a)
  }

  predicate SortsBetween(additive: set<nat>, less: (Cell, Cell) -> bool, a: Row, b: Row, c: Row)
  {
    GroupOf(additive, a) == GroupOf(additive, c) && NotAfter(less, a, b) && NotAfter(less, b, c)
  }

  /** Different rows are in order one way or the other. */
  lemma RowsAreOrdered(less: (Cell, Cell) -> bool, a: Row, b: Row)
    requires TotalOrder(less) && a != b
    ensures RowLess(less, a, b) || RowLess(less, b, a)
  {
    if |a| == |b| {
      var p, q := FirstDifference(a, b, 0), FirstDifference(b, a, 0);
      assert p == |a| ==> a == b;
      assert p == q;
    }
  }

  lemma OrderedPlaces(less: (Cell, Cell) -> bool, sorted: seq<Row>, i: nat, j: nat)
    requires TotalOrder(less) && Sorted(less, sorted) && i < |sorted| && j < |sorted|
    requires sorted[i] != sorted[j] && NotAfter(less, sorted[i], sorted[j])
    ensures i < j
  {
    RowsAreOrdered(less, sorted[i], sorted[j]);
  }

  lemma SamePlaces(data: seq<Row>, sorted: seq<Row>, r: Row)
    requires multiset(sorted) == multiset(data)
    ensures r in data <==> r in sorted
  {
    assert r in multiset(data) <==> r in multiset(sorted);
  }

  lemma ContiguousIsNoneBetween(additive: set<nat>, less: (Cell, Cell) -> bool, sorted: seq<Row>)
    requires TotalOrder(less) && Sorted(less, sorted)
    ensures Contiguous(Groups(additive, sorted)) <==> NoneBetween(additive, less, sorted)
  {
    var gs := Groups(additive, sorted);
    if Contiguous(gs) {
      forall a, b, c | a in sorted && b in sorted && c in sorted && SortsBetween(additive, less, a, b, c)
        ensures GroupOf(additive, b) == GroupOf(additive, a)
      {
        var i :| 0 <= i < |sorted| && sorted[i] == a;
        var j :| 0 <= j < |sorted| && sorted[j] == b;
        var k :| 0 <= k < |sorted| && sorted[k] == c;
        if a != b && b != c {
          OrderedPlaces(less, sorted, i, j);
          OrderedPlaces(less, sorted, j, k);
          assert gs[i] == gs[k];
          assert gs[j] == gs[i];
        }
      }
    }
    if NoneBetween(additive, less, sorted) {
      forall i, j, k | 0 <= i < j < k < |gs| && gs[i] == gs[k] ensures gs[j] == gs[i] {
        assert SortsBetween(additive, less, sorted[i], sorted[j], sorted[k]);
      }
    }
  }

  /** On the rows as they were pulled: no two rows of the result share a group exactly when no row
      sorts between two rows of another group. */
  lemma GroupsDistinctIff(additive: set<nat>, less: (Cell, Cell) -> bool, data: seq<Row>, sorted: seq<Row>)
    requires TotalOrder(less) && Sorted(less, sorted) && multiset(sorted) == multiset(data) && Shaped(sorted)
    ensures Distinct(Groups(additive, Merged(additive, sorted))) <==> NoneBetween(additive, less, data)
  {
    forall r: Row ensures r in data <==> r in sorted {
      SamePlaces(data, sorted, r);
    }
    ContiguousIsNoneBetween(additive, less, sorted);
    ResultGroupsDistinct(additive, sorted);
  }

  /** In every row the fields that are not additive come first. */
  predicate AdditiveLast(additive: set<nat>, rows: seq<Row>)
  {
    forall i, p, q :: 0 <= i < |rows| && 0 <= p < q < |rows[i]| && IsAdditive(additive, rows[i][p]) ==>
                        IsAdditive(additive, rows[i][q])
  }

  /** A row sorted between two rows of one group belongs to it. */
  lemma Between(additive: set<nat>, less: (Cell, Cell) -> bool, a: Row, b: Row, c: Row)
    requires TotalOrder(less) && SameShape(a, b) && SameShape(a, c) && SameShape(b, c)
    requires !RowLess(less, b, a) && !RowLess(less, c, b) && GroupOf(additive, a) == GroupOf(additive, c)
    requires forall p, q :: 0 <= p < q < |a| && IsAdditive(additive, a[p]) ==> IsAdditive(additive, a[q])
    ensures GroupOf(additive, b) == GroupOf(additive, a)
  {
    assert |a| == |GroupOf(additive, a)| == |c|;
    assert |b| == |a|;
    var p, q := FirstDifference(b, a, 0), FirstDifference(c, b, 0);
    if p < |a| && !IsAdditive(additive, a[p]) {
      forall k | 0 <= k <= p ensures a[k] == c[k] {
        assert !IsAdditive(additive, a[k]);
        assert GroupOf(additive, a)[k] == GroupOf(additive, c)[k];
      }
      assert false;
    }
    forall k | 0 <= k < |a| ensures GroupOf(additive, b)[k] == GroupOf(additive, a)[k] {
      assert a[k].field == b[k].field;
      if k >= p { assert IsAdditive(additive, a[k]); }
    }
  }

  /** With the additive fields last, no two rows of the result share a group. */
  lemma SortedGroupsDistinct(additive: set<nat>, less: (Cell, Cell) -> bool, rows: seq<Row>)
    requires TotalOrder(less) && Sorted(less, rows) && Shaped(rows) && AdditiveLast(additive, rows)
    ensures Distinct(Groups(additive, Merged(additive, rows)))
  {
    var gs := Groups(additive, rows);
    forall i, j, k | 0 <= i < j < k < |gs| && gs[i] == gs[k] ensures gs[j] == gs[i] {
      Between(additive, less, rows[i], rows[j], rows[k]);
    }
    ResultGroupsDistinct(additive, rows);
  }

  lemma SplitGroupStays(additive: set<nat>, rows: seq<Row>, i: nat, j: nat, k: nat)
    requires Shaped(rows) && i < j < k < |rows|
    requires GroupOf(additive, rows[i]) == GroupOf(additive, rows[k]) != GroupOf(additive, rows[j])
    ensures !Distinct(Groups(additive, Merged(additive, rows)))
  {
    ResultGroupsDistinct(additive, rows);
    var gs := Groups(additive, rows);
    assert gs[i] == gs[k] && gs[j] != gs[i];
  }

  /** A row with other values at two places. */
  function Varied(r: Row, p: nat, v: CellValue, q: nat, u: CellValue): Row
    requires p < |r| && q < |r|
  {
    r[p := r[p].(value := v)][q := r[q].(value := u)]
  }

  lemma VariedGroup(additive: set<nat>, r: Row, p: nat, v: CellValue, v': CellValue, q: nat, u: CellValue,
                    u': CellValue)
    requires p < q < |r| && IsAdditive(additive, r[p]) && !IsAdditive(additive, r[q])
    ensures GroupOf(additive, Varied(r, p, v, q, u)) == GroupOf(additive, Varied(r, p, v', q, u')) <==> u == u'
  {
    var a, b := Varied(r, p, v, q, u), Varied(r, p, v', q, u');
    if u == u' {
      forall k | 0 <= k < |r| ensures GroupOf(additive, a)[k] == GroupOf(additive, b)[k] {}
    } else {
      assert GroupOf(additive, a)[q] != GroupOf(additive, b)[q];
    }
  }

  lemma VariedOrder(less: (Cell, Cell) -> bool, r: Row, p: nat, v: CellValue, v': CellValue, q: nat, u: CellValue,
                    u': CellValue)
    requires p < q < |r| && v != v'
    ensures RowLess(less, Varied(r, p, v, q, u), Varied(r, p, v', q, u'))
       <==> less(r[p].(value := v), r[p].(value := v'))
  {
    var a, b := Varied(r, p, v, q, u), Varied(r, p, v', q, u');
    assert a[p] != b[p] && forall k :: 0 <= k < p ==> a[k] == b[k];
    assert FirstDifference(a, b, 0) == p;
  }

  /** Additive fields must come last: in a layout with an additive field before one that is not,
      rows can be pulled that the sort interleaves, and their group appears twice in the result. */
  lemma AdditiveFirstSplits(additive: set<nat>, less: (Cell, Cell) -> bool, r: Row, p: nat, q: nat,
                            v: seq<CellValue>, u: CellValue, w: CellValue)
    requires TotalOrder(less) && p < q < |r| && IsAdditive(additive, r[p]) && !IsAdditive(additive, r[q])
    requires |v| == 3 && forall i :: 0 <= i < 3 ==> SameType(v[i], r[p].value)
    requires forall i, j :: 0 <= i < j < 3 ==> less(r[p].(value := v[i]), r[p].(value := v[j]))
    requires u != w && SameType(u, r[q].value) && SameType(w, r[q].value)
    ensures var rows := [Varied(r, p, v[0], q, u), Varied(r, p, v[1], q, w), Varied(r, p, v[2], q, u)];
            Sorted(less, rows) && Shaped(rows) && !Distinct(Groups(additive, Merged(additive, rows)))
  {
    var rows := [Varied(r, p, v[0], q, u), Varied(r, p, v[1], q, w), Varied(r, p, v[2], q, u)];
    var us := [u, w, u];
    VariedSorted(less, r, p, q, v, us, rows);
    VariedGroup(additive, r, p, v[0], v[1], q, u, w);
    VariedGroup(additive, r, p, v[0], v[2], q, u, u);
    SplitGroupStays(additive, rows, 0, 1, 2);
  }

  lemma VariedSorted(less: (Cell, Cell) -> bool, r: Row, p: nat, q: nat, v: seq<CellValue>, us: seq<CellValue>,
                     rows: seq<Row>)
    requires TotalOrder(less) && p < q < |r| && |v| == |us| == |rows|
    requires forall i :: 0 <= i < |v| ==> SameType(v[i], r[p].value) && SameType(us[i], r[q].value)
    requires forall i, j :: 0 <= i < j < |v| ==> less(r[p].(value := v[i]), r[p].(value := v[j]))
    requires forall i :: 0 <= i < |v| ==> rows[i] == Varied(r, p, v[i], q, us[i])
    ensures Sorted(less, rows) && Shaped(rows)
  {
    forall i, j | 0 <= i < j < |rows| ensures !RowLess(less, rows[j], rows[i]) {
      assert less(r[p].(value := v[i]), r[p].(value := v[j]));
      VariedOrder(less, r, p, v[j], v[i], q, us[j], us[i]);
    }
    forall i, j | 0 <= i < |rows| && 0 <= j < |rows| ensures SameShape(rows[i], rows[j]) {
      assert rows[i] == Varied(r, p, v[i], q, us[i]) && rows[j] == Varied(r, p, v[j], q, us[j]);
    }
  }
}
