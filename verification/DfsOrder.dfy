/** Whatever bytes arrive, the values of an accepted event are in DFS order. */
module DfsOrder {
  import opened Bits
  import opened FieldPath
  import opened LogParser

  /** The encoded paths of a list of values. */
  function Paths(values: seq<FieldValue>): (ps: seq<Word>)
    ensures |ps| == |values|
  {
    seq(|values|, i requires 0 <= i < |values| => values[i].field.field)
  }

  /** DFS order of two paths, last bits cleared. */
  predicate DfsLess(a: Word, b: Word)
  {
    || PosAtDepth(a, 0) < PosAtDepth(b, 0)
    || (PosAtDepth(a, 0) == PosAtDepth(b, 0)
        && (|| PosAtDepth(a, 1) < PosAtDepth(b, 1)
            || (PosAtDepth(a, 1) == PosAtDepth(b, 1) && PosAtDepth(a, 2) < PosAtDepth(b, 2))))
  }

  predicate Sorted(ps: seq<Word>) { forall i, j :: 0 <= i < j < |ps| ==> DfsLess(ps[i], ps[j]) }

  /** Two paths share the positions above `depth`. */
  predicate SamePrefix(a: Word, b: Word, depth: nat)
  {
    (depth >= 1 ==> PosAtDepth(a, 0) == PosAtDepth(b, 0)) && (depth >= 2 ==> PosAtDepth(a, 1) == PosAtDepth(b, 1))
  }

  /** Two items of one list: positions count from 1, and what follows an item marked last belongs
      to that same item. */
  predicate ListStep(a: Word, b: Word, depth: nat)
    requires depth <= 2
  {
    SamePrefix(a, b, depth) ==>
      && PosAtDepth(a, depth) >= 1
      && (IsLastPos(a, depth) ==> IsLastPos(b, depth) && PosAtDepth(a, depth) == PosAtDepth(b, depth))
  }

  predicate ListsConsistent(ps: seq<Word>)
  {
    forall i, j, d :: 0 <= i < j < |ps| && 1 <= d <= 2 ==> ListStep(ps[i], ps[j], d)
  }

  predicate InMarkedList(ps: seq<Word>, p0: nat)
  {
    exists k :: 0 <= k < |ps| && PosAtDepth(ps[k], 0) == p0 && IsLastPos(ps[k], 1)
  }

  /** A list with more than one item has an item marked last. */
  predicate LastMarked(ps: seq<Word>)
  {
    forall i, j :: 0 <= i < j < |ps| && PosAtDepth(ps[i], 0) == PosAtDepth(ps[j], 0)
                   && PosAtDepth(ps[i], 1) != PosAtDepth(ps[j], 1)
                   ==> InMarkedList(ps, PosAtDepth(ps[i], 0))
  }

  predicate WellFormed(ps: seq<Word>) { Sorted(ps) && ListsConsistent(ps) && LastMarked(ps) }

  /** Every path is a 32-bit word: each of its parts fits in a byte. */
  predicate ArePaths(ps: seq<Word>) { forall i :: 0 <= i < |ps| ==> IsPath(ps[i]) }

  predicate Below(ps: seq<Word>, p0: nat) { forall i :: 0 <= i < |ps| ==> PosAtDepth(ps[i], 0) < p0 }

  predicate All(ps: seq<Word>, p0: nat) { forall i :: 0 <= i < |ps| ==> PosAtDepth(ps[i], 0) == p0 }

  lemma ConcatWellFormed(ps: seq<Word>, c: seq<Word>, p0: nat)
    requires WellFormed(ps) && Below(ps, p0) && WellFormed(c) && All(c, p0)
    ensures WellFormed(ps + c) && Below(ps + c, p0 + 1)
  {
    var a := ps + c;
    forall i, j | 0 <= i < j < |a| && PosAtDepth(a[i], 0) == PosAtDepth(a[j], 0)
                  && PosAtDepth(a[i], 1) != PosAtDepth(a[j], 1)
      ensures InMarkedList(a, PosAtDepth(a[i], 0))
    {
      if j < |ps| {
        assert InMarkedList(ps, PosAtDepth(ps[i], 0));
        var k :| 0 <= k < |ps| && PosAtDepth(ps[k], 0) == PosAtDepth(a[i], 0) && IsLastPos(ps[k], 1);
        assert a[k] == ps[k];
      } else {
        assert a[i] == c[i - |ps|] && a[j] == c[j - |ps|];
        assert InMarkedList(c, p0);
        var k :| 0 <= k < |c| && PosAtDepth(c[k], 0) == p0 && IsLastPos(c[k], 1);
        assert a[|ps| + k] == c[k];
      }
    }
  }

  lemma ConcatUnsorted(ps: seq<Word>, c: seq<Word>)
    requires !Sorted(ps) || !Sorted(c)
    ensures !Sorted(ps + c)
  {
    if !Sorted(ps) {
      var i, j :| 0 <= i < j < |ps| && !DfsLess(ps[i], ps[j]);
      assert (ps + c)[i] == ps[i] && (ps + c)[j] == ps[j];
    } else {
      var i, j :| 0 <= i < j < |c| && !DfsLess(c[i], c[j]);
      assert (ps + c)[|ps| + i] == c[i] && (ps + c)[|ps| + j] == c[j];
    }
  }

  // ---------- what each parse step appends ----------

  lemma AnnotationKeepsPaths(p: Log, id: Byte, typ: Byte, firstUid: int)
    requires KnownAnnotation(id) && -1 <= firstUid
    ensures Paths(ParseAnnotation(p, id, typ, firstUid).ev.values) == Paths(p.ev.values)
  {
  }

  lemma {:induction false} AnnotationsKeepPaths(p: Log, n: nat, firstUid: int)
    requires -1 <= firstUid
    ensures Paths(ParseAnnotations(p, n, firstUid).ev.values) == Paths(p.ev.values)
    decreases n
  {
    if n > 0 {
      var (id, q) := ReadByte(p);
      var (typ, r) := ReadByte(q);
      if KnownAnnotation(id) {
        AnnotationKeepsPaths(r, id, typ, firstUid);
        AnnotationsKeepPaths(ParseAnnotation(r, id, typ, firstUid), n - 1, firstUid);
      }
    }
  }

  lemma AddPath(ev: Event, depth: nat, p0: nat, p1: nat, p2: nat, v: Value, last1: bool)
    requires depth <= 2
    ensures Paths(AddValue(ev, depth, p0, p1, p2, v, last1).values)
         == Paths(ev.values) + [PathAt(depth, p0, p1, p2, last1)]
  {
  }

  ghost predicate Appends(p: Log, q: Log, c: seq<Word>)
  {
    Paths(q.ev.values) == Paths(p.ev.values) + c
  }

  lemma ParseInt32Paths(p: Log, depth: nat, p0: nat, p1: nat, p2: nat, last1: bool, n: nat)
    requires depth <= 2
    ensures Appends(p, ParseInt32(p, depth, p0, p1, p2, last1, n), [PathAt(depth, p0, p1, p2, last1)])
  {
    var (v, q) := ReadInt32(p);
    AddPath(q.ev, depth, p0, p1, p2, IntV(v), last1);
    AnnotationsKeepPaths(Add(q, depth, p0, p1, p2, IntV(v), last1), n, -1);
  }

  lemma ParseInt64Paths(p: Log, depth: nat, p0: nat, p1: nat, p2: nat, last1: bool, n: nat)
    requires depth <= 2
    ensures Appends(p, ParseInt64(p, depth, p0, p1, p2, last1, n), [PathAt(depth, p0, p1, p2, last1)])
  {
    var (v, q) := ReadInt64(p);
    AddPath(q.ev, depth, p0, p1, p2, LongV(v), last1);
    AnnotationsKeepPaths(Add(q, depth, p0, p1, p2, LongV(v), last1), n, -1);
  }

  lemma ParseFloatPaths(p: Log, depth: nat, p0: nat, p1: nat, p2: nat, last1: bool, n: nat)
    requires depth <= 2
    ensures Appends(p, ParseFloat(p, depth, p0, p1, p2, last1, n), [PathAt(depth, p0, p1, p2, last1)])
  {
    var (v, q) := Read32(p);
    AddPath(q.ev, depth, p0, p1, p2, FloatV(v), last1);
    AnnotationsKeepPaths(Add(q, depth, p0, p1, p2, FloatV(v), last1), n, -1);
  }

  lemma ParseBoolPaths(p: Log, depth: nat, p0: nat, p1: nat, p2: nat, last1: bool, n: nat)
    requires depth <= 2
    ensures Appends(p, ParseBool(p, depth, p0, p1, p2, last1, n), [PathAt(depth, p0, p1, p2, last1)])
  {
    var (v, q) := ReadByte(p);
    AddPath(q.ev, depth, p0, p1, p2, IntV(v), last1);
    AnnotationsKeepPaths(Add(q, depth, p0, p1, p2, IntV(v), last1), n, -1);
  }

  lemma ParseBlobPaths(p: Log, depth: nat, p0: nat, p1: nat, p2: nat, last1: bool, n: nat, isString: bool)
    requires depth <= 2
    requires ParseBlob(p, depth, p0, p1, p2, last1, n, isString).valid
    ensures Appends(p, ParseBlob(p, depth, p0, p1, p2, last1, n, isString), [PathAt(depth, p0, p1, p2, last1)])
  {
    var (len, q) := Read32(p);
    assert len <= |q.rest|;
    var v := if isString then StrV(q.rest[..len]) else StorageV(q.rest[..len]);
    AddPath(q.ev, depth, p0, p1, p2, v, last1);
    AnnotationsKeepPaths(Add(q.(rest := q.rest[len..]), depth, p0, p1, p2, v, last1), n, -1);
  }

  /** The key (`odd` false) or the value of item `k` of a nested list. */
  predicate ItemPath(path: Word, p0: nat, k: nat, odd: bool, last1: bool)
  {
    if odd then exists t :: 2 <= t <= 5 && path == PathAt(2, p0, k, t, last1)
    else path == PathAt(2, p0, k, 1, last1)
  }

  /** Two paths for each of the items `i..n` of a nested list. */
  ghost predicate PairChunk(c: seq<Word>, p0: nat, i: nat, n: nat)
  {
    && |c| == 2 * (if i <= n then n + 1 - i else 0)
    && (forall m :: 0 <= m < |c| ==> ItemPath(c[m], p0, i + m / 2, m % 2 == 1, i + m / 2 == n))
  }

  lemma PairChunkCons(c: seq<Word>, p0: nat, i: nat, n: nat, second: Word)
    requires i <= n && PairChunk(c, p0, i + 1, n) && ItemPath(second, p0, i, true, i == n)
    ensures PairChunk([PathAt(2, p0, i, 1, i == n), second] + c, p0, i, n)
  {
  }

  lemma AssocPaths(a: seq<Word>, x: Word, y: Word, c: seq<Word>)
    ensures a + [x] + [y] + c == a + ([x, y] + c)
  {
  }

  lemma PairValuePath(p: Log, p0: nat, i: nat, last1: bool) returns (second: Word)
    requires ParsePairValue(p, p0, i, last1).valid
    ensures Appends(p, ParsePairValue(p, p0, i, last1), [second]) && ItemPath(second, p0, i, true, last1)
  {
    var (typeInfo, r) := ReadByte(p);
    var t := TypeId(typeInfo);
    var p2 := if t == INT32_TYPE then 2 else if t == INT64_TYPE then 3 else if t == STRING_TYPE then 4 else 5;
    second := PathAt(2, p0, i, p2, last1);
    if t == INT32_TYPE {
      ParseInt32Paths(r, 2, p0, i, 2, last1, 0);
    } else if t == INT64_TYPE {
      ParseInt64Paths(r, 2, p0, i, 3, last1, 0);
    } else if t == STRING_TYPE {
      ParseBlobPaths(r, 2, p0, i, 4, last1, 0, true);
    } else {
      ParseFloatPaths(r, 2, p0, i, 5, last1, 0);
    }
  }

  lemma AppendsMore(p: Log, q: Log, r: Log, x: Word, y: Word, rest: seq<Word>)
    requires Appends(p, q, [x] + [y]) && Appends(q, r, rest)
    ensures Appends(p, r, [x, y] + rest)
  {
    AssocPaths(Paths(p.ev.values), x, y, rest);
    assert [x] + [y] == [x, y];
  }

  lemma PairPaths(p: Log, p0: nat, i: nat, last1: bool) returns (second: Word)
    requires ParsePair(p, p0, i, last1).valid
    ensures Appends(p, ParsePair(p, p0, i, last1), [PathAt(2, p0, i, 1, last1)] + [second])
    ensures ItemPath(second, p0, i, true, last1)
  {
    ParseInt32Paths(p, 2, p0, i, 1, last1, 0);
    second := PairValuePath(ParseInt32(p, 2, p0, i, 1, last1, 0), p0, i, last1);
  }

  lemma {:induction false} PairsPaths(p: Log, p0: nat, i: nat, n: nat) returns (c: seq<Word>)
    requires 1 <= i && ParsePairs(p, p0, i, n).valid
    ensures Appends(p, ParsePairs(p, p0, i, n), c) && PairChunk(c, p0, i, n)
    decreases n + 1 - i
  {
    if i > n {
      c := [];
    } else {
      var x := PathAt(2, p0, i, 1, i == n);
      var y := PairPaths(p, p0, i, i == n);
      var q := ParsePair(p, p0, i, i == n);
      var rest := PairsPaths(q, p0, i + 1, n);
      PairChunkCons(rest, p0, i, n, y);
      AppendsMore(p, q, ParsePairs(q, p0, i + 1, n), x, y, rest);
      c := [x, y] + rest;
    }
  }

  lemma NodePaths(p: Log, p0: nat, i: nat, last1: bool)
    requires ParseNode(p, p0, i, last1).valid
    ensures Appends(p, ParseNode(p, p0, i, last1), [PathAt(2, p0, i, 1, last1)] + [PathAt(2, p0, i, 2, last1)])
    ensures ItemPath(PathAt(2, p0, i, 2, last1), p0, i, true, last1)
  {
  }

  lemma {:induction false} NodesPaths(p: Log, p0: nat, i: nat, n: nat) returns (c: seq<Word>)
    requires 1 <= i && ParseNodes(p, p0, i, n).valid
    ensures Appends(p, ParseNodes(p, p0, i, n), c) && PairChunk(c, p0, i, n)
    decreases n + 1 - i
  {
    if i > n {
      c := [];
    } else {
      var x, y := PathAt(2, p0, i, 1, i == n), PathAt(2, p0, i, 2, i == n);
      NodePaths(p, p0, i, i == n);
      var q := ParseNode(p, p0, i, i == n);
      var rest := NodesPaths(q, p0, i + 1, n);
      PairChunkCons(rest, p0, i, n, y);
      AppendsMore(p, q, ParseNodes(q, p0, i + 1, n), x, y, rest);
      c := [x, y] + rest;
    }
  }

  // ---------- nested lists are in order exactly when positions fit in 7 bits ----------

  lemma TopLevelPath(p0: nat)
    requires p0 < 128
    ensures PosAtDepth(PathAt(0, p0, 1, 1, false), 0) == p0
  {
  }

  /** Element `m` of a chunk belongs to item `1 + m / 2`, and keys come before values. */
  lemma ChunkElement(c: seq<Word>, p0: nat, n: nat, m: nat)
    requires PairChunk(c, p0, 1, n) && p0 < 128 && n <= 255 && m < |c|
    ensures PosAtDepth(c[m], 0) == p0 && PosAtDepth(c[m], 1) == (1 + m / 2) % 128
    ensures if m % 2 == 0 then PosAtDepth(c[m], 2) == 1 else PosAtDepth(c[m], 2) > 1
    ensures n < 128 ==> (IsLastPos(c[m], 1) <==> 1 + m / 2 == n)
    ensures !IsLastPos(c[m], 2)
  {
  }

  lemma ChunkIsPaths(c: seq<Word>, p0: nat, n: nat)
    requires PairChunk(c, p0, 1, n) && p0 < 256 && n <= 255
    ensures ArePaths(c)
  {
    forall m | 0 <= m < |c| ensures IsPath(c[m]) {
      assert ItemPath(c[m], p0, 1 + m / 2, m % 2 == 1, 1 + m / 2 == n);
    }
  }

  lemma ItemsInOrder(a: Word, b: Word, x: nat, y: nat, n: nat)
    requires PosAtDepth(a, 0) == PosAtDepth(b, 0) && PosAtDepth(a, 1) == x <= y == PosAtDepth(b, 1) <= n
    requires 1 <= x && 1 <= PosAtDepth(a, 2) && (x == y ==> PosAtDepth(a, 2) < PosAtDepth(b, 2))
    requires (IsLastPos(a, 1) <==> x == n) && (IsLastPos(b, 1) <==> y == n) && !IsLastPos(a, 2) && !IsLastPos(b, 2)
    ensures DfsLess(a, b) && ListStep(a, b, 1) && ListStep(a, b, 2)
  {
  }

  lemma ChunkPairInOrder(c: seq<Word>, p0: nat, n: nat, i: nat, j: nat)
    requires PairChunk(c, p0, 1, n) && p0 < 128 && n <= 127 && i < j < |c|
    ensures DfsLess(c[i], c[j]) && ListStep(c[i], c[j], 1) && ListStep(c[i], c[j], 2)
  {
    ChunkElement(c, p0, n, i);
    ChunkElement(c, p0, n, j);
    ItemsInOrder(c[i], c[j], 1 + i / 2, 1 + j / 2, n);
  }

  lemma ChunkInOrder(c: seq<Word>, p0: nat, n: nat)
    requires PairChunk(c, p0, 1, n) && p0 < 128 && n <= 127
    ensures WellFormed(c) && All(c, p0)
  {
    forall m | 0 <= m < |c| ensures PosAtDepth(c[m], 0) == p0 {
      ChunkElement(c, p0, n, m);
    }
    forall i, j | 0 <= i < j < |c| ensures DfsLess(c[i], c[j]) && ListStep(c[i], c[j], 1) && ListStep(c[i], c[j], 2) {
      ChunkPairInOrder(c, p0, n, i, j);
    }
    if n > 0 {
      ChunkElement(c, p0, n, |c| - 1);
      assert InMarkedList(c, p0);
    }
  }

  lemma ChunkOutOfOrder(c: seq<Word>, p0: nat, n: nat)
    requires PairChunk(c, p0, 1, n) && p0 < 128 && 128 <= n <= 255
    ensures !Sorted(c)
  {
    ChunkElement(c, p0, n, 252);
    ChunkElement(c, p0, n, 254);
    assert !DfsLess(c[252], c[254]);
  }

  // ---------- the whole event ----------

  /** The field that starts here is not a key-value list of more than 127 pairs. */
  predicate ListFits(p: Log)
  {
    |p.rest| >= 2 && TypeId(p.rest[0]) == KEY_VALUE_PAIRS_TYPE ==> p.rest[1] <= 127
  }

  predicate ListsFit(p: Log, i: nat, n: nat)
    requires 1 <= i
    decreases n + 1 - i
  {
    i > n || !p.valid || (ListFits(p) && ListsFit(ParseField(p, i), i + 1, n))
  }

  /** No key-value list of the event has more than 127 pairs. */
  predicate KeyValueListsFit(buf: seq<Byte>)
  {
    var (h, n) := ParseHeader(Log(Unread(buf), true, EMPTY_EVENT));
    ListsFit(h, 1, n)
  }

  lemma ListPaths(p: Log, p0: nat, numAnnotations: nat) returns (c: seq<Word>)
    requires ParseKeyValuePairs(p, p0, numAnnotations).valid && p0 < 128
    ensures Appends(p, ParseKeyValuePairs(p, p0, numAnnotations), c) && ArePaths(c)
    ensures if ReadByte(p).0 <= 127 then WellFormed(c) && All(c, p0) else !Sorted(c)
  {
    var (n, q) := ReadByte(p);
    c := PairsPaths(q, p0, 1, n);
    AnnotationsKeepPaths(ParsePairs(q, p0, 1, n), numAnnotations, -1);
    ChunkIsPaths(c, p0, n);
    if n <= 127 { ChunkInOrder(c, p0, n); } else { ChunkOutOfOrder(c, p0, n); }
  }

  lemma ChainPaths(p: Log, p0: nat, numAnnotations: nat) returns (c: seq<Word>)
    requires ParseAttributionChain(p, p0, numAnnotations).valid && p0 < 128
    ensures Appends(p, ParseAttributionChain(p, p0, numAnnotations), c) && ArePaths(c) && WellFormed(c) && All(c, p0)
  {
    var first := |p.ev.values|;
    var (n, q) := ReadByte(p);
    c := NodesPaths(q, p0, 1, n);
    var r := ParseNodes(q, p0, 1, n);
    assert |r.ev.values| == |Paths(r.ev.values)| == first + 2 * n;
    AnnotationsKeepPaths(EndChain(r, first), numAnnotations, first);
    ChunkInOrder(c, p0, n);
    ChunkIsPaths(c, p0, n);
  }

  lemma FieldPaths(p: Log, p0: nat) returns (c: seq<Word>)
    requires ParseField(p, p0).valid && p0 < 128
    ensures Appends(p, ParseField(p, p0), c) && ArePaths(c)
    ensures if ListFits(p) then WellFormed(c) && All(c, p0) else !Sorted(c)
  {
    var (typeInfo, q) := ReadByte(p);
    var n, t := NumAnnotations(typeInfo), TypeId(typeInfo);
    if t == KEY_VALUE_PAIRS_TYPE {
      c := ListPaths(q, p0, n);
    } else if t == ATTRIBUTION_CHAIN_TYPE {
      c := ChainPaths(q, p0, n);
    } else {
      c := [PathAt(0, p0, 1, 1, false)];
      TopLevelPath(p0);
      if t == BOOL_TYPE { ParseBoolPaths(q, 0, p0, 1, 1, false, n); }
      else if t == INT32_TYPE { ParseInt32Paths(q, 0, p0, 1, 1, false, n); }
      else if t == INT64_TYPE { ParseInt64Paths(q, 0, p0, 1, 1, false, n); }
      else if t == FLOAT_TYPE { ParseFloatPaths(q, 0, p0, 1, 1, false, n); }
      else { ParseBlobPaths(q, 0, p0, 1, 1, false, n, t == STRING_TYPE); }
    }
  }

  lemma FieldOutOfOrder(p: Log, i: nat)
    requires i < 128 && ParseField(p, i).valid && (!Sorted(Paths(p.ev.values)) || !ListFits(p))
    ensures !Sorted(Paths(ParseField(p, i).ev.values))
  {
    var c := FieldPaths(p, i);
    ConcatUnsorted(Paths(p.ev.values), c);
  }

  /** Values out of order stay out of order ... */
  lemma {:induction false} StaysOutOfOrder(p: Log, i: nat, n: nat)
    requires 1 <= i && n < 128 && ParseFields(p, i, n).valid && !Sorted(Paths(p.ev.values))
    ensures !Sorted(Paths(ParseFields(p, i, n).ev.values))
    decreases n + 1 - i
  {
    if i <= n {
      FieldOutOfOrder(p, i);
      StaysOutOfOrder(ParseField(p, i), i + 1, n);
    }
  }

  /** ... and a list that is too long puts them out of order. */
  lemma SortedFits(p: Log, i: nat, n: nat)
    requires 1 <= i <= n < 128 && ParseFields(p, i, n).valid && Sorted(Paths(ParseFields(p, i, n).ev.values))
    ensures ListFits(p)
  {
    if !ListFits(p) {
      FieldOutOfOrder(p, i);
      StaysOutOfOrder(ParseField(p, i), i + 1, n);
    }
  }

  lemma FitsFrom(p: Log, q: Log, i: nat, n: nat)
    requires 1 <= i && q == ParseField(p, i) && ListFits(p) && ListsFit(q, i + 1, n)
    ensures ListsFit(p, i, n)
  {
  }

  lemma {:induction false} SortedFieldsFit(p: Log, i: nat, n: nat)
    requires 1 <= i && n < 128 && ParseFields(p, i, n).valid && Sorted(Paths(ParseFields(p, i, n).ev.values))
    ensures ListsFit(p, i, n)
    decreases n + 1 - i
  {
    if i <= n {
      var q := ParseField(p, i);
      SortedFits(p, i, n);
      SortedFieldsFit(q, i + 1, n);
      FitsFrom(p, q, i, n);
    }
  }

  lemma ConcatArePaths(a: seq<Word>, b: seq<Word>)
    requires ArePaths(a) && ArePaths(b)
    ensures ArePaths(a + b)
  {
  }

  lemma FieldArePaths(p: Log, i: nat)
    requires i < 128 && ParseField(p, i).valid && ArePaths(Paths(p.ev.values))
    ensures ArePaths(Paths(ParseField(p, i).ev.values))
  {
    var c := FieldPaths(p, i);
    ConcatArePaths(Paths(p.ev.values), c);
  }

  lemma {:induction false} FieldsArePaths(p: Log, i: nat, n: nat)
    requires 1 <= i && n < 128 && ParseFields(p, i, n).valid && ArePaths(Paths(p.ev.values))
    ensures ArePaths(Paths(ParseFields(p, i, n).ev.values))
    decreases n + 1 - i
  {
    if i <= n {
      FieldArePaths(p, i);
      FieldsArePaths(ParseField(p, i), i + 1, n);
    }
  }

  lemma FieldInOrder(p: Log, i: nat)
    requires i < 128 && ParseField(p, i).valid && ListFits(p)
    requires WellFormed(Paths(p.ev.values)) && Below(Paths(p.ev.values), i)
    ensures WellFormed(Paths(ParseField(p, i).ev.values)) && Below(Paths(ParseField(p, i).ev.values), i + 1)
  {
    var c := FieldPaths(p, i);
    ConcatWellFormed(Paths(p.ev.values), c, i);
  }

  lemma {:induction false} FieldsInOrder(p: Log, i: nat, n: nat)
    requires 1 <= i && n < 128 && ParseFields(p, i, n).valid && ListsFit(p, i, n)
    requires WellFormed(Paths(p.ev.values)) && Below(Paths(p.ev.values), i)
    ensures WellFormed(Paths(ParseFields(p, i, n).ev.values))
    decreases n + 1 - i
  {
    if i <= n {
      FieldInOrder(p, i);
      FieldsInOrder(ParseField(p, i), i + 1, n);
    }
  }

  lemma AtomIdKeepsPaths(p: Log)
    requires p.ev.values == []
    ensures Paths(ParseAtomId(p).ev.values) == []
  {
    var (t, r) := ReadByte(p);
    var (tag, s) := ReadInt32(CheckType(r, t, INT32_TYPE));
    AnnotationsKeepPaths(s.(ev := s.ev.(tag := tag)), NumAnnotations(t), -1);
  }

  lemma StartValues(p: Log)
    ensures ParseStart(p).0.ev.values == p.ev.values
    ensures ParseStart(p).0.valid ==> 2 <= ParseStart(p).1 <= 127
  {
  }

  lemma HeaderPaths(p: Log)
    requires p.ev.values == []
    ensures Paths(ParseHeader(p).0.ev.values) == []
    ensures ParseHeader(p).0.valid ==> ParseHeader(p).1 <= 125
  {
    var q := ParseStart(p).0;
    StartValues(p);
    AtomIdKeepsPaths(q);
    assert ParseAtomId(q).valid ==> q.valid;
  }

  /** For arbitrary bytes: an accepted event has consumed all of them, its paths are 32-bit words, and
      its values are strictly increasing in DFS order, last bits cleared, exactly when no key-value
      list is longer than the 7 bits of a position allow. */
  lemma AcceptedInOrder(buf: seq<Byte>)
    requires ParseBuffer(buf).valid
    ensures ParseBuffer(buf).rest == [] && ArePaths(Paths(ParseBuffer(buf).ev.values))
    ensures Sorted(Paths(ParseBuffer(buf).ev.values)) <==> KeyValueListsFit(buf)
    ensures KeyValueListsFit(buf) ==> WellFormed(Paths(ParseBuffer(buf).ev.values))
  {
    var p := Log(Unread(buf), true, EMPTY_EVENT);
    HeaderPaths(p);
    var (h, n) := ParseHeader(p);
    FieldsArePaths(h, 1, n);
    if ListsFit(h, 1, n) {
      FieldsInOrder(h, 1, n);
    } else if Sorted(Paths(ParseFields(h, 1, n).ev.values)) {
      SortedFieldsFit(h, 1, n);
    }
  }
}
