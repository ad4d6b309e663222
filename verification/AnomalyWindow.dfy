/** The past buckets of an anomaly tracker (AnomalyTracker.cpp): a circular buffer with a cached
    sum, as functions on the tracker's state. */
module AnomalyWindow {
  import opened Options
  import opened Dimensions

  /** `past` holds one slot per past bucket; `sum` caches their total per key. */
  datatype Window = Window(numPast: nat, past: seq<Option<DimToVal>>, sum: DimToVal, mostRecent: int)

  function Empty(numPast: nat): Window
  {
    Window(numPast, seq(numPast, _ => None), map[], -1)
  }

  function Val(slot: Option<DimToVal>, k: Key): int
  {
    if slot.None? then 0 else Get(slot.value, k)
  }

  function Reset(w: Window): Window
  {
    w.(past := seq(w.numPast, _ => None), sum := map[])
  }

  function Index(w: Window, bucketNum: int): (i: nat)
    requires w.numPast > 0
    ensures i < w.numPast
  {
    bucketNum % w.numPast
  }

  function SubtractValue(sum: DimToVal, k: Key, v: int): DimToVal
  {
    if k !in sum then sum else if sum[k] - v == 0 then sum - {k} else sum[k := sum[k] - v]
  }

  /** The part of a bucket whose keys are in `part` taken off the sum; entries that reach 0 go. */
  function SubtractPart(sum: DimToVal, bucket: DimToVal, part: set<Key>): DimToVal
    requires part <= bucket.Keys
  {
    map k | k in sum && !(k in part && sum[k] - bucket[k] == 0) :: if k in part then sum[k] - bucket[k] else sum[k]
  }

  function SubtractBucket(sum: DimToVal, slot: Option<DimToVal>): DimToVal
  {
    if slot.None? then sum else SubtractPart(sum, slot.value, slot.value.Keys)
  }

  function AddPart(sum: DimToVal, bucket: DimToVal, part: set<Key>): DimToVal
    requires part <= bucket.Keys
  {
    map k | k in sum.Keys + part :: Get(sum, k) + (if k in part then bucket[k] else 0)
  }

  function AddToSum(sum: DimToVal, bucket: DimToVal): DimToVal { AddPart(sum, bucket, bucket.Keys) }

  lemma AddToSumGet(sum: DimToVal, bucket: DimToVal, k: Key)
    ensures Get(AddToSum(sum, bucket), k) == Get(sum, k) + Get(bucket, k)
  {
  }

  lemma AddToSumNonNegative(sum: DimToVal, bucket: DimToVal)
    requires NonNegative(sum) && NonNegative(bucket)
    ensures NonNegative(AddToSum(sum, bucket))
  {
  }

  /** Empties the slots of buckets `i..b`. */
  function ClearSlots(w: Window, i: int, b: int): (r: Window)
    requires w.numPast > 0 && |w.past| == w.numPast
    ensures r.numPast == w.numPast && |r.past| == |w.past| && r.mostRecent == w.mostRecent
    decreases b + 1 - i
  {
    if i > b then w
    else
      var j := Index(w, i);
      ClearSlots(w.(sum := SubtractBucket(w.sum, w.past[j]), past := w.past[j := None]), i + 1, b)
  }

  function Advance(w: Window, b: int): (r: Window)
    requires |w.past| == w.numPast
    ensures r.numPast == w.numPast && |r.past| == |w.past|
  {
    if w.numPast <= 0 || b <= w.mostRecent then w
    else if b >= w.mostRecent + w.numPast then Reset(w).(mostRecent := b)
    else ClearSlots(w, w.mostRecent + 1, b).(mostRecent := b)
  }

  predicate Ignored(w: Window, b: int)
  {
    w.numPast == 0 || b < 0 || b <= w.mostRecent - w.numPast
  }

  function PutBucket(w: Window, b: int, bucket: DimToVal): Window
    requires w.numPast > 0 && |w.past| == w.numPast
  {
    w.(past := w.past[Index(w, b) := Some(bucket)], sum := AddToSum(w.sum, bucket))
  }

  function AddBucket(w: Window, bucket: DimToVal, b: int): Window
    requires |w.past| == w.numPast
  {
    if Ignored(w, b) then w
    else if b <= w.mostRecent then
      PutBucket(w.(sum := SubtractBucket(w.sum, w.past[Index(w, b)])), b, bucket)
    else PutBucket(Advance(w, b), b, bucket)
  }

  function AddKeyed(w: Window, k: Key, v: int, b: int): Window
    requires |w.past| == w.numPast
  {
    if Ignored(w, b) then w
    else
      var j := Index(w, b);
      if b <= w.mostRecent && w.past[j].Some? then
        var bucket := w.past[j].value;
        var sum := if k in bucket then SubtractValue(w.sum, k, bucket[k]) else w.sum;
        w.(past := w.past[j := Some(bucket[k := v])], sum := sum[k := Get(sum, k) + v])
      else AddBucket(w, map[k := v], b)
  }

  function SumOverPast(w: Window, k: Key): int { Get(w.sum, k) }

  /** Whether the past buckets and the current value exceed the threshold, when the alert has one;
      first moves the window up to the bucket before `b`. */
  function Detect(w: Window, threshold: Option<real>, b: int, k: Key, v: int): (Window, bool)
    requires |w.past| == w.numPast
  {
    var u := if b > w.mostRecent + 1 then Advance(w, b - 1) else w;
    (u, threshold.Some? && (SumOverPast(u, k) + v) as real > threshold.value)
  }

  // ---------- sums over slots ----------

  function SumSlots(past: seq<Option<DimToVal>>, k: Key): int
  {
    if past == [] then 0 else SumSlots(past[..|past| - 1], k) + Val(past[|past| - 1], k)
  }

  predicate SlotsNonNegative(past: seq<Option<DimToVal>>)
  {
    forall j :: 0 <= j < |past| && past[j].Some? ==> NonNegative(past[j].value)
  }

  lemma {:induction false} SumSlotsUpdate(past: seq<Option<DimToVal>>, j: nat, slot: Option<DimToVal>, k: Key)
    requires j < |past|
    ensures SumSlots(past[j := slot], k) == SumSlots(past, k) - Val(past[j], k) + Val(slot, k)
  {
    var n := |past| - 1;
    if j == n {
      assert past[j := slot][..n] == past[..n];
    } else {
      SumSlotsUpdate(past[..n], j, slot, k);
      assert past[j := slot][..n] == past[..n][j := slot];
    }
  }

  lemma {:induction false} SumSlotsBound(past: seq<Option<DimToVal>>, j: nat, k: Key)
    requires SlotsNonNegative(past) && j < |past|
    ensures 0 <= Val(past[j], k) <= SumSlots(past, k)
  {
    var n := |past| - 1;
    SumSlotsNonNegative(past[..n], k);
    if j < n {
      SumSlotsBound(past[..n], j, k);
    }
  }

  lemma {:induction false} SumSlotsNonNegative(past: seq<Option<DimToVal>>, k: Key)
    requires SlotsNonNegative(past)
    ensures SumSlots(past, k) >= 0
  {
    if past != [] {
      SumSlotsNonNegative(past[..|past| - 1], k);
    }
  }

  lemma {:induction false} SumSlotsNone(n: nat, k: Key)
    ensures SumSlots(seq(n, _ => None), k) == 0
  {
    if n > 0 {
      var s: seq<Option<DimToVal>> := seq(n, _ => None);
      SumSlotsNone(n - 1, k);
      assert s[..n - 1] == seq(n - 1, _ => None);
    }
  }

  // ---------- the invariant ----------

  ghost predicate CachedSum(w: Window) { forall k :: Get(w.sum, k) == SumSlots(w.past, k) }

  /** Slots of bucket numbers that never existed hold nothing. */
  predicate NoNegativeBuckets(w: Window)
    requires w.numPast > 0 && |w.past| == w.numPast
  {
    forall b :: w.mostRecent - w.numPast < b <= w.mostRecent && b < 0 ==> w.past[Index(w, b)].None?
  }

  ghost predicate Inv(w: Window)
  {
    && |w.past| == w.numPast && w.mostRecent >= -1
    && SlotsNonNegative(w.past) && CachedSum(w)
    && (w.numPast > 0 ==> NoNegativeBuckets(w))
  }

  lemma EmptyInv(numPast: nat)
    ensures Inv(Empty(numPast))
  {
    forall k ensures Get(Empty(numPast).sum, k) == SumSlots(Empty(numPast).past, k) {
      SumSlotsNone(numPast, k);
    }
  }

  // ---------- circular indexes ----------

  lemma NoMultipleBetween(n: nat, t: int)
    requires n > 0
    ensures !(0 < n * t < n)
  {
  }

  lemma ModDistinct(a: int, b: int, n: nat)
    requires n > 0 && 0 < a - b < n
    ensures a % n != b % n
  {
    var q, r := a / n, b / n;
    var x, y := n * q, n * r;
    assert a == x + a % n && b == y + b % n;
    assert x - y == n * (q - r);
    NoMultipleBetween(n, q - r);
  }

  lemma ModPeriod(a: int, n: nat)
    requires n > 0
    ensures (a + n) % n == a % n
  {
    var q := a / n;
    assert a == n * q + a % n;
    assert a + n == n * (q + 1) + a % n;
    DivisionUnique(a + n, n, q + 1, a % n);
  }

  lemma DivisionUnique(a: int, n: nat, q: int, r: int)
    requires n > 0 && 0 <= r < n && a == n * q + r
    ensures a % n == r
  {
    var q', r' := a / n, a % n;
    assert a == n * q' + r';
    assert n * (q - q') == r' - r && n * (q' - q) == r - r';
    NoMultipleBetween(n, q - q');
    NoMultipleBetween(n, q' - q);
  }

  // ---------- every operation keeps the invariant ----------

  /** Taking a slot's bucket off the cached sum is exact, because nothing is negative. */
  lemma SubtractSlot(w: Window, j: nat, k: Key)
    requires SlotsNonNegative(w.past) && CachedSum(w) && j < |w.past|
    ensures Get(SubtractBucket(w.sum, w.past[j]), k) == SumSlots(w.past, k) - Val(w.past[j], k)
  {
    assert Get(w.sum, k) == SumSlots(w.past, k);
    SumSlotsBound(w.past, j, k);
  }

  lemma ClearSlotKeeps(w: Window, j: nat)
    requires SlotsNonNegative(w.past) && CachedSum(w) && j < |w.past|
    ensures var r := w.(sum := SubtractBucket(w.sum, w.past[j]), past := w.past[j := None]);
            SlotsNonNegative(r.past) && CachedSum(r)
  {
    var r := w.(sum := SubtractBucket(w.sum, w.past[j]), past := w.past[j := None]);
    forall k ensures Get(r.sum, k) == SumSlots(r.past, k) {
      SubtractSlot(w, j, k);
      SumSlotsUpdate(w.past, j, None, k);
    }
  }

  /** Clearing buckets `i..b` empties their slots and no slot of the `numPast - (b - i) - 1`
      buckets before them. */
  lemma {:induction false} ClearSlotsKeeps(w: Window, i: int, b: int)
    requires w.numPast > 0 && |w.past| == w.numPast && b - i < w.numPast
    requires SlotsNonNegative(w.past) && CachedSum(w)
    ensures var r := ClearSlots(w, i, b);
            && SlotsNonNegative(r.past) && CachedSum(r)
            && (forall c :: i <= c <= b ==> r.past[Index(w, c)].None?)
            && (forall c :: b - w.numPast < c < i ==> r.past[Index(w, c)] == w.past[Index(w, c)])
    decreases b + 1 - i
  {
    if i <= b {
      var j := Index(w, i);
      var u := w.(sum := SubtractBucket(w.sum, w.past[j]), past := w.past[j := None]);
      ClearSlotKeeps(w, j);
      ClearSlotsKeeps(u, i + 1, b);
      var r := ClearSlots(w, i, b);
      assert r == ClearSlots(u, i + 1, b);
      forall c | i <= c <= b ensures r.past[Index(w, c)].None? {
        if c == i { assert r.past[Index(u, c)] == u.past[Index(u, c)]; } else { assert r.past[Index(u, c)].None?; }
      }
      forall c | b - w.numPast < c < i ensures r.past[Index(w, c)] == w.past[Index(w, c)] {
        ModDistinct(i, c, w.numPast);
        assert r.past[Index(u, c)] == u.past[Index(u, c)];
      }
    }
  }

  lemma AdvanceKeeps(w: Window, b: int)
    requires Inv(w)
    ensures Inv(Advance(w, b))
    ensures w.numPast > 0 && b > w.mostRecent ==>
      var r := Advance(w, b);
      && r.mostRecent == b
      && forall c :: b - w.numPast < c <= b ==>
           r.past[Index(r, c)] == if c <= w.mostRecent then w.past[Index(w, c)] else None
  {
    if w.numPast > 0 && b > w.mostRecent {
      if b >= w.mostRecent + w.numPast {
        forall k ensures Get(Reset(w).sum, k) == SumSlots(Reset(w).past, k) { SumSlotsNone(w.numPast, k); }
      } else {
        ClearSlotsKeeps(w, w.mostRecent + 1, b);
        var r := Advance(w, b);
        assert CachedSum(r);
        forall c | b - w.numPast < c <= b
          ensures r.past[Index(r, c)] == if c <= w.mostRecent then w.past[Index(w, c)] else None
        {
          assert Index(r, c) == Index(w, c);
        }
      }
    }
  }

  /** Storing a bucket in a slot whose old contents are no longer in the sum. */
  lemma PutKeeps(w: Window, v: Window, b: int, bucket: DimToVal)
    requires w.numPast > 0 && |w.past| == w.numPast && SlotsNonNegative(w.past) && NonNegative(bucket)
    requires forall k :: Get(w.sum, k) == SumSlots(w.past, k) - Val(w.past[Index(w, b)], k)
    requires v == PutBucket(w, b, bucket)
    ensures SlotsNonNegative(v.past) && CachedSum(v)
  {
    var j := Index(w, b);
    forall k ensures Get(v.sum, k) == SumSlots(v.past, k) {
      SumSlotsUpdate(w.past, j, Some(bucket), k);
    }
  }

  lemma AddBucketKeeps(w: Window, bucket: DimToVal, b: int)
    requires Inv(w) && NonNegative(bucket)
    ensures Inv(AddBucket(w, bucket, b))
    ensures !Ignored(w, b) ==>
      var r, u := AddBucket(w, bucket, b), Advance(w, b);
      r.numPast == w.numPast && r.mostRecent == u.mostRecent && r.past == u.past[Index(u, b) := Some(bucket)]
  {
    if !Ignored(w, b) {
      var r := AddBucket(w, bucket, b);
      if b <= w.mostRecent {
        var j := Index(w, b);
        var u := w.(sum := SubtractBucket(w.sum, w.past[j]));
        forall k ensures Get(u.sum, k) == SumSlots(u.past, k) - Val(u.past[Index(u, b)], k) { SubtractSlot(w, j, k); }
        PutKeeps(u, r, b, bucket);
      } else {
        AdvanceKeeps(w, b);
        var u := Advance(w, b);
        assert u.past[Index(u, b)].None?;
        PutKeeps(u, r, b, bucket);
      }
      AddBucketNegative(w, bucket, b);
    }
  }

  lemma AddBucketNegative(w: Window, bucket: DimToVal, b: int)
    requires Inv(w) && !Ignored(w, b)
    ensures NoNegativeBuckets(AddBucket(w, bucket, b))
  {
    var r, u := AddBucket(w, bucket, b), Advance(w, b);
    AdvanceKeeps(w, b);
    forall c | r.mostRecent - r.numPast < c <= r.mostRecent && c < 0 ensures r.past[Index(r, c)].None? {
      ModDistinct(b, c, w.numPast);
      assert Index(r, c) == Index(u, c) == Index(w, c);
    }
  }

  /** Replacing one entry of an existing bucket. */
  lemma ReplaceEntryKeeps(w: Window, k: Key, v: int, b: int)
    requires Inv(w) && v >= 0 && !Ignored(w, b) && b <= w.mostRecent && w.past[Index(w, b)].Some?
    ensures CachedSum(AddKeyed(w, k, v, b)) && SlotsNonNegative(AddKeyed(w, k, v, b).past)
  {
    var j := Index(w, b);
    var r, bucket := AddKeyed(w, k, v, b), w.past[j].value;
    forall q ensures Get(r.sum, q) == SumSlots(r.past, q) {
      SumSlotsBound(w.past, j, q);
      SumSlotsUpdate(w.past, j, Some(bucket[k := v]), q);
      assert Get(w.sum, q) == SumSlots(w.past, q);
    }
  }

  lemma ReplaceEntryNegative(w: Window, k: Key, v: int, b: int)
    requires Inv(w) && !Ignored(w, b) && b <= w.mostRecent && w.past[Index(w, b)].Some?
    ensures NoNegativeBuckets(AddKeyed(w, k, v, b))
  {
    var r := AddKeyed(w, k, v, b);
    forall c | r.mostRecent - r.numPast < c <= r.mostRecent && c < 0 ensures r.past[Index(r, c)].None? {
      ModDistinct(b, c, w.numPast);
      assert w.past[Index(w, c)].None?;
    }
  }

  lemma AddKeyedKeeps(w: Window, k: Key, v: int, b: int)
    requires Inv(w) && v >= 0
    ensures Inv(AddKeyed(w, k, v, b))
    ensures !Ignored(w, b) ==>
      var r, u := AddKeyed(w, k, v, b), Advance(w, b);
      && r.numPast == w.numPast && r.mostRecent == u.mostRecent
      && r.past == u.past[Index(u, b) :=
           Some((if u.past[Index(u, b)].Some? then u.past[Index(u, b)].value else map[])[k := v])]
  {
    if !Ignored(w, b) {
      AdvanceKeeps(w, b);
      if b <= w.mostRecent && w.past[Index(w, b)].Some? {
        ReplaceEntryKeeps(w, k, v, b);
        ReplaceEntryNegative(w, k, v, b);
      } else {
        AddBucketKeeps(w, map[k := v], b);
        assert map[][k := v] == map[k := v];
      }
    }
  }

  // ---------- the abstract window ----------

  predicate HasBucket(w: Window, b: int)
  {
    && w.numPast > 0 && |w.past| == w.numPast
    && w.mostRecent - w.numPast < b <= w.mostRecent
    && w.past[Index(w, b)].Some?
  }

  /** The buckets a window holds, by bucket number. */
  function View(w: Window): map<int, DimToVal>
  {
    map b | w.mostRecent - w.numPast < b <= w.mostRecent && HasBucket(w, b) :: w.past[Index(w, b)].value
  }

  function Newer(h: map<int, DimToVal>, limit: int): map<int, DimToVal>
  {
    map b | b in h && b > limit :: h[b]
  }

  function HistVal(h: map<int, DimToVal>, b: int, k: Key): int { if b in h then Get(h[b], k) else 0 }

  /** Sum of key `k` over the buckets `lo < b <= hi` of a history. */
  function HistSum(h: map<int, DimToVal>, lo: int, hi: int, k: Key): int
    decreases hi - lo
  {
    if hi <= lo then 0 else HistSum(h, lo, hi - 1, k) + HistVal(h, hi, k)
  }

  function SlotRange(w: Window, lo: int, hi: int, k: Key): int
    requires w.numPast > 0 && |w.past| == w.numPast
    decreases hi - lo
  {
    if hi <= lo then 0 else SlotRange(w, lo, hi - 1, k) + Val(w.past[Index(w, hi)], k)
  }

  lemma {:induction false} SlotRangeDropFirst(w: Window, lo: int, hi: int, k: Key)
    requires w.numPast > 0 && |w.past| == w.numPast && lo < hi
    ensures SlotRange(w, lo, hi, k) == Val(w.past[Index(w, lo + 1)], k) + SlotRange(w, lo + 1, hi, k)
    decreases hi - lo
  {
    if lo + 1 < hi {
      SlotRangeDropFirst(w, lo, hi - 1, k);
    }
  }

  lemma {:induction false} SlotRangePrefix(w: Window, n: nat, k: Key)
    requires w.numPast > 0 && |w.past| == w.numPast && n <= w.numPast
    ensures SlotRange(w, -1, n - 1, k) == SumSlots(w.past[..n], k)
  {
    if n > 0 {
      SlotRangePrefix(w, n - 1, k);
      assert w.past[..n][..n - 1] == w.past[..n - 1];
      DivisionUnique(n - 1, w.numPast, 0, n - 1);
    }
  }

  lemma SlotRangeShift(w: Window, m: int, k: Key)
    requires w.numPast > 0 && |w.past| == w.numPast
    ensures SlotRange(w, m - w.numPast, m, k) == SlotRange(w, m + 1 - w.numPast, m + 1, k)
  {
    SlotRangeDropFirst(w, m - w.numPast, m, k);
    ModPeriod(m + 1 - w.numPast, w.numPast);
  }

  /** Any `numPast` consecutive buckets visit every slot once. */
  lemma {:induction false} Rotation(w: Window, m: int, k: Key)
    requires w.numPast > 0 && |w.past| == w.numPast
    ensures SlotRange(w, m - w.numPast, m, k) == SumSlots(w.past, k)
    decreases if m >= w.numPast - 1 then m - (w.numPast - 1) else w.numPast - 1 - m
  {
    if m == w.numPast - 1 {
      SlotRangePrefix(w, w.numPast, k);
      assert w.past[..w.numPast] == w.past;
    } else if m > w.numPast - 1 {
      Rotation(w, m - 1, k);
      SlotRangeShift(w, m - 1, k);
    } else {
      Rotation(w, m + 1, k);
      SlotRangeShift(w, m, k);
    }
  }

  lemma {:induction false} SlotRangeIsHistSum(w: Window, hi: int, k: Key)
    requires w.numPast > 0 && |w.past| == w.numPast && w.mostRecent - w.numPast <= hi <= w.mostRecent
    ensures SlotRange(w, w.mostRecent - w.numPast, hi, k) == HistSum(View(w), w.mostRecent - w.numPast, hi, k)
    decreases hi - (w.mostRecent - w.numPast)
  {
    if hi > w.mostRecent - w.numPast {
      SlotRangeIsHistSum(w, hi - 1, k);
      assert HasBucket(w, hi) <==> hi in View(w);
    }
  }

  /** The cached sum of every key is the sum over the abstract window. */
  lemma CachedSumIsWindowSum(w: Window, k: Key)
    requires Inv(w)
    ensures SumOverPast(w, k) == HistSum(View(w), w.mostRecent - w.numPast, w.mostRecent, k)
  {
    if w.numPast > 0 {
      Rotation(w, w.mostRecent, k);
      SlotRangeIsHistSum(w, w.mostRecent, k);
    }
  }

  // ---------- what the operations do to the abstract window ----------

  lemma AdvanceView(w: Window, b: int)
    requires Inv(w) && w.numPast > 0
    ensures b > w.mostRecent ==> View(Advance(w, b)) == Newer(View(w), b - w.numPast)
    ensures b <= w.mostRecent ==> Advance(w, b) == w
  {
    AdvanceKeeps(w, b);
    if b > w.mostRecent {
      var r := Advance(w, b);
      forall c | b - w.numPast < c <= b ensures HasBucket(r, c) <==> c <= w.mostRecent && HasBucket(w, c) {
        assert Index(r, c) == Index(w, c);
      }
      forall c | c in View(r) ensures c in View(w) && View(r)[c] == View(w)[c] {
        assert HasBucket(r, c);
      }
      forall c | c in Newer(View(w), b - w.numPast) ensures c in View(r) {
        assert HasBucket(w, c);
        assert HasBucket(r, c);
      }
    }
  }

  function Max(a: int, b: int): int { if a >= b then a else b }

  lemma PutView(u: Window, r: Window, b: int, bucket: DimToVal)
    requires u.numPast > 0 && |u.past| == u.numPast && u.mostRecent - u.numPast < b <= u.mostRecent
    requires r.numPast == u.numPast && r.mostRecent == u.mostRecent && r.past == u.past[Index(u, b) := Some(bucket)]
    ensures View(r) == View(u)[b := bucket]
  {
    forall c | u.mostRecent - u.numPast < c <= u.mostRecent && c != b
      ensures Index(r, c) == Index(u, c) != Index(u, b)
    {
      if c < b { ModDistinct(b, c, u.numPast); } else { ModDistinct(c, b, u.numPast); }
    }
    assert HasBucket(r, b);
    forall c | c in View(r) ensures c in View(u)[b := bucket] && View(r)[c] == View(u)[b := bucket][c] {
      assert HasBucket(r, c);
      if c != b { assert HasBucket(u, c); }
    }
    forall c | c in View(u)[b := bucket] ensures c in View(r) {
      if c != b { assert HasBucket(u, c); assert HasBucket(r, c); }
    }
  }

  /** Making room for bucket `b` moves the window forward, never back. */
  lemma MadeRoom(w: Window, b: int)
    requires Inv(w) && !Ignored(w, b)
    ensures Inv(Advance(w, b)) && Advance(w, b).mostRecent == Max(w.mostRecent, b)
    ensures View(Advance(w, b)) == Newer(View(w), Max(w.mostRecent, b) - w.numPast)
  {
    AdvanceKeeps(w, b);
    AdvanceView(w, b);
    assert Newer(View(w), w.mostRecent - w.numPast) == View(w);
  }

  /** A whole bucket is stored at its number; what falls out of the window is forgotten. */
  lemma AddBucketView(w: Window, bucket: DimToVal, b: int)
    requires Inv(w) && NonNegative(bucket)
    ensures Ignored(w, b) ==> AddBucket(w, bucket, b) == w
    ensures !Ignored(w, b) ==>
      && AddBucket(w, bucket, b).mostRecent == Max(w.mostRecent, b)
      && View(AddBucket(w, bucket, b)) == Newer(View(w), Max(w.mostRecent, b) - w.numPast)[b := bucket]
  {
    if !Ignored(w, b) {
      MadeRoom(w, b);
      AddBucketKeeps(w, bucket, b);
      PutView(Advance(w, b), AddBucket(w, bucket, b), b, bucket);
    }
  }

  function EntryAdded(h: map<int, DimToVal>, b: int, k: Key, v: int): map<int, DimToVal>
  {
    h[b := (if b in h then h[b] else map[])[k := v]]
  }

  /** One entry is stored in its bucket; the rest of that bucket stays. */
  lemma AddKeyedView(w: Window, k: Key, v: int, b: int)
    requires Inv(w) && v >= 0
    ensures Ignored(w, b) ==> AddKeyed(w, k, v, b) == w
    ensures !Ignored(w, b) ==>
      && AddKeyed(w, k, v, b).mostRecent == Max(w.mostRecent, b)
      && View(AddKeyed(w, k, v, b)) == EntryAdded(Newer(View(w), Max(w.mostRecent, b) - w.numPast), b, k, v)
  {
    if !Ignored(w, b) {
      var u := Advance(w, b);
      MadeRoom(w, b);
      AddKeyedKeeps(w, k, v, b);
      var slot := u.past[Index(u, b)];
      assert HasBucket(u, b) <==> slot.Some?;
      PutView(u, AddKeyed(w, k, v, b), b, (if slot.Some? then slot.value else map[])[k := v]);
    }
  }

  /** What is stored is what is read back, from its bucket and in the sum; entries of other keys and
      of other buckets in the window stay. */
  lemma EntryReadBack(w: Window, k: Key, v: int, b: int, c: int, l: Key)
    requires Inv(w) && v >= 0 && !Ignored(w, b) && Max(w.mostRecent, b) - w.numPast < c
    ensures HistVal(View(AddKeyed(w, k, v, b)), c, l) == if c == b && l == k then v else HistVal(View(w), c, l)
  {
    AddKeyedView(w, k, v, b);
  }

  lemma BucketReadBack(w: Window, bucket: DimToVal, b: int, c: int, l: Key)
    requires Inv(w) && NonNegative(bucket) && !Ignored(w, b) && Max(w.mostRecent, b) - w.numPast < c
    ensures HistVal(View(AddBucket(w, bucket, b)), c, l) == if c == b then Get(bucket, l) else HistVal(View(w), c, l)
  {
    AddBucketView(w, bucket, b);
  }

  // ---------- runs ----------

  datatype WindowOp =
    | AdvanceTo(b: int)
    | WholeBucket(bucket: DimToVal, b: int)
    | OneEntry(k: Key, v: int, b: int)

  /** Trackers do not take negative values. */
  predicate Allowed(op: WindowOp)
  {
    match op
    case AdvanceTo(_) => true
    case WholeBucket(bucket, _) => NonNegative(bucket)
    case OneEntry(_, v, _) => v >= 0
  }

  function Step(w: Window, op: WindowOp): (r: Window)
    requires |w.past| == w.numPast
    ensures |r.past| == r.numPast == w.numPast
  {
    match op
    case AdvanceTo(b) => Advance(w, b)
    case WholeBucket(bucket, b) => AddBucket(w, bucket, b)
    case OneEntry(k, v, b) => AddKeyed(w, k, v, b)
  }

  function RunOps(numPast: nat, ops: seq<WindowOp>): (r: Window)
    ensures |r.past| == r.numPast == numPast
  {
    if ops == [] then Empty(numPast) else Step(RunOps(numPast, ops[..|ops| - 1]), ops[|ops| - 1])
  }

  /** The window as it is meant: a most recent bucket number and the buckets not older than the
      window, with no slots and no cached sum. */
  datatype Ideal = Ideal(mostRecent: int, buckets: map<int, DimToVal>)

  function IdealStep(numPast: nat, a: Ideal, op: WindowOp): Ideal
  {
    var last := Max(a.mostRecent, op.b);
    var kept := Newer(a.buckets, last - numPast);
    if numPast == 0 then a
    else match op
      case AdvanceTo(b) => Ideal(last, kept)
      case WholeBucket(bucket, b) =>
        if b < 0 || b <= a.mostRecent - numPast then a else Ideal(last, kept[b := bucket])
      case OneEntry(k, v, b) =>
        if b < 0 || b <= a.mostRecent - numPast then a else Ideal(last, EntryAdded(kept, b, k, v))
  }

  function IdealRun(numPast: nat, ops: seq<WindowOp>): Ideal
  {
    if ops == [] then Ideal(-1, map[]) else IdealStep(numPast, IdealRun(numPast, ops[..|ops| - 1]), ops[|ops| - 1])
  }

  function Abstract(w: Window): Ideal { Ideal(w.mostRecent, View(w)) }

  lemma AdvanceIsIdeal(w: Window, b: int)
    requires Inv(w)
    ensures Inv(Advance(w, b)) && Abstract(Advance(w, b)) == IdealStep(w.numPast, Abstract(w), AdvanceTo(b))
  {
    AdvanceKeeps(w, b);
    if w.numPast > 0 {
      AdvanceView(w, b);
      assert Newer(View(w), w.mostRecent - w.numPast) == View(w);
    }
  }

  lemma AddBucketIsIdeal(w: Window, bucket: DimToVal, b: int)
    requires Inv(w) && NonNegative(bucket)
    ensures Inv(AddBucket(w, bucket, b))
    ensures Abstract(AddBucket(w, bucket, b)) == IdealStep(w.numPast, Abstract(w), WholeBucket(bucket, b))
  {
    AddBucketKeeps(w, bucket, b);
    AddBucketView(w, bucket, b);
  }

  lemma AddKeyedIsIdeal(w: Window, k: Key, v: int, b: int)
    requires Inv(w) && v >= 0
    ensures Inv(AddKeyed(w, k, v, b))
    ensures Abstract(AddKeyed(w, k, v, b)) == IdealStep(w.numPast, Abstract(w), OneEntry(k, v, b))
  {
    AddKeyedInv(w, k, v, b);
    AddKeyedView(w, k, v, b);
    EntryIsIdeal(w, AddKeyed(w, k, v, b), k, v, b);
  }

  lemma EntryIsIdeal(w: Window, r: Window, k: Key, v: int, b: int)
    requires Ignored(w, b) ==> r == w
    requires !Ignored(w, b) ==> r.mostRecent == Max(w.mostRecent, b)
    requires !Ignored(w, b) ==> View(r) == EntryAdded(Newer(View(w), Max(w.mostRecent, b) - w.numPast), b, k, v)
    ensures Abstract(r) == IdealStep(w.numPast, Abstract(w), OneEntry(k, v, b))
  {
    IdealEntry(w.numPast, w.mostRecent, View(w), r.mostRecent, View(r), k, v, b, Ignored(w, b));
  }

  lemma IdealEntry(numPast: nat, last: int, m: map<int, DimToVal>, last': int, m': map<int, DimToVal>, k: Key,
                   v: int, b: int, ignored: bool)
    requires ignored <==> numPast == 0 || b < 0 || b <= last - numPast
    requires ignored ==> last' == last && m' == m
    requires !ignored ==> last' == Max(last, b) && m' == EntryAdded(Newer(m, Max(last, b) - numPast), b, k, v)
    ensures Ideal(last', m') == IdealStep(numPast, Ideal(last, m), OneEntry(k, v, b))
  {
  }

  lemma AddKeyedInv(w: Window, k: Key, v: int, b: int)
    requires Inv(w) && v >= 0
    ensures Inv(AddKeyed(w, k, v, b))
  {
    AddKeyedKeeps(w, k, v, b);
  }

  lemma StepIsIdeal(w: Window, op: WindowOp)
    requires Inv(w) && Allowed(op)
    ensures Inv(Step(w, op)) && Abstract(Step(w, op)) == IdealStep(w.numPast, Abstract(w), op)
  {
    match op
    case AdvanceTo(b) => AdvanceIsIdeal(w, b);
    case WholeBucket(bucket, b) => AddBucketIsIdeal(w, bucket, b);
    case OneEntry(k, v, b) => AddKeyedIsIdeal(w, k, v, b);
  }

  /** After any mix of keyed adds, whole-bucket adds, replacements and advances, the circular
      buffer holds exactly the buckets of the ideal window, ... */
  lemma {:induction false} RunIsIdeal(numPast: nat, ops: seq<WindowOp>)
    requires forall i :: 0 <= i < |ops| ==> Allowed(ops[i])
    ensures Inv(RunOps(numPast, ops)) && Abstract(RunOps(numPast, ops)) == IdealRun(numPast, ops)
  {
    if ops == [] {
      EmptyInv(numPast);
      EmptyView(numPast);
    } else {
      var init, op := ops[..|ops| - 1], ops[|ops| - 1];
      RunIsIdeal(numPast, init);
      StepIsIdeal(RunOps(numPast, init), op);
    }
  }

  /** ... and so is the sum that detection uses. */
  lemma RunSumIsIdeal(numPast: nat, ops: seq<WindowOp>, k: Key)
    requires forall i :: 0 <= i < |ops| ==> Allowed(ops[i])
    ensures var a := IdealRun(numPast, ops);
            SumOverPast(RunOps(numPast, ops), k) == HistSum(a.buckets, a.mostRecent - numPast, a.mostRecent, k)
  {
    RunIsIdeal(numPast, ops);
    CachedSumIsWindowSum(RunOps(numPast, ops), k);
  }

  lemma EmptyView(numPast: nat)
    ensures View(Empty(numPast)) == map[]
  {
  }
}
