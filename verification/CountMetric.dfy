/** Counting events into buckets and detecting anomalies on them (CountMetricProducer.cpp), and the
    theorem that ties a flagged event to the events counted in the last buckets. */
module CountMetric {
  import opened Options
  import opened Limits
  import opened Dimensions
  import opened AnomalyWindow

  /** An attached tracker: its past buckets and its threshold. */
  datatype Tracker = Tracker(window: Window, threshold: Option<real>)

  datatype Producer = Producer(
    timeBase: int, bucketSize: int, bucketNum: int,
    sliced: DimToVal, full: DimToVal, trackers: seq<Tracker>)

  predicate Shaped(p: Producer)
  {
    && p.bucketSize > 0
    && forall i :: 0 <= i < |p.trackers| ==> |p.trackers[i].window.past| == p.trackers[i].window.numPast
  }

  predicate SameConfig(a: seq<Tracker>, b: seq<Tracker>)
  {
    && |a| == |b|
    && forall i :: 0 <= i < |a| ==> a[i].threshold == b[i].threshold && a[i].window.numPast == b[i].window.numPast
  }

  /** Same clock and same alerts. */
  predicate SameSetup(p: Producer, q: Producer)
  {
    p.timeBase == q.timeBase && p.bucketSize == q.bucketSize && SameConfig(p.trackers, q.trackers)
  }

  function BucketEnd(p: Producer): int { p.timeBase + (p.bucketNum + 1) * p.bucketSize }

  function FeedAll(trackers: seq<Tracker>, bucket: DimToVal, b: int): (r: seq<Tracker>)
    requires forall i :: 0 <= i < |trackers| ==> |trackers[i].window.past| == trackers[i].window.numPast
    ensures SameConfig(trackers, r)
    ensures forall i :: 0 <= i < |r| ==> |r[i].window.past| == r[i].window.numPast
    ensures forall i :: 0 <= i < |r| ==> r[i] == trackers[i].(window := AddBucket(trackers[i].window, bucket, b))
  {
    seq(|trackers|, i requires 0 <= i < |trackers| => trackers[i].(window := AddBucket(trackers[i].window, bucket, b)))
  }

  /** The counts of the current bucket, with those of its earlier parts if there were any. */
  function WholeCount(p: Producer): DimToVal
  {
    if |p.full| > 0 then AddToSum(p.full, p.sliced) else p.sliced
  }

  /** Ends the current bucket, or only a part of it: a bucket goes to the trackers only when the
      time is strictly past its end. */
  function FlushCurrent(p: Producer, t: int): (r: Producer)
    requires Shaped(p)
    ensures Shaped(r) && SameSetup(p, r) && r.bucketNum == p.bucketNum
  {
    if t > BucketEnd(p) then
      p.(trackers := FeedAll(p.trackers, WholeCount(p), p.bucketNum), full := map[], sliced := map[])
    else p.(full := AddToSum(p.full, p.sliced), sliced := map[])
  }

  function FlushIfNeeded(p: Producer, t: int): (r: Producer)
    requires Shaped(p)
    ensures Shaped(r) && SameSetup(p, r)
  {
    if t < BucketEnd(p) then p
    else FlushCurrent(p, t).(bucketNum := p.bucketNum + 1 + (t - BucketEnd(p)) / p.bucketSize)
  }

  predicate HitGuardRail(p: Producer, k: Key)
  {
    k !in p.sliced && |p.sliced| > SOFT_LIMIT - 1 && |p.sliced| + 1 > HARD_LIMIT
  }

  function DetectAll(trackers: seq<Tracker>, b: int, k: Key, v: int): (r: (seq<Tracker>, seq<bool>))
    requires forall i :: 0 <= i < |trackers| ==> |trackers[i].window.past| == trackers[i].window.numPast
    ensures |r.0| == |r.1| == |trackers|
    ensures forall i :: 0 <= i < |trackers| ==>
      && r.0[i] == trackers[i].(window := Detect(trackers[i].window, trackers[i].threshold, b, k, v).0)
      && r.1[i] == Detect(trackers[i].window, trackers[i].threshold, b, k, v).1
  {
    (seq(|trackers|, i requires 0 <= i < |trackers| =>
           trackers[i].(window := Detect(trackers[i].window, trackers[i].threshold, b, k, v).0)),
     seq(|trackers|, i requires 0 <= i < |trackers| =>
           Detect(trackers[i].window, trackers[i].threshold, b, k, v).1))
  }

  /** What one matched event did: nothing, or it was counted and each tracker flagged it or not. */
  datatype Outcome = Dropped | Counted(flags: seq<bool>)

  /** Counting an event in the current bucket. */
  function CountEvent(q: Producer, k: Key): (r: (Producer, seq<bool>))
    requires Shaped(q)
    ensures Shaped(r.0) && SameSetup(q, r.0) && r.0.bucketNum == q.bucketNum && |r.1| == |q.trackers|
  {
    var sliced := q.sliced[k := Get(q.sliced, k) + 1];
    var (trackers, flags) := DetectAll(q.trackers, q.bucketNum, k, sliced[k] + Get(q.full, k));
    (q.(sliced := sliced, trackers := trackers), flags)
  }

  predicate Counts(q: Producer, k: Key, condition: bool) { condition && !HitGuardRail(q, k) }

  function OnEvent(p: Producer, t: int, k: Key, condition: bool): (r: (Producer, Outcome))
    requires Shaped(p)
    ensures r.1.Counted? ==> |r.1.flags| == |p.trackers|
  {
    var q := FlushIfNeeded(p, t);
    if Counts(q, k, condition) then (CountEvent(q, k).0, Outcome.Counted(CountEvent(q, k).1)) else (q, Dropped)
  }

  function FlushLocked(p: Producer, t: int): Producer
    requires Shaped(p)
  {
    FlushCurrent(FlushIfNeeded(p, t), t)
  }

  // ---------- counted events, by bucket number ----------

  /** One counted event: its key and the number of the bucket it counts for. */
  type History = seq<(Key, int)>

  /** Events of key `k` that count for buckets `lo < b <= hi`. */
  function Count(h: History, lo: int, hi: int, k: Key): nat
  {
    if h == [] then 0
    else
      var (key, b) := h[|h| - 1];
      Count(h[..|h| - 1], lo, hi, k) + (if key == k && lo < b <= hi then 1 else 0)
  }

  lemma {:induction false} CountSplit(h: History, lo: int, mid: int, hi: int, k: Key)
    requires lo <= mid <= hi
    ensures Count(h, lo, hi, k) == Count(h, lo, mid, k) + Count(h, mid, hi, k)
  {
    if h != [] {
      CountSplit(h[..|h| - 1], lo, mid, hi, k);
    }
  }

  predicate UpTo(h: History, last: int) { forall i :: 0 <= i < |h| ==> h[i].1 <= last }

  lemma {:induction false} CountBeyond(h: History, last: int, lo: int, hi: int, k: Key)
    requires UpTo(h, last) && (lo >= last || hi <= lo)
    ensures Count(h, lo, hi, k) == 0
  {
    if h != [] {
      CountBeyond(h[..|h| - 1], last, lo, hi, k);
    }
  }

  lemma CountSnoc(h: History, key: Key, b: int, lo: int, hi: int, k: Key)
    ensures Count(h + [(key, b)], lo, hi, k) == Count(h, lo, hi, k) + (if key == k && lo < b <= hi then 1 else 0)
  {
  }

  /** A flush exactly on the end of bucket `b` makes its events count for the next bucket. */
  function Carry(h: History, b: int): (r: History)
    ensures |r| == |h|
  {
    seq(|h|, i requires 0 <= i < |h| => if h[i].1 == b then (h[i].0, b + 1) else h[i])
  }

  lemma {:induction false} CountCarry(h: History, b: int, lo: int, hi: int, k: Key)
    ensures Count(Carry(h, b), lo, hi, k)
         == Count(h, lo, hi, k) - (if lo < b <= hi then Count(h, b - 1, b, k) else 0)
                                + (if lo < b + 1 <= hi then Count(h, b - 1, b, k) else 0)
  {
    if h != [] {
      var n := |h| - 1;
      CountCarry(h[..n], b, lo, hi, k);
      assert Carry(h, b)[..n] == Carry(h[..n], b);
    }
  }

  /** A window whose buckets agree with the history sums to the history's count. */
  lemma {:induction false} HistSumIsCount(v: map<int, DimToVal>, h: History, lo: int, hi: int, k: Key)
    requires lo <= hi
    requires forall b :: lo < b <= hi ==> HistVal(v, b, k) == Count(h, b - 1, b, k)
    ensures HistSum(v, lo, hi, k) == Count(h, lo, hi, k)
    decreases hi - lo
  {
    if lo < hi {
      HistSumIsCount(v, h, lo, hi - 1, k);
      CountSplit(h, lo, hi - 1, hi, k);
    } else {
      EmptyRange(h, lo, hi, k);
    }
  }

  lemma {:induction false} EmptyRange(h: History, lo: int, hi: int, k: Key)
    requires hi <= lo
    ensures Count(h, lo, hi, k) == 0
  {
    if h != [] {
      EmptyRange(h[..|h| - 1], lo, hi, k);
    }
  }

  // ---------- a tracker agrees with the history ----------

  ghost predicate Agrees(w: Window, h: History, b: int, k: Key)
  {
    HistVal(View(w), b, k) == Count(h, b - 1, b, k)
  }

  /** No event of key `k` counts for a bucket strictly between `lo` and `hi`. */
  ghost predicate Quiet(h: History, lo: int, hi: int, k: Key) { Count(h, lo, hi - 1, k) == 0 }

  /** The tracker holds the counts of its window, and nothing was counted between its most recent
      bucket and the current one. */
  ghost predicate Linked(w: Window, h: History, current: int)
  {
    && Inv(w) && w.mostRecent < current
    && (w.numPast > 0 ==>
          && (forall b, k :: w.mostRecent - w.numPast < b <= w.mostRecent ==> Agrees(w, h, b, k))
          && (forall k :: Quiet(h, w.mostRecent, current, k)))
  }

  lemma GapBucket(w: Window, h: History, current: int, b: int, k: Key)
    requires Linked(w, h, current) && w.numPast > 0 && w.mostRecent < b < current
    ensures Count(h, b - 1, b, k) == 0
  {
    assert Quiet(h, w.mostRecent, current, k);
    CountSplit(h, w.mostRecent, b - 1, current - 1, k);
    CountSplit(h, b - 1, b, current - 1, k);
  }

  /** What the window holds for one bucket after a finished bucket was handed over. */
  lemma FedBucket(w: Window, h: History, current: int, bucket: DimToVal, b: int, k: Key)
    requires Linked(w, h, current) && current >= 0 && w.numPast > 0 && NonNegative(bucket)
    requires Get(bucket, k) == Count(h, current - 1, current, k) && current - w.numPast < b <= current
    ensures Agrees(AddBucket(w, bucket, current), h, b, k)
  {
    AddBucketView(w, bucket, current);
    if b <= w.mostRecent {
      assert Agrees(w, h, b, k);
    } else if b < current {
      GapBucket(w, h, current, b, k);
    }
  }

  /** A finished bucket is handed over. */
  lemma FeedLinked(w: Window, h: History, current: int, next: int, bucket: DimToVal)
    requires Linked(w, h, current) && 0 <= current < next && UpTo(h, current) && NonNegative(bucket)
    requires forall k :: Get(bucket, k) == Count(h, current - 1, current, k)
    ensures Linked(AddBucket(w, bucket, current), h, next)
  {
    AddBucketKeeps(w, bucket, current);
    var r := AddBucket(w, bucket, current);
    if w.numPast > 0 {
      assert r.mostRecent == current && r.numPast == w.numPast;
      forall b, k | r.mostRecent - r.numPast < b <= r.mostRecent ensures Agrees(r, h, b, k) {
        FedBucket(w, h, current, bucket, b, k);
      }
      forall k ensures Quiet(h, r.mostRecent, next, k) {
        CountBeyond(h, current, current, next - 1, k);
      }
    }
  }

  /** Moving a window up over buckets in which nothing was counted. */
  lemma AdvanceLinked(w: Window, h: History, current: int)
    requires Linked(w, h, current)
    ensures Linked(Advance(w, current - 1), h, current)
    ensures w.numPast > 0 ==> Advance(w, current - 1).mostRecent == current - 1
  {
    AdvanceKeeps(w, current - 1);
    if w.numPast > 0 {
      AdvanceView(w, current - 1);
      var r := Advance(w, current - 1);
      forall b, k | r.mostRecent - r.numPast < b <= r.mostRecent ensures Agrees(r, h, b, k) {
        if b <= w.mostRecent {
          assert Agrees(w, h, b, k);
        } else {
          GapBucket(w, h, current, b, k);
        }
      }
      forall k ensures Quiet(h, r.mostRecent, current, k) {
        EmptyRange(h, r.mostRecent, current - 1, k);
      }
    }
  }

  lemma CountedLinked(w: Window, h: History, current: int, key: Key)
    requires Linked(w, h, current)
    ensures Linked(w, h + [(key, current)], current)
  {
    if w.numPast > 0 {
      forall b, k | w.mostRecent - w.numPast < b <= w.mostRecent ensures Agrees(w, h + [(key, current)], b, k) {
        assert Agrees(w, h, b, k);
        CountSnoc(h, key, current, b - 1, b, k);
      }
      forall k ensures Quiet(h + [(key, current)], w.mostRecent, current, k) {
        assert Quiet(h, w.mostRecent, current, k);
        CountSnoc(h, key, current, w.mostRecent, current - 1, k);
      }
    }
  }

  lemma CarriedLinked(w: Window, h: History, current: int)
    requires Linked(w, h, current) && UpTo(h, current)
    ensures Linked(w, Carry(h, current), current + 1)
  {
    if w.numPast > 0 {
      forall b, k | w.mostRecent - w.numPast < b <= w.mostRecent ensures Agrees(w, Carry(h, current), b, k) {
        assert Agrees(w, h, b, k);
        CountCarry(h, current, b - 1, b, k);
      }
      var next := current + 1;
      forall k ensures Quiet(Carry(h, current), w.mostRecent, next, k) {
        assert Quiet(h, w.mostRecent, current, k);
        CountCarry(h, current, w.mostRecent, current, k);
        CountSplit(h, w.mostRecent, current - 1, current, k);
      }
    }
  }

  /** The test of one tracker, in terms of the history that includes the event itself. */
  lemma FlagIsCount(w: Window, threshold: Option<real>, h: History, current: int, key: Key, v: int)
    requires Linked(w, h, current) && v == Count(h, current - 1, current, key)
    ensures Detect(w, threshold, current, key, v).1
       <==> threshold.Some? && Count(h, current - (w.numPast + 1), current, key) as real > threshold.value
    ensures Linked(Detect(w, threshold, current, key, v).0, h, current)
  {
    var u := Detect(w, threshold, current, key, v).0;
    AdvanceLinked(w, h, current);
    CachedSumIsWindowSum(u, key);
    if w.numPast > 0 {
      assert u.mostRecent == current - 1;
      forall b | current - 1 - w.numPast < b <= current - 1
        ensures HistVal(View(u), b, key) == Count(h, b - 1, b, key)
      {
        assert Agrees(u, h, b, key);
      }
      HistSumIsCount(View(u), h, current - 1 - w.numPast, current - 1, key);
    }
    EmptyRange(h, current - 1, current - 1, key);
    CountSplit(h, current - 1 - w.numPast, current - 1, current, key);
  }

  // ---------- bucket numbers and times ----------

  lemma NextBucket(size: int, x: int)
    requires size > 0 && x >= 0
    ensures var n := 1 + x / size; x < n * size && n >= 1
  {
  }

  lemma MulDistributes(a: int, b: int, c: int)
    ensures (a + b) * c == a * c + b * c
  {
  }

  /** After looking at the clock, the current bucket ends in the future. */
  lemma EndAfter(p: Producer, t: int)
    requires Shaped(p)
    ensures t < BucketEnd(FlushIfNeeded(p, t))
    ensures FlushIfNeeded(p, t).bucketNum >= p.bucketNum
    ensures t >= BucketEnd(p) ==> FlushIfNeeded(p, t).bucketNum > p.bucketNum
    ensures t == BucketEnd(p) ==> FlushIfNeeded(p, t).bucketNum == p.bucketNum + 1
  {
    if t >= BucketEnd(p) {
      var n := 1 + (t - BucketEnd(p)) / p.bucketSize;
      NextBucket(p.bucketSize, t - BucketEnd(p));
      MulDistributes(p.bucketNum + 1, n, p.bucketSize);
    }
  }

  // ---------- the producer agrees with the history ----------

  ghost predicate Link(p: Producer, h: History)
  {
    && Shaped(p) && p.bucketNum >= 0 && UpTo(h, p.bucketNum)
    && NonNegative(p.sliced) && NonNegative(p.full)
    && (forall k :: InBucket(p, h, k))
    && (forall i :: 0 <= i < |p.trackers| ==> Linked(p.trackers[i].window, h, p.bucketNum))
  }

  /** The two counters of the current bucket add up to what was counted for it. */
  ghost predicate InBucket(p: Producer, h: History, k: Key)
  {
    Get(p.full, k) + Get(p.sliced, k) == Count(h, p.bucketNum - 1, p.bucketNum, k)
  }

  /** What a look at the clock does to the history: nothing, unless it falls exactly on the end of
      the current bucket. */
  function AfterClock(p: Producer, h: History, t: int): History
  {
    if t == BucketEnd(p) then Carry(h, p.bucketNum) else h
  }

  /** What is handed to the trackers at the end of a bucket. */
  lemma WholeCountIsCount(p: Producer, h: History, k: Key)
    requires InBucket(p, h, k) && NonNegative(p.sliced) && NonNegative(p.full)
    ensures NonNegative(WholeCount(p)) && Get(WholeCount(p), k) == Count(h, p.bucketNum - 1, p.bucketNum, k)
  {
  }

  lemma FullFlushShape(p: Producer, t: int)
    requires Shaped(p) && t > BucketEnd(p)
    ensures var q := FlushIfNeeded(p, t);
            q.full == map[] && q.sliced == map[] && q.trackers == FeedAll(p.trackers, WholeCount(p), p.bucketNum)
  {
  }

  lemma FedTrackers(p: Producer, h: History, next: int)
    requires Link(p, h) && next > p.bucketNum
    ensures var fed := FeedAll(p.trackers, WholeCount(p), p.bucketNum);
            forall i :: 0 <= i < |fed| ==> Linked(fed[i].window, h, next)
  {
    forall k ensures NonNegative(WholeCount(p)) && Get(WholeCount(p), k) == Count(h, p.bucketNum - 1, p.bucketNum, k) {
      assert InBucket(p, h, k);
      WholeCountIsCount(p, h, k);
    }
    forall i | 0 <= i < |p.trackers|
      ensures Linked(AddBucket(p.trackers[i].window, WholeCount(p), p.bucketNum), h, next)
    {
      FeedLinked(p.trackers[i].window, h, p.bucketNum, next, WholeCount(p));
    }
  }

  lemma FullFlushLink(p: Producer, h: History, t: int)
    requires Link(p, h) && t > BucketEnd(p)
    ensures Link(FlushIfNeeded(p, t), h)
  {
    var q := FlushIfNeeded(p, t);
    EndAfter(p, t);
    FullFlushShape(p, t);
    FedTrackers(p, h, q.bucketNum);
    forall k ensures InBucket(q, h, k) { CountBeyond(h, p.bucketNum, q.bucketNum - 1, q.bucketNum, k); }
  }

  lemma BoundaryFlushLink(p: Producer, h: History, t: int)
    requires Link(p, h) && t == BucketEnd(p)
    ensures Link(FlushIfNeeded(p, t), Carry(h, p.bucketNum))
  {
    var q := FlushIfNeeded(p, t);
    EndAfter(p, t);
    assert q.full == AddToSum(p.full, p.sliced) && q.sliced == map[];
    AddToSumNonNegative(p.full, p.sliced);
    forall i | 0 <= i < |q.trackers| ensures Linked(q.trackers[i].window, Carry(h, p.bucketNum), q.bucketNum) {
      CarriedLinked(p.trackers[i].window, h, p.bucketNum);
    }
    forall k ensures InBucket(q, Carry(h, p.bucketNum), k) {
      assert InBucket(p, h, k);
      AddToSumGet(p.full, p.sliced, k);
      CountCarry(h, p.bucketNum, p.bucketNum, p.bucketNum + 1, k);
      CountBeyond(h, p.bucketNum, p.bucketNum, p.bucketNum + 1, k);
    }
  }

  lemma ClockLink(p: Producer, h: History, t: int)
    requires Link(p, h)
    ensures Link(FlushIfNeeded(p, t), AfterClock(p, h, t))
  {
    if t == BucketEnd(p) {
      BoundaryFlushLink(p, h, t);
    } else if t > BucketEnd(p) {
      FullFlushLink(p, h, t);
    }
  }

  /** Splitting the current bucket moves counts between its two counters and nothing else. */
  lemma MovedCounts(p: Producer, q: Producer, h: History)
    requires Link(p, h) && q == p.(full := AddToSum(p.full, p.sliced), sliced := map[])
    ensures Link(q, h)
  {
    AddToSumNonNegative(p.full, p.sliced);
    forall k ensures InBucket(q, h, k) {
      assert InBucket(p, h, k);
      AddToSumGet(p.full, p.sliced, k);
    }
  }

  lemma PartialFlushLink(p: Producer, h: History, t: int)
    requires Link(p, h) && t < BucketEnd(p)
    ensures Link(FlushCurrent(p, t), h)
  {
    MovedCounts(p, FlushCurrent(p, t), h);
  }

  lemma TrackerEvent(tracker: Tracker, h: History, current: int, k: Key, v: int)
    requires Linked(tracker.window, h, current) && v == Count(h, current - 1, current, k) + 1
    ensures var g, d := h + [(k, current)], Detect(tracker.window, tracker.threshold, current, k, v);
            Linked(d.0, g, current) && (d.1 <==> Flagged(tracker, g, current, k))
  {
    CountedLinked(tracker.window, h, current, k);
    CountSnoc(h, k, current, current - 1, current, k);
    FlagIsCount(tracker.window, tracker.threshold, h + [(k, current)], current, k, v);
  }

  lemma CountersAfterEvent(q: Producer, r: Producer, h: History, k: Key)
    requires Link(q, h) && r.full == q.full && r.bucketNum == q.bucketNum
    requires r.sliced == q.sliced[k := Get(q.sliced, k) + 1]
    ensures forall key :: InBucket(r, h + [(k, q.bucketNum)], key)
  {
    forall key ensures InBucket(r, h + [(k, q.bucketNum)], key) {
      assert InBucket(q, h, key);
      CountSnoc(h, k, q.bucketNum, q.bucketNum - 1, q.bucketNum, key);
    }
  }

  lemma EventLink(q: Producer, h: History, k: Key)
    requires Link(q, h)
    ensures var (r, flags) := CountEvent(q, k);
            var g := h + [(k, q.bucketNum)];
            Link(r, g) && FlagsOf(q.trackers, flags, g, q.bucketNum, k)
  {
    var (r, flags) := CountEvent(q, k);
    var g := h + [(k, q.bucketNum)];
    assert InBucket(q, h, k);
    forall i | 0 <= i < |q.trackers|
      ensures (flags[i] <==> Flagged(q.trackers[i], g, q.bucketNum, k)) && Linked(r.trackers[i].window, g, q.bucketNum)
    {
      TrackerEvent(q.trackers[i], h, q.bucketNum, k, r.sliced[k] + Get(q.full, k));
    }
    CountersAfterEvent(q, r, h, k);
  }

  /** What an alert promises: the events of the key that count for the last `num_buckets` bucket
      numbers, the current one included, exceed the threshold. */
  ghost predicate Flagged(tracker: Tracker, h: History, current: int, k: Key)
  {
    tracker.threshold.Some? &&
    Count(h, current - (tracker.window.numPast + 1), current, k) as real > tracker.threshold.value
  }

  // ---------- runs ----------

  /** What can happen to a producer: a matched event, a forced split of the bucket (app upgrade,
      dump with the current bucket), or a mere look at the clock (dump without it, dropped data). */
  datatype Op = Matched(t: int, k: Key, condition: bool) | SplitBucket(t: int) | LookAtClock(t: int)

  function StepOp(p: Producer, op: Op): (r: Producer)
    requires Shaped(p)
    ensures Shaped(r) && SameSetup(p, r) && r.bucketNum == FlushIfNeeded(p, op.t).bucketNum
  {
    match op
    case Matched(t, k, condition) => OnEvent(p, t, k, condition).0
    case SplitBucket(t) => FlushLocked(p, t)
    case LookAtClock(t) => FlushIfNeeded(p, t)
  }

  predicate IsCounted(p: Producer, op: Op)
    requires Shaped(p)
  {
    op.Matched? && Counts(FlushIfNeeded(p, op.t), op.k, op.condition)
  }

  /** The history after one step: the clock first, then the event if it was counted. */
  function StepHistory(p: Producer, h: History, op: Op): History
    requires Shaped(p)
  {
    var g := AfterClock(p, h, op.t);
    if IsCounted(p, op) then g + [(op.k, FlushIfNeeded(p, op.t).bucketNum)] else g
  }

  /** The flags of a counted event, if it is counted, are what the history `g` says. */
  ghost predicate FlagsAre(p: Producer, g: History, t: int, k: Key, condition: bool)
    requires Shaped(p)
  {
    var outcome := OnEvent(p, t, k, condition).1;
    outcome.Counted? ==> FlagsOf(p.trackers, outcome.flags, g, FlushIfNeeded(p, t).bucketNum, k)
  }

  lemma MatchedLink(p: Producer, h: History, t: int, k: Key, condition: bool)
    requires Link(p, h)
    ensures Link(OnEvent(p, t, k, condition).0, StepHistory(p, h, Matched(t, k, condition)))
  {
    ClockLink(p, h, t);
    EventLink(FlushIfNeeded(p, t), AfterClock(p, h, t), k);
  }

  /** Flags `f` are what the history says of trackers `ts`. */
  ghost predicate FlagsOf(ts: seq<Tracker>, flags: seq<bool>, g: History, b: int, k: Key)
  {
    |flags| == |ts| && forall i :: 0 <= i < |ts| ==> (flags[i] <==> Flagged(ts[i], g, b, k))
  }

  lemma FlagsOfConfig(ts: seq<Tracker>, us: seq<Tracker>, flags: seq<bool>, g: History, b: int, k: Key)
    requires SameConfig(ts, us) && FlagsOf(us, flags, g, b, k)
    ensures FlagsOf(ts, flags, g, b, k)
  {
  }

  lemma MatchedFlags(p: Producer, h: History, t: int, k: Key, condition: bool)
    requires Link(p, h)
    ensures FlagsAre(p, StepHistory(p, h, Matched(t, k, condition)), t, k, condition)
  {
    var q, g := FlushIfNeeded(p, t), AfterClock(p, h, t);
    ClockLink(p, h, t);
    if Counts(q, k, condition) {
      EventLink(q, g, k);
      FlagsOfConfig(p.trackers, q.trackers, CountEvent(q, k).1, g + [(k, q.bucketNum)], q.bucketNum, k);
    }
  }

  lemma StepLink(p: Producer, h: History, op: Op)
    requires Link(p, h)
    ensures Link(StepOp(p, op), StepHistory(p, h, op))
  {
    match op
    case Matched(t, k, condition) => MatchedLink(p, h, t, k, condition);
    case SplitBucket(t) =>
      ClockLink(p, h, t);
      EndAfter(p, t);
      PartialFlushLink(FlushIfNeeded(p, t), AfterClock(p, h, t), t);
    case LookAtClock(t) => ClockLink(p, h, t);
  }

  /** Trackers attached from the start, nothing counted yet. */
  predicate Fresh(p: Producer)
  {
    && p.bucketSize > 0 && p.bucketNum >= 0 && p.sliced == map[] && p.full == map[]
    && forall i :: 0 <= i < |p.trackers| ==> p.trackers[i].window == Empty(p.trackers[i].window.numPast)
  }

  lemma FreshLink(p: Producer)
    requires Fresh(p)
    ensures Link(p, [])
  {
    forall i | 0 <= i < |p.trackers| ensures Linked(p.trackers[i].window, [], p.bucketNum) {
      var w := p.trackers[i].window;
      EmptyInv(w.numPast);
      EmptyView(w.numPast);
      forall b, k ensures Agrees(w, [], b, k) {}
      forall k ensures Quiet([], w.mostRecent, p.bucketNum, k) {}
    }
    forall k ensures InBucket(p, [], k) {}
  }

  /** The producer after a run. */
  function After(p: Producer, ops: seq<Op>): (r: Producer)
    requires Fresh(p)
    ensures Shaped(r) && SameSetup(p, r)
  {
    if ops == [] then p else StepOp(After(p, ops[..|ops| - 1]), ops[|ops| - 1])
  }

  /** The events counted in a run, with the bucket numbers they count for. */
  function HistoryOf(p: Producer, ops: seq<Op>): History
    requires Fresh(p)
  {
    if ops == [] then []
    else StepHistory(After(p, ops[..|ops| - 1]), HistoryOf(p, ops[..|ops| - 1]), ops[|ops| - 1])
  }

  lemma {:induction false} RunLink(p: Producer, ops: seq<Op>)
    requires Fresh(p)
    ensures Link(After(p, ops), HistoryOf(p, ops))
  {
    if ops == [] {
      FreshLink(p);
    } else {
      var init, op := ops[..|ops| - 1], ops[|ops| - 1];
      RunLink(p, init);
      StepLink(After(p, init), HistoryOf(p, init), op);
    }
  }

  // ---------- histories by time alone ----------

  function BucketOf(p: Producer, t: int): int
    requires p.bucketSize > 0
  {
    (t - p.timeBase) / p.bucketSize
  }

  lemma AtLeastOne(d: int, size: int)
    requires d >= 1 && size > 0
    ensures d * size >= size
  {
  }

  lemma ProductOrder(r: int, q: int, size: int)
    requires size > 0
    ensures r < q ==> r * size + size <= q * size
  {
    if r < q {
      MulDistributes(r, q - r, size);
      AtLeastOne(q - r, size);
    }
  }

  lemma DivisionAt(x: int, size: int, q: int)
    requires size > 0 && q * size <= x < q * size + size
    ensures x / size == q
  {
    var r := x / size;
    assert x == r * size + x % size;
    ProductOrder(r, q, size);
    ProductOrder(q, r, size);
  }

  /** The bucket number after looking at the clock is that of the latest time seen. */
  lemma ClockBucket(p: Producer, t: int)
    requires Shaped(p)
    ensures FlushIfNeeded(p, t).bucketNum == Max(p.bucketNum, BucketOf(p, t))
  {
    ClockQuotient(t - p.timeBase, p.bucketSize, p.bucketNum);
  }

  lemma ClockQuotient(x: int, size: int, b: int)
    requires size > 0
    ensures x < (b + 1) * size ==> x / size <= b
    ensures x >= (b + 1) * size ==> x / size == b + 1 + (x - (b + 1) * size) / size && x / size >= b + 1
  {
    if x < (b + 1) * size {
      var r := x / size;
      assert x == r * size + x % size;
      ProductOrder(b, r, size);
    } else {
      var y := x - (b + 1) * size;
      var n := y / size;
      assert y == n * size + y % size;
      MulDistributes(b + 1, n, size);
      DivisionAt(x, size, b + 1 + n);
    }
  }

  /** Bucket number after a run, from the times alone. */
  function LatestBucket(p: Producer, ops: seq<Op>): int
    requires p.bucketSize > 0
  {
    if ops == [] then p.bucketNum else Max(LatestBucket(p, ops[..|ops| - 1]), BucketOf(p, ops[|ops| - 1].t))
  }

  lemma {:induction false} RunBucket(p: Producer, ops: seq<Op>)
    requires Fresh(p)
    ensures After(p, ops).bucketNum == LatestBucket(p, ops)
  {
    if ops != [] {
      var init, op := ops[..|ops| - 1], ops[|ops| - 1];
      RunBucket(p, init);
      ClockBucket(After(p, init), op.t);
    }
  }

  // ---------- which events are counted, from the operations alone ----------

  /** The keys with a count in the current part of the current bucket. */
  function PartKeys(p: Producer, ops: seq<Op>): set<Key>
    requires p.bucketSize > 0
    decreases |ops|, 0
  {
    if ops == [] then {}
    else
      var init, op := ops[..|ops| - 1], ops[|ops| - 1];
      var keys := KeysAt(p, init, op.t);
      match op
      case Matched(_, k, condition) => if condition && (k in keys || |keys| < HARD_LIMIT) then keys + {k} else keys
      case SplitBucket(_) => {}
      case LookAtClock(_) => keys
  }

  /** The same once the clock shows `t`, which may start a new bucket. */
  function KeysAt(p: Producer, ops: seq<Op>, t: int): set<Key>
    requires p.bucketSize > 0
    decreases |ops|, 1
  {
    if BucketOf(p, t) > LatestBucket(p, ops) then {} else PartKeys(p, ops)
  }

  /** After `ops` the event is counted: its condition is true, and its key has a count in the current
      part or fewer keys than the hard limit have one. */
  predicate Accepted(p: Producer, ops: seq<Op>, op: Op)
    requires p.bucketSize > 0
  {
    op.Matched? && op.condition && (op.k in KeysAt(p, ops, op.t) || |KeysAt(p, ops, op.t)| < HARD_LIMIT)
  }

  lemma ClockKeys(q: Producer, t: int)
    requires Shaped(q)
    ensures FlushIfNeeded(q, t).sliced == if BucketOf(q, t) > q.bucketNum then map[] else q.sliced
  {
    ClockQuotient(t - q.timeBase, q.bucketSize, q.bucketNum);
  }

  lemma CountsHere(r: Producer, k: Key, condition: bool)
    ensures Counts(r, k, condition) <==> condition && (k in r.sliced.Keys || |r.sliced.Keys| < HARD_LIMIT)
  {
    assert |r.sliced| == |r.sliced.Keys|;
  }

  lemma OneMoreKey(r: Producer, k: Key)
    requires Shaped(r)
    ensures CountEvent(r, k).0.sliced.Keys == r.sliced.Keys + {k}
  {
  }

  lemma OutcomeOf(q: Producer, r: Producer, t: int, k: Key, condition: bool)
    requires Shaped(q) && r == FlushIfNeeded(q, t)
    ensures var (s, outcome) := OnEvent(q, t, k, condition);
            && (outcome.Counted? <==> Counts(r, k, condition))
            && s == if Counts(r, k, condition) then CountEvent(r, k).0 else r
  {
  }

  /** Whether one event is counted, without the producer's own test. */
  lemma CountedIff(q: Producer, t: int, k: Key, condition: bool)
    requires Shaped(q)
    ensures var keys := if BucketOf(q, t) > q.bucketNum then {} else q.sliced.Keys;
            && (OnEvent(q, t, k, condition).1.Counted? <==> condition && (k in keys || |keys| < HARD_LIMIT))
            && OnEvent(q, t, k, condition).0.sliced.Keys
               == if condition && (k in keys || |keys| < HARD_LIMIT) then keys + {k} else keys
  {
    var r := FlushIfNeeded(q, t);
    ClockKeys(q, t);
    CountsHere(r, k, condition);
    OneMoreKey(r, k);
    OutcomeOf(q, r, t, k, condition);
  }

  lemma CountedWhen(q: Producer, op: Op)
    requires Shaped(q)
    ensures var keys := if BucketOf(q, op.t) > q.bucketNum then {} else q.sliced.Keys;
            IsCounted(q, op) <==> op.Matched? && op.condition && (op.k in keys || |keys| < HARD_LIMIT)
  {
    if op.Matched? {
      CountedIff(q, op.t, op.k, op.condition);
      OutcomeOf(q, FlushIfNeeded(q, op.t), op.t, op.k, op.condition);
    }
  }

  lemma StepKeys(q: Producer, op: Op)
    requires Shaped(q)
    ensures var keys := if BucketOf(q, op.t) > q.bucketNum then {} else q.sliced.Keys;
            StepOp(q, op).sliced.Keys ==
              if op.SplitBucket? then {}
              else if op.Matched? && op.condition && (op.k in keys || |keys| < HARD_LIMIT) then keys + {op.k}
              else keys
  {
    ClockKeys(q, op.t);
    if op.Matched? {
      CountedIff(q, op.t, op.k, op.condition);
    }
  }

  lemma {:induction false} RunKeys(p: Producer, ops: seq<Op>)
    requires Fresh(p)
    ensures After(p, ops).sliced.Keys == PartKeys(p, ops)
    decreases |ops|
  {
    if ops != [] {
      var init, op := ops[..|ops| - 1], ops[|ops| - 1];
      RunKeys(p, init);
      RunBucket(p, init);
      StepKeys(After(p, init), op);
    }
  }

  /** The producer counts exactly the accepted events. */
  lemma {:induction false} CountsAccepted(p: Producer, ops: seq<Op>, op: Op)
    requires Fresh(p)
    ensures IsCounted(After(p, ops), op) <==> Accepted(p, ops, op)
  {
    RunKeys(p, ops);
    RunBucket(p, ops);
    CountedWhen(After(p, ops), op);
  }

  /** All keys that a run may count are in `keys`. */
  predicate KeysWithin(ops: seq<Op>, keys: set<Key>)
  {
    forall i :: 0 <= i < |ops| && ops[i].Matched? && ops[i].condition ==> ops[i].k in keys
  }

  lemma {:induction false} PartKeysWithin(p: Producer, ops: seq<Op>, keys: set<Key>)
    requires p.bucketSize > 0 && KeysWithin(ops, keys)
    ensures PartKeys(p, ops) <= keys
    decreases |ops|
  {
    if ops != [] {
      PartKeysWithin(p, ops[..|ops| - 1], keys);
    }
  }

  /** With at most as many keys as the hard limit, an event is counted exactly when its condition is
      true. */
  lemma FewKeysAccepted(p: Producer, ops: seq<Op>, op: Op, keys: set<Key>)
    requires p.bucketSize > 0 && KeysWithin(ops + [op], keys) && |keys| <= HARD_LIMIT
    ensures Accepted(p, ops, op) <==> op.Matched? && op.condition
  {
    if op.Matched? && op.condition {
      var all := KeysAt(p, ops, op.t);
      assert (ops + [op])[|ops|] == op;
      forall i | 0 <= i < |ops| ensures (ops + [op])[i] == ops[i] {}
      PartKeysWithin(p, ops, keys);
      if op.k !in all {
        SubsetSize(all + {op.k}, keys);
      }
    }
  }

  /** The matched events whose condition is true, each with the bucket of the latest time seen. */
  function TrueMatches(p: Producer, ops: seq<Op>): History
    requires p.bucketSize > 0
  {
    if ops == [] then []
    else
      var h, op := TrueMatches(p, ops[..|ops| - 1]), ops[|ops| - 1];
      if op.Matched? && op.condition then h + [(op.k, LatestBucket(p, ops))] else h
  }

  /** So the history of such a run is that of its matched events with a true condition. */
  lemma {:induction false} FewKeysHistory(p: Producer, ops: seq<Op>, keys: set<Key>)
    requires p.bucketSize > 0 && KeysWithin(ops, keys) && |keys| <= HARD_LIMIT
    ensures TimedHistory(p, ops) == TrueMatches(p, ops)
    decreases |ops|
  {
    if ops != [] {
      var init, op := ops[..|ops| - 1], ops[|ops| - 1];
      assert ops == init + [op];
      FewKeysHistory(p, init, keys);
      FewKeysAccepted(p, init, op, keys);
    }
  }

  /** Nothing is counted in the current bucket. */
  predicate NoCounts(q: Producer)
  {
    forall k :: k in q.full.Keys + q.sliced.Keys ==> Get(q.full, k) + Get(q.sliced, k) == 0
  }

  /** Whenever a step of the run falls exactly on the end of the bucket that is current then, that
      bucket has no counts. */
  predicate NothingCarried(p: Producer, ops: seq<Op>)
    requires Fresh(p)
  {
    if ops == [] then true
    else
      var init, q := ops[..|ops| - 1], After(p, ops[..|ops| - 1]);
      NothingCarried(p, init) && (ops[|ops| - 1].t == BucketEnd(q) ==> NoCounts(q))
  }

  /** The accepted events of a run, each with the bucket number of the latest time seen by then. */
  function TimedHistory(p: Producer, ops: seq<Op>): History
    requires p.bucketSize > 0
  {
    if ops == [] then []
    else
      var init, op := ops[..|ops| - 1], ops[|ops| - 1];
      if Accepted(p, init, op) then TimedHistory(p, init) + [(op.k, LatestBucket(p, ops))]
      else TimedHistory(p, init)
  }

  /** `h` is `g` with some events moved to later buckets. */
  predicate NotEarlier(g: History, h: History)
  {
    |g| == |h| && forall i :: 0 <= i < |g| ==> g[i].0 == h[i].0 && g[i].1 <= h[i].1
  }

  lemma {:induction false} CountedSomewhere(h: History, i: nat)
    requires i < |h|
    ensures Count(h, h[i].1 - 1, h[i].1, h[i].0) > 0
  {
    if i < |h| - 1 {
      CountedSomewhere(h[..|h| - 1], i);
    }
  }

  lemma {:induction false} CountedNowhere(h: History, b: int, k: Key)
    requires forall i :: 0 <= i < |h| ==> h[i].1 != b
    ensures Count(h, b - 1, b, k) == 0
  {
    if h != [] {
      CountedNowhere(h[..|h| - 1], b, k);
    }
  }

  /** Carrying the current bucket over changes the history exactly when the bucket has counts. */
  lemma CarryChanges(q: Producer, h: History)
    requires Link(q, h)
    ensures Carry(h, q.bucketNum) == h <==> NoCounts(q)
  {
    var b := q.bucketNum;
    if NoCounts(q) {
      forall i | 0 <= i < |h| ensures h[i].1 != b {
        CountedSomewhere(h, i);
        assert InBucket(q, h, h[i].0);
      }
    }
    if Carry(h, b) == h {
      forall i | 0 <= i < |h| ensures h[i].1 != b {
        assert Carry(h, b)[i] == h[i];
      }
      forall k | k in q.full.Keys + q.sliced.Keys ensures Get(q.full, k) + Get(q.sliced, k) == 0 {
        CountedNowhere(h, b, k);
        assert InBucket(q, h, k);
      }
    }
  }

  lemma StepNotEarlier(q: Producer, g: History, h: History, op: Op, e: History)
    requires Shaped(q) && NotEarlier(g, h)
    requires e == if IsCounted(q, op) then [(op.k, FlushIfNeeded(q, op.t).bucketNum)] else []
    ensures StepHistory(q, h, op) == AfterClock(q, h, op.t) + e && NotEarlier(g + e, StepHistory(q, h, op))
    ensures g != h ==> g + e != StepHistory(q, h, op)
  {
    var h' := AfterClock(q, h, op.t) + e;
    if g != h {
      var i :| 0 <= i < |g| && g[i] != h[i];
      assert g[i].1 < h[i].1 <= h'[i].1 && (g + e)[i] == g[i];
    }
  }

  /** The history of a run says the same as the times alone exactly when nothing was carried over a
      bucket end. */
  lemma {:induction false} CountedByTime(p: Producer, ops: seq<Op>)
    requires Fresh(p)
    ensures NotEarlier(TimedHistory(p, ops), HistoryOf(p, ops))
    ensures HistoryOf(p, ops) == TimedHistory(p, ops) <==> NothingCarried(p, ops)
  {
    if ops != [] {
      var init, op := ops[..|ops| - 1], ops[|ops| - 1];
      var q, g, h := After(p, init), TimedHistory(p, init), HistoryOf(p, init);
      CountedByTime(p, init);
      CountsAccepted(p, init, op);
      RunLink(p, init);
      RunBucket(p, ops);
      var e := if IsCounted(q, op) then [(op.k, FlushIfNeeded(q, op.t).bucketNum)] else [];
      StepNotEarlier(q, g, h, op, e);
      CarryChanges(q, h);
      assert TimedHistory(p, ops) == g + e;
      AppendEqual(h, AfterClock(q, h, op.t), e);
    }
  }

  lemma AppendEqual(a: History, b: History, e: History)
    requires |a| == |b|
    ensures a + e == b + e <==> a == b
  {
    assert (a + e)[..|a|] == a && (b + e)[..|b|] == b;
  }

  /** End-to-end detection. For every run of a producer with its trackers attached from the start:
      an event is counted exactly when it is accepted, and a counted event is flagged exactly when the
      events of its key that count for the last `num_buckets` bucket numbers exceed the threshold,
      however the buckets were split. */
  lemma WindowDetection(p: Producer, ops: seq<Op>, t: int, k: Key, condition: bool)
    requires Fresh(p)
    ensures var outcome, all := OnEvent(After(p, ops), t, k, condition).1, ops + [Matched(t, k, condition)];
            && (outcome.Counted? <==> Accepted(p, ops, Matched(t, k, condition)))
            && (outcome.Counted? ==> FlagsOf(p.trackers, outcome.flags, HistoryOf(p, all), LatestBucket(p, all), k))
  {
    var q, all := After(p, ops), ops + [Matched(t, k, condition)];
    assert all[..|all| - 1] == ops && all[|all| - 1] == Matched(t, k, condition);
    RunLink(p, ops);
    CountsAccepted(p, ops, Matched(t, k, condition));
    MatchedFlags(q, HistoryOf(p, ops), t, k, condition);
    RunBucket(p, all);
    if Counts(FlushIfNeeded(q, t), k, condition) {
      FlagsOfConfig(p.trackers, q.trackers, OnEvent(q, t, k, condition).1.flags, HistoryOf(p, all),
                    LatestBucket(p, all), k);
    }
  }

  /** ... where each event counts for the bucket of the latest time seen when it came, in every run
      that carries nothing over a bucket end. */
  lemma WindowDetectionByTime(p: Producer, ops: seq<Op>, t: int, k: Key, condition: bool)
    requires Fresh(p) && NothingCarried(p, ops + [Matched(t, k, condition)])
    ensures var outcome, all := OnEvent(After(p, ops), t, k, condition).1, ops + [Matched(t, k, condition)];
            && (outcome.Counted? <==> Accepted(p, ops, Matched(t, k, condition)))
            && (outcome.Counted? ==> FlagsOf(p.trackers, outcome.flags, TimedHistory(p, all), LatestBucket(p, all), k))
  {
    WindowDetection(p, ops, t, k, condition);
    CountedByTime(p, ops + [Matched(t, k, condition)]);
  }

  lemma SingleBucketDetects(w: Window, threshold: Option<real>, b: int, k: Key, v: int)
    requires Inv(w) && w.numPast == 0
    ensures Detect(w, threshold, b, k, v).1 <==> threshold.Some? && v as real > threshold.value
  {
    assert SumSlots(w.past, k) == 0;
  }

  /** What a flush exactly on a bucket end does to an alert on single buckets: the counts of the
      bucket that ends there are added to the first event of the next one, which one moment later
      would have counted alone. */
  lemma BoundaryMiscounts(q: Producer, h: History, k: Key, i: nat)
    requires Link(q, h) && i < |q.trackers| && q.trackers[i].window.numPast == 0 && q.trackers[i].threshold.Some?
    ensures var on, late := OnEvent(q, BucketEnd(q), k, true).1, OnEvent(q, BucketEnd(q) + 1, k, true).1;
            var n, limit := Get(q.full, k) + Get(q.sliced, k), q.trackers[i].threshold.value;
            && on.Counted? && late.Counted? && i < |on.flags| == |late.flags|
            && (on.flags[i] <==> (n + 1) as real > limit)
            && (late.flags[i] <==> 1 as real > limit)
  {
    var r, u := FlushIfNeeded(q, BucketEnd(q)), FlushIfNeeded(q, BucketEnd(q) + 1);
    ClockLink(q, h, BucketEnd(q));
    ClockLink(q, h, BucketEnd(q) + 1);
    assert r.full == AddToSum(q.full, q.sliced) && r.sliced == map[];
    assert u.full == map[] && u.sliced == map[];
    AddToSumGet(q.full, q.sliced, k);
    SingleBucketDetects(r.trackers[i].window, r.trackers[i].threshold, r.bucketNum, k, 1 + Get(r.full, k));
    SingleBucketDetects(u.trackers[i].window, u.trackers[i].threshold, u.bucketNum, k, 1);
  }
}
