/** The count metric object (metrics/CountMetricProducer.cpp): counters and trackers changed in
    place, step for step as `CountMetric` says. */
module CountMetricProducing {
  import opened Limits
  import opened Dimensions
  import opened AnomalyWindow
  import opened Refractory
  import opened AnomalyTracking
  import opened CountMetric

  /** Every tracker that flagged an event declares an anomaly, unless it is in its quiet time. */
  ghost function Declared(quiets: seq<Quiet>, flags: seq<bool>, timestampNs: int, k: Key): (r: seq<Quiet>)
    requires |flags| == |quiets|
    ensures |r| == |quiets|
    ensures forall i :: 0 <= i < |r| ==> r[i] == if flags[i] then Declare(quiets[i], timestampNs, k) else quiets[i]
  {
    seq(|quiets|, i requires 0 <= i < |quiets| => if flags[i] then Declare(quiets[i], timestampNs, k) else quiets[i])
  }

  lemma FlushedFull(p: Producer, q: Producer, t: int)
    requires Shaped(p) && t > BucketEnd(p)
    requires q == p.(trackers := FeedAll(p.trackers, WholeCount(p), p.bucketNum), full := map[])
    ensures q.(sliced := map[]) == FlushCurrent(p, t)
  {
  }

  lemma FlushedPart(p: Producer, q: Producer, t: int)
    requires Shaped(p) && t <= BucketEnd(p) && q == p.(full := AddToSum(p.full, p.sliced))
    ensures q.(sliced := map[]) == FlushCurrent(p, t)
  {
  }

  /** The first `n` elements are those of `done`, the others those of `before`. */
  ghost predicate Mixed<T>(s: seq<T>, done: seq<T>, before: seq<T>, n: nat)
  {
    && |s| == |done| == |before|
    && forall i {:trigger s[i]} :: 0 <= i < |s| ==> s[i] == if i < n then done[i] else before[i]
  }

  class CountMetricProducer {
    const timeBaseNs: int
    const bucketSizeNs: int
    const trackers: seq<AnomalyTracker>
    var currentBucketNum: int
    var currentSlicedCounter: DimToVal
    var currentFullCounters: DimToVal

    ghost predicate Valid()
      reads trackers
    {
      && bucketSizeNs > 0
      && (forall i, j :: 0 <= i < j < |trackers| ==> trackers[i] != trackers[j])
      && (forall i :: 0 <= i < |trackers| ==> trackers[i].Valid())
    }

    /** The attached tracker number `i`, as a value. */
    ghost function TrackerAt(i: nat): Tracker
      requires i < |trackers|
      reads trackers
    {
      Tracker(trackers[i].State(), trackers[i].threshold)
    }

    ghost function Trackers(): (ts: seq<Tracker>)
      reads trackers
      ensures |ts| == |trackers|
    {
      seq(|trackers|, i requires 0 <= i < |trackers| reads trackers => TrackerAt(i))
    }

    ghost function Quiets(): (qs: seq<Quiet>)
      reads trackers
      ensures |qs| == |trackers|
    {
      seq(|trackers|, i requires 0 <= i < |trackers| reads trackers => trackers[i].Quieting())
    }

    ghost function State(): Producer
      reads this, trackers
    {
      Producer(timeBaseNs, bucketSizeNs, currentBucketNum, currentSlicedCounter, currentFullCounters, Trackers())
    }

    constructor (timeBaseNs: int, bucketSizeNs: int, trackers: seq<AnomalyTracker>)
      requires bucketSizeNs > 0
      requires forall i, j :: 0 <= i < j < |trackers| ==> trackers[i] != trackers[j]
      requires forall i :: 0 <= i < |trackers| ==> trackers[i].Valid()
      ensures Valid()
      ensures State() == Producer(timeBaseNs, bucketSizeNs, 0, map[], map[], Trackers()) && this.trackers == trackers
    {
      this.timeBaseNs, this.bucketSizeNs, this.trackers := timeBaseNs, bucketSizeNs, trackers;
      currentBucketNum, currentSlicedCounter, currentFullCounters := 0, map[], map[];
    }

    function CurrentBucketEndTimeNs(): int
      reads this
    {
      timeBaseNs + (currentBucketNum + 1) * bucketSizeNs
    }

    method AddToTracker(n: nat, bucket: DimToVal)
      requires Valid() && n < |trackers|
      modifies trackers[n]
      ensures Valid() && Quiets() == old(Quiets())
      ensures Trackers() == old(Trackers())[n := old(TrackerAt(n)).(window :=
                              AddBucket(old(TrackerAt(n)).window, bucket, currentBucketNum))]
    {
      trackers[n].AddPastBucket(bucket, currentBucketNum);
    }

    /** Hands a finished bucket to every tracker. */
    method AddToTrackers(bucket: DimToVal)
      requires Valid()
      modifies trackers
      ensures Valid()
      ensures Trackers() == FeedAll(old(Trackers()), bucket, currentBucketNum) && Quiets() == old(Quiets())
    {
      ghost var before := Trackers();
      for n := 0 to |trackers|
        invariant Valid() && Quiets() == old(Quiets())
        invariant forall i :: n <= i < |trackers| ==> Trackers()[i] == before[i]
        invariant forall i :: 0 <= i < n ==>
          Trackers()[i] == before[i].(window := AddBucket(before[i].window, bucket, currentBucketNum))
      {
        AddToTracker(n, bucket);
      }
    }

    method FlushCurrentBucket(eventTimeNs: int)
      requires Valid()
      modifies this`currentSlicedCounter, this`currentFullCounters, trackers
      ensures Valid()
      ensures State() == FlushCurrent(old(State()), eventTimeNs)
      ensures Quiets() == old(Quiets())
    {
      ghost var p := State();
      if eventTimeNs > CurrentBucketEndTimeNs() {
        SendFullBucket();
        FlushedFull(p, State(), eventTimeNs);
      } else {
        KeepPartialBucket();
        FlushedPart(p, State(), eventTimeNs);
      }
      StartCounting();
    }

    method StartCounting()
      requires Valid()
      modifies this`currentSlicedCounter
      ensures Valid() && State() == old(State()).(sliced := map[]) && Quiets() == old(Quiets())
    {
      currentSlicedCounter := map[];
    }

    /** Adds the counts of this part of the bucket to those of its earlier parts. */
    method KeepPartialBucket()
      requires Valid()
      modifies this`currentFullCounters
      ensures Valid() && Quiets() == old(Quiets())
      ensures State() == old(State()).(full := AddToSum(old(currentFullCounters), currentSlicedCounter))
    {
      currentFullCounters := AddInto(currentFullCounters, currentSlicedCounter);
    }

    /** Sends the current counts, with those of earlier parts of the bucket, to the trackers. */
    method SendFullBucket()
      requires Valid()
      modifies this`currentFullCounters, trackers
      ensures Valid() && Quiets() == old(Quiets())
      ensures var p := old(State());
              State() == p.(trackers := FeedAll(p.trackers, WholeCount(p), p.bucketNum), full := map[])
    {
      var bucket := currentSlicedCounter;
      if |currentFullCounters| > 0 {
        bucket := AddInto(currentFullCounters, currentSlicedCounter);
      }
      AddToTrackers(bucket);
      currentFullCounters := map[];
    }

    method FlushIfNeededAt(eventTimeNs: int)
      requires Valid()
      modifies this, trackers
      ensures Valid()
      ensures State() == FlushIfNeeded(old(State()), eventTimeNs)
      ensures Quiets() == old(Quiets())
    {
      var end := CurrentBucketEndTimeNs();
      if eventTimeNs < end {
        return;
      }
      var numBucketsForward := 1 + (eventTimeNs - end) / bucketSizeNs;
      FlushCurrentBucket(eventTimeNs);
      currentBucketNum := currentBucketNum + numBucketsForward;
    }

    /** A forced flush, for instance for a report. */
    method Flush(timeNs: int)
      requires Valid()
      modifies this, trackers
      ensures Valid()
      ensures State() == FlushLocked(old(State()), timeNs)
    {
      FlushIfNeededAt(timeNs);
      FlushCurrentBucket(timeNs);
    }

    predicate HitGuardRailAt(k: Key)
      reads this
    {
      k !in currentSlicedCounter && |currentSlicedCounter| > SOFT_LIMIT - 1 && |currentSlicedCounter| + 1 > HARD_LIMIT
    }

    /** Asks one tracker about count `v` of key `k`; `was` and `q` are what it was before. */
    method AskTracker(n: nat, eventTimeNs: int, k: Key, v: int, ghost was: Tracker, ghost q: Quiet)
      requires Valid() && n < |trackers| && Trackers()[n] == was && Quiets()[n] == q
      modifies trackers[n]
      ensures Valid() && |was.window.past| == was.window.numPast
      ensures var (w, anomaly) := Detect(was.window, was.threshold, currentBucketNum, k, v);
              && Trackers() == old(Trackers())[n := was.(window := w)]
              && Quiets() == old(Quiets())[n := if anomaly then Declare(q, eventTimeNs, k) else q]
    {
      trackers[n].DetectAndDeclareAnomaly(eventTimeNs, currentBucketNum, k, v);
    }

    function WholeBucketCount(k: Key): (v: int)
      requires k in currentSlicedCounter
      reads this
      ensures v == currentSlicedCounter[k] + Get(currentFullCounters, k)
    {
      if k in currentFullCounters then currentSlicedCounter[k] + currentFullCounters[k] else currentSlicedCounter[k]
    }

    /** Asks every tracker about the whole count of the current bucket. */
    method DetectAt(eventTimeNs: int, k: Key)
      requires Valid() && k in currentSlicedCounter
      modifies trackers
      ensures Valid()
      ensures var (asked, flags) := DetectAll(old(Trackers()), currentBucketNum, k, WholeBucketCount(k));
              State() == old(State()).(trackers := asked) && Quiets() == Declared(old(Quiets()), flags, eventTimeNs, k)
    {
      ghost var before, quiets := Trackers(), Quiets();
      ghost var asked, flags := DetectAll(before, currentBucketNum, k, WholeBucketCount(k)).0,
                                DetectAll(before, currentBucketNum, k, WholeBucketCount(k)).1;
      ghost var declared := Declared(quiets, flags, eventTimeNs, k);
      ghost var ts, qs := before, quiets;
      for n := 0 to |trackers|
        invariant Valid() && Trackers() == ts && Quiets() == qs
        invariant Mixed(ts, asked, before, n) && Mixed(qs, declared, quiets, n)
      {
        assert ts[n] == before[n] && qs[n] == quiets[n];
        AskTracker(n, eventTimeNs, k, WholeBucketCount(k), before[n], quiets[n]);
        ts, qs := ts[n := asked[n]], qs[n := declared[n]];
      }
    }

    /** Counts a matched event; each tracker that flags it declares an anomaly. */
    method OnMatchedLogEvent(eventTimeNs: int, k: Key, condition: bool)
      requires Valid()
      modifies this, trackers
      ensures Valid()
      ensures State() == OnEvent(old(State()), eventTimeNs, k, condition).0
      ensures var outcome := OnEvent(old(State()), eventTimeNs, k, condition).1;
              Quiets() == if outcome.Dropped? then old(Quiets())
                          else Declared(old(Quiets()), outcome.flags, eventTimeNs, k)
    {
      FlushIfNeededAt(eventTimeNs);
      if !condition || HitGuardRailAt(k) {
        return;
      }
      Count(eventTimeNs, k);
    }

    method Count(eventTimeNs: int, k: Key)
      requires Valid()
      modifies this`currentSlicedCounter, trackers
      ensures Valid()
      ensures State() == CountEvent(old(State()), k).0
      ensures Quiets() == Declared(old(Quiets()), CountEvent(old(State()), k).1, eventTimeNs, k)
    {
      Increment(k);
      DetectAt(eventTimeNs, k);
    }

    method Increment(k: Key)
      requires Valid()
      modifies this`currentSlicedCounter
      ensures Valid() && Quiets() == old(Quiets())
      ensures State() == old(State()).(sliced := old(currentSlicedCounter)[k := Get(old(currentSlicedCounter), k) + 1])
    {
      if k !in currentSlicedCounter {
        currentSlicedCounter := currentSlicedCounter[k := 1];
      } else {
        currentSlicedCounter := currentSlicedCounter[k := currentSlicedCounter[k] + 1];
      }
    }
  }
}
