/** The anomaly tracker object (anomaly/AnomalyTracker.cpp): its methods change the circular buffer,
    the cached sum and the refractory periods in place, and do to them what `AnomalyWindow` and
    `Refractory` say. */
module AnomalyTracking {
  import opened Options
  import opened Limits
  import opened Bits
  import opened Dimensions
  import opened AnomalyWindow
  import opened Refractory

  class AnomalyTracker {
    const numPastBuckets: nat
    const threshold: Option<real>
    const periodSec: Option<UInt32>
    var pastBuckets: seq<Option<DimToVal>>
    var sumOverPastBuckets: DimToVal
    var mostRecentBucketNum: int
    var refractoryEndsSec: map<Key, UInt32>
    ghost var declared: map<Key, seq<int>>

    ghost predicate Valid()
      reads this
    {
      |pastBuckets| == numPastBuckets
    }

    ghost function State(): Window
      reads this
    {
      Window(numPastBuckets, pastBuckets, sumOverPastBuckets, mostRecentBucketNum)
    }

    ghost function Quieting(): Quiet
      reads this
    {
      Quiet(periodSec, refractoryEndsSec, declared)
    }

    constructor (numBuckets: nat, threshold: Option<real>, periodSec: Option<UInt32>)
      requires numBuckets >= 1
      ensures Valid() && State() == Empty(numBuckets - 1) && Quieting() == Quiet(periodSec, map[], map[])
      ensures this.threshold == threshold
    {
      numPastBuckets, this.threshold, this.periodSec := numBuckets - 1, threshold, periodSec;
      refractoryEndsSec, declared := map[], map[];
      mostRecentBucketNum := -1;
      pastBuckets, sumOverPastBuckets := seq(numBuckets - 1, _ => None), map[];
    }

    method ResetStorage()
      modifies this`pastBuckets, this`sumOverPastBuckets
      ensures Valid() && State() == Reset(old(State()))
    {
      pastBuckets := seq(numPastBuckets, _ => None);
      sumOverPastBuckets := map[];
    }

    method SubtractValueFromSum(k: Key, v: int)
      modifies this`sumOverPastBuckets
      ensures sumOverPastBuckets == SubtractValue(old(sumOverPastBuckets), k, v)
    {
      if k !in sumOverPastBuckets {
        return;
      }
      sumOverPastBuckets := sumOverPastBuckets[k := sumOverPastBuckets[k] - v];
      if sumOverPastBuckets[k] == 0 {
        sumOverPastBuckets := sumOverPastBuckets - {k};
      }
    }

    method SubtractBucketFromSum(slot: Option<DimToVal>)
      modifies this`sumOverPastBuckets
      ensures sumOverPastBuckets == SubtractBucket(old(sumOverPastBuckets), slot)
    {
      if slot.None? {
        return;
      }
      var bucket := slot.value;
      var todo := bucket.Keys;
      while todo != {}
        invariant todo <= bucket.Keys
        invariant sumOverPastBuckets == SubtractPart(old(sumOverPastBuckets), bucket, bucket.Keys - todo)
      {
        var k :| k in todo;
        SubtractOneMore(old(sumOverPastBuckets), bucket, bucket.Keys - todo, k);
        SubtractValueFromSum(k, bucket[k]);
        assert bucket.Keys - (todo - {k}) == bucket.Keys - todo + {k};
        todo := todo - {k};
      }
      assert bucket.Keys - todo == bucket.Keys;
    }

    method AddBucketToSum(bucket: DimToVal)
      modifies this`sumOverPastBuckets
      ensures sumOverPastBuckets == AddToSum(old(sumOverPastBuckets), bucket)
    {
      sumOverPastBuckets := AddInto(sumOverPastBuckets, bucket);
    }

    method AdvanceMostRecentBucketTo(bucketNum: int)
      requires Valid()
      modifies this`pastBuckets, this`sumOverPastBuckets, this`mostRecentBucketNum
      ensures Valid() && State() == Advance(old(State()), bucketNum)
    {
      if numPastBuckets <= 0 {
        return;
      }
      if bucketNum <= mostRecentBucketNum {
        return;
      }
      if bucketNum >= mostRecentBucketNum + numPastBuckets {
        ResetStorage();
        mostRecentBucketNum := bucketNum;
        return;
      }
      var i := mostRecentBucketNum + 1;
      while i <= bucketNum
        invariant Valid() && mostRecentBucketNum == old(mostRecentBucketNum) && i <= bucketNum + 1
        invariant ClearSlots(State(), i, bucketNum) == ClearSlots(old(State()), old(mostRecentBucketNum) + 1, bucketNum)
      {
        var idx := i % numPastBuckets;
        SubtractBucketFromSum(pastBuckets[idx]);
        pastBuckets := pastBuckets[idx := None];
        i := i + 1;
      }
      mostRecentBucketNum := bucketNum;
    }

    method AddPastBucket(bucket: DimToVal, bucketNum: int)
      requires Valid()
      modifies this`pastBuckets, this`sumOverPastBuckets, this`mostRecentBucketNum
      ensures Valid() && State() == AddBucket(old(State()), bucket, bucketNum)
    {
      if numPastBuckets == 0 || bucketNum < 0 || bucketNum <= mostRecentBucketNum - numPastBuckets {
        return;
      }
      if bucketNum <= mostRecentBucketNum {
        SubtractBucketFromSum(pastBuckets[bucketNum % numPastBuckets]);
      } else {
        AdvanceMostRecentBucketTo(bucketNum);
      }
      pastBuckets := pastBuckets[bucketNum % numPastBuckets := Some(bucket)];
      AddBucketToSum(bucket);
    }

    method AddPastBucketValue(k: Key, bucketValue: int, bucketNum: int)
      requires Valid()
      modifies this`pastBuckets, this`sumOverPastBuckets, this`mostRecentBucketNum
      ensures Valid() && State() == AddKeyed(old(State()), k, bucketValue, bucketNum)
    {
      if numPastBuckets == 0 || bucketNum < 0 || bucketNum <= mostRecentBucketNum - numPastBuckets {
        return;
      }
      var idx := bucketNum % numPastBuckets;
      if bucketNum <= mostRecentBucketNum && pastBuckets[idx].Some? {
        var bucket := pastBuckets[idx].value;
        if k in bucket {
          SubtractValueFromSum(k, bucket[k]);
        }
        pastBuckets := pastBuckets[idx := Some(bucket[k := bucketValue])];
        sumOverPastBuckets := sumOverPastBuckets[k := Get(sumOverPastBuckets, k) + bucketValue];
      } else {
        AddPastBucket(map[k := bucketValue], bucketNum);
      }
    }

    /** The stored value of a bucket in the window, 0 when there is none. */
    method GetPastBucketValue(k: Key, bucketNum: int) returns (v: int)
      requires Valid()
      ensures Inv(State()) ==> v == HistVal(View(State()), bucketNum, k)
    {
      if || bucketNum < 0 || mostRecentBucketNum < 0
         || bucketNum <= mostRecentBucketNum - numPastBuckets || bucketNum > mostRecentBucketNum {
        return 0;
      }
      var bucket := pastBuckets[bucketNum % numPastBuckets];
      v := if bucket.None? then 0 else Get(bucket.value, k);
    }

    method GetSumOverPastBuckets(k: Key) returns (v: int)
      requires Valid()
      ensures v == SumOverPast(State(), k)
      ensures Inv(State()) ==>
        v == HistSum(View(State()), mostRecentBucketNum - numPastBuckets, mostRecentBucketNum, k)
    {
      v := if k in sumOverPastBuckets then sumOverPastBuckets[k] else 0;
      if Inv(State()) { CachedSumIsWindowSum(State(), k); }
    }

    method DetectAnomaly(currentBucketNum: int, k: Key, currentBucketValue: int) returns (r: bool)
      requires Valid()
      modifies this`pastBuckets, this`sumOverPastBuckets, this`mostRecentBucketNum
      ensures Valid() && (State(), r) == Detect(old(State()), threshold, currentBucketNum, k, currentBucketValue)
    {
      if currentBucketNum > mostRecentBucketNum + 1 {
        AdvanceMostRecentBucketTo(currentBucketNum - 1);
      }
      var sum := GetSumOverPastBuckets(k);
      r := threshold.Some? && (sum + currentBucketValue) as real > threshold.value;
    }

    method IsInRefractoryPeriod(timestampNs: int, k: Key) returns (r: bool)
      ensures r <==> Quieting().InPeriod(timestampNs, k)
    {
      r := k in refractoryEndsSec && timestampNs < refractoryEndsSec[k] * NS_PER_SEC;
    }

    method DeclareAnomaly(timestampNs: int, k: Key)
      modifies this`refractoryEndsSec, this`declared
      ensures Quieting() == Declare(old(Quieting()), timestampNs, k)
    {
      var quiet := IsInRefractoryPeriod(timestampNs, k);
      declared := Declare(Quieting(), timestampNs, k).declared;
      if quiet {
        return;
      }
      if periodSec.Some? {
        var roundedUp := TruncDiv(timestampNs + NS_PER_SEC - 1, NS_PER_SEC);
        refractoryEndsSec := refractoryEndsSec[k := (roundedUp + periodSec.value) % TWO32];
      }
    }

    method DetectAndDeclareAnomaly(timestampNs: int, currBucketNum: int, k: Key, currentBucketValue: int)
      requires Valid()
      modifies this
      ensures Valid()
      ensures State() == Detect(old(State()), threshold, currBucketNum, k, currentBucketValue).0
      ensures Quieting() == if Detect(old(State()), threshold, currBucketNum, k, currentBucketValue).1
                            then Declare(old(Quieting()), timestampNs, k) else old(Quieting())
    {
      var anomaly := DetectAnomaly(currBucketNum, k, currentBucketValue);
      if anomaly {
        DeclareAnomaly(timestampNs, k);
      }
    }
  }

  /** Adds every entry of a bucket into a map of totals, one key at a time. */
  method AddInto(sum: DimToVal, bucket: DimToVal) returns (r: DimToVal)
    ensures r == AddToSum(sum, bucket)
  {
    r := sum;
    var todo := bucket.Keys;
    while todo != {}
      invariant todo <= bucket.Keys && r == AddPart(sum, bucket, bucket.Keys - todo)
    {
      var k :| k in todo;
      r := r[k := Get(r, k) + bucket[k]];
      assert bucket.Keys - (todo - {k}) == bucket.Keys - todo + {k};
      todo := todo - {k};
    }
    assert bucket.Keys - todo == bucket.Keys;
  }

  lemma SubtractOneMore(sum: DimToVal, bucket: DimToVal, part: set<Key>, k: Key)
    requires part <= bucket.Keys && k in bucket && k !in part
    ensures SubtractPart(sum, bucket, part + {k}) == SubtractValue(SubtractPart(sum, bucket, part), k, bucket[k])
  {
  }
}
