/** Declaring anomalies and the quiet time after each one (anomaly/AnomalyTracker.cpp). */
module Refractory {
  import opened Options
  import opened Bits
  import opened Limits
  import opened Dimensions

  /** Integer division as the source does it: towards zero. */
  function TruncDiv(a: int, b: int): int
    requires b > 0
  {
    if a >= 0 then a / b else -((-a) / b)
  }

  /** The anomalies declared so far (`declared`, their times per key) and what decides the next. */
  datatype Quiet = Quiet(periodSec: Option<UInt32>, ends: map<Key, UInt32>, declared: map<Key, seq<int>>) {
    function Times(k: Key): seq<int> { if k in declared then declared[k] else [] }

    predicate InPeriod(timestampNs: int, k: Key) { k in ends && timestampNs < ends[k] * NS_PER_SEC }
  }

  function CeilSec(timestampNs: int): int { TruncDiv(timestampNs + NS_PER_SEC - 1, NS_PER_SEC) }

  /** End of the period after a declaration, kept in 32 bits. */
  function EndSec(timestampNs: int, period: UInt32): UInt32 { (CeilSec(timestampNs) + period) % TWO32 }

  /** Declares `keys` at one time, except those in their quiet time. */
  function DeclareAll(q: Quiet, timestampNs: int, keys: set<Key>): Quiet
  {
    Quiet(q.periodSec,
          if q.periodSec.None? then q.ends
          else map k | k in q.ends.Keys + keys ::
                 if k in keys && !q.InPeriod(timestampNs, k) then EndSec(timestampNs, q.periodSec.value) else q.ends[k],
          map k | k in q.declared.Keys + keys ::
            if k in keys && !q.InPeriod(timestampNs, k) then q.Times(k) + [timestampNs] else q.Times(k))
  }

  function Declare(q: Quiet, timestampNs: int, k: Key): Quiet { DeclareAll(q, timestampNs, {k}) }

  lemma OneMoreEnd(q: Quiet, timestampNs: int, keys: set<Key>, k: Key)
    requires k !in keys
    ensures DeclareAll(q, timestampNs, keys + {k}).ends
         == Declare(DeclareAll(q, timestampNs, keys), timestampNs, k).ends
  {
  }

  lemma OneMoreTime(q: Quiet, timestampNs: int, keys: set<Key>, k: Key)
    requires k !in keys
    ensures DeclareAll(q, timestampNs, keys + {k}).declared
         == Declare(DeclareAll(q, timestampNs, keys), timestampNs, k).declared
  {
  }

  /** Keys can be declared one at a time, in any order. */
  lemma DeclareOneMore(q: Quiet, timestampNs: int, keys: set<Key>, k: Key)
    requires k !in keys
    ensures DeclareAll(q, timestampNs, keys + {k}) == Declare(DeclareAll(q, timestampNs, keys), timestampNs, k)
  {
    OneMoreEnd(q, timestampNs, keys, k);
    OneMoreTime(q, timestampNs, keys, k);
  }

  // ---------- spacing ----------

  /** The end of the period fits in 32 bits. */
  predicate InRange(period: UInt32, timestampNs: int) { CeilSec(timestampNs) + period < TWO32 }

  /** Every earlier declaration of a key lies at least one period before every later one. */
  predicate Spaced(times: seq<int>, period: UInt32)
  {
    forall i, j :: 0 <= i < j < |times| ==> times[j] - times[i] >= period * NS_PER_SEC
  }

  /** The recorded end covers all declarations so far. */
  predicate Covered(q: Quiet, k: Key)
  {
    q.periodSec.Some? ==>
      && Spaced(q.Times(k), q.periodSec.value)
      && (|q.Times(k)| > 0 ==> k in q.ends)
      && forall i :: 0 <= i < |q.Times(k)| ==> q.Times(k)[i] + q.periodSec.value * NS_PER_SEC <= q.ends[k] * NS_PER_SEC
  }

  lemma CeilBounds(timestampNs: int)
    ensures timestampNs <= CeilSec(timestampNs) * NS_PER_SEC
    ensures CeilSec(timestampNs) >= 1 ==> (CeilSec(timestampNs) - 1) * NS_PER_SEC < timestampNs
  {
  }

  lemma WrapBounds(x: int)
    ensures x < TWO32 ==> x <= x % TWO32
    ensures x >= TWO32 ==> x % TWO32 <= x - TWO32
  {
  }

  /** The recorded end covers the period after a declaration exactly when it fits in 32 bits. */
  lemma EndCoversTime(timestampNs: int, period: UInt32)
    ensures timestampNs + period * NS_PER_SEC <= EndSec(timestampNs, period) * NS_PER_SEC
       <==> InRange(period, timestampNs)
  {
    CeilBounds(timestampNs);
    WrapBounds(CeilSec(timestampNs) + period);
  }

  lemma DeclareStaysCovered(q: Quiet, timestampNs: int, keys: set<Key>, k: Key)
    requires Covered(q, k) && (q.periodSec.Some? ==> InRange(q.periodSec.value, timestampNs))
    ensures Covered(DeclareAll(q, timestampNs, keys), k)
  {
    var r := DeclareAll(q, timestampNs, keys);
    if q.periodSec.Some? {
      EndCoversTime(timestampNs, q.periodSec.value);
      if k in keys && !q.InPeriod(timestampNs, k) {
        assert r.Times(k) == q.Times(k) + [timestampNs];
      } else {
        assert r.Times(k) == q.Times(k);
        assert k in q.ends ==> k in r.ends && r.ends[k] == q.ends[k];
      }
    }
  }

  datatype Attempt = Attempt(timestampNs: int, key: Key)

  function AfterAttempts(q: Quiet, attempts: seq<Attempt>): Quiet
  {
    if attempts == [] then q
    else
      var a := attempts[|attempts| - 1];
      Declare(AfterAttempts(q, attempts[..|attempts| - 1]), a.timestampNs, a.key)
  }

  /** Whatever the order of the attempts and of their times, declarations of one key are at least
      one period apart. */
  lemma {:induction false} DeclarationsAreSpaced(period: UInt32, attempts: seq<Attempt>, k: Key)
    requires forall i :: 0 <= i < |attempts| ==> InRange(period, attempts[i].timestampNs)
    ensures var q := AfterAttempts(Quiet(Some(period), map[], map[]), attempts);
            q.periodSec == Some(period) && Covered(q, k) && Spaced(q.Times(k), period)
  {
    if attempts != [] {
      var n := |attempts| - 1;
      DeclarationsAreSpaced(period, attempts[..n], k);
      DeclareStaysCovered(AfterAttempts(Quiet(Some(period), map[], map[]), attempts[..n]), attempts[n].timestampNs,
                          {attempts[n].key}, k);
    }
  }

  /** A declaration starts a quiet time of its own exactly when the end fits in 32 bits. */
  lemma EndIsLater(timestampNs: int, period: UInt32)
    requires period > 0
    ensures timestampNs < EndSec(timestampNs, period) * NS_PER_SEC <==> InRange(period, timestampNs)
  {
    CeilBounds(timestampNs);
    WrapBounds(CeilSec(timestampNs) + period);
  }

  lemma OneAttempt(q: Quiet, timestampNs: int, k: Key)
    requires q == Quiet(q.periodSec, map[], map[]) && q.periodSec.Some?
    ensures var r := AfterAttempts(q, [Attempt(timestampNs, k)]);
            r.periodSec == q.periodSec && r.Times(k) == [timestampNs]
            && r.ends == map[k := EndSec(timestampNs, q.periodSec.value)]
  {
    var a := Attempt(timestampNs, k);
    assert [a][..0] == [] && [a][0] == a;
    assert AfterAttempts(q, []) == q;
  }

  /** Two attempts at one moment: the second is dropped exactly when the end of the period fits in
      32 bits. Beyond, the end wraps to a time that is past and both are declared. */
  lemma SpacedOnlyInRange(period: UInt32, timestampNs: int, k: Key)
    requires period > 0
    ensures var attempts := [Attempt(timestampNs, k), Attempt(timestampNs, k)];
            var times := AfterAttempts(Quiet(Some(period), map[], map[]), attempts).Times(k);
            && times == (if InRange(period, timestampNs) then [timestampNs] else [timestampNs, timestampNs])
            && (Spaced(times, period) <==> InRange(period, timestampNs))
  {
    var q, a := Quiet(Some(period), map[], map[]), Attempt(timestampNs, k);
    var r := AfterAttempts(q, [a]);
    OneAttempt(q, timestampNs, k);
    EndIsLater(timestampNs, period);
    assert [a, a][..1] == [a];
    assert AfterAttempts(q, [a, a]) == Declare(r, timestampNs, k);
    assert r.InPeriod(timestampNs, k) <==> InRange(period, timestampNs);
    var times := Declare(r, timestampNs, k).Times(k);
    if !InRange(period, timestampNs) {
      assert times == [timestampNs, timestampNs];
      assert times[1] - times[0] == 0;
    }
  }

  // ---------- what is declared, and nothing less ----------

  /** From the times alone: an attempt is kept when no kept attempt of its key has a quiet time that
      covers it. */
  function Kept(period: Option<UInt32>, attempts: seq<Attempt>, k: Key): seq<int>
  {
    if attempts == [] then []
    else
      var times, a := Kept(period, attempts[..|attempts| - 1], k), attempts[|attempts| - 1];
      if a.key == k && !Hushed(period, times, a.timestampNs) then times + [a.timestampNs] else times
  }

  /** The last declaration keeps the key quiet at this time. */
  predicate Hushed(period: Option<UInt32>, times: seq<int>, timestampNs: int)
  {
    period.Some? && times != [] && timestampNs < EndSec(times[|times| - 1], period.value) * NS_PER_SEC
  }

  /** The quiet time is counted from the next full second. */
  lemma EndIsExact(timestampNs: int, period: UInt32)
    requires timestampNs >= 0 && InRange(period, timestampNs)
    ensures var end := EndSec(timestampNs, period) * NS_PER_SEC;
            timestampNs + period * NS_PER_SEC <= end < timestampNs + (period + 1) * NS_PER_SEC
  {
    CeilBounds(timestampNs);
  }

  predicate Remembers(q: Quiet, period: Option<UInt32>, times: seq<int>, k: Key)
  {
    && q.periodSec == period && q.Times(k) == times
    && (k in q.ends <==> period.Some? && times != [])
    && (k in q.ends ==> q.ends[k] == EndSec(times[|times| - 1], period.value))
  }

  lemma DeclareRemembers(q: Quiet, period: Option<UInt32>, times: seq<int>, k: Key, a: Attempt)
    requires Remembers(q, period, times, k)
    ensures Remembers(Declare(q, a.timestampNs, a.key), period,
                      if a.key == k && !Hushed(period, times, a.timestampNs) then times + [a.timestampNs] else times, k)
  {
  }

  lemma {:induction false} RunRemembers(period: Option<UInt32>, attempts: seq<Attempt>, k: Key)
    ensures Remembers(AfterAttempts(Quiet(period, map[], map[]), attempts), period, Kept(period, attempts, k), k)
  {
    if attempts != [] {
      var n := |attempts| - 1;
      RunRemembers(period, attempts[..n], k);
      DeclareRemembers(AfterAttempts(Quiet(period, map[], map[]), attempts[..n]), period,
                       Kept(period, attempts[..n], k), k, attempts[n]);
    }
  }

  /** Every attempt outside a quiet time is declared, and no other: for all attempts, in any order of
      times, the declarations of a key are those that the times alone leave. */
  lemma DeclaredExactly(period: Option<UInt32>, attempts: seq<Attempt>, k: Key)
    ensures AfterAttempts(Quiet(period, map[], map[]), attempts).Times(k) == Kept(period, attempts, k)
  {
    RunRemembers(period, attempts, k);
  }
}
