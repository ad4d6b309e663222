/** Dimension keys of sliced metrics and conditions, and maps from them to values. */
module Dimensions {
  import opened FieldPath

  /** One dimension: keys are compared by path and value, not by annotations. */
  datatype Dimension = Dimension(field: Field, value: Value)

  type HashableDimensionKey = seq<Dimension>

  const DEFAULT_DIMENSION_KEY: HashableDimensionKey := []

  function KeyOf(values: seq<FieldValue>): HashableDimensionKey
  {
    seq(|values|, i requires 0 <= i < |values| => Dimension(values[i].field, values[i].value))
  }

  datatype MetricDimensionKey = MetricDimensionKey(what: HashableDimensionKey, stateValues: HashableDimensionKey)

  type Key = MetricDimensionKey

  type DimToVal = map<Key, int>

  function Get(m: DimToVal, k: Key): int { if k in m then m[k] else 0 }

  predicate NonNegative(m: DimToVal) { forall k :: k in m ==> m[k] >= 0 }

  lemma {:induction false} SubsetSize<T>(a: set<T>, b: set<T>)
    requires a <= b
    ensures |a| <= |b|
  {
    if a != {} {
      var x :| x in a;
      SubsetSize(a - {x}, b - {x});
    }
  }
}
