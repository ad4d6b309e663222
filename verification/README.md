# statsd, modelled and proved in Dafny

statsd turns a stream of logged events into bucketed metrics and alarms. This project models the
parts of that pipeline whose promises span whole runs, and proves those promises. Check it with
`dafny verify dfyconfig.toml`.

The form of each module follows the code it models. Where the code is made of objects updated in
place there is a class with the same fields and methods; each method is proved against a function
on values, and the properties are lemmas about that function over every run.

- **Shared**: `Options`, `Limits`.
- **Wire format**: `Bits`, `FieldPath` (the packed path word), `StatsEvent` and `StatsEventBuffer`
  (the writer, on values and in its growing buffer), `LogEvent` and `LogEventReader` (the parser, on
  values and with its cursor), `WireFormat` (what a written event means), `WriterRuns`,
  `WireRoundTrip`, `ErrorFreeCalls`, `KeyValueLists` and `EventBuilder` (pair lists, as the Java builder
  writes them), `DfsOrder`, `WrittenEvents`.
- **Field matching**: `SimpleMatch` (matcher trees on events), `MatcherMeaning` (what they say of written
  values), `FieldMatch` (dimension matchers as path/mask pairs, dimension keys), `Dimensions`.
- **Sliding-window anomaly detection**: `AnomalyWindow`, `Refractory`, `AnomalyTracker`,
  `CountMetric`, `CountMetricProducer`.
- **Alarms**: `IndexedHeap`, `AlarmMonitor`, `DurationAlarms`.
- **Matcher and condition graphs**: `Dag` (graphs, cycles, recursive evaluation), `ConditionDag`,
  `MatcherDag`, `SimpleCondition`, `ConditionEvaluation`, `ConditionQuery`.
- **Pulled data**: `PullMerge`, `PullSchedule`.
- **Metric activation**: `Activation`.

Main results: `WireRoundTrip.RoundTrip`, `ErrorFreeCalls.ErrorFreeIff`, `DfsOrder.AcceptedInOrder`,
`SimpleMatch.MatchesSimple`, `MatcherMeaning.TupleOnChain`, `KeyValueLists.MixedEventRead`,
`FieldMatch.TranslationMeansTree`, `CountMetric.WindowDetection`, `AnomalyWindow.RunIsIdeal`,
`IndexedHeap.IndexedPriorityQueue`, `AlarmMonitoring.RegisteredNearSoonest`,
`DurationAlarms.QueueIsWhatTrackersOwn`, `DurationAlarms.AllRoutesAreSpaced`,
`ConditionDag.ConditionTrackers.Init`, `MatcherDag.AtomMatchingTrackers.OnLogEvent`,
`SimpleCondition.QueryFromMatches`, `ConditionEvaluation.EvaluateCondition`,
`PullMerge.SortAndMergeConserve`, `PullMerge.ResultGroupsDistinct`,
`MetricActivation.ActiveIffActivated`, `MetricActivation.RestartIsForgotten`,
`PullSchedule.FiringReschedules`, `PullSchedule.RegistrationsStand`.

Where code and promise part, the code is kept and the exact boundary proved:

- A bucket flushed exactly on its end counts for the next one (`CountMetric.BoundaryMiscounts`). What a
  run counts is right if and only if no bucket with counts is flushed like that
  (`CountMetric.CountedByTime`).
- A key-value list of more than 127 pairs breaks the DFS order (`DfsOrder.AcceptedInOrder`, an
  if-and-only-if).
- The Java builder counts an annotation that follows a list with pairs in it on the last value of the
  list, where the parser does not look (`EventBuilding.AnnotationAfterPairsIsMisread`); only on a list
  without pairs does it count where it belongs (`EventBuilding.AnnotationAfterNoPairs`).
- The comment at bin/src/FieldValue.h:70-76 shows last marks at every level; the code marks level 1
  only, and so does the model.
- An alarm close to the 32-bit limit makes the monitor's comparison wrap
  (`AlarmMonitoring.RegisteredNearSoonest`, an if-and-only-if over whole runs), and so does the end of
  a refractory period (`Refractory.SpacedOnlyInRange`, an if-and-only-if).
- A start time that rounds to second 0 leaves an alarm that nobody fires
  (`DurationAlarms.StartKeepsIff`, an if-and-only-if).
- An ALL position on a leaf matches nothing that exists (`FieldMatch.AllWithoutChild`).
- Merged rows can repeat a group when an additive field precedes another field
  (`PullMerge.AdditiveFirstSplits`); the exact condition on the pulled rows is
  `PullMerge.GroupsDistinctIff`.
- On-boot activations saved for a reason that is neither a shutdown nor the death of the companion
  service come back active for one instant (`MetricActivation.OtherReasonsActivateForAnInstant`). This
  concerns the function alone: the callers pass DEVICE_SHUTDOWN (bin/src/StatsLogProcessor.cpp:857) or
  STATSCOMPANION_DIED (bin/src/StatsService.cpp:1306).
- Between a restart and the first flush an on-boot activation that had expired unnoticed can be armed
  again (`MetricActivation.ArmedAgainUnflushed`); `MetricActivation.RestartIsInvisible` says what holds
  without a flush, `MetricActivation.RestartIsForgotten` what holds after one.

## Model

| member | source | states |
|---|---|---|
| `FieldPath.GetEncodedField` | bin/src/FieldValue.cpp:27-38 | the loop ORs every position, shifted, into one number, which for byte positions is the number of the packed word |
| `FieldPath.BitwiseCode` | bin/src/FieldValue.cpp:44-58 | & and | on the 32-bit number are those of its four bytes |
| `FieldPath.CodeInjective` | bin/src/FieldValue.cpp:44-58 | two packed words are the same number exactly when all their bytes agree |
| `FieldPath.CodeOfWord` | bin/src/FieldValue.h:115-154 | every 32-bit number is that of its four bytes |
| `FieldPath.EncodedIsPacked` | bin/src/FieldValue.cpp:27-38 | the encoded number has each position in its own byte and zero below the depth |
| `FieldPath.Accessors` | bin/src/FieldValue.h:115-154 | the masks and shifts of the accessors, on the number, read back the depth, the packed byte, its low seven bits and its top bit |
| `FieldPath.DecorateMarks` | bin/src/FieldValue.h:106-109 | decorating sets one bit of the number and leaves the rest of the path alone |
| `FieldPath.EncodedPath` | bin/src/logd/LogEvent.h:280-290 | what addToValues stores: the encoded path with the last mark on level 1 only, and only below it |
| `StatsEventBuffer.StatsEvent.constructor` | lib/libstatssocket/stats_event.c:90-105 | a new event holds the header with its timestamp, nothing else and no error |
| `StatsEventBuffer.StatsEvent.Overflows` | lib/libstatssocket/stats_event.c:132-154 | reports overflow exactly when the size would pass the payload limit, otherwise makes the buffer large enough by doubling and keeps its contents |
| `StatsEventBuffer.StatsEvent.AppendBytes` | lib/libstatssocket/stats_event.c:156-194 | appends all of the bytes or none of them, with the overflow error recorded |
| `StatsEventBuffer.StatsEvent.Start` | lib/libstatssocket/stats_event.c:207-211 | starting a field counts it and remembers where its type byte is |
| `StatsEventBuffer.StatsEvent.WriteInt32` | lib/libstatssocket/stats_event.c:213-216 | appends the type and the four little-endian bytes, or records the overflow |
| `StatsEventBuffer.StatsEvent.WriteInt64` | lib/libstatssocket/stats_event.c:218-221 | appends the type and the eight little-endian bytes, or records the overflow |
| `StatsEventBuffer.StatsEvent.WriteFloat` | lib/libstatssocket/stats_event.c:223-226 | appends the type and the bit pattern, or records the overflow |
| `StatsEventBuffer.StatsEvent.WriteBool` | lib/libstatssocket/stats_event.c:228-231 | appends the type and one byte, or records the overflow |
| `StatsEventBuffer.StatsEvent.WriteByteArray` | lib/libstatssocket/stats_event.c:233-242 | appends the type, the length and the bytes, or records the overflow |
| `StatsEventBuffer.StatsEvent.WriteString` | lib/libstatssocket/stats_event.c:245-248 | a string is its length up to the first NUL and those bytes |
| `StatsEventBuffer.StatsEvent.WriteAttributionChain` | lib/libstatssocket/stats_event.c:251-265 | a chain is a count and uid/tag pairs; more than 127 nodes is an error |
| `StatsEventBuffer.StatsEvent.SetAtom` | lib/libstatssocket/stats_event.c:112-123 | the atom id must come first and only once, else an error is recorded |
| `StatsEventBuffer.StatsEvent.CountAnnotation` | lib/libstatssocket/stats_event.c:268-279 | the annotation count lives in the high four bits of the last type byte; more than 15 is an error |
| `StatsEventBuffer.StatsEvent.AddAnn` | lib/libstatssocket/stats_event.c:281-309 | an annotation before any field is an error; otherwise it is appended and counted |
| `StatsEventBuffer.StatsEvent.BuildBuffer` | lib/libstatssocket/stats_event.c:324-343 | building checks the limits, replaces an erroneous event by its error element and writes the element count |
| `WriterRuns.RunWrites` | lib/libstatssocket/stats_event.c:90-309 | over every sequence of calls: as long as no error is recorded the bytes are exactly the encoding of the fields written so far |
| `LogEventReader.LogEvent.ReadNextUInt32` | bin/src/logd/LogEvent.h:258-278 | reading past the end clears validity and yields zero; otherwise the cursor moves by the size of the value |
| `LogEventReader.LogEvent.AddToValues` | bin/src/logd/LogEvent.h:280-290 | stores a value with the encoded path of its position arrays |
| `LogEventReader.LogEvent.ReadAnnotations` | bin/src/logd/LogEvent.cpp:328-360 | the annotation loop; an unknown id ends it and invalidates the event |
| `LogEventReader.LogEvent.ReadKeyValuePairs` | bin/src/logd/LogEvent.cpp:162-202 | a pair list, with its position and last arrays updated in place and restored |
| `LogEventReader.LogEvent.ReadAttributionChain` | bin/src/logd/LogEvent.cpp:204-236 | an attribution chain, with the index range of its uids recorded or refused |
| `LogEventReader.LogEvent.ReadFields` | bin/src/logd/LogEvent.cpp:389-428 | the field loop, which stops once the event is invalid |
| `LogEventReader.LogEvent.ParseBytes` | bin/src/logd/LogEvent.cpp:364-433 | the whole parse: cursor plus remaining length stays the (32-bit) input length, and the stored event and the verdict are those of the parsing function |
| `WireRoundTrip.RoundTrip` | bin/src/logd/LogEvent.cpp:364-433 | for every sequence of write calls the reader accepts the built event if and only if no error was recorded and every annotation and chain is legal where it stands, and then has read exactly the timestamp, atom id, values, paths and annotations written |
| `ErrorFreeCalls.ErrorFreeIff` | lib/libstatssocket/stats_event.c:108-343 | a sequence of calls records no error if and only if a non-zero atom id comes first, there are at most 126 fields, every length, count and annotation id fits, and all bytes together stay within the limit of a pushed or pulled event |
| `ErrorFreeCalls.CallsRoundTrip` | bin/src/logd/LogEvent.cpp:364-433 | acceptance of the built event said of the calls alone: they pass that test and every annotation and chain is legal where it stands |
| `WireRoundTrip.ErrorsAreRejected` | lib/libstatssocket/stats_event.c:324-343 | an event with a recorded error is never accepted |
| `KeyValueLists.ListFieldOf` | bin/src/logd/LogEvent.cpp:162-202 | a list of pairs, read where it was written, adds for each pair its key at component 1 and its value at component 2, 3, 4 or 5 for int, long, string and float, with the last pair marked, and then its annotations |
| `KeyValueLists.MixedEventRead` | bin/src/logd/LogEvent.cpp:364-433 | any event of scalars, chains and pair lists is accepted exactly when its annotations and chains stand where they may, and is then read as it was written |
| `EventBuilding.StatsEventBuilder.WriteKeyValuePairs` | framework/java/android/util/StatsEvent.java:519-572 | the pairs of the four maps as one list, an error when there are more than 127, and an overflow exactly when the bytes do not fit |
| `EventBuilding.StatsEventBuilder.AddBooleanAnnotation` | framework/java/android/util/StatsEvent.java:580-596 | appends the annotation and counts it on the last type byte written |
| `EventBuilding.MarkedList` | framework/java/android/util/StatsEvent.java:676-689 | after a list with pairs that byte is the one of the last value, not the one of the list |
| `EventBuilding.AnnotationAfterPairsIsMisread` | bin/src/logd/LogEvent.cpp:162-202 | such an annotation is not read with the list: its bytes are taken for the next field |
| `EventBuilding.AnnotationAfterNoPairs` | framework/java/android/util/StatsEvent.java:676-689 | after a list without pairs it counts where it belongs |
| `WireFormat.AnnotationEffects` | bin/src/logd/LogEvent.cpp:238-360 | each annotation changes its own flag of one value, index or event property, and nothing else |
| `DfsOrder.AcceptedInOrder` | bin/src/logd/LogEvent.cpp:162-433 | for arbitrary bytes: a valid event consumed all input and its paths are 32-bit words; last bits cleared, they are strictly increasing in DFS order exactly when no key-value list has more than 127 pairs, and then last marks are consistent |
| `WrittenEvents.WrittenEventsCanBeMatched` | bin/src/logd/LogEvent.h:295-297 | every written and accepted event has its values in DFS order with consistent last marks, as matching needs |
| `SimpleMatch.FindField` | bin/src/matchers/matcher_util.cpp:111-135 | the zoom-in loop with its early stop finds exactly the values of a field in a sorted range |
| `SimpleMatch.FirstItem` | bin/src/matchers/matcher_util.cpp:145-157 | FIRST: the shortened range is exactly the items at position 1 |
| `SimpleMatch.LastItem` | bin/src/matchers/matcher_util.cpp:158-168 | LAST: the range from the first marked value is exactly the marked items, or all of them |
| `SimpleMatch.Items` | bin/src/matchers/matcher_util.cpp:169-186 | ANY: the ranges are whole items and cover the list |
| `SimpleMatch.MatchesSimple` | bin/src/matchers/matcher_util.cpp:100-355 | with its ranges and early exits it answers what the order-free tree semantics says, for matchers of any nesting |
| `SimpleMatch.MatchesEvent` | bin/src/matchers/matcher_util.cpp:357-369 | an event matches exactly when the atom id agrees and all field matchers hold |
| `SimpleMatch.AttributionUidPath` | bin/src/FieldValue.cpp:128-134 | the mask test for uids, on the number, selects the integers that come first in a node of the chain in field 1 |
| `MatcherMeaning.TupleOnList` | bin/src/matchers/matcher_util.cpp:100-215 | on a list of items with two components, a tuple of any sub-matchers holds iff the first item, the last item, or one and the same item satisfies them all; other positions never hold |
| `MatcherMeaning.TupleOnChain` | bin/src/matchers/matcher_util.cpp:100-215 | the same on the values a writer makes of an attribution chain, between values of other fields: uid and tag of node 0, of the last node, or of some node |
| `MatcherMeaning.PairsAreList` | bin/src/matchers/matcher_util.cpp:100-215 | the values of a list of key-value pairs are such a list, with the key at component 1 and the value at the component of its type |
| `MatcherMeaning.LeafOnList` | bin/src/matchers/matcher_util.cpp:136-215 | a leaf test with a position asks the values of the first item, of the last item, or of all items |
| `MatcherMeaning.LeafOnScalar` | bin/src/matchers/matcher_util.cpp:136-215 | a leaf test on a field with one value asks that value; FIRST does not match it |
| `MatcherMeaning.AbsentField` | bin/src/matchers/matcher_util.cpp:111-135 | a field the event does not have matches nothing |
| `MatcherMeaning.WholeTests` | bin/src/matchers/matcher_util.cpp:264-352 | on INT and LONG exactly one of less, equal and greater passes; the other tests are their combinations |
| `MatcherMeaning.OtherValues` | bin/src/matchers/matcher_util.cpp:218-352 | values of other types pass none of them |
| `MatcherMeaning.StringTests` | bin/src/matchers/matcher_util.cpp:227-263 | a list of strings passes iff one of them does, its negation iff none does |
| `MatcherMeaning.StringTest` | bin/src/matchers/matcher_util.cpp:82-98 | a logged string is compared as it is, a uid by the uid or the packages behind the name |
| `FieldMatch.TranslateFieldMatcher` | bin/src/FieldValue.cpp:60-106 | although siblings overwrite shared arrays, each subtree appends exactly the pairs of its own path |
| `FieldMatch.Translate` | bin/src/FieldValue.cpp:108-115 | the translated list is the flattened tree of the root's children |
| `FieldMatch.PairMatches` | bin/src/FieldValue.cpp:44-58 | on the numbers, one (path, mask) pair matches exactly when depths agree and every level passes, ALL passing any position at level 1 |
| `FieldMatch.TranslationMeansTree` | bin/src/FieldValue.cpp:44-115 | a log field matches some translated pair if and only if its path satisfies the FIRST/LAST/ANY/ALL tree |
| `FieldMatch.AllWithoutChild` | bin/src/FieldValue.cpp:44-58 | why ALL needs a child: on a leaf it matches position 0 only |
| `FieldMatch.LastNodeMatcherIsTranslated` | bin/src/FieldValue.cpp:60-106 | the tree for a component of the LAST node translates to the one canonical pair |
| `FieldMatch.FilterValues` | bin/src/HashableDimensionKey.cpp:165-181 | the loops collect exactly the masked values of the matching fields, in order |
| `FieldMatch.LastNodeKey` | bin/src/HashableDimensionKey.cpp:165-181 | a key sliced by a component of the LAST node alone holds that value under one canonical path |
| `FieldMatch.LastKeyIgnoresLength` | bin/src/HashableDimensionKey.cpp:165-181 | for whole events and any list of matchers of LAST components and of other fields, chains with the same last node give the same key, whatever their lengths |
| `FieldMatch.TranslatedIsOther` | bin/src/FieldValue.cpp:60-106 | the pairs translated from the tree of another top-level field are about that field only |
| `FieldMatch.NodeMatcherIsTranslated` | bin/src/FieldValue.cpp:60-106 | the tree for a component of the nodes at a position translates to one pair |
| `FieldMatch.ChainKeys` | bin/src/HashableDimensionKey.cpp:165-181 | sliced by FIRST, LAST, ANY or ALL, a key holds the value of the first node, of the last one, or of every node in order |
| `FieldMatch.PlaceForgotten` | bin/src/HashableDimensionKey.cpp:165-181 | a node has the same dimension wherever it stands in its chain, except under ALL |
| `AnomalyTracking.AnomalyTracker.AdvanceMostRecentBucketTo` | bin/src/anomaly/AnomalyTracker.cpp:66-90 | clearing slots one by one, or all of them, moves the window as specified |
| `AnomalyTracking.AnomalyTracker.AddPastBucketValue` | bin/src/anomaly/AnomalyTracker.cpp:92-120 | inserts or replaces one entry of a past bucket and keeps the cached sum in step |
| `AnomalyTracking.AnomalyTracker.AddPastBucket` | bin/src/anomaly/AnomalyTracker.cpp:122-139 | adds or replaces a whole bucket and keeps the cached sum in step |
| `AnomalyTracking.AnomalyTracker.SubtractBucketFromSum` | bin/src/anomaly/AnomalyTracker.cpp:141-161 | takes a bucket off the sum key by key, dropping keys that reach zero |
| `AnomalyTracking.AddInto` | bin/src/anomaly/AnomalyTracker.cpp:163-171 | adds a bucket to the sum key by key |
| `AnomalyTracking.AnomalyTracker.GetPastBucketValue` | bin/src/anomaly/AnomalyTracker.cpp:173-187 | in a consistent window, the value is that of the abstract window |
| `AnomalyTracking.AnomalyTracker.GetSumOverPastBuckets` | bin/src/anomaly/AnomalyTracker.cpp:189-195 | in a consistent window, the cached sum is the sum over the abstract window |
| `AnomalyTracking.AnomalyTracker.DetectAnomaly` | bin/src/anomaly/AnomalyTracker.cpp:197-207 | detection first moves the window up, then compares past plus current with the threshold |
| `AnomalyTracking.AnomalyTracker.DeclareAnomaly` | bin/src/anomaly/AnomalyTracker.cpp:209-238 | a declaration in the quiet time is dropped, any other starts a new quiet time |
| `AnomalyTracking.AnomalyTracker.DetectAndDeclareAnomaly` | bin/src/anomaly/AnomalyTracker.cpp:240-247 | declares exactly when detection flags |
| `AnomalyWindow.CachedSumIsWindowSum` | bin/src/anomaly/AnomalyTracker.cpp:141-195 | the cached sum of every key equals the sum over the buckets (mostRecent - N, mostRecent] |
| `AnomalyWindow.RunIsIdeal` | bin/src/anomaly/AnomalyTracker.cpp:51-171 | after any mix of keyed adds, whole-bucket adds, replacements and advances each slot holds exactly its bucket of the ideal window, with negative bucket numbers empty |
| `AnomalyWindow.RunSumIsIdeal` | bin/src/anomaly/AnomalyTracker.cpp:51-195 | over the same runs the cached sum is the sum over the ideal window |
| `AnomalyWindow.EntryReadBack` | bin/src/anomaly/AnomalyTracker.cpp:81-118 | a stored entry is what is read back from its bucket; all others in the window stay |
| `AnomalyWindow.BucketReadBack` | bin/src/anomaly/AnomalyTracker.cpp:120-139 | the same for a whole bucket |
| `Refractory.EndCoversTime` | bin/src/anomaly/AnomalyTracker.cpp:218-219 | the rounded, 32-bit end covers the period after a declaration if and only if it fits in 32 bits |
| `Refractory.DeclarationsAreSpaced` | bin/src/anomaly/AnomalyTracker.cpp:209-256 | for attempts in any order of times, declarations of one key are at least one period apart |
| `Refractory.SpacedOnlyInRange` | bin/src/anomaly/AnomalyTracker.cpp:209-256 | for every period, time and key: of two attempts at one moment the second is dropped if and only if the end fits in 32 bits |
| `Refractory.DeclaredExactly` | bin/src/anomaly/AnomalyTracker.cpp:209-256 | for attempts in any order of times the declarations of a key are exactly those outside the quiet time of the last one |
| `Refractory.EndIsExact` | bin/src/anomaly/AnomalyTracker.cpp:218-219 | in range the quiet time is the period counted from the next full second |
| `CountMetricProducing.CountMetricProducer.FlushCurrentBucket` | bin/src/metrics/CountMetricProducer.cpp:377-425 | a bucket goes to the trackers only strictly after its end; otherwise its counts are kept as a part |
| `CountMetricProducing.CountMetricProducer.FlushIfNeededAt` | bin/src/metrics/CountMetricProducer.cpp:361-375 | moves to the bucket of the event time |
| `CountMetricProducing.CountMetricProducer.Flush` | bin/src/metrics/CountMetricProducer.cpp:202-210 | a forced flush catches up with the clock and then ends the current part of the bucket |
| `CountMetricProducing.CountMetricProducer.DetectAt` | bin/src/metrics/CountMetricProducer.cpp:345-353 | every tracker is asked about the count of the whole current bucket |
| `CountMetricProducing.CountMetricProducer.OnMatchedLogEvent` | bin/src/metrics/CountMetricProducer.cpp:300-359 | counts the event unless the condition or the guard rail forbids it; exactly the trackers that flag it declare an anomaly |
| `CountMetric.WindowDetection` | bin/src/metrics/CountMetricProducer.cpp:321-425 | for every run: an event is counted iff it is accepted, and a counted event is flagged if and only if the events of its key counted for the last num_buckets buckets exceed the threshold, however flushes split the buckets |
| `CountMetric.CountedIff` | bin/src/metrics/CountMetricProducer.cpp:308-343 | an event is counted iff its condition is true and its key has a count in the current part or fewer than 800 keys have one |
| `CountMetric.CountsAccepted` | bin/src/metrics/CountMetricProducer.cpp:308-359 | over every run the producer counts exactly the events that the operations alone, their times, keys and conditions, accept |
| `CountMetric.FewKeysHistory` | bin/src/metrics/CountMetricProducer.cpp:308-359 | with at most 800 keys the history is that of the matched events whose condition is true |
| `CountMetric.CountedByTime` | bin/src/metrics/CountMetricProducer.cpp:361-425 | the counts of a run are those of the times alone if and only if no bucket with counts is flushed exactly on its end |
| `CountMetric.WindowDetectionByTime` | bin/src/metrics/CountMetricProducer.cpp:361-425 | in such runs detection is right when each event counts for the bucket of the latest time seen when it came |
| `CountMetric.BoundaryMiscounts` | bin/src/metrics/CountMetricProducer.cpp:397-423 | in every reachable state: an event exactly on a bucket end is tested together with all counts of that bucket, one moment later alone |
| `IndexedHeap.TopIsMinimum` | bin/src/anomaly/indexed_priority_queue.h:158-162 | the first element of a heap is not under any other |
| `IndexedHeap.IndexedPriorityQueue.Top` | bin/src/anomaly/indexed_priority_queue.h:158-162 | null exactly when empty, otherwise a minimum of the contents |
| `IndexedHeap.IndexedPriorityQueue.Contains` | bin/src/anomaly/indexed_priority_queue.h:203-207 | membership, with null never a member |
| `IndexedHeap.IndexedPriorityQueue.SwapIndices` | bin/src/anomaly/indexed_priority_queue.h:209-220 | a swap keeps the map the exact inverse of the array |
| `IndexedHeap.IndexedPriorityQueue.SiftUp` | bin/src/anomaly/indexed_priority_queue.h:170-180 | repairs a place that may be above its parent, also when it may be under a child |
| `IndexedHeap.IndexedPriorityQueue.SiftDown` | bin/src/anomaly/indexed_priority_queue.h:182-193 | repairs a place that may be under a child |
| `IndexedHeap.IndexedPriorityQueue.Push` | bin/src/anomaly/indexed_priority_queue.h:92-100 | adds one element, keeping heap and inverse map |
| `IndexedHeap.IndexedPriorityQueue.Remove` | bin/src/anomaly/indexed_priority_queue.h:102-127 | removes an element from anywhere, keeping heap and inverse map |
| `IndexedHeap.IndexedPriorityQueue.Pop` | bin/src/anomaly/indexed_priority_queue.h:130-149 | removes the element that top returns |
| `IndexedHeap.IndexedPriorityQueue.Clear` | bin/src/anomaly/indexed_priority_queue.h:151-156 | leaves a valid empty queue |
| `AlarmMonitoring.AlarmMonitor.SetStatsCompanionService` | bin/src/anomaly/AlarmMonitor.cpp:38-52 | a new service gets the soonest alarm registered |
| `AlarmMonitoring.AlarmMonitor.Add` | bin/src/anomaly/AlarmMonitor.cpp:54-72 | adds the alarm and re-registers with the 32-bit comparison of the code |
| `AlarmMonitoring.AlarmMonitor.Remove` | bin/src/anomaly/AlarmMonitor.cpp:74-93 | removes the alarm and cancels or re-registers |
| `AlarmMonitoring.AlarmMonitor.PopSoonerThan` | bin/src/anomaly/AlarmMonitor.cpp:97-119 | removes exactly the alarms at or before the time, and registers the soonest of the rest |
| `AlarmMonitoring.RegisteredNearSoonest` | bin/src/anomaly/AlarmMonitor.cpp:38-131 | over every run: in all its states the registered time is 0 iff the queue is empty and otherwise within the minimum difference of the soonest alarm, if and only if every addition passes the test of AddStaysClose in the state it meets |
| `AlarmMonitoring.AddStaysClose` | bin/src/anomaly/AlarmMonitor.cpp:54-72 | out of every close state an addition keeps the registered time close if and only if its sum fits in 32 bits, or the wrapped sum is not below the registered time, or the alarm is near the soonest anyway |
| `AlarmMonitoring.RemoveStaysClose` | bin/src/anomaly/AlarmMonitor.cpp:74-93 | a removal keeps it close out of every close state, also when its own sum wraps |
| `DurationAlarms.DurationAnomalyTracker.StartAlarm` | bin/src/anomaly/DurationAnomalyTracker.cpp:38-57 | replaces the alarm of a key unless it would fall in the quiet time; the monitor stays close exactly when the addition passes its test |
| `DurationAlarms.DurationAnomalyTracker.StopAlarm` | bin/src/anomaly/DurationAnomalyTracker.cpp:59-76 | removes the alarm, declaring it when it is late |
| `DurationAlarms.DurationAnomalyTracker.CancelAllAlarms` | bin/src/anomaly/DurationAnomalyTracker.cpp:78-85 | takes all of the tracker's alarms off the shared queue |
| `DurationAlarms.DurationAnomalyTracker.InformAlarmsFired` | bin/src/anomaly/DurationAnomalyTracker.cpp:87-111 | declares and forgets exactly the tracker's own fired alarms and hands back the others |
| `DurationAlarms.InformAllAt` | bin/src/anomaly/DurationAnomalyTracker.cpp:87-111 | because no alarm has two owners, informing the trackers in turn informs each of the whole set |
| `DurationAlarms.QueueIsWhatTrackersOwn` | bin/src/anomaly/DurationAnomalyTracker.cpp:38-111 | over any interleaving the queue is the disjoint union of the trackers' alarms and distinct keys own distinct alarms, also while popped alarms wait to be announced |
| `DurationAlarms.StartKeepsIff` | bin/src/anomaly/DurationAnomalyTracker.cpp:38-57 | a start keeps ownership if and only if it is refused in the quiet time or its time does not round to 0; otherwise the tracker owns an alarm the monitor refused |
| `DurationAlarms.StartArmsIff` | bin/src/anomaly/DurationAnomalyTracker.cpp:38-57 | a start arms the key iff it is not in the quiet time, and touches no other key |
| `DurationAlarms.StopDeclaresIff` | bin/src/anomaly/DurationAnomalyTracker.cpp:59-76 | a stop declares iff the key has an alarm whose time has come and is not quiet |
| `DurationAlarms.FiringDeclaresIff` | bin/src/anomaly/DurationAnomalyTracker.cpp:87-111 | firing declares and forgets exactly the keys whose alarm fired |
| `DurationAlarms.RoundsUp` | bin/src/anomaly/DurationAnomalyTracker.cpp:40-41 | for times from 1 ns that fit, the alarm second is at least 1, not before the time and less than a second after it |
| `DurationAlarms.NoAlarmFiresEarly` | bin/src/anomaly/DurationAnomalyTracker.cpp:38-41 | rounding up: no alarm is popped before its requested time, and none is a second late |
| `DurationAlarms.AllRoutesAreSpaced` | bin/src/anomaly/AnomalyTracker.cpp:209-256 | whichever route reaches a declaration, two for one key of a tracker are at least one period apart |
| `Dag.GoodIffAcyclic` | bin/src/condition/CombinationConditionTracker.cpp:62-111 | a node is acceptable to the depth-first search exactly when everything reachable from it is sane and no path visits a node twice |
| `ConditionLogic.EvaluateCombinationCondition` | bin/src/condition/condition_util.cpp:33-86 | the flag loop with its early break computes the three-valued combination |
| `ConditionLogic.CombineTruth` | bin/src/condition/condition_util.cpp:33-86 | on known states the operations are those of logic |
| `ConditionLogic.DeMorgan` | bin/src/condition/condition_util.cpp:33-86 | NAND is OR of the negations and NOR is AND of them, unknown states included |
| `ConditionLogic.UnknownSpreads` | bin/src/condition/condition_util.cpp:33-62 | one unknown child makes a combination unknown |
| `ConditionDag.ConditionTrackers.Init` | bin/src/condition/CombinationConditionTracker.cpp:38-124 | terminates on every graph; succeeds if and only if the node is acceptable; then the cache holds its recursive three-valued evaluation and the tracker its sliced and unsliced children, matchers and unsliced condition |
| `ConditionDag.JoinedSplits` | bin/src/condition/CombinationConditionTracker.cpp:102-110 | the two lists are exactly the sliced and the other children, and a combination is sliced when one child is |
| `ConditionDag.SplitFromSources` | bin/src/condition/CombinationConditionTracker.cpp:100-111 | a tracker is sliced iff a simple predicate below it is, and is concerned by exactly the matchers of the simple predicates below it |
| `ConditionDag.ConditionTrackers.InitChild` | bin/src/condition/CombinationConditionTracker.cpp:76-111 | a missing id, a child on the stack or a failing child means the node is not acceptable; otherwise the child joins the lists |
| `ConditionDag.ConditionTrackers.InitAll` | bin/src/metrics/parsing_utils/metrics_manager_util.cpp:919-931 | a configuration is accepted if and only if all its conditions are acceptable; every cache entry is then the recursive evaluation, shared children included, and every combination is initialised |
| `MatcherDag.CombinationMatch` | bin/src/matchers/matcher_util.cpp:32-82 | the early-exit loops compute the logical operation |
| `MatcherDag.CombinationLogic` | bin/src/matchers/matcher_util.cpp:32-82 | on computed results the operations are those of logic, with De Morgan |
| `MatcherDag.AtomMatchingTrackers.Init` | bin/src/matchers/CombinationAtomMatchingTracker.cpp:39-94 | terminates on every graph; succeeds if and only if the node is acceptable; then its atom ids are the union over its children |
| `MatcherDag.AtomMatchingTrackers.InitAll` | bin/src/metrics/parsing_utils/metrics_manager_util.cpp:878-888 | a configuration is accepted if and only if all its matchers are acceptable |
| `MatcherDag.AtomsAreDescendants` | bin/src/matchers/CombinationAtomMatchingTracker.cpp:84-87 | the atom ids of a matcher are exactly those of the simple matchers reachable from it |
| `MatcherDag.AtomMatchingTrackers.OnLogEvent` | bin/src/matchers/CombinationAtomMatchingTracker.cpp:113-136 | fills the cache with the guarded recursive evaluation and changes no computed entry |
| `MatcherDag.LeafResult` | bin/src/matchers/SimpleAtomMatchingTracker.cpp:61-77 | a matcher not interested in the atom does not match; a simple one otherwise answers as its field matchers do |
| `MatcherDag.AtomMatchingTrackers.OnLogEventInOrder` | bin/src/metrics/MetricsManager.cpp:564-570 | in whatever order trackers are visited each computed entry is the guarded recursive evaluation |
| `SimpleCondition.SimpleConditionTracker.HandleStopAll` | bin/src/condition/SimpleConditionTracker.cpp:145-163 | clears all keys and makes false the default |
| `SimpleCondition.SimpleConditionTracker.HandleConditionEvent` | bin/src/condition/SimpleConditionTracker.cpp:165-264 | one start or stop of a key, with nesting, guard rail and change reporting |
| `SimpleCondition.SimpleConditionTracker.EvaluateCondition` | bin/src/condition/SimpleConditionTracker.cpp:266-350 | stop_all before stop before start; an evaluated event changes nothing |
| `SimpleCondition.SimpleConditionTracker.IsConditionMet` | bin/src/condition/SimpleConditionTracker.cpp:352-405 | unlinked, partially linked and fully linked queries |
| `SimpleCondition.StepReports` | bin/src/condition/SimpleConditionTracker.cpp:184-264 | a step reports the key's new state, and a change exactly when the state changed |
| `SimpleCondition.StopAllReports` | bin/src/condition/SimpleConditionTracker.cpp:145-163 | after stop_all every key is false, and exactly the true ones are reported |
| `SimpleCondition.QueryIsAnswer` | bin/src/condition/SimpleConditionTracker.cpp:184-405 | after any run a fully linked query is a function of the key's accepted history; a default-false tracker stores no zero |
| `SimpleCondition.NothingDropped` | bin/src/condition/SimpleConditionTracker.cpp:165-182 | with at most 800 keys no event is dropped |
| `SimpleCondition.QueryFromMatches` | bin/src/condition/SimpleConditionTracker.cpp:266-405 | end to end from matcher results: a key is true while one of its starts is open, false once an event has concerned it, else the default |
| `SimpleCondition.ReportedState` | bin/src/condition/SimpleConditionTracker.cpp:266-350 | what evaluation reports: false after stop_all, the new state of the key after a start or stop, else the overall state |
| `SimpleCondition.OverallIsBest` | bin/src/condition/SimpleConditionTracker.cpp:302-328 | the overall state is that of the one key, or for a sliced tracker true iff some key is |
| `SimpleCondition.PartialIsBest` | bin/src/condition/SimpleConditionTracker.cpp:380-392 | a partially linked query is true iff some key containing the asked one is, unknown iff nothing is known of any such key |
| `SimpleCondition.PartialIsFull` | bin/src/HashableDimensionKey.cpp:326-349 | among keys of one length partial and full links agree |
| `SimpleCondition.DroppedIff` | bin/src/condition/SimpleConditionTracker.cpp:165-182 | a sliced tracker drops exactly the events of new keys beyond 800 |
| `SimpleCondition.KeysBounded` | bin/src/condition/SimpleConditionTracker.cpp:165-182 | it never holds more than 800 keys |
| `ConditionEvaluation.EvaluateCondition` | bin/src/condition/CombinationConditionTracker.cpp:185-228 | however many combinations share a tracker it is stepped once from its state before the event; combinations get their recursive evaluation, their stored unsliced condition and their change flags |
| `ConditionEvaluation.EvaluateInOrder` | bin/src/metrics/MetricsManager.cpp:621-632 | the same for all conditions of an event, in any order |
| `ConditionEvaluation.InitializedIsReady` | bin/src/condition/CombinationConditionTracker.cpp:62-124 | the trackers that initialisation accepts are ready for evaluation: the graph is the same and unsliced children are children |
| `ConditionQuery.IsConditionMet` | bin/src/condition/CombinationConditionTracker.cpp:169-183 | a query fills the cache with the recursive answer under the metric's keys and changes no tracker |
| `PullMerge.MergeRows` | bin/src/external/puller_util.cpp:114-148 | the loop that adds each row onto its neighbour computes the merge |
| `PullMerge.NeedMerge` | bin/src/external/puller_util.cpp:115-136 | rows merge exactly when they differ at most on additive fields |
| `PullMerge.AddOnto` | bin/src/external/puller_util.cpp:137-143 | adds the additive fields and nothing else |
| `PullMerge.SortAndMergeConserve` | bin/src/external/puller_util.cpp:89-148 | for every outcome of the sort, the total of each additive field within each group is that of the pulled rows |
| `PullMerge.ResultGroupsDistinct` | bin/src/external/puller_util.cpp:114-148 | no two result rows share a group if and only if rows of a group are neighbours after the sort |
| `PullMerge.GroupsDistinctIff` | bin/src/external/puller_util.cpp:89-148 | the same on the rows as pulled: if and only if no row sorts between two rows of a group it does not belong to |
| `PullMerge.SortedGroupsDistinct` | bin/src/external/puller_util.cpp:89-148 | with additive fields last, no two result rows share a group |
| `PullMerge.AdditiveFirstSplits` | bin/src/external/puller_util.cpp:89-148 | in every layout with an additive field before another, rows can be pulled whose group appears twice |
| `MetricActivation.ActivatedMetric.EvaluateActiveState` | bin/src/metrics/MetricProducer.cpp:176-188 | expires exactly the activations past their time to live and tells whether one is left |
| `MetricActivation.ActivatedMetric.FlushExpired` | bin/src/metrics/MetricProducer.cpp:190-199 | an active metric becomes inactive when nothing is left alive |
| `MetricActivation.ActivatedMetric.ActivateBy` | bin/src/metrics/MetricProducer.cpp:201-221 | immediate activations start now, on-boot ones wait |
| `MetricActivation.ActivatedMetric.CancelEventActivation` | bin/src/metrics/MetricProducer.cpp:223-231 | cancels the named activations and nothing else |
| `MetricActivation.ActivatedMetric.LoadActiveMetric` | bin/src/metrics/MetricProducer.cpp:233-259 | restores saved entries, unknown ones skipped |
| `MetricActivation.ActivatedMetric.SaveActiveMetric` | bin/src/metrics/MetricProducer.cpp:261-302 | writes one entry per activation that is on, as the reason demands |
| `MetricActivation.ActiveMeansActive` | bin/src/metrics/MetricProducer.cpp:176-259 | in every reachable state an active activation means an active metric |
| `MetricActivation.ActivityIsLife` | bin/src/metrics/MetricProducer.cpp:176-199 | flushing leaves the metric active exactly when it needs no activation or one is still alive |
| `MetricActivation.ActiveIffActivated` | bin/src/metrics/MetricProducer.cpp:176-231 | from start-up on, in order of time: after a flush at x the metric is active iff it has no activations or an immediate one was made within its time to live before x and not cancelled since |
| `MetricActivation.ArmedThenBooted` | bin/src/metrics/MetricProducer.cpp:201-302 | an on-boot activation armed before a shutdown is alive after the next start for its whole time to live and no longer |
| `MetricActivation.RestartIsInvisible` | bin/src/metrics/MetricProducer.cpp:176-302 | after saving for STATSCOMPANION_DIED and loading later, the restored metric is active exactly when the original would be at the same distance in time, whatever flushes, activations and cancellations follow in order of time |
| `MetricActivation.RestartIsForgotten` | bin/src/metrics/MetricsManager.cpp:540-555 | once both were flushed, as every log event does first, restored and original metric cannot be told apart up to the shift in time whatever follows, loads included: same activity, and every later save writes the same entries |
| `MetricActivation.ArmedAgainUnflushed` | bin/src/metrics/MetricProducer.cpp:201-221 | without that flush they can differ: an on-boot activation that expired unnoticed is armed again in the restored metric only |
| `MetricActivation.ShutdownActivates` | bin/src/metrics/MetricProducer.cpp:286-292 | for the shutdown reasons on-boot entries come back active with their full time to live |
| `MetricActivation.OtherReasonsActivateForAnInstant` | bin/src/metrics/MetricProducer.cpp:246-254 | for other reasons they come back active with nothing left |
| `PullSchedule.RoundedInterval` | bin/src/external/StatsPullerManager.cpp:195-202 | the interval is whole minutes, at least one, and less than a minute short |
| `PullSchedule.StatsPullerManager.RegisterReceiver` | bin/src/external/StatsPullerManager.cpp:181-215 | registers a receiver once and moves the shared alarm forward if needed |
| `PullSchedule.StatsPullerManager.UnRegisterReceiver` | bin/src/external/StatsPullerManager.cpp:217-233 | removes the registration |
| `PullSchedule.StatsPullerManager.OnAlarmFired` | bin/src/external/StatsPullerManager.cpp:250-315 | reschedules the live receivers that were due and sets the shared alarm to the earliest time after now |
| `PullSchedule.QuotientFits` | bin/src/external/StatsPullerManager.cpp:299-301 | the one-minute floor keeps the 32-bit quotient exact |
| `PullSchedule.FiringReschedules` | bin/src/external/StatsPullerManager.cpp:250-315 | every live receiver is next after t; one that was due stays on its grid at most one interval away; the alarm is the earliest time after t |
| `PullSchedule.Run` | bin/src/external/StatsPullerManager.cpp:181-315 | over every run the shared alarm is never later than any live receiver |
| `PullSchedule.RegistrationsStand` | bin/src/external/StatsPullerManager.cpp:181-315 | over every run a receiver is registered at most once, exactly while a registration is in force, with its rounded interval and a time on the grid it asked for |

## Left out

- Sockets, binder, shell commands, threads and locks: each locked method is one atomic step.
- Report output (`onDumpReportLocked` and the proto writers), and with it the past-bucket lists of the count metric.
- Gauge, event, value and duration metric producers, and the sliced-condition logic of the latter.
- Configuration updates (`onConfigUpdated`) and metadata persistence of alerts.
- Float arithmetic: a float is its 32-bit pattern, and the order of patterns is a parameter of `SimpleMatch`; thresholds are compared, and additive float fields summed, as exact reals.
- Package and AID names of uids: a parameter of `SimpleMatch`; the mapping of isolated uids to host uids before a merge is not modelled.
- 64-bit overflow of times, counts and sums; 32-bit arithmetic of alarm times, refractory ends, pull quotients, sizes and counts of the wire format is written out.
- `AStatsEvent_overwriteTimestamp`, and a count of fields beyond 2^32 in one event.
- NULL pointers for strings and byte arrays, which the writer treats like empty ones; C strings are their memory up to the first NUL.
- StatsEventBuffer.StatsEvent.CountAnnotation: when the buffer is full to the last byte the code touches the byte behind it (an overflow is recorded already); the model skips that write.
- Field numbers of dimension matchers that do not fit in a byte, and ALL positions anywhere but on a top-level field with children, in `FieldMatch.TranslationMeansTree`.
- SimpleMatch.MatchesSimple: proved for value lists that are in DFS order with consistent last marks, which `DfsOrder.AcceptedInOrder` gives for every accepted event without oversized key-value lists.
- The rest of the Java event builder: fields other than pair lists, integer annotations and `build`. Keys of its maps are given in the order of the maps, strings as their UTF-8 bytes.
- Sharing of bucket objects between a count metric and its trackers: buckets are values, so an update of one in place through another owner is not captured.
- Callbacks to the companion service when the registered alarm changes, and subscribers of anomalies.
- DurationAlarms.DurationAnomalyTracker.StartAlarm: the tracker always has a monitor, and the address of the new alarm object is a parameter; alarms popped by several callers at once are announced together.
- ConditionDag.ConditionTrackers.Init: the state a simple tracker reports, whether it is sliced and which matchers it listens to are parameters.
- SimpleCondition.SimpleConditionTracker.EvaluateCondition: start counts do not overflow.
- `std::sort`: any sorted permutation of the rows may come out of it.
- PullSchedule.StatsPullerManager.OnAlarmFired: registrations of all atoms and configurations are one list; pulling and delivering the data are not modelled; receivers that are gone but not yet due still count for the shared alarm, as in the code.
- `flushLocked` and `getCurrentBucketEndTimeNs` are in a header that is not part of this model; the end of a bucket is `timeBase + (bucketNum + 1) * bucketSize`, as bin/src/metrics/CountMetricProducer.cpp:361-372 implies.
- Hashing, statistics counters and logging.
