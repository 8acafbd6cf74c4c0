/** The text-key queries behind the acknowledgement lookup agree with integer arithmetic. */
module AckKeys {
  import opened Wrappers
  import opened SortKeys
  import opened EventStream
  import opened Outbox

  predicate InRange(ranges: seq<AckRange>) {
    forall i :: 0 <= i < |ranges| ==> ranges[i].first <= MAX_SEQUENCE && ranges[i].through <= MAX_SEQUENCE
  }

  /** The lookup as it is stored: text keys under BINARY collation. */
  function KeyedTime(ranges: seq<AckRange>, k: nat, key: string): Option<Time>
    requires InRange(ranges) && k <= |ranges|
    decreases |ranges| - k
  {
    if k == |ranges| then None
    else if !TextLess(SortKey(ranges[k].through), key) && !TextLess(key, SortKey(ranges[k].first))
      then Some(ranges[k].at)
    else KeyedTime(ranges, k + 1, key)
  }

  lemma {:induction false} KeyedLookupAgrees(ranges: seq<AckRange>, k: nat, sequence: Sequence)
    requires InRange(ranges) && k <= |ranges|
    ensures KeyedTime(ranges, k, SortKey(sequence)) == RangeTime(ranges, k, sequence)
    decreases |ranges| - k
  {
    if k < |ranges| {
      KeyOrder(ranges[k].through, sequence);
      KeyOrder(sequence, ranges[k].first);
      KeyedLookupAgrees(ranges, k + 1, sequence);
    }
  }

  /** A missing watermark reads as the empty text, below every key. */
  function WatermarkKey(acked: Option<nat>): string
    requires acked.Some? ==> acked.value <= MAX_SEQUENCE
  {
    if acked.Some? then SortKey(acked.value) else ""
  }

  /** The delete trigger's and the audit's "still unacknowledged" test. */
  lemma PendingTestAgrees(acked: Option<nat>, sequence: Sequence)
    requires acked.Some? ==> acked.value <= MAX_SEQUENCE
    ensures TextLess(WatermarkKey(acked), SortKey(sequence)) <==> sequence > Int(acked)
  {
    if acked.Some? {
      KeyOrder(acked.value, sequence);
    } else {
      OpenBounds(sequence);
    }
  }

  /** The contiguity scan of an acknowledgement starts above the "-" sentinel and misses no row. */
  lemma ScanBoundsAgree(acked: Option<nat>, through: Sequence, sequence: Sequence)
    requires acked.Some? ==> acked.value <= MAX_SEQUENCE
    ensures TextLess(SortKey(Int(acked)), SortKey(sequence)) && !TextLess(SortKey(through), SortKey(sequence)) <==>
            Int(acked) < sequence <= through
  {
    KeyOrder(Int(acked), sequence);
    KeyOrder(through, sequence);
  }
}
