/**
 The outbox tables: retained rows in key order, compact acknowledgement ranges, per-partition
 counters maintained by triggers, and the stream row. Every transaction is proved to implement
 the table-free meaning in `EventStream` and to keep what the startup audit checks.
 */
module Outbox {
  import opened Wrappers
  import opened SortKeys
  import opened EventStream
  import opened Replay

  /** `legacyAck` is the row-level timestamp of rows acknowledged before ranges existed. */
  datatype Row = Row(sequence: nat, event: Event, legacyAck: Option<Time>)

  datatype AckRange = AckRange(first: nat, through: nat, at: Time)

  /** One row of the counter table. */
  datatype Usage = Usage(retainedCount: int, retainedBytes: int, pendingCount: int, pendingBytes: int)

  datatype Column = RetainedCount | RetainedBytes | PendingCount | PendingBytes

  const NO_USAGE := Usage(0, 0, 0, 0)
  const PARTITIONS := [Regular, Control, Emergency]

  function Position(p: Partition): nat {
    match p
    case Regular => 0
    case Control => 1
    case Emergency => 2
  }

  // ------------------------------------------------------ timestamp lookup

  /** The first range from index `k` on, in key order, that covers the sequence. */
  function RangeTime(ranges: seq<AckRange>, k: nat, sequence: nat): Option<Time>
    requires k <= |ranges|
    decreases |ranges| - k
  {
    if k == |ranges| then None
    else if ranges[k].first <= sequence <= ranges[k].through then Some(ranges[k].at)
    else RangeTime(ranges, k + 1, sequence)
  }

  function AckTime(row: Row, ranges: seq<AckRange>): Option<Time> {
    if row.legacyAck.Some? then row.legacyAck else RangeTime(ranges, 0, row.sequence)
  }

  predicate KeysAscend(ranges: seq<AckRange>, acked: int) {
    && (forall i, j :: 0 <= i < j < |ranges| ==> ranges[i].through < ranges[j].through)
    && (forall i :: 0 <= i < |ranges| ==> ranges[i].first <= ranges[i].through <= acked)
  }

  lemma {:induction false} NotCovered(ranges: seq<AckRange>, k: nat, acked: int, sequence: nat)
    requires KeysAscend(ranges, acked) && sequence > acked && k <= |ranges|
    ensures RangeTime(ranges, k, sequence) == None
    decreases |ranges| - k
  {
    if k < |ranges| {
      NotCovered(ranges, k + 1, acked, sequence);
    }
  }

  /** A new range stamps exactly the rows it names: older stamps stay, later rows stay unstamped. */
  lemma {:induction false} AddedRange(ranges: seq<AckRange>, k: nat, added: AckRange, acked: int, sequence: nat)
    requires KeysAscend(ranges, acked) && added.first == acked + 1 && k <= |ranges|
    ensures RangeTime(ranges + [added], k, sequence) ==
            if acked < sequence <= added.through then Some(added.at) else RangeTime(ranges, k, sequence)
    decreases |ranges| - k
  {
    if k < |ranges| {
      AddedRange(ranges, k + 1, added, acked, sequence);
    } else {
      assert RangeTime(ranges + [added], |ranges| + 1, sequence) == None;
    }
  }

  /** How many ranges, in key order, end at or before a key. */
  function PassedRanges(ranges: seq<AckRange>, last: nat): (d: nat)
    ensures d <= |ranges|
    ensures forall i :: 0 <= i < d ==> ranges[i].through <= last
    ensures d < |ranges| ==> ranges[d].through > last
    decreases |ranges|
  {
    if ranges == [] || ranges[0].through > last then 0
    else 1 + PassedRanges(ranges[1..], last)
  }

  /** These are the ranges that end after the floor, in their order. */
  ghost predicate Compacted(before: seq<AckRange>, after: seq<AckRange>, floor: int) {
    && |after| <= |before| && after == before[|before| - |after|..]
    && forall i :: 0 <= i < |before| ==> (before[i].through > floor <==> i >= |before| - |after|)
  }

  lemma PassedAreDeleted(ranges: seq<AckRange>, acked: int, last: nat)
    requires KeysAscend(ranges, acked)
    ensures Compacted(ranges, ranges[PassedRanges(ranges, last)..], last)
  {
  }

  /** Deleting the ranges a prune has passed changes no surviving row's time. */
  lemma {:induction false} DroppedRangesDoNotMatter(ranges: seq<AckRange>, d: nat, k: nat, last: nat, sequence: nat)
    requires last < sequence && d <= |ranges| && k <= |ranges|
    requires forall i :: 0 <= i < d ==> ranges[i].through <= last
    ensures RangeTime(ranges, k, sequence) == RangeTime(ranges[d..], if k < d then 0 else k - d, sequence)
    decreases |ranges| - k
  {
    if k < |ranges| {
      DroppedRangesDoNotMatter(ranges, d, k + 1, last, sequence);
    }
  }

  // -------------------------------------------------------------- counters

  /** What one row contributes to one counter. */
  function Share(row: Row, acked: int, p: Partition, c: Column): int {
    if row.event.partition != p then 0
    else
      match c
      case RetainedCount => 1
      case RetainedBytes => row.event.bytes
      case PendingCount => if row.sequence > acked then 1 else 0
      case PendingBytes => if row.sequence > acked then row.event.bytes else 0
  }

  /** A counter of rows i..j-1. */
  function Recount(rows: seq<Row>, i: nat, j: nat, acked: int, p: Partition, c: Column): int
    requires i <= j <= |rows|
  {
    if i == j then 0 else Recount(rows, i, j - 1, acked, p, c) + Share(rows[j - 1], acked, p, c)
  }

  lemma {:induction false} RecountFromFront(rows: seq<Row>, i: nat, j: nat, acked: int, p: Partition, c: Column)
    requires i < j <= |rows|
    ensures Recount(rows, i, j, acked, p, c) == Share(rows[i], acked, p, c) + Recount(rows, i + 1, j, acked, p, c)
  {
    if i + 1 < j {
      RecountFromFront(rows, i, j - 1, acked, p, c);
    }
  }

  lemma {:induction false} RecountMoves(
    rows: seq<Row>, moved: seq<Row>, d: nat, i: nat, j: nat, acked: int, p: Partition, c: Column)
    requires d <= i <= j <= |rows| && j - d <= |moved|
    requires forall k :: i <= k < j ==> rows[k] == moved[k - d]
    ensures Recount(rows, i, j, acked, p, c) == Recount(moved, i - d, j - d, acked, p, c)
  {
    if i < j {
      RecountMoves(rows, moved, d, i, j - 1, acked, p, c);
    }
  }

  /** Rows (or bytes) of a partition inside a range of sequences, over the first j rows. */
  function RangeTotal(rows: seq<Row>, j: nat, first: int, through: int, p: Partition, bytes: bool): int
    requires j <= |rows|
  {
    if j == 0 then 0
    else
      var row := rows[j - 1];
      RangeTotal(rows, j - 1, first, through, p, bytes)
      + (if row.event.partition != p || row.sequence < first || row.sequence > through then 0
         else if bytes then row.event.bytes else 1)
  }

  /** Raising the watermark takes exactly the range total out of the unacknowledged counters. */
  lemma {:induction false} RecountAfterAck(rows: seq<Row>, j: nat, acked: int, through: int, p: Partition, c: Column)
    requires acked <= through && j <= |rows|
    ensures Recount(rows, 0, j, through, p, c) ==
            Recount(rows, 0, j, acked, p, c)
            - (if c.PendingCount? || c.PendingBytes? then RangeTotal(rows, j, acked + 1, through, p, c.PendingBytes?)
               else 0)
  {
    if j > 0 {
      RecountAfterAck(rows, j - 1, acked, through, p, c);
    }
  }

  /** The three counter rows. */
  datatype Budget = Budget(regular: Usage, control: Usage, emergency: Usage) {
    function Of(p: Partition): Usage {
      match p
      case Regular => regular
      case Control => control
      case Emergency => emergency
    }

    function At(p: Partition, c: Column): int {
      match c
      case RetainedCount => Of(p).retainedCount
      case RetainedBytes => Of(p).retainedBytes
      case PendingCount => Of(p).pendingCount
      case PendingBytes => Of(p).pendingBytes
    }

    function With(p: Partition, u: Usage): Budget {
      match p
      case Regular => this.(regular := u)
      case Control => this.(control := u)
      case Emergency => this.(emergency := u)
    }
  }

  /** Every stored counter equals a recount of the rows from `i` on. */
  ghost predicate Balances(b: Budget, rows: seq<Row>, i: nat, acked: int)
    requires i <= |rows|
  {
    forall p: Partition, c: Column :: b.At(p, c) == Recount(rows, i, |rows|, acked, p, c)
  }

  ghost predicate Shifted(b: Budget, t: Budget, row: Row, acked: int) {
    forall p: Partition, c: Column :: t.At(p, c) == b.At(p, c) + Share(row, acked, p, c)
  }

  lemma RecountLonger(rows: seq<Row>, longer: seq<Row>, acked: int, p: Partition, c: Column)
    requires |longer| == |rows| + 1 && longer[..|rows|] == rows
    ensures Recount(longer, 0, |longer|, acked, p, c) ==
            Recount(rows, 0, |rows|, acked, p, c) + Share(longer[|rows|], acked, p, c)
  {
    RecountMoves(longer, rows, 0, 0, |rows|, acked, p, c);
  }

  lemma BalancesAppended(b: Budget, t: Budget, rows: seq<Row>, longer: seq<Row>, acked: int)
    requires |longer| == |rows| + 1 && longer[..|rows|] == rows
    requires Balances(b, rows, 0, acked) && Shifted(b, t, longer[|rows|], acked)
    ensures Balances(t, longer, 0, acked)
  {
    forall p: Partition, c: Column ensures t.At(p, c) == Recount(longer, 0, |longer|, acked, p, c) {
      RecountLonger(rows, longer, acked, p, c);
      assert t.At(p, c) == b.At(p, c) + Share(longer[|rows|], acked, p, c);
    }
  }

  lemma BalancesWithoutFirst(b: Budget, t: Budget, rows: seq<Row>, i: nat, acked: int)
    requires i < |rows| && Balances(b, rows, i, acked) && Shifted(t, b, rows[i], acked)
    ensures Balances(t, rows, i + 1, acked)
  {
    forall p: Partition, c: Column ensures t.At(p, c) == Recount(rows, i + 1, |rows|, acked, p, c) {
      RecountFromFront(rows, i, |rows|, acked, p, c);
    }
  }

  lemma BalancesDropped(b: Budget, rows: seq<Row>, i: nat, acked: int)
    requires i <= |rows| && Balances(b, rows, i, acked)
    ensures Balances(b, rows[i..], 0, acked)
  {
    forall p: Partition, c: Column ensures b.At(p, c) == Recount(rows[i..], 0, |rows| - i, acked, p, c) {
      RecountMoves(rows, rows[i..], i, i, |rows|, acked, p, c);
    }
  }

  /** The four counters of one partition, recounted. */
  function PartitionUsage(rows: seq<Row>, j: nat, acked: int, p: Partition): Usage
    requires j <= |rows|
  {
    Usage(Recount(rows, 0, j, acked, p, RetainedCount), Recount(rows, 0, j, acked, p, RetainedBytes),
          Recount(rows, 0, j, acked, p, PendingCount), Recount(rows, 0, j, acked, p, PendingBytes))
  }

  lemma BalancesByPartition(b: Budget, rows: seq<Row>, acked: int)
    ensures Balances(b, rows, 0, acked) <==>
            && b.regular == PartitionUsage(rows, |rows|, acked, Regular)
            && b.control == PartitionUsage(rows, |rows|, acked, Control)
            && b.emergency == PartitionUsage(rows, |rows|, acked, Emergency)
  {
    if Balances(b, rows, 0, acked) {
      forall p: Partition ensures b.Of(p) == PartitionUsage(rows, |rows|, acked, p) {
        assert b.At(p, RetainedCount) == Recount(rows, 0, |rows|, acked, p, RetainedCount);
        assert b.At(p, RetainedBytes) == Recount(rows, 0, |rows|, acked, p, RetainedBytes);
        assert b.At(p, PendingCount) == Recount(rows, 0, |rows|, acked, p, PendingCount);
        assert b.At(p, PendingBytes) == Recount(rows, 0, |rows|, acked, p, PendingBytes);
      }
      assert b.Of(Regular) == b.regular && b.Of(Control) == b.control && b.Of(Emergency) == b.emergency;
    }
  }

  function Int(mark: Option<nat>): int {
    if mark.Some? then mark.value else -1
  }

  // -------------------------------------------------------------- the audit

  /** Everything the startup audit checks of the stored tables. */
  ghost predicate Audited(rows: seq<Row>, next: nat, acked: Option<nat>, floor: Option<nat>,
                          ranges: seq<AckRange>, budget: Budget)
  {
    && Balances(budget, rows, 0, Int(acked))
    && next <= MAX_SEQUENCE
    && Int(floor) <= Int(acked) < next
    && Int(floor) + 1 + |rows| == next
    && (forall i :: 0 <= i < |rows| ==> rows[i].sequence == Int(floor) + 1 + i)
    && (forall i :: 0 <= i < |rows| ==> rows[i].event.bytes <= MAX_EVENT_BYTES)
    && (forall i :: 0 <= i < |rows| ==> (rows[i].sequence <= Int(acked) <==> AckTime(rows[i], ranges).Some?))
  }

  /** A table row tells the truth about one emitted event, its acknowledgement time included. */
  ghost predicate Stored(row: Row, sequence: int, meaning: Stream, ranges: seq<AckRange>)
    requires meaning.Valid()
  {
    && row.sequence == sequence < |meaning.log|
    && row.event == meaning.log[sequence]
    && AckTime(row, ranges) == meaning.stamps[sequence]
    && (row.legacyAck.Some? ==> sequence <= meaning.acked)
  }

  /** The table holds the events after the floor, in order, and nothing else. */
  ghost predicate AllStored(rows: seq<Row>, floor: int, meaning: Stream, ranges: seq<AckRange>)
    requires meaning.Valid()
  {
    forall i :: 0 <= i < |rows| ==> Stored(rows[i], floor + 1 + i, meaning, ranges)
  }

  /** The tables hold the stream `meaning`. */
  ghost predicate Implements(rows: seq<Row>, next: nat, acked: Option<nat>, floor: Option<nat>,
                             ranges: seq<AckRange>, meaning: Stream)
  {
    && meaning.Valid()
    && next == |meaning.log| && Int(acked) == meaning.acked && Int(floor) == meaning.floor
    && Int(floor) + 1 + |rows| == next
    && AllStored(rows, Int(floor), meaning, ranges)
    && KeysAscend(ranges, Int(acked))
  }

  lemma SequencesAscend(rows: seq<Row>, floor: int, meaning: Stream, ranges: seq<AckRange>)
    requires meaning.Valid() && AllStored(rows, floor, meaning, ranges)
    ensures forall i :: 0 <= i < |rows| ==> rows[i].sequence == floor + 1 + i
  {
    forall i | 0 <= i < |rows| ensures rows[i].sequence == floor + 1 + i {
      assert Stored(rows[i], floor + 1 + i, meaning, ranges);
    }
  }

  lemma AppendedRowIsStored(rows: seq<Row>, floor: int, meaning: Stream, ranges: seq<AckRange>, d: Draft)
    requires meaning.Valid() && AllStored(rows, floor, meaning, ranges) && KeysAscend(ranges, meaning.acked)
    requires floor + 1 + |rows| == |meaning.log|
    requires AppendOne(meaning, d).Ok?
    ensures var t := AppendOne(meaning, d).value;
            t.Valid() && AllStored(rows + [Row(|meaning.log|, ToEvent(d), None)], floor, t, ranges)
  {
    NotCovered(ranges, 0, meaning.acked, |meaning.log|);
    var t := AppendOne(meaning, d).value;
    forall i | 0 <= i < |rows| ensures Stored(rows[i], floor + 1 + i, t, ranges) {
      assert Stored(rows[i], floor + 1 + i, meaning, ranges);
    }
  }

  lemma AckedRowsAreStored(rows: seq<Row>, floor: int, meaning: Stream, ranges: seq<AckRange>, through: Sequence,
                           at: Time)
    requires meaning.Valid() && AllStored(rows, floor, meaning, ranges) && KeysAscend(ranges, meaning.acked)
    requires meaning.Readable() && meaning.acked < through < |meaning.log|
    ensures AllStored(rows, floor, Ack(meaning, through, at).0, ranges + [AckRange(meaning.acked + 1, through, at)])
  {
    var added := AckRange(meaning.acked + 1, through, at);
    forall i | 0 <= i < |rows| ensures Stored(rows[i], floor + 1 + i, Ack(meaning, through, at).0, ranges + [added]) {
      assert Stored(rows[i], floor + 1 + i, meaning, ranges);
      AddedRange(ranges, 0, added, meaning.acked, rows[i].sequence);
    }
  }

  lemma KeptRowsAreStored(rows: seq<Row>, floor: int, meaning: Stream, ranges: seq<AckRange>, count: nat,
                          cutoff: Option<Time>)
    requires meaning.Valid() && AllStored(rows, floor, meaning, ranges) && floor == meaning.floor
    requires 0 < count <= |rows| && floor + count <= meaning.acked && count == PruneCount(meaning, cutoff)
    ensures var kept := ranges[PassedRanges(ranges, floor + count)..];
            AllStored(rows[count..], floor + count, Prune(meaning, cutoff), kept)
  {
    var d := PassedRanges(ranges, floor + count);
    forall i | 0 <= i < |rows| - count
      ensures Stored(rows[count..][i], floor + count + 1 + i, Prune(meaning, cutoff), ranges[d..])
    {
      assert Stored(rows[count + i], floor + 1 + (count + i), meaning, ranges);
      DroppedRangesDoNotMatter(ranges, d, 0, floor + count, rows[count + i].sequence);
    }
  }

  lemma RangesStayOrdered(ranges: seq<AckRange>, d: nat, acked: int)
    requires KeysAscend(ranges, acked) && d <= |ranges|
    ensures KeysAscend(ranges[d..], acked)
  {
    forall i | 0 <= i < |ranges| - d
      ensures ranges[d..][i] == ranges[d + i]
    {
    }
  }

  lemma PruneMoves(meaning: Stream, count: nat, cutoff: Option<Time>)
    requires meaning.Valid() && count == PruneCount(meaning, cutoff)
    ensures var t := Prune(meaning, cutoff);
            && t.Valid() && t.log == meaning.log && t.acked == meaning.acked
            && t.floor == meaning.floor + count && meaning.floor + count <= meaning.acked
  {
  }

  lemma FloorIsStored(rows: seq<Row>, floor: int, meaning: Stream, ranges: seq<AckRange>, count: nat)
    requires meaning.Valid() && AllStored(rows, floor, meaning, ranges) && 0 < count <= |rows|
    ensures rows[count - 1].sequence == floor + count
  {
    assert Stored(rows[count - 1], floor + count, meaning, ranges);
  }

  lemma PrunedRows(rows: seq<Row>, floor: int, acked: int, ranges: seq<AckRange>, meaning: Stream, count: nat,
                   cutoff: Option<Time>)
    requires meaning.Valid() && AllStored(rows, floor, meaning, ranges) && KeysAscend(ranges, acked)
    requires floor == meaning.floor && 0 < count == PruneCount(meaning, cutoff) <= |rows|
    ensures Prune(meaning, cutoff).Valid()
    ensures var left := ranges[PassedRanges(ranges, floor + count)..];
            && AllStored(rows[count..], floor + count, Prune(meaning, cutoff), left) && KeysAscend(left, acked)
  {
    PruneMoves(meaning, count, cutoff);
    KeptRowsAreStored(rows, floor, meaning, ranges, count, cutoff);
    RangesStayOrdered(ranges, PassedRanges(ranges, floor + count), acked);
  }

  /** The tables after a prune page hold the pruned stream. */
  lemma PrunedTables(rows: seq<Row>, next: nat, acked: Option<nat>, floor: Option<nat>, ranges: seq<AckRange>,
                     meaning: Stream, count: nat, cutoff: Option<Time>)
    requires Implements(rows, next, acked, floor, ranges, meaning) && 0 < count == PruneCount(meaning, cutoff) <= |rows|
    ensures var last := Int(floor) + count;
            && rows[count - 1].sequence == last
            && Implements(rows[count..], next, acked, Some(last), ranges[PassedRanges(ranges, last)..],
                          Prune(meaning, cutoff))
  {
    FloorIsStored(rows, Int(floor), meaning, ranges, count);
    PruneMoves(meaning, count, cutoff);
    PrunedRows(rows, Int(floor), Int(acked), ranges, meaning, count, cutoff);
  }

  /** A stream with these retained rows; what was pruned before is unknown and filled in. */
  ghost function MeaningOf(rows: seq<Row>, acked: Option<nat>, floor: Option<nat>, ranges: seq<AckRange>): Stream {
    var lost := Int(floor) + 1;
    Stream(seq(lost, _ => Event("", Regular, 1)) + seq(|rows|, i requires 0 <= i < |rows| => rows[i].event),
           seq(lost, _ => Some(0)) + seq(|rows|, i requires 0 <= i < |rows| => AckTime(rows[i], ranges)),
           Int(acked), Int(floor))
  }

  lemma MeaningIsValid(rows: seq<Row>, next: nat, acked: Option<nat>, floor: Option<nat>, ranges: seq<AckRange>,
                       budget: Budget)
    requires Audited(rows, next, acked, floor, ranges, budget)
    ensures MeaningOf(rows, acked, floor, ranges).Valid()
  {
    var m, lost := MeaningOf(rows, acked, floor, ranges), Int(floor) + 1;
    forall i | 0 <= i < |m.log|
      ensures m.log[i].bytes <= MAX_EVENT_BYTES && (m.stamps[i].Some? <==> i <= m.acked)
    {
      if i >= lost {
        assert rows[i - lost].sequence == i && rows[i - lost].event.bytes <= MAX_EVENT_BYTES;
      }
    }
  }

  lemma AuditedImplements(rows: seq<Row>, next: nat, acked: Option<nat>, floor: Option<nat>, ranges: seq<AckRange>,
                          budget: Budget)
    requires Audited(rows, next, acked, floor, ranges, budget) && KeysAscend(ranges, Int(acked))
    ensures Implements(rows, next, acked, floor, ranges, MeaningOf(rows, acked, floor, ranges))
  {
    MeaningIsValid(rows, next, acked, floor, ranges, budget);
    var m, lost := MeaningOf(rows, acked, floor, ranges), Int(floor) + 1;
    forall i | 0 <= i < |rows|
      ensures Stored(rows[i], lost + i, m, ranges)
    {
      assert rows[i].sequence == lost + i;
      assert m.log[lost + i] == rows[i].event && m.stamps[lost + i] == AckTime(rows[i], ranges);
    }
  }

  /**
   The audit does not look at the ranges, so alone it does not survive the next append:
   a range past the watermark passes it and then stamps the row appended next.
   */
  lemma AuditAloneIsNotKept(at: Time)
    ensures var ranges := [AckRange(1, 1, at)];
            var row := Row(1, Event("e", Regular, 1), None);
            && Audited([], 1, Some(0), Some(0), ranges, Budget(NO_USAGE, NO_USAGE, NO_USAGE))
            && !KeysAscend(ranges, 0)
            && !Audited([row], 2, Some(0), Some(0), ranges, Budget(Usage(1, 1, 1, 1), NO_USAGE, NO_USAGE))
  {
    var row := Row(1, Event("e", Regular, 1), None);
    assert AckTime([row][0], [AckRange(1, 1, at)]).Some?;
  }

  /**
   Audited tables pass the audit again after an accepted append exactly when no range covers the sequence the
   append is given, and the one after it can still be read.
   */
  lemma AuditSurvivesAppendIff(rows: seq<Row>, next: nat, acked: Option<nat>, floor: Option<nat>, ranges: seq<AckRange>,
                               b: Budget, t: Budget, event: Event)
    requires Audited(rows, next, acked, floor, ranges, b) && event.bytes <= MAX_EVENT_BYTES
    requires Shifted(b, t, Row(next, event, None), Int(acked))
    ensures Audited(rows + [Row(next, event, None)], next + 1, acked, floor, ranges, t) <==>
            next < MAX_SEQUENCE && RangeTime(ranges, 0, next) == None
  {
    var row := Row(next, event, None);
    var longer := rows + [row];
    BalancesAppended(b, t, rows, longer, Int(acked));
    assert longer[|rows|] == row && AckTime(row, ranges) == RangeTime(ranges, 0, next);
    assert forall i :: 0 <= i < |rows| ==> longer[i] == rows[i];
  }

  /** Index of the first row past a sequence. */
  method Seek(rows: seq<Row>, after: int, ghost meaning: Stream, ghost ranges: seq<AckRange>) returns (from: nat)
    requires meaning.Valid() && AllStored(rows, meaning.floor, meaning, ranges)
    ensures from <= |rows|
    ensures from > 0 ==> meaning.floor + from <= after
    ensures from < |rows| ==> rows[from].sequence == meaning.floor + 1 + from > after
  {
    from := 0;
    while from < |rows| && rows[from].sequence <= after
      invariant 0 <= from <= |rows|
      invariant from > 0 ==> meaning.floor + from <= after
    {
      assert Stored(rows[from], meaning.floor + 1 + from, meaning, ranges);
      from := from + 1;
    }
    if from < |rows| {
      assert Stored(rows[from], meaning.floor + 1 + from, meaning, ranges);
    }
  }

  lemma RowIsStored(rows: seq<Row>, ranges: seq<AckRange>, k: nat, meaning: Stream)
    requires meaning.Valid() && AllStored(rows, meaning.floor, meaning, ranges) && k < |rows|
    ensures var i := meaning.floor + 1 + k;
            && rows[k].sequence == i < |meaning.log| && rows[k].event == meaning.log[i]
            && AckTime(rows[k], ranges) == meaning.stamps[i]
  {
    assert Stored(rows[k], meaning.floor + 1 + k, meaning, ranges);
  }

  /** So many events and bytes into the page that starts there, `whole` is still the page's length. */
  ghost predicate Into(log: seq<Event>, start: nat, stop: nat, cap: nat, taken: nat, bytes: int, whole: nat) {
    && start + taken <= stop <= |log| && taken <= cap && 0 <= bytes <= MAX_EVENT_BYTES
    && whole == taken + Fit(log, start + taken, stop, cap - taken, MAX_EVENT_BYTES - bytes)
  }

  lemma OneFurther(log: seq<Event>, start: nat, stop: nat, cap: nat, taken: nat, bytes: int, whole: nat)
    requires Into(log, start, stop, cap, taken, bytes, whole) && start + taken < stop && taken < cap
    ensures bytes + log[start + taken].bytes > MAX_EVENT_BYTES ==> whole == taken
    ensures bytes + log[start + taken].bytes <= MAX_EVENT_BYTES ==>
              Into(log, start, stop, cap, taken + 1, bytes + log[start + taken].bytes, whole)
  {
  }

  /** These are the first rows of the page that starts at a row and ends before `stop`. */
  ghost predicate Paged(meaning: Stream, from: nat, stop: nat, cap: nat, events: seq<Delivered>, taken: nat, bytes: int)
    requires meaning.Valid()
  {
    var start := meaning.floor + 1 + from;
    && start <= stop <= |meaning.log|
    && Into(meaning.log, start, stop, cap, taken, bytes, Fit(meaning.log, start, stop, cap, MAX_EVENT_BYTES))
    && events == Rows(meaning, start, start + taken)
  }

  lemma PageStep(rows: seq<Row>, ranges: seq<AckRange>, meaning: Stream, from: nat, stop: nat, cap: nat,
                 events: seq<Delivered>, taken: nat, bytes: int)
    requires meaning.Valid() && AllStored(rows, meaning.floor, meaning, ranges) && from + taken < |rows|
    requires Paged(meaning, from, stop, cap, events, taken, bytes) && taken < cap && rows[from + taken].sequence < stop
    ensures var row := rows[from + taken];
            var start := meaning.floor + 1 + from;
            if bytes + row.event.bytes > MAX_EVENT_BYTES
            then Fit(meaning.log, start, stop, cap, MAX_EVENT_BYTES) == taken
            else Paged(meaning, from, stop, cap, events + [Delivered(row.sequence, row.event, AckTime(row, ranges))],
                       taken + 1, bytes + row.event.bytes)
  {
    var start := meaning.floor + 1 + from;
    RowIsStored(rows, ranges, from + taken, meaning);
    OneFurther(meaning.log, start, stop, cap, taken, bytes, Fit(meaning.log, start, stop, cap, MAX_EVENT_BYTES));
    RowsExtend(meaning, start, start + taken);
  }

  /** The longest run of rows from `from` on that fits the row bound and the byte bound. */
  method TakePage(rows: seq<Row>, ranges: seq<AckRange>, from: nat, through: int, rowCap: nat, ghost meaning: Stream)
    returns (events: seq<Delivered>)
    requires meaning.Valid() && AllStored(rows, meaning.floor, meaning, ranges)
    requires meaning.floor + 1 + |rows| == |meaning.log|
    requires from < |rows| && rows[from].sequence <= through
    ensures var start := meaning.floor + 1 + from;
            var stop := Min(through + 1, |meaning.log|);
            && start <= stop
            && events == Rows(meaning, start, start + Fit(meaning.log, start, stop, rowCap, MAX_EVENT_BYTES))
  {
    ghost var stop := Min(through + 1, |meaning.log|);
    RowIsStored(rows, ranges, from, meaning);
    events := [];
    var bytes, taken := 0, 0;
    while from + taken < |rows| && rows[from + taken].sequence <= through && taken < rowCap
      invariant 0 <= taken <= |rows| - from
      invariant Paged(meaning, from, stop, rowCap, events, taken, bytes)
    {
      var row := rows[from + taken];
      RowIsStored(rows, ranges, from + taken, meaning);
      PageStep(rows, ranges, meaning, from, stop, rowCap, events, taken, bytes);
      if bytes + row.event.bytes > MAX_EVENT_BYTES {
        return;
      }
      bytes := bytes + row.event.bytes;
      events := events + [Delivered(row.sequence, row.event, AckTime(row, ranges))];
      taken := taken + 1;
    }
    if from + taken < |rows| {
      RowIsStored(rows, ranges, from + taken, meaning);
    }
  }

  /** One byte-bounded replay page. */
  method ReadPage(rows: seq<Row>, ranges: seq<AckRange>, after: int, through: int, limit: int, ghost meaning: Stream)
    returns (events: seq<Delivered>)
    requires meaning.Valid() && AllStored(rows, meaning.floor, meaning, ranges)
    requires meaning.floor + 1 + |rows| == |meaning.log|
    requires ValidLimit(limit) && -1 <= after
    ensures events == Page(meaning, after, through, limit)
  {
    var from := Seek(rows, after, meaning, ranges);
    if from == |rows| || rows[from].sequence > through {
      SequencesAscend(rows, meaning.floor, meaning, ranges);
      return [];
    }
    assert rows[from].sequence == Max(after, meaning.floor) + 1;
    events := TakePage(rows, ranges, from, through, Min(limit, REPLAY_PAGE_ROWS), meaning);
  }

  /** The row is acknowledged, and old enough if age matters. */
  predicate RowPrunable(row: Row, ranges: seq<AckRange>, cutoff: Option<Time>) {
    AckTime(row, ranges).Some? && (cutoff.None? || AckTime(row, ranges).value < cutoff.value)
  }

  /** As long as no kept row has been passed, the next one is kept exactly if it may not be deleted. */
  lemma RowIsKeptIff(rows: seq<Row>, ranges: seq<AckRange>, k: nat, cutoff: Option<Time>, meaning: Stream)
    requires meaning.Valid() && AllStored(rows, meaning.floor, meaning, ranges) && k < |rows|
    requires meaning.floor + 1 + k <= FirstKept(meaning, meaning.floor + 1, cutoff)
    ensures var i := meaning.floor + 1 + k;
            && i < |meaning.log| && rows[k].event == meaning.log[i]
            && (FirstKept(meaning, meaning.floor + 1, cutoff) == i <==> !RowPrunable(rows[k], ranges, cutoff))
  {
    RowIsStored(rows, ranges, k, meaning);
    assert Prunable(meaning, meaning.floor + 1 + k, cutoff) <==> RowPrunable(rows[k], ranges, cutoff);
  }

  /** So many rows and bytes of the page have been found deletable. */
  ghost predicate Walked(meaning: Stream, cutoff: Option<Time>, count: nat, bytes: int)
    requires meaning.Valid()
  {
    var first := meaning.floor + 1;
    var stop := FirstKept(meaning, first, cutoff);
    Into(meaning.log, first, stop, PRUNE_PAGE_ROWS, count, bytes, PruneCount(meaning, cutoff))
  }

  lemma WalkStep(rows: seq<Row>, ranges: seq<AckRange>, cutoff: Option<Time>, meaning: Stream, count: nat, bytes: int)
    requires meaning.Valid() && AllStored(rows, meaning.floor, meaning, ranges)
    requires Walked(meaning, cutoff, count, bytes) && count < |rows| && count < PRUNE_PAGE_ROWS
    ensures var size := rows[count].event.bytes;
            if !RowPrunable(rows[count], ranges, cutoff) || bytes + size > MAX_EVENT_BYTES
            then PruneCount(meaning, cutoff) == count
            else Walked(meaning, cutoff, count + 1, bytes + size)
  {
    var first := meaning.floor + 1;
    var stop := FirstKept(meaning, first, cutoff);
    RowIsKeptIff(rows, ranges, count, cutoff, meaning);
    if first + count < stop {
      OneFurther(meaning.log, first, stop, PRUNE_PAGE_ROWS, count, bytes, PruneCount(meaning, cutoff));
    }
  }

  lemma WalkEnds(rows: seq<Row>, cutoff: Option<Time>, meaning: Stream, count: nat, bytes: int)
    requires meaning.Valid() && meaning.floor + 1 + |rows| == |meaning.log|
    requires Walked(meaning, cutoff, count, bytes) && (count == |rows| || count == PRUNE_PAGE_ROWS)
    ensures PruneCount(meaning, cutoff) == count
  {
  }

  /** The prefix of one bounded page that may be deleted. */
  method WalkPrunable(rows: seq<Row>, ranges: seq<AckRange>, cutoff: Option<Time>, ghost meaning: Stream)
    returns (count: nat)
    requires meaning.Valid() && AllStored(rows, meaning.floor, meaning, ranges)
    requires meaning.floor + 1 + |rows| == |meaning.log|
    ensures count == PruneCount(meaning, cutoff) <= |rows|
  {
    var bytes := 0;
    count := 0;
    var cap := if |rows| < PRUNE_PAGE_ROWS then |rows| else PRUNE_PAGE_ROWS;
    while count < cap
      invariant 0 <= count <= cap && Walked(meaning, cutoff, count, bytes)
    {
      var row := rows[count];
      WalkStep(rows, ranges, cutoff, meaning, count, bytes);
      if !RowPrunable(row, ranges, cutoff) || bytes + row.event.bytes > MAX_EVENT_BYTES {
        return;
      }
      bytes := bytes + row.event.bytes;
      count := count + 1;
    }
    WalkEnds(rows, cutoff, meaning, count, bytes);
  }

  class EventOutbox {
    var rows: seq<Row>
    var next: nat
    var acked: Option<nat>
    var floor: Option<nat>
    var ranges: seq<AckRange>
    var budget: Budget
    ghost var meaning: Stream

    ghost predicate Balanced()
      reads this
    {
      Balances(budget, rows, 0, Int(acked))
    }

    ghost predicate Valid()
      reads this
    {
      Implements(rows, next, acked, floor, ranges, meaning) && Balanced()
    }

    ghost predicate AuditHolds()
      reads this
    {
      Audited(rows, next, acked, floor, ranges, budget)
    }

    /** In every reachable state the audit holds, unless the stream has used its last sequence. */
    lemma ValidPassesAudit()
      requires Valid()
      ensures AuditHolds() <==> meaning.Readable()
    {
      forall i | 0 <= i < |rows|
        ensures rows[i].sequence == Int(floor) + 1 + i
        ensures rows[i].event.bytes <= MAX_EVENT_BYTES
        ensures rows[i].sequence <= Int(acked) <==> AckTime(rows[i], ranges).Some?
      {
        assert Stored(rows[i], Int(floor) + 1 + i, meaning, ranges);
      }
    }

    constructor ()
      ensures Valid() && meaning == EMPTY
    {
      rows, next, acked, floor, ranges := [], 0, None, None, [];
      budget := Budget(NO_USAGE, NO_USAGE, NO_USAGE);
      meaning := EMPTY;
    }

    /** Reopen stored tables: any audited state is the meaning of some stream. */
    constructor Load(rows: seq<Row>, next: nat, acked: Option<nat>, floor: Option<nat>, ranges: seq<AckRange>,
                     budget: Budget)
      requires Audited(rows, next, acked, floor, ranges, budget) && KeysAscend(ranges, Int(acked))
      ensures Valid() && AuditHolds()
      ensures this.rows == rows && this.next == next && this.acked == acked && this.floor == floor
      ensures this.ranges == ranges && this.budget == budget
    {
      this.rows, this.next, this.acked, this.floor := rows, next, acked, floor;
      this.ranges, this.budget := ranges, budget;
      meaning := MeaningOf(rows, acked, floor, ranges);
      AuditedImplements(rows, next, acked, floor, ranges, budget);
    }

    /** The startup audit, run over whatever the tables hold. */
    method Audit() returns (r: Result<(), StreamError>)
      ensures r.Ok? <==> AuditHolds()
    {
      BalancesByPartition(budget, rows, Int(acked));
      var n := 0;
      while n < 3
        invariant 0 <= n <= 3
        invariant forall m :: 0 <= m < n ==>
                    budget.Of(PARTITIONS[m]) == PartitionUsage(rows, |rows|, Int(acked), PARTITIONS[m])
      {
        var total := CountPartition(PARTITIONS[n]);
        if budget.Of(PARTITIONS[n]) != total {
          assert PARTITIONS[n] in [Regular, Control, Emergency];
          return Err(StreamCorrupt);
        }
        n := n + 1;
      }
      assert PARTITIONS[0] == Regular && PARTITIONS[1] == Control && PARTITIONS[2] == Emergency;
      if next > MAX_SEQUENCE {
        return Err(SequenceUnreadable);
      }
      if Int(floor) > Int(acked) || Int(acked) >= next {
        return Err(StreamCorrupt);
      }
      var expected := Int(floor) + 1;
      var i := 0;
      while i < |rows|
        invariant 0 <= i <= |rows|
        invariant expected == Int(floor) + 1 + i
        invariant forall j :: 0 <= j < i ==> rows[j].sequence == Int(floor) + 1 + j < next
        invariant forall j :: 0 <= j < i ==> rows[j].event.bytes <= MAX_EVENT_BYTES
        invariant forall j :: 0 <= j < i ==> (rows[j].sequence <= Int(acked) <==> AckTime(rows[j], ranges).Some?)
      {
        var row := rows[i];
        if row.event.bytes > MAX_EVENT_BYTES {
          return Err(StreamCorrupt);
        }
        if row.sequence != expected || row.sequence >= next {
          return Err(StreamCorrupt);
        }
        if (row.sequence <= Int(acked)) != AckTime(row, ranges).Some? {
          return Err(StreamCorrupt);
        }
        expected := expected + 1;
        i := i + 1;
      }
      if expected != next {
        return Err(StreamCorrupt);
      }
      return Ok(());
    }

    method CountPartition(p: Partition) returns (total: Usage)
      ensures total == PartitionUsage(rows, |rows|, Int(acked), p)
    {
      var count, bytes, pendingCount, pendingBytes: int := 0, 0, 0, 0;
      var i := 0;
      while i < |rows|
        invariant 0 <= i <= |rows|
        invariant count == Recount(rows, 0, i, Int(acked), p, RetainedCount)
        invariant bytes == Recount(rows, 0, i, Int(acked), p, RetainedBytes)
        invariant pendingCount == Recount(rows, 0, i, Int(acked), p, PendingCount)
        invariant pendingBytes == Recount(rows, 0, i, Int(acked), p, PendingBytes)
      {
        if rows[i].event.partition == p {
          count := count + 1;
          bytes := bytes + rows[i].event.bytes;
          if rows[i].sequence > Int(acked) {
            pendingCount := pendingCount + 1;
            pendingBytes := pendingBytes + rows[i].event.bytes;
          }
        }
        i := i + 1;
      }
      return Usage(count, bytes, pendingCount, pendingBytes);
    }

    // -------------------------------------------------------------- append

    method AppendRuntimeEvents(drafts: seq<Draft>) returns (r: Result<seq<nat>, StreamError>)
      requires Valid()
      modifies this
      ensures Valid()
      ensures var spec := Append(old(meaning), drafts);
              && (r.Ok? <==> spec.Ok?)
              && meaning == (if spec.Ok? then spec.value else old(meaning))
              && (spec.Err? ==> r == Err(spec.error))
      ensures r.Ok? ==> |r.value| == |drafts| && forall i :: 0 <= i < |drafts| ==> r.value[i] == old(next) + i
      ensures r.Err? ==> unchanged(this)
      ensures ranges == old(ranges) && acked == old(acked) && floor == old(floor)
    {
      if !(1 <= |drafts| <= 2) {
        return Err(BadBatch);
      }
      if |drafts| == 2 {
        r := AppendPair(drafts[0], drafts[1]);
        return;
      }
      var first := AppendOneRow(drafts[0]);
      return if first.Err? then Err(first.error) else Ok([first.value]);
    }

    /** A frame pair: the second failing rolls the first back. */
    method AppendPair(d0: Draft, d1: Draft) returns (r: Result<seq<nat>, StreamError>)
      requires Valid()
      modifies this`rows, this`next, this`budget, this`meaning
      ensures Valid()
      ensures var one := AppendOne(old(meaning), d0);
              var two := if one.Ok? then AppendOne(one.value, d1) else one;
              && (two.Ok? ==> r == Ok([old(next), old(next) + 1]) && meaning == two.value)
              && (two.Err? ==> r == Err(two.error) && unchanged(this))
    {
      var savedRows, savedNext, savedBudget := rows, next, budget;
      ghost var savedMeaning := meaning;
      var first := AppendOneRow(d0);
      if first.Err? {
        return Err(first.error);
      }
      var second := AppendOneRow(d1);
      if second.Err? {
        rows, next, budget, meaning := savedRows, savedNext, savedBudget, savedMeaning;
        return Err(second.error);
      }
      return Ok([first.value, second.value]);
    }

    method AppendOneRow(d: Draft) returns (r: Result<nat, StreamError>)
      requires Valid()
      modifies this`rows, this`next, this`budget, this`meaning
      ensures Valid()
      ensures AppendOne(old(meaning), d).Ok? ==>
                r == Ok(old(next)) && meaning == AppendOne(old(meaning), d).value
      ensures AppendOne(old(meaning), d).Err? ==>
                r == Err(AppendOne(old(meaning), d).error) && unchanged(this)
    {
      if next > MAX_SEQUENCE {
        return Err(SequenceUnreadable);
      }
      if d.bytes > MAX_EVENT_BYTES {
        return Err(EventTooLarge);
      }
      if d.spend.None? {
        return Err(CapacityRefused);
      }
      var sequence := next;
      var row := Row(sequence, ToEvent(d), None);
      AppendedRowIsStored(rows, Int(floor), meaning, ranges, d);
      InsertTrigger(row);
      BalancesAppended(old(budget), budget, rows, rows + [row], Int(acked));
      rows := rows + [row];
      next := sequence + 1;
      meaning := AppendOne(meaning, d).value;
      return Ok(sequence);
    }

    /** The insert trigger: a new row is retained and unacknowledged. */
    method InsertTrigger(row: Row)
      requires row.sequence > Int(acked)
      modifies this`budget
      ensures Shifted(old(budget), budget, row, Int(acked))
    {
      var p := row.event.partition;
      var u := budget.Of(p);
      budget := budget.With(p, Usage(u.retainedCount + 1, u.retainedBytes + row.event.bytes,
                                     u.pendingCount + 1, u.pendingBytes + row.event.bytes));
    }

    /** The delete trigger: a row past the watermark also leaves the unacknowledged counters. */
    method DeleteTrigger(row: Row)
      modifies this`budget
      ensures Shifted(budget, old(budget), row, Int(acked))
    {
      var p := row.event.partition;
      var u := budget.Of(p);
      var pendingRows, pendingBytes: int := 0, 0;
      if row.sequence > Int(acked) {
        pendingRows, pendingBytes := 1, row.event.bytes;
      }
      budget := budget.With(p, Usage(u.retainedCount - 1, u.retainedBytes - row.event.bytes,
                                     u.pendingCount - pendingRows, u.pendingBytes - pendingBytes));
    }

    // ----------------------------------------------------------------- ack

    method AckRuntimeEvents(known: bool, through: Sequence, at: Time) returns (r: Result<int, StreamError>)
      requires Valid()
      modifies this
      ensures Valid()
      ensures !known ==> r == Err(StreamIdentityConflict) && unchanged(this)
      ensures known ==> r == Ack(old(meaning), through, at).1 && meaning == Ack(old(meaning), through, at).0
      ensures r.Err? ==> unchanged(this)
      ensures rows == old(rows) && next == old(next) && floor == old(floor)
    {
      if !known {
        return Err(StreamIdentityConflict);
      }
      if next > MAX_SEQUENCE {
        return Err(SequenceUnreadable);
      }
      var acknowledged := Int(acked);
      if through <= acknowledged {
        return Ok(acknowledged);
      }
      if through >= next {
        return Err(AckBeyondEmitted);
      }
      var expected := acknowledged + 1;
      var i := 0;
      while i < |rows|
        invariant 0 <= i <= |rows|
        invariant expected == Max(acknowledged + 1, Min(Int(floor) + 1 + i, through + 1))
      {
        assert Stored(rows[i], Int(floor) + 1 + i, meaning, ranges);
        var sequence := rows[i].sequence;
        if acknowledged < sequence <= through {
          if sequence != expected {
            return Err(AckNotContiguous);
          }
          expected := expected + 1;
        }
        i := i + 1;
      }
      if expected != through + 1 {
        return Err(AckNotContiguous);
      }
      acked := Some(through);
      RecordAck(acknowledged, through, at);
      AckedRowsAreStored(rows, Int(floor), meaning, old(ranges), through, at);
      meaning := Ack(meaning, through, at).0;
      return Ok(through);
    }

    /** Subtract each partition's total over the range, then insert one range row. */
    method RecordAck(acknowledged: int, through: nat, at: Time)
      requires -1 <= acknowledged < through && acked == Some(through)
      requires Balances(budget, rows, 0, acknowledged)
      modifies this`budget, this`ranges
      ensures Balanced()
      ensures ranges == old(ranges) + [AckRange(acknowledged + 1, through, at)]
    {
      var n := 0;
      while n < 3
        invariant 0 <= n <= 3
        invariant ranges == old(ranges)
        invariant forall p: Partition, c: Column ::
                    budget.At(p, c) == Recount(rows, 0, |rows|, if Position(p) < n then through else acknowledged, p, c)
      {
        var p := PARTITIONS[n];
        SubtractRange(p, acknowledged, through);
        n := n + 1;
      }
      ranges := ranges + [AckRange(acknowledged + 1, through, at)];
    }

    method SubtractRange(p: Partition, acknowledged: int, through: nat)
      requires acknowledged < through
      requires forall c: Column :: budget.At(p, c) == Recount(rows, 0, |rows|, acknowledged, p, c)
      modifies this`budget
      ensures forall c: Column :: budget.At(p, c) == Recount(rows, 0, |rows|, through, p, c)
      ensures forall q: Partition, c: Column :: q != p ==> budget.At(q, c) == old(budget).At(q, c)
    {
      var count, bytes := 0, 0;
      var i := 0;
      while i < |rows|
        invariant 0 <= i <= |rows|
        invariant count == RangeTotal(rows, i, acknowledged + 1, through, p, false)
        invariant bytes == RangeTotal(rows, i, acknowledged + 1, through, p, true)
      {
        var row := rows[i];
        if row.event.partition == p && acknowledged + 1 <= row.sequence <= through {
          count := count + 1;
          bytes := bytes + row.event.bytes;
        }
        i := i + 1;
      }
      var u := budget.Of(p);
      budget := budget.With(p, Usage(u.retainedCount, u.retainedBytes, u.pendingCount - count, u.pendingBytes - bytes));
      forall c: Column ensures budget.At(p, c) == Recount(rows, 0, |rows|, through, p, c) {
        RecountAfterAck(rows, |rows|, acknowledged, through, p, c);
        assert old(budget).At(p, c) == Recount(rows, 0, |rows|, acknowledged, p, c);
      }
    }

    // --------------------------------------------------------------- prune

    method PruneAcknowledgedRuntimeEvents(cutoff: Option<Time>) returns (count: nat)
      requires Valid()
      modifies this
      ensures Valid()
      ensures meaning == Prune(old(meaning), cutoff)
      ensures count == PruneCount(old(meaning), cutoff)
      ensures rows == old(rows)[count..]
      ensures next == old(next) && acked == old(acked)
      ensures if count > 0 then Compacted(old(ranges), ranges, Int(floor)) else ranges == old(ranges)
    {
      count := WalkPrunable(rows, ranges, cutoff, meaning);
      if count > 0 {
        CommitPrune(count, cutoff);
      }
    }

    /** Move the floor to the last row of the page, delete the rows and the ranges it has passed. */
    method CommitPrune(count: nat, ghost cutoff: Option<Time>)
      requires Valid() && 0 < count == PruneCount(meaning, cutoff) <= |rows|
      modifies this
      ensures Valid() && meaning == Prune(old(meaning), cutoff)
      ensures rows == old(rows)[count..] && next == old(next) && acked == old(acked)
      ensures Compacted(old(ranges), ranges, Int(floor))
    {
      PrunedTables(rows, next, acked, floor, ranges, meaning, count, cutoff);
      SequencesAscend(rows, Int(floor), meaning, ranges);
      var last := rows[count - 1].sequence;
      PassedAreDeleted(ranges, Int(acked), last);
      DeleteThrough(last, count);
      floor := Some(last);
      ranges := ranges[PassedRanges(ranges, last)..];
      meaning := Prune(meaning, cutoff);
    }

    /** Delete every row up to a key, one delete-trigger call per row. */
    method DeleteThrough(last: nat, ghost count: nat)
      requires 0 < count <= |rows| && last == Int(floor) + count
      requires forall i :: 0 <= i < |rows| ==> rows[i].sequence == Int(floor) + 1 + i
      requires Balanced()
      modifies this`rows, this`budget
      ensures rows == old(rows)[count..]
      ensures Balanced()
    {
      var i := 0;
      while i < |rows| && rows[i].sequence <= last
        invariant 0 <= i <= count && rows == old(rows)
        invariant Balances(budget, rows, i, Int(acked))
      {
        ghost var before := budget;
        DeleteTrigger(rows[i]);
        BalancesWithoutFirst(before, budget, rows, i, Int(acked));
        i := i + 1;
      }
      BalancesDropped(budget, rows, i, Int(acked));
      rows := rows[i..];
    }

    // -------------------------------------------------------------- replay

    method RuntimeEventsAfter(known: bool, cursor: Option<Sequence>, limit: int)
      returns (r: Result<seq<Delivered>, StreamError>)
      requires Valid()
      ensures r == if known then EventsAfter(meaning, cursor, limit) else Err(StreamIdentityConflict)
    {
      if !known {
        return Err(StreamIdentityConflict);
      }
      if floor.Some? && cursor.Some? && cursor.value < floor.value {
        return Err(ReplayFloorExceeded);
      }
      if !ValidLimit(limit) {
        return Err(BadLimit);
      }
      var events := ReadPage(rows, ranges, if cursor.Some? then cursor.value else -1, next, limit, meaning);
      return Ok(events);
    }

    method RuntimeEventsInRange(known: bool, after: Sequence, through: Sequence, limit: int) returns (page: SpanPage)
      requires Valid()
      ensures page == Span(meaning, known, after, through, limit)
    {
      if !known {
        return Unavailable(StreamIdentityChanged);
      }
      if next > MAX_SEQUENCE {
        return Failed(SequenceUnreadable);
      }
      if through >= next {
        return Unavailable(BeyondEmitted);
      }
      if floor.Some? && after < floor.value {
        return Unavailable(ReplayFloorLost);
      }
      if !ValidLimit(limit) {
        return Failed(BadLimit);
      }
      var events := ReadPage(rows, ranges, after, through, limit, meaning);
      PageIsSpan(meaning, after, through, limit);
      if events == [] {
        return Failed(StreamCorrupt);
      }
      var last := events[|events| - 1].sequence;
      if last == through {
        return Complete(events);
      }
      return Partial(last, events);
    }
  }

  /** One request, restarts included, through the tables. */
  method Perform(outbox: EventOutbox, op: Op)
    requires outbox.Valid()
    modifies outbox
    ensures outbox.Valid() && outbox.meaning == Step(old(outbox.meaning), op)
  {
    match op {
      case DoAppend(drafts) => var _ := outbox.AppendRuntimeEvents(drafts);
      case DoAck(through, at) => var _ := outbox.AckRuntimeEvents(true, through, at);
      case DoPrune(cutoff) => var _ := outbox.PruneAcknowledgedRuntimeEvents(cutoff);
      case DoRestart => var _ := outbox.Audit();
    }
  }

  /** Every run of the tables means the same run of the stream, and its end passes the audit. */
  method Simulate(ops: seq<Op>) returns (outbox: EventOutbox)
    ensures fresh(outbox) && outbox.Valid()
    ensures outbox.meaning == Run(EMPTY, ops)
    ensures outbox.AuditHolds() <==> Run(EMPTY, ops).Readable()
  {
    outbox := new EventOutbox();
    var i := 0;
    while i < |ops|
      invariant 0 <= i <= |ops|
      invariant fresh(outbox) && outbox.Valid()
      invariant Run(EMPTY, ops) == Run(outbox.meaning, ops[i..])
    {
      assert ops[i..][1..] == ops[i + 1..];
      Perform(outbox, ops[i]);
      i := i + 1;
    }
    outbox.ValidPassesAudit();
  }
}
