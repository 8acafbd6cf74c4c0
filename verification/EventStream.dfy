/**
 The meaning of the durable event stream, free of tables and counters: everything ever emitted,
 when each event was acknowledged, the acknowledgement watermark and the replay floor.
 The tables of `Outbox` are proved to implement it.
 */
module EventStream {
  import opened Wrappers
  import opened SortKeys
  import Decimal

  const MAX_EVENT_BYTES: nat := 1_048_576
  const PRUNE_PAGE_ROWS: nat := 100
  const REPLAY_PAGE_ROWS: nat := 500
  const MAX_REPLAY_LIMIT: nat := 50_000

  type Time = int
  type EventSize = n: nat | n >= 1 witness 1
  type Sequence = n: nat | n <= MAX_SEQUENCE

  datatype Partition = Regular | Control | Emergency

  datatype Event = Event(id: string, partition: Partition, bytes: EventSize)

  /** `spend` is the answer of the capacity rules: the partition charged, or a refusal. */
  datatype Draft = Draft(id: string, bytes: EventSize, spend: Option<Partition>)

  datatype StreamError =
    | BadBatch
    | SequenceUnreadable
    | EventTooLarge
    | CapacityRefused
    | StreamIdentityConflict
    | AckBeyondEmitted
    | AckNotContiguous
    | ReplayFloorExceeded
    | StreamCorrupt
    | BadLimit

  /** `stamps[i]` is the time at which event `i` was acknowledged. */
  datatype Stream = Stream(log: seq<Event>, stamps: seq<Option<Time>>, acked: int, floor: int) {

    ghost predicate Valid() {
      && -1 <= floor <= acked < |log|
      && |log| <= MAX_SEQUENCE + 1
      && |stamps| == |log|
      && (forall i :: 0 <= i < |log| ==> log[i].bytes <= MAX_EVENT_BYTES)
      && (forall i :: 0 <= i < |log| ==> (stamps[i].Some? <==> i <= acked))
    }

    /** The stored `next_sequence` can be read back. */
    predicate Readable() {
      |log| <= MAX_SEQUENCE
    }
  }

  const EMPTY := Stream([], [], -1, -1)

  // ---------------------------------------------------------------- append

  function ToEvent(d: Draft): Event
    requires d.spend.Some?
  {
    Event(d.id, d.spend.value, d.bytes)
  }

  predicate Appendable(d: Draft) {
    d.bytes <= MAX_EVENT_BYTES && d.spend.Some?
  }

  function AppendOne(s: Stream, d: Draft): (r: Result<Stream, StreamError>) {
    if !s.Readable() then Err(SequenceUnreadable)
    else if d.bytes > MAX_EVENT_BYTES then Err(EventTooLarge)
    else if d.spend.None? then Err(CapacityRefused)
    else Ok(s.(log := s.log + [ToEvent(d)], stamps := s.stamps + [None]))
  }

  /** One transaction holds one event or one frame pair. */
  function Append(s: Stream, drafts: seq<Draft>): (r: Result<Stream, StreamError>) {
    if !(1 <= |drafts| <= 2) then Err(BadBatch)
    else
      var first := AppendOne(s, drafts[0]);
      if first.Err? || |drafts| == 1 then first else AppendOne(first.value, drafts[1])
  }

  function Emitted(drafts: seq<Draft>): (events: seq<Event>)
    requires forall i :: 0 <= i < |drafts| ==> Appendable(drafts[i])
  {
    seq(|drafts|, i requires 0 <= i < |drafts| && Appendable(drafts[i]) => ToEvent(drafts[i]))
  }

  function Unacknowledged(k: nat): seq<Option<Time>> {
    seq(k, _ => None)
  }

  /** A batch is appended whole, in order and unacknowledged, or not at all. */
  lemma AppendEffect(s: Stream, drafts: seq<Draft>)
    requires s.Valid()
    ensures Append(s, drafts).Ok? <==>
            && 1 <= |drafts| <= 2
            && (forall i :: 0 <= i < |drafts| ==> Appendable(drafts[i]))
            && |s.log| + |drafts| <= MAX_SEQUENCE + 1
    ensures Append(s, drafts).Ok? ==>
              Append(s, drafts).value ==
                Stream(s.log + Emitted(drafts), s.stamps + Unacknowledged(|drafts|), s.acked, s.floor)
    ensures Append(s, drafts).Ok? ==> Append(s, drafts).value.Valid()
    ensures Append(s, drafts).Ok? ==>
              forall i :: 0 <= i < |drafts| ==>
                var e := Append(s, drafts).value.log[|s.log| + i];
                && e.id == drafts[i].id && e.bytes == drafts[i].bytes <= 1_048_576
                && drafts[i].spend == Some(e.partition) && Append(s, drafts).value.stamps[|s.log| + i].None?
  {
    if |drafts| == 1 {
      if Append(s, drafts).Ok? {
        assert Emitted(drafts) == [ToEvent(drafts[0])];
        assert Unacknowledged(1) == [None];
      }
    } else if |drafts| == 2 {
      if Append(s, drafts).Ok? {
        assert Emitted(drafts) == [ToEvent(drafts[0])] + [ToEvent(drafts[1])];
        assert Unacknowledged(2) == Unacknowledged(1) + [None];
        assert Unacknowledged(1) == [None];
      }
    }
  }

  // ------------------------------------------------------------------- ack

  function StampThrough(s: Stream, through: int, at: Time): (stamps: seq<Option<Time>>)
    requires |s.stamps| == |s.log|
  {
    seq(|s.log|, i requires 0 <= i < |s.log| => if s.acked < i <= through then Some(at) else s.stamps[i])
  }

  /** The stream after the request, and what the caller is told. */
  function Ack(s: Stream, through: Sequence, at: Time): (r: (Stream, Result<int, StreamError>))
    requires s.Valid()
    ensures r.0.Valid()
  {
    if !s.Readable() then (s, Err(SequenceUnreadable))
    else if through <= s.acked then (s, Ok(s.acked))
    else if through >= |s.log| then (s, Err(AckBeyondEmitted))
    else (s.(stamps := StampThrough(s, through, at), acked := through), Ok(through))
  }

  /**
   A request stamps exactly what it newly acknowledges; repeating it, or asking for less, changes
   nothing and is told the present watermark.
   */
  lemma AckEffect(s: Stream, through: Sequence, at: Time, later: Time)
    requires s.Valid()
    ensures var t, r := Ack(s, through, at).0, Ack(s, through, at).1;
            && (r.Ok? <==> s.Readable() && (through <= s.acked || through < |s.log|))
            && (r.Ok? ==> r.value == t.acked && t.acked == if through <= s.acked then s.acked else through)
            && (r.Err? ==> t == s && r.error == if |s.log| > MAX_SEQUENCE then SequenceUnreadable else AckBeyondEmitted)
            && t.log == s.log && t.floor == s.floor
            && (forall i :: 0 <= i < |s.log| ==>
                t.stamps[i] == if s.acked < i <= t.acked then Some(at) else s.stamps[i])
            && Ack(t, through, later) == (t, if r.Ok? then Ok(t.acked) else r)
  {
  }

  // ----------------------------------------------- bounded runs of the log

  function Bytes(log: seq<Event>, i: nat, j: nat): nat
    requires i <= j <= |log|
  {
    if i == j then 0 else Bytes(log, i, j - 1) + log[j - 1].bytes
  }

  lemma {:induction false} BytesFromFront(log: seq<Event>, i: nat, j: nat)
    requires i < j <= |log|
    ensures Bytes(log, i, j) == log[i].bytes + Bytes(log, i + 1, j)
  {
    if i + 1 < j {
      BytesFromFront(log, i, j - 1);
    }
  }

  /** How many events from `i` on, below `stop`, fit a row bound and a byte bound. */
  function Fit(log: seq<Event>, i: nat, stop: nat, rows: nat, bytes: nat): (k: nat)
    requires i <= stop <= |log|
    ensures i + k <= stop && k <= rows
    decreases stop - i
  {
    if i == stop || rows == 0 || log[i].bytes > bytes then 0
    else 1 + Fit(log, i + 1, stop, rows - 1, bytes - log[i].bytes)
  }

  /** `Fit` is the longest such run. */
  lemma {:induction false} FitIsLongest(log: seq<Event>, i: nat, stop: nat, rows: nat, bytes: nat)
    requires i <= stop <= |log|
    ensures var k := Fit(log, i, stop, rows, bytes);
            && Bytes(log, i, i + k) <= bytes
            && (k == rows || i + k == stop || Bytes(log, i, i + k + 1) > bytes)
    ensures i < stop && rows > 0 && log[i].bytes <= bytes ==> Fit(log, i, stop, rows, bytes) >= 1
    decreases stop - i
  {
    if i == stop || rows == 0 {
    } else if log[i].bytes > bytes {
      assert Bytes(log, i, i + 1) == Bytes(log, i, i) + log[i].bytes;
    } else {
      FitIsLongest(log, i + 1, stop, rows - 1, bytes - log[i].bytes);
      var k := Fit(log, i, stop, rows, bytes);
      BytesFromFront(log, i, i + k);
      if i + k < stop {
        BytesFromFront(log, i, i + k + 1);
      }
    }
  }

  // ----------------------------------------------------------------- prune

  /** Retained-pressure mode has no cutoff: every acknowledged event is eligible. */
  predicate Prunable(s: Stream, i: int, cutoff: Option<Time>) {
    0 <= i <= s.acked && i < |s.stamps| && s.stamps[i].Some? && (cutoff.None? || s.stamps[i].value < cutoff.value)
  }

  /** The first position from `i` on that may not be deleted. */
  function FirstKept(s: Stream, i: nat, cutoff: Option<Time>): (j: nat)
    requires s.Valid() && i <= |s.log|
    ensures i <= j <= |s.log|
    ensures forall k :: i <= k < j ==> Prunable(s, k, cutoff)
    ensures j == |s.log| || !Prunable(s, j, cutoff)
    decreases |s.log| - i
  {
    if i == |s.log| || !Prunable(s, i, cutoff) then i else FirstKept(s, i + 1, cutoff)
  }

  function PruneCount(s: Stream, cutoff: Option<Time>): (k: nat)
    requires s.Valid()
    ensures s.floor + k <= s.acked
  {
    var i := s.floor + 1;
    var stop := FirstKept(s, i, cutoff);
    assert stop > i ==> Prunable(s, stop - 1, cutoff);
    Fit(s.log, i, stop, PRUNE_PAGE_ROWS, MAX_EVENT_BYTES)
  }

  function Prune(s: Stream, cutoff: Option<Time>): (t: Stream)
    requires s.Valid()
    ensures t.Valid()
  {
    s.(floor := s.floor + PruneCount(s, cutoff))
  }

  /** The event is not acknowledged, or not long enough ago. */
  ghost predicate Held(s: Stream, i: int, cutoff: Option<Time>)
    requires s.Valid() && 0 <= i
  {
    i > s.acked || (cutoff.Some? && s.stamps[i].value >= cutoff.value)
  }

  /**
   A prune page moves the floor over the longest run of events that are acknowledged, and long enough ago if
   there is a cutoff, within 100 rows and 1 MiB: it stops only at these bounds or at an event that is held.
   */
  lemma PruneStops(s: Stream, cutoff: Option<Time>)
    requires s.Valid()
    ensures Prune(s, cutoff) == s.(floor := s.floor + PruneCount(s, cutoff))
    ensures PruneCount(s, cutoff) <= 100
    ensures forall j :: s.floor < j <= s.floor + PruneCount(s, cutoff) ==> !Held(s, j, cutoff)
    ensures Bytes(s.log, s.floor + 1, s.floor + 1 + PruneCount(s, cutoff)) <= 1_048_576
    ensures var end := s.floor + 1 + PruneCount(s, cutoff);
            PruneCount(s, cutoff) == 100 || Held(s, end, cutoff) || Bytes(s.log, s.floor + 1, end + 1) > 1_048_576
    ensures PruneCount(s, cutoff) == 0 <==> Held(s, s.floor + 1, cutoff)
  {
    var i := s.floor + 1;
    var stop := FirstKept(s, i, cutoff);
    FitIsLongest(s.log, i, stop, PRUNE_PAGE_ROWS, MAX_EVENT_BYTES);
    var k := PruneCount(s, cutoff);
    forall j | i <= j < i + k
      ensures !Held(s, j, cutoff)
    {
      assert Prunable(s, j, cutoff);
    }
    if i + k == stop && stop < |s.log| {
      assert !Prunable(s, stop, cutoff);
    }
    if !Held(s, i, cutoff) {
      assert Prunable(s, i, cutoff) && s.log[i].bytes <= MAX_EVENT_BYTES;
    }
  }

  // ------------------------------------------------------------------ runs

  datatype Op =
    | DoAppend(drafts: seq<Draft>)
    | DoAck(through: Sequence, at: Time)
    | DoPrune(cutoff: Option<Time>)
    | DoRestart

  /** A refused request changes nothing; a restart keeps what is stored. */
  function Step(s: Stream, op: Op): (t: Stream)
    requires s.Valid()
    ensures t.Valid()
  {
    match op
    case DoAppend(drafts) => AppendEffect(s, drafts); if Append(s, drafts).Ok? then Append(s, drafts).value else s
    case DoAck(through, at) => Ack(s, through, at).0
    case DoPrune(cutoff) => Prune(s, cutoff)
    case DoRestart => s
  }

  function Run(s: Stream, ops: seq<Op>): (t: Stream)
    requires s.Valid()
    ensures t.Valid()
    decreases |ops|
  {
    if ops == [] then s else Run(Step(s, ops[0]), ops[1..])
  }

  /** What every later state keeps of an earlier one. */
  ghost predicate Extends(s: Stream, t: Stream) {
    && s.log <= t.log
    && s.acked <= t.acked && s.floor <= t.floor
    && |s.stamps| <= |t.stamps|
    && (forall i :: 0 <= i < |s.stamps| && s.stamps[i].Some? ==> t.stamps[i] == s.stamps[i])
  }

  lemma StepExtends(s: Stream, op: Op)
    requires s.Valid()
    ensures Extends(s, Step(s, op))
  {
    if op.DoAppend? {
      AppendEffect(s, op.drafts);
    }
  }

  /** No run rewrites an emitted event, moves a mark backwards or changes an acknowledgement time. */
  lemma {:induction false} RunExtends(s: Stream, ops: seq<Op>)
    requires s.Valid()
    ensures Extends(s, Run(s, ops))
    decreases |ops|
  {
    if ops != [] {
      StepExtends(s, ops[0]);
      RunExtends(Step(s, ops[0]), ops[1..]);
    }
  }

  /** The only state whose sequence text cannot be read is the one after 2^63 events. */
  lemma ReadableUnlessExhausted(ops: seq<Op>)
    ensures var s := Run(EMPTY, ops);
            && s.Valid()
            && (s.Readable() <==> |s.log| != MAX_SEQUENCE + 1)
            && (s.Readable() <==> ParseSequence(Decimal.Print(|s.log|)).Ok?)
  {
    ParseInvertsPrint(|Run(EMPTY, ops).log|);
  }

  /** One appended event, again and again. */
  function Appends(n: nat): seq<Op> {
    if n == 0 then [] else [DoAppend([Draft("", 1, Some(Regular))])] + Appends(n - 1)
  }

  lemma {:induction false} AppendsFill(s: Stream, n: nat)
    requires s.Valid() && |s.log| + n <= MAX_SEQUENCE + 1
    ensures |Run(s, Appends(n)).log| == |s.log| + n
    decreases n
  {
    if n > 0 {
      var op := DoAppend([Draft("", 1, Some(Regular))]);
      AppendEffect(s, op.drafts);
      assert ([op] + Appends(n - 1))[1..] == Appends(n - 1);
      AppendsFill(Step(s, op), n - 1);
    }
  }

  /** The exhausted state is reached: after 2^63 appends, and then nothing can be appended or acknowledged. */
  lemma ExhaustionIsReached(drafts: seq<Draft>, through: Sequence, at: Time)
    ensures var s := Run(EMPTY, Appends(MAX_SEQUENCE + 1));
            && s.Valid() && |s.log| == MAX_SEQUENCE + 1 && !s.Readable()
            && ParseSequence(Decimal.Print(|s.log|)) == Err(AboveCounterLimit)
            && Append(s, drafts).Err? && Ack(s, through, at) == (s, Err(SequenceUnreadable))
  {
    AppendsFill(EMPTY, MAX_SEQUENCE + 1);
    ParseInvertsPrint(MAX_SEQUENCE + 1);
  }
}
