/** Byte-bounded replay pages over the stream, and a reader that follows them to the end of a span. */
module Replay {
  import opened Wrappers
  import opened SortKeys
  import opened EventStream

  datatype Delivered = Delivered(sequence: nat, event: Event, acknowledgedAt: Option<Time>)

  datatype Loss = StreamIdentityChanged | BeyondEmitted | ReplayFloorLost

  datatype SpanPage =
    | Complete(events: seq<Delivered>)
    | Partial(nextAfter: Sequence, events: seq<Delivered>)
    | Unavailable(reason: Loss)
    | Failed(error: StreamError)

  predicate ValidLimit(limit: int) {
    1 <= limit <= MAX_REPLAY_LIMIT
  }

  function Min(a: int, b: int): int {
    if a < b then a else b
  }

  function Max(a: int, b: int): int {
    if a < b then b else a
  }

  function Rows(s: Stream, i: nat, j: nat): (rows: seq<Delivered>)
    requires s.Valid() && i <= j <= |s.log|
    ensures |rows| == j - i
  {
    seq(j - i, k requires 0 <= k < j - i => Delivered(i + k, s.log[i + k], s.stamps[i + k]))
  }

  lemma RowsExtend(s: Stream, i: nat, j: nat)
    requires s.Valid() && i <= j < |s.log|
    ensures Rows(s, i, j + 1) == Rows(s, i, j) + [Delivered(j, s.log[j], s.stamps[j])]
  {
  }

  /** The page of retained events after one cursor (-1: from the beginning) and up to another. */
  function Page(s: Stream, after: int, through: int, limit: int): (events: seq<Delivered>)
    requires s.Valid() && ValidLimit(limit) && -1 <= after
    ensures |events| <= REPLAY_PAGE_ROWS
  {
    var start := Max(after, s.floor) + 1;
    var stop := Min(through + 1, |s.log|);
    if start >= stop then []
    else Rows(s, start, start + Fit(s.log, start, stop, Min(limit, REPLAY_PAGE_ROWS), MAX_EVENT_BYTES))
  }

  /** `events` are exactly the emitted events just after position `after`, in order. */
  ghost predicate IsSpan(events: seq<Delivered>, log: seq<Event>, after: int) {
    && -1 <= after
    && after + |events| < |log|
    && forall k :: 0 <= k < |events| ==> events[k].sequence == after + 1 + k && events[k].event == log[after + 1 + k]
  }

  /** A page holds the events just after its start, and is as long as the limit, 500 rows and 1 MiB allow. */
  lemma PageIsSpan(s: Stream, after: int, through: int, limit: int)
    requires s.Valid() && 1 <= limit <= 50_000 && -1 <= after
    ensures var events := Page(s, after, through, limit);
            && (events == [] <==> Max(after, s.floor) >= Min(through, |s.log| - 1))
            && (events != [] ==>
                  && IsSpan(events, s.log, Max(after, s.floor))
                  && events[|events| - 1].sequence <= through
                  && Bytes(s.log, Max(after, s.floor) + 1, Max(after, s.floor) + 1 + |events|) <= 1_048_576)
            && |events| <= limit && |events| <= 500
            && (forall k :: 0 <= k < |events| ==> events[k].acknowledgedAt == s.stamps[Max(after, s.floor) + 1 + k])
            && var next := Max(after, s.floor) + 1 + |events|;
            (|events| == limit || |events| == 500 || next > through || next >= |s.log|
             || Bytes(s.log, Max(after, s.floor) + 1, next + 1) > 1_048_576)
  {
    var start := Max(after, s.floor) + 1;
    var stop := Min(through + 1, |s.log|);
    if start < stop {
      FitIsLongest(s.log, start, stop, Min(limit, REPLAY_PAGE_ROWS), MAX_EVENT_BYTES);
    }
  }

  /** Open-ended replay: a cursor below the floor is refused; no cursor starts at the floor. */
  function EventsAfter(s: Stream, cursor: Option<Sequence>, limit: int): (r: Result<seq<Delivered>, StreamError>)
    requires s.Valid()
  {
    if cursor.Some? && cursor.value < s.floor then Err(ReplayFloorExceeded)
    else if !ValidLimit(limit) then Err(BadLimit)
    else Ok(Page(s, if cursor.Some? then cursor.value else -1, |s.log|, limit))
  }

  lemma EventsAfterIsGapless(s: Stream, cursor: Option<Sequence>, limit: int)
    requires s.Valid() && ValidLimit(limit)
    ensures var r := EventsAfter(s, cursor, limit);
            var from := if cursor.Some? then cursor.value as int else s.floor;
            && (r.Err? <==> cursor.Some? && cursor.value < s.floor)
            && (r.Ok? ==> (r.value == [] <==> from >= |s.log| - 1))
            && (r.Ok? && r.value != [] ==> IsSpan(r.value, s.log, from))
  {
    PageIsSpan(s, if cursor.Some? then cursor.value else -1, |s.log|, limit);
  }

  /** One page of the closed span (after, through]. */
  function Span(s: Stream, known: bool, after: Sequence, through: Sequence, limit: int): (page: SpanPage)
    requires s.Valid()
    ensures page.Partial? ==> after < page.nextAfter < through
  {
    if !known then Unavailable(StreamIdentityChanged)
    else if !s.Readable() then Failed(SequenceUnreadable)
    else if through >= |s.log| then Unavailable(BeyondEmitted)
    else if after < s.floor then Unavailable(ReplayFloorLost)
    else if !ValidLimit(limit) then Failed(BadLimit)
    else
      var events := Page(s, after, through, limit);
      PageIsSpan(s, after, through, limit);
      if events == [] then Failed(StreamCorrupt)
      else if events[|events| - 1].sequence == through then Complete(events)
      else Partial(events[|events| - 1].sequence, events)
  }

  /** What is refused before any row is looked at, and in which order. */
  lemma ReplayRefusals(s: Stream, cursor: Option<Sequence>, known: bool, after: Sequence, through: Sequence, limit: int)
    requires s.Valid()
    ensures EventsAfter(s, cursor, limit) == Err(BadLimit) <==>
              (cursor.Some? ==> cursor.value >= s.floor) && (limit < 1 || limit > 50_000)
    ensures EventsAfter(s, cursor, limit) == Err(ReplayFloorExceeded) <==> cursor.Some? && cursor.value < s.floor
    ensures var page := Span(s, known, after, through, limit);
            && (page == Unavailable(StreamIdentityChanged) <==> !known)
            && (page == Failed(SequenceUnreadable) <==> known && |s.log| > 0x7FFF_FFFF_FFFF_FFFF)
            && (page == Failed(BadLimit) <==>
                  && known && |s.log| <= 0x7FFF_FFFF_FFFF_FFFF && through < |s.log| && after >= s.floor
                  && (limit < 1 || limit > 50_000))
  {
  }

  /** The "no retained rows" corruption report is raised exactly for an empty or reversed span. */
  lemma CorruptExactlyWhenSpanIsEmpty(s: Stream, known: bool, after: Sequence, through: Sequence, limit: int)
    requires s.Valid()
    ensures Span(s, known, after, through, limit) == Failed(StreamCorrupt) <==>
              known && s.Readable() && s.floor <= after && through <= after && through < |s.log| && ValidLimit(limit)
  {
    if s.floor <= after && ValidLimit(limit) {
      PageIsSpan(s, after, through, limit);
    }
  }

  lemma SpanIsGapless(s: Stream, after: Sequence, through: Sequence, limit: int)
    requires s.Valid() && after < through && ValidLimit(limit)
    ensures var page := Span(s, true, after, through, limit);
            && (page.Complete? ==> IsSpan(page.events, s.log, after) && |page.events| == through - after)
            && (page.Partial? ==>
                  IsSpan(page.events, s.log, after) && 0 < |page.events| == page.nextAfter - after)
            && (page == Unavailable(BeyondEmitted) <==> s.Readable() && through >= |s.log|)
            && (page == Unavailable(ReplayFloorLost) <==> s.Readable() && through < |s.log| && after < s.floor)
            && (page.Failed? <==> !s.Readable())
            && (page.Failed? ==> page.error == SequenceUnreadable)
            && page != Unavailable(StreamIdentityChanged)
  {
    if s.floor <= after {
      PageIsSpan(s, after, through, limit);
    }
  }

  lemma SpansJoin(a: seq<Delivered>, b: seq<Delivered>, log: seq<Event>, longer: seq<Event>, after: int)
    requires IsSpan(a, log, after) && log <= longer
    requires b != [] ==> IsSpan(b, longer, after + |a|)
    ensures IsSpan(a + b, longer, after)
  {
  }

  datatype Ending = Completed | Lost(reason: Loss) | Refused(error: StreamError)

  /** What a reader collected, how many pages it took, and the stream as its last page saw it. */
  datatype Reading = Reading(events: seq<Delivered>, pages: nat, ending: Ending, last: Stream)

  /** Follow `nextAfter` from page to page while `between(p)` happens to the stream after page `p`. */
  function Follow(s: Stream, between: nat -> seq<Op>, page: nat, after: Sequence, through: Sequence,
                  limit: int): (r: Reading)
    requires s.Valid()
    decreases if after < through then through - after else 0
  {
    match Span(s, true, after, through, limit)
    case Complete(events) => Reading(events, 1, Completed, s)
    case Unavailable(reason) => Reading([], 1, Lost(reason), s)
    case Failed(error) => Reading([], 1, Refused(error), s)
    case Partial(next, events) =>
      var rest := Follow(Run(s, between(page)), between, page + 1, next, through, limit);
      Reading(events + rest.events, rest.pages + 1, rest.ending, rest.last)
  }

  /**
   Whatever is appended, acknowledged, pruned or restarted between the pages, a reader gets exactly
   the events after+1..through in order, or a gapless prefix and a stated loss; never a silent gap.
   */
  lemma {:induction false} FollowIsGapless(
    s: Stream, between: nat -> seq<Op>, page: nat, after: Sequence, through: Sequence, limit: int)
    requires s.Valid() && after < through && ValidLimit(limit)
    ensures var r := Follow(s, between, page, after, through, limit);
            && s.log <= r.last.log && r.last.Valid()
            && (r.events != [] ==> IsSpan(r.events, r.last.log, after))
            && |r.events| <= through - after
            && r.pages <= through - after
            && (r.ending == Completed <==> |r.events| == through - after)
            && (r.ending == Lost(BeyondEmitted) <==> s.Readable() && through >= |s.log|)
            && (r.ending == Lost(ReplayFloorLost) <==>
                  r.last.Readable() && through < |s.log| && r.last.floor > after + |r.events|)
            && (r.ending.Refused? <==> !r.last.Readable())
            && r.ending != Lost(StreamIdentityChanged)
            && (r.ending.Refused? ==> r.ending.error == SequenceUnreadable)
    decreases through - after
  {
    SpanIsGapless(s, after, through, limit);
    var first := Span(s, true, after, through, limit);
    if first.Partial? {
      var t := Run(s, between(page));
      RunExtends(s, between(page));
      FollowIsGapless(t, between, page + 1, first.nextAfter, through, limit);
      var rest := Follow(t, between, page + 1, first.nextAfter, through, limit);
      SpansJoin(first.events, rest.events, s.log, rest.last.log, after);
    }
  }
}
