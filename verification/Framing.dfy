/**
 Capture of newline-framed agent output: each complete frame is logged, spooled, handed to the
 decoder and cleared; once draining starts the spool keeps everything that is not handed on.
 */
module Framing {
  import opened Wrappers

  type byte = n: int | 0 <= n < 256

  const NEWLINE: byte := 10
  const MAX_FRAME_BYTES: nat := 1_048_576
  const MAX_DRAIN_BYTES: nat := 2_097_152
  const MAX_CHUNK_BYTES: nat := 65_536

  datatype Failure =
    | ChunkLimit | FrameLimit | WriteRefused | OutputStorage | AdmissionRefused
    | OutputIncomplete | FrameIncomplete

  datatype Admission = Granted | Drain | Throws

  /** What the surroundings answer while one part is handled. */
  datatype Answers = Answers(shouldDrain: bool, write: Admission, spoolFails: bool, logFails: bool,
                             frame: Admission, publishFails: bool)

  datatype Segment = Segment(sizeBytes: nat, firstLogByteOffset: nat, completeFrames: nat, trailingFrameBytes: nat)

  // ------------------------------------------------------------- reference

  function Concat(parts: seq<seq<byte>>): seq<byte> {
    if parts == [] then [] else Concat(parts[..|parts| - 1]) + parts[|parts| - 1]
  }

  /** Newlines among the first k bytes. */
  function Newlines(s: seq<byte>, k: nat): nat
    requires k <= |s|
  {
    if k == 0 then 0 else Newlines(s, k - 1) + (if s[k - 1] == NEWLINE then 1 else 0)
  }

  /** How many of the first k bytes follow the last newline among them. */
  function Tail(s: seq<byte>, k: nat): nat
    requires k <= |s|
  {
    if k == 0 || s[k - 1] == NEWLINE then 0 else 1 + Tail(s, k - 1)
  }

  /** A frame ends in its only newline and is no longer than the frame limit. */
  ghost predicate IsFrame(f: seq<byte>) {
    && 0 < |f| <= 1_048_576
    && f[|f| - 1] == 10
    && forall i :: 0 <= i < |f| - 1 ==> f[i] != 10
  }

  ghost predicate NoNewline(s: seq<byte>) {
    forall i :: 0 <= i < |s| ==> s[i] != 10
  }

  /** Index of the first newline at or after a position, or the length. */
  function IndexOf(s: seq<byte>, from: nat): (k: nat)
    requires from <= |s|
    ensures from <= k <= |s|
    ensures forall i :: from <= i < k ==> s[i] != NEWLINE
    ensures k < |s| ==> s[k] == NEWLINE
    decreases |s| - from
  {
    if from == |s| || s[from] == NEWLINE then from else IndexOf(s, from + 1)
  }

  /**
   What capture yields from a whole input when nothing drains or fails: its lines, up to the first
   that is too long. The chunks it arrived in do not appear here.
   */
  function Undisturbed(input: seq<byte>): (seq<seq<byte>>, Option<Failure>)
    decreases |input|
  {
    var k := IndexOf(input, 0);
    if k == |input| then
      ([], if |input| > MAX_FRAME_BYTES then Some(FrameLimit) else if input == [] then None else Some(FrameIncomplete))
    else if k + 1 > MAX_FRAME_BYTES then ([], Some(FrameLimit))
    else
      var rest := Undisturbed(input[k + 1..]);
      ([input[..k + 1]] + rest.0, rest.1)
  }

  lemma {:induction false} IndexOfIs(s: seq<byte>, from: nat, k: nat)
    requires from <= k <= |s|
    requires forall i :: from <= i < k ==> s[i] != NEWLINE
    requires k < |s| ==> s[k] == NEWLINE
    ensures IndexOf(s, from) == k
    decreases k - from
  {
    if from < k {
      IndexOfIs(s, from + 1, k);
    }
  }

  lemma FirstFrame(frame: seq<byte>, rest: seq<byte>)
    requires IsFrame(frame)
    ensures Undisturbed(frame + rest) == ([frame] + Undisturbed(rest).0, Undisturbed(rest).1)
  {
    IndexOfIs(frame + rest, 0, |frame| - 1);
    assert (frame + rest)[|frame|..] == rest && (frame + rest)[..|frame|] == frame;
  }

  /** An overlong start fails the same way however the line would have gone on. */
  lemma Overlong(start: seq<byte>, rest: seq<byte>)
    requires |start| > MAX_FRAME_BYTES
    requires forall i :: 0 <= i < |start| - 1 ==> start[i] != NEWLINE
    ensures Undisturbed(start + rest) == ([], Some(FrameLimit))
  {
    assert forall i :: 0 <= i < |start| - 1 ==> (start + rest)[i] == start[i];
  }

  lemma ConcatPush(parts: seq<seq<byte>>, part: seq<byte>)
    ensures Concat(parts + [part]) == Concat(parts) + part
  {
    assert (parts + [part])[..|parts|] == parts;
  }

  lemma {:induction false} ConcatFront(parts: seq<seq<byte>>)
    requires parts != []
    ensures Concat(parts) == parts[0] + Concat(parts[1..])
  {
    if |parts| > 1 {
      var init := parts[..|parts| - 1];
      ConcatFront(init);
      assert parts[1..][..|parts| - 2] == init[1..];
      assert Concat(parts) == (parts[0] + Concat(init[1..])) + parts[|parts| - 1];
      assert Concat(parts[1..]) == Concat(init[1..]) + parts[|parts| - 1];
    } else {
      assert parts[1..] == [];
      assert parts[..0] == [];
    }
  }

  lemma {:induction false} CountsOfPrefix(s: seq<byte>, t: seq<byte>, k: nat)
    requires k <= |s| && k <= |t| && forall i :: 0 <= i < k ==> s[i] == t[i]
    ensures Newlines(s, k) == Newlines(t, k) && Tail(s, k) == Tail(t, k)
  {
    if k > 0 {
      CountsOfPrefix(s, t, k - 1);
    }
  }

  /** Bytes without a newline lengthen the tail and leave the count. */
  lemma {:induction false} CountsOverPlain(s: seq<byte>, i: nat, k: nat)
    requires i <= k <= |s| && forall j :: i <= j < k ==> s[j] != NEWLINE
    ensures Newlines(s, k) == Newlines(s, i) && Tail(s, k) == Tail(s, i) + (k - i)
  {
    if i < k {
      CountsOverPlain(s, i, k - 1);
    }
  }

  lemma CountsAppend(s: seq<byte>, part: seq<byte>)
    requires |part| > 0 && IsPiece(part)
    ensures var t := s + part;
            var ends := part[|part| - 1] == NEWLINE;
            && Newlines(t, |t|) == Newlines(s, |s|) + (if ends then 1 else 0)
            && Tail(t, |t|) == if ends then 0 else Tail(s, |s|) + |part|
  {
    var t := s + part;
    CountsOfPrefix(s, t, |s|);
    CountsOverPlain(t, |s|, |t| - 1);
  }

  /** Up to the newline that ends it, a part only lengthens the tail. */
  lemma CountsOfPart(s: seq<byte>, part: seq<byte>)
    requires |part| > 0 && IsPiece(part)
    ensures var t := s + part;
            Newlines(t, |t| - 1) == Newlines(s, |s|) && Tail(t, |t| - 1) == Tail(s, |s|) + |part| - 1
  {
    var t := s + part;
    CountsOfPrefix(s, t, |s|);
    CountsOverPlain(t, |s|, |t| - 1);
  }

  /** A part as the inner loop cuts it: at most one newline, and that at the end. */
  ghost predicate IsPiece(part: seq<byte>) {
    forall i :: 0 <= i < |part| - 1 ==> part[i] != NEWLINE
  }

  /** Nothing asks for a drain and nothing fails. */
  predicate Calm(a: Answers) {
    !a.shouldDrain && a.write.Granted? && !a.spoolFails && !a.logFails && a.frame.Granted? && !a.publishFails
  }

  /** The frames are cut from the front of the input, and success means they are all of it. */
  ghost predicate Cuts(input: seq<byte>, frames: seq<seq<byte>>, failure: Option<Failure>) {
    && (forall i :: 0 <= i < |frames| ==> IsFrame(frames[i]))
    && Concat(frames) <= input
    && (failure.None? <==> Concat(frames) == input)
    && (failure == Some(FrameIncomplete) ==>
          NoNewline(input[|Concat(frames)|..]) && 0 < |input| - |Concat(frames)| <= MAX_FRAME_BYTES)
  }

  lemma CutsInFront(frame: seq<byte>, rest: seq<byte>, frames: seq<seq<byte>>, failure: Option<Failure>)
    requires IsFrame(frame) && Cuts(rest, frames, failure)
    ensures Cuts(frame + rest, [frame] + frames, failure)
  {
    ConcatFront([frame] + frames);
    assert ([frame] + frames)[1..] == frames;
    var n := |Concat(frames)|;
    assert (frame + rest)[|frame| + n..] == rest[n..];
    assert Concat(frames) == rest <==> frame + Concat(frames) == frame + rest by {
      assert (frame + Concat(frames))[|frame|..] == Concat(frames) && (frame + rest)[|frame|..] == rest;
    }
  }

  /** The reference itself loses nothing and invents nothing. */
  lemma {:induction false} UndisturbedIsExact(input: seq<byte>)
    ensures Cuts(input, Undisturbed(input).0, Undisturbed(input).1)
    decreases |input|
  {
    var k := IndexOf(input, 0);
    if k < |input| && k + 1 <= MAX_FRAME_BYTES {
      var frame, rest := input[..k + 1], input[k + 1..];
      UndisturbedIsExact(rest);
      CutsInFront(frame, rest, Undisturbed(rest).0, Undisturbed(rest).1);
      assert frame + rest == input;
    } else {
      assert input[0..] == input;
    }
  }

  /** No drain, no failure, and chunks no longer than the reader cuts them. */
  ghost predicate CalmRun(chunks: seq<seq<byte>>, answers: nat -> Answers) {
    && (forall n :: Calm(answers(n)))
    && (forall i :: 0 <= i < |chunks| ==> |chunks[i]| <= MAX_CHUNK_BYTES)
  }

  lemma NextChunk(chunks: seq<seq<byte>>, i: nat)
    requires i < |chunks|
    ensures Concat(chunks[i..]) == chunks[i] + Concat(chunks[i + 1..])
  {
    ConcatFront(chunks[i..]);
    assert chunks[i..][1..] == chunks[i + 1..];
  }

  /** An undisturbed line without an end is reported as incomplete. */
  lemma UnfinishedLine(s: seq<byte>)
    requires NoNewline(s) && |s| <= MAX_FRAME_BYTES
    ensures Undisturbed(s) == ([], if s == [] then None else Some(FrameIncomplete))
  {
    IndexOfIs(s, 0, |s|);
  }

  lemma Regroup(log: seq<byte>, chunk: seq<byte>, after: seq<byte>)
    ensures log + (chunk + after) == (log + chunk) + after
    ensures log + [] == log
    ensures [] + after == after
    ensures log <= log + (chunk + after) && log + chunk <= log + (chunk + after)
  {
    assert log + (chunk + after) == (log + chunk) + after;
  }

  predicate EndsInNewline(s: seq<byte>) {
    |s| > 0 && s[|s| - 1] == NEWLINE
  }

  /** How much of the spool the frame counters have seen: a newline is counted once its part is logged. */
  function Counted(spool: seq<byte>, unlogged: seq<byte>): (k: nat)
    requires EndsInNewline(unlogged) ==> EndsInNewline(spool)
    ensures k <= |spool|
  {
    if EndsInNewline(unlogged) then |spool| - 1 else |spool|
  }

  ghost predicate CountsHold(spool: seq<byte>, unlogged: seq<byte>, complete: nat, trailing: nat) {
    && (EndsInNewline(unlogged) ==> EndsInNewline(spool))
    && var k := Counted(spool, unlogged);
    complete == Newlines(spool, k) && trailing == Tail(spool, k) + |spool| - k
  }

  lemma CountsOfSpooled(spool: seq<byte>, part: seq<byte>, complete: nat, trailing: nat)
    requires CountsHold(spool, [], complete, trailing) && |part| > 0 && IsPiece(part)
    ensures CountsHold(spool + part, part, complete, trailing + |part|)
    ensures if part[|part| - 1] == NEWLINE then CountsHold(spool + part, [], complete + 1, 0)
            else CountsHold(spool + part, [], complete, trailing + |part|)
  {
    CountsAppend(spool, part);
    CountsOfPart(spool, part);
  }

  lemma SpooledIsKept(handed: seq<byte>, spool: seq<byte>, log: seq<byte>, part: seq<byte>)
    requires handed + spool == log + []
    ensures handed + (spool + part) == log + part == log + part + []
  {
    assert handed + (spool + part) == (handed + spool) + part;
    assert log + [] == log;
  }

  /** What a spool that is kept really holds. */
  ghost function Exactly(spool: seq<byte>, yielded: seq<seq<byte>>): Segment {
    Segment(|spool|, |Concat(yielded)|, Newlines(spool, |spool|), Tail(spool, |spool|))
  }

  /** What is published for it. */
  ghost function Described(spool: seq<byte>, yielded: seq<seq<byte>>, unlogged: seq<byte>): Segment
    requires EndsInNewline(unlogged) ==> EndsInNewline(spool)
  {
    var k := Counted(spool, unlogged);
    Segment(|spool|, |Concat(yielded)|, Newlines(spool, k), Tail(spool, k) + |spool| - k)
  }

  /**
   A published segment counts its frames and its tail exactly, unless capture failed while logging a
   part that ends a line: that line's bytes are then reported as part of the tail.
   */
  lemma SegmentIsExactIff(spool: seq<byte>, yielded: seq<seq<byte>>, unlogged: seq<byte>)
    requires EndsInNewline(unlogged) ==> EndsInNewline(spool)
    ensures Described(spool, yielded, unlogged) == Exactly(spool, yielded) <==> !EndsInNewline(unlogged)
    ensures EndsInNewline(unlogged) ==>
              Described(spool, yielded, unlogged).completeFrames == Exactly(spool, yielded).completeFrames - 1
  {
  }

  // ---------------------------------------------- captures that are disturbed

  /** The parts of a chunk: cut after each newline. */
  function Pieces(chunk: seq<byte>): seq<seq<byte>>
    decreases |chunk|
  {
    if chunk == [] then []
    else
      var k := IndexOf(chunk, 0);
      var end := if k == |chunk| then k else k + 1;
      [chunk[..end]] + Pieces(chunk[end..])
  }

  /** The parts of all chunks, up to the first chunk that is too long. */
  function AllPieces(chunks: seq<seq<byte>>): seq<seq<byte>> {
    if chunks == [] || |chunks[0]| > 65_536 then [] else Pieces(chunks[0]) + AllPieces(chunks[1..])
  }

  ghost predicate Bounded(chunks: seq<seq<byte>>) {
    forall i :: 0 <= i < |chunks| ==> |chunks[i]| <= 65_536
  }

  lemma {:induction false} PiecesJoin(chunk: seq<byte>)
    ensures Concat(Pieces(chunk)) == chunk
    decreases |chunk|
  {
    if chunk != [] {
      var k := IndexOf(chunk, 0);
      var end := if k == |chunk| then k else k + 1;
      PiecesJoin(chunk[end..]);
      ConcatFront(Pieces(chunk));
      assert Pieces(chunk)[1..] == Pieces(chunk[end..]) && chunk[..end] + chunk[end..] == chunk;
    }
  }

  lemma {:induction false} ConcatAppend(a: seq<seq<byte>>, b: seq<seq<byte>>)
    ensures Concat(a + b) == Concat(a) + Concat(b)
    decreases |b|
  {
    if b == [] {
      assert a + b == a && Concat(a) + [] == Concat(a);
    } else {
      ConcatAppend(a, b[..|b| - 1]);
      assert (a + b)[..|a + b| - 1] == a + b[..|b| - 1];
      assert Concat(a) + (Concat(b[..|b| - 1]) + b[|b| - 1]) == Concat(a) + Concat(b[..|b| - 1]) + b[|b| - 1];
    }
  }

  lemma {:induction false} AllPiecesJoin(chunks: seq<seq<byte>>)
    requires Bounded(chunks)
    ensures Concat(AllPieces(chunks)) == Concat(chunks)
  {
    if chunks != [] {
      AllPiecesJoin(chunks[1..]);
      PiecesJoin(chunks[0]);
      ConcatAppend(Pieces(chunks[0]), AllPieces(chunks[1..]));
      ConcatFront(chunks);
    }
  }

  /** How much of an unfinished line there is before a part. */
  function Unfinished(parts: seq<seq<byte>>, k: nat): nat
    requires k <= |parts|
  {
    Tail(Concat(parts[..k]), |Concat(parts[..k])|)
  }

  /** The part is taken without anything going wrong: it fits, nobody asks for a drain and nothing fails. */
  ghost predicate Smooth(parts: seq<seq<byte>>, k: nat, a: Answers)
    requires k < |parts|
  {
    && Unfinished(parts, k) + |parts[k]| <= 1_048_576
    && !a.shouldDrain && a.write.Granted? && !a.spoolFails && !a.logFails
    && (EndsInNewline(parts[k]) ==> a.frame.Granted? && !a.publishFails)
  }

  /** Everything goes smoothly up to a part. */
  ghost predicate SmoothUpTo(parts: seq<seq<byte>>, answers: nat -> Answers, d: nat) {
    d <= |parts| && forall k: nat :: k < d ==> Smooth(parts, k, answers(k))
  }

  /** A drain is asked for and nothing else is wrong: the part fits what may be drained and is written. */
  ghost predicate Asked(parts: seq<seq<byte>>, d: nat, a: Answers)
    requires d < |parts|
  {
    && Unfinished(parts, d) + |parts[d]| <= (if a.shouldDrain then 2_097_152 else 1_048_576)
    && Written(a)
    && (a.shouldDrain || a.write.Drain? || (EndsInNewline(parts[d]) && a.frame.Drain?))
  }

  predicate Written(a: Answers) {
    !a.write.Throws? && !a.spoolFails && !a.logFails
  }

  /** Whatever is asked for, no write fails. */
  ghost predicate AllWritten(answers: nat -> Answers) {
    forall k: nat :: Written(answers(k))
  }

  /** All that a part can change. */
  datatype Snapshot = Snapshot(yielded: seq<seq<byte>>, spool: seq<byte>, log: seq<byte>, unlogged: seq<byte>,
                               draining: bool, failure: Option<Failure>)

  /** What taking one part does, whatever is answered. */
  ghost function Took(s: Snapshot, part: seq<byte>, a: Answers): Snapshot {
    var early := s.draining || a.shouldDrain;
    var drains := early || a.write.Drain?;
    var written := s.(spool := s.spool + part, log := s.log + part, draining := drains);
    if |s.spool| + |part| > (if early then 2_097_152 else 1_048_576)
    then s.(draining := early, failure := Some(FrameLimit))
    else if a.write.Throws? then s.(draining := early, failure := Some(WriteRefused))
    else if a.spoolFails then s.(draining := drains, failure := Some(OutputStorage))
    else if a.logFails
    then s.(spool := s.spool + part, unlogged := part, draining := drains, failure := Some(OutputStorage))
    else if !EndsInNewline(part) || drains then written
    else if a.frame.Throws? then written.(failure := Some(AdmissionRefused))
    else if a.frame.Drain? then written.(draining := true)
    else if a.publishFails then written.(failure := Some(OutputStorage))
    else written.(yielded := s.yielded + [s.spool + part], spool := [])
  }

  /** A piece after an unfinished line makes it a frame or leaves it unfinished. */
  lemma LineGrows(spool: seq<byte>, part: seq<byte>)
    requires NoNewline(spool) && IsPiece(part) && 0 < |part|
    ensures part[|part| - 1] == 10 && |spool| + |part| <= 1_048_576 ==> IsFrame(spool + part)
    ensures part[|part| - 1] != 10 ==> NoNewline(spool + part)
  {
  }

  lemma TookLogs(s: Snapshot, part: seq<byte>, a: Answers)
    requires s.failure.None?
    ensures var t := Took(s, part, a);
            s.log <= t.log <= s.log + part && (t.failure.None? ==> t.log == s.log + part)
  {
  }

  /** Frames out of the log, and the unfinished line in the spool: nothing has gone wrong yet. */
  ghost predicate Even(s: Snapshot, input: seq<byte>) {
    && s.log == input && s.unlogged == [] && !s.draining
    && s.yielded == Undisturbed(input).0 && |s.spool| == Tail(input, |input|)
  }

  /** What has come of the first part that did not go smoothly; `before` is all that was taken before it. */
  ghost predicate Struck(before: seq<byte>, part: seq<byte>, unfinished: nat, a: Answers, t: Snapshot) {
    var asks := a.shouldDrain || a.write.Drain?;
    var over := unfinished + |part| > (if a.shouldDrain then 2_097_152 else 1_048_576);
    && t.yielded == Undisturbed(before).0
    && (over ==> t.failure == Some(FrameLimit) && t.log == before && t.unlogged == [])
    && (!over && a.write.Throws? ==> t.failure == Some(WriteRefused) && t.log == before && t.unlogged == [])
    && (!over && !a.write.Throws? && a.spoolFails ==>
          t.failure == Some(OutputStorage) && t.log == before && t.unlogged == [])
    && (!over && !a.write.Throws? && !a.spoolFails && a.logFails ==>
          t.failure == Some(OutputStorage) && t.log == before && t.unlogged == part)
    && (!over && Written(a) ==> before + part <= t.log)
    && (!over && Written(a) && (asks || (EndsInNewline(part) && a.frame.Drain?)) ==> t.draining)
    && (!over && Written(a) && !asks && EndsInNewline(part) && !a.frame.Drain? ==>
          && t.log == before + part && t.unlogged == []
          && t.failure == Some(if a.frame.Throws? then AdmissionRefused else OutputStorage))
  }

  /** How the parts taken so far have gone; `hit` is the first that did not go smoothly. */
  ghost predicate Course(parts: seq<seq<byte>>, answers: nat -> Answers, hit: Option<nat>, s: Snapshot) {
    match hit
    case None => SmoothUpTo(parts, answers, |parts|) && Even(s, Concat(parts))
    case Some(d) =>
      && d < |parts| && SmoothUpTo(parts, answers, d) && !Smooth(parts, d, answers(d))
      && Struck(Concat(parts[..d]), parts[d], Unfinished(parts, d), answers(d), s)
  }

  lemma FirstStrike(before: seq<byte>, part: seq<byte>, a: Answers, s: Snapshot)
    requires Even(s, before) && s.failure.None?
    requires |s.spool| + |part| > 1_048_576 || a.shouldDrain || !a.write.Granted? || a.spoolFails || a.logFails
             || (EndsInNewline(part) && (!a.frame.Granted? || a.publishFails))
    ensures Struck(before, part, |s.spool|, a, Took(s, part, a))
  {
  }

  lemma StillStruck(before: seq<byte>, part: seq<byte>, unfinished: nat, a: Answers, t: Snapshot,
                    next: seq<byte>, b: Answers)
    requires Struck(before, part, unfinished, a, t) && t.failure.None? && t.draining
    ensures Struck(before, part, unfinished, a, Took(t, next, b))
    ensures Took(t, next, b).draining
  {
  }

  /** A drain that is asked for leaves capture draining, and anything else that is wrong ends it. */
  lemma StruckDrains(parts: seq<seq<byte>>, d: nat, a: Answers, t: Snapshot)
    requires d < |parts| && !Smooth(parts, d, a) && t.failure.None?
    requires Struck(Concat(parts[..d]), parts[d], Unfinished(parts, d), a, t)
    ensures t.draining && Asked(parts, d, a)
  {
  }

  lemma Reassociate(a: seq<byte>, b: seq<byte>, c: seq<byte>)
    ensures (a + b) + c == a + (b + c)
  {
  }

  lemma FirstAndRest(frames: seq<seq<byte>>, more: seq<seq<byte>>)
    requires frames != []
    ensures [frames[0]] + (frames[1..] + more) == frames + more
  {
  }

  lemma {:induction false} FramesInFront(frames: seq<seq<byte>>, rest: seq<byte>)
    requires forall i :: 0 <= i < |frames| ==> IsFrame(frames[i])
    ensures Undisturbed(Concat(frames) + rest) == (frames + Undisturbed(rest).0, Undisturbed(rest).1)
  {
    if frames == [] {
      assert Concat(frames) + rest == rest && frames + Undisturbed(rest).0 == Undisturbed(rest).0;
    } else {
      FramesInFront(frames[1..], rest);
      ConcatFront(frames);
      Reassociate(frames[0], Concat(frames[1..]), rest);
      FirstFrame(frames[0], Concat(frames[1..]) + rest);
      FirstAndRest(frames, Undisturbed(rest).0);
    }
  }

  lemma {:induction false} FramesEndLines(frames: seq<seq<byte>>, rest: seq<byte>)
    requires (forall i :: 0 <= i < |frames| ==> IsFrame(frames[i])) && NoNewline(rest)
    ensures Tail(Concat(frames) + rest, |Concat(frames) + rest|) == |rest|
  {
    var a := Concat(frames);
    var whole := a + rest;
    CountsOverPlain(whole, |a|, |whole|);
    if frames != [] {
      var last := frames[|frames| - 1];
      assert a[|a| - 1] == last[|last| - 1] == NEWLINE && whole[|a| - 1] == a[|a| - 1];
    }
  }

  /** A state without a drain or a failure is the one that the log determines. */
  lemma LogDetermines(yielded: seq<seq<byte>>, spool: seq<byte>, log: seq<byte>)
    requires (forall i :: 0 <= i < |yielded| ==> IsFrame(yielded[i])) && NoNewline(spool)
    requires |spool| <= MAX_FRAME_BYTES && Concat(yielded) + spool == log
    ensures Undisturbed(log) == (yielded, if spool == [] then None else Some(FrameIncomplete))
    ensures |spool| == Tail(log, |log|)
  {
    FramesInFront(yielded, spool);
    UnfinishedLine(spool);
    FramesEndLines(yielded, spool);
    assert yielded + [] == yielded;
  }

  lemma OnePartMore(parts: seq<seq<byte>>, part: seq<byte>, k: nat)
    requires k <= |parts|
    ensures (parts + [part])[..k] == parts[..k] && (k < |parts| ==> (parts + [part])[k] == parts[k])
    ensures Unfinished(parts + [part], k) == Unfinished(parts, k)
    ensures Concat(parts + [part]) == Concat(parts) + part
  {
    assert (parts + [part])[..k] == parts[..k];
    ConcatPush(parts, part);
  }

  lemma SmoothStays(parts: seq<seq<byte>>, part: seq<byte>, answers: nat -> Answers, d: nat)
    requires SmoothUpTo(parts, answers, d)
    ensures SmoothUpTo(parts + [part], answers, d)
    ensures d < |parts| ==> (Smooth(parts + [part], d, answers(d)) <==> Smooth(parts, d, answers(d)))
  {
    forall k: nat | k < |parts|
      ensures Smooth(parts + [part], k, answers(k)) <==> Smooth(parts, k, answers(k))
    {
      OnePartMore(parts, part, k);
    }
  }

  /** One part more: either everything has gone smoothly still, or the first trouble stays the first. */
  lemma CourseGoesOn(parts: seq<seq<byte>>, part: seq<byte>, answers: nat -> Answers, hit: Option<nat>,
                     s: Snapshot, t: Snapshot)
    returns (now: Option<nat>)
    requires Course(parts, answers, hit, s) && s.failure.None? && t == Took(s, part, answers(|parts|))
    requires t.failure.None? && !t.draining ==> Even(t, t.log)
    ensures Course(parts + [part], answers, now, t)
    ensures hit.Some? ==> now == hit
    ensures hit.None? ==> now in {None, Some(|parts|)}
    ensures now.None? ==> t.failure.None? && !t.draining
  {
    var longer := parts + [part];
    var a := answers(|parts|);
    OnePartMore(parts, part, |parts|);
    assert parts[..|parts|] == parts;
    if hit.Some? {
      now := hit;
      var d := hit.value;
      OnePartMore(parts, part, d);
      SmoothStays(parts, part, answers, d);
      StruckDrains(parts, d, answers(d), s);
      StillStruck(Concat(parts[..d]), parts[d], Unfinished(parts, d), answers(d), s, part, a);
    } else {
      SmoothStays(parts, part, answers, |parts|);
      if Smooth(longer, |parts|, a) {
        now := None;
      } else {
        now := Some(|parts|);
        FirstStrike(Concat(parts), part, a, s);
      }
    }
  }

  /** A drain that is asked for goes on without a failure as long as there is room. */
  ghost predicate DrainGoesOn(parts: seq<seq<byte>>, answers: nat -> Answers, hit: Option<nat>, s: Snapshot,
                              total: nat)
  {
    AllWritten(answers) && hit.Some? && hit.value < |parts| && Asked(parts, hit.value, answers(hit.value))
    && total <= |Concat(s.yielded)| + 2_097_152 ==>
      s.failure.None? && s.draining
  }

  lemma DrainTakes(parts: seq<seq<byte>>, part: seq<byte>, answers: nat -> Answers, hit: Option<nat>, now: Option<nat>,
                   s: Snapshot, t: Snapshot, total: nat)
    requires Course(parts, answers, hit, s) && DrainGoesOn(parts, answers, hit, s, total) && s.failure.None?
    requires t == Took(s, part, answers(|parts|)) && Course(parts + [part], answers, now, t)
    requires hit.Some? ==> now == hit
    requires hit.None? ==> now in {None, Some(|parts|)}
    requires Concat(s.yielded) + s.spool == s.log && |s.log| + |part| <= total
    ensures DrainGoesOn(parts + [part], answers, now, t, total)
  {
    if hit.Some? {
      OnePartMore(parts, part, hit.value);
      StruckDrains(parts, hit.value, answers(hit.value), s);
      assert t.yielded == s.yielded;
      assert Written(answers(|parts|)) || !AllWritten(answers);
    } else if now.Some? {
      OnePartMore(parts, part, |parts|);
      assert parts[..|parts|] == parts;
    }
  }

  lemma PiecesFrom(chunk: seq<byte>, offset: nat)
    requires offset < |chunk|
    ensures var newline := IndexOf(chunk, offset);
            var end := if newline == |chunk| then |chunk| else newline + 1;
            offset < end <= |chunk| && Pieces(chunk[offset..]) == [chunk[offset..end]] + Pieces(chunk[end..])
  {
    var newline := IndexOf(chunk, offset);
    var end := if newline == |chunk| then |chunk| else newline + 1;
    IndexOfIs(chunk[offset..], 0, newline - offset);
    assert chunk[offset..][..end - offset] == chunk[offset..end] && chunk[offset..][end - offset..] == chunk[end..];
  }

  /** How all chunks have gone, before the end of input or the failure is handled. */
  ghost predicate Ran(chunks: seq<seq<byte>>, answers: nat -> Answers, taken: seq<seq<byte>>, hit: Option<nat>,
                         s: Snapshot)
  {
    && taken <= AllPieces(chunks) && Course(taken, answers, hit, s)
    && (s.failure.None? ==> taken == AllPieces(chunks) && Bounded(chunks) && s.log == Concat(chunks))
    && (hit.None? && s.failure.Some? ==>
          taken == AllPieces(chunks) && !Bounded(chunks) && s.failure == Some(ChunkLimit))
    && (Bounded(chunks) ==> DrainGoesOn(taken, answers, hit, s, |Concat(chunks)|))
  }

  /** The same for the first chunks. */
  ghost predicate UpTo(chunks: seq<seq<byte>>, i: nat, answers: nat -> Answers, taken: seq<seq<byte>>,
                       hit: Option<nat>, s: Snapshot)
    requires i <= |chunks|
  {
    && taken <= AllPieces(chunks) && Course(taken, answers, hit, s)
    && (s.failure.None? ==>
          && taken + AllPieces(chunks[i..]) == AllPieces(chunks)
          && (forall j :: 0 <= j < i ==> |chunks[j]| <= 65_536)
          && DrainGoesOn(taken, answers, hit, s, |Concat(chunks)|))
    && (hit.None? && s.failure.Some? ==>
          taken == AllPieces(chunks) && !Bounded(chunks) && s.failure == Some(ChunkLimit))
    && (Bounded(chunks) ==> DrainGoesOn(taken, answers, hit, s, |Concat(chunks)|))
  }

  lemma PrefixOfJoin(taken: seq<seq<byte>>, earlier: seq<seq<byte>>, pieces: seq<seq<byte>>, rest: seq<seq<byte>>)
    requires taken <= earlier + pieces
    ensures taken <= earlier + (pieces + rest)
    ensures taken == earlier + pieces ==> taken + rest == earlier + (pieces + rest)
  {
    assert earlier + (pieces + rest) == (earlier + pieces) + rest;
  }

  lemma OneChunkMore(chunks: seq<seq<byte>>, i: nat, answers: nat -> Answers, earlier: seq<seq<byte>>,
                     taken: seq<seq<byte>>, hit: Option<nat>, t: Snapshot)
    requires i < |chunks| && earlier + AllPieces(chunks[i..]) == AllPieces(chunks)
    requires (forall j :: 0 <= j < i ==> |chunks[j]| <= 65_536)
    requires Course(taken, answers, hit, t)
    requires |chunks[i]| > 65_536 ==> taken == earlier && t.failure == Some(ChunkLimit)
    requires |chunks[i]| <= 65_536 ==>
               && taken <= earlier + Pieces(chunks[i]) && (t.failure.None? ==> taken == earlier + Pieces(chunks[i]))
               && (t.failure.Some? ==> hit.Some?) && DrainGoesOn(taken, answers, hit, t, |Concat(chunks)|)
    ensures UpTo(chunks, i + 1, answers, taken, hit, t)
  {
    assert chunks[i..][0] == chunks[i] && chunks[i..][1..] == chunks[i + 1..];
    if |chunks[i]| > 65_536 {
      assert AllPieces(chunks[i..]) == [] && earlier + [] == earlier;
    } else {
      PrefixOfJoin(taken, earlier, Pieces(chunks[i]), AllPieces(chunks[i + 1..]));
    }
  }

  lemma PrefixAgrees(parts: seq<seq<byte>>, taken: seq<seq<byte>>, k: nat)
    requires taken <= parts && k < |taken|
    ensures parts[..k] == taken[..k] && parts[k] == taken[k] && Unfinished(parts, k) == Unfinished(taken, k)
  {
  }

  lemma SmoothWithin(parts: seq<seq<byte>>, taken: seq<seq<byte>>, answers: nat -> Answers, d: nat, e: nat)
    requires taken <= parts && d < e <= |taken| && SmoothUpTo(taken, answers, e)
    ensures Smooth(parts, d, answers(d))
  {
    PrefixAgrees(parts, taken, d);
    assert Smooth(taken, d, answers(d));
  }

  lemma SmoothBelow(parts: seq<seq<byte>>, taken: seq<seq<byte>>, answers: nat -> Answers, e: nat, d: nat)
    requires taken <= parts && e < d <= |parts| && e < |taken| && SmoothUpTo(parts, answers, d)
    ensures Smooth(taken, e, answers(e))
  {
    PrefixAgrees(parts, taken, e);
    assert Smooth(parts, e, answers(e));
  }

  /** The first part that does not go smoothly is the one that capture met. */
  lemma FirstTrouble(chunks: seq<seq<byte>>, answers: nat -> Answers, taken: seq<seq<byte>>, hit: Option<nat>,
                     s: Snapshot, d: nat)
    requires Ran(chunks, answers, taken, hit, s)
    requires var parts := AllPieces(chunks);
             d < |parts| && SmoothUpTo(parts, answers, d) && !Smooth(parts, d, answers(d))
    ensures hit == Some(d) && d < |taken| && taken[..d] == AllPieces(chunks)[..d] && taken[d] == AllPieces(chunks)[d]
    ensures Unfinished(taken, d) == Unfinished(AllPieces(chunks), d)
  {
    var parts := AllPieces(chunks);
    var e := if hit.Some? then hit.value else |taken|;
    if d < e {
      SmoothWithin(parts, taken, answers, d, e);
    }
    if e < d && hit.Some? {
      SmoothBelow(parts, taken, answers, e, d);
    }
    assert hit == Some(d);
    PrefixAgrees(parts, taken, d);
  }

  lemma NoTrouble(chunks: seq<seq<byte>>, answers: nat -> Answers, taken: seq<seq<byte>>, hit: Option<nat>, s: Snapshot)
    requires Ran(chunks, answers, taken, hit, s)
    requires SmoothUpTo(AllPieces(chunks), answers, |AllPieces(chunks)|)
    ensures hit.None? && taken == AllPieces(chunks)
  {
    if hit.Some? {
      SmoothBelow(AllPieces(chunks), taken, answers, hit.value, |AllPieces(chunks)|);
    }
  }

  /** What is reported for a failure: bytes that are kept and nobody receives make it one of storage. */
  function Reported(f: Failure, spool: seq<byte>, receiver: bool): Option<Failure> {
    Some(if spool != [] && !receiver then OutputStorage else f)
  }

  /** What one part means for the course of the capture. */
  lemma FollowPart(parts: seq<seq<byte>>, part: seq<byte>, answers: nat -> Answers, hit: Option<nat>,
                   was: Snapshot, t: Snapshot, total: nat)
    returns (now: Option<nat>)
    requires Course(parts, answers, hit, was) && was.failure.None?
    requires t == Took(was, part, answers(|parts|))
    requires t.failure.None? && !t.draining ==> Even(t, t.log)
    requires DrainGoesOn(parts, answers, hit, was, total)
    requires Concat(was.yielded) + was.spool == was.log && |was.log| + |part| <= total
    ensures Course(parts + [part], answers, now, t) && (t.failure.Some? ==> now.Some?)
    ensures DrainGoesOn(parts + [part], answers, now, t, total)
  {
    now := CourseGoesOn(parts, part, answers, hit, was, t);
    DrainTakes(parts, part, answers, hit, now, was, t, total);
  }

  lemma PieceTaken(taken: seq<seq<byte>>, piece: seq<byte>, rest: seq<seq<byte>>, goal: seq<seq<byte>>)
    requires taken + ([piece] + rest) == goal
    ensures (taken + [piece]) + rest == goal && taken + [piece] <= goal
  {
    assert (taken + [piece]) + rest == taken + ([piece] + rest);
  }

  /**
   What the first part that does not go smoothly leads to: the lines before it are yielded and no more, all that
   was read is in the log, and the failure says what was wrong.
   */
  ghost predicate Told(before: seq<byte>, part: seq<byte>, unfinished: nat, a: Answers, receiver: bool, t: Snapshot) {
    var asks := a.shouldDrain || a.write.Drain?;
    var over := unfinished + |part| > (if a.shouldDrain then 2_097_152 else 1_048_576);
    && t.yielded == Undisturbed(before).0 && t.failure.Some?
    && (over ==> t.failure == Reported(FrameLimit, t.spool, receiver) && t.log == before)
    && (!over && a.write.Throws? ==> t.failure == Reported(WriteRefused, t.spool, receiver) && t.log == before)
    && (!over && !a.write.Throws? && a.spoolFails ==> t.failure == Some(OutputStorage) && t.log == before)
    && (!over && !a.write.Throws? && !a.spoolFails && a.logFails ==>
          t.failure == Some(OutputStorage) && t.log == before && t.unlogged == part)
    && (!over && Written(a) ==> before + part <= t.log)
    && (!over && Written(a) && !asks && EndsInNewline(part) && a.frame.Throws? ==>
          t.failure == Reported(AdmissionRefused, t.spool, receiver) && t.log == before + part)
    && (!over && Written(a) && !asks && EndsInNewline(part) && a.frame.Granted? && a.publishFails ==>
          t.failure == Some(OutputStorage) && t.log == before + part)
  }

  /** What the end of input or a failure makes of the state. */
  ghost predicate Concluded(s: Snapshot, t: Snapshot, drainAtEnd: bool, receiver: bool) {
    && t.yielded == s.yielded && t.spool == s.spool && t.log == s.log && t.unlogged == s.unlogged
    && t.failure ==
       if s.failure.Some? then Reported(s.failure.value, s.spool, receiver)
       else if s.draining || (s.spool != [] && drainAtEnd) then Reported(OutputIncomplete, s.spool, receiver)
       else if s.spool != [] then Reported(FrameIncomplete, s.spool, receiver)
       else None
  }

  lemma TroubleIsTold(chunks: seq<seq<byte>>, answers: nat -> Answers, taken: seq<seq<byte>>, hit: Option<nat>,
                      s: Snapshot, t: Snapshot, d: nat, drainAtEnd: bool, receiver: bool)
    requires Ran(chunks, answers, taken, hit, s) && Concluded(s, t, drainAtEnd, receiver)
    requires var parts := AllPieces(chunks);
             d < |parts| && SmoothUpTo(parts, answers, d) && !Smooth(parts, d, answers(d))
    ensures var parts := AllPieces(chunks);
            Told(Concat(parts[..d]), parts[d], Unfinished(parts, d), answers(d), receiver, t)
  {
    FirstTrouble(chunks, answers, taken, hit, s, d);
    if s.failure.None? {
      StruckDrains(taken, d, answers(d), s);
    }
  }

  lemma DrainIsTold(chunks: seq<seq<byte>>, answers: nat -> Answers, taken: seq<seq<byte>>, hit: Option<nat>,
                    s: Snapshot, t: Snapshot, d: nat, drainAtEnd: bool, receiver: bool)
    requires Ran(chunks, answers, taken, hit, s) && Concluded(s, t, drainAtEnd, receiver)
    requires var parts := AllPieces(chunks);
             d < |parts| && SmoothUpTo(parts, answers, d) && Asked(parts, d, answers(d))
    requires AllWritten(answers) && Bounded(chunks) && |Concat(chunks)| <= |Concat(t.yielded)| + 2_097_152
    ensures t.log == Concat(chunks) && t.failure == Reported(OutputIncomplete, t.spool, receiver)
  {
    FirstTrouble(chunks, answers, taken, hit, s, d);
  }

  lemma {:induction false} PiecesAreParts(chunk: seq<byte>)
    ensures forall i :: 0 <= i < |Pieces(chunk)| ==> |Pieces(chunk)[i]| > 0 && IsPiece(Pieces(chunk)[i])
    decreases |chunk|
  {
    if chunk != [] {
      var k := IndexOf(chunk, 0);
      PiecesAreParts(chunk[if k == |chunk| then k else k + 1..]);
    }
  }

  lemma {:induction false} AllPiecesAreParts(chunks: seq<seq<byte>>)
    ensures forall i :: 0 <= i < |AllPieces(chunks)| ==> |AllPieces(chunks)[i]| > 0 && IsPiece(AllPieces(chunks)[i])
  {
    if chunks != [] {
      PiecesAreParts(chunks[0]);
      AllPiecesAreParts(chunks[1..]);
    }
  }

  /** A line that grows too long fails the reference in the same place. */
  lemma TooLongInFront(before: seq<byte>, part: seq<byte>, rest: seq<byte>)
    requires IsPiece(part) && Undisturbed(before).1 in {None, Some(FrameIncomplete)}
    requires Tail(before, |before|) + |part| > MAX_FRAME_BYTES
    ensures Undisturbed(before + part + rest) == (Undisturbed(before).0, Some(FrameLimit))
  {
    var frames, open := LinesAndRest(before);
    assert before + part + rest == Concat(frames) + (open + part + rest);
    Overlong(open + part, rest);
    FramesInFront(frames, open + part + rest);
    assert frames + [] == frames;
  }

  lemma {:induction false} ConcatSplit(parts: seq<seq<byte>>, d: nat)
    requires d < |parts|
    ensures Concat(parts) == Concat(parts[..d]) + parts[d] + Concat(parts[d + 1..])
  {
    assert parts == parts[..d] + parts[d..];
    ConcatAppend(parts[..d], parts[d..]);
    ConcatFront(parts[d..]);
    assert parts[d..][1..] == parts[d + 1..];
    assert Concat(parts[..d]) + (parts[d] + Concat(parts[d + 1..])) ==
           Concat(parts[..d]) + parts[d] + Concat(parts[d + 1..]);
  }

  lemma {:induction false} SmoothInput(parts: seq<seq<byte>>, answers: nat -> Answers, d: nat)
    requires SmoothUpTo(parts, answers, d) && forall i :: 0 <= i < |parts| ==> |parts[i]| > 0 && IsPiece(parts[i])
    ensures Undisturbed(Concat(parts[..d])).1 in {None, Some(FrameIncomplete)}
  {
    if d > 0 {
      SmoothInput(parts, answers, d - 1);
      assert parts[..d][..d - 1] == parts[..d - 1];
      assert Smooth(parts, d - 1, answers(d - 1));
      OneLineMore(Concat(parts[..d - 1]), parts[d - 1]);
    }
  }

  /** Whole lines and an unfinished one. */
  lemma LinesAndRest(input: seq<byte>) returns (frames: seq<seq<byte>>, open: seq<byte>)
    requires Undisturbed(input).1 in {None, Some(FrameIncomplete)}
    ensures frames == Undisturbed(input).0 && input == Concat(frames) + open
    ensures (forall i :: 0 <= i < |frames| ==> IsFrame(frames[i])) && NoNewline(open) && |open| == Tail(input, |input|)
  {
    frames := Undisturbed(input).0;
    UndisturbedIsExact(input);
    open := input[|Concat(frames)|..];
    assert input == Concat(frames) + open;
    FramesEndLines(frames, open);
  }

  lemma LineEnds(open: seq<byte>, part: seq<byte>)
    requires NoNewline(open) && IsPiece(part) && |part| > 0 && |open| + |part| <= MAX_FRAME_BYTES
    ensures Undisturbed(open + part).1 in {None, Some(FrameIncomplete)}
  {
    if EndsInNewline(part) {
      FirstFrame(open + part, []);
      assert open + part + [] == open + part;
    } else {
      UnfinishedLine(open + part);
    }
  }

  lemma OneLineMore(before: seq<byte>, part: seq<byte>)
    requires IsPiece(part) && |part| > 0 && Undisturbed(before).1 in {None, Some(FrameIncomplete)}
    requires Tail(before, |before|) + |part| <= MAX_FRAME_BYTES
    ensures Undisturbed(before + part).1 in {None, Some(FrameIncomplete)}
  {
    var frames, open := LinesAndRest(before);
    Reassociate(Concat(frames), open, part);
    FramesInFront(frames, open + part);
    LineEnds(open, part);
  }

  /** Without drains and failures, capture comes to what the reference says. */
  lemma CalmIsUndisturbed(chunks: seq<seq<byte>>, answers: nat -> Answers, taken: seq<seq<byte>>, hit: Option<nat>,
                          s: Snapshot)
    requires Ran(chunks, answers, taken, hit, s) && CalmRun(chunks, answers)
    requires s.failure.None? && !s.draining ==>
               Undisturbed(s.log) == (s.yielded, if s.spool == [] then None else Some(FrameIncomplete))
    ensures Undisturbed(Concat(chunks)) ==
            (s.yielded, if s.failure.Some? then s.failure else if s.spool == [] then None else Some(FrameIncomplete))
    ensures s.failure.None? ==> !s.draining
  {
    var parts := AllPieces(chunks);
    AllPiecesJoin(chunks);
    AllPiecesAreParts(chunks);
    if hit.Some? {
      var d := hit.value;
      PrefixAgrees(parts, taken, d);
      SmoothInput(taken, answers, d);
      assert Calm(answers(d));
      ConcatSplit(parts, d);
      TooLongInFront(Concat(parts[..d]), parts[d], Concat(parts[d + 1..]));
    }
  }

  class FrameCapture {
    var spool: seq<byte>
    var log: seq<byte>
    var yielded: seq<seq<byte>>
    var firstLogByteOffset: nat
    var completeFrames: nat
    var trailingFrameBytes: nat
    var draining: bool
    var failure: Option<Failure>
    var segment: Option<Segment>
    ghost var unlogged: seq<byte>

    /** Nothing captured is lost or counted twice. */
    ghost predicate Accounted()
      reads this
    {
      && Concat(yielded) + spool == log + unlogged
      && firstLogByteOffset == |Concat(yielded)|
      && (forall i :: 0 <= i < |yielded| ==> IsFrame(yielded[i]))
      && |spool| <= (if draining then MAX_DRAIN_BYTES else MAX_FRAME_BYTES)
      && CountsHold(spool, unlogged, completeFrames, trailingFrameBytes)
    }

    ghost function Now(): Snapshot
      reads this
    {
      Snapshot(yielded, spool, log, unlogged, draining, failure)
    }

    /** Between any two parts, and after any failure. */
    ghost predicate Valid()
      reads this
    {
      && Accounted()
      && (failure.None? && !draining ==> NoNewline(spool))
      && (unlogged != [] ==> failure == Some(OutputStorage))
    }

    constructor ()
      ensures Valid() && spool == [] && log == [] && yielded == [] && !draining && failure.None? && segment.None?
    {
      spool, log, yielded, firstLogByteOffset := [], [], [], 0;
      completeFrames, trailingFrameBytes, draining, failure, segment := 0, 0, false, None, None;
      unlogged := [];
    }

    /** Drain requests, the size bound and write admission, all before a byte is written. */
    method AdmitPart(part: seq<byte>, a: Answers)
      requires Valid() && failure.None?
      modifies this`draining, this`failure
      ensures Valid()
      ensures failure.None? ==> |spool| + |part| <= (if draining then MAX_DRAIN_BYTES else MAX_FRAME_BYTES)
      ensures var early := old(draining) || a.shouldDrain;
              var over := |spool| + |part| > (if early then 2_097_152 else 1_048_576);
              && (draining <==> early || (!over && a.write.Drain?))
              && failure == if over then Some(FrameLimit) else if a.write.Throws? then Some(WriteRefused)
                            else if a.spoolFails then Some(OutputStorage) else None
    {
      if a.shouldDrain {
        draining := true;
      }
      if |spool| + |part| > (if draining then MAX_DRAIN_BYTES else MAX_FRAME_BYTES) {
        failure := Some(FrameLimit);
        return;
      }
      if a.write.Throws? {
        failure := Some(WriteRefused);
        return;
      }
      if a.write.Drain? {
        draining := true;
      }
      if a.spoolFails {
        failure := Some(OutputStorage);
      }
    }

    /** Write one admitted part to the spool and then to the log; only then is its newline counted. */
    method AppendPart(part: seq<byte>, logFails: bool)
      requires Valid() && failure.None? && |part| > 0 && IsPiece(part)
      requires |spool| + |part| <= (if draining then MAX_DRAIN_BYTES else MAX_FRAME_BYTES)
      modifies this`spool, this`log, this`unlogged, this`completeFrames, this`trailingFrameBytes, this`failure
      ensures Accounted() && spool == old(spool) + part
      ensures logFails ==> failure == Some(OutputStorage) && log == old(log) && unlogged == part
      ensures !logFails ==> failure.None? && log == old(log) + part && unlogged == []
    {
      CountsOfSpooled(spool, part, completeFrames, trailingFrameBytes);
      SpooledIsKept(Concat(yielded), spool, log, part);
      spool := spool + part;
      trailingFrameBytes := trailingFrameBytes + |part|;
      if logFails {
        failure := Some(OutputStorage);
        unlogged := part;
        return;
      }
      log := log + part;
      if part[|part| - 1] == NEWLINE {
        completeFrames := completeFrames + 1;
        trailingFrameBytes := 0;
      }
    }

    /** One complete undrained frame: admission, publication, then the spool is cleared. */
    method HandOn(a: Answers)
      requires Accounted() && unlogged == [] && IsFrame(spool) && !draining && failure.None?
      modifies this`spool, this`yielded, this`firstLogByteOffset, this`completeFrames, this`trailingFrameBytes,
               this`draining, this`failure
      ensures Valid()
      ensures failure.None? && !draining ==> yielded == old(yielded) + [old(spool)] && spool == []
      ensures failure.Some? || draining ==> yielded == old(yielded) && spool == old(spool)
      ensures draining <==> a.frame.Drain?
      ensures failure == if a.frame.Throws? then Some(AdmissionRefused)
                         else if a.publishFails && !a.frame.Drain? then Some(OutputStorage) else None
    {
      if a.frame.Throws? {
        failure := Some(AdmissionRefused);
        return;
      }
      if a.frame.Drain? {
        draining := true;
        return;
      }
      if a.publishFails {
        failure := Some(OutputStorage);
        return;
      }
      ConcatPush(yielded, spool);
      yielded := yielded + [spool];
      firstLogByteOffset := firstLogByteOffset + |spool|;
      spool := [];
      completeFrames, trailingFrameBytes := 0, 0;
      assert Concat(yielded) + [] == Concat(yielded);
    }

    method TakePart(part: seq<byte>, a: Answers)
      requires Valid() && failure.None? && |part| > 0 && IsPiece(part)
      modifies this`spool, this`log, this`unlogged, this`yielded, this`firstLogByteOffset, this`completeFrames,
               this`trailingFrameBytes, this`draining, this`failure
      ensures Valid() && Now() == Took(old(Now()), part, a)
    {
      if !draining {
        LineGrows(spool, part);
      }
      AdmitPart(part, a);
      if failure.Some? {
        return;
      }
      AppendPart(part, a.logFails);
      if failure.Some? || part[|part| - 1] != NEWLINE || draining {
        return;
      }
      HandOn(a);
    }

    /**
     The inner loop: cut one chunk at its newlines. `before` are the parts of earlier chunks, `taken` those so
     far, of which `hit` is the first that did not go smoothly; `total` bounds what will have been read.
     */
    method TakeChunk(chunk: seq<byte>, answers: nat -> Answers, part: nat, ghost before: seq<seq<byte>>,
                     ghost start: Option<nat>, ghost total: nat)
      returns (parts: nat, ghost taken: seq<seq<byte>>, ghost hit: Option<nat>)
      requires Valid() && failure.None?
      requires part == |before| && Course(before, answers, start, Now())
      requires DrainGoesOn(before, answers, start, Now(), total) && |log| + |chunk| <= total
      modifies this`spool, this`log, this`unlogged, this`yielded, this`firstLogByteOffset, this`completeFrames,
               this`trailingFrameBytes, this`draining, this`failure
      ensures Valid()
      ensures old(log) <= log <= old(log) + chunk && (failure.None? ==> log == old(log) + chunk)
      ensures parts == |taken| && Course(taken, answers, hit, Now())
      ensures |chunk| > 65_536 ==> taken == before && hit == start && failure == Some(ChunkLimit)
      ensures |chunk| <= 65_536 ==>
                && taken <= before + Pieces(chunk) && (failure.None? ==> taken == before + Pieces(chunk))
                && (failure.Some? ==> hit.Some?) && DrainGoesOn(taken, answers, hit, Now(), total)
    {
      parts, taken, hit := part, before, start;
      if |chunk| > MAX_CHUNK_BYTES {
        failure := Some(ChunkLimit);
        return;
      }
      var offset := 0;
      ghost var goal := before + Pieces(chunk);
      assert chunk[0..] == chunk;
      while offset < |chunk| && failure.None?
        invariant offset <= |chunk| && parts == |taken|
        invariant Valid() && LogIs(old(log), chunk[..offset])
        invariant Course(taken, answers, hit, Now()) && DrainGoesOn(taken, answers, hit, Now(), total)
        invariant taken + Pieces(chunk[offset..]) == goal
        invariant failure.Some? ==> hit.Some?
        decreases |chunk| - offset, if failure.None? then 1 else 0
      {
        offset, taken, hit := TakeNext(chunk, offset, answers, parts, taken, hit, total, old(log), goal);
        parts := parts + 1;
      }
      assert chunk[|chunk|..] == [] && chunk[..|chunk|] == chunk;
    }

    /** So much has been read since some state of the log; all of it is logged unless something failed. */
    ghost predicate LogIs(start: seq<byte>, read: seq<byte>)
      reads this
    {
      start <= log <= start + read && (failure.None? ==> log == start + read)
    }

    /** The part up to the next newline. */
    method TakeNext(chunk: seq<byte>, offset: nat, answers: nat -> Answers, index: nat, ghost taken: seq<seq<byte>>,
                    ghost hit: Option<nat>, ghost total: nat, ghost start: seq<byte>, ghost goal: seq<seq<byte>>)
      returns (end: nat, ghost longer: seq<seq<byte>>, ghost now: Option<nat>)
      requires Valid() && failure.None? && offset < |chunk| && LogIs(start, chunk[..offset])
      requires index == |taken| && Course(taken, answers, hit, Now())
      requires DrainGoesOn(taken, answers, hit, Now(), total) && |start| + |chunk| <= total
      requires taken + Pieces(chunk[offset..]) == goal
      modifies this`spool, this`log, this`unlogged, this`yielded, this`firstLogByteOffset, this`completeFrames,
               this`trailingFrameBytes, this`draining, this`failure
      ensures offset < end <= |chunk| && |longer| == index + 1
      ensures Valid() && LogIs(start, chunk[..end])
      ensures Course(longer, answers, now, Now()) && DrainGoesOn(longer, answers, now, Now(), total)
      ensures longer + Pieces(chunk[end..]) == goal
      ensures failure.Some? ==> now.Some?
    {
      var newline := IndexOf(chunk, offset);
      end := if newline == |chunk| then |chunk| else newline + 1;
      var part := chunk[offset..end];
      PiecesFrom(chunk, offset);
      longer := taken + [part];
      PieceTaken(taken, part, Pieces(chunk[end..]), goal);
      now := TakePiece(part, answers, index, taken, hit, total);
      LogAfterPart(start, chunk, offset, end, log);
    }

    /** One part, and what it means for the course of the capture. */
    method TakePiece(part: seq<byte>, answers: nat -> Answers, index: nat, ghost taken: seq<seq<byte>>,
                     ghost hit: Option<nat>, ghost total: nat)
      returns (ghost now: Option<nat>)
      requires Valid() && failure.None? && |part| > 0 && IsPiece(part)
      requires index == |taken| && Course(taken, answers, hit, Now())
      requires DrainGoesOn(taken, answers, hit, Now(), total) && |log| + |part| <= total
      modifies this`spool, this`log, this`unlogged, this`yielded, this`firstLogByteOffset, this`completeFrames,
               this`trailingFrameBytes, this`draining, this`failure
      ensures Valid()
      ensures old(log) <= log <= old(log) + part && (failure.None? ==> log == old(log) + part)
      ensures Course(taken + [part], answers, now, Now()) && (failure.Some? ==> now.Some?)
      ensures DrainGoesOn(taken + [part], answers, now, Now(), total)
    {
      ghost var was := Now();
      StateIsDetermined();
      TookLogs(was, part, answers(index));
      TakePart(part, answers(index));
      StateIsDetermined();
      now := FollowPart(taken, part, answers, hit, was, Now(), total);
    }

    lemma StateIsDetermined()
      requires Valid()
      ensures failure.None? && !draining ==> Even(Now(), log)
      ensures failure.None? && !draining ==>
                Undisturbed(log) == (yielded, if spool == [] then None else Some(FrameIncomplete))
      ensures unlogged == [] ==> Concat(yielded) + spool == log
    {
      assert log + [] == log;
      if failure.None? && !draining {
        LogDetermines(yielded, spool, log);
      }
    }

    lemma LogAfterPart(start: seq<byte>, chunk: seq<byte>, offset: nat, end: nat, now: seq<byte>)
      requires offset <= end <= |chunk|
      requires start + chunk[..offset] <= now <= start + chunk[..offset] + chunk[offset..end]
      ensures start <= now <= start + chunk[..end]
      ensures now == start + chunk[..offset] + chunk[offset..end] ==> now == start + chunk[..end]
    {
      assert start + chunk[..offset] + chunk[offset..end] == start + chunk[..end];
    }

    /** Publish what a drain kept; without a receiver this fails. */
    method PublishSegment(receiver: bool) returns (ok: bool)
      requires Accounted()
      modifies this`segment
      ensures old(segment).Some? || !draining || spool == [] ==> ok && segment == old(segment)
      ensures old(segment).None? && draining && spool != [] ==>
                ok == receiver && segment ==
                  (if receiver then Some(Described(spool, yielded, unlogged)) else None)
    {
      if !draining || segment.Some? || |spool| == 0 {
        return true;
      }
      if !receiver {
        return false;
      }
      segment := Some(Segment(|spool|, firstLogByteOffset, completeFrames, trailingFrameBytes));
      return true;
    }

    /** The whole capture: chunks, the end of input, and the failure path that still publishes a segment. */
    method Capture(chunks: seq<seq<byte>>, answers: nat -> Answers, drainAtEnd: bool, receiver: bool)
      requires Valid() && spool == [] && log == [] && yielded == [] && !draining && failure.None? && segment.None?
      modifies this
      ensures Accounted()
      ensures log <= Concat(chunks)
      ensures unlogged == [] || failure == Some(OutputStorage)
      ensures failure.None? ==> log == Concat(chunks) && spool == [] && segment.None?
      ensures segment.Some? <==> failure.Some? && spool != [] && receiver
      ensures segment.Some? ==> segment.value == Described(spool, yielded, unlogged)
      ensures CalmRun(chunks, answers) && !drainAtEnd && receiver ==>
                (yielded, failure) == Undisturbed(Concat(chunks))
      ensures var parts := AllPieces(chunks);
              forall d: nat :: d < |parts| && SmoothUpTo(parts, answers, d) && !Smooth(parts, d, answers(d)) ==>
                Told(Concat(parts[..d]), parts[d], Unfinished(parts, d), answers(d), receiver, Now())
      ensures var parts := AllPieces(chunks);
              AllWritten(answers) && Bounded(chunks) && |Concat(chunks)| <= |Concat(yielded)| + 2_097_152 ==>
                forall d: nat :: d < |parts| && SmoothUpTo(parts, answers, d) && Asked(parts, d, answers(d)) ==>
                  log == Concat(chunks) && failure == Reported(OutputIncomplete, spool, receiver)
      ensures var parts := AllPieces(chunks);
              SmoothUpTo(parts, answers, |parts|) ==>
                && yielded == Undisturbed(Concat(parts)).0 && log == Concat(parts)
                && failure == if !Bounded(chunks) then Reported(ChunkLimit, spool, receiver)
                              else if spool == [] then None
                              else Reported(if drainAtEnd then OutputIncomplete else FrameIncomplete, spool, receiver)
    {
      ghost var taken, hit := TakeAll(chunks, answers);
      ghost var was := Now();
      StateIsDetermined();
      Conclude(drainAtEnd, receiver);
      ghost var parts := AllPieces(chunks);
      forall d: nat | d < |parts| && SmoothUpTo(parts, answers, d) && !Smooth(parts, d, answers(d))
        ensures Told(Concat(parts[..d]), parts[d], Unfinished(parts, d), answers(d), receiver, Now())
      {
        TroubleIsTold(chunks, answers, taken, hit, was, Now(), d, drainAtEnd, receiver);
      }
      forall d: nat | d < |parts| && SmoothUpTo(parts, answers, d) && Asked(parts, d, answers(d)) && AllWritten(answers)
                      && Bounded(chunks) && |Concat(chunks)| <= |Concat(yielded)| + 2_097_152
        ensures log == Concat(chunks) && failure == Reported(OutputIncomplete, spool, receiver)
      {
        DrainIsTold(chunks, answers, taken, hit, was, Now(), d, drainAtEnd, receiver);
      }
      if SmoothUpTo(parts, answers, |parts|) {
        NoTrouble(chunks, answers, taken, hit, was);
      }
      if CalmRun(chunks, answers) && !drainAtEnd && receiver {
        CalmIsUndisturbed(chunks, answers, taken, hit, was);
      }
    }

    /** The outer loop over the chunks the source delivers. */
    method TakeAll(chunks: seq<seq<byte>>, answers: nat -> Answers)
      returns (ghost taken: seq<seq<byte>>, ghost hit: Option<nat>)
      requires Valid() && spool == [] && log == [] && yielded == [] && !draining && failure.None?
      modifies this`spool, this`log, this`unlogged, this`yielded, this`firstLogByteOffset, this`completeFrames,
               this`trailingFrameBytes, this`draining, this`failure
      ensures Valid()
      ensures log <= Concat(chunks) && (failure.None? ==> log == Concat(chunks))
      ensures Ran(chunks, answers, taken, hit, Now())
    {
      taken, hit := [], None;
      var part := 0;
      var i := 0;
      assert chunks[0..] == chunks;
      while i < |chunks| && failure.None?
        invariant i <= |chunks| && part == |taken|
        invariant Valid() && ReadSoFar(chunks, i)
        invariant UpTo(chunks, i, answers, taken, hit, Now())
        decreases |chunks| - i, if failure.None? then 1 else 0
      {
        part, taken, hit := TakeOne(chunks, i, answers, part, taken, hit);
        i := i + 1;
      }
      if failure.None? {
        assert chunks[i..] == [];
        Regroup(log, [], []);
      }
    }

    ghost predicate ReadSoFar(chunks: seq<seq<byte>>, i: nat)
      requires i <= |chunks|
      reads this
    {
      log <= Concat(chunks) && (failure.None? ==> log + Concat(chunks[i..]) == Concat(chunks))
    }

    /** The next chunk, and what it means for all of them. */
    method TakeOne(chunks: seq<seq<byte>>, i: nat, answers: nat -> Answers, part: nat, ghost taken: seq<seq<byte>>,
                   ghost hit: Option<nat>)
      returns (parts: nat, ghost longer: seq<seq<byte>>, ghost now: Option<nat>)
      requires Valid() && failure.None? && i < |chunks| && ReadSoFar(chunks, i)
      requires part == |taken| && UpTo(chunks, i, answers, taken, hit, Now())
      modifies this`spool, this`log, this`unlogged, this`yielded, this`firstLogByteOffset, this`completeFrames,
               this`trailingFrameBytes, this`draining, this`failure
      ensures Valid() && ReadSoFar(chunks, i + 1)
      ensures parts == |longer| && UpTo(chunks, i + 1, answers, longer, now, Now())
    {
      NextChunk(chunks, i);
      Regroup(log, chunks[i], Concat(chunks[i + 1..]));
      parts, longer, now := TakeChunk(chunks[i], answers, part, taken, hit, |Concat(chunks)|);
      OneChunkMore(chunks, i, answers, taken, longer, now, Now());
    }

    method Conclude(drainAtEnd: bool, receiver: bool)
      requires Valid() && segment.None?
      modifies this`draining, this`failure, this`segment
      ensures Accounted() && (unlogged == [] || failure == Some(OutputStorage))
      ensures segment.Some? <==> failure.Some? && spool != [] && receiver
      ensures segment.Some? ==> segment.value == Described(spool, yielded, unlogged)
      ensures Concluded(old(Now()), Now(), drainAtEnd, receiver)
    {
      if failure.None? {
        if |spool| != 0 && drainAtEnd {
          draining := true;
        }
        if draining {
          var published := PublishSegment(receiver);
          failure := Some(OutputIncomplete);
        } else if |spool| != 0 {
          failure := Some(FrameIncomplete);
        }
      }
      if failure.Some? {
        draining := |spool| > 0;
        var ok := PublishSegment(receiver);
        if !ok {
          failure := Some(OutputStorage);
        }
      }
    }
  }
}
