/**
 Receipts and the event stream together: every position a receipt names is that of an event of its own
 command in the one stream, and is a row of the outbox tables until it is pruned.
 */
module EvidenceJournal {
  import opened Wrappers
  import E = EventStream
  import P = ReceiptProtocol
  import R = Receipts
  import Runs = ReceiptRuns
  import O = Outbox
  import B = CommandReceipts
  import SortKeys

  datatype Journal = Journal(host: P.Host, stream: E.Stream)

  /** `others` and `own` are the events that the act appends, as drafts; unused ones do not matter. */
  datatype Op =
    | On(id: string, act: P.Act, others: seq<E.Draft>, own: E.Draft)
    | Emit(draft: E.Draft)
    | AckTo(through: E.Sequence, at: E.Time)
    | Prune(cutoff: Option<E.Time>)
    | Restart

  function Initial(hostKey: string): Journal {
    Journal(P.Initial(hostKey), E.EMPTY)
  }

  /** One transaction an event. */
  function Singles(drafts: seq<E.Draft>): seq<E.Op> {
    if drafts == [] then [] else [E.DoAppend([drafts[0]])] + Singles(drafts[1..])
  }

  function DraftsOf(j: Journal, op: Op): seq<E.Draft> {
    match op
    case On(id, act, others, own) =>
      if P.Extent(j.host.hostKey, id, j.host.Of(id), act, j.host.next).1 then others + [own] else others
    case Emit(draft) => [draft]
    case _ => []
  }

  function StreamOps(j: Journal, op: Op): seq<E.Op> {
    match op
    case AckTo(through, at) => [E.DoAck(through, at)]
    case Prune(cutoff) => [E.DoPrune(cutoff)]
    case Restart => [E.DoRestart]
    case _ => Singles(DraftsOf(j, op))
  }

  function HostOps(j: Journal, op: Op): seq<P.Op> {
    match op
    case On(id, act, _, _) => [P.On(id, act)]
    case Emit(_) => [P.Emit]
    case AckTo(through, _) => if j.stream.Readable() then [P.Ack(through)] else []
    case Prune(_) => []
    case Restart => [P.Restart]
  }

  function Step(j: Journal, op: Op): (k: Journal)
    requires j.stream.Valid()
    ensures k.stream.Valid()
  {
    Journal(P.Run(j.host, HostOps(j, op)), E.Run(j.stream, StreamOps(j, op)))
  }

  function Run(j: Journal, ops: seq<Op>): (k: Journal)
    requires j.stream.Valid()
    ensures k.stream.Valid()
    decreases |ops|
  {
    if ops == [] then j else Run(Step(j, ops[0]), ops[1..])
  }

  /** The act's events can be appended (a refused append is a lost write) and its own carries its id. */
  predicate Possible(j: Journal, op: Op) {
    && (forall i :: 0 <= i < |DraftsOf(j, op)| ==> E.Appendable(DraftsOf(j, op)[i]))
    && |j.stream.log| + |DraftsOf(j, op)| <= SortKeys.MAX_SEQUENCE + 1
    && (op.On? ==>
          && P.Addressed(op.id, op.act) && op.own.id == op.id
          && |op.others| == P.Extent(j.host.hostKey, op.id, j.host.Of(op.id), op.act, j.host.next).0)
  }

  predicate AllPossible(j: Journal, ops: seq<Op>)
    requires j.stream.Valid()
    decreases |ops|
  {
    ops == [] || (Possible(j, ops[0]) && AllPossible(Step(j, ops[0]), ops[1..]))
  }

  // ------------------------------------------------------------- the stream

  lemma OneAppends(s: E.Stream, draft: E.Draft)
    requires s.Valid() && E.Appendable(draft) && |s.log| <= SortKeys.MAX_SEQUENCE
    ensures var t := E.Step(s, E.DoAppend([draft]));
            t.log == s.log + E.Emitted([draft]) && t.acked == s.acked
  {
    E.AppendEffect(s, [draft]);
  }

  lemma EmittedFirst(drafts: seq<E.Draft>)
    requires drafts != [] && forall i :: 0 <= i < |drafts| ==> E.Appendable(drafts[i])
    ensures E.Emitted(drafts) == E.Emitted([drafts[0]]) + E.Emitted(drafts[1..])
  {
  }

  lemma {:induction false} SinglesAppend(s: E.Stream, drafts: seq<E.Draft>)
    requires s.Valid() && (forall i :: 0 <= i < |drafts| ==> E.Appendable(drafts[i]))
    requires |s.log| + |drafts| <= SortKeys.MAX_SEQUENCE + 1
    ensures E.Run(s, Singles(drafts)).log == s.log + E.Emitted(drafts)
    ensures E.Run(s, Singles(drafts)).acked == s.acked
    decreases |drafts|
  {
    if drafts == [] {
      assert s.log + E.Emitted(drafts) == s.log;
    } else {
      var first := E.DoAppend([drafts[0]]);
      OneAppends(s, drafts[0]);
      var t := E.Step(s, first);
      SinglesAppend(t, drafts[1..]);
      assert ([first] + Singles(drafts[1..]))[1..] == Singles(drafts[1..]);
      EmittedFirst(drafts);
    }
  }

  lemma {:induction false} RunsJoin(s: E.Stream, a: seq<E.Op>, b: seq<E.Op>)
    requires s.Valid()
    ensures E.Run(s, a + b) == E.Run(E.Run(s, a), b)
    decreases |a|
  {
    if a == [] {
      assert a + b == b;
    } else {
      var t := E.Step(s, a[0]);
      assert (a + b)[0] == a[0] && (a + b)[1..] == a[1..] + b;
      assert E.Run(s, a + b) == E.Run(t, a[1..] + b);
      RunsJoin(t, a[1..], b);
    }
  }

  function AllStreamOps(j: Journal, ops: seq<Op>): seq<E.Op>
    requires j.stream.Valid()
    decreases |ops|
  {
    if ops == [] then [] else StreamOps(j, ops[0]) + AllStreamOps(Step(j, ops[0]), ops[1..])
  }

  lemma {:induction false} StreamIsARun(j: Journal, ops: seq<Op>)
    requires j.stream.Valid()
    ensures Run(j, ops).stream == E.Run(j.stream, AllStreamOps(j, ops))
    decreases |ops|
  {
    if ops != [] {
      StreamIsARun(Step(j, ops[0]), ops[1..]);
      RunsJoin(j.stream, StreamOps(j, ops[0]), AllStreamOps(Step(j, ops[0]), ops[1..]));
    }
  }

  // --------------------------------------------------------------- the host

  function AllHostOps(j: Journal, ops: seq<Op>): seq<P.Op>
    requires j.stream.Valid()
    decreases |ops|
  {
    if ops == [] then [] else HostOps(j, ops[0]) + AllHostOps(Step(j, ops[0]), ops[1..])
  }

  lemma {:induction false} HostRunsJoin(h: P.Host, a: seq<P.Op>, b: seq<P.Op>)
    ensures P.Run(h, a + b) == P.Run(P.Run(h, a), b)
    decreases |a|
  {
    if a == [] {
      assert a + b == b;
    } else {
      assert (a + b)[0] == a[0] && (a + b)[1..] == a[1..] + b;
      HostRunsJoin(P.Step(h, a[0]), a[1..], b);
    }
  }

  lemma {:induction false} HostIsARun(j: Journal, ops: seq<Op>)
    requires j.stream.Valid() && AllPossible(j, ops)
    ensures Run(j, ops).host == P.Run(j.host, AllHostOps(j, ops))
    ensures P.AllAddressed(AllHostOps(j, ops))
    decreases |ops|
  {
    if ops != [] {
      HostIsARun(Step(j, ops[0]), ops[1..]);
      HostRunsJoin(j.host, HostOps(j, ops[0]), AllHostOps(Step(j, ops[0]), ops[1..]));
      AddressedJoin(HostOps(j, ops[0]), AllHostOps(Step(j, ops[0]), ops[1..]));
    }
  }

  lemma AddressedJoin(a: seq<P.Op>, b: seq<P.Op>)
    requires P.AllAddressed(a) && P.AllAddressed(b)
    ensures P.AllAddressed(a + b)
  {
  }

  // -------------------------------------------------------------- invariant

  ghost predicate Names(log: seq<E.Event>, id: string, position: Option<nat>) {
    position.Some? ==> position.value < |log| && log[position.value].id == id
  }

  ghost predicate NamesOwn(log: seq<E.Event>, id: string, c: P.Command) {
    c.receipt.Some? ==>
        Names(log, id, c.receipt.value.acceptedSequence) && Names(log, id, c.receipt.value.terminalSequence)
  }

  ghost predicate Coupled(j: Journal) {
    && j.stream.Valid()
    && j.host.next == |j.stream.log| && j.host.acked == j.stream.acked
    && Runs.AllCounted(j.host)
    && (forall id :: NamesOwn(j.stream.log, id, j.host.Of(id)))
    && (forall id :: Runs.RetiredAcked(j.host.Of(id), j.host.acked))
  }

  /** A write keeps a position or sets it to that of the act's own event. */
  ghost predicate Places(before: Option<R.Receipt>, after: Option<R.Receipt>, extent: (nat, bool), next: nat) {
    after.Some? ==>
      && (after.value.acceptedSequence in {if before.Some? then before.value.acceptedSequence else None}
          || (extent.1 && after.value.acceptedSequence == Some(next + extent.0)))
      && (after.value.terminalSequence in {if before.Some? then before.value.terminalSequence else None}
          || (extent.1 && after.value.terminalSequence == Some(next + extent.0)))
  }

  lemma CommitPlaces(hostKey: string, c: P.Command, q: R.Request, phase: R.Phase, outcome: R.Outcome, w: P.Write,
                     capture: P.Capture, next: nat)
    ensures var a := P.Prepare(hostKey, c, q, phase, outcome, w, capture, next);
            Places(c.receipt, P.Commit(c, a, next).receipt, a.Extent(), next)
  {
    P.Prepared(hostKey, c, q, phase, outcome, w, capture, next);
  }

  lemma ConfirmationPlaces(c: P.Command, stale: R.Receipt, stored: bool, next: nat)
    requires P.ConfirmsSoundly(c)
    ensures Places(c.receipt, P.EndConfirmation(c, stale, stored).receipt, (0, false), next)
  {
    if stale in c.confirming && stored {
      P.ConfirmationOverwrites(c, stale);
    }
  }

  lemma SubmitPlaces(hostKey: string, c: P.Command, api: P.Api, q: R.Request, w: P.Write, next: nat)
    ensures Places(c.receipt, P.Submit(hostKey, c, api, q, w, next).0.receipt,
                   P.SubmitExtent(hostKey, c, api, q, w, next), next)
  {
    match P.Decide(c, api, q) {
      case Answer(_) =>
      case Start => CommitPlaces(hostKey, c, q, R.Accepted, R.Outcome(202, R.Empty), w, P.NO_CAPTURE, next);
      case LoseTurn => CommitPlaces(hostKey, c, q, R.Rejected, P.TURN_LOST, w, P.NO_CAPTURE, next);
    }
  }

  lemma FinishPlaces(hostKey: string, id: string, c: P.Command, end: P.RunEnd, w: P.Write, capture: P.Capture,
                     next: nat)
    requires c.Running()
    ensures Places(c.receipt, P.Finish(hostKey, c, end, w, capture, next).receipt,
                   P.Extent(hostKey, id, c, P.Finishing(end, w, capture), next), next)
  {
    var f := c.flight.value;
    var v := P.Verdict(f.api, end);
    if v.Some? {
      CommitPlaces(hostKey, c, f.request, v.value.0, v.value.1, w, capture, next);
      assert P.Concluding(hostKey, c, end, w, capture, next) ==
             Some(P.Prepare(hostKey, c, f.request, v.value.0, v.value.1, w, capture, next));
    }
  }

  lemma RecoverPlaces(id: string, c: P.Command, session: Option<string>, next: nat)
    ensures Places(c.receipt, P.Recover(c, id, session, next).receipt, (0, P.Recovers(c, id, session, next)), next)
  {
  }

  lemma OtherActPlaces(hostKey: string, id: string, c: P.Command, act: P.Act, next: nat, acked: int)
    requires !act.Submitting? && !act.Recovering? && (act.Finishing? ==> !c.Running()) && !act.EndingConfirmation?
    ensures Places(c.receipt, P.Apply(hostKey, id, c, act, next, acked).receipt, P.Extent(hostKey, id, c, act, next),
                   next)
  {
  }

  lemma ActPlaces(hostKey: string, id: string, c: P.Command, act: P.Act, next: nat, acked: int)
    requires P.ConfirmsSoundly(c)
    ensures Places(c.receipt, P.Apply(hostKey, id, c, act, next, acked).receipt, P.Extent(hostKey, id, c, act, next),
                   next)
  {
    if act.Submitting? {
      SubmitPlaces(hostKey, c, act.api, act.q, act.w, next);
    } else if act.Finishing? && c.Running() {
      FinishPlaces(hostKey, id, c, act.end, act.w, act.capture, next);
    } else if act.Recovering? {
      RecoverPlaces(id, c, act.session, next);
    } else if act.EndingConfirmation? {
      ConfirmationPlaces(c, act.stale, act.stored, next);
    } else {
      OtherActPlaces(hostKey, id, c, act, next, acked);
    }
  }

  lemma NamesLater(log: seq<E.Event>, longer: seq<E.Event>, id: string, position: Option<nat>)
    requires Names(log, id, position) && log <= longer
    ensures Names(longer, id, position)
  {
  }

  lemma ActNamesOwn(j: Journal, op: Op, c: P.Command, d: P.Command)
    requires Coupled(j) && Possible(j, op) && op.On? && c == j.host.Of(op.id)
    requires d == P.Apply(j.host.hostKey, op.id, c, op.act, j.host.next, j.host.acked)
    ensures NamesOwn(j.stream.log + E.Emitted(DraftsOf(j, op)), op.id, d)
  {
    var log, longer := j.stream.log, j.stream.log + E.Emitted(DraftsOf(j, op));
    var extent := P.Extent(j.host.hostKey, op.id, c, op.act, j.host.next);
    assert NamesOwn(log, op.id, c) && Runs.Counted(c);
    ActPlaces(j.host.hostKey, op.id, c, op.act, j.host.next, j.host.acked);
    if extent.1 {
      assert DraftsOf(j, op)[|op.others|] == op.own && E.Appendable(op.own);
      assert longer[j.host.next + extent.0] == E.ToEvent(op.own);
    }
    if c.receipt.Some? {
      NamesLater(log, longer, op.id, c.receipt.value.acceptedSequence);
      NamesLater(log, longer, op.id, c.receipt.value.terminalSequence);
    }
  }

  lemma OneHostOp(h: P.Host, op: P.Op)
    ensures P.Run(h, [op]) == P.Step(h, op)
  {
    assert [op][1..] == [];
  }

  lemma OneStreamOp(s: E.Stream, op: E.Op)
    requires s.Valid()
    ensures E.Run(s, [op]) == E.Step(s, op)
  {
    assert [op][1..] == [];
  }

  lemma HostStep(j: Journal, op: Op)
    requires j.stream.Valid()
    ensures HostOps(j, op) == [] ==> Step(j, op).host == j.host
    ensures HostOps(j, op) != [] ==> Step(j, op).host == P.Step(j.host, HostOps(j, op)[0])
  {
    if HostOps(j, op) != [] {
      OneHostOp(j.host, HostOps(j, op)[0]);
    }
  }

  lemma StreamStep(j: Journal, op: Op)
    requires j.stream.Valid() && Possible(j, op)
    ensures var k := Step(j, op);
            && k.stream.log == j.stream.log + E.Emitted(DraftsOf(j, op))
            && k.stream.acked ==
               if op.AckTo? && j.stream.Readable() && j.stream.acked < op.through < |j.stream.log| then op.through
               else j.stream.acked
  {
    match op {
      case AckTo(through, at) => OneStreamOp(j.stream, E.DoAck(through, at));
      case Prune(cutoff) => OneStreamOp(j.stream, E.DoPrune(cutoff));
      case Restart => OneStreamOp(j.stream, E.DoRestart);
      case _ => SinglesAppend(j.stream, DraftsOf(j, op));
    }
    assert DraftsOf(j, op) == [] ==> j.stream.log + E.Emitted(DraftsOf(j, op)) == j.stream.log;
  }

  lemma StepNamesOwn(j: Journal, op: Op, id: string)
    requires Coupled(j) && Possible(j, op)
    ensures NamesOwn(Step(j, op).stream.log, id, Step(j, op).host.Of(id))
  {
    HostStep(j, op);
    StreamStep(j, op);
    var c, d := j.host.Of(id), Step(j, op).host.Of(id);
    assert NamesOwn(j.stream.log, id, c);
    if op.On? && op.id == id {
      ActNamesOwn(j, op, c, d);
    } else {
      assert d.receipt == c.receipt;
      if c.receipt.Some? {
        NamesLater(j.stream.log, Step(j, op).stream.log, id, c.receipt.value.acceptedSequence);
        NamesLater(j.stream.log, Step(j, op).stream.log, id, c.receipt.value.terminalSequence);
      }
    }
  }

  lemma StepKeepsCoupled(j: Journal, op: Op)
    requires Coupled(j) && Possible(j, op)
    ensures Coupled(Step(j, op))
  {
    var k := Step(j, op);
    HostStep(j, op);
    StreamStep(j, op);
    Runs.RunCounts(j.host, HostOps(j, op));
    forall id ensures NamesOwn(k.stream.log, id, k.host.Of(id)) {
      StepNamesOwn(j, op, id);
    }
    forall id ensures Runs.RetiredAcked(k.host.Of(id), k.host.acked) {
      assert Runs.RetiredAcked(j.host.Of(id), j.host.acked);
      Runs.RetiredStaysAcked(j.host, HostOps(j, op), id);
    }
  }

  lemma {:induction false} RunKeepsCoupled(j: Journal, ops: seq<Op>)
    requires Coupled(j) && AllPossible(j, ops)
    ensures Coupled(Run(j, ops))
    decreases |ops|
  {
    if ops != [] {
      StepKeepsCoupled(j, ops[0]);
      RunKeepsCoupled(Step(j, ops[0]), ops[1..]);
    }
  }

  // ------------------------------------------------------------ main results

  /**
   Over any run of commands, recoveries, acknowledgements, prunes and restarts: the accepted and the
   terminal position of a receipt are those of events of its own command, and the terminal event of a
   retired version 2 command is acknowledged.
   */
  lemma PositionsNameOwnEvents(hostKey: string, ops: seq<Op>, id: string)
    requires AllPossible(Initial(hostKey), ops)
    ensures var j := Run(Initial(hostKey), ops);
            var c := j.host.Of(id);
            && NamesOwn(j.stream.log, id, c)
            && (c.receipt.Some? && c.receipt.value.retiredAt.Some? && c.receipt.value.version.V2? ==>
                  && c.receipt.value.terminalSequence.Some? && c.receipt.value.terminalSequence.value < |j.stream.log|
                  && j.stream.stamps[c.receipt.value.terminalSequence.value].Some?)
  {
    RunKeepsCoupled(Initial(hostKey), ops);
    var j := Run(Initial(hostKey), ops);
    assert NamesOwn(j.stream.log, id, j.host.Of(id)) && Runs.RetiredAcked(j.host.Of(id), j.host.acked);
  }

  /**
   The tables of both, after the same run: they agree on the next position and on the watermark, every position
   in a receipt row that lies above the floor is that of a retained row with the command's own event, and the
   terminal position of a retired version 2 row is acknowledged.
   */
  method InTables(hostKey: string, ops: seq<Op>) returns (book: B.ReceiptBook, outbox: O.EventOutbox)
    requires AllPossible(Initial(hostKey), ops)
    ensures fresh(book) && book.Valid() && B.Represents(book, Run(Initial(hostKey), ops).host)
    ensures fresh(outbox) && outbox.Valid() && outbox.meaning == Run(Initial(hostKey), ops).stream
    ensures book.next == outbox.next && book.acked == O.Int(outbox.acked)
    ensures forall id :: id in book.receipts ==> RowsAgree(outbox, id, book.receipts[id])
  {
    var initial := Initial(hostKey);
    HostIsARun(initial, ops);
    StreamIsARun(initial, ops);
    RunKeepsCoupled(initial, ops);
    book := B.Simulate(hostKey, AllHostOps(initial, ops));
    outbox := O.Simulate(AllStreamOps(initial, ops));
    forall id | id in book.receipts
      ensures RowsAgree(outbox, id, book.receipts[id])
    {
      PositionsNameOwnEvents(hostKey, ops, id);
      assert book.View(id) == Run(initial, ops).host.Of(id);
      RowIsOwn(outbox, id, book.receipts[id].acceptedSequence);
      RowIsOwn(outbox, id, book.receipts[id].terminalSequence);
      assert Runs.RetiredAcked(Run(initial, ops).host.Of(id), Run(initial, ops).host.acked);
    }
  }

  /** A receipt row names rows of the outbox with its own events, an acknowledged one once it is retired. */
  ghost predicate RowsAgree(outbox: O.EventOutbox, id: string, r: R.Receipt)
    reads outbox
  {
    && RowOf(outbox, id, r.acceptedSequence) && RowOf(outbox, id, r.terminalSequence)
    && (r.retiredAt.Some? && r.version.V2? ==>
          r.terminalSequence.Some? && r.terminalSequence.value <= O.Int(outbox.acked))
  }

  ghost predicate RowOf(outbox: O.EventOutbox, id: string, position: Option<nat>)
    reads outbox
  {
    position.Some? && position.value > O.Int(outbox.floor) ==>
      var k := position.value - O.Int(outbox.floor) - 1;
      k < |outbox.rows| && outbox.rows[k].sequence == position.value && outbox.rows[k].event.id == id
  }

  lemma RowIsOwn(outbox: O.EventOutbox, id: string, position: Option<nat>)
    requires outbox.Valid() && Names(outbox.meaning.log, id, position)
    ensures RowOf(outbox, id, position)
  {
    if position.Some? && position.value > O.Int(outbox.floor) {
      var k := position.value - O.Int(outbox.floor) - 1;
      assert O.Stored(outbox.rows[k], O.Int(outbox.floor) + 1 + k, outbox.meaning, outbox.ranges);
    }
  }
}
