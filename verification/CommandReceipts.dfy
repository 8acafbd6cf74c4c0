/** The receipt book of one host process, updated in place, proved against the steps and the runs of the protocol. */
module CommandReceipts {
  import opened Wrappers
  import opened CommandEvidence
  import opened Receipts
  import opened ReceiptProtocol
  import Runs = ReceiptRuns

  /** Stream positions used up by a write. */
  function Used(extent: (nat, bool)): nat {
    extent.0 + Emitted(extent.1)
  }

  class ReceiptBook {
    const hostKey: string
    var receipts: map<string, Receipt>
    var inflight: map<string, Flight>
    /** The rows that confirmations of a process exit hold on to while they wait. */
    var confirming: map<string, multiset<Receipt>>
    var next: nat
    var acked: int
    ghost var starts: map<string, nat>
    ghost var running: map<string, nat>

    ghost function Tally(m: map<string, nat>, id: string): nat {
      if id in m then m[id] else 0
    }

    /** One command id as the protocol sees it. */
    ghost function View(id: string): Command
      reads this
    {
      Command(if id in receipts then Some(receipts[id]) else None,
              if id in inflight then Some(inflight[id]) else None,
              Rows(confirming, id), Tally(starts, id), Tally(running, id))
    }

    function Rows(m: map<string, multiset<Receipt>>, id: string): multiset<Receipt> {
      if id in m then m[id] else multiset{}
    }

    /** Every promise is entered under its own command id. */
    ghost predicate Valid()
      reads this
    {
      forall id :: id in inflight ==> inflight[id].request.commandId == id
    }

    constructor (hostKey: string)
      ensures Valid()
      ensures this.hostKey == hostKey && next == 0 && acked == -1
      ensures forall id :: View(id) == UNKNOWN
    {
      this.hostKey := hostKey;
      receipts, inflight, confirming, next, acked := map[], map[], map[], 0, -1;
      starts, running := map[], map[];
    }

    /** One durable write; with an event the row and the event commit together. */
    method Store(id: string, row: Receipt, event: bool)
      modifies this`receipts, this`next
      ensures View(id) == Put(old(View(id)), row, event, old(next))
      ensures next == old(next) + Emitted(event)
      ensures forall other :: other != id ==> View(other) == old(View(other))
    {
      var placed := row;
      if event {
        if row.phase == Accepted {
          placed := placed.(acceptedSequence := Some(next));
        } else {
          placed := placed.(terminalSequence := Some(next));
        }
        placed := placed.(eventId := Some(next));
        next := next + 1;
      }
      receipts := receipts[id := Upsert(if id in receipts then Some(receipts[id]) else None, placed)];
    }

    /** What a write will store: a version 2 prompt captures its output first, and must have evidence that passes. */
    static method PrepareWrite(hostKey: string, prior: Option<Receipt>, q: Request, phase: Phase, outcome: Outcome,
                               w: Write, capture: Capture, next: nat, ghost c: Command) returns (a: Attempt)
      requires c.receipt == prior
      ensures a == Prepare(hostKey, c, q, phase, outcome, w, capture, next)
    {
      var row := Mint(hostKey, q, phase, outcome);
      if prior.Some? {
        row := row.(digest := prior.value.digest);
      }
      if q.version.V1? {
        return Attempt(row, w, 0);
      }
      var emitted := 0;
      if phase == Completed && outcome.status < 400 {
        if prior.None? || prior.value.acceptedSequence.None? || prior.value.digest.None? || !capture.response {
          return Attempt(row, Lost, 0);
        }
        var output := OutputReference(q.commandId, SessionOf(q), prior.value.acceptedSequence.value, next);
        emitted := capture.emitted;
        row := row.(body := WithOutput(row.body, output));
      }
      return Attempt(row, Published(q.commandId, row, w, next + emitted), emitted);
    }

    method Record(q: Request, phase: Phase, outcome: Outcome, w: Write, capture: Capture) returns (ok: bool)
      modifies this`receipts, this`next
      ensures var a := Prepare(hostKey, old(View(q.commandId)), q, phase, outcome, w, capture, old(next));
              && (ok <==> a.write.Stored?)
              && View(q.commandId) == Commit(old(View(q.commandId)), a, old(next))
              && next == old(next) + Used(a.Extent())
      ensures forall other :: other != q.commandId ==> View(other) == old(View(other))
    {
      var prior := if q.commandId in receipts then Some(receipts[q.commandId]) else None;
      var a := PrepareWrite(hostKey, prior, q, phase, outcome, w, capture, next, View(q.commandId));
      next := next + a.emitted;
      if a.write.Lost? {
        return false;
      }
      Store(q.commandId, a.row, a.write.event);
      return a.write.Stored?;
    }

    /** Accept and start; the promise is entered in the table even when the accepting write failed. */
    method RunFresh(api: Api, q: Request, w: Write)
      requires !api.Async?
      requires Valid()
      modifies this
      ensures Valid()
      ensures View(q.commandId) == Begin(hostKey, old(View(q.commandId)), api, q, w, old(next))
      ensures next == old(next) + Used(Accepting(hostKey, old(View(q.commandId)), q, w, old(next)).Extent())
              && acked == old(acked)
      ensures forall other :: other != q.commandId ==> View(other) == old(View(other))
    {
      ghost var c, a := View(q.commandId), Accepting(hostKey, View(q.commandId), q, w, next);
      var accepted := Record(q, Accepted, Outcome(202, Empty), w, NO_CAPTURE);
      assert View(q.commandId) == Commit(c, a, old(next)) && accepted == a.write.Stored?;
      if accepted {
        CountStart(q.commandId);
        Enter(Flight(api, q, None));
      } else {
        Enter(Flight(api, q, Some(Failed)));
      }
    }

    /** The promise of a command is entered in the table. */
    method Enter(f: Flight)
      requires Valid()
      modifies this`inflight
      ensures Valid()
      ensures View(f.request.commandId) == old(View(f.request.commandId)).(flight := Some(f))
      ensures forall other :: other != f.request.commandId ==> View(other) == old(View(other))
    {
      inflight := inflight[f.request.commandId := f];
    }

    /** Accept and start in the background; nothing is entered in the table when the accepting write failed. */
    method RunAsync(q: Request, w: Write) returns (reply: Reply)
      requires Valid()
      modifies this
      ensures Valid()
      ensures View(q.commandId) == Begin(hostKey, old(View(q.commandId)), Async, q, w, old(next))
      ensures var a := Accepting(hostKey, old(View(q.commandId)), q, w, old(next));
              && reply == (if a.write.Stored? then AcceptedNow else WriteFailed)
              && next == old(next) + Used(a.Extent()) && acked == old(acked)
      ensures forall other :: other != q.commandId ==> View(other) == old(View(other))
    {
      var accepted := Record(q, Accepted, Outcome(202, Empty), w, NO_CAPTURE);
      if !accepted {
        return WriteFailed;
      }
      CountStart(q.commandId);
      Enter(Flight(Async, q, None));
      return AcceptedNow;
    }

    /** An accepted receipt that nobody is executing: its turn was lost. */
    method LoseTurn(q: Request, w: Write) returns (reply: Reply)
      modifies this`receipts, this`next
      ensures var a := Losing(hostKey, old(View(q.commandId)), q, w, old(next));
              && View(q.commandId) == Commit(old(View(q.commandId)), a, old(next))
              && reply == (if a.write.Stored? then TurnLost(TURN_LOST) else WriteFailed)
              && next == old(next) + Used(a.Extent())
      ensures forall other :: other != q.commandId ==> View(other) == old(View(other))
    {
      var ok := Record(q, Rejected, TURN_LOST, w, NO_CAPTURE);
      return if ok then TurnLost(TURN_LOST) else WriteFailed;
    }

    ghost method CountStart(id: string)
      modifies this`starts, this`running
      ensures View(id) == old(View(id)).(starts := old(View(id)).starts + 1, running := old(View(id)).running + 1)
      ensures forall other :: other != id ==> View(other) == old(View(other))
    {
      starts := starts[id := Tally(starts, id) + 1];
      running := running[id := Tally(running, id) + 1];
    }

    method ExecuteCommand(q: Request, w: Write) returns (reply: Reply)
      requires Valid()
      modifies this
      ensures Valid()
      ensures (View(q.commandId), reply) == Submit(hostKey, old(View(q.commandId)), Execute, q, w, old(next))
      ensures next == old(next) + Used(SubmitExtent(hostKey, old(View(q.commandId)), Execute, q, w, old(next)))
              && acked == old(acked)
      ensures forall other :: other != q.commandId ==> View(other) == old(View(other))
    {
      var id := q.commandId;
      ghost var choice := Decide(View(id), Execute, q);
      if !TargetAllowed(q) {
        return Refused;
      }
      if id in receipts && !Matches(receipts[id], q) {
        return Refused;
      }
      if id in receipts && receipts[id].phase != Accepted {
        return Replayed(receipts[id].httpStatus, receipts[id].body);
      }
      if id in inflight {
        return Awaiting;
      }
      if id in receipts && q.kind in RESTARTABLE {
        assert choice.Start?;
        RunFresh(Execute, q, w);
        return Awaiting;
      }
      if id in receipts {
        if receipts[id].UnsettledCreate() {
          return Replayed(receipts[id].httpStatus, receipts[id].body);
        }
        assert choice.LoseTurn?;
        reply := LoseTurn(q, w);
        return;
      }
      assert choice.Start?;
      RunFresh(Execute, q, w);
      return Awaiting;
    }

    method ExecuteRestartableUpload(q: Request, w: Write) returns (reply: Reply)
      requires Valid()
      modifies this
      ensures Valid()
      ensures (View(q.commandId), reply) == Submit(hostKey, old(View(q.commandId)), Upload, q, w, old(next))
      ensures next == old(next) + Used(SubmitExtent(hostKey, old(View(q.commandId)), Upload, q, w, old(next)))
              && acked == old(acked)
      ensures forall other :: other != q.commandId ==> View(other) == old(View(other))
    {
      var id := q.commandId;
      if !TargetAllowed(q) {
        return Refused;
      }
      if id in receipts && !Matches(receipts[id], q) {
        return Refused;
      }
      if id in receipts && receipts[id].phase != Accepted {
        return Replayed(receipts[id].httpStatus, receipts[id].body);
      }
      if id in inflight {
        return InProgress;
      }
      RunFresh(Upload, q, w);
      return Awaiting;
    }

    method ExecuteAsync(q: Request, w: Write) returns (reply: Reply)
      requires Valid()
      modifies this
      ensures Valid()
      ensures (View(q.commandId), reply) == Submit(hostKey, old(View(q.commandId)), Async, q, w, old(next))
      ensures next == old(next) + Used(SubmitExtent(hostKey, old(View(q.commandId)), Async, q, w, old(next)))
              && acked == old(acked)
      ensures forall other :: other != q.commandId ==> View(other) == old(View(other))
    {
      var id := q.commandId;
      if !TargetAllowed(q) {
        return Refused;
      }
      if id in receipts && !Matches(receipts[id], q) {
        return Refused;
      }
      if id in receipts && receipts[id].phase != Accepted {
        return AcceptedAlready;
      }
      if id in inflight {
        return AcceptedAlready;
      }
      if id in receipts {
        reply := LoseTurn(q, w);
        return;
      }
      reply := RunAsync(q, w);
    }

    /** Write what a finished effect leaves, if anything, and say what its waiters get. */
    method Conclude(f: Flight, end: RunEnd, w: Write, capture: Capture, ghost c: Command)
      returns (settlement: Settlement)
      requires c == View(f.request.commandId) && c.flight == Some(f) && f.settled.None?
      modifies this`receipts, this`next
      ensures var a := Concluding(hostKey, c, end, w, capture, old(next));
              && settlement == Handed(f.api, end, a)
              && View(f.request.commandId) == (if a.None? then c else Commit(c, a.value, old(next)))
              && next == old(next) + (if a.None? then 0 else Used(a.value.Extent()))
      ensures forall other :: other != f.request.commandId ==> View(other) == old(View(other))
    {
      var verdict := Verdict(f.api, end);
      if verdict.None? {
        return Failed;
      }
      var ok := Record(f.request, verdict.value.0, verdict.value.1, w, capture);
      return if ok && verdict.value.0 != Accepted then Fulfilled(end.outcome) else Failed;
    }

    /** The effect of a running command ends. */
    method Complete(id: string, end: RunEnd, w: Write, capture: Capture)
      requires Valid() && View(id).Running()
      modifies this
      ensures Valid()
      ensures View(id) == Finish(hostKey, old(View(id)), end, w, capture, old(next))
      ensures next == old(next) + Positions(hostKey, id, old(View(id)), Finishing(end, w, capture), old(next))
              && acked == old(acked)
      ensures forall other :: other != id ==> View(other) == old(View(other))
    {
      var f := inflight[id];
      var settlement := Conclude(f, end, w, capture, View(id));
      inflight := inflight[id := f.(settled := Some(settlement))];
      CountEnd(id);
    }

    ghost method CountEnd(id: string)
      modifies this`running
      ensures View(id) == old(View(id)).(running := if old(View(id)).running > 0 then old(View(id)).running - 1 else 0)
      ensures forall other :: other != id ==> View(other) == old(View(other))
    {
      running := running[id := if Tally(running, id) > 0 then Tally(running, id) - 1 else 0];
    }

    /** The caller's `finally`: the settled promise leaves the table. */
    method Forget(id: string)
      requires Valid() && id in inflight && inflight[id].settled.Some?
      modifies this`inflight
      ensures Valid()
      ensures View(id) == old(View(id)).(flight := None)
      ensures forall other :: other != id ==> View(other) == old(View(other))
    {
      inflight := inflight - {id};
    }

    /** An accepted receipt whose process is gone is settled as lost, whether or not its command is in flight. */
    method SettleLost(id: string, session: Option<string>)
      modifies this`receipts, this`next
      ensures View(id) == Recover(old(View(id)), id, session, old(next))
      ensures next == old(next) + Emitted(Recovers(old(View(id)), id, session, old(next)))
      ensures forall other :: other != id ==> View(other) == old(View(other))
    {
      if id !in receipts || receipts[id].phase != Accepted {
        return;
      }
      var row := LostRow(receipts[id], session);
      if row.version.V2? && !Publishable(id, row, next) {
        return;
      }
      Store(id, row, true);
    }

    /** At boot, an accepted create whose process is still registered. */
    method MarkExitUnconfirmed(id: string, text: string)
      modifies this`receipts
      ensures View(id) == MarkUnconfirmed(old(View(id)), text)
      ensures forall other :: other != id ==> View(other) == old(View(other))
    {
      if id in receipts && receipts[id].phase == Accepted && receipts[id].kind == CREATE && id !in inflight {
        receipts := receipts[id := receipts[id].(httpStatus := 503, body := Body.Unconfirmed(text))];
      }
    }

    /** The receipt is read before the wait for the process to be gone. */
    method ReadForConfirmation(id: string)
      modifies this`confirming
      ensures View(id) == BeginConfirmation(old(View(id)))
      ensures forall other :: other != id ==> View(other) == old(View(other))
    {
      if id in receipts && receipts[id].UnsettledCreate() {
        var rows := Rows(confirming, id) + multiset{receipts[id]};
        confirming := confirming[id := rows];
        assert View(id).confirming == rows;
      }
    }

    /** And what was read is written after it, over whatever is stored by then. */
    method WriteConfirmation(id: string, stale: Receipt, stored: bool)
      modifies this`receipts, this`next, this`confirming
      ensures View(id) == EndConfirmation(old(View(id)), stale, stored) && next == old(next)
      ensures forall other :: other != id ==> View(other) == old(View(other))
    {
      if stale !in Rows(confirming, id) {
        return;
      }
      Drop(id, stale);
      if stored {
        StoreConfirmed(id, stale);
      }
    }

    method Drop(id: string, stale: Receipt)
      modifies this`confirming
      ensures View(id) == old(View(id)).(confirming := old(View(id)).confirming - multiset{stale})
      ensures forall other :: other != id ==> View(other) == old(View(other))
    {
      var left := Rows(confirming, id) - multiset{stale};
      confirming := confirming[id := left];
      assert View(id).confirming == left;
    }

    method StoreConfirmed(id: string, stale: Receipt)
      modifies this`receipts, this`next
      ensures View(id) == Put(old(View(id)), ConfirmedRow(stale), false, 0) && next == old(next)
      ensures forall other :: other != id ==> View(other) == old(View(other))
    {
      Store(id, ConfirmedRow(stale), false);
    }

    /** At boot, an upload or deletion whose effect is found complete. */
    method SettleObject(id: string, status: nat, metadata: Body)
      modifies this`receipts, this`next
      ensures View(id) == CompleteObject(old(View(id)), status, metadata, old(next))
      ensures next == old(next) + Emitted(Completes(old(View(id))))
      ensures forall other :: other != id ==> View(other) == old(View(other))
    {
      if id in receipts && receipts[id].phase == Accepted && receipts[id].kind in {UPLOAD, DELETE} && id !in inflight {
        Store(id, receipts[id].(phase := Completed, httpStatus := status, body := StoredBody(metadata)), true);
      }
    }

    /** A new process: the table in memory is empty and no run survives; the receipts do. */
    method Reopen()
      requires Valid()
      modifies this
      ensures Valid()
      ensures forall id :: View(id) == Forgotten(old(View(id)))
      ensures next == old(next) && acked == old(acked)
    {
      inflight, confirming := map[], map[];
      running := map[];
    }

    /** An event that belongs to no receipt. */
    method EmitOther()
      modifies this`next
      ensures next == old(next) + 1 && forall id :: View(id) == old(View(id))
    {
      next := next + 1;
    }

    method Acknowledge(through: nat)
      modifies this`acked
      ensures acked == (if old(acked) < through < next then through else old(acked))
              && forall id :: View(id) == old(View(id))
    {
      if acked < through < next {
        acked := through;
      }
    }

    method RetireReceipt(id: string, proof: Proof, producerOpen: bool, processPending: bool, now: int)
      returns (r: Retirement)
      modifies this`receipts
      ensures View(id) == Retire(old(View(id)), proof, producerOpen, processPending, acked, now)
      ensures r == RetireDecision(old(View(id)).receipt, proof, producerOpen, processPending, acked, now)
      ensures forall other :: other != id ==> View(other) == old(View(other))
    {
      if id !in receipts {
        return Missing;
      }
      var row := receipts[id];
      if row.phase == Accepted {
        return NotTerminal;
      }
      if row.phase != proof.expectedPhase || row.epoch != proof.epoch
         || (proof.expectedDigest.Some? && proof.expectedDigest != row.digest)
      {
        return IdentityMismatch;
      }
      if producerOpen || processPending {
        return ProducerOpen;
      }
      if row.version.V2? {
        if row.terminalSequence.None? || acked < row.terminalSequence.value {
          return TerminalEventUnacked;
        }
      }
      if row.retiredAt.Some? {
        return AlreadyRetired(row.retiredAt.value);
      }
      receipts := receipts[id := Compact(row, now)];
      return Retired(now);
    }
  }

  // -------------------------------------------------------------- all runs

  /** The book is in the state of the protocol's host, whoever was handed what. */
  ghost predicate Represents(book: ReceiptBook, h: Host)
    reads book
  {
    && book.hostKey == h.hostKey && book.next == h.next && book.acked == h.acked
    && forall id :: book.View(id) == h.Of(id)
  }

  method PerformSubmit(book: ReceiptBook, api: Api, q: Request, w: Write)
    requires book.Valid()
    modifies book
    ensures book.Valid()
    ensures book.View(q.commandId) == Submit(book.hostKey, old(book.View(q.commandId)), api, q, w, old(book.next)).0
    ensures book.next ==
            old(book.next) + Used(SubmitExtent(book.hostKey, old(book.View(q.commandId)), api, q, w, old(book.next)))
    ensures book.acked == old(book.acked)
    ensures forall other :: other != q.commandId ==> book.View(other) == old(book.View(other))
  {
    match api {
      case Execute => var _ := book.ExecuteCommand(q, w);
      case Upload => var _ := book.ExecuteRestartableUpload(q, w);
      case Async => var _ := book.ExecuteAsync(q, w);
    }
  }

  /** What was done to the book is what the act does to its command, and nothing to any other. */
  twostate predicate Did(book: ReceiptBook, id: string, act: Act)
    reads book
  {
    && book.View(id) == Apply(book.hostKey, id, old(book.View(id)), act, old(book.next), old(book.acked))
    && book.next == old(book.next) + Positions(book.hostKey, id, old(book.View(id)), act, old(book.next))
    && book.acked == old(book.acked)
    && forall other :: other != id ==> book.View(other) == old(book.View(other))
  }

  method PerformEnd(book: ReceiptBook, id: string, act: Act)
    requires book.Valid() && (act.Finishing? || act.Forgetting?)
    modifies book
    ensures book.Valid() && Did(book, id, act)
  {
    if act.Forgetting? {
      if id in book.inflight && book.inflight[id].settled.Some? {
        book.Forget(id);
      }
    } else if id in book.inflight && book.inflight[id].settled.None? {
      book.Complete(id, act.end, act.w, act.capture);
    }
  }

  method PerformRepair(book: ReceiptBook, id: string, act: Act)
    requires book.Valid() && (act.Recovering? || act.MarkingUnconfirmed? || act.CompletingObject?)
    modifies book
    ensures book.Valid() && Did(book, id, act)
  {
    if act.Recovering? {
      book.SettleLost(id, act.session);
    } else if act.MarkingUnconfirmed? {
      book.MarkExitUnconfirmed(id, act.text);
    } else {
      book.SettleObject(id, act.status, act.metadata);
    }
  }

  method PerformConfirmation(book: ReceiptBook, id: string, act: Act)
    requires book.Valid() && (act.BeginningConfirmation? || act.EndingConfirmation?)
    modifies book
    ensures book.Valid() && Did(book, id, act)
  {
    if act.BeginningConfirmation? {
      book.ReadForConfirmation(id);
    } else {
      book.WriteConfirmation(id, act.stale, act.stored);
    }
  }

  /** One act, by the method that is responsible for it. */
  method Perform(book: ReceiptBook, id: string, act: Act)
    requires book.Valid() && Addressed(id, act)
    modifies book
    ensures book.Valid() && Did(book, id, act)
  {
    if act.Submitting? {
      PerformSubmit(book, act.api, act.q, act.w);
    } else if act.Finishing? || act.Forgetting? {
      PerformEnd(book, id, act);
    } else if act.BeginningConfirmation? || act.EndingConfirmation? {
      PerformConfirmation(book, id, act);
    } else if act.Retiring? {
      var _ := book.RetireReceipt(id, act.proof, act.producerOpen, act.processPending, act.now);
    } else {
      PerformRepair(book, id, act);
    }
  }

  lemma StepOthers(h: Host, id: string, act: Act, other: string)
    ensures Step(h, On(id, act)).Of(other) ==
            if other == id then Apply(h.hostKey, id, h.Of(id), act, h.next, h.acked) else h.Of(other)
  {
  }

  method PerformOn(book: ReceiptBook, id: string, act: Act, ghost h: Host)
    requires book.Valid() && Represents(book, h) && Addressed(id, act)
    modifies book
    ensures book.Valid() && Represents(book, Step(h, On(id, act)))
  {
    assert book.View(id) == h.Of(id);
    Perform(book, id, act);
    forall other
      ensures book.View(other) == Step(h, On(id, act)).Of(other)
    {
      StepOthers(h, id, act, other);
    }
  }

  method PerformRestart(book: ReceiptBook, ghost h: Host)
    requires book.Valid() && Represents(book, h)
    modifies book
    ensures book.Valid() && Represents(book, Step(h, Op.Restart))
  {
    book.Reopen();
    forall id
      ensures book.View(id) == Step(h, Op.Restart).Of(id)
    {
      assert Step(h, Op.Restart).Of(id) == Forgotten(h.Of(id));
    }
  }

  method PerformOp(book: ReceiptBook, op: Op, ghost h: Host)
    requires book.Valid() && Represents(book, h) && (op.On? ==> Addressed(op.id, op.act))
    modifies book
    ensures book.Valid() && Represents(book, Step(h, op))
  {
    match op {
      case On(id, act) => PerformOn(book, id, act, h);
      case Emit => book.EmitOther();
      case Ack(through) => book.Acknowledge(through);
      case Restart => PerformRestart(book, h);
    }
  }

  /**
   Every run of the protocol is a run of the tables: they end up holding what its host holds. So an effect
   whose kind is not started again starts at most once, and none runs twice at a time.
   */
  method Simulate(hostKey: string, ops: seq<Op>) returns (book: ReceiptBook)
    requires AllAddressed(ops)
    ensures fresh(book) && book.Valid() && Represents(book, Run(Initial(hostKey), ops))
    ensures forall id :: book.Tally(book.running, id) <= 1
    ensures forall id :: id in book.receipts && !Rerunnable(book.receipts[id].kind) ==> book.Tally(book.starts, id) <= 1
  {
    book := new ReceiptBook(hostKey);
    ghost var h := Initial(hostKey);
    var i := 0;
    while i < |ops|
      invariant 0 <= i <= |ops|
      invariant fresh(book) && book.Valid() && Represents(book, h)
      invariant Run(h, ops[i..]) == Run(Initial(hostKey), ops)
    {
      PerformOp(book, ops[i], h);
      h := Step(h, ops[i]);
      assert ops[i..][1..] == ops[i + 1..];
      i := i + 1;
    }
    forall id
      ensures book.Tally(book.running, id) <= 1
      ensures id in book.receipts && !Rerunnable(book.receipts[id].kind) ==> book.Tally(book.starts, id) <= 1
    {
      Runs.AtMostOnce(hostKey, ops, id);
      assert book.View(id) == h.Of(id);
    }
  }
}
