/**
 What the protocol guarantees over every run. Recovery does not look at the in-flight table, and outside
 boot it may find its command still running; a confirmation of a process exit writes, after a wait, the row
 it read before. No run here excludes either, and what they break is stated with its exact condition.
 */
module ReceiptRuns {
  import opened Wrappers
  import opened Receipts
  import opened CommandEvidence
  import opened ReceiptProtocol
  import SortKeys

  // ------------------------------------------------------- starts and outcomes

  ghost predicate Counted(c: Command) {
    && (c.receipt.None? ==> c.starts == 0)
    && (c.receipt.Some? && !Rerunnable(c.receipt.value.kind) ==> c.starts <= 1)
    && c.running == (if c.Running() then 1 else 0)
    && (c.Running() ==> c.receipt.Some? && !c.receipt.value.UnsettledCreate())
    && (c.flight.Some? ==> TargetAllowed(c.flight.value.request))
    && (c.receipt.Some? && c.receipt.value.version.V2? ==> c.receipt.value.kind == PROMPT)
    && ConfirmsSoundly(c)
  }

  ghost predicate SameReceipt(c: Command, d: Command) {
    c.receipt.Some? ==> d.receipt.Some? && SameIdentity(c.receipt.value, d.receipt.value)
  }

  /** A settled receipt whose command is not running, and of which no confirmation is outstanding. */
  predicate AtRest(c: Command) {
    c.Settled() && !c.Running() && c.confirming == multiset{}
  }

  /** The receipt is retired, and the row of this confirmation has been written over it already. */
  predicate Spent(r: Receipt, stale: Receipt) {
    r.retiredAt.Some? && Confirmed(r, stale) == r
  }

  /** A settled receipt whose command is not running, and whose outstanding confirmations have nothing to change. */
  ghost predicate Quiescent(c: Command) {
    c.Settled() && !c.Running() && forall s :: s in c.confirming ==> Spent(c.receipt.value, s)
  }

  /** What one act does to one command, whatever its state. */
  ghost predicate Continues(c: Command, d: Command, handed: Option<Outcome>) {
    && Counted(d) && SameReceipt(c, d)
    && (AtRest(c) ==> AtRest(d))
    && (Quiescent(c) ==> Quiescent(d) && Evolves(c, d))
    && (handed.Some? ==> AtRest(d) && Agrees(d, handed.value))
  }

  lemma CommitKeepsIdentity(hostKey: string, c: Command, q: Request, phase: Phase, outcome: Outcome,
                            w: Write, capture: Capture, next: nat)
    ensures var d := Commit(c, Prepare(hostKey, c, q, phase, outcome, w, capture, next), next);
            d == c.(receipt := d.receipt) && SameReceipt(c, d)
  {
    Prepared(hostKey, c, q, phase, outcome, w, capture, next);
  }

  lemma CommitContinues(hostKey: string, c: Command, q: Request, phase: Phase, outcome: Outcome, w: Write,
                        capture: Capture, next: nat)
    requires Counted(c)
    ensures var a := Prepare(hostKey, c, q, phase, outcome, w, capture, next);
            var d := Commit(c, a, next);
            && d == c.(receipt := d.receipt) && SameReceipt(c, d)
            && (!a.write.Lost? ==>
                  && d.receipt.Some? && d.receipt.value.phase == phase && d.receipt.value.httpStatus == outcome.status
                  && Keeps(d.receipt.value.body, outcome.body))
  {
    CommitKeepsIdentity(hostKey, c, q, phase, outcome, w, capture, next);
    Prepared(hostKey, c, q, phase, outcome, w, capture, next);
  }

  /** A receipt that was not settled becomes one that is, or stays as unresolved as it was. */
  lemma ReceiptContinues(c: Command, d: Command)
    requires Counted(c) && c.receipt.Some? && !c.Settled() && d.receipt.Some? && d == c.(receipt := d.receipt)
    requires SameIdentity(c.receipt.value, d.receipt.value)
    requires d.Settled() || (d.receipt.value.UnsettledCreate() && !c.Running())
    ensures Continues(c, d, None)
  {
    ReadFromLater(c.confirming, c.receipt, d.receipt);
  }

  lemma PutKeepsIdentity(c: Command, row: Receipt, event: bool, next: nat)
    requires c.receipt.Some?
    ensures var d := Put(c, row, event, next);
            && d.receipt.Some? && d == c.(receipt := d.receipt) && d.receipt.value.phase == row.phase
            && SameIdentity(c.receipt.value, d.receipt.value)
  {
  }

  lemma StartContinues(hostKey: string, id: string, c: Command, api: Api, q: Request, w: Write, next: nat)
    requires Counted(c) && Addressed(id, Submitting(api, q, w)) && Decide(c, api, q).Start?
    ensures Continues(c, Begin(hostKey, c, api, q, w, next), None)
  {
    StartsAreFree(id, c, api, q, w);
    CommitContinues(hostKey, c, q, Accepted, Outcome(202, Empty), w, NO_CAPTURE, next);
    assert c.confirming == multiset{};
  }

  lemma LoseTurnContinues(hostKey: string, id: string, c: Command, api: Api, q: Request, w: Write, next: nat)
    requires Counted(c) && Addressed(id, Submitting(api, q, w)) && Decide(c, api, q).LoseTurn?
    ensures var a := Losing(hostKey, c, q, w, next);
            Continues(c, Commit(c, a, next), if a.write.Stored? then Some(TURN_LOST) else None)
  {
    CommitContinues(hostKey, c, q, Rejected, TURN_LOST, w, NO_CAPTURE, next);
    assert c.confirming == multiset{};
    var a := Losing(hostKey, c, q, w, next);
    if !a.write.Lost? {
      ReceiptContinues(c, Commit(c, a, next));
    }
  }

  lemma SubmitContinues(hostKey: string, id: string, c: Command, api: Api, q: Request, w: Write, next: nat)
    requires Counted(c) && Addressed(id, Submitting(api, q, w))
    ensures Continues(c, Submit(hostKey, c, api, q, w, next).0, Delivery(hostKey, c, Submitting(api, q, w), next))
    ensures c.Settled() ==> Submit(hostKey, c, api, q, w, next).0 == c
  {
    match Decide(c, api, q) {
      case Answer(_) =>
      case Start => StartContinues(hostKey, id, c, api, q, w, next);
      case LoseTurn => LoseTurnContinues(hostKey, id, c, api, q, w, next);
    }
  }

  /** A run is over, and its receipt holds what its waiters are handed. */
  lemma EndedContinues(c: Command, d: Command, handed: Option<Outcome>)
    requires Counted(c) && c.Running() && SameReceipt(c, d)
    requires d == c.(receipt := d.receipt, flight := d.flight, running := 0)
    requires d.flight.Some? && d.flight.value.settled.Some? && d.flight.value.request == c.flight.value.request
    requires handed.Some? ==> Agrees(d, handed.value)
    ensures Continues(c, d, handed)
  {
    assert c.confirming == multiset{};
  }

  lemma FinishContinues(hostKey: string, c: Command, end: RunEnd, w: Write, capture: Capture, next: nat)
    requires Counted(c) && c.Running()
    ensures Continues(c, Finish(hostKey, c, end, w, capture, next),
                      Delivery(hostKey, c, Finishing(end, w, capture), next))
  {
    var f := c.flight.value;
    var v := Verdict(f.api, end);
    if v.Some? {
      CommitContinues(hostKey, c, f.request, v.value.0, v.value.1, w, capture, next);
    }
    EndedContinues(c, Finish(hostKey, c, end, w, capture, next),
                   Delivery(hostKey, c, Finishing(end, w, capture), next));
  }

  lemma CompactContinues(c: Command, now: int)
    requires Counted(c) && c.Settled() && c.receipt.value.retiredAt.None?
    ensures Continues(c, c.(receipt := Some(Compact(c.receipt.value, now))), None)
  {
    ReadFromLater(c.confirming, c.receipt, Some(Compact(c.receipt.value, now)));
  }

  lemma RetireContinues(c: Command, proof: Proof, open: bool, pending: bool, acked: int, now: int)
    requires Counted(c)
    ensures Continues(c, Retire(c, proof, open, pending, acked, now), None)
  {
    if RetireDecision(c.receipt, proof, open, pending, acked, now).Retired? {
      CompactContinues(c, now);
    }
  }

  lemma RecoverContinues(c: Command, id: string, session: Option<string>, next: nat)
    requires Counted(c)
    ensures Continues(c, Recover(c, id, session, next), None)
    ensures c.Settled() ==> Recover(c, id, session, next) == c
  {
    if Recovers(c, id, session, next) {
      PutKeepsIdentity(c, LostRow(c.receipt.value, session), true, next);
      ReceiptContinues(c, Recover(c, id, session, next));
    }
  }

  lemma CompleteContinues(c: Command, status: nat, body: Body, next: nat)
    requires Counted(c)
    ensures Continues(c, CompleteObject(c, status, body, next), None)
    ensures c.Settled() ==> CompleteObject(c, status, body, next) == c
  {
    if Completes(c) {
      var row := c.receipt.value.(phase := Completed, httpStatus := status, body := StoredBody(body));
      PutKeepsIdentity(c, row, true, next);
      ReceiptContinues(c, CompleteObject(c, status, body, next));
    }
  }

  lemma MarkContinues(c: Command, text: string)
    requires Counted(c)
    ensures Continues(c, MarkUnconfirmed(c, text), None)
  {
    if MarkUnconfirmed(c, text) != c {
      ReceiptContinues(c, MarkUnconfirmed(c, text));
    }
  }

  lemma BeginConfirmationContinues(c: Command)
    requires Counted(c)
    ensures Continues(c, BeginConfirmation(c), None)
  {
    if BeginConfirmation(c) != c {
      assert !c.Running() && !c.Settled();
      OneMoreRead(c.confirming, c.receipt.value);
    }
  }

  lemma OneMoreRead(rows: multiset<Receipt>, r: Receipt)
    requires ReadFrom(rows, Some(r)) && r.UnsettledCreate()
    ensures ReadFrom(rows + multiset{r}, Some(r))
  {
  }

  lemma ForgottenContinues(c: Command)
    requires Counted(c)
    ensures Continues(c, Forgotten(c), None)
  {
  }

  /** A confirmation that comes to nothing. */
  lemma DroppedContinues(c: Command, stale: Receipt)
    requires Counted(c) && stale in c.confirming
    ensures Continues(c, EndConfirmation(c, stale, false), None)
  {
    FewerConfirmations(c, stale);
  }

  lemma ConfirmedContinues(c: Command, stale: Receipt)
    requires Counted(c) && stale in c.confirming
    ensures Continues(c, EndConfirmation(c, stale, true), None)
  {
    var d := EndConfirmation(c, stale, true);
    ConfirmationOverwrites(c, stale);
    FewerConfirmations(c, stale);
    ReadFromLater(d.confirming, c.receipt, d.receipt);
    if Quiescent(c) {
      assert d.receipt == c.receipt;
    }
  }

  lemma EndConfirmationContinues(c: Command, stale: Receipt, stored: bool)
    requires Counted(c)
    ensures Continues(c, EndConfirmation(c, stale, stored), None)
  {
    if stale in c.confirming {
      if stored {
        ConfirmedContinues(c, stale);
      } else {
        DroppedContinues(c, stale);
      }
    }
  }

  lemma ForgetContinues(c: Command)
    requires Counted(c)
    ensures Continues(c, if c.flight.Some? && !c.Running() then c.(flight := None) else c, None)
  {
  }

  lemma NothingHandedOver(hostKey: string, c: Command, act: Act, next: nat)
    requires !act.Submitting? && (act.Finishing? ==> !c.Running())
    ensures Delivery(hostKey, c, act, next) == None
  {
  }

  lemma RepairContinues(hostKey: string, id: string, c: Command, act: Act, next: nat, acked: int)
    requires Counted(c) && (act.Recovering? || act.CompletingObject? || act.MarkingUnconfirmed?)
    ensures Continues(c, Apply(hostKey, id, c, act, next, acked), None)
  {
    if act.Recovering? {
      RecoverContinues(c, id, act.session, next);
    } else if act.CompletingObject? {
      CompleteContinues(c, act.status, act.metadata, next);
    } else {
      MarkContinues(c, act.text);
    }
  }

  lemma OtherActContinues(hostKey: string, id: string, c: Command, act: Act, next: nat, acked: int)
    requires Counted(c) && !act.Submitting? && (act.Finishing? ==> !c.Running())
    ensures Continues(c, Apply(hostKey, id, c, act, next, acked), None)
  {
    if act.Recovering? || act.CompletingObject? || act.MarkingUnconfirmed? {
      RepairContinues(hostKey, id, c, act, next, acked);
    } else if act.BeginningConfirmation? {
      BeginConfirmationContinues(c);
    } else if act.EndingConfirmation? {
      EndConfirmationContinues(c, act.stale, act.stored);
    } else if act.Retiring? {
      RetireContinues(c, act.proof, act.producerOpen, act.processPending, acked, act.now);
    } else if act.Forgetting? {
      ForgetContinues(c);
    }
  }

  lemma ActContinues(hostKey: string, id: string, c: Command, act: Act, next: nat, acked: int)
    requires Counted(c) && Addressed(id, act)
    ensures Continues(c, Apply(hostKey, id, c, act, next, acked), Delivery(hostKey, c, act, next))
  {
    if act.Submitting? {
      SubmitContinues(hostKey, id, c, act.api, act.q, act.w, next);
    } else if act.Finishing? && c.Running() {
      FinishContinues(hostKey, c, act.end, act.w, act.capture, next);
    } else {
      OtherActContinues(hostKey, id, c, act, next, acked);
      NothingHandedOver(hostKey, c, act, next);
    }
  }

  ghost predicate AllCounted(h: Host) {
    && (forall id :: Counted(h.Of(id)))
    && (forall d :: d in h.delivered ==> AtRest(h.Of(d.0)) && Agrees(h.Of(d.0), d.1))
  }

  lemma StepContinues(h: Host, op: Op, id: string)
    requires AllCounted(h) && (op.On? ==> Addressed(op.id, op.act))
    ensures Continues(h.Of(id), Step(h, op).Of(id),
                      if op.On? && op.id == id then Delivery(h.hostKey, h.Of(id), op.act, h.next) else None)
  {
    assert Counted(h.Of(id));
    if op.On? && op.id == id {
      ActContinues(h.hostKey, id, h.Of(id), op.act, h.next, h.acked);
    } else if op.Restart? {
      assert Step(h, op).Of(id) == Forgotten(h.Of(id));
      ForgottenContinues(h.Of(id));
    } else {
      assert Step(h, op).Of(id) == h.Of(id);
    }
  }

  lemma StepCounts(h: Host, op: Op)
    requires AllCounted(h) && (op.On? ==> Addressed(op.id, op.act))
    ensures AllCounted(Step(h, op)) && h.delivered <= Step(h, op).delivered && Step(h, op).hostKey == h.hostKey
  {
    var t := Step(h, op);
    forall id ensures Counted(t.Of(id)) {
      StepContinues(h, op, id);
    }
    forall d | d in t.delivered ensures AtRest(t.Of(d.0)) && Agrees(t.Of(d.0), d.1) {
      StepContinues(h, op, d.0);
      if d in h.delivered {
        AgreesLater(h.Of(d.0), t.Of(d.0), d.1);
      }
    }
  }

  lemma {:induction false} RunCounts(h: Host, ops: seq<Op>)
    requires AllCounted(h) && AllAddressed(ops)
    ensures AllCounted(Run(h, ops)) && h.delivered <= Run(h, ops).delivered && Run(h, ops).hostKey == h.hostKey
    decreases |ops|
  {
    if ops != [] {
      StepCounts(h, ops[0]);
      RunCounts(Step(h, ops[0]), ops[1..]);
    }
  }

  /** An effect starts at most once per command id, and never twice at the same time. */
  lemma AtMostOnce(hostKey: string, ops: seq<Op>, id: string)
    requires AllAddressed(ops)
    ensures var c := Run(Initial(hostKey), ops).Of(id);
            && (c.receipt.Some? && !Rerunnable(c.receipt.value.kind) ==> c.starts <= 1)
            && (c.receipt.None? ==> c.starts == 0)
            && c.running <= 1
  {
    RunCounts(Initial(hostKey), ops);
    assert Counted(Run(Initial(hostKey), ops).Of(id));
  }

  /**
   Everyone who waited got one outcome; whoever asks later, until retirement, is replayed the same one,
   with the reference to its output if it is a version 2 prompt's.
   */
  lemma ReplayRepeatsTheOutcome(hostKey: string, ops: seq<Op>, q: Request, o: Outcome)
    requires AllAddressed(ops) && (q.commandId, o) in Run(Initial(hostKey), ops).delivered
    ensures var c := Run(Initial(hostKey), ops).Of(q.commandId);
            && c.Settled()
            && (TargetAllowed(q) && Matches(c.receipt.value, q) && c.receipt.value.retiredAt.None? ==>
                  && Keeps(c.receipt.value.body, o.body)
                  && Decide(c, Execute, q) == Answer(Replayed(o.status, c.receipt.value.body))
                  && Decide(c, Upload, q) == Answer(Replayed(o.status, c.receipt.value.body))
                  && (c.receipt.value.body == StoredBody(o.body) ==>
                      (c.receipt.value.body == o.body <==> !o.body.Absent?)))
  {
    RunCounts(Initial(hostKey), ops);
  }

  lemma {:induction false} RunKeepsIdentity(h: Host, ops: seq<Op>, id: string)
    requires AllCounted(h) && AllAddressed(ops)
    ensures SameReceipt(h.Of(id), Run(h, ops).Of(id))
    ensures Quiescent(h.Of(id)) ==> Quiescent(Run(h, ops).Of(id)) && Evolves(h.Of(id), Run(h, ops).Of(id))
    decreases |ops|
  {
    if ops != [] {
      StepContinues(h, ops[0], id);
      StepCounts(h, ops[0]);
      RunKeepsIdentity(Step(h, ops[0]), ops[1..], id);
    }
  }

  /** A command id first used with one request accepts exactly that request ever after. */
  lemma FirstRequestOwnsTheId(h: Host, api: Api, minted: Request, w: Write, ops: seq<Op>, q: Request)
    requires AllCounted(h) && h.Of(minted.commandId) == UNKNOWN && TargetAllowed(minted)
    requires Addressed(minted.commandId, Submitting(api, minted, w))
    requires AllAddressed(ops) && !w.Lost? && q.commandId == minted.commandId
    ensures var r := Run(Step(h, On(minted.commandId, Submitting(api, minted, w))), ops).Of(minted.commandId).receipt;
            && r.Some?
            && (Matches(r.value, q) <==>
                  q == minted && minted.fence.hostKey == h.hostKey && r.value.hostSessionId == minted.hostSessionId)
  {
    var first := On(minted.commandId, Submitting(api, minted, w));
    var t := Step(h, first);
    StepCounts(h, first);
    RunKeepsIdentity(t, ops, minted.commandId);
    var later := Run(t, ops).Of(minted.commandId).receipt.value;
    MintedReceiptAcceptsExactly(h.hostKey, minted, Accepted, Outcome(202, Empty), later, q);
  }

  // ------------------------------------------------------------ settled receipts

  /** From here on, whatever happens, no settled form that the command's receipt takes is rewritten. */
  ghost predicate NeverRewritten(h: Host, id: string) {
    forall before, after :: AllAddressed(before) && AllAddressed(after) ==>
      Evolves(Run(h, before).Of(id), Run(Run(h, before), after).Of(id))
  }

  /** One continuation in which it is. */
  lemma Rewritten(h: Host, id: string, before: seq<Op>, after: Op)
    requires AllAddressed(before) && AllAddressed([after])
    requires !Evolves(Run(h, before).Of(id), Step(Run(h, before), after).Of(id))
    ensures !NeverRewritten(h, id)
  {
    RunOne(Run(h, before), after);
    assert !Evolves(Run(h, before).Of(id), Run(Run(h, before), [after]).Of(id));
  }

  lemma RunOne(h: Host, op: Op)
    ensures Run(h, [op]) == Step(h, op)
  {
    assert [op][1..] == [];
  }

  /** An end that reports a status the receipt does not have. */
  function LateEnd(r: Receipt): Act {
    Finishing(Typed(Outcome(if r.httpStatus == 500 then 501 else 500, Json("late"))), Write.Stored(false), NO_CAPTURE)
  }

  lemma LateEndRewrites(h: Host, id: string)
    requires var c := h.Of(id); Counted(c) && c.Running() && c.Settled()
    requires h.next <= SortKeys.MAX_SEQUENCE
    ensures var c := h.Of(id); !Evolves(c, Step(h, On(id, LateEnd(c.receipt.value))).Of(id))
  {
    var c := h.Of(id);
    var q := c.flight.value.request;
    var act := LateEnd(c.receipt.value);
    var row := RowFor(h.hostKey, c, q, Rejected, act.end.outcome);
    assert q.version.V2? ==> Publishable(q.commandId, row, h.next);
    assert Step(h, On(id, act)).Of(id).receipt.value.httpStatus == act.end.outcome.status;
  }

  /** The row of an outstanding confirmation, written over a retired receipt that it has not been written over. */
  lemma ConfirmationRewrites(h: Host, id: string, stale: Receipt)
    requires var c := h.Of(id);
             Counted(c) && stale in c.confirming && c.Settled() && c.receipt.value.retiredAt.Some?
               && !Spent(c.receipt.value, stale)
    ensures !Evolves(h.Of(id), Step(h, On(id, EndingConfirmation(stale, true))).Of(id))
  {
    ConfirmationOverwrites(h.Of(id), stale);
  }

  /** A settled create can be retired at any time, and is then a tombstone. */
  lemma CreateRetires(h: Host, id: string, proof: Proof)
    requires var c := h.Of(id);
             && Counted(c) && c.Settled() && c.receipt.value.kind == CREATE && c.receipt.value.retiredAt.None?
             && proof == Proof(None, c.receipt.value.phase, c.receipt.value.epoch)
    ensures var c := h.Of(id);
            Step(h, On(id, Retiring(proof, false, false, 0))).Of(id) == c.(receipt := Some(Compact(c.receipt.value, 0)))
  {
  }

  lemma OutstandingRewrites(h: Host, id: string, stale: Receipt)
    requires AllCounted(h) && h.Of(id).Settled() && stale in h.Of(id).confirming
             && !Spent(h.Of(id).receipt.value, stale)
    ensures !NeverRewritten(h, id)
  {
    assert Counted(h.Of(id));
    var end := On(id, EndingConfirmation(stale, true));
    var r := h.Of(id).receipt.value;
    if r.retiredAt.Some? {
      ConfirmationRewrites(h, id, stale);
      Rewritten(h, id, [], end);
    } else {
      var retire := On(id, Retiring(Proof(None, r.phase, r.epoch), false, false, 0));
      CreateRetires(h, id, retire.act.proof);
      RunOne(h, retire);
      StepContinues(h, retire, id);
      ConfirmationRewrites(Step(h, retire), id, stale);
      Rewritten(h, id, [retire], end);
    }
  }

  /**
   No settled form of a receipt, retired or not, is rewritten by any continuation exactly when its command is
   not running any more and no confirmation of its process exit has anything left to change. (While it runs,
   the stream must have room for what its end stores.)
   */
  lemma SettledIsFrozenIffQuiescent(h: Host, id: string)
    requires AllCounted(h) && h.Of(id).Settled() && h.next <= SortKeys.MAX_SEQUENCE
    ensures NeverRewritten(h, id) <==> Quiescent(h.Of(id))
  {
    var c := h.Of(id);
    assert Counted(c);
    if c.Running() {
      LateEndRewrites(h, id);
      Rewritten(h, id, [], On(id, LateEnd(c.receipt.value)));
    } else if s :| s in c.confirming && !Spent(c.receipt.value, s) {
      OutstandingRewrites(h, id, s);
    } else {
      forall before, after | AllAddressed(before) && AllAddressed(after)
        ensures Evolves(Run(h, before).Of(id), Run(Run(h, before), after).Of(id))
      {
        RunKeepsIdentity(h, before, id);
        RunCounts(h, before);
        RunKeepsIdentity(Run(h, before), after, id);
      }
    }
  }

  /**
   Recovery that settles a receipt is safe exactly when the command is not running in this process and no
   confirmation of its exit is outstanding.
   */
  lemma RecoveryIsSafeIffUnattended(h: Host, id: string, session: Option<string>)
    requires AllCounted(h) && Recovers(h.Of(id), id, session, h.next) && h.next < SortKeys.MAX_SEQUENCE
    ensures NeverRewritten(Step(h, On(id, Recovering(session))), id) <==>
            !h.Of(id).Running() && h.Of(id).confirming == multiset{}
  {
    var c := h.Of(id);
    var t := Step(h, On(id, Recovering(session)));
    StepCounts(h, On(id, Recovering(session)));
    SettledIsFrozenIffQuiescent(t, id);
    assert t.Of(id).receipt.value.body == TURN_LOST.body;
    if c.confirming != multiset{} {
      var s :| s in c.confirming;
      assert s in t.Of(id).confirming && !Spent(t.Of(id).receipt.value, s);
    }
  }

  ghost predicate NeverChanges(h: Host, id: string) {
    forall ops :: AllAddressed(ops) ==> Run(h, ops).Of(id).receipt == h.Of(id).receipt
  }

  /**
   A retired receipt never changes at all exactly when it is quiescent; a repeated retirement then names the
   same time.
   */
  lemma RetiredIsFrozenIffQuiescent(h: Host, id: string)
    requires AllCounted(h) && h.Of(id).Settled() && h.Of(id).receipt.value.retiredAt.Some?
             && h.next <= SortKeys.MAX_SEQUENCE
    ensures NeverChanges(h, id) <==> Quiescent(h.Of(id))
    ensures forall proof, open, pending, acked, now ::
              var d := RetireDecision(h.Of(id).receipt, proof, open, pending, acked, now);
              !d.Retired? && (d.AlreadyRetired? ==> d.at == h.Of(id).receipt.value.retiredAt.value)
  {
    var c := h.Of(id);
    assert Counted(c);
    if Quiescent(c) {
      forall ops | AllAddressed(ops)
        ensures Run(h, ops).Of(id).receipt == c.receipt
      {
        RunKeepsIdentity(h, ops, id);
      }
    } else if c.Running() {
      LateEndRewrites(h, id);
      RetiredChanges(h, id, LateEnd(c.receipt.value));
    } else {
      var s :| s in c.confirming && !Spent(c.receipt.value, s);
      ConfirmationRewrites(h, id, s);
      RetiredChanges(h, id, EndingConfirmation(s, true));
    }
  }

  /** A retired receipt that one act rewrites has changed. */
  lemma RetiredChanges(h: Host, id: string, act: Act)
    requires h.Of(id).receipt.Some? && Addressed(id, act) && !Evolves(h.Of(id), Step(h, On(id, act)).Of(id))
    ensures !NeverChanges(h, id)
  {
    RunOne(h, On(id, act));
    assert AllAddressed([On(id, act)]);
    assert Run(h, [On(id, act)]).Of(id).receipt != h.Of(id).receipt;
  }

  /** The terminal event of a retired version 2 command is acknowledged, and stays so. */
  ghost predicate RetiredAcked(c: Command, acked: int) {
    c.receipt.Some? && c.receipt.value.retiredAt.Some? && c.receipt.value.version.V2? ==>
      c.receipt.value.terminalSequence.Some? && c.receipt.value.terminalSequence.value <= acked
  }

  lemma CommitKeepsRetiredAcked(hostKey: string, c: Command, q: Request, phase: Phase, outcome: Outcome,
                                w: Write, capture: Capture, next: nat, acked: int)
    requires RetiredAcked(c, acked)
    ensures RetiredAcked(Commit(c, Prepare(hostKey, c, q, phase, outcome, w, capture, next), next), acked)
  {
    Prepared(hostKey, c, q, phase, outcome, w, capture, next);
  }

  lemma RetiringKeepsRetiredAcked(c: Command, proof: Proof, open: bool, pending: bool, acked: int, now: int)
    requires RetiredAcked(c, acked)
    ensures RetiredAcked(Retire(c, proof, open, pending, acked, now), acked)
  {
  }

  lemma SubmitKeepsRetiredAcked(hostKey: string, c: Command, api: Api, q: Request, w: Write, next: nat, acked: int)
    requires RetiredAcked(c, acked)
    ensures RetiredAcked(Submit(hostKey, c, api, q, w, next).0, acked)
  {
    match Decide(c, api, q) {
      case Answer(_) =>
      case Start => CommitKeepsRetiredAcked(hostKey, c, q, Accepted, Outcome(202, Empty), w, NO_CAPTURE, next, acked);
      case LoseTurn => CommitKeepsRetiredAcked(hostKey, c, q, Rejected, TURN_LOST, w, NO_CAPTURE, next, acked);
    }
  }

  lemma FinishKeepsRetiredAcked(hostKey: string, c: Command, end: RunEnd, w: Write, capture: Capture, next: nat,
                                acked: int)
    requires RetiredAcked(c, acked) && c.Running()
    ensures RetiredAcked(Finish(hostKey, c, end, w, capture, next), acked)
  {
    var f := c.flight.value;
    var v := Verdict(f.api, end);
    if v.Some? {
      CommitKeepsRetiredAcked(hostKey, c, f.request, v.value.0, v.value.1, w, capture, next, acked);
    }
  }

  lemma ActKeepsRetiredAcked(hostKey: string, id: string, c: Command, act: Act, next: nat, acked: int)
    requires Counted(c) && RetiredAcked(c, acked)
    ensures RetiredAcked(Apply(hostKey, id, c, act, next, acked), acked)
  {
    match act {
      case Submitting(api, q, w) => SubmitKeepsRetiredAcked(hostKey, c, api, q, w, next, acked);
      case Finishing(end, w, capture) =>
        if c.Running() {
          FinishKeepsRetiredAcked(hostKey, c, end, w, capture, next, acked);
        }
      case Retiring(proof, open, pending, now) => RetiringKeepsRetiredAcked(c, proof, open, pending, acked, now);
      case _ =>
    }
  }

  lemma StepKeepsRetiredAcked(h: Host, op: Op, id: string)
    requires AllCounted(h) && RetiredAcked(h.Of(id), h.acked)
    ensures RetiredAcked(Step(h, op).Of(id), Step(h, op).acked)
  {
    assert Counted(h.Of(id));
    if op.On? && op.id == id {
      ActKeepsRetiredAcked(h.hostKey, id, h.Of(id), op.act, h.next, h.acked);
    } else if op.Restart? {
      assert Step(h, op).Of(id) == Forgotten(h.Of(id));
    } else {
      assert Step(h, op).Of(id) == h.Of(id);
    }
  }

  lemma {:induction false} RetiredStaysAcked(h: Host, ops: seq<Op>, id: string)
    requires AllCounted(h) && AllAddressed(ops) && RetiredAcked(h.Of(id), h.acked)
    ensures RetiredAcked(Run(h, ops).Of(id), Run(h, ops).acked)
    decreases |ops|
  {
    if ops != [] {
      StepKeepsRetiredAcked(h, ops[0], id);
      StepCounts(h, ops[0]);
      RetiredStaysAcked(Step(h, ops[0]), ops[1..], id);
    }
  }

  // --------------------------------------------------- order of the evidence

  /** Commands of a session announce their acceptance with an event; no others do. */
  const ANNOUNCED := {PROMPT, "session.input", "session.steer", "session.cancel", "session.checkpoint",
                      "session.delete"}

  /** An acceptance is written the way its route writes it. */
  predicate Routed(c: Command, act: Act) {
    match act
    case Submitting(api, q, w) => !w.Lost? ==> w.event == (q.kind in ANNOUNCED)
    case Finishing(end, w, _) =>
      end.ExitUnconfirmed? && c.flight.Some? && !w.Lost? ==> w.event == (c.flight.value.request.kind in ANNOUNCED)
    case _ => true
  }

  predicate AllRouted(h: Host, ops: seq<Op>)
    decreases |ops|
  {
    ops == [] || ((ops[0].On? ==> Routed(h.Of(ops[0].id), ops[0].act)) && AllRouted(Step(h, ops[0]), ops[1..]))
  }

  ghost predicate OrderedAt(r: Receipt, next: nat) {
    && (r.acceptedSequence.Some? <==> r.kind in ANNOUNCED)
    && (r.acceptedSequence.Some? ==> r.acceptedSequence.value < next)
    && (r.terminalSequence.Some? ==> r.terminalSequence.value < next)
    && (r.acceptedSequence.Some? && r.terminalSequence.Some? ==> r.acceptedSequence.value < r.terminalSequence.value)
  }

  ghost predicate Ordered(c: Command, next: nat) {
    && (c.receipt.Some? ==> OrderedAt(c.receipt.value, next))
    && (c.flight.Some? ==> TargetAllowed(c.flight.value.request))
    && (c.Running() ==> c.receipt.Some? && c.flight.value.request.kind == c.receipt.value.kind)
    && ReadFrom(c.confirming, c.receipt)
  }

  lemma PutIsOrdered(c: Command, row: Receipt, event: bool, next: nat)
    requires c.receipt.Some? ==> OrderedAt(c.receipt.value, next) && row.kind == c.receipt.value.kind
    requires row.phase == Accepted ==> event == (row.kind in ANNOUNCED)
    requires c.receipt.None? ==> row.phase == Accepted && row.acceptedSequence == row.terminalSequence == None
    requires c.receipt.Some? ==>
               row.acceptedSequence in {None, c.receipt.value.acceptedSequence}
                 && row.terminalSequence in {None, c.receipt.value.terminalSequence}
    ensures OrderedAt(Put(c, row, event, next).receipt.value, next + Emitted(event))
  {
  }

  lemma CommitIsOrdered(hostKey: string, c: Command, q: Request, phase: Phase, outcome: Outcome, w: Write,
                        capture: Capture, next: nat)
    requires Ordered(c, next) && TargetAllowed(q)
    requires c.receipt.Some? ==> c.receipt.value.kind == q.kind
    requires c.receipt.None? ==> phase == Accepted
    requires phase == Accepted && !w.Lost? ==> w.event == (q.kind in ANNOUNCED)
    ensures var a := Prepare(hostKey, c, q, phase, outcome, w, capture, next);
            var d := Commit(c, a, next);
            && (d.receipt.Some? ==> OrderedAt(d.receipt.value, next + a.Extent().0 + Emitted(a.Extent().1)))
            && (d.receipt.Some? ==> d.receipt.value.kind == q.kind)
            && d == c.(receipt := d.receipt) && ReadFrom(c.confirming, d.receipt)
  {
    var a := Prepare(hostKey, c, q, phase, outcome, w, capture, next);
    Prepared(hostKey, c, q, phase, outcome, w, capture, next);
    CommitKeepsIdentity(hostKey, c, q, phase, outcome, w, capture, next);
    ReadFromLater(c.confirming, c.receipt, Commit(c, a, next).receipt);
    if !a.write.Lost? {
      PutIsOrdered(c, a.row, a.write.event, next + a.emitted);
    }
  }

  lemma BeginIsOrdered(hostKey: string, c: Command, api: Api, q: Request, w: Write, next: nat)
    requires Ordered(c, next) && TargetAllowed(q) && c.flight.None?
             && (c.receipt.Some? ==> c.receipt.value.kind == q.kind)
    requires !w.Lost? ==> w.event == (q.kind in ANNOUNCED)
    ensures var e := Accepting(hostKey, c, q, w, next).Extent();
            Ordered(Begin(hostKey, c, api, q, w, next), next + e.0 + Emitted(e.1))
  {
    CommitIsOrdered(hostKey, c, q, Accepted, Outcome(202, Empty), w, NO_CAPTURE, next);
    Prepared(hostKey, c, q, Accepted, Outcome(202, Empty), w, NO_CAPTURE, next);
  }

  lemma SubmitIsOrdered(hostKey: string, c: Command, api: Api, q: Request, w: Write, next: nat)
    requires Ordered(c, next) && Routed(c, Submitting(api, q, w))
    ensures var e := SubmitExtent(hostKey, c, api, q, w, next);
            Ordered(Submit(hostKey, c, api, q, w, next).0, next + e.0 + Emitted(e.1))
  {
    match Decide(c, api, q) {
      case Answer(_) =>
      case Start => BeginIsOrdered(hostKey, c, api, q, w, next);
      case LoseTurn => CommitIsOrdered(hostKey, c, q, Rejected, TURN_LOST, w, NO_CAPTURE, next);
    }
  }

  lemma FinishIsOrdered(hostKey: string, id: string, c: Command, end: RunEnd, w: Write, capture: Capture, next: nat)
    requires Ordered(c, next) && Routed(c, Finishing(end, w, capture)) && c.Running()
    ensures Ordered(Finish(hostKey, c, end, w, capture, next),
                    next + Positions(hostKey, id, c, Finishing(end, w, capture), next))
  {
    var act := Finishing(end, w, capture);
    var f := c.flight.value;
    var v := Verdict(f.api, end);
    if v.Some? {
      CommitIsOrdered(hostKey, c, f.request, v.value.0, v.value.1, w, capture, next);
      var a := Prepare(hostKey, c, f.request, v.value.0, v.value.1, w, capture, next);
      assert Concluding(hostKey, c, end, w, capture, next) == Some(a);
      assert Extent(hostKey, id, c, act, next) == a.Extent();
    } else {
      assert Extent(hostKey, id, c, act, next) == (0, false);
    }
  }

  lemma RepairIsOrdered(hostKey: string, id: string, c: Command, act: Act, next: nat, acked: int)
    requires Ordered(c, next) && (act.Recovering? || act.CompletingObject?)
    ensures Ordered(Apply(hostKey, id, c, act, next, acked), next + Positions(hostKey, id, c, act, next))
  {
    match act {
      case Recovering(session) =>
        if Recovers(c, id, session, next) {
          PutIsOrdered(c, LostRow(c.receipt.value, session), true, next);
          ReadFromLater(c.confirming, c.receipt, Recover(c, id, session, next).receipt);
        }
      case CompletingObject(status, body) =>
        if c.receipt.Some? {
          PutIsOrdered(c, c.receipt.value.(phase := Completed, httpStatus := status, body := StoredBody(body)), true,
                       next);
        }
    }
  }

  lemma BeginConfirmationIsOrdered(c: Command, next: nat)
    requires Ordered(c, next)
    ensures Ordered(BeginConfirmation(c), next)
  {
  }

  lemma ConfirmationIsOrdered(c: Command, stale: Receipt, stored: bool, next: nat)
    requires Ordered(c, next)
    ensures Ordered(EndConfirmation(c, stale, stored), next)
  {
    if stale in c.confirming {
      var d := EndConfirmation(c, stale, stored);
      assert SameIdentity(stale, c.receipt.value);
      assert forall s :: s in d.confirming ==> s in c.confirming;
    }
  }

  lemma QuietActIsOrdered(hostKey: string, id: string, c: Command, act: Act, next: nat, acked: int)
    requires Ordered(c, next) && (act.Forgetting? || act.MarkingUnconfirmed? || act.Retiring?)
    ensures Ordered(Apply(hostKey, id, c, act, next, acked), next)
  {
  }

  lemma ActIsOrdered(hostKey: string, id: string, c: Command, act: Act, next: nat, acked: int)
    requires Ordered(c, next) && Routed(c, act)
    ensures Ordered(Apply(hostKey, id, c, act, next, acked), next + Positions(hostKey, id, c, act, next))
  {
    if act.Submitting? {
      SubmitIsOrdered(hostKey, c, act.api, act.q, act.w, next);
    } else if act.Finishing? {
      if c.Running() {
        FinishIsOrdered(hostKey, id, c, act.end, act.w, act.capture, next);
      }
    } else if act.Recovering? || act.CompletingObject? {
      RepairIsOrdered(hostKey, id, c, act, next, acked);
    } else if act.BeginningConfirmation? {
      BeginConfirmationIsOrdered(c, next);
    } else if act.EndingConfirmation? {
      ConfirmationIsOrdered(c, act.stale, act.stored, next);
    } else {
      QuietActIsOrdered(hostKey, id, c, act, next, acked);
    }
  }

  ghost predicate AllOrdered(h: Host) {
    forall id :: Ordered(h.Of(id), h.next)
  }

  lemma OrderedLater(c: Command, next: nat, later: nat)
    requires Ordered(c, next) && next <= later
    ensures Ordered(c, later)
  {
  }

  lemma {:induction false} RunIsOrdered(h: Host, ops: seq<Op>)
    requires AllOrdered(h) && AllRouted(h, ops)
    ensures AllOrdered(Run(h, ops))
    decreases |ops|
  {
    if ops != [] {
      var t := Step(h, ops[0]);
      forall id ensures Ordered(t.Of(id), t.next) {
        assert Ordered(h.Of(id), h.next);
        if ops[0].On? && ops[0].id == id {
          ActIsOrdered(h.hostKey, id, h.Of(id), ops[0].act, h.next, h.acked);
        } else if ops[0].Restart? {
          assert t.Of(id) == Forgotten(h.Of(id));
        } else {
          assert t.Of(id) == h.Of(id);
          OrderedLater(h.Of(id), h.next, t.next);
        }
      }
      RunIsOrdered(t, ops[1..]);
    }
  }

  /** Acceptance evidence precedes terminal evidence, and both name emitted positions, whatever is recovered when. */
  lemma EvidenceIsOrdered(hostKey: string, ops: seq<Op>, id: string)
    requires AllRouted(Initial(hostKey), ops)
    ensures var t := Run(Initial(hostKey), ops);
            t.Of(id).receipt.Some? ==> OrderedAt(t.Of(id).receipt.value, t.next)
  {
    RunIsOrdered(Initial(hostKey), ops);
    assert Ordered(Run(Initial(hostKey), ops).Of(id), Run(Initial(hostKey), ops).next);
  }

  // ------------------------------------------------- a retired receipt rewritten

  /** A create is accepted, recovered while it runs, and retired. */
  function RetiredInFlight(hostKey: string, q: Request): Host {
    var id := q.commandId;
    var accepted := Step(Initial(hostKey), On(id, Submitting(Execute, q, Write.Stored(false))));
    Step(Step(accepted, On(id, Recovering(None))),
         On(id, Retiring(Proof(None, Rejected, q.fence.epoch), false, false, 7)))
  }

  lemma RetiredInFlightIs(hostKey: string, q: Request)
    requires q.version.V1? && q.kind == CREATE
    ensures var c := RetiredInFlight(hostKey, q).Of(q.commandId);
            && c.Running() && c.flight.value.request == q && c.flight.value.api == Execute
            && c.receipt.Some? && c.receipt.value.retiredAt == Some(7)
            && c.receipt.value.body == Tombstone && c.receipt.value.phase == Rejected
  {
  }

  /** From an empty host: a retired receipt is rewritten when the run recovered under it ends. */
  lemma RetiredReceiptIsRewritten(hostKey: string, q: Request, o: Outcome)
    requires q.version.V1? && q.kind == CREATE
    ensures var h := RetiredInFlight(hostKey, q);
            var before := h.Of(q.commandId).receipt;
            var end := On(q.commandId, Finishing(Succeeded(o), Write.Stored(false), NO_CAPTURE));
            var after := Step(h, end).Of(q.commandId).receipt;
            && before.Some? && before.value.retiredAt == Some(7) && before.value.body == Tombstone
            && before.value.phase == Rejected
            && after.Some? && after.value.retiredAt == Some(7) && after.value.body == StoredBody(o.body)
            && after.value.phase == Completed
  {
    RetiredInFlightIs(hostKey, q);
  }

  // ------------------------------------- a confirmation that comes too late

  /** A create has failed without its exit being confirmed. */
  function FailedCreate(hostKey: string, q: Request, o: Outcome): Host {
    var id := q.commandId;
    var accepted := Step(Initial(hostKey), On(id, Submitting(Execute, q, Write.Stored(false))));
    Step(Step(accepted, On(id, Finishing(ExitUnconfirmed(o), Write.Stored(false), NO_CAPTURE))), On(id, Forgetting))
  }

  /** While the exit is looked into, recovery settles the create. */
  function RecoveredWhileConfirming(hostKey: string, q: Request, o: Outcome): Host {
    Step(Step(FailedCreate(hostKey, q, o), On(q.commandId, BeginningConfirmation)), On(q.commandId, Recovering(None)))
  }

  /** The row that the confirmation has read. */
  function ReadBefore(hostKey: string, q: Request, o: Outcome): Receipt {
    Mint(hostKey, q, Accepted, Outcome(o.status, Body.Unconfirmed("")))
  }

  lemma FailedCreateIs(hostKey: string, q: Request, o: Outcome)
    requires q.version.V1? && q.kind == CREATE
    ensures var c := FailedCreate(hostKey, q, o).Of(q.commandId);
            c.flight.None? && c.confirming == multiset{} && c.receipt == Some(ReadBefore(hostKey, q, o))
  {
  }

  lemma RecoveredWhileConfirmingIs(hostKey: string, q: Request, o: Outcome)
    requires q.version.V1? && q.kind == CREATE
    ensures var c := RecoveredWhileConfirming(hostKey, q, o).Of(q.commandId);
            && ReadBefore(hostKey, q, o) in c.confirming && c.flight.None?
            && c.receipt.Some? && c.receipt.value.retiredAt.None?
            && c.receipt.value.phase == Rejected && c.receipt.value.epoch == q.fence.epoch
            && c.receipt.value.version.V1?
            && c.receipt.value.httpStatus == TURN_LOST.status && c.receipt.value.body == TURN_LOST.body
  {
    FailedCreateIs(hostKey, q, o);
    var failed := FailedCreate(hostKey, q, o);
    var confirming := Step(failed, On(q.commandId, BeginningConfirmation));
    StepOn(failed, q.commandId, BeginningConfirmation);
    assert confirming.Of(q.commandId).confirming == multiset{ReadBefore(hostKey, q, o)};
    StepOn(confirming, q.commandId, Recovering(None));
  }

  lemma EndConfirmationWrites(c: Command, stale: Receipt)
    requires stale in c.confirming && c.receipt.Some?
    ensures var d := EndConfirmation(c, stale, true).receipt;
            && d.Some? && d.value.phase == Rejected && d.value.httpStatus == 503
            && d.value.body == ConfirmedRow(stale).body && d.value.retiredAt == c.receipt.value.retiredAt
  {
  }

  lemma StepOn(h: Host, id: string, act: Act)
    ensures Step(h, On(id, act)).Of(id) == Apply(h.hostKey, id, h.Of(id), act, h.next, h.acked)
  {
  }

  /**
   From an empty host: the settled receipt of a command that is not running, and not in flight either, is
   rewritten when the confirmation ends.
   */
  lemma LateConfirmationRewrites(hostKey: string, q: Request, o: Outcome)
    requires q.version.V1? && q.kind == CREATE
    ensures var id := q.commandId;
            var h := RecoveredWhileConfirming(hostKey, q, o);
            var c := h.Of(id);
            var d := Step(h, On(id, EndingConfirmation(ReadBefore(hostKey, q, o), true))).Of(id);
            && c.flight.None? && c.Settled() && c.receipt.value.httpStatus == TURN_LOST.status
            && d.receipt.Some? && d.receipt.value.httpStatus == 503
  {
    RecoveredWhileConfirmingIs(hostKey, q, o);
    var h, stale := RecoveredWhileConfirming(hostKey, q, o), ReadBefore(hostKey, q, o);
    StepOn(h, q.commandId, EndingConfirmation(stale, true));
    EndConfirmationWrites(h.Of(q.commandId), stale);
  }

  function RetireCreate(q: Request): Act {
    Retiring(Proof(None, Rejected, q.fence.epoch), false, false, 7)
  }

  lemma RetireCreateRetires(h: Host, q: Request)
    requires var r := h.Of(q.commandId).receipt;
             && r.Some? && r.value.phase == Rejected && r.value.version.V1? && r.value.retiredAt.None?
             && r.value.epoch == q.fence.epoch
    ensures var c := Step(h, On(q.commandId, RetireCreate(q))).Of(q.commandId);
            && c.receipt.Some? && c.receipt.value.retiredAt == Some(7) && c.receipt.value.body == Tombstone
            && c.flight == h.Of(q.commandId).flight && c.confirming == h.Of(q.commandId).confirming
  {
    StepOn(h, q.commandId, RetireCreate(q));
  }

  lemma RetiredWhileConfirmingIs(hostKey: string, q: Request, o: Outcome)
    requires q.version.V1? && q.kind == CREATE
    ensures var c := Step(RecoveredWhileConfirming(hostKey, q, o), On(q.commandId, RetireCreate(q))).Of(q.commandId);
            && c.receipt.Some? && c.receipt.value.retiredAt == Some(7) && c.receipt.value.body == Tombstone
            && c.flight.None? && ReadBefore(hostKey, q, o) in c.confirming
  {
    RecoveredWhileConfirmingIs(hostKey, q, o);
    RetireCreateRetires(RecoveredWhileConfirming(hostKey, q, o), q);
  }

  /** And so is its tombstone if it has been retired in between. */
  lemma LateConfirmationRewritesTombstone(hostKey: string, q: Request, o: Outcome)
    requires q.version.V1? && q.kind == CREATE
    ensures var id := q.commandId;
            var h := Step(RecoveredWhileConfirming(hostKey, q, o), On(id, RetireCreate(q)));
            var c := h.Of(id);
            var d := Step(h, On(id, EndingConfirmation(ReadBefore(hostKey, q, o), true))).Of(id);
            && c.flight.None? && c.receipt.Some? && c.receipt.value.retiredAt == Some(7)
            && c.receipt.value.body == Tombstone
            && d.receipt.Some? && d.receipt.value.retiredAt == Some(7) && d.receipt.value.body == ExitConfirmed("")
  {
    RetiredWhileConfirmingIs(hostKey, q, o);
    var h := Step(RecoveredWhileConfirming(hostKey, q, o), On(q.commandId, RetireCreate(q)));
    StepOn(h, q.commandId, EndingConfirmation(ReadBefore(hostKey, q, o), true));
    EndConfirmationWrites(h.Of(q.commandId), ReadBefore(hostKey, q, o));
  }
}
