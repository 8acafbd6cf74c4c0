/**
 The evidence of version 2 prompts over every run: exactly when a stored row answers with evidence that
 passes its checks, and when a successful prompt's output refers to the very position at which its event
 is appended.
 */
module PromptEvidence {
  import opened Wrappers
  import opened Receipts
  import opened CommandEvidence
  import opened ReceiptProtocol
  import Runs = ReceiptRuns
  import SortKeys

  /** The output refers to the event written last, and to what came after the acceptance of this command. */
  ghost predicate OutputFits(id: string, r: Receipt) {
    && r.body.WithOutput?
    && var o := r.body.output;
    && o.commandId == id && Some(o.hostSessionId) == r.hostSessionId && ReferenceValid(o)
    && Some(o.acceptedSequence) == r.acceptedSequence && Some(o.terminalSequence) == r.eventId
  }

  ghost predicate PositionsFit(r: Receipt, next: nat) {
    && r.acceptedSequence.Some? && r.acceptedSequence.value < next
    && (r.terminalSequence.Some? ==>
          && IsSequence(r.terminalSequence.value)
          && r.acceptedSequence.value < r.terminalSequence.value < next)
    && (r.Settled() ==> r.terminalSequence.Some? && r.eventId.Some?)
  }

  ghost predicate BodyFits(id: string, r: Receipt) {
    match r.phase
    case Accepted => r.body != Tombstone
    case Completed => r.body == Tombstone || OutputFits(id, r)
    case Rejected => r.body == Tombstone || r.body.Json?
  }

  ghost predicate RowAttested(id: string, r: Receipt, next: nat) {
    r.version.V2? ==>
      && r.kind == PROMPT && r.hostSessionId.Some? && r.digest.Some? && PhaseStatus(r.phase, r.httpStatus)
      && PositionsFit(r, next) && BodyFits(id, r)
  }

  /** The request in flight is the one its receipt belongs to. */
  ghost predicate Paired(id: string, r: Receipt, q: Request) {
    && q.commandId == id && TargetAllowed(q)
    && r.version == q.version && r.kind == q.kind && (q.version.V2? ==> r.hostSessionId == q.hostSessionId)
  }

  ghost predicate Attested(id: string, c: Command, next: nat) {
    && (c.receipt.Some? ==> RowAttested(id, c.receipt.value, next))
    && (c.Running() ==> c.receipt.Some? && Paired(id, c.receipt.value, c.flight.value.request))
  }

  lemma AttestedLater(id: string, c: Command, next: nat, later: nat)
    requires Attested(id, c, next) && next <= later
    ensures Attested(id, c, later)
  {
  }

  // ------------------------------------------------------------------ writes

  /** What a version 2 write stores, over a receipt in whatever state. */
  lemma PutIsAttested(id: string, c: Command, row: Receipt, next: nat)
    requires row.version.V2? && Publishable(id, row, next) && row.hostSessionId.Some? && row.body != Tombstone
    requires row.acceptedSequence.None? || (c.receipt.Some? && row.acceptedSequence == c.receipt.value.acceptedSequence)
    requires row.terminalSequence.None? || (c.receipt.Some? && row.terminalSequence == c.receipt.value.terminalSequence)
    requires c.receipt.None? ==> row.phase == Accepted && row.digest.Some?
    requires c.receipt.Some? ==>
               && RowAttested(id, c.receipt.value, next)
               && SameResponder(c.receipt.value, row) && c.receipt.value.version.V2?
    requires row.phase == Completed ==>
               c.receipt.Some? && Some(row.body.output.acceptedSequence) == c.receipt.value.acceptedSequence
    ensures RowAttested(id, Put(c, row, true, next).receipt.value, next + 1)
  {
    var r := Put(c, row, true, next).receipt.value;
    assert r.phase == row.phase && r.body == row.body && r.eventId == Some(next);
    assert row.phase != Accepted ==> IsSequence(next);
  }

  /** Rows whose responses differ in their outcome only. */
  predicate SameResponder(r: Receipt, row: Receipt) {
    r.kind == row.kind && r.hostSessionId == row.hostSessionId
  }

  lemma CommitIsPaired(hostKey: string, id: string, c: Command, q: Request, phase: Phase, outcome: Outcome,
                       w: Write, capture: Capture, next: nat)
    requires TargetAllowed(q) && q.commandId == id && (c.receipt.Some? ==> Paired(id, c.receipt.value, q))
    ensures var d := Commit(c, Prepare(hostKey, c, q, phase, outcome, w, capture, next), next);
            d.receipt.Some? ==> Paired(id, d.receipt.value, q)
  {
    Prepared(hostKey, c, q, phase, outcome, w, capture, next);
  }

  lemma CommitIsAttested(hostKey: string, id: string, c: Command, q: Request, phase: Phase, outcome: Outcome,
                         w: Write, capture: Capture, next: nat)
    requires c.receipt.Some? ==> RowAttested(id, c.receipt.value, next) && Paired(id, c.receipt.value, q)
    requires c.receipt.None? ==> phase == Accepted
    requires TargetAllowed(q) && q.commandId == id && (phase == Accepted ==> outcome.body != Tombstone)
    ensures var a := Prepare(hostKey, c, q, phase, outcome, w, capture, next);
            var d := Commit(c, a, next);
            d.receipt.Some? ==> RowAttested(id, d.receipt.value, next + a.Extent().0 + Emitted(a.Extent().1))
  {
    var a := Prepare(hostKey, c, q, phase, outcome, w, capture, next);
    Prepared(hostKey, c, q, phase, outcome, w, capture, next);
    if !a.write.Lost? && q.version.V2? {
      assert a.write.event && Publishable(id, a.row, next + a.emitted);
      if c.receipt.Some? {
        assert RowAttested(id, c.receipt.value, next + a.emitted);
      }
      PutIsAttested(id, c, a.row, next + a.emitted);
    }
  }

  // -------------------------------------------------------------------- acts

  lemma StartIsAttested(hostKey: string, id: string, c: Command, api: Api, q: Request, w: Write, next: nat)
    requires Attested(id, c, next) && Addressed(id, Submitting(api, q, w)) && Decide(c, api, q).Start?
    ensures var e := Accepting(hostKey, c, q, w, next).Extent();
            Attested(id, Begin(hostKey, c, api, q, w, next), next + e.0 + Emitted(e.1))
  {
    StartsAreFree(id, c, api, q, w);
    CommitIsAttested(hostKey, id, c, q, Accepted, Outcome(202, Empty), w, NO_CAPTURE, next);
    CommitIsPaired(hostKey, id, c, q, Accepted, Outcome(202, Empty), w, NO_CAPTURE, next);
    Prepared(hostKey, c, q, Accepted, Outcome(202, Empty), w, NO_CAPTURE, next);
  }

  lemma SubmitIsAttested(hostKey: string, id: string, c: Command, api: Api, q: Request, w: Write, next: nat)
    requires Attested(id, c, next) && Addressed(id, Submitting(api, q, w))
    ensures var e := SubmitExtent(hostKey, c, api, q, w, next);
            Attested(id, Submit(hostKey, c, api, q, w, next).0, next + e.0 + Emitted(e.1))
  {
    match Decide(c, api, q) {
      case Answer(_) =>
      case Start => StartIsAttested(hostKey, id, c, api, q, w, next);
      case LoseTurn => CommitIsAttested(hostKey, id, c, q, Rejected, TURN_LOST, w, NO_CAPTURE, next);
    }
  }

  lemma FinishIsAttested(hostKey: string, id: string, c: Command, end: RunEnd, w: Write, capture: Capture, next: nat)
    requires Attested(id, c, next) && c.Running()
    ensures Attested(id, Finish(hostKey, c, end, w, capture, next),
                     next + Positions(hostKey, id, c, Finishing(end, w, capture), next))
  {
    var f := c.flight.value;
    var v := Verdict(f.api, end);
    if v.Some? {
      var a := Prepare(hostKey, c, f.request, v.value.0, v.value.1, w, capture, next);
      CommitIsAttested(hostKey, id, c, f.request, v.value.0, v.value.1, w, capture, next);
      assert Concluding(hostKey, c, end, w, capture, next) == Some(a);
      assert Extent(hostKey, id, c, Finishing(end, w, capture), next) == a.Extent();
    }
  }

  lemma RecoverIsAttested(id: string, c: Command, session: Option<string>, next: nat)
    requires Attested(id, c, next)
    ensures Attested(id, Recover(c, id, session, next), next + Emitted(Recovers(c, id, session, next)))
  {
    if Recovers(c, id, session, next) {
      var row := LostRow(c.receipt.value, session);
      if row.version.V2? {
        PutIsAttested(id, c, row, next);
      }
    }
  }

  /** What only ever concerns other commands, or only compacts the row. */
  lemma OtherActIsAttested(hostKey: string, id: string, c: Command, act: Act, next: nat, acked: int)
    requires Attested(id, c, next) && Runs.Counted(c)
    requires !act.Submitting? && !act.Recovering? && (act.Finishing? ==> !c.Running()) && !act.EndingConfirmation?
    ensures Attested(id, Apply(hostKey, id, c, act, next, acked), next + Positions(hostKey, id, c, act, next))
  {
  }

  lemma ConfirmationIsAttested(id: string, c: Command, stale: Receipt, stored: bool, next: nat)
    requires Attested(id, c, next) && Runs.Counted(c)
    ensures Attested(id, EndConfirmation(c, stale, stored), next)
  {
    if stale in c.confirming {
      ConfirmationOverwrites(c, stale);
    }
  }

  lemma ActIsAttested(hostKey: string, id: string, c: Command, act: Act, next: nat, acked: int)
    requires Attested(id, c, next) && Runs.Counted(c) && Addressed(id, act)
    ensures Attested(id, Apply(hostKey, id, c, act, next, acked), next + Positions(hostKey, id, c, act, next))
  {
    if act.Submitting? {
      SubmitIsAttested(hostKey, id, c, act.api, act.q, act.w, next);
    } else if act.Finishing? && c.Running() {
      FinishIsAttested(hostKey, id, c, act.end, act.w, act.capture, next);
    } else if act.Recovering? {
      RecoverIsAttested(id, c, act.session, next);
    } else if act.EndingConfirmation? {
      ConfirmationIsAttested(id, c, act.stale, act.stored, next);
    } else {
      OtherActIsAttested(hostKey, id, c, act, next, acked);
    }
  }

  // -------------------------------------------------------------------- runs

  ghost predicate AllAttested(h: Host) {
    Runs.AllCounted(h) && forall id :: Attested(id, h.Of(id), h.next)
  }

  lemma StepCommandIsAttested(h: Host, op: Op, id: string)
    requires AllAttested(h) && (op.On? ==> Addressed(op.id, op.act))
    ensures Attested(id, Step(h, op).Of(id), Step(h, op).next)
  {
    assert Attested(id, h.Of(id), h.next) && Runs.Counted(h.Of(id));
    if op.On? && op.id == id {
      ActIsAttested(h.hostKey, id, h.Of(id), op.act, h.next, h.acked);
    } else if op.Restart? {
      assert Step(h, op).Of(id) == Forgotten(h.Of(id));
    } else {
      assert Step(h, op).Of(id) == h.Of(id);
      AttestedLater(id, h.Of(id), h.next, Step(h, op).next);
    }
  }

  lemma StepIsAttested(h: Host, op: Op)
    requires AllAttested(h) && (op.On? ==> Addressed(op.id, op.act))
    ensures AllAttested(Step(h, op))
  {
    Runs.StepCounts(h, op);
    forall id ensures Attested(id, Step(h, op).Of(id), Step(h, op).next) {
      StepCommandIsAttested(h, op, id);
    }
  }

  lemma {:induction false} RunIsAttested(h: Host, ops: seq<Op>)
    requires AllAttested(h) && AllAddressed(ops)
    ensures AllAttested(Run(h, ops))
    decreases |ops|
  {
    if ops != [] {
      StepIsAttested(h, ops[0]);
      RunIsAttested(Step(h, ops[0]), ops[1..]);
    }
  }

  /** A host that some run leads to. */
  ghost predicate Reachable(h: Host) {
    exists ops :: AllAddressed(ops) && Run(Initial(h.hostKey), ops) == h
  }

  lemma ReachableIsAttested(h: Host)
    requires Reachable(h)
    ensures AllAttested(h)
  {
    var ops :| AllAddressed(ops) && Run(Initial(h.hostKey), ops) == h;
    RunIsAttested(Initial(h.hostKey), ops);
  }

  // ------------------------------------------------------ when a row answers

  lemma RowAnswersIff(id: string, r: Receipt, next: nat)
    requires RowAttested(id, r, next) && r.version.V2?
    ensures ResponseValid(Respond(id, r)) <==>
              r.body != Tombstone && (r.phase == Completed ==> r.eventId == r.terminalSequence)
  {
  }

  /**
   On every reachable host, whatever was recovered when: a version 2 row answers with evidence that passes
   every check exactly as long as it is no tombstone and, if it reports success, its last event is the one
   at its terminal position. Its positions are in order, and its output spans from its acceptance up to
   its last event.
   */
  lemma StoredEvidencePassesIff(h: Host, id: string)
    requires Reachable(h) && h.Of(id).receipt.Some? && h.Of(id).receipt.value.version.V2?
    ensures var r := h.Of(id).receipt.value;
            ResponseValid(Respond(id, r)) <==>
              r.body != Tombstone && (r.phase == Completed ==> r.eventId == r.terminalSequence)
    ensures var r := h.Of(id).receipt.value;
            && r.acceptedSequence.Some? && r.acceptedSequence.value < h.next
            && (r.Settled() ==>
                  && r.eventId.Some? && r.terminalSequence.Some?
                  && r.acceptedSequence.value < r.terminalSequence.value < h.next)
            && (r.phase == Completed && r.body != Tombstone ==>
                  && r.body.WithOutput? && r.body.output.commandId == id
                  && Some(r.body.output.acceptedSequence) == r.acceptedSequence
                  && Some(r.body.output.terminalSequence) == r.eventId)
  {
    ReachableIsAttested(h);
    assert Attested(id, h.Of(id), h.next);
    RowAnswersIff(id, h.Of(id).receipt.value, h.next);
  }

  // ------------------------------------- prompts not recovered while running

  /** This command is never recovered while it runs; others may be. */
  predicate LeftAlone(h: Host, ops: seq<Op>, id: string)
    decreases |ops|
  {
    ops == []
    || ((ops[0].On? && ops[0].id == id ==> Quiet(h.Of(id), ops[0].act)) && LeftAlone(Step(h, ops[0]), ops[1..], id))
  }

  ghost predicate RowUndisturbed(r: Receipt) {
    && (r.Settled() ==> r.eventId == r.terminalSequence)
    && (!r.Settled() ==> r.terminalSequence.None? && r.retiredAt.None?)
    && (r.retiredAt.Some? <==> r.body == Tombstone)
  }

  ghost predicate Undisturbed(c: Command) {
    c.receipt.Some? && c.receipt.value.version.V2? ==>
      RowUndisturbed(c.receipt.value) && (c.Running() ==> !c.Settled())
  }

  lemma CommitUndisturbed(hostKey: string, id: string, c: Command, q: Request, phase: Phase, outcome: Outcome,
                          w: Write, capture: Capture, next: nat)
    requires Attested(id, c, next) && Undisturbed(c) && !c.Settled() && q.commandId == id
    requires TargetAllowed(q) && (c.receipt.Some? ==> Paired(id, c.receipt.value, q))
    requires (c.receipt.None? ==> phase == Accepted) && (phase == Accepted ==> outcome.body != Tombstone)
    ensures var d := Commit(c, Prepare(hostKey, c, q, phase, outcome, w, capture, next), next);
            && d == c.(receipt := d.receipt)
            && (d.receipt.Some? && d.receipt.value.version.V2? ==>
                  RowUndisturbed(d.receipt.value) && d.receipt.value.phase in {Accepted, phase})
  {
    var a := Prepare(hostKey, c, q, phase, outcome, w, capture, next);
    Prepared(hostKey, c, q, phase, outcome, w, capture, next);
    if !a.write.Lost? && q.version.V2? {
      assert a.write.event && Publishable(id, a.row, next + a.emitted);
      assert a.row.body != Tombstone;
    }
  }

  lemma SubmitUndisturbed(hostKey: string, id: string, c: Command, api: Api, q: Request, w: Write, next: nat)
    requires Attested(id, c, next) && Undisturbed(c) && Addressed(id, Submitting(api, q, w))
    ensures Undisturbed(Submit(hostKey, c, api, q, w, next).0)
  {
    match Decide(c, api, q) {
      case Answer(_) =>
      case Start =>
        StartsAreFree(id, c, api, q, w);
        CommitUndisturbed(hostKey, id, c, q, Accepted, Outcome(202, Empty), w, NO_CAPTURE, next);
      case LoseTurn => CommitUndisturbed(hostKey, id, c, q, Rejected, TURN_LOST, w, NO_CAPTURE, next);
    }
  }

  lemma FinishUndisturbed(hostKey: string, id: string, c: Command, end: RunEnd, w: Write, capture: Capture, next: nat)
    requires Attested(id, c, next) && Undisturbed(c) && c.Running()
    ensures Undisturbed(Finish(hostKey, c, end, w, capture, next))
  {
    var f := c.flight.value;
    var v := Verdict(f.api, end);
    if v.Some? && c.receipt.value.version.V2? {
      CommitUndisturbed(hostKey, id, c, f.request, v.value.0, v.value.1, w, capture, next);
    } else if v.Some? {
      Prepared(hostKey, c, f.request, v.value.0, v.value.1, w, capture, next);
    }
  }

  lemma OtherActUndisturbed(hostKey: string, id: string, c: Command, act: Act, next: nat, acked: int)
    requires Runs.Counted(c) && Attested(id, c, next) && Undisturbed(c) && Quiet(c, act)
    requires !act.Submitting? && (act.Finishing? ==> !c.Running()) && !act.EndingConfirmation?
    ensures Undisturbed(Apply(hostKey, id, c, act, next, acked))
  {
  }

  lemma ActUndisturbed(hostKey: string, id: string, c: Command, act: Act, next: nat, acked: int)
    requires Runs.Counted(c) && Attested(id, c, next) && Undisturbed(c) && Addressed(id, act) && Quiet(c, act)
    ensures Undisturbed(Apply(hostKey, id, c, act, next, acked))
  {
    if act.Submitting? {
      SubmitUndisturbed(hostKey, id, c, act.api, act.q, act.w, next);
    } else if act.Finishing? && c.Running() {
      FinishUndisturbed(hostKey, id, c, act.end, act.w, act.capture, next);
    } else if act.EndingConfirmation? {
      if act.stale in c.confirming {
        ConfirmationOverwrites(c, act.stale);
      }
    } else {
      OtherActUndisturbed(hostKey, id, c, act, next, acked);
    }
  }

  lemma {:induction false} RunUndisturbed(h: Host, ops: seq<Op>, id: string)
    requires AllAttested(h) && AllAddressed(ops) && LeftAlone(h, ops, id) && Undisturbed(h.Of(id))
    ensures Undisturbed(Run(h, ops).Of(id))
    decreases |ops|
  {
    if ops != [] {
      assert Attested(id, h.Of(id), h.next) && Runs.Counted(h.Of(id));
      if ops[0].On? && ops[0].id == id {
        ActUndisturbed(h.hostKey, id, h.Of(id), ops[0].act, h.next, h.acked);
      } else if ops[0].Restart? {
        assert Step(h, ops[0]).Of(id) == Forgotten(h.Of(id));
      } else {
        assert Step(h, ops[0]).Of(id) == h.Of(id);
      }
      StepIsAttested(h, ops[0]);
      RunUndisturbed(Step(h, ops[0]), ops[1..], id);
    }
  }

  /** A version 2 prompt that is not recovered while it runs answers exactly until it is retired. */
  lemma AnswersUntilRetired(hostKey: string, ops: seq<Op>, id: string)
    requires AllAddressed(ops) && LeftAlone(Initial(hostKey), ops, id)
    ensures var c := Run(Initial(hostKey), ops).Of(id);
            c.receipt.Some? && c.receipt.value.version.V2? ==>
              (ResponseValid(Respond(id, c.receipt.value)) <==> c.receipt.value.retiredAt.None?)
  {
    var h := Run(Initial(hostKey), ops);
    RunUndisturbed(Initial(hostKey), ops, id);
    RunIsAttested(Initial(hostKey), ops);
    assert Attested(id, h.Of(id), h.next);
    if h.Of(id).receipt.Some? && h.Of(id).receipt.value.version.V2? {
      RowAnswersIff(id, h.Of(id).receipt.value, h.next);
    }
  }

  // ---------------------------------------------------- the predicted position

  /** A successful version 2 prompt is about to be settled, and its capture has a response. */
  ghost predicate Settling(c: Command, o: Outcome, capture: Capture) {
    && c.Running() && c.flight.value.request.version.V2?
    && 200 <= o.status < 300 && capture.response
  }

  /** The one attempt of a success, and when its evidence passes. */
  lemma SuccessIsPublished(hostKey: string, id: string, c: Command, o: Outcome, w: Write, capture: Capture, next: nat)
    requires Attested(id, c, next) && Settling(c, o, capture) && !w.Lost?
    ensures c.receipt.value.acceptedSequence.Some? && c.receipt.value.digest.Some?
    ensures var q := c.flight.value.request;
            var a := Concluding(hostKey, c, Succeeded(o), w, capture, next);
            && a.Some? && a.value.emitted == capture.emitted && a.value.row.phase == Completed
            && a.value.row.body ==
               WithOutput(StoredBody(o.body), OutputOf(q, c.receipt.value.acceptedSequence.value, next))
            && a.value.row.terminalSequence.None?
            && (!a.value.write.Lost? <==> Publishable(id, a.value.row, next + capture.emitted))
            && (!a.value.write.Lost? ==> a.value.write.event)
            && (!a.value.write.Lost? <==> capture.emitted == 0 && IsSequence(next))
  {
  }

  /**
   On every reachable host: the manifest and the output reference of a successful prompt are valid as
   soon as the position they name can be a sequence; the payload's checks accept exactly when capturing
   the output has appended nothing itself, and then the event is appended where it was predicted, which is
   the terminal position unless the row has one already. Otherwise the receipt stays as it is.
   */
  lemma PredictionHoldsIffCaptureIsSilent(h: Host, id: string, o: Outcome, w: Write, capture: Capture)
    requires Reachable(h) && Settling(h.Of(id), o, capture) && !w.Lost?
    ensures h.Of(id).receipt.Some?
    ensures var c := h.Of(id);
            var q := c.flight.value.request;
            var r := c.receipt.value;
            && r.acceptedSequence.Some? && r.digest.Some?
            && (ManifestValid(ManifestOf(q, r.acceptedSequence.value, r.digest.value, h.next)) <==> IsSequence(h.next))
            && (ReferenceValid(OutputOf(q, r.acceptedSequence.value, h.next)) <==> IsSequence(h.next))
    ensures var c := h.Of(id);
            var a := Concluding(h.hostKey, c, Succeeded(o), w, capture, h.next).value;
            var d := Finish(h.hostKey, c, Succeeded(o), w, capture, h.next);
            && (!a.write.Lost? <==> capture.emitted == 0 && IsSequence(h.next))
            && (a.write.Lost? ==> d.receipt == c.receipt && d.flight.value.settled == Some(Failed))
            && (!a.write.Lost? ==>
                  && PayloadValid(Respond(id, Placed(a.row, h.next)), h.next)
                  && d.receipt.value.phase == Completed && d.receipt.value.body == a.row.body
                  && a.row.body.WithOutput?
                  && a.row.body.output ==
                     OutputOf(c.flight.value.request, c.receipt.value.acceptedSequence.value, h.next)
                  && d.receipt.value.eventId == Some(h.next)
                  && d.receipt.value.terminalSequence == Coalesce(c.receipt.value.terminalSequence, Some(h.next)))
  {
    ReachableIsAttested(h);
    assert Attested(id, h.Of(id), h.next);
    SuccessIsPublished(h.hostKey, id, h.Of(id), o, w, capture, h.next);
  }

  /** A failed or fenced prompt needs no prediction: its one position is read when its payload is built. */
  lemma FailureIsAlwaysPublished(h: Host, id: string, o: Outcome, w: Write, capture: Capture)
    requires Reachable(h) && h.Of(id).Running() && h.Of(id).flight.value.request.version.V2?
    requires 400 <= o.status <= 599 && o.body.Json? && !w.Lost?
    ensures var a := Concluding(h.hostKey, h.Of(id), Typed(o), w, capture, h.next).value;
            !a.write.Lost? <==> IsSequence(h.next)
  {
    ReachableIsAttested(h);
    assert Attested(id, h.Of(id), h.next);
  }

  /** A success that cannot be published is not stored. */
  lemma SuccessIsRefused(hostKey: string, id: string, c: Command, o: Outcome, event: bool, capture: Capture, next: nat)
    requires Attested(id, c, next) && c.Running() && c.flight.value.request.version.V2?
    requires !(200 <= o.status < 300 && capture.response && capture.emitted == 0 && IsSequence(next))
    ensures var d := Finish(hostKey, c, Succeeded(o), Write.Stored(event), capture, next);
            d.receipt == c.receipt && d.flight == Some(c.flight.value.(settled := Some(Failed)))
  {
    if 200 <= o.status < 300 && capture.response {
      SuccessIsPublished(hostKey, id, c, o, Write.Stored(event), capture, next);
    }
  }

  lemma SuccessIsCommitted(hostKey: string, id: string, c: Command, o: Outcome, event: bool, capture: Capture,
                           next: nat)
    requires Attested(id, c, next) && Settling(c, o, capture) && capture.emitted == 0 && IsSequence(next)
    ensures var d := Finish(hostKey, c, Succeeded(o), Write.Stored(event), capture, next);
            var was, now := c.receipt.value, d.receipt;
            && d.flight == Some(c.flight.value.(settled := Some(Fulfilled(o))))
            && was.acceptedSequence.Some? && was.hostSessionId.Some?
            && now == Some(was.(
                 phase := Completed, httpStatus := o.status, eventId := Some(next),
                 terminalSequence := if was.terminalSequence.Some? then was.terminalSequence else Some(next),
                 assignmentId := if was.assignmentId.Some? then was.assignmentId else now.value.assignmentId,
                 body := WithOutput(
                   if o.body.Absent? then Empty else o.body,
                   OutputReference(id, was.hostSessionId.value, was.acceptedSequence.value, next))))
    ensures Positions(hostKey, id, c, Finishing(Succeeded(o), Write.Stored(event), capture), next) == 1
  {
    SuccessIsPublished(hostKey, id, c, o, Write.Stored(event), capture, next);
  }

  /** What a prompt's success stores, and exactly when. */
  lemma SuccessIsStoredExactly(h: Host, id: string, o: Outcome, event: bool, capture: Capture)
    requires Reachable(h) && h.Of(id).Running() && h.Of(id).flight.value.request.version.V2?
    ensures h.Of(id).receipt.Some? && h.Of(id).receipt.value.acceptedSequence.Some?
    ensures h.Of(id).receipt.value.hostSessionId.Some?
    ensures var t := Step(h, On(id, Finishing(Succeeded(o), Write.Stored(event), capture)));
            var was, now := h.Of(id).receipt.value, t.Of(id).receipt;
            var stored := 200 <= o.status < 300 && capture.response && capture.emitted == 0
                          && h.next <= 0x7FFF_FFFF_FFFF_FFFF;
            && t.Of(id).flight.Some?
            && t.Of(id).flight.value.settled == Some(if stored then Fulfilled(o) else Failed)
            && (!stored ==> now == Some(was))
            && (stored ==>
                  && t.next == h.next + 1
                  && now == Some(was.(
                       phase := Completed, httpStatus := o.status, eventId := Some(h.next),
                       terminalSequence := if was.terminalSequence.Some? then was.terminalSequence else Some(h.next),
                       assignmentId := if was.assignmentId.Some? then was.assignmentId else now.value.assignmentId,
                       body := WithOutput(
                         if o.body.Absent? then Empty else o.body,
                         OutputReference(id, was.hostSessionId.value, was.acceptedSequence.value, h.next)))))
  {
    ReachableIsAttested(h);
    assert Attested(id, h.Of(id), h.next);
    if 200 <= o.status < 300 && capture.response && capture.emitted == 0 && IsSequence(h.next) {
      SuccessIsCommitted(h.hostKey, id, h.Of(id), o, event, capture, h.next);
    } else {
      SuccessIsRefused(h.hostKey, id, h.Of(id), o, event, capture, h.next);
    }
    Runs.StepOn(h, id, Finishing(Succeeded(o), Write.Stored(event), capture));
  }

  lemma FailureIsCommitted(hostKey: string, id: string, c: Command, o: Outcome, event: bool, capture: Capture,
                           next: nat)
    requires Attested(id, c, next) && c.Running() && c.flight.value.request.version.V2?
    ensures var d := Finish(hostKey, c, Typed(o), Write.Stored(event), capture, next);
            var was, now := c.receipt.value, d.receipt;
            var stored := 400 <= o.status <= 599 && o.body.Json? && IsSequence(next);
            && d.flight == Some(c.flight.value.(settled := Some(if stored then Fulfilled(o) else Failed)))
            && (!stored ==> now == Some(was))
            && (stored ==>
                  && now.Some?
                  && now.value.phase == Rejected && now.value.httpStatus == o.status && now.value.body == o.body
                  && now.value.eventId == Some(next)
                  && now.value.terminalSequence ==
                     if was.terminalSequence.Some? then was.terminalSequence else Some(next))
            && Positions(hostKey, id, c, Finishing(Typed(o), Write.Stored(event), capture), next)
               == if stored then 1 else 0
  {
  }

  /** What a prompt's failure stores, and exactly when. */
  lemma FailureIsStoredExactly(h: Host, id: string, o: Outcome, event: bool, capture: Capture)
    requires Reachable(h) && h.Of(id).Running() && h.Of(id).flight.value.request.version.V2?
    ensures h.Of(id).receipt.Some?
    ensures var t := Step(h, On(id, Finishing(Typed(o), Write.Stored(event), capture)));
            var was, now := h.Of(id).receipt.value, t.Of(id).receipt;
            var stored := 400 <= o.status <= 599 && o.body.Json? && h.next <= 0x7FFF_FFFF_FFFF_FFFF;
            && t.Of(id).flight.Some?
            && t.Of(id).flight.value.settled == Some(if stored then Fulfilled(o) else Failed)
            && (!stored ==> now == Some(was) && t.next == h.next)
            && (stored ==>
                  && t.next == h.next + 1 && now.Some?
                  && now.value.phase == Rejected && now.value.httpStatus == o.status && now.value.body == o.body
                  && now.value.eventId == Some(h.next)
                  && now.value.terminalSequence ==
                     if was.terminalSequence.Some? then was.terminalSequence else Some(h.next))
  {
    ReachableIsAttested(h);
    assert Attested(id, h.Of(id), h.next);
    FailureIsCommitted(h.hostKey, id, h.Of(id), o, event, capture, h.next);
    Runs.StepOn(h, id, Finishing(Typed(o), Write.Stored(event), capture));
  }

  /** A new prompt is accepted with an event, at the next position, whatever its route asks for. */
  lemma PromptIsAccepted(h: Host, q: Request, event: bool)
    requires h.Of(q.commandId) == UNKNOWN && q.version.V2? && q.kind == "session.prompt" && q.hostSessionId.Some?
    ensures var t := Step(h, On(q.commandId, Submitting(Async, q, Write.Stored(event))));
            var r := t.Of(q.commandId).receipt;
            && t.next == h.next + 1 && t.Of(q.commandId).Running()
            && r.Some? && r.value.phase == Accepted && r.value.httpStatus == 202 && r.value.version.V2?
            && r.value.acceptedSequence == r.value.eventId == Some(h.next) && r.value.terminalSequence.None?
  {
  }

  // --------------------------------------------------------------- late ends

  lemma FinishEventIsNew(hostKey: string, id: string, c: Command, end: RunEnd, w: Write, capture: Capture, next: nat)
    requires Attested(id, c, next) && c.Running() && c.receipt.value.version.V2?
    requires var a := Concluding(hostKey, c, end, w, capture, next); a.Some? && !a.value.write.Lost?
    ensures var r := Finish(hostKey, c, end, w, capture, next).receipt;
            && r.Some? && r.value.version.V2? && r.value.eventId.Some? && r.value.eventId.value >= next
            && r.value.terminalSequence == Coalesce(c.receipt.value.terminalSequence,
                                                    if r.value.phase == Accepted then None else r.value.eventId)
            && r.value.retiredAt == c.receipt.value.retiredAt && r.value.body != Tombstone
  {
    var f := c.flight.value;
    var v := Verdict(f.api, end).value;
    Prepared(hostKey, c, f.request, v.0, v.1, w, capture, next);
    var a := Prepare(hostKey, c, f.request, v.0, v.1, w, capture, next);
    assert a.write.event && Publishable(id, a.row, next + a.emitted);
  }

  /**
   On every reachable host: a prompt whose receipt already has a terminal position has been recovered under
   its run, and perhaps retired since. If its end is stored all the same, the row answers again with
   evidence that passes, retired or not, exactly when it does not report success: the row keeps the earlier
   terminal position, and the output of a success names a later one.
   */
  lemma LateEndPassesIffNotCompleted(h: Host, id: string, end: RunEnd, w: Write, capture: Capture)
    requires Reachable(h) && h.Of(id).Running() && h.Of(id).receipt.Some? && h.Of(id).receipt.value.version.V2?
    requires h.Of(id).receipt.value.terminalSequence.Some?
    requires var a := Concluding(h.hostKey, h.Of(id), end, w, capture, h.next); a.Some? && !a.value.write.Lost?
    ensures var r := Finish(h.hostKey, h.Of(id), end, w, capture, h.next).receipt;
            && r.Some? && r.value.retiredAt == h.Of(id).receipt.value.retiredAt
            && (ResponseValid(Respond(id, r.value)) <==> r.value.phase != Completed)
  {
    var c := h.Of(id);
    ReachableIsAttested(h);
    assert Attested(id, c, h.next);
    FinishEventIsNew(h.hostKey, id, c, end, w, capture, h.next);
    FinishIsAttested(h.hostKey, id, c, end, w, capture, h.next);
    var later := h.next + Positions(h.hostKey, id, c, Finishing(end, w, capture), h.next);
    RowAnswersIff(id, Finish(h.hostKey, c, end, w, capture, h.next).receipt.value, later);
  }

  /** Recovery of a running prompt that is not settled gives its row the next position as its terminal one. */
  lemma RecoveredWhileRunning(h: Host, id: string, session: Option<string>)
    requires AllAttested(h) && IsSequence(h.next)
    requires h.Of(id).Running() && !h.Of(id).Settled() && h.Of(id).receipt.value.version.V2?
    ensures var c := h.Of(id);
            var d := Step(h, On(id, Recovering(session))).Of(id);
            && Recovers(c, id, session, h.next) && d.flight == c.flight && d.receipt.Some?
            && d.receipt.value.version.V2? && d.receipt.value.body == TURN_LOST.body
            && d.receipt.value.phase == Rejected
            && d.receipt.value.terminalSequence == Coalesce(c.receipt.value.terminalSequence, Some(h.next))
  {
    assert Attested(id, h.Of(id), h.next);
  }

  lemma ReachableNext(h: Host, op: Op)
    requires Reachable(h) && (op.On? ==> Addressed(op.id, op.act))
    ensures Reachable(Step(h, op))
  {
    var ops :| AllAddressed(ops) && Run(Initial(h.hostKey), ops) == h;
    RunOneMore(Initial(h.hostKey), ops, op);
    Runs.RunCounts(Initial(h.hostKey), ops + [op]);
  }

  lemma {:induction false} RunOneMore(h: Host, ops: seq<Op>, op: Op)
    ensures Run(h, ops + [op]) == Step(Run(h, ops), op)
    decreases |ops|
  {
    if ops == [] {
      assert ops + [op] == [op] && [op][1..] == [];
    } else {
      assert (ops + [op])[1..] == ops[1..] + [op];
      RunOneMore(Step(h, ops[0]), ops[1..], op);
    }
  }

  /** A success that comes after such a recovery is stored, and its row no longer passes. */
  lemma LateSuccessSpoilsEvidence(h: Host, id: string, o: Outcome, session: Option<string>)
    requires Reachable(h) && Settling(h.Of(id), o, Capture(true, 0)) && !h.Of(id).Settled()
    requires h.next < SortKeys.MAX_SEQUENCE
    ensures var g := Step(h, On(id, Recovering(session)));
            var t := Step(g, On(id, Finishing(Succeeded(o), Write.Stored(true), Capture(true, 0))));
            && g.Of(id).receipt.Some? && ResponseValid(Respond(id, g.Of(id).receipt.value))
            && t.Of(id).receipt.Some? && t.Of(id).receipt.value.phase == Completed
            && !ResponseValid(Respond(id, t.Of(id).receipt.value))
  {
    var recovering := On(id, Recovering(session));
    var g := Step(h, recovering);
    ReachableIsAttested(h);
    assert Attested(id, h.Of(id), h.next);
    RecoveredWhileRunning(h, id, session);
    ReachableNext(h, recovering);
    StoredEvidencePassesIff(g, id);
    PredictionHoldsIffCaptureIsSilent(g, id, o, Write.Stored(true), Capture(true, 0));
    LateEndPassesIffNotCompleted(g, id, Succeeded(o), Write.Stored(true), Capture(true, 0));
  }

  // ---------------------------------------------- a retired row answers again

  function AcceptedPrompt(hostKey: string, q: Request): Host {
    Step(Initial(hostKey), On(q.commandId, Submitting(Async, q, Write.Stored(true))))
  }

  /** It is recovered while it runs, and its terminal event acknowledged. */
  function RecoveredPrompt(hostKey: string, q: Request): Host {
    Step(Step(AcceptedPrompt(hostKey, q), On(q.commandId, Recovering(None))), Ack(1))
  }

  /** And retired. */
  function RetiredUnderItsRun(hostKey: string, q: Request): Host {
    Step(RecoveredPrompt(hostKey, q), On(q.commandId, Retiring(Proof(None, Rejected, q.fence.epoch), false, false, 7)))
  }

  lemma RetiredUnderItsRunIsReachable(hostKey: string, q: Request)
    requires q.version.V2? && TargetAllowed(q)
    ensures Reachable(RetiredUnderItsRun(hostKey, q))
  {
    var id, h := q.commandId, Initial(hostKey);
    var recover := On(id, Recovering(None));
    assert AllAddressed([]) && Run(h, []) == h;
    ReachableNext(h, On(id, Submitting(Async, q, Write.Stored(true))));
    ReachableNext(AcceptedPrompt(hostKey, q), recover);
    ReachableNext(Step(AcceptedPrompt(hostKey, q), recover), Ack(1));
    ReachableNext(RecoveredPrompt(hostKey, q), On(id, Retiring(Proof(None, Rejected, q.fence.epoch), false, false, 7)));
  }

  lemma AcceptedPromptIs(hostKey: string, q: Request)
    requires q.version.V2? && TargetAllowed(q)
    ensures var h := AcceptedPrompt(hostKey, q);
            var c := h.Of(q.commandId);
            && h.next == 1 && h.acked == -1 && c.flight == Some(Flight(Async, q, None))
            && c.receipt.Some? && c.receipt.value.phase == Accepted && c.receipt.value.version.V2?
            && c.receipt.value.kind == PROMPT && c.receipt.value.hostSessionId.Some?
            && c.receipt.value.epoch == q.fence.epoch
            && c.receipt.value.terminalSequence.None? && c.receipt.value.retiredAt.None?
  {
  }

  lemma RecoveredPromptIs(hostKey: string, q: Request)
    requires q.version.V2? && TargetAllowed(q)
    ensures var h := RecoveredPrompt(hostKey, q);
            var c := h.Of(q.commandId);
            && h.next == 2 && h.acked == 1 && c.flight == Some(Flight(Async, q, None))
            && c.receipt.Some? && c.receipt.value.phase == Rejected && c.receipt.value.version.V2?
            && c.receipt.value.epoch == q.fence.epoch
            && c.receipt.value.terminalSequence == Some(1) && c.receipt.value.retiredAt.None?
  {
    AcceptedPromptIs(hostKey, q);
  }

  lemma RetiredUnderItsRunIs(hostKey: string, q: Request)
    requires q.version.V2? && TargetAllowed(q)
    ensures var h := RetiredUnderItsRun(hostKey, q);
            var c := h.Of(q.commandId);
            && h.next == 2 && c.Running() && c.flight.value.api == Async && c.flight.value.request == q
            && c.receipt.Some? && c.receipt.value.version.V2? && c.receipt.value.terminalSequence.Some?
            && c.receipt.value.retiredAt == Some(7) && c.receipt.value.body == Tombstone
  {
    RecoveredPromptIs(hostKey, q);
  }

  /** From an empty host: a retired version 2 row answers again once the run recovered under it fails. */
  lemma RetiredRowAnswersAgain(hostKey: string, q: Request, text: string)
    requires q.version.V2? && TargetAllowed(q)
    ensures var id := q.commandId;
            var h := RetiredUnderItsRun(hostKey, q);
            var before := h.Of(id).receipt;
            var fails := On(id, Finishing(Typed(Outcome(500, Json(text))), Write.Stored(true), NO_CAPTURE));
            var after := Step(h, fails).Of(id).receipt;
            && before.Some? && before.value.retiredAt == Some(7) && !ResponseValid(Respond(id, before.value))
            && after.Some? && after.value.retiredAt == Some(7) && ResponseValid(Respond(id, after.value))
  {
    var h := RetiredUnderItsRun(hostKey, q);
    RetiredUnderItsRunIs(hostKey, q);
    RetiredUnderItsRunIsReachable(hostKey, q);
    StoredEvidencePassesIff(h, q.commandId);
    FailureIsAlwaysPublished(h, q.commandId, Outcome(500, Json(text)), Write.Stored(true), NO_CAPTURE);
    LateEndPassesIffNotCompleted(h, q.commandId, Typed(Outcome(500, Json(text))), Write.Stored(true), NO_CAPTURE);
  }
}
