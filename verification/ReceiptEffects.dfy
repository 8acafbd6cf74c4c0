/**
 What each step of the protocol does, said of the receipt, the promise and the events alone: how every ending of
 a run is stored, what a submit is answered, and what recovery, confirmation and retirement leave behind.
 */
module ReceiptEffects {
  import opened Wrappers
  import opened Receipts
  import opened ReceiptProtocol

  /** The receipt holds this outcome; an absent body is stored as an empty one. */
  ghost predicate Holds(c: Command, phase: Phase, o: Outcome) {
    && c.receipt.Some? && c.receipt.value.phase == phase && c.receipt.value.httpStatus == o.status
    && c.receipt.value.body == if o.body.Absent? then Empty else o.body
  }

  /** The waiters get the outcome, or a failure. */
  ghost predicate Hands(c: Command, t: Host, id: string, settlement: Settlement) {
    && c.flight.Some? && c.flight.value.settled == Some(settlement)
    && (settlement.Fulfilled? ==> (id, settlement.outcome) in t.delivered)
  }

  // ------------------------------------------------------------------ endings

  /** A success is stored as completed and handed out. */
  lemma SuccessIsStored(h: Host, id: string, o: Outcome, event: bool, capture: Capture)
    requires h.Of(id).Running() && h.Of(id).flight.value.request.version.V1?
    ensures var t := Step(h, On(id, Finishing(Succeeded(o), Write.Stored(event), capture)));
            && Holds(t.Of(id), Completed, o) && Hands(t.Of(id), t, id, Fulfilled(o))
            && t.next == h.next + (if event then 1 else 0)
  {
  }

  /** A typed failure is stored as rejected and handed out. */
  lemma TypedFailureIsStored(h: Host, id: string, o: Outcome, event: bool, capture: Capture)
    requires h.Of(id).Running() && h.Of(id).flight.value.request.version.V1?
    ensures var t := Step(h, On(id, Finishing(Typed(o), Write.Stored(event), capture)));
            && Holds(t.Of(id), Rejected, o) && Hands(t.Of(id), t, id, Fulfilled(o))
            && t.next == h.next + (if event then 1 else 0)
  {
  }

  /** Any other failure of an awaited command is not stored at all; the waiters get the failure. */
  lemma UntypedFailureIsNotStored(h: Host, id: string, o: Outcome, w: Write, capture: Capture)
    requires h.Of(id).Running() && !h.Of(id).flight.value.api.Async?
    ensures var t := Step(h, On(id, Finishing(Untyped(o), w, capture)));
            && t.Of(id).receipt == h.Of(id).receipt && t.next == h.next && t.delivered == h.delivered
            && Hands(t.Of(id), t, id, Failed)
  {
  }

  /** In the background every failure is stored, an unconfirmed exit included. */
  lemma BackgroundFailureIsStored(h: Host, id: string, end: RunEnd, event: bool, capture: Capture)
    requires h.Of(id).Running() && h.Of(id).flight.value.api.Async? && h.Of(id).flight.value.request.version.V1?
    requires !end.Succeeded?
    ensures var t := Step(h, On(id, Finishing(end, Write.Stored(event), capture)));
            Holds(t.Of(id), Rejected, end.outcome) && Hands(t.Of(id), t, id, Fulfilled(end.outcome))
  {
  }

  /** An exit that is not confirmed leaves the receipt accepted and unresolved; the waiters get the failure. */
  lemma UnconfirmedExitIsStored(h: Host, id: string, o: Outcome, event: bool, capture: Capture)
    requires h.Of(id).Running() && h.Of(id).flight.value.request.version.V1? && !h.Of(id).flight.value.api.Async?
    ensures var t := Step(h, On(id, Finishing(ExitUnconfirmed(o), Write.Stored(event), capture)));
            var r := t.Of(id).receipt;
            && r.Some? && r.value.phase == Accepted && r.value.httpStatus == o.status && r.value.body.Unconfirmed?
            && t.delivered == h.delivered && Hands(t.Of(id), t, id, Failed)
  {
  }

  /** A write that is lost stores nothing, and one after which a hook threw stores the same; both fail the waiters. */
  lemma BrokenWriteFails(h: Host, id: string, end: RunEnd, event: bool, capture: Capture)
    requires h.Of(id).Running() && h.Of(id).flight.value.request.version.V1?
    ensures var lost := Step(h, On(id, Finishing(end, Lost, capture)));
            && lost.Of(id).receipt == h.Of(id).receipt && lost.next == h.next && lost.delivered == h.delivered
            && Hands(lost.Of(id), lost, id, Failed)
    ensures var threw := Step(h, On(id, Finishing(end, StoredThenThrew(event), capture)));
            var stored := Step(h, On(id, Finishing(end, Write.Stored(event), capture)));
            && threw.Of(id).receipt == stored.Of(id).receipt && threw.next == stored.next
            && threw.delivered == h.delivered && Hands(threw.Of(id), threw, id, Failed)
  {
  }

  /** Every end leaves the promise settled and one run less; once forgotten, it is gone. */
  lemma EndIsCounted(h: Host, id: string, end: RunEnd, w: Write, capture: Capture)
    requires h.Of(id).Running() && h.Of(id).running > 0
    ensures var t := Step(h, On(id, Finishing(end, w, capture)));
            && !t.Of(id).Running() && t.Of(id).running == h.Of(id).running - 1 && t.Of(id).starts == h.Of(id).starts
            && Step(t, On(id, Forgetting)).Of(id) == t.Of(id).(flight := None)
  {
  }

  /**
   After an untyped failure the same request starts the effect again if it only reserves or deletes an object; any
   other command has lost its turn.
   */
  lemma RetryAfterUntypedFailure(h: Host, id: string, o: Outcome, w: Write, capture: Capture, q: Request, event: bool)
    requires var c := h.Of(id);
             && c.Running() && c.flight.value.api.Execute? && c.running > 0
             && c.receipt.Some? && c.receipt.value.phase == Accepted && !c.receipt.value.body.Unconfirmed?
             && Matches(c.receipt.value, q)
    requires q.commandId == id && q.version.V1?
    ensures var failed := Step(h, On(id, Finishing(Untyped(o), w, capture)));
            var t := Step(Step(failed, On(id, Forgetting)), On(id, Submitting(Execute, q, Write.Stored(event))));
            if q.kind == "runtime_object.reserve" || q.kind == "runtime_object.delete"
            then t.Of(id).Running() && t.Of(id).starts == h.Of(id).starts + 1
            else
              && !t.Of(id).Running() && Holds(t.Of(id), Rejected, Outcome(409, Json("turn_lost")))
              && (id, Outcome(409, Json("turn_lost"))) in t.delivered
  {
    UntypedFailureIsNotStored(h, id, o, w, capture);
    var failed := Step(h, On(id, Finishing(Untyped(o), w, capture)));
    EndIsCounted(h, id, Untyped(o), w, capture);
    var forgotten := Step(failed, On(id, Forgetting));
    SubmitIsAnswered(forgotten, id, Execute, q, event);
  }

  // ------------------------------------------------------------------ submits

  /** The request may not be what it says, or is not the one the receipt belongs to. */
  ghost predicate Refuses(c: Command, q: Request) {
    || (q.version.V2? && (q.kind != "session.prompt" || q.hostSessionId.None?))
    || (c.receipt.Some? && !Matches(c.receipt.value, q))
  }

  ghost predicate Restarts(api: Api, kind: string) {
    api.Upload? || (api.Execute? && (kind == "runtime_object.reserve" || kind == "runtime_object.delete"))
  }

  ghost predicate Started(c: Command, d: Command, api: Api, q: Request) {
    && Holds(d, Accepted, Outcome(202, Empty)) && d.Running() && d.flight.value.api == api
    && d.flight.value.request == q
    && d.starts == c.starts + 1 && d.running == c.running + 1
  }

  /**
   What a version 1 submit does. A refused one, a settled receipt and a command in flight leave everything as it is;
   an unknown command and an interrupted one of a restartable kind are started; an unresolved create is replayed; and
   any other interrupted command has lost its turn.
   */
  lemma SubmitIsAnswered(h: Host, id: string, api: Api, q: Request, event: bool)
    requires q.commandId == id
    ensures var c := h.Of(id);
            var act := Submitting(api, q, Write.Stored(event));
            var (d, reply) := Submit(h.hostKey, c, api, q, Write.Stored(event), h.next);
            && Step(h, On(id, act)).Of(id) == d
            && (Refuses(c, q) ==> d == c && reply == Refused)
            && (!Refuses(c, q) && c.Settled() ==>
                  && d == c
                  && reply == if api.Async? then AcceptedAlready
                              else Replayed(c.receipt.value.httpStatus, c.receipt.value.body))
            && (!Refuses(c, q) && !c.Settled() && c.flight.Some? ==>
                  && d == c
                  && (api.Execute? ==> reply == Awaiting) && (api.Upload? ==> reply == InProgress)
                  && (api.Async? ==> reply == AcceptedAlready))
            && (!Refuses(c, q) && q.version.V1? && c.flight.None? && !c.Settled()
                && (c.receipt.None? || Restarts(api, q.kind)) ==>
                  Started(c, d, api, q) && reply == if api.Async? then AcceptedNow else Awaiting)
            && (!Refuses(c, q) && c.flight.None? && c.receipt.Some? && !c.Settled() && !Restarts(api, q.kind)
                && api.Execute? && c.receipt.value.kind == "session.create" && c.receipt.value.body.Unconfirmed? ==>
                  d == c && reply == Replayed(c.receipt.value.httpStatus, c.receipt.value.body))
            && (!Refuses(c, q) && q.version.V1? && c.flight.None? && c.receipt.Some? && !c.Settled()
                && !Restarts(api, q.kind)
                && !(api.Execute? && c.receipt.value.kind == "session.create" && c.receipt.value.body.Unconfirmed?) ==>
                  && Holds(d, Rejected, Outcome(409, Json("turn_lost"))) && d.flight.None?
                  && reply == TurnLost(Outcome(409, Json("turn_lost")))
                  && (id, Outcome(409, Json("turn_lost"))) in Step(h, On(id, act)).delivered)
  {
  }

  // ------------------------------------------------------------------ repairs

  /** Recovery turns an accepted version 1 receipt into a lost turn, with an event; it changes nothing else. */
  lemma RecoveryIs(h: Host, id: string, session: Option<string>)
    requires h.Of(id).receipt.Some? && h.Of(id).receipt.value.version.V1?
    ensures var r := h.Of(id).receipt.value;
            var t := Step(h, On(id, Recovering(session)));
            if r.phase == Accepted
            then
              && t.next == h.next + 1
              && t.Of(id) == h.Of(id).(receipt := Some(r.(
                   phase := Rejected, httpStatus := 409, body := Json("turn_lost"), eventId := Some(h.next),
                   hostSessionId := if r.hostSessionId.Some? then r.hostSessionId else session,
                   terminalSequence := if r.terminalSequence.Some? then r.terminalSequence else Some(h.next))))
            else t.next == h.next && t.Of(id) == h.Of(id)
  {
  }

  /** Boot marks an accepted create as unresolved, and completes an accepted upload or deletion. */
  lemma BootRepairsAre(h: Host, id: string, text: string, status: nat, metadata: Body)
    requires h.Of(id).receipt.Some? && h.Of(id).flight.None?
    ensures var r := h.Of(id).receipt.value;
            Step(h, On(id, MarkingUnconfirmed(text))).Of(id) ==
            if r.phase == Accepted && r.kind == "session.create"
            then h.Of(id).(receipt := Some(r.(httpStatus := 503, body := Body.Unconfirmed(text)))) else h.Of(id)
    ensures var r := h.Of(id).receipt.value;
            var t := Step(h, On(id, CompletingObject(status, metadata)));
            if r.phase == Accepted && (r.kind == "runtime_object.upload" || r.kind == "runtime_object.delete")
            then Holds(t.Of(id), Completed, Outcome(status, metadata)) && t.next == h.next + 1
            else t.Of(id) == h.Of(id) && t.next == h.next
  {
  }

  /** A confirmation remembers an unresolved create, and makes of what it remembers a rejection with status 503. */
  lemma ConfirmationIs(h: Host, id: string, stale: Receipt)
    requires h.Of(id).receipt.Some? && ConfirmsSoundly(h.Of(id))
    ensures var c := h.Of(id);
            var r := c.receipt.value;
            Step(h, On(id, BeginningConfirmation)).Of(id) ==
            if r.phase == Accepted && r.kind == "session.create" && r.body.Unconfirmed?
            then c.(confirming := c.confirming + multiset{r}) else c
    ensures stale in h.Of(id).confirming ==>
              var t := Step(h, On(id, EndingConfirmation(stale, true)));
              && t.Of(id).receipt == Some(h.Of(id).receipt.value.(
                   phase := Rejected, httpStatus := 503, eventId := stale.eventId,
                   body := ExitConfirmed(stale.body.text)))
              && t.next == h.next
    ensures stale in h.Of(id).confirming ==>
              var t := Step(h, On(id, EndingConfirmation(stale, false)));
              t.Of(id).receipt == h.Of(id).receipt && t.Of(id).confirming == h.Of(id).confirming - multiset{stale}
  {
    if stale in h.Of(id).confirming {
      ConfirmationOverwrites(h.Of(id), stale);
    }
  }

  /**
   Retirement replaces the body by a tombstone and notes the time, and nothing else; and only of a settled receipt that
   the proof names, which is not retired yet, which nothing holds open, and whose terminal event is acknowledged.
   */
  lemma RetirementIs(h: Host, id: string, proof: Proof, open: bool, pending: bool, now: int)
    requires h.Of(id).receipt.Some?
    ensures var r := h.Of(id).receipt.value;
            var t := Step(h, On(id, Retiring(proof, open, pending, now)));
            && t.next == h.next
            && t.Of(id) ==
               if r.phase != Accepted && Proves(proof, r) && !open && !pending && EvidenceAcked(r, h.acked)
                  && r.retiredAt.None?
               then h.Of(id).(receipt := Some(r.(body := Tombstone, retiredAt := Some(now)))) else h.Of(id)
  {
    RetirementIsExact(h.Of(id).receipt, proof, open, pending, h.acked, now);
  }
}
