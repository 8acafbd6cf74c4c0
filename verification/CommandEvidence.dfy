/**
 Native evidence of version 2 commands: the response built from a receipt row, the event payload that
 repeats its own position, the output manifest, and the checks that all of them must pass.
 */
module CommandEvidence {
  import opened Wrappers
  import opened Receipts
  import SortKeys

  predicate IsSequence(position: nat) {
    position <= SortKeys.MAX_SEQUENCE
  }

  /** A span of the stream that a reader can be pointed at. */
  predicate SpanValid(acceptedSequence: nat, terminalSequence: nat) {
    IsSequence(acceptedSequence) && IsSequence(terminalSequence) && acceptedSequence < terminalSequence
  }

  datatype Manifest = Manifest(commandId: string, fence: Fence, hostSessionId: string, digest: Digest,
                               acceptedSequence: nat, terminalSequence: nat)

  predicate ManifestValid(m: Manifest) {
    SpanValid(m.acceptedSequence, m.terminalSequence)
  }

  predicate ReferenceValid(o: OutputReference) {
    SpanValid(o.acceptedSequence, o.terminalSequence)
  }

  datatype Terminal = Terminal(failed: bool, eventId: Option<nat>, sequence: Option<nat>, result: Option<Body>,
                               error: Option<Body>)

  datatype Response = Response(commandId: string, kind: string, hostSessionId: Option<string>, phase: Phase,
                               httpStatus: nat, terminal: Option<Terminal>)

  /** The response formatted from a version 2 row. */
  function Respond(id: string, r: Receipt): Response {
    Response(
      id, r.kind, r.hostSessionId, r.phase, r.httpStatus,
      if r.phase == Accepted then None
      else
        var failed := r.phase == Rejected;
        Some(Terminal(failed, r.eventId, r.terminalSequence,
                      if failed then None else Some(r.body), if failed && r.body.Json? then Some(r.body) else None)))
  }

  predicate ResultValid(id: string, kind: string, hostSessionId: Option<string>, result: Body, sequence: nat) {
    kind == PROMPT ==>
      && result.WithOutput? && ReferenceValid(result.output)
      && result.output.commandId == id && Some(result.output.hostSessionId) == hostSessionId
      && result.output.terminalSequence == sequence
  }

  predicate TerminalValid(v: Response) {
    if v.phase == Accepted then v.terminal.None?
    else
      && v.terminal.Some?
      && var t := v.terminal.value;
      && t.eventId.Some? && t.sequence.Some? && IsSequence(t.sequence.value)
      && if v.phase == Completed
         then !t.failed && t.error.None? && t.result.Some?
           && ResultValid(v.commandId, v.kind, v.hostSessionId, t.result.value, t.sequence.value)
         else t.failed && t.result.None? && t.error.Some?
  }

  predicate PhaseStatus(phase: Phase, httpStatus: nat) {
    match phase
    case Accepted => httpStatus == 202
    case Completed => 200 <= httpStatus < 300
    case Rejected => 400 <= httpStatus <= 599
  }

  predicate ResponseValid(v: Response) {
    (v.kind == PROMPT ==> v.hostSessionId.Some?) && PhaseStatus(v.phase, v.httpStatus) && TerminalValid(v)
  }

  /**
   Which rows answer with a response that passes: the fields of each phase, and of a prompt its session and
   output.
   */
  lemma RowPassesExactly(id: string, r: Receipt)
    ensures ResponseValid(Respond(id, r)) <==>
            && (r.kind == "session.prompt" ==> r.hostSessionId.Some?)
            && (r.phase == Accepted ==> r.httpStatus == 202)
            && (r.phase != Accepted ==>
                  r.eventId.Some? && r.terminalSequence.Some? && r.terminalSequence.value < 0x8000_0000_0000_0000)
            && (r.phase == Rejected ==> 400 <= r.httpStatus <= 599 && r.body.Json?)
            && (r.phase == Completed ==> 200 <= r.httpStatus <= 299)
            && (r.phase == Completed && r.kind == "session.prompt" ==>
                  && r.body.WithOutput?
                  && r.body.output.commandId == id && Some(r.body.output.hostSessionId) == r.hostSessionId
                  && r.body.output.acceptedSequence < r.body.output.terminalSequence
                  && Some(r.body.output.terminalSequence) == r.terminalSequence)
  {
  }

  /** The payload carries the response's terminal evidence and must repeat the slot it is written to. */
  predicate PayloadValid(v: Response, position: nat) {
    && v.kind == PROMPT && v.hostSessionId.Some?
    && TerminalValid(v)
    && (v.terminal.Some? ==> v.terminal.value.eventId == Some(position) && v.terminal.value.sequence == Some(position))
  }

  /** The row as the payload sees it, before the append, at the position it expects. */
  function Placed(r: Receipt, position: nat): Receipt {
    r.(eventId := Some(position), terminalSequence := Some(position))
  }

  /** Building the payload succeeds. */
  predicate Publishable(id: string, r: Receipt, position: nat) {
    ResponseValid(Respond(id, Placed(r, position))) && PayloadValid(Respond(id, Placed(r, position)), position)
  }

  /**
   A row that names its event where it was appended answers as the payload did; a row that kept the
   terminal position of an earlier write does not, if it refers to output.
   */
  lemma StoredRowAnswersAsPublished(id: string, r: Receipt, position: nat)
    requires Publishable(id, r, position) && r.phase != Accepted && r.eventId == Some(position)
    ensures r.terminalSequence == Some(position) ==> ResponseValid(Respond(id, r))
    ensures r.phase == Completed && r.terminalSequence.Some? && r.terminalSequence != Some(position) ==>
              !ResponseValid(Respond(id, r))
  {
    if r.terminalSequence == Some(position) {
      assert Placed(r, position) == r;
    }
  }

  /** Retirement ends it: the tombstone is neither a prompt's result nor an error, so the host refuses its own row. */
  lemma TombstoneIsRefused(id: string, r: Receipt, now: int)
    requires r.version.V2? && r.kind == PROMPT && r.Settled()
    ensures !ResponseValid(Respond(id, Compact(r, now)))
  {
  }
}
