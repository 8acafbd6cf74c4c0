/** Command receipts: what a durable receipt row holds, how it is overwritten, and which request it answers to. */
module Receipts {
  import opened Wrappers

  datatype Phase = Accepted | Completed | Rejected

  /** Where a prompt's output lies in the stream: after its acceptance and up to its terminal event. */
  datatype OutputReference = OutputReference(commandId: string, hostSessionId: string, acceptedSequence: nat,
                                             terminalSequence: nat)

  /**
   `Unconfirmed` is the body of a create whose process exit is not yet confirmed, `ExitConfirmed` the one
   that takes its place, `WithOutput` what a version 2 prompt reported together with the reference to its output.
   */
  datatype Body =
    | Absent | Empty | Json(text: string) | Unconfirmed(text: string) | ExitConfirmed(text: string)
    | WithOutput(reported: Body, output: OutputReference) | Tombstone

  datatype Outcome = Outcome(status: nat, body: Body)

  datatype Fence = Fence(hostKey: string, runId: string, assignmentId: string, epoch: nat)

  datatype Version = V1 | V2

  /** A command as it arrives at its route; `hostSessionId` is the target the route resolved. */
  datatype Request = Request(commandId: string, kind: string, version: Version, fence: Fence,
                             hostSessionId: Option<string>, payload: string)

  /** A collision-free digest stands for the text it was taken of. */
  datatype Digest =
    | DigestV2(commandId: string, kind: string, fence: Fence, hostSessionId: Option<string>, payload: string)
    | DigestV1(commandId: string, kind: string, fence: Fence, payload: string)

  datatype Schema = CommandRequestV2 | Legacy

  /** An event id is determined by the event's position; `eventId` is the position of the last event. */
  datatype Receipt = Receipt(
    runId: string, kind: string, epoch: nat, schema: Schema, version: Version, hostKey: Option<string>,
    assignmentId: Option<string>, hostSessionId: Option<string>, digest: Option<Digest>,
    acceptedSequence: Option<nat>, terminalSequence: Option<nat>, eventId: Option<nat>,
    phase: Phase, httpStatus: nat, body: Body, retiredAt: Option<int>)
  {
    predicate Settled() {
      phase != Accepted
    }

    /** Only this unresolved create outcome is replayed while still accepted. */
    predicate UnsettledCreate() {
      kind == "session.create" && phase == Accepted && body.Unconfirmed?
    }
  }

  const DELETE := "runtime_object.delete"
  const RESTARTABLE := {"runtime_object.reserve", DELETE}
  const UPLOAD := "runtime_object.upload"
  const PROMPT := "session.prompt"
  const CREATE := "session.create"

  /** Kinds whose interrupted effect is started again under the same command id. */
  predicate Rerunnable(kind: string) {
    kind in RESTARTABLE || kind == UPLOAD
  }

  function Coalesce<T>(stored: Option<T>, offered: Option<T>): Option<T> {
    if stored.Some? then stored else offered
  }

  /** The upsert: identity columns are written once, evidence columns fill in once, the outcome is replaced. */
  function Upsert(stored: Option<Receipt>, row: Receipt): Receipt {
    if stored.None? then row
    else stored.value.(
      assignmentId := Coalesce(stored.value.assignmentId, row.assignmentId),
      hostSessionId := Coalesce(stored.value.hostSessionId, row.hostSessionId),
      digest := Coalesce(stored.value.digest, row.digest),
      acceptedSequence := Coalesce(stored.value.acceptedSequence, row.acceptedSequence),
      terminalSequence := Coalesce(stored.value.terminalSequence, row.terminalSequence),
      eventId := row.eventId, phase := row.phase, httpStatus := row.httpStatus, body := row.body)
  }

  ghost predicate FillsIn<T>(before: Option<T>, after: Option<T>) {
    before.Some? ==> after == before
  }

  /** First write wins on everything that identifies the command or locates its evidence. */
  ghost predicate SameIdentity(a: Receipt, b: Receipt) {
    && a.runId == b.runId && a.kind == b.kind && a.epoch == b.epoch
    && a.schema == b.schema && a.version == b.version && a.hostKey == b.hostKey
    && FillsIn(a.assignmentId, b.assignmentId) && FillsIn(a.hostSessionId, b.hostSessionId)
    && FillsIn(a.digest, b.digest)
    && FillsIn(a.acceptedSequence, b.acceptedSequence) && FillsIn(a.terminalSequence, b.terminalSequence)
  }

  /** Over any sequence of puts. */
  function Puts(stored: Receipt, rows: seq<Receipt>): Receipt
    decreases |rows|
  {
    if rows == [] then stored else Puts(Upsert(Some(stored), rows[0]), rows[1..])
  }

  lemma {:induction false} IdentityIsFirstWriteWins(stored: Receipt, rows: seq<Receipt>)
    ensures SameIdentity(stored, Puts(stored, rows))
    ensures Puts(stored, rows).retiredAt == stored.retiredAt
    ensures rows != [] ==>
              var last := rows[|rows| - 1];
              var r := Puts(stored, rows);
              && r.phase == last.phase && r.httpStatus == last.httpStatus && r.body == last.body
              && r.eventId == last.eventId
    decreases |rows|
  {
    if rows != [] {
      IdentityIsFirstWriteWins(Upsert(Some(stored), rows[0]), rows[1..]);
    }
  }

  /** `body ?? {}` */
  function StoredBody(body: Body): Body {
    if body.Absent? then Empty else body
  }

  /** Version 2 is spoken only by prompts routed to a session. */
  predicate TargetAllowed(q: Request) {
    q.version.V2? ==> q.kind == PROMPT && q.hostSessionId.Some?
  }

  function DigestFor(schema: Schema, q: Request): Digest {
    match schema
    case CommandRequestV2 => DigestV2(q.commandId, q.kind, q.fence, q.hostSessionId, q.payload)
    case Legacy => DigestV1(q.commandId, q.kind, q.fence, q.payload)
  }

  /** The row a first write stores. */
  function Mint(hostKey: string, q: Request, phase: Phase, outcome: Outcome): Receipt {
    Receipt(q.fence.runId, q.kind, q.fence.epoch, CommandRequestV2, q.version, Some(hostKey),
            Some(q.fence.assignmentId), q.hostSessionId, Some(DigestFor(CommandRequestV2, q)),
            None, None, None, phase, outcome.status, StoredBody(outcome.body), None)
  }

  /** A command id may be presented again only with the request it was first used for. */
  predicate Matches(r: Receipt, q: Request) {
    && r.version == q.version
    && r.runId == q.fence.runId && r.kind == q.kind && r.epoch == q.fence.epoch
    && (r.hostKey.Some? ==> r.hostKey.value == q.fence.hostKey)
    && (r.assignmentId.Some? ==> r.assignmentId.value == q.fence.assignmentId)
    && r.hostSessionId == q.hostSessionId
    && (r.digest.Some? ==> r.digest.value == DigestFor(r.schema, q))
  }

  /**
   A receipt minted for one request answers to exactly that request, as long as the request was
   fenced to this host and no later write has filled in a session the request did not name.
   */
  lemma MintedReceiptAcceptsExactly(hostKey: string, minted: Request, phase: Phase, outcome: Outcome, later: Receipt,
                                    q: Request)
    requires SameIdentity(Mint(hostKey, minted, phase, outcome), later)
    requires q.commandId == minted.commandId
    ensures Matches(later, q) <==>
              q == minted && minted.fence.hostKey == hostKey && later.hostSessionId == minted.hostSessionId
  {
  }

  // ------------------------------------------------------------ retirement

  datatype Proof = Proof(expectedDigest: Option<Digest>, expectedPhase: Phase, epoch: nat)

  datatype Retirement =
    | Missing | NotTerminal | IdentityMismatch | ProducerOpen | TerminalEventUnacked
    | Retired(at: int) | AlreadyRetired(at: int)

  /** What the host decides from its own receipt; `acked` is the stream's watermark, -1 when unset. */
  function RetireDecision(stored: Option<Receipt>, proof: Proof, producerOpen: bool, processPending: bool, acked: int,
                          now: int): Retirement {
    if stored.None? then Missing
    else
      var r := stored.value;
      if r.phase == Accepted then NotTerminal
      else if r.phase != proof.expectedPhase || r.epoch != proof.epoch
              || (proof.expectedDigest.Some? && proof.expectedDigest != r.digest) then IdentityMismatch
      else if producerOpen || processPending then ProducerOpen
      else if r.version.V2? && (r.terminalSequence.None? || acked < r.terminalSequence.value) then TerminalEventUnacked
      else if r.retiredAt.Some? then AlreadyRetired(r.retiredAt.value)
      else Retired(now)
  }

  function Compact(r: Receipt, now: int): Receipt {
    r.(body := Tombstone, retiredAt := Some(now))
  }

  /** The proof names this receipt: its phase, its epoch, and its digest if the proof has one. */
  ghost predicate Proves(proof: Proof, r: Receipt) {
    && r.phase == proof.expectedPhase && r.epoch == proof.epoch
    && (proof.expectedDigest.Some? ==> r.digest == proof.expectedDigest)
  }

  ghost predicate EvidenceAcked(r: Receipt, acked: int) {
    r.version.V2? ==> r.terminalSequence.Some? && r.terminalSequence.value <= acked
  }

  /** Each answer of the handshake, and exactly when it is given. */
  lemma RetirementIsExact(stored: Option<Receipt>, proof: Proof, open: bool, pending: bool, acked: int, now: int)
    ensures var d := RetireDecision(stored, proof, open, pending, acked, now);
            && (d == Missing <==> stored.None?)
            && (d == NotTerminal <==> stored.Some? && stored.value.phase == Accepted)
            && (d == IdentityMismatch <==>
                  stored.Some? && stored.value.phase != Accepted && !Proves(proof, stored.value))
            && (d == ProducerOpen <==>
                  && stored.Some? && stored.value.phase != Accepted && Proves(proof, stored.value)
                  && (open || pending))
            && (d == TerminalEventUnacked <==>
                  && stored.Some? && stored.value.phase != Accepted && Proves(proof, stored.value)
                  && !open && !pending && !EvidenceAcked(stored.value, acked))
            && (d.Retired? || d.AlreadyRetired? <==>
                  && stored.Some? && stored.value.phase != Accepted && Proves(proof, stored.value)
                  && !open && !pending && EvidenceAcked(stored.value, acked))
            && (d.Retired? ==> stored.value.retiredAt.None? && d.at == now)
            && (d.AlreadyRetired? ==> stored.value.retiredAt == Some(d.at))
  {
  }
}
