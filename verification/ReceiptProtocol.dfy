/**
 The idempotent-command protocol as a step relation: durable receipts, the in-memory table of
 commands in flight that a restart clears, and the stream positions its evidence occupies.
 Each submit runs without interruption up to its first wait, so it is one step, and every step
 concerns one command id.
 */
module ReceiptProtocol {
  import opened Wrappers
  import opened Receipts
  import opened CommandEvidence

  datatype Api = Execute | Upload | Async

  /** What happens to one receipt write: stored, refused and rolled back, or stored before a later hook threw. */
  datatype Write = Stored(event: bool) | Lost | StoredThenThrew(event: bool)

  /** How capturing a version 2 prompt's output goes: whether there is a response, and what it appends itself. */
  datatype Capture = Capture(response: bool, emitted: nat)

  datatype Settlement = Fulfilled(outcome: Outcome) | Failed

  /** A command in flight: still running, or settled and about to be forgotten. */
  datatype Flight = Flight(api: Api, request: Request, settled: Option<Settlement>)

  datatype RunEnd =
    | Succeeded(outcome: Outcome)
    | Typed(outcome: Outcome)           // a supervisor error, unstarted session processes included
    | Untyped(outcome: Outcome)         // any other error, with what an asynchronous command reports for it
    | ExitUnconfirmed(outcome: Outcome) // a failed create whose process exit is not confirmed

  datatype Reply =
    | Refused
    | Replayed(status: nat, body: Body)
    | Awaiting
    | InProgress
    | AcceptedAlready
    | AcceptedNow
    | TurnLost(outcome: Outcome)
    | WriteFailed

  /**
   All that concerns one command id; `starts` and `running` count runs of its effect. `confirming` holds the rows
   that confirmations of a process exit have read and will write after their wait.
   */
  datatype Command = Command(receipt: Option<Receipt>, flight: Option<Flight>, confirming: multiset<Receipt>,
                             starts: nat, running: nat)
  {
    predicate Running() {
      flight.Some? && flight.value.settled.None?
    }

    predicate Settled() {
      receipt.Some? && receipt.value.Settled()
    }
  }

  const UNKNOWN := Command(None, None, multiset{}, 0, 0)
  const TURN_LOST := Outcome(409, Json("turn_lost"))
  const NO_CAPTURE := Capture(false, 0)

  // ---------------------------------------------------------------- writes

  function Emitted(event: bool): nat {
    if event then 1 else 0
  }

  /** Store a row as it is; with an event, it also records the position `next` the event is given. */
  function Put(c: Command, row: Receipt, event: bool, next: nat): Command {
    var placed :=
      if !event then row
      else if row.phase == Accepted then row.(acceptedSequence := Some(next), eventId := Some(next))
      else row.(terminalSequence := Some(next), eventId := Some(next));
    c.(receipt := Some(Upsert(c.receipt, placed)))
  }

  /** Later writes repeat the stored digest, a missing one included. */
  function RowFor(hostKey: string, c: Command, q: Request, phase: Phase, outcome: Outcome): Receipt {
    var row := Mint(hostKey, q, phase, outcome);
    if c.receipt.Some? then row.(digest := c.receipt.value.digest) else row
  }

  /** One receipt write as it is made: its row, its fate, and how many events were appended before it. */
  datatype Attempt = Attempt(row: Receipt, write: Write, emitted: nat) {
    /** Positions used up: those of other events, and whether the receipt has its own. */
    function Extent(): (nat, bool) {
      (emitted, !write.Lost? && write.event)
    }
  }

  /** Version 2 evidence is always written with an event, and only if its payload passes. */
  function Published(id: string, row: Receipt, w: Write, position: nat): Write {
    if !Publishable(id, row, position) then Lost
    else
      match w
      case Lost => Lost
      case Stored(_) => Write.Stored(true)
      case StoredThenThrew(_) => StoredThenThrew(true)
  }

  function SessionOf(q: Request): string {
    if q.hostSessionId.Some? then q.hostSessionId.value else ""
  }

  /** The output reference names the position that is next before anything is captured. */
  function OutputOf(q: Request, acceptedSequence: nat, next: nat): OutputReference {
    OutputReference(q.commandId, SessionOf(q), acceptedSequence, next)
  }

  function ManifestOf(q: Request, acceptedSequence: nat, digest: Digest, next: nat): Manifest {
    Manifest(q.commandId, q.fence, SessionOf(q), digest, acceptedSequence, next)
  }

  function Prepare(hostKey: string, c: Command, q: Request, phase: Phase, outcome: Outcome,
                   w: Write, capture: Capture, next: nat): Attempt
  {
    var row := RowFor(hostKey, c, q, phase, outcome);
    if q.version.V1? then Attempt(row, w, 0)
    else if phase == Completed && outcome.status < 400 then
      if c.receipt.None? || c.receipt.value.acceptedSequence.None? || c.receipt.value.digest.None? || !capture.response
      then Attempt(row, Lost, 0)
      else
        var full := row.(body := WithOutput(row.body, OutputOf(q, c.receipt.value.acceptedSequence.value, next)));
        Attempt(full, Published(q.commandId, full, w, next + capture.emitted), capture.emitted)
    else Attempt(row, Published(q.commandId, row, w, next), 0)
  }

  function Commit(c: Command, a: Attempt, next: nat): Command {
    if a.write.Lost? then c else Put(c, a.row, a.write.event, next + a.emitted)
  }

  // ---------------------------------------------------------------- submit

  function Accepting(hostKey: string, c: Command, q: Request, w: Write, next: nat): Attempt {
    Prepare(hostKey, c, q, Accepted, Outcome(202, Empty), w, NO_CAPTURE, next)
  }

  function Losing(hostKey: string, c: Command, q: Request, w: Write, next: nat): Attempt {
    Prepare(hostKey, c, q, Rejected, TURN_LOST, w, NO_CAPTURE, next)
  }

  /** Accept, then start the effect at once; a failed write settles the promise instead. */
  function Begin(hostKey: string, c: Command, api: Api, q: Request, w: Write, next: nat): Command {
    var a := Accepting(hostKey, c, q, w, next);
    var d := Commit(c, a, next);
    if a.write.Stored? then d.(flight := Some(Flight(api, q, None)), starts := d.starts + 1, running := d.running + 1)
    else if api.Async? then d
    else d.(flight := Some(Flight(api, q, Some(Failed))))
  }

  datatype Choice = Answer(reply: Reply) | Start | LoseTurn

  /** What a submit decides from the receipt and the in-flight table. */
  function Decide(c: Command, api: Api, q: Request): Choice {
    if !TargetAllowed(q) || (c.receipt.Some? && !Matches(c.receipt.value, q)) then Answer(Refused)
    else if c.Settled() then
      if api.Async? then Answer(AcceptedAlready) else Answer(Replayed(c.receipt.value.httpStatus, c.receipt.value.body))
    else if c.flight.Some? then
      match api
      case Execute => Answer(Awaiting)
      case Upload => Answer(InProgress)
      case Async => Answer(AcceptedAlready)
    else if c.receipt.None? || api.Upload? || (api.Execute? && q.kind in RESTARTABLE) then Start
    else if api.Execute? && c.receipt.value.UnsettledCreate()
      then Answer(Replayed(c.receipt.value.httpStatus, c.receipt.value.body))
    else LoseTurn
  }

  function Submit(hostKey: string, c: Command, api: Api, q: Request, w: Write, next: nat): (Command, Reply) {
    match Decide(c, api, q)
    case Answer(reply) => (c, reply)
    case Start =>
      (Begin(hostKey, c, api, q, w, next),
       if !api.Async? then Awaiting
       else if Accepting(hostKey, c, q, w, next).write.Stored? then AcceptedNow else WriteFailed)
    case LoseTurn =>
      var a := Losing(hostKey, c, q, w, next);
      (Commit(c, a, next), if a.write.Stored? then TurnLost(TURN_LOST) else WriteFailed)
  }

  function SubmitExtent(hostKey: string, c: Command, api: Api, q: Request, w: Write, next: nat): (nat, bool) {
    match Decide(c, api, q)
    case Answer(_) => (0, false)
    case Start => Accepting(hostKey, c, q, w, next).Extent()
    case LoseTurn => Losing(hostKey, c, q, w, next).Extent()
  }

  // ---------------------------------------------------------------- finish

  /** The phase and outcome a finished effect writes, if it writes at all. */
  function Verdict(api: Api, end: RunEnd): Option<(Phase, Outcome)> {
    match end
    case Succeeded(o) => Some((Completed, o))
    case Typed(o) => Some((Rejected, o))
    case Untyped(o) => if api.Async? then Some((Rejected, o)) else None
    case ExitUnconfirmed(o) =>
      if api.Async? then Some((Rejected, o)) else Some((Accepted, Outcome(o.status, Body.Unconfirmed(""))))
  }

  /** The write of a finished effect. */
  function Concluding(hostKey: string, c: Command, end: RunEnd, w: Write, capture: Capture, next: nat): Option<Attempt>
    requires c.Running()
  {
    var f := c.flight.value;
    var v := Verdict(f.api, end);
    if v.None? then None else Some(Prepare(hostKey, c, f.request, v.value.0, v.value.1, w, capture, next))
  }

  /** What everyone waiting is handed: the written outcome, or a failure. */
  function Handed(api: Api, end: RunEnd, a: Option<Attempt>): Settlement {
    if a.Some? && Verdict(api, end).Some? && Verdict(api, end).value.0 != Accepted && a.value.write.Stored?
    then Fulfilled(end.outcome) else Failed
  }

  function Finish(hostKey: string, c: Command, end: RunEnd, w: Write, capture: Capture, next: nat): Command
    requires c.Running()
  {
    var f := c.flight.value;
    var a := Concluding(hostKey, c, end, w, capture, next);
    var d := if a.None? then c else Commit(c, a.value, next);
    d.(flight := Some(f.(settled := Some(Handed(f.api, end, a)))),
       running := if c.running > 0 then c.running - 1 else 0)
  }

  // ----------------------------------------------------- steps of one command

  datatype Act =
    | Submitting(api: Api, q: Request, w: Write)
    | Finishing(end: RunEnd, w: Write, capture: Capture)
    | Forgetting
    | Recovering(session: Option<string>)
    | MarkingUnconfirmed(text: string)
    | BeginningConfirmation
    | EndingConfirmation(stale: Receipt, stored: bool)
    | CompletingObject(status: nat, metadata: Body)
    | Retiring(proof: Proof, producerOpen: bool, processPending: bool, now: int)

  function LostRow(r: Receipt, session: Option<string>): Receipt {
    r.(hostSessionId := Coalesce(r.hostSessionId, session), phase := Rejected,
       httpStatus := TURN_LOST.status, body := TURN_LOST.body)
  }

  /** Whether recovery settles the receipt: it is still accepted, and version 2 evidence passes. */
  predicate Recovers(c: Command, id: string, session: Option<string>, next: nat) {
    && c.receipt.Some? && !c.receipt.value.Settled()
    && (c.receipt.value.version.V2? ==> Publishable(id, LostRow(c.receipt.value, session), next))
  }

  /**
   An accepted receipt whose process is gone becomes a terminal `turn_lost` pair. The in-flight table is not
   asked.
   */
  function Recover(c: Command, id: string, session: Option<string>, next: nat): Command {
    if Recovers(c, id, session, next) then Put(c, LostRow(c.receipt.value, session), true, next) else c
  }

  /** Boot-time marking, before any command is in flight. */
  function MarkUnconfirmed(c: Command, text: string): Command {
    if c.receipt.None? || c.receipt.value.Settled() || c.receipt.value.kind != CREATE || c.flight.Some? then c
    else c.(receipt := Some(c.receipt.value.(httpStatus := 503, body := Body.Unconfirmed(text))))
  }

  /** An unresolved create whose process has exited is read, and its retirement waited for. */
  function BeginConfirmation(c: Command): Command {
    if c.receipt.None? || !c.receipt.value.UnsettledCreate() then c
    else c.(confirming := c.confirming + multiset{c.receipt.value})
  }

  /** What a confirmation makes of the row it has read. */
  function ConfirmedRow(stale: Receipt): Receipt {
    stale.(phase := Rejected, httpStatus := 503,
           body := ExitConfirmed(if stale.body.Unconfirmed? then stale.body.text else ""))
  }

  /**
   The wait is over: the row read before it is written, whatever is stored by then. Nothing is written if the
   exit is not confirmed after all or the write is refused.
   */
  function EndConfirmation(c: Command, stale: Receipt, stored: bool): Command {
    if stale !in c.confirming then c
    else
      var d := c.(confirming := c.confirming - multiset{stale});
      if stored then Put(d, ConfirmedRow(stale), false, 0) else d
  }

  /** At boot: an upload or deletion whose effect is found complete although its receipt was never settled. */
  predicate Completes(c: Command) {
    c.receipt.Some? && !c.receipt.value.Settled() && c.receipt.value.kind in {UPLOAD, DELETE} && c.flight.None?
  }

  function CompleteObject(c: Command, status: nat, body: Body, next: nat): Command {
    if Completes(c)
    then Put(c, c.receipt.value.(phase := Completed, httpStatus := status, body := StoredBody(body)), true, next)
    else c
  }

  function Retire(c: Command, proof: Proof, open: bool, pending: bool, acked: int, now: int): Command {
    if RetireDecision(c.receipt, proof, open, pending, acked, now).Retired?
    then c.(receipt := Some(Compact(c.receipt.value, now))) else c
  }

  function Apply(hostKey: string, id: string, c: Command, act: Act, next: nat, acked: int): Command {
    match act
    case Submitting(api, q, w) => Submit(hostKey, c, api, q, w, next).0
    case Finishing(end, w, capture) => if c.Running() then Finish(hostKey, c, end, w, capture, next) else c
    case Forgetting => if c.flight.Some? && !c.Running() then c.(flight := None) else c
    case Recovering(session) => Recover(c, id, session, next)
    case MarkingUnconfirmed(text) => MarkUnconfirmed(c, text)
    case BeginningConfirmation => BeginConfirmation(c)
    case EndingConfirmation(stale, stored) => EndConfirmation(c, stale, stored)
    case CompletingObject(status, body) => CompleteObject(c, status, body, next)
    case Retiring(proof, open, pending, now) => Retire(c, proof, open, pending, acked, now)
  }

  /** The events an act appends: how many others first, and whether one of the command's own last. */
  function Extent(hostKey: string, id: string, c: Command, act: Act, next: nat): (nat, bool) {
    match act
    case Submitting(api, q, w) => SubmitExtent(hostKey, c, api, q, w, next)
    case Finishing(end, w, capture) =>
      if c.Running() && Concluding(hostKey, c, end, w, capture, next).Some?
      then Concluding(hostKey, c, end, w, capture, next).value.Extent() else (0, false)
    case Recovering(session) => (0, Recovers(c, id, session, next))
    case CompletingObject(_, _) => (0, Completes(c))
    case _ => (0, false)
  }

  function Positions(hostKey: string, id: string, c: Command, act: Act, next: nat): nat {
    Extent(hostKey, id, c, act, next).0 + Emitted(Extent(hostKey, id, c, act, next).1)
  }

  /** The outcome an act hands to its caller or to everyone who joined. */
  function Delivery(hostKey: string, c: Command, act: Act, next: nat): Option<Outcome> {
    match act
    case Submitting(api, q, w) =>
      if Decide(c, api, q).LoseTurn? && Losing(hostKey, c, q, w, next).write.Stored? then Some(TURN_LOST) else None
    case Finishing(end, w, capture) =>
      if c.Running() && Handed(c.flight.value.api, end, Concluding(hostKey, c, end, w, capture, next)).Fulfilled?
      then Some(end.outcome) else None
    case _ => None
  }

  /** Uploads come in by their own route, and only prompts run in the background. */
  predicate Addressed(id: string, act: Act) {
    act.Submitting? ==>
      && act.q.commandId == id
      && (act.api.Upload? ==> act.q.kind == UPLOAD) && (act.api.Async? ==> act.q.kind == PROMPT)
  }

  /** No recovery of a command that is still running here. */
  predicate Quiet(c: Command, act: Act) {
    act.Recovering? ==> !c.Running()
  }

  // ------------------------------------------------------ one command's facts

  /** Confirmations are of one create, which is not running and has not been touched since but to settle it. */
  ghost predicate ConfirmsSoundly(c: Command) {
    && (c.confirming != multiset{} ==>
          && c.receipt.Some? && c.receipt.value.kind == CREATE && !c.Running()
          && (c.Settled() || c.receipt.value.UnsettledCreate()))
    && ReadFrom(c.confirming, c.receipt)
  }

  /** Rows that were read while the create was unresolved, of what has become this receipt. */
  ghost predicate ReadFrom(rows: multiset<Receipt>, receipt: Option<Receipt>) {
    forall s :: s in rows ==> s.UnsettledCreate() && receipt.Some? && SameIdentity(s, receipt.value)
  }

  lemma ReadFromLater(rows: multiset<Receipt>, before: Option<Receipt>, after: Option<Receipt>)
    requires ReadFrom(rows, before)
    requires before.Some? ==> after.Some? && SameIdentity(before.value, after.value)
    ensures ReadFrom(rows, after)
  {
  }

  /** What a later state of a command keeps of its receipt. */
  ghost predicate ReceiptEvolves(a: Receipt, b: Receipt) {
    && SameIdentity(a, b)
    && (a.Settled() ==> b.phase == a.phase && b.httpStatus == a.httpStatus && (b.retiredAt.Some? || b.body == a.body))
    && (a.retiredAt.Some? ==> b == a)
  }

  ghost predicate Evolves(c: Command, d: Command) {
    c.receipt.Some? ==> d.receipt.Some? && ReceiptEvolves(c.receipt.value, d.receipt.value)
  }

  /** A stored body is what was reported, a version 2 prompt's with the reference to its output. */
  ghost predicate Keeps(stored: Body, reported: Body) {
    stored == StoredBody(reported) || (stored.WithOutput? && stored.reported == StoredBody(reported))
  }

  /** Everyone who was handed an outcome was handed the one the receipt holds. */
  ghost predicate Agrees(c: Command, o: Outcome) {
    && c.Settled() && c.receipt.value.httpStatus == o.status
    && (c.receipt.value.retiredAt.Some? || Keeps(c.receipt.value.body, o.body))
  }

  /** A prepared row differs from the minted one in its digest and its output at most. */
  lemma Prepared(hostKey: string, c: Command, q: Request, phase: Phase, outcome: Outcome, w: Write, capture: Capture,
                 next: nat)
    ensures var a := Prepare(hostKey, c, q, phase, outcome, w, capture, next);
            && a.row == RowFor(hostKey, c, q, phase, outcome).(body := a.row.body)
            && Keeps(a.row.body, outcome.body)
            && (phase != Completed ==> a.row.body == StoredBody(outcome.body) && a.emitted == 0)
            && (a.write.Lost? || (a.write.Stored? <==> w.Stored?)) && (w.Lost? ==> a.write.Lost?)
  {
  }

  /** Only a command that is neither settled nor in flight is started, and only a rerunnable one again. */
  lemma StartsAreFree(id: string, c: Command, api: Api, q: Request, w: Write)
    requires Addressed(id, Submitting(api, q, w)) && Decide(c, api, q).Start?
    ensures c.flight.None? && !c.Settled()
    ensures c.receipt.Some? ==> Rerunnable(c.receipt.value.kind)
  {
  }

  /** A settled or unresolved receipt once a confirmation has been written over it. */
  function Confirmed(r: Receipt, stale: Receipt): Receipt {
    var row := ConfirmedRow(stale);
    r.(eventId := row.eventId, phase := row.phase, httpStatus := row.httpStatus, body := row.body)
  }

  /** The columns of the row that was read are those that are stored, or were filled in since. */
  lemma ConfirmationOverwrites(c: Command, stale: Receipt)
    requires ConfirmsSoundly(c) && stale in c.confirming
    ensures c.receipt.Some?
    ensures EndConfirmation(c, stale, true) ==
            c.(receipt := Some(Confirmed(c.receipt.value, stale)), confirming := c.confirming - multiset{stale})
  {
    assert SameIdentity(stale, c.receipt.value);
  }

  lemma FewerConfirmations(c: Command, stale: Receipt)
    requires ConfirmsSoundly(c) && stale in c.confirming
    ensures ReadFrom(c.confirming - multiset{stale}, c.receipt)
  {
    assert forall s :: s in c.confirming - multiset{stale} ==> s in c.confirming;
  }

  // ----------------------------------------------------------- the whole host

  datatype Host = Host(hostKey: string, commands: map<string, Command>, next: nat, acked: int,
                       delivered: set<(string, Outcome)>) {
    function Of(id: string): Command {
      if id in commands then commands[id] else UNKNOWN
    }
  }

  function Initial(hostKey: string): Host {
    Host(hostKey, map[], 0, -1, {})
  }

  datatype Op = On(id: string, act: Act) | Emit | Ack(through: nat) | Restart

  /** A restart forgets everything in memory and ends every run. */
  function Forgotten(c: Command): Command {
    c.(flight := None, confirming := multiset{}, running := 0)
  }

  function Step(h: Host, op: Op): Host {
    match op
    case On(id, act) =>
      var c := h.Of(id);
      var handed := Delivery(h.hostKey, c, act, h.next);
      h.(commands := h.commands[id := Apply(h.hostKey, id, c, act, h.next, h.acked)],
         next := h.next + Positions(h.hostKey, id, c, act, h.next),
         delivered := if handed.Some? then h.delivered + {(id, handed.value)} else h.delivered)
    case Emit => h.(next := h.next + 1)
    case Ack(through) => if h.acked < through < h.next then h.(acked := through) else h
    case Restart => h.(commands := map id | id in h.commands :: Forgotten(h.commands[id]))
  }

  function Run(h: Host, ops: seq<Op>): Host
    decreases |ops|
  {
    if ops == [] then h else Run(Step(h, ops[0]), ops[1..])
  }

  /** Every submit comes by its route. */
  predicate AllAddressed(ops: seq<Op>) {
    forall i :: 0 <= i < |ops| && ops[i].On? ==> Addressed(ops[i].id, ops[i].act)
  }

  lemma AgreesLater(c: Command, d: Command, o: Outcome)
    requires Agrees(c, o) && Evolves(c, d)
    ensures Agrees(d, o)
  {
  }

  /** Recovery can fill in a session a create never named; its own request is then refused as a conflict. */
  lemma RecoveredCreateRefusesItsOwnRequest(hostKey: string, q: Request, session: string)
    requires q.kind == CREATE && q.version.V1? && q.hostSessionId.None? && q.fence.hostKey == hostKey
    ensures var c := Submit(hostKey, UNKNOWN, Execute, q, Write.Stored(false), 0).0;
            var recovered := Recover(Forgotten(c), q.commandId, Some(session), 0);
            && Decide(c, Execute, q) == Answer(Awaiting)
            && Decide(Recover(Forgotten(c), q.commandId, None, 0), Execute, q) ==
               Answer(Replayed(TURN_LOST.status, TURN_LOST.body))
            && Decide(recovered, Execute, q) == Answer(Refused)
  {
  }
}
