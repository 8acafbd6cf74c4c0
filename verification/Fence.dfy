/**
 The command fence and the process obligations registered under it: the per-run epoch high-water, and
 the durable record of which process group a session's create command started.
 */
module Fence {
  import opened Wrappers

  const MAX_SAFE_INTEGER: int := 0x1F_FFFF_FFFF_FFFF

  datatype CommandFence = CommandFence(hostKey: string, runId: string, assignmentId: string, epoch: int)

  datatype Binding = Binding(assignmentId: string, epoch: int)

  datatype FenceResult =
    | Advanced(previousEpoch: Option<int>) | Held(epoch: int)
    | HostMismatch | RunMismatch | AssignmentFenced | AssignmentMismatch

  /** The OS boot and PID namespace in which process numbers mean anything. */
  datatype Context = Context(boot: string, namespace: string)

  /** What never changes about an obligation. */
  datatype Identity = Identity(runId: string, assignmentId: string, epoch: int, session: string, group: int,
                               context: Context)

  datatype Phase = Registered | Released(retiredAt: int, retiredBoot: Option<string>)

  datatype Obligation = Obligation(identity: Identity, phase: Phase)

  /** The columns of a command's receipt and of its producer wallet that registration compares. */
  datatype Receipt = Receipt(isCreate: bool, accepted: bool, runId: string, assignmentId: string, epoch: int,
                             session: Option<string>, hostKey: Option<string>)
  datatype Wallet = Wallet(runId: string, assignmentId: string, epoch: int, closed: bool, session: Option<string>)

  /** The durable tables, the present context, and every fence accepted so far in order. */
  datatype Host = Host(
    hostKey: string, fences: map<string, Binding>, obligations: map<string, Obligation>,
    context: Context, accepted: seq<CommandFence>)

  // ------------------------------------------------------------------- steps

  function Verdict(h: Host, f: CommandFence, expectedRun: Option<string>): FenceResult {
    if f.hostKey != h.hostKey then HostMismatch
    else if expectedRun.Some? && f.runId != expectedRun.value then RunMismatch
    else if f.runId !in h.fences then Advanced(None)
    else
      var stored := h.fences[f.runId];
      if f.epoch < stored.epoch then AssignmentFenced
      else if f.epoch > stored.epoch then Advanced(Some(stored.epoch))
      else if f.assignmentId != stored.assignmentId then AssignmentMismatch
      else Held(stored.epoch)
  }

  function ApplyFence(h: Host, f: CommandFence, expectedRun: Option<string>): Host {
    match Verdict(h, f, expectedRun)
    case Advanced(_) =>
      h.(fences := h.fences[f.runId := Binding(f.assignmentId, f.epoch)], accepted := h.accepted + [f])
    case Held(_) => h.(accepted := h.accepted + [f])
    case _ => h
  }

  /** The command's accepted create and its open wallet agree with each other and with the fence. */
  predicate Admitted(h: Host, p: Identity, receipt: Option<Receipt>, wallet: Option<Wallet>) {
    && receipt.Some? && wallet.Some? && p.runId in h.fences
    && var r, w := receipt.value, wallet.value;
    && r.isCreate && r.accepted
    && r.runId == p.runId && r.assignmentId == p.assignmentId && r.epoch == p.epoch
    && w.runId == r.runId && w.assignmentId == r.assignmentId && w.epoch == r.epoch && !w.closed
    && (w.session.None? || w.session.value == p.session)
    && (r.session.None? || r.session.value == p.session)
    && (r.hostKey.None? || r.hostKey.value == h.hostKey)
    && h.fences[p.runId] == Binding(r.assignmentId, r.epoch)
    && p.session != "" && 0 < p.group <= 0x1F_FFFF_FFFF_FFFF
  }

  /** The table's own constraints on a new row. */
  predicate Insertable(h: Host, p: Identity) {
    && p.epoch > 0
    && (forall id :: id in h.obligations ==> h.obligations[id].identity.session != p.session)
    && (forall id :: id in h.obligations && h.obligations[id].phase.Registered? ==>
        h.obligations[id].identity.group != p.group)
  }

  predicate Registers(h: Host, id: string, p: Identity, receipt: Option<Receipt>, wallet: Option<Wallet>) {
    && p.context == h.context
    && Admitted(h, p, receipt, wallet)
    && if id in h.obligations then h.obligations[id] == Obligation(p, Registered) else Insertable(h, p)
  }

  function Register(h: Host, id: string, p: Identity, receipt: Option<Receipt>, wallet: Option<Wallet>): Host {
    if Registers(h, id, p, receipt, wallet) then h.(obligations := h.obligations[id := Obligation(p, Registered)])
    else h
  }

  /** A missing time stands for one that does not parse. */
  predicate Releases(h: Host, id: string, retiredAt: Option<int>) {
    && id in h.obligations && retiredAt.Some?
    && (h.obligations[id].phase.Released? || h.obligations[id].identity.context == h.context)
  }

  function Release(h: Host, id: string, retiredAt: Option<int>): Host {
    if Releases(h, id, retiredAt) && h.obligations[id].phase.Registered?
    then h.(obligations := h.obligations[id := h.obligations[id].(phase := Released(retiredAt.value, None))])
    else h
  }

  predicate FromPriorBoot(o: Obligation, boot: string) {
    o.phase.Registered? && o.identity.context.boot != boot
  }

  function ReleasePriorBoot(h: Host, now: int): Host {
    h.(obligations := map id | id in h.obligations ::
      if FromPriorBoot(h.obligations[id], h.context.boot)
      then h.obligations[id].(phase := Released(now, Some(h.context.boot)))
      else h.obligations[id])
  }

  datatype Op =
    | Command(fence: CommandFence, expectedRun: Option<string>)
    | Registration(id: string, identity: Identity, receipt: Option<Receipt>, wallet: Option<Wallet>)
    | Retirement(id: string, retiredAt: Option<int>)
    | PriorBootRetirement(now: int)
    | Restart(context: Context)

  function Step(h: Host, op: Op): Host {
    match op
    case Command(f, expectedRun) => ApplyFence(h, f, expectedRun)
    case Registration(id, p, receipt, wallet) => Register(h, id, p, receipt, wallet)
    case Retirement(id, retiredAt) => Release(h, id, retiredAt)
    case PriorBootRetirement(now) => ReleasePriorBoot(h, now)
    case Restart(context) => h.(context := context)
  }

  function Run(h: Host, ops: seq<Op>): Host
    decreases |ops|
  {
    if ops == [] then h else Run(Step(h, ops[0]), ops[1..])
  }

  function Fresh(hostKey: string, context: Context): Host {
    Host(hostKey, map[], map[], context, [])
  }

  // -------------------------------------------------------------- invariant

  /** One fence may follow another of the same run: later epochs only, and one assignment an epoch. */
  ghost predicate Follows(earlier: CommandFence, later: CommandFence) {
    earlier.runId == later.runId ==>
      earlier.epoch < later.epoch || (earlier.epoch == later.epoch && earlier.assignmentId == later.assignmentId)
  }

  ghost predicate Ordered(accepted: seq<CommandFence>) {
    forall i, j :: 0 <= i < j < |accepted| ==> Follows(accepted[i], accepted[j])
  }

  /** The stored high-water of a run is the last fence accepted for it. */
  ghost predicate HighWater(h: Host) {
    && (forall i :: 0 <= i < |h.accepted| ==> h.accepted[i].runId in h.fences && Covers(h, h.accepted[i]))
    && (forall run :: run in h.fences ==> Accepted(h.accepted, run, h.fences[run]))
  }

  ghost predicate Covers(h: Host, f: CommandFence)
    requires f.runId in h.fences
  {
    Follows(f, CommandFence(h.hostKey, f.runId, h.fences[f.runId].assignmentId, h.fences[f.runId].epoch))
  }

  ghost predicate Accepted(accepted: seq<CommandFence>, run: string, b: Binding) {
    exists i :: 0 <= i < |accepted| && accepted[i].runId == run && accepted[i].assignmentId == b.assignmentId
      && accepted[i].epoch == b.epoch
  }

  /** Every obligation was registered under an accepted fence; sessions and live groups are not shared. */
  ghost predicate Obliged(h: Host) {
    && (forall id :: id in h.obligations ==>
          var p := h.obligations[id].identity; Accepted(h.accepted, p.runId, Binding(p.assignmentId, p.epoch)))
    && (forall id, other :: id in h.obligations && other in h.obligations && id != other ==>
          Apart(h.obligations[id], h.obligations[other]))
  }

  ghost predicate Apart(o: Obligation, other: Obligation) {
    && o.identity.session != other.identity.session
    && (o.phase.Registered? && other.phase.Registered? ==> o.identity.group != other.identity.group)
  }

  ghost predicate Inv(h: Host) {
    Ordered(h.accepted) && HighWater(h) && Obliged(h)
  }

  /** A fence that is accepted becomes the high-water; one that is refused changes nothing. */
  lemma AcceptedExactly(h: Host, f: CommandFence, expectedRun: Option<string>)
    ensures var g := ApplyFence(h, f, expectedRun);
            var taken := Verdict(h, f, expectedRun).Advanced? || Verdict(h, f, expectedRun).Held?;
            && (taken <==>
                  && f.hostKey == h.hostKey && (expectedRun.Some? ==> f.runId == expectedRun.value)
                  && (f.runId in h.fences ==>
                        f.epoch > h.fences[f.runId].epoch || Binding(f.assignmentId, f.epoch) == h.fences[f.runId]))
            && (taken ==>
                g.fences == h.fences[f.runId := Binding(f.assignmentId, f.epoch)] && g.accepted == h.accepted + [f])
            && (!taken ==> g == h)
  {
    if f.runId in h.fences {
      assert h.fences[f.runId := h.fences[f.runId]] == h.fences;
    }
  }

  /** Which rule refuses a fence, and what an accepted one is told. */
  lemma FenceIsAnswered(h: Host, f: CommandFence, expectedRun: Option<string>)
    ensures var r := Verdict(h, f, expectedRun);
            var foreign := f.hostKey != h.hostKey;
            var astray := !foreign && expectedRun.Some? && expectedRun.value != f.runId;
            var known := !foreign && !astray && f.runId in h.fences;
            && (r == HostMismatch <==> foreign)
            && (r == RunMismatch <==> astray)
            && (r == AssignmentFenced <==> known && f.epoch < h.fences[f.runId].epoch)
            && (r == AssignmentMismatch <==>
                  known && f.epoch == h.fences[f.runId].epoch && f.assignmentId != h.fences[f.runId].assignmentId)
            && (r.Held? ==> known && r.epoch == f.epoch == h.fences[f.runId].epoch)
            && (r.Advanced? ==> r.previousEpoch == if known then Some(h.fences[f.runId].epoch) else None)
            && (r.Advanced? && known ==> f.epoch > h.fences[f.runId].epoch)
  {
  }

  lemma AcceptedGrows(accepted: seq<CommandFence>, f: CommandFence, run: string, b: Binding)
    requires Accepted(accepted, run, b)
    ensures Accepted(accepted + [f], run, b)
  {
    var i :| 0 <= i < |accepted| && accepted[i].runId == run && accepted[i].assignmentId == b.assignmentId
      && accepted[i].epoch == b.epoch;
    assert (accepted + [f])[i] == accepted[i];
  }

  lemma FenceKeepsInv(h: Host, f: CommandFence, expectedRun: Option<string>)
    requires Inv(h)
    ensures Inv(ApplyFence(h, f, expectedRun))
  {
    AcceptedExactly(h, f, expectedRun);
    var g := ApplyFence(h, f, expectedRun);
    if g != h {
      forall i | 0 <= i < |h.accepted|
        ensures Follows(h.accepted[i], f)
      {
        assert Covers(h, h.accepted[i]);
      }
      assert g.accepted[|h.accepted|] == f;
      assert Accepted(g.accepted, f.runId, Binding(f.assignmentId, f.epoch));
      forall run | run in g.fences
        ensures Accepted(g.accepted, run, g.fences[run])
      {
        if run != f.runId {
          AcceptedGrows(h.accepted, f, run, h.fences[run]);
        }
      }
      forall id | id in g.obligations
        ensures var p := g.obligations[id].identity; Accepted(g.accepted, p.runId, Binding(p.assignmentId, p.epoch))
      {
        var p := h.obligations[id].identity;
        AcceptedGrows(h.accepted, f, p.runId, Binding(p.assignmentId, p.epoch));
      }
    }
  }

  lemma RegisterKeepsInv(h: Host, id: string, p: Identity, receipt: Option<Receipt>, wallet: Option<Wallet>)
    requires Inv(h)
    ensures Inv(Register(h, id, p, receipt, wallet))
  {
    var g := Register(h, id, p, receipt, wallet);
    if Registers(h, id, p, receipt, wallet) {
      assert Accepted(h.accepted, p.runId, h.fences[p.runId]);
      forall other | other in g.obligations && other != id
        ensures Apart(g.obligations[id], g.obligations[other]) && Apart(g.obligations[other], g.obligations[id])
      {
        if id in h.obligations {
          assert Apart(h.obligations[id], h.obligations[other]);
        }
      }
      assert forall run :: run in g.fences ==> Accepted(g.accepted, run, h.fences[run]);
      assert forall i :: 0 <= i < |h.accepted| ==> Covers(h, h.accepted[i]) ==> Covers(g, g.accepted[i]);
    }
  }

  /** Retirement changes phases only, and only from registered to released. */
  ghost predicate Retires(h: Host, g: Host) {
    && g.fences == h.fences && g.accepted == h.accepted && g.hostKey == h.hostKey
    && g.obligations.Keys == h.obligations.Keys
    && forall id :: id in h.obligations ==>
         && g.obligations[id].identity == h.obligations[id].identity
         && (g.obligations[id].phase == h.obligations[id].phase
             || (h.obligations[id].phase.Registered? && g.obligations[id].phase.Released?))
  }

  lemma RetiringKeepsInv(h: Host, g: Host)
    requires Inv(h) && Retires(h, g)
    ensures Inv(g)
  {
    assert forall i :: 0 <= i < |h.accepted| ==> Covers(h, h.accepted[i]) ==> Covers(g, g.accepted[i]);
    forall id, other | id in g.obligations && other in g.obligations && id != other
      ensures Apart(g.obligations[id], g.obligations[other])
    {
      assert Apart(h.obligations[id], h.obligations[other]);
    }
    forall id | id in g.obligations
      ensures var p := g.obligations[id].identity; Accepted(g.accepted, p.runId, Binding(p.assignmentId, p.epoch))
    {
      assert id in h.obligations;
    }
  }

  lemma OtherStepsRetire(h: Host, op: Op)
    requires !op.Command? && !op.Registration?
    ensures Retires(h, Step(h, op))
  {
  }

  lemma StepKeepsInv(h: Host, op: Op)
    requires Inv(h)
    ensures Inv(Step(h, op))
  {
    match op {
      case Command(f, expectedRun) => FenceKeepsInv(h, f, expectedRun);
      case Registration(id, p, receipt, wallet) => RegisterKeepsInv(h, id, p, receipt, wallet);
      case _ =>
        OtherStepsRetire(h, op);
        RetiringKeepsInv(h, Step(h, op));
    }
  }

  lemma {:induction false} RunKeepsInv(h: Host, ops: seq<Op>)
    requires Inv(h)
    ensures Inv(Run(h, ops))
    decreases |ops|
  {
    if ops != [] {
      StepKeepsInv(h, ops[0]);
      RunKeepsInv(Step(h, ops[0]), ops[1..]);
    }
  }

  // ------------------------------------------------------------ main results

  /** What a later state keeps of an earlier one. */
  ghost predicate Evolves(h: Host, g: Host) {
    && h.accepted <= g.accepted && g.hostKey == h.hostKey
    && (forall run :: run in h.fences ==> run in g.fences && Advances(h.fences[run], g.fences[run]))
    && (forall id :: id in h.obligations ==> id in g.obligations && Preserves(h.obligations[id], g.obligations[id]))
  }

  /** A run's epoch never falls, and an epoch is never bound to another assignment. */
  ghost predicate Advances(b: Binding, c: Binding) {
    b.epoch < c.epoch || b == c
  }

  /** An identity is never replaced, and a release is final down to its time. */
  ghost predicate Preserves(o: Obligation, p: Obligation) {
    o.identity == p.identity && (o.phase.Released? ==> p.phase == o.phase)
  }

  lemma StepEvolves(h: Host, op: Op)
    ensures Evolves(h, Step(h, op))
  {
    match op {
      case Command(f, expectedRun) => AcceptedExactly(h, f, expectedRun);
      case _ =>
    }
  }

  /** Over any sequence of commands, registrations, retirements and restarts. */
  lemma {:induction false} RunEvolves(h: Host, ops: seq<Op>)
    ensures Evolves(h, Run(h, ops))
    decreases |ops|
  {
    if ops != [] {
      StepEvolves(h, ops[0]);
      RunEvolves(Step(h, ops[0]), ops[1..]);
    }
  }

  /**
   From an empty database: the accepted epochs of a run never decrease and each binds one assignment,
   so any two obligations ever registered for the same run and epoch belong to the same assignment.
   */
  lemma EpochBindsOneAssignment(hostKey: string, context: Context, ops: seq<Op>)
    ensures var h := Run(Fresh(hostKey, context), ops);
            && Ordered(h.accepted)
            && forall id, other :: id in h.obligations && other in h.obligations ==>
                 SameEpochSameAssignment(h.obligations[id].identity, h.obligations[other].identity)
  {
    RunKeepsInv(Fresh(hostKey, context), ops);
    var h := Run(Fresh(hostKey, context), ops);
    forall id, other | id in h.obligations && other in h.obligations
      ensures SameEpochSameAssignment(h.obligations[id].identity, h.obligations[other].identity)
    {
      AcceptedTogether(h.accepted, h.obligations[id].identity, h.obligations[other].identity);
    }
  }

  ghost predicate SameEpochSameAssignment(p: Identity, q: Identity) {
    p.runId == q.runId && p.epoch == q.epoch ==> p.assignmentId == q.assignmentId
  }

  lemma AcceptedTogether(accepted: seq<CommandFence>, p: Identity, q: Identity)
    requires Ordered(accepted)
    requires Accepted(accepted, p.runId, Binding(p.assignmentId, p.epoch))
    requires Accepted(accepted, q.runId, Binding(q.assignmentId, q.epoch))
    ensures SameEpochSameAssignment(p, q)
  {
    var i :| 0 <= i < |accepted| && accepted[i].runId == p.runId && accepted[i].assignmentId == p.assignmentId
      && accepted[i].epoch == p.epoch;
    var j :| 0 <= j < |accepted| && accepted[j].runId == q.runId && accepted[j].assignmentId == q.assignmentId
      && accepted[j].epoch == q.epoch;
    assert i < j ==> Follows(accepted[i], accepted[j]);
    assert j < i ==> Follows(accepted[j], accepted[i]);
  }

  /** A command below the high-water stays refused whatever happens next. */
  lemma FencedForever(h: Host, f: CommandFence, expectedRun: Option<string>, ops: seq<Op>)
    requires Verdict(h, f, expectedRun).AssignmentFenced?
    ensures Verdict(Run(h, ops), f, expectedRun).AssignmentFenced?
    ensures ApplyFence(Run(h, ops), f, expectedRun) == Run(h, ops)
  {
    RunEvolves(h, ops);
  }

  // ------------------------------------------------------------- the tables

  class ExecutionHost {
    const hostKey: string
    var fences: map<string, Binding>
    var obligations: map<string, Obligation>
    var context: Context
    ghost var accepted: seq<CommandFence>

    ghost function State(): Host
      reads this
    {
      Host(hostKey, fences, obligations, context, accepted)
    }

    constructor (hostKey: string, context: Context)
      ensures State() == Fresh(hostKey, context)
    {
      this.hostKey, fences, obligations, this.context, accepted := hostKey, map[], map[], context, [];
    }

    /** Rules in order: host key, run binding, epoch high-water, assignment. */
    method Apply(f: CommandFence, expectedRun: Option<string>) returns (r: FenceResult)
      modifies this`fences, this`accepted
      ensures r == Verdict(old(State()), f, expectedRun)
      ensures State() == Step(old(State()), Command(f, expectedRun))
    {
      if f.hostKey != hostKey {
        return HostMismatch;
      }
      if expectedRun.Some? && f.runId != expectedRun.value {
        return RunMismatch;
      }
      var stored := if f.runId in fences then Some(fences[f.runId]) else None;
      if stored.Some? && f.epoch < stored.value.epoch {
        return AssignmentFenced;
      }
      if stored.Some? && f.epoch == stored.value.epoch && f.assignmentId != stored.value.assignmentId {
        return AssignmentMismatch;
      }
      accepted := accepted + [f];
      if stored.None? || f.epoch > stored.value.epoch {
        fences := fences[f.runId := Binding(f.assignmentId, f.epoch)];
        return Advanced(if stored.Some? then Some(stored.value.epoch) else None);
      }
      return Held(stored.value.epoch);
    }

    /** The identity's context is not the caller's choice: it is the one in which the host runs. */
    method RegisterSessionProcess(id: string, p: Identity, receipt: Option<Receipt>, wallet: Option<Wallet>)
      returns (ok: bool)
      requires p.context == context
      modifies this`obligations
      ensures ok == Registers(old(State()), id, p, receipt, wallet)
      ensures State() == Step(old(State()), Registration(id, p, receipt, wallet))
    {
      ghost var before := State();
      if receipt.None? || wallet.None? || p.runId !in fences {
        return false;
      }
      var r, w, f := receipt.value, wallet.value, fences[p.runId];
      if !(r.isCreate && r.accepted && r.runId == p.runId && r.assignmentId == p.assignmentId && r.epoch == p.epoch)
      || !(w.runId == r.runId && w.assignmentId == r.assignmentId && w.epoch == r.epoch && !w.closed)
      || !(w.session.None? || w.session.value == p.session)
      || !(r.session.None? || r.session.value == p.session)
      || !(r.hostKey.None? || r.hostKey.value == hostKey)
      || !(f.assignmentId == r.assignmentId && f.epoch == r.epoch) {
        return false;
      }
      if p.session == "" || p.group > MAX_SAFE_INTEGER || p.group <= 0 {
        return false;
      }
      assert Admitted(before, p, receipt, wallet);
      if id in obligations {
        ok := obligations[id].identity == p && obligations[id].phase.Registered?;
        assert ok ==> obligations[id := Obligation(p, Registered)] == obligations;
        return;
      }
      if p.epoch <= 0
      || (exists other :: other in obligations && obligations[other].identity.session == p.session)
      || (exists other :: other in obligations && obligations[other].phase.Registered?
                         && obligations[other].identity.group == p.group)
      {
        return false;
      }
      obligations := obligations[id := Obligation(p, Registered)];
      return true;
    }

    method ReleaseSessionProcess(id: string, retiredAt: Option<int>) returns (ok: bool)
      modifies this`obligations
      ensures ok == Releases(old(State()), id, retiredAt)
      ensures State() == Step(old(State()), Retirement(id, retiredAt))
    {
      if id !in obligations || retiredAt.None? {
        return false;
      }
      var existing := obligations[id];
      if existing.phase.Released? {
        return true;
      }
      if existing.identity.context.boot != context.boot || existing.identity.context.namespace != context.namespace {
        return false;
      }
      obligations := obligations[id := existing.(phase := Released(retiredAt.value, None))];
      return true;
    }

    method ReleaseSessionProcessesFromPriorBoot(now: int) returns (changes: nat)
      modifies this`obligations
      ensures State() == Step(old(State()), PriorBootRetirement(now))
      ensures changes == |set id | id in old(obligations) && FromPriorBoot(old(obligations)[id], context.boot)|
      ensures forall id :: id in old(obligations) ==>
                var o := old(obligations)[id];
                id in obligations
                && obligations[id] ==
                   if o.phase == Registered && o.identity.context.boot != context.boot
                   then Obligation(o.identity, Released(now, Some(context.boot))) else o
    {
      changes := |set id | id in obligations && obligations[id].phase.Registered?
                           && obligations[id].identity.context.boot != context.boot|;
      ghost var expected := set id | id in obligations && FromPriorBoot(obligations[id], context.boot);
      assert expected == set id | id in obligations && obligations[id].phase.Registered?
                                  && obligations[id].identity.context.boot != context.boot;
      obligations := map id | id in obligations ::
        if obligations[id].phase.Registered? && obligations[id].identity.context.boot != context.boot
        then obligations[id].(phase := Released(now, Some(context.boot)))
        else obligations[id];
    }

    /** The tables survive; process numbers may now mean something else. */
    method Reopen(context: Context)
      modifies this`context
      ensures State() == Step(old(State()), Restart(context))
    {
      this.context := context;
    }
  }
}
