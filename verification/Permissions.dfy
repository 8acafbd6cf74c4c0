/**
 The registry of permission requests that wait for an answer. Each registration brings a deferred
 reply and arms a cap timer; both are named here by the number of the registration.
 */
module Permissions {
  import opened Wrappers

  datatype Outcome = Selected(option: string) | Cancelled | Overwritten | Terminated | Failed(error: string)

  /** Every registration ever made: for which request, how it was settled, and which timers still run. */
  datatype Ledger = Ledger(keys: seq<(string, string)>, outcomes: seq<Option<Outcome>>, armed: set<nat>)

  datatype Op =
    | Register(session: string, request: string)
    | Resolve(session: string, request: string, option: string)
    | Cancel(session: string, request: string)
    | Reject(session: string, request: string, error: string)
    | Purge(session: string)
    | CapFires(number: nat, handled: bool)

  const EMPTY := Ledger([], [], {})

  ghost predicate Shaped(l: Ledger) {
    |l.keys| == |l.outcomes|
  }

  predicate IsOpen(l: Ledger, n: nat) {
    n < |l.outcomes| && l.outcomes[n].None?
  }

  /** A request of a session, or every request of it. */
  predicate Matches(key: (string, string), session: string, request: Option<string>) {
    key.0 == session && (request.None? || key.1 == request.value)
  }

  predicate Selects(l: Ledger, n: nat, session: string, request: Option<string>)
    requires Shaped(l)
  {
    IsOpen(l, n) && Matches(l.keys[n], session, request)
  }

  /** Settle what is open and matches; its timer is cleared. */
  function Settle(l: Ledger, session: string, request: Option<string>, o: Outcome): (m: Ledger)
    requires Shaped(l)
    ensures Shaped(m)
  {
    Ledger(
      l.keys,
      seq(|l.outcomes|, n requires 0 <= n < |l.outcomes| =>
        if Selects(l, n, session, request) then Some(o) else l.outcomes[n]),
      set n | n in l.armed && !Selects(l, n, session, request))
  }

  function Step(l: Ledger, op: Op): (m: Ledger)
    requires Shaped(l)
    ensures Shaped(m)
  {
    match op
    case Register(s, r) =>
      var free := Settle(l, s, Some(r), Overwritten);
      Ledger(free.keys + [(s, r)], free.outcomes + [None], free.armed + {|free.keys|})
    case Resolve(s, r, option) => Settle(l, s, Some(r), Selected(option))
    case Cancel(s, r) => Settle(l, s, Some(r), Cancelled)
    case Reject(s, r, error) => Settle(l, s, Some(r), Failed(error))
    case Purge(s) => Settle(l, s, None, Terminated)
    case CapFires(n, handled) =>
      if n !in l.armed || n >= |l.keys| then l
      else if handled then l.(armed := l.armed - {n})
      else Settle(l.(armed := l.armed - {n}), l.keys[n].0, Some(l.keys[n].1), Cancelled)
  }

  function Run(l: Ledger, ops: seq<Op>): (m: Ledger)
    requires Shaped(l)
    ensures Shaped(m)
    decreases |ops|
  {
    if ops == [] then l else Run(Step(l, ops[0]), ops[1..])
  }

  /** One open registration a request, and only open ones have a timer running. */
  ghost predicate Wf(l: Ledger) {
    && Shaped(l)
    && (forall m: nat, n: nat :: IsOpen(l, m) && IsOpen(l, n) && l.keys[m] == l.keys[n] ==> m == n)
    && (forall n :: n in l.armed ==> IsOpen(l, n))
  }

  lemma SettleKeepsWf(l: Ledger, session: string, request: Option<string>, o: Outcome)
    requires Wf(l)
    ensures forall n: nat :: IsOpen(Settle(l, session, request, o), n) <==>
              IsOpen(l, n) && !Selects(l, n, session, request)
    ensures Wf(Settle(l, session, request, o))
  {
    var m := Settle(l, session, request, o);
    forall n: nat
      ensures IsOpen(m, n) <==> IsOpen(l, n) && !Selects(l, n, session, request)
    {
    }
  }

  lemma StepKeepsWf(l: Ledger, op: Op)
    requires Wf(l)
    ensures Wf(Step(l, op))
  {
    match op {
      case Register(s, r) =>
        var free := Settle(l, s, Some(r), Overwritten);
        SettleKeepsWf(l, s, Some(r), Overwritten);
        forall n: nat | IsOpen(Step(l, op), n)
          ensures n == |free.keys| || (IsOpen(free, n) && free.keys[n] != (s, r))
        {
        }
      case Resolve(s, r, option) => SettleKeepsWf(l, s, Some(r), Selected(option));
      case Cancel(s, r) => SettleKeepsWf(l, s, Some(r), Cancelled);
      case Reject(s, r, error) => SettleKeepsWf(l, s, Some(r), Failed(error));
      case Purge(s) => SettleKeepsWf(l, s, None, Terminated);
      case CapFires(n, handled) =>
        if n in l.armed && n < |l.keys| && !handled {
          SettleKeepsWf(l.(armed := l.armed - {n}), l.keys[n].0, Some(l.keys[n].1), Cancelled);
        }
    }
  }

  /** An outcome, once given, is never given again or changed. */
  ghost predicate Keeps(l: Ledger, m: Ledger) {
    && l.keys <= m.keys && |l.outcomes| <= |m.outcomes|
    && forall n :: 0 <= n < |l.outcomes| && l.outcomes[n].Some? ==> m.outcomes[n] == l.outcomes[n]
  }

  lemma StepKeeps(l: Ledger, op: Op)
    requires Shaped(l)
    ensures Keeps(l, Step(l, op))
  {
  }

  /** In any order of registering, answering, purging and cap timers. */
  lemma {:induction false} EachIsSettledOnce(l: Ledger, ops: seq<Op>)
    requires Wf(l)
    ensures Wf(Run(l, ops)) && Keeps(l, Run(l, ops))
    decreases |ops|
  {
    if ops != [] {
      StepKeepsWf(l, ops[0]);
      StepKeeps(l, ops[0]);
      EachIsSettledOnce(Step(l, ops[0]), ops[1..]);
    }
  }

  /** A cap timer that fires reaches the registration that armed it, and no other. */
  lemma CapReachesItsOwn(l: Ledger, n: nat)
    requires Wf(l) && n in l.armed
    ensures IsOpen(l, n)
    ensures Step(l, CapFires(n, false)) == Ledger(l.keys, l.outcomes[n := Some(Cancelled)], l.armed - {n})
  {
    var m := Step(l, CapFires(n, false));
    assert m.outcomes == l.outcomes[n := Some(Cancelled)];
    assert m.armed == l.armed - {n};
  }

  /** What an operation gives to an open registration, if it concerns it. */
  ghost function Given(op: Op, key: (string, string)): Option<Outcome> {
    match op
    case Register(s, r) => if key == (s, r) then Some(Overwritten) else None
    case Resolve(s, r, option) => if key == (s, r) then Some(Selected(option)) else None
    case Cancel(s, r) => if key == (s, r) then Some(Cancelled) else None
    case Reject(s, r, error) => if key == (s, r) then Some(Failed(error)) else None
    case Purge(s) => if key.0 == s then Some(Terminated) else None
    case CapFires(_, _) => None
  }

  /** Each operation settles the open registrations it names, with its own outcome, and no others. */
  lemma EachGetsItsOutcome(l: Ledger, op: Op, n: nat)
    requires Wf(l) && IsOpen(l, n) && !op.CapFires?
    ensures Step(l, op).outcomes[n] == Given(op, l.keys[n])
    ensures n in Step(l, op).armed <==> n in l.armed && Given(op, l.keys[n]).None?
    ensures op.Register? ==>
              && Step(l, op).keys == l.keys + [(op.session, op.request)]
              && |Step(l, op).outcomes| == |l.outcomes| + 1 && Step(l, op).outcomes[|l.outcomes|].None?
              && |l.outcomes| in Step(l, op).armed
    ensures !op.Register? ==> Step(l, op).keys == l.keys && |Step(l, op).outcomes| == |l.outcomes|
  {
  }

  // ---------------------------------------------------------------- tallies

  datatype Kind = Open | ByAnswer | ByCancel | ByReject

  function KindOf(o: Option<Outcome>): Kind {
    match o
    case None => Open
    case Some(Selected(_)) => ByAnswer
    case Some(Cancelled) => ByCancel
    case Some(_) => ByReject
  }

  function Tally(outcomes: seq<Option<Outcome>>, kind: Kind): nat {
    if outcomes == [] then 0
    else Tally(outcomes[..|outcomes| - 1], kind) + (if KindOf(outcomes[|outcomes| - 1]) == kind then 1 else 0)
  }

  lemma {:induction false} TalliesPartition(outcomes: seq<Option<Outcome>>)
    ensures Tally(outcomes, Open) + Tally(outcomes, ByAnswer) + Tally(outcomes, ByCancel)
            + Tally(outcomes, ByReject) == |outcomes|
  {
    if outcomes != [] {
      TalliesPartition(outcomes[..|outcomes| - 1]);
    }
  }

  function Registrations(ops: seq<Op>): nat {
    if ops == [] then 0 else (if ops[0].Register? then 1 else 0) + Registrations(ops[1..])
  }

  lemma {:induction false} OnePerRegistration(l: Ledger, ops: seq<Op>)
    requires Shaped(l)
    ensures |Run(l, ops).outcomes| == |l.outcomes| + Registrations(ops)
    decreases |ops|
  {
    if ops != [] {
      OnePerRegistration(Step(l, ops[0]), ops[1..]);
    }
  }

  /** A request is open, so that an answer to it succeeds. */
  ghost predicate Waiting(l: Ledger, session: string, request: string)
    requires Shaped(l)
  {
    exists n: nat :: Selects(l, n, session, Some(request))
  }

  /** Numbers of the open registrations of some sessions. */
  ghost function OpenIn(l: Ledger, sessions: set<string>): set<nat>
    requires Shaped(l)
  {
    set n: nat | n < |l.outcomes| && IsOpen(l, n) && l.keys[n].0 in sessions
  }

  /** How an operation settles what it settles. */
  function Gives(op: Op): Kind {
    match op
    case Register(_, _) => ByReject
    case Resolve(_, _, _) => ByAnswer
    case Cancel(_, _) => ByCancel
    case Reject(_, _, _) => ByReject
    case Purge(_) => ByReject
    case CapFires(_, _) => ByCancel
  }

  /** How many requests an operation settles: a collision or an answer at most one, a purge all of its session. */
  ghost function Reaches(l: Ledger, op: Op): nat
    requires Shaped(l)
  {
    match op
    case Register(s, r) => if Waiting(l, s, r) then 1 else 0
    case Resolve(s, r, _) => if Waiting(l, s, r) then 1 else 0
    case Cancel(s, r) => if Waiting(l, s, r) then 1 else 0
    case Reject(s, r, _) => if Waiting(l, s, r) then 1 else 0
    case Purge(s) => |OpenIn(l, {s})|
    case CapFires(n, handled) => if n in l.armed && !handled then 1 else 0
  }

  /** The requests settled in some way, counted from the operations of a run. */
  ghost function Reached(l: Ledger, ops: seq<Op>, kind: Kind): nat
    requires Shaped(l)
    decreases |ops|
  {
    if ops == [] then 0
    else (if Gives(ops[0]) == kind then Reaches(l, ops[0]) else 0) + Reached(Step(l, ops[0]), ops[1..], kind)
  }

  lemma {:induction false} HitsAreTallied(a: seq<Option<Outcome>>, b: seq<Option<Outcome>>, hit: set<nat>, o: Outcome,
                                          kind: Kind)
    requires |a| == |b| && kind != Open
    requires forall n :: n in hit ==> n < |a| && a[n].None?
    requires forall n: nat :: n < |a| ==> b[n] == if n in hit then Some(o) else a[n]
    ensures Tally(b, kind) == Tally(a, kind) + if KindOf(Some(o)) == kind then |hit| else 0
    decreases |a|
  {
    if a == [] {
      assert hit == {};
    } else {
      var last := |a| - 1;
      HitsAreTallied(a[..last], b[..last], hit - {last}, o, kind);
    }
  }

  lemma SettleIsTallied(l: Ledger, session: string, request: Option<string>, o: Outcome, hit: set<nat>, kind: Kind)
    requires Shaped(l) && kind != Open
    requires forall n: nat :: n in hit <==> Selects(l, n, session, request)
    ensures Tally(Settle(l, session, request, o).outcomes, kind) ==
            Tally(l.outcomes, kind) + if KindOf(Some(o)) == kind then |hit| else 0
  {
    HitsAreTallied(l.outcomes, Settle(l, session, request, o).outcomes, hit, o, kind);
  }

  lemma OneIsTallied(l: Ledger, session: string, request: string, o: Outcome, kind: Kind)
    requires Wf(l) && kind != Open
    ensures Tally(Settle(l, session, Some(request), o).outcomes, kind) ==
            Tally(l.outcomes, kind) + if KindOf(Some(o)) == kind && Waiting(l, session, request) then 1 else 0
  {
    if Waiting(l, session, request) {
      var n: nat :| Selects(l, n, session, Some(request));
      SettleIsTallied(l, session, Some(request), o, {n}, kind);
    } else {
      SettleIsTallied(l, session, Some(request), o, {}, kind);
    }
  }

  lemma PurgeIsTallied(l: Ledger, session: string, kind: Kind)
    requires Wf(l) && kind != Open
    ensures Tally(Step(l, Purge(session)).outcomes, kind) ==
            Tally(l.outcomes, kind) + if kind == ByReject then |OpenIn(l, {session})| else 0
  {
    SettleIsTallied(l, session, None, Terminated, OpenIn(l, {session}), kind);
  }

  lemma CapIsTallied(l: Ledger, n: nat, kind: Kind)
    requires Wf(l) && kind != Open && n in l.armed
    ensures Tally(Step(l, CapFires(n, false)).outcomes, kind) ==
            Tally(l.outcomes, kind) + if kind == ByCancel then 1 else 0
  {
    CapReachesItsOwn(l, n);
    HitsAreTallied(l.outcomes, Step(l, CapFires(n, false)).outcomes, {n}, Cancelled, kind);
  }

  lemma StepIsTallied(l: Ledger, op: Op, kind: Kind)
    requires Wf(l) && kind != Open
    ensures Tally(Step(l, op).outcomes, kind) ==
            Tally(l.outcomes, kind) + if Gives(op) == kind then Reaches(l, op) else 0
  {
    match op {
      case Register(s, r) =>
        var free := Settle(l, s, Some(r), Overwritten);
        OneIsTallied(l, s, r, Overwritten, kind);
        assert (free.outcomes + [None])[..|free.outcomes|] == free.outcomes;
      case Resolve(s, r, option) => OneIsTallied(l, s, r, Selected(option), kind);
      case Cancel(s, r) => OneIsTallied(l, s, r, Cancelled, kind);
      case Reject(s, r, error) => OneIsTallied(l, s, r, Failed(error), kind);
      case Purge(s) => PurgeIsTallied(l, s, kind);
      case CapFires(n, handled) =>
        if n in l.armed && !handled {
          CapIsTallied(l, n, kind);
        }
    }
  }

  lemma {:induction false} RunIsTallied(l: Ledger, ops: seq<Op>, kind: Kind)
    requires Wf(l) && kind != Open
    ensures Tally(Run(l, ops).outcomes, kind) == Tally(l.outcomes, kind) + Reached(l, ops, kind)
    decreases |ops|
  {
    if ops != [] {
      StepKeepsWf(l, ops[0]);
      StepIsTallied(l, ops[0], kind);
      RunIsTallied(Step(l, ops[0]), ops[1..], kind);
    }
  }

  /**
   After every run the tallies are what its operations did: answered are the answers that found their
   request open, cancelled the cancellations that did and the caps nobody took over, rejected the
   rejections that did, the collisions and the purged; and what was registered and is none of these is open.
   */
  lemma NoneIsLost(ops: seq<Op>)
    ensures var o := Run(EMPTY, ops).outcomes;
            && Tally(o, ByAnswer) == Reached(EMPTY, ops, ByAnswer)
            && Tally(o, ByCancel) == Reached(EMPTY, ops, ByCancel)
            && Tally(o, ByReject) == Reached(EMPTY, ops, ByReject)
            && Registrations(ops) == Tally(o, ByAnswer) + Tally(o, ByCancel) + Tally(o, ByReject) + Tally(o, Open)
  {
    OnePerRegistration(EMPTY, ops);
    TalliesPartition(Run(EMPTY, ops).outcomes);
    RunIsTallied(EMPTY, ops, ByAnswer);
    RunIsTallied(EMPTY, ops, ByCancel);
    RunIsTallied(EMPTY, ops, ByReject);
  }

  /** As long as no installed handler has taken a cap over, every open request has a timer running. */
  lemma {:induction false} OpenIsArmed(l: Ledger, ops: seq<Op>)
    requires Wf(l) && (forall n: nat :: IsOpen(l, n) ==> n in l.armed)
    requires forall i :: 0 <= i < |ops| ==> !(ops[i].CapFires? && ops[i].handled)
    ensures forall n: nat :: IsOpen(Run(l, ops), n) ==> n in Run(l, ops).armed
    decreases |ops|
  {
    if ops != [] {
      StepKeepsWf(l, ops[0]);
      StepArms(l, ops[0]);
      OpenIsArmed(Step(l, ops[0]), ops[1..]);
    }
  }

  lemma StepArms(l: Ledger, op: Op)
    requires Wf(l) && (forall n: nat :: IsOpen(l, n) ==> n in l.armed) && !(op.CapFires? && op.handled)
    ensures forall n: nat :: IsOpen(Step(l, op), n) ==> n in Step(l, op).armed
  {
  }

  // -------------------------------------------------------------- the table

  type Table = map<string, map<string, nat>>

  function Lookup(t: Table, session: string, request: string): Option<nat> {
    if session in t && request in t[session] then Some(t[session][request]) else None
  }

  ghost predicate NoneEmpty(t: Table) {
    forall s :: s in t ==> t[s] != map[]
  }

  /** The nested map holds exactly the open registrations, and no session without one. */
  ghost predicate Holds(t: Table, l: Ledger)
    requires Shaped(l)
  {
    && NoneEmpty(t)
    && (forall s, r :: Lookup(t, s, r).Some? ==>
        IsOpen(l, Lookup(t, s, r).value) && l.keys[Lookup(t, s, r).value] == (s, r))
    && (forall n: nat :: IsOpen(l, n) ==> Lookup(t, l.keys[n].0, l.keys[n].1) == Some(n))
  }

  function Without(t: Table, session: string, request: string): Table
    requires session in t
  {
    if t[session].Keys == {request} then t - {session} else t[session := t[session] - {request}]
  }

  lemma LookupWithout(t: Table, session: string, request: string)
    requires NoneEmpty(t) && session in t && request in t[session]
    ensures NoneEmpty(Without(t, session, request))
    ensures forall s, r :: Lookup(Without(t, session, request), s, r) ==
              if s == session && r == request then None else Lookup(t, s, r)
  {
    var left := t[session] - {request};
    if t[session].Keys != {request} {
      var other :| other in t[session].Keys && other != request;
      assert other in left;
    }
  }

  lemma OnlyOneLeft(requests: map<string, nat>, request: string)
    requires request in requests
    ensures |requests - {request}| == 0 <==> requests.Keys == {request}
  {
    var left := requests - {request};
    assert left.Keys == requests.Keys - {request};
    if |left| == 0 {
      assert left.Keys == {};
    }
  }

  function With(t: Table, session: string, request: string, n: nat): Table {
    t[session := (if session in t then t[session] else map[])[request := n]]
  }

  lemma LookupWith(t: Table, session: string, request: string, n: nat)
    requires NoneEmpty(t)
    ensures NoneEmpty(With(t, session, request, n))
    ensures forall s, r :: Lookup(With(t, session, request, n), s, r) ==
              if s == session && r == request then Some(n) else Lookup(t, s, r)
  {
    assert request in With(t, session, request, n)[session];
  }

  lemma Overwriting(t: Table, session: string, request: string, n: nat)
    requires session in t && request in t[session]
    ensures With(Without(t, session, request), session, request, n) == With(t, session, request, n)
  {
    var rest := Without(t, session, request);
    assert (if session in rest then rest[session] else map[])[request := n] == t[session][request := n];
  }

  lemma SettlingOne(l: Ledger, n: nat, session: string, request: string, o: Outcome)
    requires Wf(l) && IsOpen(l, n) && l.keys[n] == (session, request)
    ensures Settle(l, session, Some(request), o) == Ledger(l.keys, l.outcomes[n := Some(o)], l.armed - {n})
  {
    var m := Settle(l, session, Some(request), o);
    assert m.outcomes == l.outcomes[n := Some(o)] && m.armed == l.armed - {n};
  }

  lemma RemovingSettles(t: Table, l: Ledger, session: string, request: string, o: Outcome)
    requires Wf(l) && Holds(t, l) && Lookup(t, session, request).Some?
    ensures var n := t[session][request];
            && Selects(l, n, session, Some(request))
            && Settle(l, session, Some(request), o) == Ledger(l.keys, l.outcomes[n := Some(o)], l.armed - {n})
            && Holds(Without(t, session, request), Settle(l, session, Some(request), o))
  {
    var n := Lookup(t, session, request).value;
    SettlingOne(l, n, session, request, o);
    LookupWithout(t, session, request);
    SettleKeepsWf(l, session, Some(request), o);
  }

  lemma NothingToSettle(t: Table, l: Ledger, session: string, request: Option<string>, o: Outcome)
    requires Wf(l) && Holds(t, l)
    requires session !in t || (request.Some? && request.value !in t[session])
    ensures Settle(l, session, request, o) == l
    ensures forall n: nat :: !Selects(l, n, session, request)
  {
    forall n: nat
      ensures !Selects(l, n, session, request)
    {
      assert IsOpen(l, n) ==> Lookup(t, l.keys[n].0, l.keys[n].1) == Some(n);
    }
    var m := Settle(l, session, request, o);
    assert m.outcomes == l.outcomes && m.armed == l.armed;
  }

  lemma AddingOpens(t: Table, l: Ledger, session: string, request: string)
    requires Wf(l) && Holds(t, l) && Lookup(t, session, request).None?
    ensures Holds(With(t, session, request, |l.keys|),
                  Ledger(l.keys + [(session, request)], l.outcomes + [None], l.armed + {|l.keys|}))
  {
    var m := Ledger(l.keys + [(session, request)], l.outcomes + [None], l.armed + {|l.keys|});
    LookupWith(t, session, request, |l.keys|);
    forall n: nat | IsOpen(m, n)
      ensures n == |l.keys| || (IsOpen(l, n) && l.keys[n] == m.keys[n] && l.keys[n] != (session, request))
    {
      assert n < |l.keys| ==> IsOpen(l, n);
    }
    forall n: nat | IsOpen(l, n)
      ensures IsOpen(m, n) && m.keys[n] == l.keys[n]
    {
    }
  }

  lemma SessionEntries(t: Table, l: Ledger, session: string)
    requires Wf(l) && Holds(t, l) && session in t
    ensures forall r :: r in t[session] ==> Selects(l, t[session][r], session, Some(r))
    ensures forall n: nat :: Selects(l, n, session, None) ==> l.keys[n].1 in t[session] && t[session][l.keys[n].1] == n
    ensures forall r, q :: r in t[session] && q in t[session] && t[session][r] == t[session][q] ==> r == q
  {
    forall r | r in t[session]
      ensures Selects(l, t[session][r], session, Some(r))
    {
      assert Lookup(t, session, r) == Some(t[session][r]);
    }
    forall n: nat | Selects(l, n, session, None)
      ensures l.keys[n].1 in t[session] && t[session][l.keys[n].1] == n
    {
      assert Lookup(t, l.keys[n].0, l.keys[n].1) == Some(n);
    }
  }

  lemma NoneOpen(t: Table, l: Ledger, session: string)
    requires Wf(l) && Holds(t, l) && session !in t
    ensures OpenIn(l, {session}) == {}
  {
    assert forall n: nat :: n in OpenIn(l, {session}) <==> Selects(l, n, session, None);
    NothingToSettle(t, l, session, None, Cancelled);
  }

  lemma SessionSize(t: Table, l: Ledger, session: string)
    requires Wf(l) && Holds(t, l) && session in t
    ensures |t[session]| == |OpenIn(l, {session})|
  {
    var reqs := t[session];
    SessionEntries(t, l, session);
    assert forall n: nat :: n in OpenIn(l, {session}) <==> Selects(l, n, session, None);
    assert OpenIn(l, {session}) == set r | r in reqs :: reqs[r];
    SameSize(reqs, reqs.Keys, OpenIn(l, {session}));
  }

  lemma {:induction false} SameSize(reqs: map<string, nat>, requests: set<string>, numbers: set<nat>)
    requires requests <= reqs.Keys && numbers == set r | r in requests :: reqs[r]
    requires forall r, q :: r in reqs && q in reqs && reqs[r] == reqs[q] ==> r == q
    ensures |requests| == |numbers|
    decreases |requests|
  {
    if requests != {} {
      var r :| r in requests;
      SameSize(reqs, requests - {r}, numbers - {reqs[r]});
    }
  }

  lemma {:induction false} OpenTally(l: Ledger, k: nat)
    requires Shaped(l) && k <= |l.outcomes|
    ensures Tally(l.outcomes[..k], Open) == |set n: nat | n < k && IsOpen(l, n)|
  {
    if k > 0 {
      OpenTally(l, k - 1);
      assert l.outcomes[..k][..k - 1] == l.outcomes[..k - 1];
      var before := set n: nat | n < k - 1 && IsOpen(l, n);
      var now := set n: nat | n < k && IsOpen(l, n);
      assert now == if IsOpen(l, k - 1) then before + {k - 1} else before;
    }
  }

  lemma OneMoreSession(l: Ledger, sessions: set<string>, session: string)
    requires Shaped(l) && session !in sessions
    ensures |OpenIn(l, sessions + {session})| == |OpenIn(l, sessions)| + |OpenIn(l, {session})|
  {
    assert OpenIn(l, sessions + {session}) == OpenIn(l, sessions) + OpenIn(l, {session});
    assert OpenIn(l, sessions) !! OpenIn(l, {session});
  }

  lemma AllOpen(t: Table, l: Ledger)
    requires Wf(l) && Holds(t, l)
    ensures |OpenIn(l, t.Keys)| == Tally(l.outcomes, Open)
  {
    OpenTally(l, |l.outcomes|);
    assert l.outcomes[..|l.outcomes|] == l.outcomes;
    assert OpenIn(l, t.Keys) == set n: nat | n < |l.outcomes| && IsOpen(l, n);
  }

  class PendingPermissions {
    var sessions: Table
    var keys: seq<(string, string)>
    var armed: set<nat>
    var capHandler: bool
    ghost var outcomes: seq<Option<Outcome>>

    ghost function State(): Ledger
      reads this
    {
      Ledger(keys, outcomes, armed)
    }

    ghost predicate Valid()
      reads this
    {
      Wf(State()) && Holds(sessions, State())
    }

    constructor (capHandler: bool)
      ensures Valid() && State() == EMPTY
    {
      sessions, keys, armed, this.capHandler, outcomes := map[], [], {}, capHandler, [];
    }

    method SetCapHandler()
      requires Valid()
      modifies this`capHandler
      ensures Valid() && capHandler
    {
      capHandler := true;
    }

    /** The deferred reply is used; it must not have been used before. */
    ghost method Deliver(n: nat, o: Outcome)
      requires n < |outcomes| && outcomes[n].None?
      modifies this`outcomes
      ensures outcomes == old(outcomes)[n := Some(o)]
    {
      outcomes := outcomes[n := Some(o)];
    }

    method Evict(session: string, request: string) returns (entry: Option<nat>)
      requires Valid()
      modifies this`sessions, this`armed
      ensures entry.Some? <==> session in old(sessions) && request in old(sessions)[session]
      ensures entry.None? ==> sessions == old(sessions) && armed == old(armed)
      ensures entry.Some? ==>
                && entry.value == old(sessions)[session][request]
                && sessions == Without(old(sessions), session, request) && armed == old(armed) - {entry.value}
    {
      if session !in sessions || request !in sessions[session] {
        return None;
      }
      var n := sessions[session][request];
      var rest := sessions[session] - {request};
      OnlyOneLeft(sessions[session], request);
      sessions := if |rest| == 0 then sessions - {session} else sessions[session := rest];
      armed := armed - {n};
      return Some(n);
    }

    /** Resolve, cancel and reject differ only in what the deferred reply is given. */
    method Answer(session: string, request: string, o: Outcome) returns (ok: bool)
      requires Valid()
      modifies this`sessions, this`armed, this`outcomes
      ensures Valid() && State() == Settle(old(State()), session, Some(request), o)
      ensures ok <==> old(Waiting(State(), session, request))
    {
      ghost var before, table := State(), sessions;
      SettleKeepsWf(before, session, Some(request), o);
      var entry := Evict(session, request);
      if entry.None? {
        NothingToSettle(table, before, session, Some(request), o);
        return false;
      }
      RemovingSettles(table, before, session, request, o);
      assert Selects(before, entry.value, session, Some(request));
      Deliver(entry.value, o);
      return true;
    }

    method ResolveRequest(session: string, request: string, option: string) returns (ok: bool)
      requires Valid()
      modifies this`sessions, this`armed, this`outcomes
      ensures Valid() && State() == Step(old(State()), Resolve(session, request, option))
      ensures ok <==> old(Waiting(State(), session, request))
    {
      ok := Answer(session, request, Selected(option));
    }

    method CancelRequest(session: string, request: string) returns (ok: bool)
      requires Valid()
      modifies this`sessions, this`armed, this`outcomes
      ensures Valid() && State() == Step(old(State()), Cancel(session, request))
      ensures ok <==> old(Waiting(State(), session, request))
    {
      ok := Answer(session, request, Cancelled);
    }

    method RejectRequest(session: string, request: string, error: string) returns (ok: bool)
      requires Valid()
      modifies this`sessions, this`armed, this`outcomes
      ensures Valid() && State() == Step(old(State()), Reject(session, request, error))
      ensures ok <==> old(Waiting(State(), session, request))
    {
      ok := Answer(session, request, Failed(error));
    }

    method RegisterRequest(session: string, request: string)
      requires Valid()
      modifies this`sessions, this`armed, this`keys, this`outcomes
      ensures Valid() && State() == Step(old(State()), Register(session, request))
    {
      ghost var before := State();
      StepKeepsWf(before, Register(session, request));
      ghost var free := Settle(before, session, Some(request), Overwritten);
      ghost var rest := sessions;
      SettleKeepsWf(before, session, Some(request), Overwritten);
      var bySession: map<string, nat> := if session in sessions then sessions[session] else map[];
      if request in bySession {
        RemovingSettles(sessions, before, session, request, Overwritten);
        rest := Without(sessions, session, request);
        LookupWithout(sessions, session, request);
        Overwriting(sessions, session, request, |keys|);
        armed := armed - {bySession[request]};
        Deliver(bySession[request], Overwritten);
      } else {
        NothingToSettle(sessions, before, session, Some(request), Overwritten);
      }
      AddingOpens(rest, free, session, request);
      armed := armed + {|keys|};
      sessions := sessions[session := bySession[request := |keys|]];
      keys := keys + [(session, request)];
      outcomes := outcomes + [None];
    }

    /** The timer of a registration goes off, once. */
    method FireCap(number: nat)
      requires Valid() && number in armed
      modifies this`sessions, this`armed, this`outcomes
      ensures Valid() && State() == Step(old(State()), CapFires(number, capHandler))
    {
      ghost var before := State();
      StepKeepsWf(before, CapFires(number, capHandler));
      armed := armed - {number};
      var key := keys[number];
      assert IsOpen(before, number) && Lookup(sessions, key.0, key.1) == Some(number);
      if key.0 in sessions && key.1 in sessions[key.0] {
        if capHandler {
          return;
        }
        var ok := Answer(key.0, key.1, Cancelled);
      }
    }

    method TotalSize() returns (total: nat)
      requires Valid()
      ensures total == Tally(outcomes, Open)
    {
      total := 0;
      var left := sessions.Keys;
      while left != {}
        invariant left <= sessions.Keys
        invariant total == |OpenIn(State(), sessions.Keys - left)|
        decreases |left|
      {
        var s :| s in left;
        SessionSize(sessions, State(), s);
        OneMoreSession(State(), sessions.Keys - left, s);
        assert sessions.Keys - (left - {s}) == sessions.Keys - left + {s};
        total := total + |sessions[s]|;
        left := left - {s};
      }
      assert sessions.Keys - left == sessions.Keys;
      AllOpen(sessions, State());
    }

    method Size(session: string) returns (size: nat)
      requires Valid()
      ensures size == |OpenIn(State(), {session})|
    {
      if session in sessions {
        SessionSize(sessions, State(), session);
        return |sessions[session]|;
      }
      NoneOpen(sessions, State(), session);
      return 0;
    }

    /** The open requests of a session, each once. */
    method RequestIds(session: string) returns (ids: seq<string>)
      requires Valid()
      ensures forall r :: r in ids <==> exists n: nat :: Selects(State(), n, session, Some(r))
      ensures forall i, j :: 0 <= i < j < |ids| ==> ids[i] != ids[j]
    {
      ids := [];
      if session !in sessions {
        forall r
          ensures !exists n: nat :: Selects(State(), n, session, Some(r))
        {
          NothingToSettle(sessions, State(), session, Some(r), Cancelled);
        }
        return;
      }
      var left := sessions[session].Keys;
      while left != {}
        invariant left <= sessions[session].Keys
        invariant forall r :: r in ids <==> r in sessions[session] && r !in left
        invariant forall i, j :: 0 <= i < j < |ids| ==> ids[i] != ids[j]
        decreases |left|
      {
        var r :| r in left;
        ids := ids + [r];
        left := left - {r};
      }
      SessionEntries(sessions, State(), session);
      forall r
        ensures r in ids <==> exists n: nat :: Selects(State(), n, session, Some(r))
      {
        if r in ids {
          assert Selects(State(), sessions[session][r], session, Some(r));
        }
        assert forall n: nat :: Selects(State(), n, session, Some(r)) ==> Selects(State(), n, session, None);
      }
    }

    /** Reject every request of a session that is going away. */
    method RejectAll(bySession: map<string, nat>)
      requires Shaped(State()) && Entries(State(), bySession)
      modifies this`armed, this`outcomes
      ensures Shaped(State()) && Purged(old(State()), State(), bySession, {})
    {
      ghost var before := State();
      var left := bySession.Keys;
      while left != {}
        invariant left <= bySession.Keys && Shaped(State())
        invariant Purged(before, State(), bySession, left)
        decreases |left|
      {
        var r :| r in left;
        PurgeOne(before, State(), bySession, left, r);
        armed := armed - {bySession[r]};
        Deliver(bySession[r], Terminated);
        left := left - {r};
      }
    }

    method PurgeSession(session: string)
      requires Valid()
      modifies this`sessions, this`armed, this`outcomes
      ensures Valid() && State() == Step(old(State()), Purge(session))
    {
      ghost var before, table := State(), sessions;
      if session !in sessions {
        NothingToSettle(sessions, before, session, None, Terminated);
        return;
      }
      SessionEntries(sessions, before, session);
      RejectAll(sessions[session]);
      sessions := sessions - {session};
      PurgeSettles(table, before, session, State());
    }
  }

  /** Terminated are the requests of a session but those that are left; nothing else has changed. */
  ghost predicate Purged(l: Ledger, m: Ledger, requests: map<string, nat>, left: set<string>)
    requires Shaped(l)
  {
    && m.keys == l.keys && |m.outcomes| == |l.outcomes| && m.armed <= l.armed
    && (forall r :: r in requests && r !in left ==>
        requests[r] < |m.outcomes| && m.outcomes[requests[r]] == Some(Terminated) && requests[r] !in m.armed)
    && (forall n: nat :: n < |m.outcomes|
                         && (IsOpen(l, n) ==>
                               l.keys[n].1 !in requests || requests[l.keys[n].1] != n || l.keys[n].1 in left) ==>
          m.outcomes[n] == l.outcomes[n] && (n in l.armed ==> n in m.armed))
  }

  /** Different open registrations, each under its own request. */
  ghost predicate Entries(l: Ledger, requests: map<string, nat>)
    requires Shaped(l)
  {
    && (forall r :: r in requests ==> IsOpen(l, requests[r]) && l.keys[requests[r]].1 == r)
    && (forall r, q :: r in requests && q in requests && requests[r] == requests[q] ==> r == q)
  }

  lemma PurgeOne(l: Ledger, m: Ledger, requests: map<string, nat>, left: set<string>, r: string)
    requires Shaped(l) && Entries(l, requests) && Purged(l, m, requests, left) && r in left && r in requests
    ensures IsOpen(m, requests[r])
    ensures Purged(l, Ledger(m.keys, m.outcomes[requests[r] := Some(Terminated)], m.armed - {requests[r]}), requests,
                   left - {r})
  {
    var n := requests[r];
    assert m.outcomes[n] == l.outcomes[n];
    assert forall q :: q in requests && q != r ==> requests[q] != n;
  }

  lemma PurgeSettles(t: Table, l: Ledger, session: string, m: Ledger)
    requires Wf(l) && Holds(t, l) && session in t && Purged(l, m, t[session], {})
    ensures m == Settle(l, session, None, Terminated)
    ensures Wf(m) && Holds(t - {session}, m)
  {
    var settled := Settle(l, session, None, Terminated);
    SettleKeepsWf(l, session, None, Terminated);
    SessionEntries(t, l, session);
    forall n: nat | n < |m.outcomes|
      ensures m.outcomes[n] == settled.outcomes[n] && (n in m.armed <==> n in settled.armed)
    {
      if Selects(l, n, session, None) {
        assert t[session][l.keys[n].1] == n;
      } else if IsOpen(l, n) && l.keys[n].1 in t[session] {
        assert Selects(l, t[session][l.keys[n].1], session, Some(l.keys[n].1));
      }
    }
    assert m.outcomes == settled.outcomes && m.armed == settled.armed;
    assert forall s, r :: Lookup(t - {session}, s, r) == if s == session then None else Lookup(t, s, r);
  }
}
