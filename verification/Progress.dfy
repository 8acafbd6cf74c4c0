/**
 The no-progress guardrail. The machine folds one notification at a time into a bounded state;
 beside it stands an account of the same session read off its whole history.
 */
module Progress {
  import opened Wrappers

  const MAX_EVIDENCE: nat := 4096
  const RECENT: nat := 10

  const WRITE_KINDS: set<string> := {"edit", "write", "create", "delete", "move"}
  const READ_KINDS: set<string> := {"read", "search", "fetch", "execute", "other", "think"}

  /** A SHA-256 digest of the canonical text of what was sent. */
  type Digest = string

  /** One tool notification; an absent, empty or non-string id is "" and an empty value has no digest. */
  datatype Update = Update(
    id: string, kind: Option<string>, status: string,
    rawInput: Option<Digest>, locations: Option<Digest>, rawOutput: Option<Digest>, content: Option<Digest>)

  datatype Event = Tool(update: Update) | Unrelated | TurnEnd

  datatype Evidence = Evidence(kind: string, request: Option<Digest>, result: Option<Digest>)

  datatype Fingerprint = Mutation(digest: Digest) | Result(digest: Digest) | Request(kind: string, digest: Digest)

  datatype Reason = Status(status: string) | NewEvidence | MissingEvidence | UnchangedEvidence

  datatype Operation = Operation(id: string, kind: string, status: string, progress: bool, reason: Reason)

  datatype State = State(
    pending: map<string, Evidence>, settled: set<string>, cohort: Option<set<string>>, evidence: set<Fingerprint>,
    counted: nat, turnsSinceProgress: nat, resets: nat, ignored: nat, recent: seq<Operation>)

  const INITIAL := State(map[], {}, None, {}, 0, 0, 0, 0, [])

  function Or<T>(first: Option<T>, second: Option<T>): Option<T> {
    if first.Some? then first else second
  }

  predicate Terminal(status: string) {
    status == "completed" || status == "failed" || status == "cancelled"
  }

  function MergeEvidence(previous: Option<Evidence>, u: Update): Evidence {
    Evidence(
      if u.kind.Some? then u.kind.value else if previous.Some? then previous.value.kind else "unknown",
      Or(u.rawInput, Or(u.locations, if previous.Some? then previous.value.request else None)),
      Or(u.rawOutput, Or(u.content, if previous.Some? then previous.value.result else None)))
  }

  /** What a settled tool would be credited for. */
  function FingerprintOf(tool: Evidence): Option<Fingerprint> {
    if tool.kind in WRITE_KINDS then (if tool.request.Some? then Some(Mutation(tool.request.value)) else None)
    else if tool.kind in READ_KINDS && tool.result.Some? then Some(Result(tool.result.value))
    else None
  }

  /** An investigation must also ask something new. */
  function InvestigationOf(tool: Evidence): Option<Fingerprint> {
    if tool.kind !in WRITE_KINDS && tool.request.Some? then Some(Request(tool.kind, tool.request.value)) else None
  }

  predicate IsProgress(evidence: set<Fingerprint>, tool: Evidence, status: string) {
    && status == "completed"
    && FingerprintOf(tool).Some? && FingerprintOf(tool).value !in evidence
    && |evidence| < MAX_EVIDENCE
    && (tool.kind in WRITE_KINDS || (InvestigationOf(tool).Some? && InvestigationOf(tool).value !in evidence))
  }

  function Credit(evidence: set<Fingerprint>, tool: Evidence): set<Fingerprint>
    requires FingerprintOf(tool).Some?
  {
    evidence + {FingerprintOf(tool).value} + (if InvestigationOf(tool).Some? then {InvestigationOf(tool).value} else {})
  }

  function NoProgressTick(turns: nat, progress: bool, maxTurns: int): (nat, bool) {
    if progress then (0, false) else (turns + 1, turns + 1 >= maxTurns)
  }

  function LastTen(ops: seq<Operation>): seq<Operation> {
    if |ops| <= RECENT then ops else ops[|ops| - RECENT..]
  }

  function ReasonFor(tool: Evidence, status: string, progress: bool): Reason {
    if status != "completed" then Status(status)
    else if progress then NewEvidence
    else if FingerprintOf(tool).None? then MissingEvidence
    else UnchangedEvidence
  }

  function Settle(previous: State, id: string, tool: Evidence, status: string, maxTurns: int): (State, bool) {
    var pending := previous.pending - {id};
    var progress := IsProgress(previous.evidence, tool, status);
    var tick := NoProgressTick(previous.turnsSinceProgress, progress, maxTurns);
    var cohort :=
      if progress then None
      else if previous.cohort.Some? then Some(previous.cohort.value - {id})
      else if tick.1 then Some(pending.Keys - {id})
      else None;
    var state := State(
      pending, previous.settled + {id}, cohort,
      if progress then Credit(previous.evidence, tool) else previous.evidence,
      previous.counted + 1, tick.0, previous.resets + (if progress then 1 else 0), previous.ignored,
      LastTen(previous.recent + [Operation(id, tool.kind, status, progress, ReasonFor(tool, status, progress))]));
    (state, tick.1 && ((cohort.Some? && cohort.value == {}) || tick.0 >= maxTurns * 2))
  }

  function AccountProgress(previous: State, u: Update, maxTurns: int): (State, bool) {
    if u.id == "" || u.id in previous.settled then (previous.(ignored := previous.ignored + 1), false)
    else
      var tool := MergeEvidence(if u.id in previous.pending then Some(previous.pending[u.id]) else None, u);
      if !Terminal(u.status) then (previous.(pending := previous.pending[u.id := tool]), false)
      else Settle(previous, u.id, tool, u.status, maxTurns)
  }

  function FinishProgressTurn(s: State): State {
    s.(pending := map[], cohort := None, settled := s.settled + s.pending.Keys)
  }

  /** One event: the new state, and whether the guardrail trips. */
  function Step(s: State, e: Event, maxTurns: int): (State, bool) {
    match e
    case Unrelated => (s, false)
    case Tool(u) => AccountProgress(s, u, maxTurns)
    case TurnEnd => (FinishProgressTurn(s), false)
  }

  function After(h: seq<Event>, maxTurns: int): State {
    if h == [] then INITIAL else Step(After(h[..|h| - 1], maxTurns), h[|h| - 1], maxTurns).0
  }

  /** The last event of the history trips the guardrail. */
  predicate Trips(h: seq<Event>, maxTurns: int) {
    h != [] && Step(After(h[..|h| - 1], maxTurns), h[|h| - 1], maxTurns).1
  }

  predicate Untripped(h: seq<Event>, maxTurns: int) {
    h == [] || (!Trips(h, maxTurns) && Untripped(h[..|h| - 1], maxTurns))
  }

  // -------------------------------------- the session read off its history

  predicate Names(e: Event, id: string) {
    e.Tool? && e.update.id == id
  }

  predicate Mentioned(h: seq<Event>, id: string) {
    h != [] && (Names(h[|h| - 1], id) || Mentioned(h[..|h| - 1], id))
  }

  /** The tool has reported an outcome, or its turn ended without one. */
  predicate Closed(h: seq<Event>, id: string) {
    if h == [] then false
    else
      var before, last := h[..|h| - 1], h[|h| - 1];
      || Closed(before, id)
      || (Names(last, id) && Terminal(last.update.status))
      || (last.TurnEnd? && Mentioned(before, id))
  }

  predicate InFlight(h: seq<Event>, id: string) {
    id != "" && Mentioned(h, id) && !Closed(h, id)
  }

  /** The last kind, request and result that were ever sent for a tool. */
  function Latest(h: seq<Event>, id: string): Evidence {
    if h == [] then Evidence("unknown", None, None)
    else
      var before, last := Latest(h[..|h| - 1], id), h[|h| - 1];
      if Names(last, id) then
        var u := last.update;
        Evidence(if u.kind.Some? then u.kind.value else before.kind,
                 Or(u.rawInput, Or(u.locations, before.request)), Or(u.rawOutput, Or(u.content, before.result)))
      else before
  }

  datatype Settlement = Settlement(id: string, tool: Evidence, status: string, progress: bool)

  /** The last event is the first report of an outcome for a tool still in flight or never seen. */
  predicate Settles(h: seq<Event>) {
    && h != [] && h[|h| - 1].Tool?
    && var u := h[|h| - 1].update;
    u.id != "" && Terminal(u.status) && !Closed(h[..|h| - 1], u.id)
  }

  /** All outcomes in order, each judged against what earlier ones were credited for. */
  function Log(h: seq<Event>): seq<Settlement> {
    if h == [] then []
    else
      var before := Log(h[..|h| - 1]);
      if Settles(h) then
        var u := h[|h| - 1].update;
        var tool := Latest(h, u.id);
        before + [Settlement(u.id, tool, u.status, IsProgress(Credited(before), tool, u.status))]
      else before
  }

  function Credited(log: seq<Settlement>): set<Fingerprint> {
    if log == [] then {}
    else
      var before, last := Credited(log[..|log| - 1]), log[|log| - 1];
      if last.progress && FingerprintOf(last.tool).Some? then Credit(before, last.tool) else before
  }

  function Credits(log: seq<Settlement>): nat {
    if log == [] then 0 else Credits(log[..|log| - 1]) + (if log[|log| - 1].progress then 1 else 0)
  }

  /** How many outcomes at the end of the log made no progress. */
  function Streak(log: seq<Settlement>): nat {
    if log == [] || log[|log| - 1].progress then 0 else 1 + Streak(log[..|log| - 1])
  }

  function Diagnosis(log: seq<Settlement>): seq<Operation> {
    if log == [] then []
    else
      var s := log[|log| - 1];
      Diagnosis(log[..|log| - 1])
        + [Operation(s.id, s.tool.kind, s.status, s.progress, ReasonFor(s.tool, s.status, s.progress))]
  }

  /** Notifications without a usable id, and those that come after their tool was closed. */
  function Ignored(h: seq<Event>): nat {
    if h == [] then 0
    else
      var before, last := h[..|h| - 1], h[|h| - 1];
      Ignored(before) + (if last.Tool? && (last.update.id == "" || Closed(before, last.update.id)) then 1 else 0)
  }

  // ----------------------------------------------------------- agreement

  /** The tables of open and settled tools are those of the history. */
  ghost predicate Tables(s: State, h: seq<Event>) {
    && (forall id :: id in s.pending <==> InFlight(h, id))
    && (forall id :: id in s.pending ==> s.pending[id] == Latest(h, id))
    && (forall id :: id in s.settled <==> id != "" && Closed(h, id))
  }

  /** The counters, the novelty memory and the diagnostics are those of the log. */
  ghost predicate Counters(s: State, log: seq<Settlement>) {
    && s.counted == |log| && s.turnsSinceProgress == Streak(log) && s.resets == Credits(log)
    && s.evidence == Credited(log) && s.recent == LastTen(Diagnosis(log))
  }

  lemma {:induction false} ClosedIsMentioned(h: seq<Event>, id: string)
    requires Closed(h, id)
    ensures Mentioned(h, id)
  {
    var before, last := h[..|h| - 1], h[|h| - 1];
    if Closed(before, id) {
      ClosedIsMentioned(before, id);
    }
  }

  lemma {:induction false} UnmentionedIsUnknown(h: seq<Event>, id: string)
    requires !Mentioned(h, id)
    ensures Latest(h, id) == Evidence("unknown", None, None)
  {
    if h != [] {
      UnmentionedIsUnknown(h[..|h| - 1], id);
    }
  }

  /** What the machine merges for a tool that is not settled is what was last sent for it. */
  lemma MergedIsLatest(s: State, h: seq<Event>, u: Update)
    requires Tables(s, h) && u.id != "" && u.id !in s.settled
    ensures MergeEvidence(if u.id in s.pending then Some(s.pending[u.id]) else None, u) == Latest(h + [Tool(u)], u.id)
  {
    assert (h + [Tool(u)])[..|h|] == h;
    if u.id !in s.pending {
      UnmentionedIsUnknown(h, u.id);
    }
  }

  lemma HistoryAfter(h: seq<Event>, e: Event, id: string)
    ensures Mentioned(h + [e], id) == (Names(e, id) || Mentioned(h, id))
    ensures Closed(h + [e], id) ==
            (Closed(h, id) || (Names(e, id) && Terminal(e.update.status)) || (e.TurnEnd? && Mentioned(h, id)))
    ensures !Names(e, id) ==> Latest(h + [e], id) == Latest(h, id)
  {
    assert (h + [e])[..|h|] == h;
  }

  lemma StepTables(s: State, h: seq<Event>, e: Event, maxTurns: int)
    requires Tables(s, h)
    ensures Tables(Step(s, e, maxTurns).0, h + [e])
  {
    var t := Step(s, e, maxTurns).0;
    if e.Tool? && e.update.id != "" && e.update.id !in s.settled {
      MergedIsLatest(s, h, e.update);
    }
    forall id
      ensures id in t.pending <==> InFlight(h + [e], id)
      ensures id in t.pending ==> t.pending[id] == Latest(h + [e], id)
      ensures id in t.settled <==> id != "" && Closed(h + [e], id)
    {
      HistoryAfter(h, e, id);
      if Closed(h, id) {
        ClosedIsMentioned(h, id);
      }
    }
  }

  lemma LogAfter(h: seq<Event>, e: Event)
    ensures Log(h + [e]) ==
            if Settles(h + [e]) then
              var tool := Latest(h + [e], e.update.id);
              Log(h) + [Settlement(e.update.id, tool, e.update.status,
                                   IsProgress(Credited(Log(h)), tool, e.update.status))]
            else Log(h)
  {
    assert (h + [e])[..|h|] == h;
  }

  lemma LastTenSlides(ops: seq<Operation>, op: Operation)
    ensures LastTen(LastTen(ops) + [op]) == LastTen(ops + [op])
  {
  }

  lemma CountersAfter(s: State, log: seq<Settlement>, id: string, tool: Evidence, status: string, maxTurns: int)
    requires Counters(s, log)
    ensures Counters(Settle(s, id, tool, status, maxTurns).0,
                     log + [Settlement(id, tool, status, IsProgress(Credited(log), tool, status))])
  {
    var progress := IsProgress(Credited(log), tool, status);
    var entry := Settlement(id, tool, status, progress);
    assert (log + [entry])[..|log|] == log;
    LastTenSlides(Diagnosis(log), Operation(id, tool.kind, status, progress, ReasonFor(tool, status, progress)));
  }

  /** One event keeps the machine in step with the history, and counts exactly the settlements. */
  lemma StepAgrees(s: State, h: seq<Event>, e: Event, maxTurns: int)
    requires Tables(s, h) && Counters(s, Log(h))
    ensures Counters(Step(s, e, maxTurns).0, Log(h + [e]))
    ensures Step(s, e, maxTurns).0.ignored - s.ignored == Ignored(h + [e]) - Ignored(h)
    ensures !Settles(h + [e]) ==> !Step(s, e, maxTurns).1
  {
    LogAfter(h, e);
    assert (h + [e])[..|h|] == h;
    if Settles(h + [e]) {
      MergedIsLatest(s, h, e.update);
      CountersAfter(s, Log(h), e.update.id, Latest(h + [e], e.update.id), e.update.status, maxTurns);
    }
  }

  /**
   The bounded state is exact. After any history: the open tools and what they were last said to be
   about, the tools that cannot be counted again, the counters, the novelty memory and the last ten
   diagnostics are all those of the history, whatever the threshold.
   */
  lemma {:induction false} StateIsExact(h: seq<Event>, maxTurns: int)
    ensures Tables(After(h, maxTurns), h)
    ensures Counters(After(h, maxTurns), Log(h))
    ensures After(h, maxTurns).ignored == Ignored(h)
  {
    if h != [] {
      var before, last := h[..|h| - 1], h[|h| - 1];
      StateIsExact(before, maxTurns);
      assert before + [last] == h;
      StepTables(After(before, maxTurns), before, last, maxTurns);
      StepAgrees(After(before, maxTurns), before, last, maxTurns);
    }
  }

  // ------------------------------------------------------------ main results

  /** No tool id is counted twice, however often and in whatever order its updates arrive. */
  lemma {:induction false} NoIdIsCountedTwice(h: seq<Event>)
    ensures forall i :: 0 <= i < |Log(h)| ==> Closed(h, Log(h)[i].id)
    ensures forall i, j :: 0 <= i < j < |Log(h)| ==> Log(h)[i].id != Log(h)[j].id
  {
    if h != [] {
      NoIdIsCountedTwice(h[..|h| - 1]);
    }
  }

  /** Memory of credits is exact and bounded: every credit is new, and the last is given below the cap. */
  lemma {:induction false} CreditsAreBounded(h: seq<Event>)
    ensures Credits(Log(h)) <= |Credited(Log(h))|
    ensures Credits(Log(h)) <= MAX_EVIDENCE
  {
    if h != [] {
      var before, last := h[..|h| - 1], h[|h| - 1];
      CreditsAreBounded(before);
      assert before + [last] == h;
      LogAfter(before, last);
      if Settles(h) {
        CreditGrows(Log(before), Log(h)[|Log(before)|]);
      }
    }
  }

  lemma CreditGrows(log: seq<Settlement>, entry: Settlement)
    requires entry.progress == IsProgress(Credited(log), entry.tool, entry.status)
    ensures Credits(log + [entry]) == Credits(log) + (if entry.progress then 1 else 0)
    ensures |Credited(log + [entry])| >= |Credited(log)| + (if entry.progress then 1 else 0)
    ensures Credited(log) <= Credited(log + [entry])
    ensures entry.progress ==> |Credited(log)| < MAX_EVIDENCE && FingerprintOf(entry.tool).value !in Credited(log)
    ensures entry.progress ==> FingerprintOf(entry.tool).value in Credited(log + [entry])
  {
    assert (log + [entry])[..|log|] == log;
    if entry.progress {
      var held, grown := Credited(log), Credited(log) + {FingerprintOf(entry.tool).value};
      assert |grown| == |held| + 1;
      Larger(grown, Credited(log + [entry]));
    }
  }

  lemma Larger(a: set<Fingerprint>, b: set<Fingerprint>)
    requires a <= b
    ensures |a| <= |b|
  {
    assert b == a + (b - a);
  }

  ghost predicate GivenOnce(log: seq<Settlement>) {
    && (forall i :: 0 <= i < |log| && log[i].progress ==>
          FingerprintOf(log[i].tool).Some? && FingerprintOf(log[i].tool).value in Credited(log))
    && (forall i, j :: 0 <= i < j < |log| && log[i].progress && log[j].progress ==>
          FingerprintOf(log[i].tool) != FingerprintOf(log[j].tool))
  }

  lemma OneMoreIsGivenOnce(log: seq<Settlement>, entry: Settlement)
    requires GivenOnce(log) && entry.progress == IsProgress(Credited(log), entry.tool, entry.status)
    ensures GivenOnce(log + [entry])
  {
    CreditGrows(log, entry);
    var longer := log + [entry];
    forall i | 0 <= i < |log| && longer[i].progress
      ensures FingerprintOf(longer[i].tool).Some? && FingerprintOf(longer[i].tool).value in Credited(longer)
      ensures entry.progress ==> FingerprintOf(longer[i].tool) != FingerprintOf(entry.tool)
    {
      assert longer[i] == log[i];
    }
  }

  /** An operation that repeats what an earlier one was credited for is never credited again. */
  lemma {:induction false} CreditIsGivenOnce(h: seq<Event>)
    ensures GivenOnce(Log(h))
  {
    if h != [] {
      var before, last := h[..|h| - 1], h[|h| - 1];
      CreditIsGivenOnce(before);
      assert before + [last] == h;
      LogAfter(before, last);
      if Settles(h) {
        OneMoreIsGivenOnce(Log(before), Log(h)[|Log(before)|]);
      }
    }
  }

  lemma SettleTrips(s: State, id: string, tool: Evidence, status: string, maxTurns: int)
    ensures var r := Settle(s, id, tool, status, maxTurns);
            r.1 <==>
              && !IsProgress(s.evidence, tool, status) && s.turnsSinceProgress + 1 >= maxTurns
              && (r.0.cohort == Some({}) || s.turnsSinceProgress + 1 >= maxTurns * 2)
  {
  }

  lemma StreakAfter(log: seq<Settlement>, entry: Settlement)
    ensures Streak(log + [entry]) == if entry.progress then 0 else Streak(log) + 1
  {
    assert (log + [entry])[..|log|] == log;
  }

  /** Exactly when the guardrail trips, for any threshold. */
  lemma TripsExactly(h: seq<Event>, maxTurns: int)
    ensures Trips(h, maxTurns) <==>
              && Settles(h) && !Log(h)[|Log(h)| - 1].progress && Streak(Log(h)) >= maxTurns
              && (After(h, maxTurns).cohort == Some({}) || Streak(Log(h)) >= maxTurns * 2)
  {
    if h != [] {
      var before, last := h[..|h| - 1], h[|h| - 1];
      var s := After(before, maxTurns);
      StateIsExact(before, maxTurns);
      assert before + [last] == h;
      LogAfter(before, last);
      if Settles(h) {
        var u := last.update;
        MergedIsLatest(s, before, u);
        SettleTrips(s, u.id, Latest(h, u.id), u.status, maxTurns);
        StreakAfter(Log(before), Log(h)[|Log(before)|]);
      } else {
        StepAgrees(s, before, last, maxTurns);
      }
    }
  }

  lemma {:induction false} StreakIsUnproductive(log: seq<Settlement>)
    ensures Streak(log) <= |log|
    ensures forall i :: |log| - Streak(log) <= i < |log| ==> !log[i].progress
  {
    if log != [] && !log[|log| - 1].progress {
      StreakIsUnproductive(log[..|log| - 1]);
    }
  }

  /** A trip means that at least the last maxTurns counted operations made no progress. */
  lemma TripMeansNoProgress(h: seq<Event>, maxTurns: int)
    requires Trips(h, maxTurns)
    ensures maxTurns <= |Log(h)|
    ensures forall i :: 0 <= i < |Log(h)| && |Log(h)| - maxTurns <= i ==> !Log(h)[i].progress
  {
    TripsExactly(h, maxTurns);
    StreakIsUnproductive(Log(h));
  }

  /** One more outcome: a credit pays for the streak before it. */
  lemma OneMoreOutcome(log: seq<Settlement>, entry: Settlement, each: nat)
    requires |log| <= Credits(log) * each + Streak(log) && Streak(log) < each
    ensures |log + [entry]| <= Credits(log + [entry]) * each + Streak(log + [entry])
  {
    assert (log + [entry])[..|log|] == log;
    StreakAfter(log, entry);
    if entry.progress {
      OneMoreCredit(Credits(log), each);
    }
  }

  lemma OneMoreCredit(credits: nat, each: nat)
    ensures (credits + 1) * each == credits * each + each
  {
  }

  /** An untripped session has fewer than 2 * maxTurns unproductive operations between credits. */
  lemma {:induction false} UntrippedIsShort(h: seq<Event>, maxTurns: int, each: nat)
    requires maxTurns >= 1 && each == 2 * maxTurns && Untripped(h, maxTurns)
    ensures Streak(Log(h)) < each
    ensures |Log(h)| <= Credits(Log(h)) * each + Streak(Log(h))
  {
    if h != [] {
      var before, last := h[..|h| - 1], h[|h| - 1];
      UntrippedIsShort(before, maxTurns, each);
      TripsExactly(h, maxTurns);
      assert before + [last] == h;
      LogAfter(before, last);
      if Settles(h) {
        OneMoreOutcome(Log(before), Log(h)[|Log(before)|], each);
        StreakAfter(Log(before), Log(h)[|Log(before)|]);
      }
    }
  }

  /**
   The bound on an unproductive session: while it has not tripped, at most 4096 operations were
   credited and at most 4096 + 4097 * (2 * maxTurns - 1) were counted at all.
   */
  lemma UntrippedSessionIsBounded(h: seq<Event>, maxTurns: int)
    requires maxTurns >= 1 && Untripped(h, maxTurns)
    ensures After(h, maxTurns).resets <= MAX_EVIDENCE
    ensures After(h, maxTurns).counted <= MAX_EVIDENCE + (MAX_EVIDENCE + 1) * (2 * maxTurns - 1)
  {
    StateIsExact(h, maxTurns);
    CreditsAreBounded(h);
    UntrippedIsShort(h, maxTurns, 2 * maxTurns);
    AtMost(Credits(Log(h)), 4096, 2 * maxTurns);
  }

  lemma AtMost(credits: nat, limit: nat, each: nat)
    requires credits <= limit
    ensures credits * each <= limit * each
  {
  }

  // ------------------------------------------------------------- the cohort

  /** The grace cohort consists of tools in flight, and exists only at or past the threshold. */
  lemma {:induction false} CohortIsInFlight(h: seq<Event>, maxTurns: int)
    ensures var s := After(h, maxTurns);
            s.cohort.Some? ==> s.cohort.value <= s.pending.Keys && s.turnsSinceProgress >= maxTurns
  {
    if h != [] {
      CohortIsInFlight(h[..|h| - 1], maxTurns);
    }
  }

  /** It starts as everything in flight when the threshold is reached. */
  lemma CohortStarts(h: seq<Event>, e: Event, maxTurns: int)
    requires After(h, maxTurns).cohort.None? && After(h + [e], maxTurns).cohort.Some?
    ensures Settles(h + [e]) && !Log(h + [e])[|Log(h)|].progress && Streak(Log(h + [e])) >= maxTurns
    ensures After(h + [e], maxTurns).cohort.value == After(h + [e], maxTurns).pending.Keys
  {
    assert (h + [e])[..|h|] == h;
    StateIsExact(h, maxTurns);
    StateIsExact(h + [e], maxTurns);
    LogAfter(h, e);
    if Settles(h + [e]) {
      MergedIsLatest(After(h, maxTurns), h, e.update);
    }
  }

  /** Neither the end of a turn nor a credited operation among the events that follow a history. */
  ghost predicate Quiet(h: seq<Event>, more: seq<Event>) {
    && (forall i :: 0 <= i < |more| ==> !more[i].TurnEnd?)
    && Credits(Log(h + more)) == Credits(Log(h))
  }

  /**
   From then on it only shrinks, by exactly the tools that settle: starts cannot extend the grace.
   */
  lemma {:induction false} CohortOnlyShrinks(h: seq<Event>, more: seq<Event>, maxTurns: int)
    requires After(h, maxTurns).cohort.Some? && Quiet(h, more)
    ensures After(h + more, maxTurns).cohort ==
            Some(After(h, maxTurns).cohort.value - After(h + more, maxTurns).settled)
    decreases |more|
  {
    if more == [] {
      assert h + more == h;
      CohortIsInFlight(h, maxTurns);
      StateIsExact(h, maxTurns);
      Without(After(h, maxTurns).cohort.value, {}, After(h, maxTurns).settled);
    } else {
      var front, e := more[..|more| - 1], more[|more| - 1];
      assert h + more == (h + front) + [e];
      CreditsOnlyGrow(h, front);
      CreditsOnlyGrow(h + front, [e]);
      CohortOnlyShrinks(h, front, maxTurns);
      QuietEvent(h + front, e, maxTurns);
      Without(After(h, maxTurns).cohort.value, After(h + front, maxTurns).settled, After(h + more, maxTurns).settled);
    }
  }

  lemma Without(start: set<string>, was: set<string>, now: set<string>)
    ensures was <= now ==> start - was - now == start - now
    ensures start !! now ==> start - now == start
  {
  }

  lemma {:induction false} CreditsOnlyGrow(h: seq<Event>, more: seq<Event>)
    ensures Credits(Log(h)) <= Credits(Log(h + more))
    decreases |more|
  {
    if more == [] {
      assert h + more == h;
    } else {
      var front, e := more[..|more| - 1], more[|more| - 1];
      assert h + more == (h + front) + [e];
      CreditsOnlyGrow(h, front);
      LogAfter(h + front, e);
      if Settles(h + more) {
        CreditGrows(Log(h + front), Log(h + more)[|Log(h + front)|]);
      }
    }
  }

  lemma QuietEvent(h: seq<Event>, e: Event, maxTurns: int)
    requires After(h, maxTurns).cohort.Some? && Quiet(h, [e])
    ensures var s, t := After(h, maxTurns), After(h + [e], maxTurns);
            s.settled <= t.settled && t.cohort == Some(s.cohort.value - t.settled)
  {
    assert (h + [e])[..|h|] == h && [e][0] == e;
    StateIsExact(h, maxTurns);
    StateIsExact(h + [e], maxTurns);
    CohortIsInFlight(h, maxTurns);
    QuietStep(After(h, maxTurns), e, maxTurns);
  }

  lemma QuietStep(s: State, e: Event, maxTurns: int)
    requires s.cohort.Some? && s.cohort.value <= s.pending.Keys && s.pending.Keys !! s.settled
    requires !e.TurnEnd? && Step(s, e, maxTurns).0.resets == s.resets
    ensures var t := Step(s, e, maxTurns).0;
            s.settled <= t.settled && t.cohort == Some(s.cohort.value - t.settled)
  {
    assert s.cohort.value - s.settled == s.cohort.value;
    if e.Tool? {
      assert s.cohort.value - (s.settled + {e.update.id}) == s.cohort.value - {e.update.id};
    }
  }
}
