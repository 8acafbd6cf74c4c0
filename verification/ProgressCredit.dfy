/** What the guardrail counts, and what it counts as progress, in terms of the notifications themselves. */
module ProgressCredit {
  import opened Progress
  import opened Wrappers

  ghost predicate Mutates(kind: string) {
    kind in WRITE_KINDS
  }

  ghost predicate Investigates(kind: string) {
    kind in READ_KINDS
  }

  lemma KindsAre(kind: string)
    ensures Mutates(kind) <==> kind in ["edit", "write", "create", "delete", "move"]
    ensures Investigates(kind) <==> kind in ["read", "search", "fetch", "execute", "other", "think"]
    ensures !(Mutates(kind) && Investigates(kind))
  {
  }

  /** Novelty memory: a credited mutation is remembered by its request, an investigation by request and result. */
  ghost function Remembered(log: seq<Settlement>): nat {
    if log == [] then 0
    else
      var last := log[|log| - 1];
      Remembered(log[..|log| - 1]) + (if !last.progress then 0 else if Mutates(last.tool.kind) then 1 else 2)
  }

  /** Some credited mutation had this request. */
  ghost predicate MutationCredited(log: seq<Settlement>, request: Digest) {
    log != []
    && var last := log[|log| - 1];
    (last.progress && Mutates(last.tool.kind) && last.tool.request == Some(request))
    || MutationCredited(log[..|log| - 1], request)
  }

  /** Some credited investigation had this result. */
  ghost predicate ResultCredited(log: seq<Settlement>, result: Digest) {
    log != []
    && var last := log[|log| - 1];
    (last.progress && !Mutates(last.tool.kind) && last.tool.result == Some(result))
    || ResultCredited(log[..|log| - 1], result)
  }

  /** Some credited investigation of this kind had this request. */
  ghost predicate RequestCredited(log: seq<Settlement>, kind: string, request: Digest) {
    log != []
    && var last := log[|log| - 1];
    (last.progress && !Mutates(last.tool.kind) && last.tool.kind == kind && last.tool.request == Some(request))
    || RequestCredited(log[..|log| - 1], kind, request)
  }

  /** Every entry was judged against what the earlier ones were credited for. */
  ghost predicate Judged(log: seq<Settlement>) {
    forall i :: 0 <= i < |log| ==> log[i].progress == IsProgress(Credited(log[..i]), log[i].tool, log[i].status)
  }

  lemma {:induction false} LogIsJudged(h: seq<Event>)
    ensures Judged(Log(h))
  {
    if h != [] {
      var before, last := h[..|h| - 1], h[|h| - 1];
      LogIsJudged(before);
      assert before + [last] == h;
      LogAfter(before, last);
      var log := Log(before);
      forall i | 0 <= i < |Log(h)|
        ensures Log(h)[i].progress == IsProgress(Credited(Log(h)[..i]), Log(h)[i].tool, Log(h)[i].status)
      {
        assert Log(h)[..i] == log[..i];
      }
      assert Settles(h) ==> Log(h)[..|log|] == log && log[..|log|] == log;
    }
  }

  lemma {:induction false} MutationMemory(log: seq<Settlement>, d: Digest)
    requires Judged(log)
    ensures Mutation(d) in Credited(log) <==> MutationCredited(log, d)
  {
    if log != [] {
      JudgedBefore(log, |log| - 1);
      MutationMemory(log[..|log| - 1], d);
    }
  }

  lemma {:induction false} ResultMemory(log: seq<Settlement>, d: Digest)
    requires Judged(log)
    ensures Result(d) in Credited(log) <==> ResultCredited(log, d)
  {
    if log != [] {
      JudgedBefore(log, |log| - 1);
      ResultMemory(log[..|log| - 1], d);
    }
  }

  lemma {:induction false} RequestMemory(log: seq<Settlement>, kind: string, d: Digest)
    requires Judged(log)
    ensures Request(kind, d) in Credited(log) <==> RequestCredited(log, kind, d)
  {
    if log != [] {
      JudgedBefore(log, |log| - 1);
      RequestMemory(log[..|log| - 1], kind, d);
    }
  }

  lemma JudgedBefore(log: seq<Settlement>, n: nat)
    requires Judged(log) && n <= |log|
    ensures Judged(log[..n])
  {
    forall i | 0 <= i < n
      ensures log[..n][i].progress == IsProgress(Credited(log[..n][..i]), log[..n][i].tool, log[..n][i].status)
    {
      assert log[..n][..i] == log[..i];
    }
  }

  lemma {:induction false} MemorySize(log: seq<Settlement>)
    requires Judged(log)
    ensures |Credited(log)| == Remembered(log)
  {
    if log != [] {
      var n := |log| - 1;
      JudgedBefore(log, n);
      MemorySize(log[..n]);
      var held, tool := Credited(log[..n]), log[n].tool;
      if log[n].progress {
        var grown := held + {FingerprintOf(tool).value};
        assert |grown| == |held| + 1;
        if Mutates(tool.kind) {
          assert Credited(log) == grown;
        } else {
          assert Credited(log) == grown + {InvestigationOf(tool).value} && InvestigationOf(tool).value !in grown;
        }
      }
    }
  }

  /**
   Exactly when a counted operation makes progress. It must have completed, and there must be room in the
   novelty memory. A mutation must have a request that no credited mutation had before; an investigation
   must have a result that no credited one had, and a request that no credited one of its kind had. No other
   kind of tool ever makes progress.
   */
  lemma ProgressExactly(h: seq<Event>, i: nat)
    requires i < |Log(h)|
    ensures var e, before := Log(h)[i], Log(h)[..i];
            var tool := e.tool;
            e.progress <==>
              && e.status == "completed" && Remembered(before) < 4096 && tool.request.Some?
              && ((Mutates(tool.kind) && !MutationCredited(before, tool.request.value))
                  || (Investigates(tool.kind) && tool.result.Some? && !ResultCredited(before, tool.result.value)
                      && !RequestCredited(before, tool.kind, tool.request.value)))
  {
    var e, before := Log(h)[i], Log(h)[..i];
    LogIsJudged(h);
    JudgedBefore(Log(h), i);
    MemorySize(before);
    KindsAre(e.tool.kind);
    if e.tool.request.Some? {
      MutationMemory(before, e.tool.request.value);
      RequestMemory(before, e.tool.kind, e.tool.request.value);
    }
    if e.tool.result.Some? {
      ResultMemory(before, e.tool.result.value);
    }
  }

  /** What is known of a tool is what was sent last: raw input before locations, raw output before content. */
  lemma LatestIsLastSent(h: seq<Event>, u: Update)
    ensures var was, now := Latest(h, u.id), Latest(h + [Tool(u)], u.id);
            && now.kind == (if u.kind.Some? then u.kind.value else was.kind)
            && (u.rawInput.Some? ==> now.request == u.rawInput)
            && (u.rawInput.None? && u.locations.Some? ==> now.request == u.locations)
            && (u.rawInput.None? && u.locations.None? ==> now.request == was.request)
            && (u.rawOutput.Some? ==> now.result == u.rawOutput)
            && (u.rawOutput.None? && u.content.Some? ==> now.result == u.content)
            && (u.rawOutput.None? && u.content.None? ==> now.result == was.result)
    ensures !Mentioned(h, u.id) ==> Latest(h, u.id) == Evidence("unknown", None, None)
  {
    assert (h + [Tool(u)])[..|h|] == h;
    if !Mentioned(h, u.id) {
      UnmentionedIsUnknown(h, u.id);
    }
  }

  ghost predicate Reports(e: Event, id: string) {
    e.Tool? && e.update.id == id && e.update.status in {"completed", "failed", "cancelled"}
  }

  ghost predicate MentionedBefore(h: seq<Event>, k: int, id: string) {
    exists j :: 0 <= j < k && j < |h| && h[j].Tool? && h[j].update.id == id
  }

  lemma {:induction false} MentionedIs(h: seq<Event>, id: string)
    ensures Mentioned(h, id) <==> MentionedBefore(h, |h|, id)
  {
    if h != [] {
      var n := |h| - 1;
      MentionedIs(h[..n], id);
      assert forall j :: 0 <= j < n ==> h[..n][j] == h[j];
    }
  }

  /** A tool is done with once it reported one of three outcomes, or a turn in which it was mentioned ended. */
  lemma {:induction false} ClosedIs(h: seq<Event>, id: string)
    ensures Closed(h, id) <==>
            exists k :: 0 <= k < |h| && (Reports(h[k], id) || (h[k].TurnEnd? && MentionedBefore(h, k, id)))
  {
    if h != [] {
      var n := |h| - 1;
      ClosedIs(h[..n], id);
      MentionedIs(h[..n], id);
      assert forall j :: 0 <= j < n ==> h[..n][j] == h[j];
      assert forall k :: 0 <= k <= n ==> (MentionedBefore(h[..n], k, id) <==> MentionedBefore(h, k, id));
      assert Reports(h[n], id) || (h[n].TurnEnd? && MentionedBefore(h, n, id)) ==> Closed(h, id);
    }
  }

  /** An operation is counted exactly at the first report of an outcome for a tool with an id. */
  lemma CountedExactly(h: seq<Event>, e: Event)
    ensures |Log(h + [e])| == |Log(h)| + 1 <==>
            && e.Tool? && e.update.id != "" && Reports(e, e.update.id)
            && !exists k :: 0 <= k < |h|
                 && (Reports(h[k], e.update.id) || (h[k].TurnEnd? && MentionedBefore(h, k, e.update.id)))
  {
    LogAfter(h, e);
    assert (h + [e])[..|h|] == h;
    if e.Tool? {
      ClosedIs(h, e.update.id);
    }
  }

  lemma {:induction false} DiagnosisIs(log: seq<Settlement>)
    ensures |Diagnosis(log)| == |log|
    ensures forall i :: 0 <= i < |log| ==>
              var o, e := Diagnosis(log)[i], log[i];
              && o.id == e.id && o.kind == e.tool.kind && o.status == e.status && o.progress == e.progress
              && o.reason == ReasonFor(e.tool, e.status, e.progress)
  {
    if log != [] {
      DiagnosisIs(log[..|log| - 1]);
    }
  }

  lemma LastTenAt(ops: seq<Operation>, k: nat)
    requires k < |LastTen(ops)|
    ensures |LastTen(ops)| == (if |ops| < 10 then |ops| else 10) && LastTen(ops)[k] == ops[|ops| - |LastTen(ops)| + k]
  {
  }

  /** The diagnostics are the last ten operations, each with the reason why it did or did not count as progress. */
  lemma DiagnosticsAreExact(h: seq<Event>, maxTurns: int, k: nat)
    requires k < |After(h, maxTurns).recent|
    ensures |After(h, maxTurns).recent| == if |Log(h)| < 10 then |Log(h)| else 10
    ensures var o := After(h, maxTurns).recent[k];
            var e := Log(h)[|Log(h)| - |After(h, maxTurns).recent| + k];
            && o.id == e.id && o.kind == e.tool.kind && o.status == e.status && o.progress == e.progress
            && Explains(o.reason, e)
  {
    StateIsExact(h, maxTurns);
    var log := Log(h);
    DiagnosisIs(log);
    LastTenAt(Diagnosis(log), k);
    ReasonExplains(log[|log| - |After(h, maxTurns).recent| + k]);
  }

  ghost predicate Explains(reason: Reason, e: Settlement) {
    && (reason == Status(e.status) <==> e.status != "completed")
    && (reason == NewEvidence <==> e.status == "completed" && e.progress)
    && (reason == MissingEvidence <==>
          && e.status == "completed" && !e.progress
          && !(Mutates(e.tool.kind) && e.tool.request.Some?) && !(Investigates(e.tool.kind) && e.tool.result.Some?))
  }

  lemma ReasonExplains(e: Settlement)
    ensures Explains(ReasonFor(e.tool, e.status, e.progress), e)
  {
    KindsAre(e.tool.kind);
  }
}
