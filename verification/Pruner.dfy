/**
 The background pruner: one bounded page per turn of the event loop, at most one pass in flight,
 and retained-pressure episodes that wait for a newer acknowledgement once they stall.
 */
module Pruner {
  import opened Wrappers
  import opened EventStream
  import opened Outbox

  datatype Mode = Grace | RetainedPressure

  datatype Pass = Pass(mode: Mode, pruned: nat, pages: nat)

  datatype PageOutcome = Dropped | Continued(pruned: nat) | Ended

  /** `stalledAt` is unset until a pass stops short of the low marks. */
  datatype Episode = Episode(retainedBefore: int, pruned: nat, pages: nat, stalledAt: Option<Option<nat>>,
                             stallLogged: bool)

  datatype Limits = Limits(lowRows: int, lowBytes: int, softRows: int, softBytes: int, ackGraceMs: int) {
    predicate Validated() {
      0 < lowRows < softRows && 0 < lowBytes < softBytes && 0 < ackGraceMs
    }
  }

  /** The age limit of a page; retained-pressure pages have none. */
  function Cutoff(mode: Mode, olderThan: Time, now: Time, limits: Limits): Option<Time> {
    if mode.RetainedPressure? then None
    else Some(if olderThan < now - limits.ackGraceMs then olderThan else now - limits.ackGraceMs)
  }

  /** What any number of kicks received during one pass amounts to. */
  function Remembered(kicks: seq<Mode>): Option<Mode> {
    if kicks == [] then None
    else if RetainedPressure in kicks then Some(RetainedPressure)
    else Some(Grace)
  }

  // ------------------------------------------------------ runs of pages

  /** How many pages of a run deleted something. */
  function ProductivePages(s: Stream, ops: seq<Op>): nat
    requires s.Valid()
    decreases |ops|
  {
    if ops == [] then 0
    else
      var productive := ops[0].DoPrune? && PruneCount(s, ops[0].cutoff) > 0;
      (if productive then 1 else 0) + ProductivePages(Step(s, ops[0]), ops[1..])
  }

  /** A pass cannot go on forever: each productive page moves the floor towards the watermark. */
  lemma {:induction false} PagesAreBounded(s: Stream, ops: seq<Op>)
    requires s.Valid()
    ensures ProductivePages(s, ops) <= Run(s, ops).floor - s.floor <= Run(s, ops).acked - s.floor
    ensures (forall op :: op in ops ==> !op.DoAck?) ==> ProductivePages(s, ops) <= s.acked - s.floor
    decreases |ops|
  {
    if ops != [] {
      StepExtends(s, ops[0]);
      PagesAreBounded(Step(s, ops[0]), ops[1..]);
      if ops[0].DoAppend? {
        AppendEffect(s, ops[0].drafts);
      }
      assert forall op :: op in ops[1..] ==> op in ops;
      assert ops[0] in ops;
    }
  }

  /** Once every acknowledged event is pruned, only a newer acknowledgement makes more prunable. */
  lemma {:induction false} StallLastsUntilAck(s: Stream, ops: seq<Op>)
    requires s.Valid() && s.floor == s.acked
    ensures var t := Run(s, ops); t.acked == s.acked ==> t.floor == t.acked
    decreases |ops|
  {
    if ops != [] {
      var t := Step(s, ops[0]);
      StepExtends(s, ops[0]);
      RunExtends(t, ops[1..]);
      if t.acked == s.acked {
        StallLastsUntilAck(t, ops[1..]);
      }
    }
  }

  lemma NothingPrunable(s: Stream, cutoff: Option<Time>)
    requires s.Valid()
    ensures s.floor == s.acked ==> PruneCount(s, cutoff) == 0
    ensures cutoff.None? && PruneCount(s, cutoff) == 0 ==> s.floor == s.acked
    ensures PruneCount(s, cutoff) == 0 <==> Held(s, s.floor + 1, cutoff)
  {
    PruneStops(s, cutoff);
  }

  /** Everything between the two floors was acknowledged before some time. */
  ghost predicate AllOld(s: Stream, floor: int, before: Time)
    requires s.Valid()
  {
    var cutoff := Some(before);
    forall i :: s.floor < i <= floor ==> !Held(s, i, cutoff)
  }

  class RuntimeEventPruner {
    const outbox: EventOutbox
    const limits: Limits
    var immediates: nat
    var active: Option<Pass>
    var pending: Option<Mode>
    var stopped: bool
    var episode: Option<Episode>
    ghost var kicks: seq<Mode>
    ghost var passes: nat
    /** The stream's marks when the active pass began. */
    ghost var passFloor: int
    ghost var passAcked: int

    ghost predicate Valid()
      reads this, outbox
    {
      && outbox.Valid()
      && limits.Validated()
      && immediates == (if active.Some? then 1 else 0)
      && (stopped ==> active.None?)
      && (active.None? ==> kicks == [])
      && pending == Remembered(kicks)
      && StallIsSound() && PassIsBounded()
    }

    /** An episode stalled at or before the watermark, and at the watermark nothing is left to prune. */
    ghost predicate StallIsSound()
      reads this, outbox
    {
      episode.Some? && episode.value.stalledAt.Some? ==>
        && Int(episode.value.stalledAt.value) <= Int(outbox.acked)
        && (episode.value.stalledAt.value == outbox.acked ==> outbox.meaning.floor == outbox.meaning.acked)
    }

    /** Each productive page of the active pass has moved the floor since it began. */
    ghost predicate PassIsBounded()
      reads this, outbox
    {
      active.Some? ==>
        && passFloor + active.value.pages <= outbox.meaning.floor
        && passAcked <= outbox.meaning.acked
    }

    /** A pass has at most as many productive pages as there were events to prune, or came to be since. */
    lemma PassEndsUnlessAcknowledged()
      requires Valid() && active.Some?
      ensures active.value.pages <= outbox.meaning.acked - passFloor
      ensures outbox.meaning.acked == passAcked ==> active.value.pages <= passAcked - passFloor
    {
    }

    predicate BelowLow()
      reads outbox
    {
      outbox.budget.regular.retainedCount < limits.lowRows && outbox.budget.regular.retainedBytes < limits.lowBytes
    }

    predicate AtSoft()
      reads outbox
    {
      outbox.budget.regular.retainedBytes >= limits.softBytes || outbox.budget.regular.retainedCount >= limits.softRows
    }

    /** The retained rows of the regular partition, and their bytes, recounted. */
    ghost function RegularRows(): int
      reads outbox
    {
      Recount(outbox.rows, 0, |outbox.rows|, Int(outbox.acked), Regular, RetainedCount)
    }

    ghost function RegularBytes(): int
      reads outbox
    {
      Recount(outbox.rows, 0, |outbox.rows|, Int(outbox.acked), Regular, RetainedBytes)
    }

    ghost predicate UnderLow()
      reads outbox
    {
      RegularRows() < limits.lowRows && RegularBytes() < limits.lowBytes
    }

    ghost predicate OverSoft()
      reads outbox
    {
      RegularRows() >= limits.softRows || RegularBytes() >= limits.softBytes
    }

    /** The counters that the marks are compared with are those of the rows. */
    lemma MarksAreRecounted()
      requires outbox.Valid()
      ensures BelowLow() <==> UnderLow()
      ensures AtSoft() <==> OverSoft()
    {
      assert outbox.budget.At(Regular, RetainedCount) == RegularRows();
      assert outbox.budget.At(Regular, RetainedBytes) == RegularBytes();
    }

    /** Boot runs its first grace page at once, before any capacity listener is installed. */
    constructor (outbox: EventOutbox, limits: Limits, available: bool, fault: bool, now: Time)
      requires outbox.Valid() && limits.Validated()
      modifies outbox
      ensures Valid()
      ensures this.outbox == outbox && this.limits == limits
      ensures !stopped && episode.None?
      ensures outbox.meaning ==
              if available && !fault then Prune(old(outbox.meaning), Some(now - limits.ackGraceMs))
              else old(outbox.meaning)
    {
      this.outbox, this.limits := outbox, limits;
      immediates, active, pending, stopped, episode := 1, Some(Pass(Grace, 0, 0)), None, false, None;
      kicks, passes := [], 1;
      passFloor, passAcked := outbox.meaning.floor, outbox.meaning.acked;
      new;
      ghost var before := outbox.meaning;
      var outcome := RunPage(available, fault, now, false);
      if outcome.Ended? {
        PruneStops(before, Some(now - limits.ackGraceMs));
      }
    }

    method Begin(mode: Mode)
      requires active.None? && immediates == 0
      modifies this`active, this`immediates, this`passes, this`passFloor, this`passAcked
      ensures active == Some(Pass(mode, 0, 0)) && immediates == 1 && passes == old(passes) + 1
      ensures passFloor == outbox.meaning.floor && passAcked == outbox.meaning.acked
    {
      passFloor, passAcked := outbox.meaning.floor, outbox.meaning.acked;
      active := Some(Pass(mode, 0, 0));
      immediates := immediates + 1;
      passes := passes + 1;
    }

    /** A kick starts a pass, or is remembered until the running pass ends. */
    method Kick(mode: Mode)
      requires Valid()
      modifies this
      ensures Valid()
      ensures stopped == old(stopped) && episode == old(episode)
      ensures stopped ==> unchanged(this)
      ensures !stopped && old(active).None? ==>
                active == Some(Pass(mode, 0, 0)) && kicks == [] && passes == old(passes) + 1
      ensures !stopped && old(active).Some? ==>
                active == old(active) && kicks == old(kicks) + [mode] && passes == old(passes)
    {
      if stopped {
        return;
      }
      if active.Some? {
        if pending != Some(RetainedPressure) {
          pending := Some(mode);
        }
        kicks := kicks + [mode];
        return;
      }
      Begin(mode);
    }

    /** All kicks remembered during the pass become exactly one further pass. */
    method EndPass()
      requires InPage()
      requires active.value.mode.RetainedPressure? && !BelowLow() ==> outbox.meaning.floor == outbox.meaning.acked
      modifies this
      ensures Valid() && !stopped
      ensures old(kicks) == [] ==> active.None? && passes == old(passes)
      ensures old(kicks) != [] ==>
                && active == Some(Pass(if RetainedPressure in old(kicks) then RetainedPressure else Grace, 0, 0))
                && kicks == [] && passes == old(passes) + 1
      ensures old(episode).Some? && old(active).value.mode.RetainedPressure? ==>
                var (e, pass) := (old(episode).value, old(active).value);
                episode ==
                if UnderLow() then None
                else Some(Episode(e.retainedBefore, e.pruned + pass.pruned, e.pages + pass.pages, Some(outbox.acked),
                                  e.stallLogged || pass.pruned == 0))
      ensures old(episode).None? || old(active).value.mode.Grace? ==> episode == old(episode)
    {
      var pass := active.value;
      active := None;
      PassEnded(pass);
      if pending.Some? && !stopped {
        var next := pending.value;
        pending := None;
        kicks := [];
        Begin(next);
      }
    }

    method PassEnded(pass: Pass)
      requires outbox.Valid() && StallIsSound()
      requires pass.mode.RetainedPressure? && !BelowLow() ==> outbox.meaning.floor == outbox.meaning.acked
      modifies this`episode
      ensures StallIsSound()
      ensures old(episode).Some? && pass.mode.RetainedPressure? ==>
                var e := old(episode).value;
                episode ==
                if UnderLow() then None
                else Some(Episode(e.retainedBefore, e.pruned + pass.pruned, e.pages + pass.pages, Some(outbox.acked),
                                  e.stallLogged || pass.pruned == 0))
      ensures old(episode).None? || pass.mode.Grace? ==> episode == old(episode)
    {
      MarksAreRecounted();
      if pass.mode != RetainedPressure || episode.None? {
        return;
      }
      var e := episode.value;
      if BelowLow() {
        episode := None;
        return;
      }
      episode := Some(Episode(e.retainedBefore, e.pruned + pass.pruned, e.pages + pass.pages, Some(outbox.acked),
                              e.stallLogged || pass.pruned == 0));
    }

    /** A fault or unavailable storage drops the pass and everything remembered. */
    method Drop()
      requires outbox.Valid() && limits.Validated()
      modifies this`active, this`pending, this`kicks
      ensures active.None? && pending.None? && kicks == []
    {
      active, pending := None, None;
      kicks := [];
    }

    /**
     One scheduled page. `Continued` schedules the next page of the same pass, `Ended` is the normal
     end of the pass, `Dropped` an abnormal one.
     */
    method RunPage(available: bool, fault: bool, now: Time, listening: bool) returns (outcome: PageOutcome)
      requires Valid() && active.Some?
      modifies this, outbox
      ensures Valid() && stopped == old(stopped)
      ensures !listening && old(episode).None? ==> episode.None?
      ensures outcome.Dropped? ==> active.None? && outbox.meaning == old(outbox.meaning)
      ensures outcome.Continued? ==>
                && outbox.meaning == Prune(old(outbox.meaning), PassCutoff(old(active).value.mode, now))
                && outcome.pruned == PruneCount(old(outbox.meaning), PassCutoff(old(active).value.mode, now)) > 0
                && active ==
                   Some(Pass(old(active).value.mode, old(active).value.pruned + outcome.pruned,
                             old(active).value.pages + 1))
                && kicks == old(kicks) && passes == old(passes)
      ensures outcome.Ended? ==>
                && outbox.meaning == old(outbox.meaning)
                && (old(active).value.mode.RetainedPressure? ==>
                      UnderLow() || (outbox.rows != [] && outbox.rows[0].sequence > Int(outbox.acked)))
                && (old(kicks) == [] ==> active.None? && passes == old(passes))
                && (old(kicks) != [] ==>
                      && active == Some(Pass(if RetainedPressure in old(kicks) then RetainedPressure else Grace, 0, 0))
                      && passes == old(passes) + 1)
      ensures outcome.Ended? && old(active).value.mode.Grace? ==>
                Held(outbox.meaning, outbox.meaning.floor + 1, Some(now - limits.ackGraceMs))
      ensures outcome.Continued? && old(active).value.mode.Grace? ==>
                AllOld(old(outbox.meaning), outbox.meaning.floor, now - limits.ackGraceMs)
      ensures available && !fault && old(active).value.mode.RetainedPressure? && !old(UnderLow())
              && old(outbox.meaning.floor < outbox.meaning.acked) ==>
                outcome.Continued?
      ensures outcome.Dropped? <==>
              !available || (fault && (old(active).value.mode.Grace? || !old(UnderLow())))
    {
      immediates := immediates - 1;
      var mode := active.value.mode;
      var pruned := Delete(available, fault, now, listening);
      if pruned.None? {
        Drop();
        return Dropped;
      }
      if pruned.value > 0 {
        Proceed(pruned.value);
        return Continued(pruned.value);
      }
      LeavesNoneOrHead(mode);
      EndPass();
      return Ended;
    }

    /**
     What the page deletes: nothing below the low marks unless its pass goes by age. There is no number if
     storage is not available or faults.
     */
    method Delete(available: bool, fault: bool, now: Time, listening: bool) returns (pruned: Option<nat>)
      requires InPage()
      modifies this`episode, outbox
      ensures InPage()
      ensures !listening || old(episode).Some? ==> episode == old(episode)
      ensures pruned.None? || pruned.value == 0 ==> episode == old(episode) && outbox.meaning == old(outbox.meaning)
      ensures pruned.None? <==> !available || (fault && (active.value.mode.Grace? || !old(UnderLow())))
      ensures var mode := active.value.mode;
              pruned.Some? && pruned.value > 0 ==>
                && outbox.meaning == Prune(old(outbox.meaning), PassCutoff(mode, now))
                && pruned.value == PruneCount(old(outbox.meaning), PassCutoff(mode, now))
                && passFloor + active.value.pages < outbox.meaning.floor
      ensures pruned.Some? && pruned.value > 0 && active.value.mode.Grace? ==>
                AllOld(old(outbox.meaning), outbox.meaning.floor, now - limits.ackGraceMs)
      ensures pruned == Some(0) && active.value.mode.Grace? ==>
                Held(outbox.meaning, outbox.meaning.floor + 1, Some(now - limits.ackGraceMs))
      ensures pruned == Some(0) && active.value.mode.RetainedPressure? ==>
                && (UnderLow() || outbox.meaning.floor == outbox.meaning.acked)
                && (old(UnderLow()) || outbox.meaning.floor == outbox.meaning.acked)
    {
      MarksAreRecounted();
      ghost var before := outbox.meaning;
      PruneStops(before, PassCutoff(active.value.mode, now));
      if !available {
        return None;
      }
      var mode := active.value.mode;
      if mode.RetainedPressure? && BelowLow() {
        return Some(0);
      }
      if fault {
        return None;
      }
      var n := PrunePage(mode, now, listening);
      return Some(n);
    }

    /** While a page of the active pass is running, nothing is scheduled. */
    ghost predicate InPage()
      reads this, outbox
    {
      && outbox.Valid() && limits.Validated()
      && active.Some? && immediates == 0 && !stopped && pending == Remembered(kicks)
      && StallIsSound() && PassIsBounded()
    }

    /** A productive page schedules the next one. */
    method Proceed(pruned: nat)
      requires InPage() && passFloor + active.value.pages < outbox.meaning.floor
      modifies this`active, this`immediates
      ensures Valid() && old(active).Some?
      ensures active ==
              Some(Pass(old(active).value.mode, old(active).value.pruned + pruned, old(active).value.pages + 1))
    {
      active := Some(Pass(active.value.mode, active.value.pruned + pruned, active.value.pages + 1));
      immediates := immediates + 1;
    }

    lemma LeavesNoneOrHead(mode: Mode)
      requires outbox.Valid() && limits.Validated()
      requires mode.RetainedPressure? && !UnderLow() ==> outbox.meaning.floor == outbox.meaning.acked
      ensures mode.RetainedPressure? ==>
                UnderLow() || (outbox.rows != [] && outbox.rows[0].sequence > Int(outbox.acked))
      ensures BelowLow() <==> UnderLow()
    {
      MarksAreRecounted();
      if mode.RetainedPressure? && !BelowLow() {
        HeadIsUnacknowledged();
      }
    }

    function PassCutoff(mode: Mode, now: Time): Option<Time> {
      Cutoff(mode, now - limits.ackGraceMs, now, limits)
    }

    /** The page's own commit reports capacity too, but its kick is ignored. */
    method PrunePage(mode: Mode, now: Time, listening: bool) returns (pruned: nat)
      requires outbox.Valid() && limits.Validated() && StallIsSound()
      modifies this`episode, outbox
      ensures outbox.Valid() && StallIsSound()
      ensures outbox.meaning == Prune(old(outbox.meaning), PassCutoff(mode, now))
      ensures pruned == PruneCount(old(outbox.meaning), PassCutoff(mode, now))
      ensures pruned == 0 ==> outbox.meaning == old(outbox.meaning)
      ensures pruned == 0 && mode.RetainedPressure? ==> outbox.meaning.floor == outbox.meaning.acked
      ensures pruned > 0 ==> outbox.meaning.floor > old(outbox.meaning.floor)
      ensures pruned == 0 || !listening || old(episode).Some? ==> episode == old(episode)
    {
      var cutoff := PassCutoff(mode, now);
      NothingPrunable(outbox.meaning, cutoff);
      pruned := outbox.PruneAcknowledgedRuntimeEvents(cutoff);
      if pruned > 0 && listening {
        var _ := NoteRetained();
      }
    }

    lemma EmptyIsBelowLow()
      requires outbox.Valid() && limits.Validated()
      ensures outbox.rows == [] ==> BelowLow()
    {
      if outbox.rows == [] {
        assert outbox.budget.At(Regular, RetainedCount) == 0 && outbox.budget.At(Regular, RetainedBytes) == 0;
      }
    }

    lemma HeadIsUnacknowledged()
      requires outbox.Valid() && limits.Validated() && outbox.meaning.floor == outbox.meaning.acked && !BelowLow()
      ensures outbox.rows != [] && outbox.rows[0].sequence > Int(outbox.acked)
    {
      EmptyIsBelowLow();
      if outbox.rows != [] {
        assert Stored(outbox.rows[0], Int(outbox.floor) + 1, outbox.meaning, outbox.ranges);
      }
    }

    /** Opens an episode at the first sighting of the soft mark; says whether a kick is due. */
    method NoteRetained() returns (due: bool)
      requires outbox.Valid() && StallIsSound()
      modifies this`episode
      ensures StallIsSound()
      ensures due <==> OverSoft() && !(old(episode).Some? && old(episode).value.stalledAt == Some(outbox.acked))
      ensures old(episode).Some? || !OverSoft() ==> episode == old(episode)
      ensures old(episode).None? && OverSoft() ==> episode == Some(Episode(RegularRows(), 0, 0, None, false))
    {
      MarksAreRecounted();
      if !AtSoft() {
        return false;
      }
      if episode.None? {
        episode := Some(Episode(outbox.budget.regular.retainedCount, 0, 0, None, false));
      } else if episode.value.stalledAt.Some? && outbox.acked == episode.value.stalledAt.value {
        return false;
      }
      return true;
    }

    /** Every commit outside a page reports capacity here. */
    method OnCapacity()
      requires Valid()
      modifies this
      ensures Valid() && stopped == old(stopped)
      ensures OverSoft() && !stopped && active.None? ==> outbox.meaning.floor == outbox.meaning.acked
      ensures var due := OverSoft() && !(old(episode).Some? && old(episode).value.stalledAt == Some(outbox.acked));
              if !due || stopped then active == old(active) && kicks == old(kicks)
              else if old(active).None? then active == Some(Pass(RetainedPressure, 0, 0))
              else active == old(active) && kicks == old(kicks) + [RetainedPressure]
    {
      var due := NoteRetained();
      if due {
        Kick(RetainedPressure);
      }
    }

    method Stop()
      requires Valid()
      modifies this
      ensures Valid() && stopped && active.None? && immediates == 0
      ensures episode == old(episode)
    {
      stopped := true;
      if immediates > 0 {
        immediates := immediates - 1;
      }
      active, pending := None, None;
      kicks := [];
    }
  }

  // -------------------------------------------------------------- all runs

  /** Everything that can happen to the pruner and to its outbox, in any order. */
  datatype Event =
    | Page(available: bool, fault: bool, now: Time)
    | Kicked(mode: Mode)
    | Capacity
    | Appended(drafts: seq<Draft>)
    | Acknowledged(through: Sequence, at: Time)
    | PrunedOutside(cutoff: Option<Time>)
    | Stopped

  lemma RunOne(s: Stream, op: Op)
    requires s.Valid()
    ensures Run(s, [op]) == Step(s, op)
    ensures ProductivePages(s, [op]) == (if op.DoPrune? && PruneCount(s, op.cutoff) > 0 then 1 else 0)
  {
    assert [op][1..] == [];
  }

  lemma {:induction false} RunsJoin(s: Stream, a: seq<Op>, b: seq<Op>)
    requires s.Valid()
    ensures Run(s, a + b) == Run(Run(s, a), b)
    ensures ProductivePages(s, a + b) == ProductivePages(s, a) + ProductivePages(Run(s, a), b)
    decreases |a|
  {
    if a == [] {
      assert a + b == b;
    } else {
      var t := Step(s, a[0]);
      assert (a + b)[0] == a[0] && (a + b)[1..] == a[1..] + b;
      assert Run(s, a + b) == Run(t, a[1..] + b);
      RunsJoin(t, a[1..], b);
    }
  }

  /** The outbox changes outside a page; its commit tells the pruner only afterwards. */
  method ChangeOutbox(p: RuntimeEventPruner, op: Op)
    requires p.Valid() && !op.DoRestart?
    modifies p.outbox
    ensures p.Valid() && p.outbox.meaning == Step(old(p.outbox.meaning), op)
  {
    StepExtends(p.outbox.meaning, op);
    match op {
      case DoAppend(drafts) => var _ := p.outbox.AppendRuntimeEvents(drafts);
      case DoAck(through, at) => var _ := p.outbox.AckRuntimeEvents(true, through, at);
      case DoPrune(cutoff) => var _ := p.outbox.PruneAcknowledgedRuntimeEvents(cutoff);
    }
  }

  /** One event. `trace` is what it did to the stream; a page is run only if one is scheduled. */
  method Happen(p: RuntimeEventPruner, e: Event) returns (page: Option<PageOutcome>, ghost trace: seq<Op>)
    requires p.Valid()
    modifies p, p.outbox
    ensures p.Valid()
    ensures p.outbox.meaning == Run(old(p.outbox.meaning), trace)
    ensures !e.Acknowledged? ==> forall op :: op in trace ==> !op.DoAck?
    ensures page.Some? <==> e.Page? && old(p.active).Some?
    ensures page.Some? && page.value.Continued? ==> ProductivePages(old(p.outbox.meaning), trace) == 1
    ensures page.Some? && e.available && !e.fault ==> !page.value.Dropped?
  {
    page, trace := None, [];
    match e {
      case Page(available, fault, now) =>
        if p.active.Some? {
          ghost var cutoff := p.PassCutoff(p.active.value.mode, now);
          ghost var before := p.outbox.meaning;
          var outcome := p.RunPage(available, fault, now, true);
          page := Some(outcome);
          if outcome.Continued? {
            trace := [DoPrune(cutoff)];
            RunOne(before, DoPrune(cutoff));
          }
        }
      case Kicked(mode) => p.Kick(mode);
      case Capacity => p.OnCapacity();
      case Appended(drafts) =>
        RunOne(p.outbox.meaning, DoAppend(drafts));
        ChangeOutbox(p, DoAppend(drafts));
        trace := [DoAppend(drafts)];
      case Acknowledged(through, at) =>
        RunOne(p.outbox.meaning, DoAck(through, at));
        ChangeOutbox(p, DoAck(through, at));
        trace := [DoAck(through, at)];
      case PrunedOutside(cutoff) =>
        RunOne(p.outbox.meaning, DoPrune(cutoff));
        ChangeOutbox(p, DoPrune(cutoff));
        trace := [DoPrune(cutoff)];
      case Stopped => p.Stop();
    }
  }

  /**
   Any run of pages, kicks, capacity reports, appends, acknowledgements, prunes and a stop: the invariant
   holds throughout, so one page at most is scheduled and a stalled episode stays sound. The productive
   pages are no more than the events pruned, so without a new acknowledgement a pass ends within
   acked - floor + 1 pages that storage allows.
   */
  method Drive(p: RuntimeEventPruner, events: seq<Event>)
    returns (continued: nat, ended: nat, allowed: nat, ghost trace: seq<Op>)
    requires p.Valid()
    modifies p, p.outbox
    ensures p.Valid()
    ensures p.outbox.meaning == Run(old(p.outbox.meaning), trace)
    ensures continued <= p.outbox.meaning.floor - old(p.outbox.meaning.floor)
    ensures (forall e :: e in events ==> !e.Acknowledged?) ==>
              continued <= old(p.outbox.meaning.acked) - old(p.outbox.meaning.floor)
    ensures old(p.outbox.meaning.floor) == old(p.outbox.meaning.acked) == p.outbox.meaning.acked ==>
              p.outbox.meaning.floor == p.outbox.meaning.acked && continued == 0
    ensures allowed <= continued + ended <= |events|
  {
    continued, ended, allowed, trace := 0, 0, 0, [];
    ghost var start := p.outbox.meaning;
    var i := 0;
    while i < |events|
      invariant 0 <= i <= |events|
      invariant p.Valid() && p.outbox.meaning == Run(start, trace)
      invariant continued <= ProductivePages(start, trace)
      invariant (forall j :: 0 <= j < i ==> !events[j].Acknowledged?) ==> forall op :: op in trace ==> !op.DoAck?
      invariant allowed <= continued + ended <= i
    {
      var e := events[i];
      ghost var was := p.outbox.meaning;
      var page;
      ghost var more;
      page, more := Happen(p, e);
      RunsJoin(start, trace, more);
      trace := trace + more;
      if page.Some? {
        if page.value.Continued? {
          continued := continued + 1;
        } else if page.value.Ended? {
          ended := ended + 1;
        }
        if e.available && !e.fault {
          allowed := allowed + 1;
        }
      }
      i := i + 1;
    }
    PagesAreBounded(start, trace);
    if start.floor == start.acked {
      StallLastsUntilAck(start, trace);
    }
  }
}
