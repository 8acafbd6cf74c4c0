/**
 The process-wide output buffer budget: producer slots, retained reply bytes and the decoder permit.
 Each lease and each budget is a closure in the program; here it is a position in the order of issue.
 */
module Buffers {
  import opened Wrappers

  const MAX_PRODUCERS: nat := 20
  const PRODUCER_BUFFER_BYTES: nat := 147_456
  const DECODE_BUFFER_BYTES: nat := 7_340_032
  const MAX_RETAINED_PER_BUDGET: nat := 2_097_152
  const CAPACITY: nat := 10_485_760

  // ------------------------------------------------------------- reference

  /** What has been handed out: per lease whether it was released, per budget the bytes it owns. */
  datatype Ledger = Ledger(released: seq<bool>, owned: seq<nat>)

  function Open(released: seq<bool>): nat {
    if released == [] then 0
    else Open(released[..|released| - 1]) + (if released[|released| - 1] then 0 else 1)
  }

  function Sum(owned: seq<nat>): nat {
    if owned == [] then 0 else Sum(owned[..|owned| - 1]) + owned[|owned| - 1]
  }

  /** Every reservation together with a busy decoder, recounted from what was handed out. */
  ghost predicate Fits(l: Ledger) {
    && Open(l.released) <= 20
    && (forall i :: 0 <= i < |l.owned| ==> l.owned[i] <= 2_097_152)
    && 7_340_032 + Open(l.released) * 147_456 + Sum(l.owned) <= 10_485_760
  }

  datatype Op = ReserveProducer | ReleaseProducer(lease: nat) | NewBudget | Retain(budget: nat, bytes: int)
    | Settle(budget: nat)

  /** Room for that many producers and retained bytes beside a busy decoder. */
  predicate Room(producers: nat, retained: int) {
    DECODE_BUFFER_BYTES + producers * PRODUCER_BUFFER_BYTES + retained <= CAPACITY
  }

  predicate AdmitsProducer(l: Ledger) {
    Open(l.released) < MAX_PRODUCERS && Room(Open(l.released) + 1, Sum(l.owned))
  }

  predicate AdmitsBytes(l: Ledger, budget: nat, bytes: int)
    requires budget < |l.owned|
  {
    && 0 <= bytes
    && l.owned[budget] + bytes <= MAX_RETAINED_PER_BUDGET
    && Room(Open(l.released), Sum(l.owned) + bytes)
  }

  function Step(l: Ledger, op: Op): Ledger {
    match op
    case ReserveProducer => if AdmitsProducer(l) then l.(released := l.released + [false]) else l
    case ReleaseProducer(k) => if k < |l.released| then l.(released := l.released[k := true]) else l
    case NewBudget => l.(owned := l.owned + [0])
    case Retain(k, bytes) =>
      if k < |l.owned| && AdmitsBytes(l, k, bytes) then l.(owned := l.owned[k := l.owned[k] + bytes]) else l
    case Settle(k) => if k < |l.owned| then l.(owned := l.owned[k := 0]) else l
  }

  function Run(l: Ledger, ops: seq<Op>): Ledger
    decreases |ops|
  {
    if ops == [] then l else Run(Step(l, ops[0]), ops[1..])
  }

  lemma {:induction false} OpenAfterRelease(released: seq<bool>, k: nat)
    requires k < |released|
    ensures Open(released[k := true]) == Open(released) - (if released[k] then 0 else 1)
  {
    var n := |released| - 1;
    if k < n {
      OpenAfterRelease(released[..n], k);
      assert released[k := true][..n] == released[..n][k := true];
    } else {
      assert released[k := true][..n] == released[..n];
    }
  }

  lemma {:induction false} SumAfterUpdate(owned: seq<nat>, k: nat, bytes: nat)
    requires k < |owned|
    ensures Sum(owned[k := bytes]) == Sum(owned) - owned[k] + bytes
  {
    var n := |owned| - 1;
    if k < n {
      SumAfterUpdate(owned[..n], k, bytes);
      assert owned[k := bytes][..n] == owned[..n][k := bytes];
    } else {
      assert owned[k := bytes][..n] == owned[..n];
    }
  }

  lemma OpenPush(released: seq<bool>)
    ensures Open(released + [false]) == Open(released) + 1
  {
    assert (released + [false])[..|released|] == released;
  }

  lemma SumPush(owned: seq<nat>)
    ensures Sum(owned + [0]) == Sum(owned)
  {
    assert (owned + [0])[..|owned|] == owned;
  }

  lemma StepFits(l: Ledger, op: Op)
    requires Fits(l)
    ensures Fits(Step(l, op))
  {
    match op {
      case ReserveProducer => OpenPush(l.released);
      case ReleaseProducer(k) => if k < |l.released| { OpenAfterRelease(l.released, k); }
      case NewBudget => SumPush(l.owned);
      case Retain(k, bytes) =>
        if k < |l.owned| && AdmitsBytes(l, k, bytes) {
          SumAfterUpdate(l.owned, k, l.owned[k] + bytes);
        }
      case Settle(k) => if k < |l.owned| { SumAfterUpdate(l.owned, k, 0); }
    }
  }

  /** Whatever is reserved and released, in any order and however often, the total stays in bounds. */
  lemma {:induction false} RunFits(l: Ledger, ops: seq<Op>)
    requires Fits(l)
    ensures Fits(Run(l, ops))
    decreases |ops|
  {
    if ops != [] {
      StepFits(l, ops[0]);
      RunFits(Step(l, ops[0]), ops[1..]);
    }
  }

  /** A slot or bytes given back are all that was taken: undoing restores what can be admitted. */
  lemma ReleaseRestores(l: Ledger)
    requires AdmitsProducer(l)
    ensures var m := Step(Step(l, ReserveProducer), ReleaseProducer(|l.released|));
            Open(m.released) == Open(l.released) && m.owned == l.owned
  {
    OpenPush(l.released);
    OpenAfterRelease(l.released + [false], |l.released|);
  }

  // --------------------------------------------------------- decoder permit

  /**
   Callers of the decoder in the order in which they asked: those who are done, then the one that
   holds the permit, then those who wait. The state is determined by how many are done.
   */
  ghost predicate Queue(asked: seq<nat>, done: nat, decoding: bool, waiters: seq<nat>) {
    && done <= |asked|
    && decoding == (done < |asked|)
    && waiters == if done < |asked| then asked[done + 1..] else []
  }

  class OutputBuffers {
    var producers: nat
    var retainedBytes: nat
    var released: seq<bool>
    var owned: seq<nat>
    var decoding: bool
    var decodeWaiters: seq<nat>
    /** Every caller that asked for the permit, and how many of them gave it back. */
    ghost var asked: seq<nat>
    ghost var done: nat

    ghost function Handed(): Ledger
      reads this
    {
      Ledger(released, owned)
    }

    /** The two counters are the recount, and the budget is kept. */
    ghost predicate Valid()
      reads this
    {
      && producers == Open(released) && retainedBytes == Sum(owned)
      && Fits(Handed())
      && Queue(asked, done, decoding, decodeWaiters)
    }

    /** The one caller that holds the permit. */
    ghost predicate Holds(caller: nat)
      reads this
    {
      done < |asked| && asked[done] == caller
    }

    constructor ()
      ensures Valid() && Handed() == Ledger([], []) && asked == []
    {
      producers, retainedBytes, released, owned := 0, 0, [], [];
      decoding, decodeWaiters, asked, done := false, [], [], 0;
    }

    method ReserveOutputProducer() returns (lease: Option<nat>)
      requires Valid()
      modifies this`producers, this`released
      ensures Valid() && Handed() == Step(old(Handed()), ReserveProducer)
      ensures lease == if AdmitsProducer(old(Handed())) then Some(|old(released)|) else None
    {
      ghost var before := Handed();
      if producers >= MAX_PRODUCERS
      || DECODE_BUFFER_BYTES + (producers + 1) * PRODUCER_BUFFER_BYTES + retainedBytes > CAPACITY
      {
        return None;
      }
      StepFits(before, ReserveProducer);
      OpenPush(released);
      lease := Some(|released|);
      producers := producers + 1;
      released := released + [false];
      assert Handed() == Step(before, ReserveProducer);
    }

    method ReleaseOutputProducer(lease: nat)
      requires Valid() && lease < |released|
      modifies this`producers, this`released
      ensures Valid() && Handed() == Step(old(Handed()), ReleaseProducer(lease))
    {
      StepFits(Handed(), ReleaseProducer(lease));
      OpenAfterRelease(released, lease);
      if released[lease] {
        assert released[lease := true] == released;
        return;
      }
      released := released[lease := true];
      producers := producers - 1;
    }

    method RetainedOutputBudget() returns (budget: nat)
      requires Valid()
      modifies this`owned
      ensures Valid() && Handed() == Step(old(Handed()), NewBudget) && budget == |old(owned)|
    {
      StepFits(Handed(), NewBudget);
      SumPush(owned);
      owned := owned + [0];
      budget := |owned| - 1;
    }

    method Reserve(budget: nat, bytes: int) returns (ok: bool)
      requires Valid() && budget < |owned|
      modifies this`owned, this`retainedBytes
      ensures Valid() && Handed() == Step(old(Handed()), Retain(budget, bytes))
      ensures ok == AdmitsBytes(old(Handed()), budget, bytes)
    {
      ghost var before := Handed();
      StepFits(before, Retain(budget, bytes));
      if bytes < 0 || owned[budget] + bytes > MAX_RETAINED_PER_BUDGET
      || DECODE_BUFFER_BYTES + producers * PRODUCER_BUFFER_BYTES + retainedBytes + bytes > CAPACITY
      {
        assert !AdmitsBytes(before, budget, bytes) && Handed() == Step(before, Retain(budget, bytes));
        return false;
      }
      assert AdmitsBytes(before, budget, bytes);
      SumAfterUpdate(owned, budget, owned[budget] + bytes);
      owned := owned[budget := owned[budget] + bytes];
      retainedBytes := retainedBytes + bytes;
      assert Handed() == Step(before, Retain(budget, bytes));
      return true;
    }

    method Release(budget: nat)
      requires Valid() && budget < |owned|
      modifies this`owned, this`retainedBytes
      ensures Valid() && Handed() == Step(old(Handed()), Settle(budget))
    {
      StepFits(Handed(), Settle(budget));
      SumAfterUpdate(owned, budget, 0);
      retainedBytes := retainedBytes - owned[budget];
      owned := owned[budget := 0];
    }

    /** What the statistics report never exceeds the capacity, decoder included. */
    method OutputBufferStats() returns (reservedBytes: nat, decoderQueued: nat)
      requires Valid()
      ensures reservedBytes <= CAPACITY
      ensures reservedBytes ==
              Open(released) * PRODUCER_BUFFER_BYTES + Sum(owned) + (if done < |asked| then DECODE_BUFFER_BYTES else 0)
      ensures decoderQueued == if done < |asked| then |asked| - done - 1 else 0
    {
      reservedBytes := producers * PRODUCER_BUFFER_BYTES + retainedBytes
        + (if decoding then DECODE_BUFFER_BYTES else 0);
      decoderQueued := |decodeWaiters|;
    }

    /** The caller proceeds at once, or joins the end of the queue. */
    method AcquireDecoder(caller: nat) returns (atOnce: bool)
      requires Valid()
      modifies this`decoding, this`decodeWaiters, this`asked
      ensures Valid() && asked == old(asked) + [caller]
      ensures atOnce == !old(decoding) && (atOnce ==> Holds(caller))
      ensures forall holder :: old(Holds(holder)) ==> Holds(holder)
    {
      if decoding {
        decodeWaiters := decodeWaiters + [caller];
        atOnce := false;
      } else {
        decoding := true;
        atOnce := true;
      }
      asked := asked + [caller];
    }

    /** Called once by the holder; the permit passes to whoever asked next. */
    method ReleaseDecoder(ghost caller: nat) returns (woken: Option<nat>)
      requires Valid() && Holds(caller)
      modifies this`decoding, this`decodeWaiters, this`done
      ensures Valid() && done == old(done) + 1
      ensures woken == if done < |asked| then Some(asked[done]) else None
      ensures woken.Some? ==> Holds(woken.value)
    {
      if |decodeWaiters| > 0 {
        woken := Some(decodeWaiters[0]);
        decodeWaiters := decodeWaiters[1..];
      } else {
        woken := None;
        decoding := false;
      }
      done := done + 1;
    }
  }
}
