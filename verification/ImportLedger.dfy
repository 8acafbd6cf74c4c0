/**
 The supervisor's durable import progress: items received chunk by chunk, sealed once, under
 generations of import authority. Each method is one transaction.
 */
module ImportLedger {
  import opened Wrappers

  datatype Chunk = Chunk(offset: int, length: int, sha256: string)

  /** A row of the chunk table. */
  datatype Row = Row(index: nat, chunk: Chunk)

  datatype Phase = Pending | Receiving | Sealed(objectId: string)

  /** An item's row together with its chunk rows, in the order in which they were inserted. */
  datatype Item = Item(lane: string, runId: string, sizeBytes: nat, sha256: string,
                       receivedBytes: nat, phase: Phase, rows: seq<Row>)

  datatype ChunkResult =
    | Committed | Duplicate
    | UnknownItem | ItemSealed | ChunkConflict | OffsetMismatch | ConstraintFailed

  datatype SealResult = NewlySealed | AlreadySealed | SealUnknownItem | SealConflict | Incomplete

  // ---------------------------------------------------------------- one item

  /** The chunk stored under an index. */
  function Stored(rows: seq<Row>, index: int): Option<Chunk> {
    if rows == [] then None
    else if rows[|rows| - 1].index == index then Some(rows[|rows| - 1].chunk)
    else Stored(rows[..|rows| - 1], index)
  }

  function Offer(item: Item, index: int, c: Chunk): ChunkResult {
    if item.phase.Sealed? then ItemSealed
    else if Stored(item.rows, index).Some?
      then (if Stored(item.rows, index).value == c then Duplicate else ChunkConflict)
    else if c.offset != item.receivedBytes || c.offset + c.length > item.sizeBytes then OffsetMismatch
    else if index < 0 || c.length <= 0 then ConstraintFailed
    else Committed
  }

  function Receive(item: Item, index: int, c: Chunk): Item {
    if Offer(item, index, c).Committed?
    then item.(receivedBytes := item.receivedBytes + c.length, phase := Receiving, rows := item.rows + [Row(index, c)])
    else item
  }

  function Attempt(item: Item, objectId: string): SealResult {
    if item.phase.Sealed? then (if item.phase.objectId == objectId then AlreadySealed else SealConflict)
    else if item.receivedBytes != item.sizeBytes then Incomplete
    else NewlySealed
  }

  function Seal(item: Item, objectId: string): Item {
    if Attempt(item, objectId).NewlySealed? then item.(phase := Sealed(objectId)) else item
  }

  /** Total length of the first k chunks. */
  function End(rows: seq<Row>, k: nat): int
    requires k <= |rows|
  {
    if k == 0 then 0 else End(rows, k - 1) + rows[k - 1].chunk.length
  }

  /** Each chunk begins where the previous ones end. */
  ghost predicate Tiles(rows: seq<Row>) {
    forall k :: 0 <= k < |rows| ==> rows[k].chunk.length > 0 && rows[k].chunk.offset == End(rows, k)
  }

  ghost predicate Sound(item: Item) {
    && Tiles(item.rows)
    && item.receivedBytes == End(item.rows, |item.rows|) && item.receivedBytes <= item.sizeBytes
    && (item.phase.Sealed? ==> item.receivedBytes == item.sizeBytes)
  }

  /** What a later state of an item keeps: what it is, every chunk received, and a seal with its object. */
  ghost predicate Continues(a: Item, b: Item) {
    && b.lane == a.lane && b.runId == a.runId && b.sizeBytes == a.sizeBytes && b.sha256 == a.sha256
    && a.receivedBytes <= b.receivedBytes && a.rows <= b.rows
    && (forall index :: Stored(a.rows, index).Some? ==> Stored(b.rows, index) == Stored(a.rows, index))
    && (a.phase.Sealed? ==> b == a)
  }

  lemma {:induction false} EndOfPrefix(rows: seq<Row>, r: Row, k: nat)
    requires k <= |rows|
    ensures End(rows + [r], k) == End(rows, k)
  {
    if k > 0 {
      EndOfPrefix(rows, r, k - 1);
    }
  }

  lemma TilesFurther(rows: seq<Row>, r: Row)
    requires Tiles(rows) && r.chunk.length > 0 && r.chunk.offset == End(rows, |rows|)
    ensures Tiles(rows + [r]) && End(rows + [r], |rows| + 1) == End(rows, |rows|) + r.chunk.length
  {
    EndOfPrefix(rows, r, |rows|);
    forall k | 0 <= k < |rows|
      ensures (rows + [r])[k].chunk.offset == End(rows + [r], k)
    {
      EndOfPrefix(rows, r, k);
    }
  }

  lemma StoredAfter(rows: seq<Row>, r: Row, index: int)
    ensures Stored(rows + [r], index) == if index == r.index then Some(r.chunk) else Stored(rows, index)
  {
    assert (rows + [r])[..|rows|] == rows;
  }

  lemma ReceiveKeepsSound(item: Item, index: int, c: Chunk)
    requires Sound(item)
    ensures Sound(Receive(item, index, c)) && Continues(item, Receive(item, index, c))
  {
    if Offer(item, index, c).Committed? {
      TilesFurther(item.rows, Row(index, c));
      forall i
        ensures Stored(item.rows, i).Some? ==> Stored(item.rows + [Row(index, c)], i) == Stored(item.rows, i)
      {
        StoredAfter(item.rows, Row(index, c), i);
      }
    }
  }

  lemma SealKeepsSound(item: Item, objectId: string)
    requires Sound(item)
    ensures Sound(Seal(item, objectId)) && Continues(item, Seal(item, objectId))
  {
  }

  ghost predicate Holds(c: Chunk, position: int) {
    c.offset <= position < c.offset + c.length
  }

  lemma {:induction false} EndsAscend(rows: seq<Row>, i: nat, j: nat)
    requires Tiles(rows) && i <= j <= |rows|
    ensures End(rows, i) <= End(rows, j)
  {
    if i < j {
      EndsAscend(rows, i, j - 1);
    }
  }

  /** Some of the first k chunks holds the position. */
  ghost predicate Covered(rows: seq<Row>, k: nat, position: int)
    requires k <= |rows|
  {
    k > 0 && (Holds(rows[k - 1].chunk, position) || Covered(rows, k - 1, position))
  }

  lemma {:induction false} CoveredBySome(rows: seq<Row>, k: nat, position: int)
    requires k <= |rows|
    ensures Covered(rows, k, position) <==> exists i :: 0 <= i < k && Holds(rows[i].chunk, position)
  {
    if k > 0 {
      CoveredBySome(rows, k - 1, position);
    }
  }

  lemma {:induction false} CoveredExactly(rows: seq<Row>, k: nat, position: int)
    requires Tiles(rows) && k <= |rows|
    ensures Covered(rows, k, position) <==> 0 <= position < End(rows, k)
  {
    if k > 0 {
      CoveredExactly(rows, k - 1, position);
      EndsAscend(rows, 0, k - 1);
    }
  }

  lemma ChunksAreApart(rows: seq<Row>, i: nat, j: nat, position: int)
    requires Tiles(rows) && i < j < |rows|
    ensures !(Holds(rows[i].chunk, position) && Holds(rows[j].chunk, position))
  {
    EndsAscend(rows, i + 1, j);
  }

  // ------------------------------------------------------------------ ledger

  /** The tables; `issued` is every generation ever enabled, in order. */
  datatype Ledger = Ledger(items: map<string, Item>, nextGeneration: nat, revoked: map<nat, bool>, issued: seq<nat>)

  const EMPTY := Ledger(map[], 1, map[], [])

  datatype Op =
    | RegisterItem(id: string, lane: string, runId: string, sizeBytes: nat, sha256: string)
    | CommitChunk(id: string, index: int, chunk: Chunk)
    | SealItem(id: string, objectId: string)
    | Enable
    | Revoke(generation: nat)

  function Step(l: Ledger, op: Op): Ledger {
    match op
    case RegisterItem(id, lane, runId, size, sha256) =>
      if id in l.items then l else l.(items := l.items[id := Item(lane, runId, size, sha256, 0, Pending, [])])
    case CommitChunk(id, index, chunk) =>
      if id in l.items then l.(items := l.items[id := Receive(l.items[id], index, chunk)]) else l
    case SealItem(id, objectId) =>
      if id in l.items then l.(items := l.items[id := Seal(l.items[id], objectId)]) else l
    case Enable =>
      l.(nextGeneration := l.nextGeneration + 1, revoked := l.revoked[l.nextGeneration := false],
         issued := l.issued + [l.nextGeneration])
    case Revoke(g) => if g in l.revoked then l.(revoked := l.revoked[g := true]) else l
  }

  function Run(l: Ledger, ops: seq<Op>): Ledger
    decreases |ops|
  {
    if ops == [] then l else Run(Step(l, ops[0]), ops[1..])
  }

  ghost predicate ItemsSound(items: map<string, Item>) {
    forall id :: id in items ==> Sound(items[id])
  }

  /** Numbers are issued in ascending order, all below the next one; the table holds those issued. */
  ghost predicate Generations(next: nat, revoked: map<nat, bool>, issued: seq<nat>) {
    && (forall g :: g in revoked ==> g < next)
    && (forall i :: 0 <= i < |issued| ==> issued[i] < next && issued[i] in revoked)
    && (forall i, j :: 0 <= i < j < |issued| ==> issued[i] < issued[j])
  }

  ghost predicate Inv(l: Ledger) {
    ItemsSound(l.items) && Generations(l.nextGeneration, l.revoked, l.issued)
  }

  ghost predicate ItemsContinue(items: map<string, Item>, later: map<string, Item>) {
    forall id :: id in items ==> id in later && Continues(items[id], later[id])
  }

  /** Generations only grow, and a revoked one stays revoked. */
  ghost predicate GenerationsContinue(revoked: map<nat, bool>, issued: seq<nat>, revoked': map<nat, bool>,
                                      issued': seq<nat>) {
    issued <= issued' && forall g :: g in revoked ==> g in revoked' && (revoked[g] ==> revoked'[g])
  }

  ghost predicate Evolves(l: Ledger, m: Ledger) {
    ItemsContinue(l.items, m.items) && GenerationsContinue(l.revoked, l.issued, m.revoked, m.issued)
  }

  lemma ReplaceItem(items: map<string, Item>, id: string, item: Item)
    requires ItemsSound(items) && Sound(item) && (id in items ==> Continues(items[id], item))
    ensures ItemsSound(items[id := item]) && ItemsContinue(items, items[id := item])
  {
  }

  lemma SameItems(items: map<string, Item>)
    ensures ItemsContinue(items, items)
  {
  }

  lemma ItemStep(l: Ledger, op: Op)
    requires ItemsSound(l.items)
    ensures ItemsSound(Step(l, op).items) && ItemsContinue(l.items, Step(l, op).items)
  {
    SameItems(l.items);
    match op {
      case RegisterItem(id, lane, runId, size, sha256) =>
        if id !in l.items {
          ReplaceItem(l.items, id, Item(lane, runId, size, sha256, 0, Pending, []));
        }
      case CommitChunk(id, index, chunk) =>
        if id in l.items {
          ReceiveKeepsSound(l.items[id], index, chunk);
          ReplaceItem(l.items, id, Receive(l.items[id], index, chunk));
        }
      case SealItem(id, objectId) =>
        if id in l.items {
          SealKeepsSound(l.items[id], objectId);
          ReplaceItem(l.items, id, Seal(l.items[id], objectId));
        }
      case _ =>
    }
  }

  lemma GenerationStep(l: Ledger, op: Op)
    requires Generations(l.nextGeneration, l.revoked, l.issued)
    ensures var m := Step(l, op);
            Generations(m.nextGeneration, m.revoked, m.issued)
              && GenerationsContinue(l.revoked, l.issued, m.revoked, m.issued)
  {
  }

  lemma ContinuesTogether(items: map<string, Item>, between: map<string, Item>, later: map<string, Item>)
    requires ItemsContinue(items, between) && ItemsContinue(between, later)
    ensures ItemsContinue(items, later)
  {
    forall id | id in items
      ensures id in later && Continues(items[id], later[id])
    {
      assert Continues(items[id], between[id]) && Continues(between[id], later[id]);
    }
  }

  // ------------------------------------------------------------ main results

  /** In any order of registering, receiving, sealing, enabling and revoking. */
  lemma {:induction false} RunKeepsInv(l: Ledger, ops: seq<Op>)
    requires Inv(l)
    ensures Inv(Run(l, ops)) && Evolves(l, Run(l, ops))
    decreases |ops|
  {
    SameItems(l.items);
    if ops != [] {
      ItemStep(l, ops[0]);
      GenerationStep(l, ops[0]);
      RunKeepsInv(Step(l, ops[0]), ops[1..]);
      ContinuesTogether(l.items, Step(l, ops[0]).items, Run(l, ops).items);
    }
  }

  /** After any run: what an item has received is exactly covered by its chunks, each byte once. */
  lemma ReceivedIsCoveredOnce(ops: seq<Op>, id: string, position: int)
    requires id in Run(EMPTY, ops).items
    ensures var item := Run(EMPTY, ops).items[id];
            && (0 <= position < item.receivedBytes <==>
                  exists i :: 0 <= i < |item.rows| && Holds(item.rows[i].chunk, position))
            && item.receivedBytes <= item.sizeBytes
            && forall i, j :: 0 <= i < j < |item.rows| ==>
                 !(Holds(item.rows[i].chunk, position) && Holds(item.rows[j].chunk, position))
  {
    RunKeepsInv(EMPTY, ops);
    var rows := Run(EMPTY, ops).items[id].rows;
    CoveredExactly(rows, |rows|, position);
    CoveredBySome(rows, |rows|, position);
    forall i, j | 0 <= i < j < |rows|
      ensures !(Holds(rows[i].chunk, position) && Holds(rows[j].chunk, position))
    {
      ChunksAreApart(rows, i, j, position);
    }
  }

  lemma {:induction false} StoredIs(rows: seq<Row>, index: int)
    ensures Stored(rows, index).Some? <==> exists i :: 0 <= i < |rows| && rows[i].index == index
  {
    if rows != [] {
      var n := |rows| - 1;
      StoredIs(rows[..n], index);
      if i :| 0 <= i < |rows| && rows[i].index == index {
        assert i < n ==> rows[..n][i] == rows[i];
      }
    }
  }

  /**
   A chunk is committed exactly if the item is not sealed, its index is new, and it is not empty, begins where the last
   one ended and does not reach beyond the item's size; the very last one included. Then it is appended.
   */
  lemma FittingChunkIsCommitted(l: Ledger, id: string, index: int, c: Chunk)
    requires id in l.items
    ensures var item, next := l.items[id], Step(l, CommitChunk(id, index, c)).items[id];
            var fits := && !item.phase.Sealed? && index >= 0 && c.length > 0
                        && (forall i :: 0 <= i < |item.rows| ==> item.rows[i].index != index)
                        && c.offset == item.receivedBytes && c.offset + c.length <= item.sizeBytes;
            && (Offer(item, index, c) == Committed <==> fits)
            && (fits ==>
                  next == item.(receivedBytes := item.receivedBytes + c.length, phase := Receiving,
                                rows := item.rows + [Row(index, c)]))
            && (!fits ==> next == item)
  {
    StoredIs(l.items[id].rows, index);
  }

  /** An item is sealed exactly if it is complete; a sealed one answers to its object only. */
  lemma CompleteItemIsSealed(l: Ledger, id: string, objectId: string)
    requires id in l.items
    ensures var item, next := l.items[id], Step(l, SealItem(id, objectId)).items[id];
            var r := Attempt(item, objectId);
            && (r == NewlySealed <==> !item.phase.Sealed? && item.receivedBytes == item.sizeBytes)
            && (r == Incomplete <==> !item.phase.Sealed? && item.receivedBytes != item.sizeBytes)
            && (r == AlreadySealed <==> item.phase == Sealed(objectId))
            && (r == SealConflict <==> item.phase.Sealed? && item.phase.objectId != objectId)
            && next == if r == NewlySealed then item.(phase := Sealed(objectId)) else item
  {
  }

  lemma KnownIndexIsRefused(item: Item, later: Item, index: int, d: Chunk)
    requires Continues(item, later) && Stored(item.rows, index).Some?
    ensures Receive(later, index, d) == later
    ensures Offer(later, index, d) ==
            if later.phase.Sealed? then ItemSealed
            else if d == Stored(item.rows, index).value then Duplicate else ChunkConflict
  {
  }

  /** Once a chunk is committed, sending anything again under its index changes nothing, ever. */
  lemma RepeatedChunkChangesNothing(l: Ledger, id: string, index: int, c: Chunk, ops: seq<Op>, d: Chunk)
    requires Inv(l) && id in l.items && Offer(l.items[id], index, c).Committed?
    ensures var m := Run(Step(l, CommitChunk(id, index, c)), ops);
            && id in m.items && Step(m, CommitChunk(id, index, d)) == m
            && Offer(m.items[id], index, d) ==
               if m.items[id].phase.Sealed? then ItemSealed else if d == c then Duplicate else ChunkConflict
  {
    var first := Step(l, CommitChunk(id, index, c));
    ItemStep(l, CommitChunk(id, index, c));
    GenerationStep(l, CommitChunk(id, index, c));
    RunKeepsInv(first, ops);
    var m := Run(first, ops);
    StoredAfter(l.items[id].rows, Row(index, c), index);
    assert ItemsContinue(first.items, m.items);
    KnownIndexIsRefused(first.items[id], m.items[id], index, d);
    SameEntry(m, id);
  }

  lemma SameEntry(l: Ledger, id: string)
    requires id in l.items
    ensures l.(items := l.items[id := l.items[id]]) == l
  {
    assert l.items[id := l.items[id]] == l.items;
  }

  /** A sealed item is complete and keeps its one object id for good. */
  lemma SealIsFinal(l: Ledger, id: string, ops: seq<Op>, objectId: string)
    requires Inv(l) && id in l.items && l.items[id].phase.Sealed?
    ensures l.items[id].receivedBytes == l.items[id].sizeBytes
    ensures var m := Run(l, ops);
            && id in m.items && m.items[id] == l.items[id]
            && Attempt(m.items[id], objectId) ==
               if objectId == l.items[id].phase.objectId then AlreadySealed else SealConflict
  {
    RunKeepsInv(l, ops);
    assert ItemsContinue(l.items, Run(l, ops).items);
  }

  // --------------------------------------------------------------- the tables

  lemma ReceivingKeepsInv(l: Ledger, id: string, index: int, c: Chunk)
    requires Inv(l)
    ensures Inv(Step(l, CommitChunk(id, index, c)))
    ensures id !in l.items || !Offer(l.items[id], index, c).Committed? ==> Step(l, CommitChunk(id, index, c)) == l
  {
    ItemStep(l, CommitChunk(id, index, c));
    if id in l.items {
      SameEntry(l, id);
    }
  }

  lemma SealingKeepsInv(l: Ledger, id: string, objectId: string)
    requires Inv(l)
    ensures Inv(Step(l, SealItem(id, objectId)))
    ensures id !in l.items || !Attempt(l.items[id], objectId).NewlySealed? ==> Step(l, SealItem(id, objectId)) == l
  {
    ItemStep(l, SealItem(id, objectId));
    if id in l.items {
      SameEntry(l, id);
    }
  }

  class ImportProgress {
    var items: map<string, Item>
    var nextGeneration: nat
    var revoked: map<nat, bool>
    ghost var issued: seq<nat>

    ghost function State(): Ledger
      reads this
    {
      Ledger(items, nextGeneration, revoked, issued)
    }

    ghost predicate Valid()
      reads this
    {
      Inv(State())
    }

    constructor ()
      ensures Valid() && State() == EMPTY
    {
      items, nextGeneration, revoked, issued := map[], 1, map[], [];
    }

    method RegisterImportItem(id: string, lane: string, runId: string, sizeBytes: nat, sha256: string)
      requires Valid()
      modifies this`items
      ensures Valid() && State() == Step(old(State()), RegisterItem(id, lane, runId, sizeBytes, sha256))
    {
      ItemStep(State(), RegisterItem(id, lane, runId, sizeBytes, sha256));
      if id !in items {
        items := items[id := Item(lane, runId, sizeBytes, sha256, 0, Pending, [])];
      }
    }

    /** The checks on a chunk in the order in which they are made, and the item with its new row. */
    static method Take(item: Item, index: int, c: Chunk) returns (r: ChunkResult, next: Item)
      ensures r == Offer(item, index, c) && next == Receive(item, index, c)
      ensures !r.Committed? ==> next == item
    {
      next := item;
      if item.phase.Sealed? {
        return ItemSealed, next;
      }
      var existing := Stored(item.rows, index);
      if existing.Some? {
        if existing.value.offset != c.offset || existing.value.length != c.length || existing.value.sha256 != c.sha256 {
          return ChunkConflict, next;
        }
        return Duplicate, next;
      }
      if c.offset != item.receivedBytes || c.offset + c.length > item.sizeBytes {
        return OffsetMismatch, next;
      }
      if index < 0 || c.length <= 0 {
        return ConstraintFailed, next;
      }
      next := item.(receivedBytes := item.receivedBytes + c.length, phase := Receiving,
                    rows := item.rows + [Row(index, c)]);
      return Committed, next;
    }

    method ReceiveChunk(id: string, index: int, c: Chunk) returns (r: ChunkResult)
      requires Valid()
      modifies this`items
      ensures r == if id in old(items) then Offer(old(items)[id], index, c) else UnknownItem
      ensures Valid() && State() == Step(old(State()), CommitChunk(id, index, c))
    {
      ReceivingKeepsInv(State(), id, index, c);
      if id !in items {
        return UnknownItem;
      }
      var next;
      r, next := Take(items[id], index, c);
      if r.Committed? {
        items := items[id := next];
      }
    }

    method SealImportItem(id: string, objectId: string) returns (r: SealResult)
      requires Valid()
      modifies this`items
      ensures r == if id in old(items) then Attempt(old(items)[id], objectId) else SealUnknownItem
      ensures Valid() && State() == Step(old(State()), SealItem(id, objectId))
    {
      SealingKeepsInv(State(), id, objectId);
      if id !in items {
        return SealUnknownItem;
      }
      var item := items[id];
      if item.phase.Sealed? {
        return if item.phase.objectId == objectId then AlreadySealed else SealConflict;
      }
      if item.receivedBytes != item.sizeBytes {
        return Incomplete;
      }
      items := items[id := item.(phase := Sealed(objectId))];
      return NewlySealed;
    }

    /** The number issued is higher than every one before it. */
    method EnableGeneration() returns (generation: nat)
      requires Valid()
      modifies this`nextGeneration, this`revoked, this`issued
      ensures Valid() && State() == Step(old(State()), Enable)
      ensures issued == old(issued) + [generation] && forall g :: g in old(issued) ==> g < generation
    {
      GenerationStep(State(), Enable);
      generation := nextGeneration;
      revoked := revoked[generation := false];
      nextGeneration := generation + 1;
      issued := issued + [generation];
    }

    method RevokeGeneration(generation: nat)
      requires Valid()
      modifies this`revoked
      ensures Valid() && State() == Step(old(State()), Revoke(generation))
    {
      GenerationStep(State(), Revoke(generation));
      if generation in revoked {
        revoked := revoked[generation := true];
      }
    }
  }
}
