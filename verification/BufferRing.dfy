/** What the reader's and the writer's ring of buffers have in common. */
module BufferRing {

  newtype Byte = b: int | 0 <= b < 256
  type Bytes = seq<Byte>

  const BUFFER_COUNT: nat := 8
  const BUFFER_SIZE: nat := 256 * 1024

  datatype AioResult = Ok | Wait | Error

  /** A window onto one of the memory regions; it does not own the bytes. */
  datatype Buffer = Buffer(region: nat, start: nat, size: nat)

  /** The memory regions, the slots describing them, the first ready slot and the number of ready ones. */
  datatype Ring = Ring(memory: seq<Bytes>, buffers: seq<Buffer>, pos: nat, count: nat)

  /** The slot that comes `k` places after `pos`, going round. */
  function Slot(pos: nat, k: nat): (i: nat)
    requires pos < BUFFER_COUNT && k <= BUFFER_COUNT
    ensures i < BUFFER_COUNT
  {
    if pos + k < BUFFER_COUNT then pos + k else pos + k - BUFFER_COUNT
  }

  lemma SlotIsModulo(pos: nat, k: nat)
    requires pos < BUFFER_COUNT && k <= BUFFER_COUNT
    ensures Slot(pos, k) == (pos + k) % BUFFER_COUNT
  {}

  /** The slot behind the ready ones. */
  function NextSlot(r: Ring): (i: nat)
    requires r.pos < BUFFER_COUNT && r.count <= BUFFER_COUNT
    ensures i < BUFFER_COUNT
  {
    Slot(r.pos, r.count)
  }

  predicate InMemory(memory: seq<Bytes>, b: Buffer) {
    b.region < |memory| && b.start + b.size <= |memory[b.region]|
  }

  function Contents(memory: seq<Bytes>, b: Buffer): (c: Bytes)
    requires InMemory(memory, b)
    ensures |c| == b.size
  {
    memory[b.region][b.start..b.start + b.size]
  }

  /** Slot `i` describes region `i`, and the ready slots describe bytes that are there. */
  predicate WellFormed(r: Ring) {
    && |r.memory| == |r.buffers| == BUFFER_COUNT
    && r.pos < BUFFER_COUNT && r.count <= BUFFER_COUNT
    && (forall i :: 0 <= i < BUFFER_COUNT ==> r.buffers[i].region == i)
    && (forall k :: 0 <= k < r.count ==> InMemory(r.memory, r.buffers[Slot(r.pos, k)]))
  }

  predicate FrontInMemory(r: Ring)
    requires WellFormed(r)
    ensures r.count > 0 ==> FrontInMemory(r)
  {
    assert Slot(r.pos, 0) == r.pos;
    InMemory(r.memory, r.buffers[r.pos])
  }

  /** What the ready slots hold, oldest first. */
  function Queued(r: Ring): (q: seq<Bytes>)
    requires WellFormed(r)
    ensures |q| == r.count
  {
    seq(r.count, k requires 0 <= k < r.count => Contents(r.memory, r.buffers[Slot(r.pos, k)]))
  }

  function Flatten(q: seq<Bytes>): Bytes {
    if q == [] then [] else q[0] + Flatten(q[1..])
  }

  lemma {:induction false} FlattenAppend(q: seq<Bytes>, x: Bytes)
    ensures Flatten(q + [x]) == Flatten(q) + x
  {
    if q == [] {
      assert q + [x] == [x] && [x][1..] == [];
    } else {
      FlattenAppend(q[1..], x);
      assert (q + [x])[1..] == q[1..] + [x];
    }
  }

  function EmptyRing(): (r: Ring)
    ensures WellFormed(r) && r.count == 0
  {
    var none: Bytes := [];
    Ring([none, none, none, none, none, none, none, none],
         [Buffer(0, 0, 0), Buffer(1, 0, 0), Buffer(2, 0, 0), Buffer(3, 0, 0),
          Buffer(4, 0, 0), Buffer(5, 0, 0), Buffer(6, 0, 0), Buffer(7, 0, 0)], 0, 0)
  }

  lemma EmptyQueue(r: Ring)
    requires WellFormed(r) && r.count == 0
    ensures Queued(r) == [] && Flatten(Queued(r)) == []
  {}

  // ---------------------------------------------------------------- operations

  function Push(r: Ring, b: Buffer): Ring
    requires WellFormed(r)
  {
    r.(buffers := r.buffers[NextSlot(r) := b], count := r.count + 1)
  }

  function Pop(r: Ring): (r': Ring)
    requires WellFormed(r) && r.count > 0
    ensures WellFormed(r') && NextSlot(r') == NextSlot(r)
  {
    assert forall k {:trigger Slot(Slot(r.pos, 1), k)} :: 0 <= k < r.count ==> Slot(Slot(r.pos, 1), k) == Slot(r.pos, k + 1);
    r.(pos := Slot(r.pos, 1), count := r.count - 1)
  }

  function ConsumeFront(r: Ring, n: nat): (r': Ring)
    requires WellFormed(r) && r.count > 0 && n <= r.buffers[r.pos].size
    ensures WellFormed(r') && NextSlot(r') == NextSlot(r)
  {
    var b := r.buffers[r.pos];
    r.(buffers := r.buffers[r.pos := Buffer(b.region, b.start + n, b.size - n)])
  }

  function WriteRegion(r: Ring, region: nat, bytes: Bytes): Ring
    requires region < |r.memory|
  {
    r.(memory := r.memory[region := bytes])
  }

  // ---------------------------------------------------------------- their effect on the queue

  lemma SlotsDiffer(pos: nat, j: nat, k: nat)
    requires pos < BUFFER_COUNT && j < k <= BUFFER_COUNT && k < j + BUFFER_COUNT
    ensures Slot(pos, j) != Slot(pos, k)
  {}

  /** Filling the slot behind the last ready one appends its contents to the queue. */
  lemma QueuePush(r: Ring, b: Buffer)
    requires WellFormed(r) && r.count < BUFFER_COUNT
    requires b.region == NextSlot(r) && InMemory(r.memory, b)
    ensures WellFormed(Push(r, b))
    ensures Queued(Push(r, b)) == Queued(r) + [Contents(r.memory, b)]
    ensures Flatten(Queued(Push(r, b))) == Flatten(Queued(r)) + Contents(r.memory, b)
    ensures r.count > 0 ==> Push(r, b).buffers[r.pos] == r.buffers[r.pos]
  {
    forall k | 0 <= k < r.count ensures Push(r, b).buffers[Slot(r.pos, k)] == r.buffers[Slot(r.pos, k)] {
      SlotsDiffer(r.pos, k, r.count);
    }
    assert Slot(r.pos, 0) == r.pos;
    FlattenAppend(Queued(r), Contents(r.memory, b));
  }

  /** Moving on past the oldest slot drops it from the queue; the slot behind the queue stays. */
  lemma QueuePop(r: Ring)
    requires WellFormed(r) && r.count > 0
    ensures FrontInMemory(r)
    ensures Queued(Pop(r)) == Queued(r)[1..]
    ensures Queued(r)[0] == Contents(r.memory, r.buffers[r.pos])
    ensures Flatten(Queued(r)) == Contents(r.memory, r.buffers[r.pos]) + Flatten(Queued(Pop(r)))
  {
    assert forall k {:trigger Slot(Pop(r).pos, k)} :: 0 <= k < r.count - 1 ==> Slot(Pop(r).pos, k) == Slot(r.pos, k + 1);
    assert Slot(r.pos, 0) == r.pos;
  }

  /** Consuming bytes of the oldest slot shortens the queue's contents from the front. */
  lemma QueueConsume(r: Ring, n: nat)
    requires WellFormed(r) && r.count > 0
    requires n <= r.buffers[r.pos].size
    ensures FrontInMemory(r)
    ensures n <= |Flatten(Queued(r))|
    ensures Flatten(Queued(ConsumeFront(r, n))) == Flatten(Queued(r))[n..]
    ensures Flatten(Queued(r))[..n] == Contents(r.memory, r.buffers[r.pos])[..n]
  {
    var r' := ConsumeFront(r, n);
    assert Slot(r.pos, 0) == r.pos;
    forall k | 0 < k < r.count ensures Slot(r.pos, k) != r.pos {
      SlotsDiffer(r.pos, 0, k);
    }
    var (q, q') := (Queued(r), Queued(r'));
    assert q'[0] == q[0][n..];
    assert q'[1..] == q[1..];
  }

  /** Writing into the region of the slot behind the queue leaves the queue alone. */
  lemma QueueUntouched(r: Ring, bytes: Bytes)
    requires WellFormed(r) && r.count < BUFFER_COUNT
    ensures WellFormed(WriteRegion(r, NextSlot(r), bytes))
    ensures Queued(WriteRegion(r, NextSlot(r), bytes)) == Queued(r)
  {
    forall k | 0 <= k < r.count ensures Slot(r.pos, k) != NextSlot(r) {
      SlotsDiffer(r.pos, k, r.count);
    }
  }
}
