/**
 The asynchronous file reader: a worker thread reads ahead into the ring's buffers, without
 the mutex, and a client takes them one after the other. Each critical section and each
 unlocked access is one step; a run is any interleaving of steps over a fixed file.
 */
module ReaderRing {
  import opened BufferRing
  import opened Optional

  /** Where the worker is; while reading it keeps the slot it picked before it released the mutex. */
  datatype Worker = AtHead | Asleep | Reading(slot: nat, toRead: nat) | HaveRead(slot: nat, n: int) | Exited

  /** The file's data, the offset and size limit asked for, and the part of the file they mean. */
  datatype Request = Request(data: Bytes, offset: nat, maxSize: Option<nat>, target: Bytes)

  /**
   The fields of the reader with the worker, the file's read position, the number of
   undelivered read-ready events and the buffer the client holds. `delivered` is what the client
   has been given so far and `sawEnd` whether that included the empty buffer that marks the end.
   */
  datatype Reader = Reader(
    ring: Ring, processing: bool, handlerWaiting: bool, error: bool, quit: bool, calledRead: bool,
    signalled: bool, worker: Worker, events: nat, filePos: nat, remaining: nat,
    held: Option<Buffer>, want: Request, delivered: Bytes, sawEnd: bool)

  // ---------------------------------------------------------------- the client's steps

  /** The buffer taken last is given back. */
  function GiveBack(r: Reader): (r': Reader)
    requires ValidRing(r)
    ensures WellFormed(r'.ring)
    ensures r'.want == r.want
  {
    if !r.processing then r
    else r.(ring := Pop(r.ring), signalled := r.signalled || r.ring.count == BUFFER_COUNT, processing := false, held := None)
  }

  /** The oldest ready buffer is taken, or the client has to wait. */
  function TakeNext(r: Reader): (Reader, AioResult)
    requires WellFormed(r.ring)
  {
    if r.ring.count == 0 then (r.(handlerWaiting := true, held := None), Wait) else
    assert FrontInMemory(r.ring);
    var b := r.ring.buffers[r.ring.pos];
    (r.(calledRead := true, processing := true, held := Some(b),
        delivered := r.delivered + Contents(r.ring.memory, b), sawEnd := r.sawEnd || b.size == 0), Ok)
  }

  function Read(r: Reader): (Reader, AioResult)
    requires ValidRing(r)
  {
    if r.error then (r, Error) else TakeNext(GiveBack(r))
  }

  predicate SeekChanges(r: Reader, offset: Option<nat>, maxSize: Option<nat>) {
    r.calledRead || (offset.Some? && (offset.value != r.want.offset || maxSize != r.want.maxSize))
  }

  /** What is asked for: from the offset, at most `maxSize` bytes. */
  function Window(data: Bytes, offset: nat, maxSize: Option<nat>): Bytes
    requires offset <= |data|
  {
    var rest := data[offset..];
    if maxSize.Some? && maxSize.value < |rest| then rest[..maxSize.value] else rest
  }

  /** The worker is gone; the ring and the flags are reset. */
  function Cleared(r: Reader): Reader {
    r.(ring := r.ring.(pos := 0, count := 0), processing := false, quit := false, handlerWaiting := false,
       calledRead := false, events := 0, held := None, delivered := [], sawEnd := false)
  }

  /** How the file system and the thread pool answer when reading starts over. */
  datatype Outcome = Started | SeekFails | SizeFails | SpawnFails

  /** The part of the file asked for; an offset behind the end asks for nothing. */
  function Asked(data: Bytes, offset: nat, maxSize: Option<nat>): Request {
    Request(data, offset, maxSize, if offset <= |data| then Window(data, offset, maxSize) else [])
  }

  /** Everything starts over at an offset, which must lie in the file; otherwise, and on any failure, there is
      an error and no worker. */
  function Restart(r: Reader, offset: nat, maxSize: Option<nat>, outcome: Outcome): Reader {
    var want := Asked(r.want.data, offset, maxSize);
    var r1 := Cleared(r).(want := want, remaining := |want.target|);
    if outcome != Started || offset > |r.want.data| then r1.(error := true, worker := Exited)
    else r1.(filePos := offset, worker := AtHead)
  }

  /** Without an offset this is a rewind. The worker is stopped and joined, which may leave a signal behind. */
  function Seek(r: Reader, offset: Option<nat>, maxSize: Option<nat>, outcome: Outcome): (Reader, AioResult) {
    if r.error then (r, Error)
    else if !SeekChanges(r, offset, maxSize) then (r, Ok)
    else
      var r' := if offset.Some? then Restart(r.(signalled := true), offset.value, maxSize, outcome)
                else Restart(r.(signalled := true), r.want.offset, r.want.maxSize, outcome);
      (r', if r'.error then Error else Ok)
  }

  // ---------------------------------------------------------------- the worker's steps

  function SendEvent(r: Reader): (r': Reader)
    ensures r'.want == r.want
  {
    if r.handlerWaiting then r.(handlerWaiting := false, events := r.events + 1) else r
  }

  /** The slot becomes a ready one. Never more is read than remains. */
  function Added(r: Reader, slot: nat, n: nat): Reader
    requires slot < |r.ring.buffers|
  {
    var b := r.ring.buffers[slot];
    r.(ring := r.ring.(buffers := r.ring.buffers[slot := b.(size := b.size + n)], count := r.ring.count + 1),
       remaining := if n <= r.remaining then r.remaining - n else 0,
       worker := if n == 0 then Exited else AtHead)
  }

  /** The slot has been filled with `n` bytes; none means the end, fewer an error. */
  function Filled(r: Reader, slot: nat, n: int): (r': Reader)
    requires slot < |r.ring.buffers|
    ensures r'.want == r.want
  {
    SendEvent(if n < 0 then r.(error := true, worker := Exited) else Added(r, slot, n))
  }

  /** The slot behind the ready ones is emptied before it is filled. */
  function ResetNext(r: Reader): (r': Reader)
    requires WellFormed(r.ring)
    ensures r'.want == r.want
  {
    var slot := NextSlot(r.ring);
    r.(ring := r.ring.(buffers := r.ring.buffers[slot := Buffer(r.ring.buffers[slot].region, 0, 0)]))
  }

  /** From the head of the loop to the next release of the mutex. */
  function LoopHead(r: Reader): (r': Reader)
    requires WellFormed(r.ring)
    ensures r'.want == r.want
  {
    if r.quit || r.error then r.(worker := Exited)
    else if r.ring.count >= BUFFER_COUNT then r.(worker := Asleep)
    else
      var toRead := if r.remaining < BUFFER_SIZE then r.remaining else BUFFER_SIZE;
      if toRead > 0 then ResetNext(r).(worker := Reading(NextSlot(r.ring), toRead))
      else Filled(ResetNext(r), NextSlot(r.ring), 0)
  }

  predicate CanWake(r: Reader) {
    r.worker == AtHead || (r.worker == Asleep && r.signalled)
  }

  function Wake(r: Reader): (r': Reader)
    requires WellFormed(r.ring)
    ensures r'.want == r.want
  {
    LoopHead(if r.worker == Asleep then r.(signalled := false, worker := AtHead) else r)
  }

  /** What the system call may return: some bytes while there are any, none at the end of the file, or failure. */
  predicate CanFetch(r: Reader, n: int) {
    && r.worker.Reading? && r.worker.slot < |r.ring.memory|
    && (n < 0 || (n == 0 && r.filePos == |r.want.data|) || (0 < n <= r.worker.toRead && r.filePos + n <= |r.want.data|))
  }

  /** The unlocked system call puts the bytes into the slot's memory. */
  function Fetch(r: Reader, n: int): (r': Reader)
    requires CanFetch(r, n)
    ensures r'.want == r.want
  {
    if n <= 0 then r.(worker := HaveRead(r.worker.slot, n)) else
    r.(ring := WriteRegion(r.ring, r.worker.slot, r.want.data[r.filePos..r.filePos + n]),
       filePos := r.filePos + n, worker := HaveRead(r.worker.slot, n))
  }

  predicate CanRelock(r: Reader) {
    r.worker.HaveRead? && r.worker.slot < |r.ring.buffers|
  }

  /** The mutex is taken again; the loop goes on from its head in a step of its own. */
  function Relock(r: Reader): (r': Reader)
    requires CanRelock(r)
    ensures r'.want == r.want
  {
    if r.quit then r.(worker := Exited) else Filled(r, r.worker.slot, r.worker.n)
  }

  // ---------------------------------------------------------------- invariants

  /** The ring is well formed and the client's buffer, if any, is the oldest ready slot. */
  predicate RingOk(ring: Ring, processing: bool, held: Option<Buffer>) {
    && WellFormed(ring)
    && (processing ==> ring.count > 0)
    && (held.Some? ==> processing && held.value == ring.buffers[ring.pos])
  }

  predicate ValidRing(r: Reader) {
    RingOk(r.ring, r.processing, r.held)
  }

  /** Of the ready buffers `q`, those the client has not been given. */
  function Undelivered(q: seq<Bytes>, processing: bool): seq<Bytes> {
    if processing && q != [] then q[1..] else q
  }

  /** The slot being filled is the one behind the ready ones. */
  predicate Filling(ring: Ring, slot: nat)
    requires WellFormed(ring)
  {
    ring.count < BUFFER_COUNT && slot == NextSlot(ring) && ring.buffers[slot] == Buffer(slot, 0, 0)
  }

  /** The file's read position is `lag` bytes ahead of what has been queued. */
  predicate InFile(w: Request, filePos: nat, remaining: nat, lag: nat) {
    && remaining <= |w.target|
    && filePos == w.offset + (|w.target| - remaining) + lag
    && w.offset + |w.target| <= |w.data|
    && w.target == w.data[w.offset..w.offset + |w.target|]
  }

  /** What the worker has read into its slot comes next in the part of the file asked for. */
  predicate WorkerOk(ring: Ring, worker: Worker, w: Request, filePos: nat, remaining: nat)
    requires WellFormed(ring)
  {
    match worker
    case Reading(slot, toRead) =>
      Filling(ring, slot) && 0 < toRead <= remaining && InFile(w, filePos, remaining, 0)
    case HaveRead(slot, n) =>
      && Filling(ring, slot) && n != 0
      && (n > 0 ==>
            && n <= remaining && InFile(w, filePos, remaining, n)
            && ring.memory[slot] == w.target[|w.target| - remaining..|w.target| - remaining + n])
    case Exited => true
    case _ => InFile(w, filePos, remaining, 0)
  }

  /** What was delivered, then what is ready, is the first part of what was asked for. */
  predicate Streams(delivered: Bytes, ready: seq<Bytes>, target: Bytes, remaining: nat) {
    remaining <= |target| && delivered + Flatten(ready) == target[..|target| - remaining]
  }

  /**
   An empty buffer is ready only as the last one, after everything was read and the worker is
   gone; a worker that went without being stopped has queued it.
   */
  predicate EndMarked(q: seq<Bytes>, processing: bool, gone: bool, stopped: bool, remaining: nat, sawEnd: bool) {
    && (forall k :: 0 <= k < |q| && q[k] == [] ==> k == |q| - 1 && gone && remaining == 0)
    && (gone && !stopped ==> sawEnd || (q != [] && q[|q| - 1] == []))
    && (processing && q != [] && q[0] == [] ==> sawEnd)
    && (sawEnd ==> gone)
  }

  predicate StreamOk(ring: Ring, processing: bool, gone: bool, stopped: bool, remaining: nat, target: Bytes,
                     delivered: Bytes, sawEnd: bool)
    requires WellFormed(ring)
  {
    var q := Queued(ring);
    && Streams(delivered, Undelivered(q, processing), target, remaining)
    && EndMarked(q, processing, gone, stopped, remaining, sawEnd)
    && (sawEnd ==> delivered == target)
  }

  /** No side sleeps while only it could go on. */
  predicate Awake(r: Reader) {
    && (r.handlerWaiting ==> r.ring.count == 0 && !r.error)
    && (r.worker == Asleep && !r.signalled ==> r.ring.count == BUFFER_COUNT)
  }

  predicate Valid(r: Reader) {
    && ValidRing(r)
    && WorkerOk(r.ring, r.worker, r.want, r.filePos, r.remaining)
    && StreamOk(r.ring, r.processing, r.worker == Exited, r.quit || r.error, r.remaining, r.want.target, r.delivered, r.sawEnd)
    && Awake(r)
  }

  // ---------------------------------------------------------------- each step keeps them

  lemma EndMarkedPop(q: seq<Bytes>, gone: bool, stopped: bool, remaining: nat, sawEnd: bool)
    requires q != [] && EndMarked(q, true, gone, stopped, remaining, sawEnd)
    ensures EndMarked(q[1..], false, gone, stopped, remaining, sawEnd)
  {
    assert forall k :: 0 <= k < |q| - 1 ==> q[1..][k] == q[k + 1];
  }

  /** Giving a buffer back does not move the slot the worker may be filling. */
  lemma GiveBackKeepsWorker(r: Reader)
    requires ValidRing(r) && WorkerOk(r.ring, r.worker, r.want, r.filePos, r.remaining)
    ensures var r' := GiveBack(r); ValidRing(r') && WorkerOk(r'.ring, r'.worker, r'.want, r'.filePos, r'.remaining)
  {}

  lemma GiveBackKeeps(r: Reader)
    requires Valid(r) && !r.error
    ensures Valid(GiveBack(r)) && !GiveBack(r).processing
  {
    if r.processing {
      GiveBackKeepsWorker(r);
      QueuePop(r.ring);
      EndMarkedPop(Queued(r.ring), r.worker == Exited, r.quit, r.remaining, r.sawEnd);
    }
  }

  lemma StreamsTake(delivered: Bytes, q: seq<Bytes>, target: Bytes, remaining: nat)
    requires q != [] && Streams(delivered, q, target, remaining)
    ensures Streams(delivered + q[0], q[1..], target, remaining)
    ensures |q| == 1 && remaining == 0 ==> delivered + q[0] == target
  {
    assert (delivered + q[0]) + Flatten(q[1..]) == delivered + Flatten(q);
    if |q| == 1 && remaining == 0 {
      assert q[1..] == [] && (delivered + q[0]) + [] == delivered + q[0];
    }
  }

  lemma TakeNextKeeps(r: Reader)
    requires Valid(r) && !r.error && !r.processing
    ensures Valid(TakeNext(r).0)
    ensures TakeNext(r).1 == Ok && TakeNext(r).0.held.value.size == 0 ==> TakeNext(r).0.delivered == r.want.target
  {
    if r.ring.count > 0 {
      QueuePop(r.ring);
      StreamsTake(r.delivered, Queued(r.ring), r.want.target, r.remaining);
    }
  }

  lemma ReadKeeps(r: Reader)
    requires Valid(r)
    ensures Valid(Read(r).0)
  {
    if !r.error {
      GiveBackKeeps(r);
      TakeNextKeeps(GiveBack(r));
    }
  }

  lemma WindowInFile(data: Bytes, offset: nat, maxSize: Option<nat>)
    requires offset <= |data|
    ensures var t := Window(data, offset, maxSize);
            offset + |t| <= |data| && t == data[offset..offset + |t|]
  {}

  lemma RestartKeeps(r: Reader, offset: nat, maxSize: Option<nat>, outcome: Outcome)
    requires |r.ring.memory| == |r.ring.buffers| == BUFFER_COUNT
    requires forall i :: 0 <= i < BUFFER_COUNT ==> r.ring.buffers[i].region == i
    requires !r.error
    ensures Valid(Restart(r, offset, maxSize, outcome))
  {
    var r' := Restart(r, offset, maxSize, outcome);
    EmptyQueue(r'.ring);
    if offset <= |r.want.data| {
      WindowInFile(r.want.data, offset, maxSize);
    }
  }

  lemma SeekKeeps(r: Reader, offset: Option<nat>, maxSize: Option<nat>, outcome: Outcome)
    requires Valid(r)
    ensures Valid(Seek(r, offset, maxSize, outcome).0)
  {
    if !r.error {
      RestartKeeps(r.(signalled := true), if offset.Some? then offset.value else r.want.offset,
                   if offset.Some? then maxSize else r.want.maxSize, outcome);
    }
  }

  /** After a seek that succeeds, either nothing had to change and nothing did, or nothing of what was queued,
      held, delivered or signalled is left and the window is the new one. */
  lemma SeekStartsOver(r: Reader, offset: Option<nat>, maxSize: Option<nat>, outcome: Outcome)
    requires Valid(r) && Seek(r, offset, maxSize, outcome).1 == Ok
    ensures var r' := Seek(r, offset, maxSize, outcome).0;
            var (o, m) := if offset.Some? then (offset.value, maxSize) else (r.want.offset, r.want.maxSize);
            && ValidRing(r') && r'.want.data == r.want.data
            && (!SeekChanges(r, offset, maxSize) ==> r' == r)
            && (SeekChanges(r, offset, maxSize) ==>
                  && o <= |r.want.data| && r'.want.target == Window(r.want.data, o, m)
                  && Queued(r'.ring) == [] && r'.delivered == [] && !r'.sawEnd && r'.held.None? && r'.events == 0
                  && r'.worker == AtHead && !r'.handlerWaiting)
  {
    SeekKeeps(r, offset, maxSize, outcome);
    EmptyQueue(Cleared(r).ring);
  }

  /** Resetting the slot behind the ready ones changes nothing that is ready. */
  lemma ResetSlot(r: Ring)
    requires WellFormed(r) && r.count < BUFFER_COUNT
    ensures var r' := r.(buffers := r.buffers[NextSlot(r) := Buffer(NextSlot(r), 0, 0)]);
            && WellFormed(r') && Queued(r') == Queued(r)
            && (r.count > 0 ==> r'.buffers[r.pos] == r.buffers[r.pos])
  {
    forall k | 0 <= k < r.count ensures Slot(r.pos, k) != NextSlot(r) {
      SlotsDiffer(r.pos, k, r.count);
    }
    assert r.count > 0 ==> Slot(r.pos, 0) == r.pos;
  }

  lemma StreamsPush(delivered: Bytes, q: seq<Bytes>, processing: bool, target: Bytes, remaining: nat, c: Bytes)
    requires Streams(delivered, Undelivered(q, processing), target, remaining)
    requires |c| <= remaining && c == target[|target| - remaining..|target| - remaining + |c|]
    requires processing ==> q != []
    ensures Streams(delivered, Undelivered(q + [c], processing), target, remaining - |c|)
  {
    var u := Undelivered(q, processing);
    assert Undelivered(q + [c], processing) == u + [c];
    FlattenAppend(u, c);
    var done := |target| - remaining;
    assert target[..done] + c == target[..done + |c|];
    assert delivered + (Flatten(u) + c) == (delivered + Flatten(u)) + c;
  }

  lemma EndMarkedLast(q: seq<Bytes>, processing: bool, stopped: bool, sawEnd: bool)
    requires EndMarked(q, processing, false, stopped, 0, sawEnd) && (processing ==> q != [])
    ensures EndMarked(q + [[]], processing, true, stopped, 0, sawEnd)
  {}

  lemma EndStream(ring: Ring, processing: bool, stopped: bool, target: Bytes, delivered: Bytes, sawEnd: bool)
    requires WellFormed(ring) && Filling(ring, NextSlot(ring)) && (processing ==> ring.count > 0)
    requires StreamOk(ring, processing, false, stopped, 0, target, delivered, sawEnd)
    ensures var ring' := Push(ring, Buffer(NextSlot(ring), 0, 0));
            WellFormed(ring') && StreamOk(ring', processing, true, stopped, 0, target, delivered, sawEnd)
  {
    QueuePush(ring, Buffer(NextSlot(ring), 0, 0));
    StreamsPush(delivered, Queued(ring), processing, target, 0, []);
    EndMarkedLast(Queued(ring), processing, stopped, sawEnd);
  }

  lemma EndIs(r: Reader)
    requires WellFormed(r.ring) && Filling(r.ring, NextSlot(r.ring)) && r.remaining == 0
    ensures Added(r, NextSlot(r.ring), 0)
         == r.(ring := Push(r.ring, Buffer(NextSlot(r.ring), 0, 0)), remaining := 0, worker := Exited)
  {}

  /** Nothing was left to read: the empty buffer that marks the end is queued. */
  lemma EndKeeps(r: Reader)
    requires Valid(r) && r.worker == AtHead && r.ring.count < BUFFER_COUNT && r.remaining == 0
    requires r.ring.buffers[NextSlot(r.ring)] == Buffer(NextSlot(r.ring), 0, 0)
    ensures Valid(Filled(r, NextSlot(r.ring), 0))
  {
    EndIs(r);
    PushedRingOk(r.ring, NextSlot(r.ring), 0, r.processing, r.held);
    EndStream(r.ring, r.processing, r.quit || r.error, r.want.target, r.delivered, r.sawEnd);
  }

  lemma AddedRing(ring: Ring, slot: nat, n: nat)
    requires WellFormed(ring) && Filling(ring, slot) && n <= |ring.memory[slot]|
    ensures var b := Buffer(slot, 0, n);
            && ring.(buffers := ring.buffers[slot := b], count := ring.count + 1) == Push(ring, b)
            && WellFormed(Push(ring, b)) && Queued(Push(ring, b)) == Queued(ring) + [ring.memory[slot][..n]]
  {
    QueuePush(ring, Buffer(slot, 0, n));
  }

  lemma EndMarkedPush(q: seq<Bytes>, c: Bytes, processing: bool, stopped: bool, remaining: nat, remaining': nat, sawEnd: bool)
    requires c != [] && EndMarked(q, processing, false, stopped, remaining, sawEnd) && (processing ==> q != [])
    ensures EndMarked(q + [c], processing, false, stopped, remaining', sawEnd)
  {}

  lemma PushedStream(ring: Ring, slot: nat, n: nat, processing: bool, stopped: bool, remaining: nat, target: Bytes,
                     delivered: Bytes, sawEnd: bool)
    requires WellFormed(ring) && Filling(ring, slot) && 0 < n <= remaining <= |target| && (processing ==> ring.count > 0)
    requires StreamOk(ring, processing, false, stopped, remaining, target, delivered, sawEnd)
    requires ring.memory[slot] == target[|target| - remaining..|target| - remaining + n]
    ensures var ring' := Push(ring, Buffer(slot, 0, n));
            WellFormed(ring') && StreamOk(ring', processing, false, stopped, remaining - n, target, delivered, sawEnd)
  {
    AddedRing(ring, slot, n);
    var c := ring.memory[slot][..n];
    assert c == ring.memory[slot];
    StreamsPush(delivered, Queued(ring), processing, target, remaining, c);
    EndMarkedPush(Queued(ring), c, processing, stopped, remaining, remaining - n, sawEnd);
  }

  lemma PushedRingOk(ring: Ring, slot: nat, n: nat, processing: bool, held: Option<Buffer>)
    requires RingOk(ring, processing, held) && Filling(ring, slot) && n <= |ring.memory[slot]|
    ensures RingOk(Push(ring, Buffer(slot, 0, n)), processing, held)
  {
    QueuePush(ring, Buffer(slot, 0, n));
  }

  lemma ReadOn(w: Request, filePos: nat, remaining: nat, n: nat)
    requires InFile(w, filePos, remaining, n) && n <= remaining
    ensures InFile(w, filePos, remaining - n, 0)
  {}

  lemma AddedIs(r: Reader, slot: nat, n: nat)
    requires WellFormed(r.ring) && Filling(r.ring, slot) && 0 < n <= r.remaining
    ensures Added(r, slot, n)
         == r.(ring := Push(r.ring, Buffer(slot, 0, n)), remaining := r.remaining - n, worker := AtHead)
  {}

  /** What the worker has read, ready to be queued. */
  predicate Fetched(r: Reader) {
    && ValidRing(r) && r.worker.HaveRead? && 0 < r.worker.n <= r.remaining <= |r.want.target|
    && Filling(r.ring, r.worker.slot) && InFile(r.want, r.filePos, r.remaining, r.worker.n)
    && r.ring.memory[r.worker.slot]
       == r.want.target[|r.want.target| - r.remaining..|r.want.target| - r.remaining + r.worker.n]
  }

  lemma AddedStream(r: Reader)
    requires Fetched(r)
    requires StreamOk(r.ring, r.processing, false, r.quit || r.error, r.remaining, r.want.target, r.delivered, r.sawEnd)
    ensures var r' := Added(r, r.worker.slot, r.worker.n);
            && ValidRing(r') && InFile(r'.want, r'.filePos, r'.remaining, 0)
            && StreamOk(r'.ring, r'.processing, false, r'.quit || r'.error, r'.remaining, r'.want.target, r'.delivered, r'.sawEnd)
  {
    var (slot, n) := (r.worker.slot, r.worker.n);
    AddedIs(r, slot, n);
    PushedRingOk(r.ring, slot, n, r.processing, r.held);
    ReadOn(r.want, r.filePos, r.remaining, n);
    PushedStream(r.ring, slot, n, r.processing, r.quit || r.error, r.remaining, r.want.target, r.delivered, r.sawEnd);
  }

  /** Bytes were read: they are queued behind what was there. */
  lemma FilledKeeps(r: Reader)
    requires Valid(r) && r.worker.HaveRead? && r.worker.n > 0
    ensures Valid(Filled(r, r.worker.slot, r.worker.n))
  {
    AddedStream(r);
  }

  lemma ResetNextKeeps(r: Reader)
    requires Valid(r) && r.worker == AtHead && r.ring.count < BUFFER_COUNT
    ensures Valid(ResetNext(r)) && NextSlot(ResetNext(r).ring) == NextSlot(r.ring)
    ensures ResetNext(r).ring.buffers[NextSlot(r.ring)] == Buffer(NextSlot(r.ring), 0, 0)
  {
    ResetSlot(r.ring);
  }

  lemma LoopHeadKeeps(r: Reader)
    requires Valid(r) && r.worker == AtHead
    ensures Valid(LoopHead(r))
  {
    if !r.quit && !r.error && r.ring.count < BUFFER_COUNT {
      ResetNextKeeps(r);
      if r.remaining == 0 {
        EndKeeps(ResetNext(r));
      }
    }
  }

  lemma WakeKeeps(r: Reader)
    requires Valid(r) && CanWake(r)
    ensures Valid(Wake(r))
  {
    LoopHeadKeeps(if r.worker == Asleep then r.(signalled := false, worker := AtHead) else r);
  }

  /** Bytes at the file's read position are the next ones of what was asked for. */
  lemma NextBytes(w: Request, filePos: nat, remaining: nat, n: nat)
    requires InFile(w, filePos, remaining, 0) && n <= remaining && filePos + n <= |w.data|
    ensures w.data[filePos..filePos + n] == w.target[|w.target| - remaining..|w.target| - remaining + n]
    ensures InFile(w, filePos + n, remaining, n)
  {}

  lemma FilledSlot(ring: Ring, slot: nat, bytes: Bytes)
    requires WellFormed(ring) && Filling(ring, slot)
    ensures var ring' := WriteRegion(ring, slot, bytes);
            WellFormed(ring') && Queued(ring') == Queued(ring) && Filling(ring', slot) && ring'.memory[slot] == bytes
  {
    QueueUntouched(ring, bytes);
  }

  lemma FetchedWorkerOk(r: Reader, n: nat)
    requires WellFormed(r.ring) && CanFetch(r, n) && n > 0 && WorkerOk(r.ring, r.worker, r.want, r.filePos, r.remaining)
    ensures var r' := Fetch(r, n);
            && WellFormed(r'.ring) && Queued(r'.ring) == Queued(r.ring)
            && WorkerOk(r'.ring, r'.worker, r'.want, r'.filePos, r'.remaining)
  {
    NextBytes(r.want, r.filePos, r.remaining, n);
    FilledSlot(r.ring, r.worker.slot, r.want.data[r.filePos..r.filePos + n]);
  }

  lemma FetchKeeps(r: Reader, n: int)
    requires Valid(r) && CanFetch(r, n)
    ensures Valid(Fetch(r, n))
  {
    if n > 0 {
      FetchedWorkerOk(r, n);
    }
  }

  lemma RelockKeeps(r: Reader)
    requires Valid(r) && CanRelock(r)
    ensures Valid(Relock(r))
  {
    if !r.quit && r.worker.n > 0 {
      FilledKeeps(r);
    }
  }

  // ---------------------------------------------------------------- runs

  datatype Step =
    | ClientReads
    | ClientSeeks(offset: Option<nat>, maxSize: Option<nat>, outcome: Outcome)
    | ClientDrops
    | ClientTakesEvent
    | ClientCloses
    | WorkerWakes
    | WorkerFetches(n: int)
    | WorkerRelocks

  /** After closing, the client makes no more calls. */
  predicate Enabled(r: Reader, s: Step) {
    match s
    case ClientTakesEvent => r.events > 0
    case WorkerWakes => CanWake(r)
    case WorkerFetches(n) => CanFetch(r, n)
    case WorkerRelocks => CanRelock(r)
    case _ => !r.quit
  }

  function Next(r: Reader, s: Step): Reader
    requires ValidRing(r) && Enabled(r, s)
  {
    match s
    case ClientReads => Read(r).0
    case ClientSeeks(offset, maxSize, outcome) => Seek(r, offset, maxSize, outcome).0
    case ClientDrops => r.(held := None)
    case ClientTakesEvent => r.(events := r.events - 1)
    case ClientCloses => r.(quit := true, signalled := true)
    case WorkerWakes => Wake(r)
    case WorkerFetches(n) => Fetch(r, n)
    case WorkerRelocks => Relock(r)
  }

  lemma NextKeeps(r: Reader, s: Step)
    requires Valid(r) && Enabled(r, s)
    ensures Valid(Next(r, s))
  {
    match s
    case ClientReads => ReadKeeps(r);
    case ClientSeeks(offset, maxSize, outcome) => SeekKeeps(r, offset, maxSize, outcome);
    case WorkerWakes => WakeKeeps(r);
    case WorkerFetches(n) => FetchKeeps(r, n);
    case WorkerRelocks => RelockKeeps(r);
    case _ => IdleStepKeeps(r, s);
  }

  lemma IdleStepKeeps(r: Reader, s: Step)
    requires Valid(r) && Enabled(r, s) && (s.ClientDrops? || s.ClientTakesEvent? || s.ClientCloses?)
    ensures Valid(Next(r, s))
  {}

  function Opened(data: Bytes, offset: nat, maxSize: Option<nat>): (r: Reader)
    ensures Valid(r)
  {
    var fresh' := Reader(EmptyRing(), false, false, false, false, false, false, AtHead, 0,
                         0, 0, None, Request(data, 0, None, []), [], false);
    RestartKeeps(fresh', offset, maxSize, Started);
    Restart(fresh', offset, maxSize, Started)
  }

  /** A run from a freshly opened reader; steps that are not possible are skipped. */
  function Run(data: Bytes, offset: nat, maxSize: Option<nat>, steps: seq<Step>): (r: Reader)
    ensures Valid(r)
  {
    if steps == [] then Opened(data, offset, maxSize)
    else
      var r := Run(data, offset, maxSize, steps[..|steps| - 1]);
      var s := steps[|steps| - 1];
      if Enabled(r, s) then NextKeeps(r, s); Next(r, s) else r
  }

  /** The part of the file that offset and size limit of the last seek ask for. */
  predicate Wants(w: Request) {
    w == Asked(w.data, w.offset, w.maxSize)
  }

  lemma {:induction false} TargetIsWanted(data: Bytes, offset: nat, maxSize: Option<nat>, steps: seq<Step>)
    ensures var w := Run(data, offset, maxSize, steps).want; w.data == data && Wants(w)
  {
    if steps != [] {
      var init := steps[..|steps| - 1];
      TargetIsWanted(data, offset, maxSize, init);
      var (r, s) := (Run(data, offset, maxSize, init), steps[|steps| - 1]);
      if Enabled(r, s) { StepWants(r, s); }
    }
  }

  lemma SeekWants(r: Reader, offset: Option<nat>, maxSize: Option<nat>, outcome: Outcome)
    requires Wants(r.want)
    ensures var r' := Seek(r, offset, maxSize, outcome).0; r'.want.data == r.want.data && Wants(r'.want)
  {}

  lemma ReadSameWant(r: Reader)
    requires ValidRing(r)
    ensures Read(r).0.want == r.want
  {
    if !r.error {
      assert TakeNext(GiveBack(r)).0.want == GiveBack(r).want;
    }
  }

  lemma StepWants(r: Reader, s: Step)
    requires ValidRing(r) && Enabled(r, s) && Wants(r.want)
    ensures Next(r, s).want.data == r.want.data && Wants(Next(r, s).want)
  {
    match s
    case ClientReads => ReadSameWant(r);
    case ClientSeeks(offset, maxSize, outcome) => SeekWants(r, offset, maxSize, outcome);
    case _ =>
  }

  lemma DeliveredSoFar(r: Reader)
    requires Valid(r)
    ensures r.delivered <= r.want.target
  {
    var rest := Flatten(Undelivered(Queued(r.ring), r.processing));
    assert r.delivered <= r.delivered + rest;
    assert r.delivered + rest <= r.want.target;
  }

  /** In every interleaving the client has been given a prefix of the part of the file it asked for. */
  lemma DeliveredIsPrefix(data: Bytes, offset: nat, maxSize: Option<nat>, steps: seq<Step>)
    ensures var r := Run(data, offset, maxSize, steps); r.delivered <= r.want.target && r.want.data == data && Wants(r.want)
  {
    TargetIsWanted(data, offset, maxSize, steps);
    DeliveredSoFar(Run(data, offset, maxSize, steps));
  }

  /** The empty buffer that marks the end is given out only after all that was asked for. */
  lemma EndComesLast(data: Bytes, offset: nat, maxSize: Option<nat>, steps: seq<Step>)
    requires var r := Run(data, offset, maxSize, steps);
             Read(r).1 == Ok && Read(r).0.held.value.size == 0
    ensures var r := Run(data, offset, maxSize, steps); Read(r).0.delivered == r.want.target && r.want.data == data && Wants(r.want)
  {
    TargetIsWanted(data, offset, maxSize, steps);
    var r := Run(data, offset, maxSize, steps);
    GiveBackKeeps(r);
    TakeNextKeeps(GiveBack(r));
  }

  /**
   Never are both asleep: while the client waits for an event, an open reader's worker has a
   step to take, unless the client reads on after the end.
   */
  lemma WaitingClientHasRunningWorker(data: Bytes, offset: nat, maxSize: Option<nat>, steps: seq<Step>)
    requires var r := Run(data, offset, maxSize, steps); r.handlerWaiting && !r.quit
    ensures var r := Run(data, offset, maxSize, steps);
            && r.ring.count == 0
            && (CanWake(r) || CanFetch(r, 1) || CanRelock(r) || (r.worker == Exited && r.sawEnd))
  {}

  /** No step of the worker changes the bytes of the buffer the client holds. */
  lemma HeldBufferStable(data: Bytes, offset: nat, maxSize: Option<nat>, steps: seq<Step>, s: Step)
    requires var r := Run(data, offset, maxSize, steps);
             r.held.Some? && Enabled(r, s) && (s.WorkerWakes? || s.WorkerFetches? || s.WorkerRelocks?)
    ensures var (r, r') := (Run(data, offset, maxSize, steps), Next(Run(data, offset, maxSize, steps), s));
            && r'.held == r.held
            && InMemory(r.ring.memory, r.held.value) && InMemory(r'.ring.memory, r.held.value)
            && Contents(r'.ring.memory, r.held.value) == Contents(r.ring.memory, r.held.value)
  {
    HeldStable(Run(data, offset, maxSize, steps), s);
  }

  lemma HeldByFetch(r: Reader, n: int)
    requires Valid(r) && r.held.Some? && CanFetch(r, n)
    ensures var r' := Fetch(r, n);
            && InMemory(r.ring.memory, r.held.value) && InMemory(r'.ring.memory, r.held.value)
            && Contents(r'.ring.memory, r.held.value) == Contents(r.ring.memory, r.held.value)
  {
    assert FrontInMemory(r.ring) && Slot(r.ring.pos, 0) == r.ring.pos;
    SlotsDiffer(r.ring.pos, 0, r.ring.count);
  }

  lemma SentSame(r: Reader)
    ensures SendEvent(r).ring == r.ring && SendEvent(r).held == r.held
  {}

  lemma FilledSameMemory(r: Reader, slot: nat, n: int)
    requires slot < |r.ring.buffers|
    ensures Filled(r, slot, n).ring.memory == r.ring.memory && Filled(r, slot, n).held == r.held
  {
    if n < 0 {
      SentSame(r.(error := true, worker := Exited));
    } else {
      SentSame(Added(r, slot, n));
    }
  }

  lemma WakeSameMemory(r: Reader)
    requires WellFormed(r.ring)
    ensures Wake(r).ring.memory == r.ring.memory && Wake(r).held == r.held
  {
    FilledSameMemory(ResetNext(if r.worker == Asleep then r.(signalled := false, worker := AtHead) else r), NextSlot(r.ring), 0);
  }

  lemma HeldStable(r: Reader, s: Step)
    requires Valid(r) && r.held.Some? && Enabled(r, s) && (s.WorkerWakes? || s.WorkerFetches? || s.WorkerRelocks?)
    ensures var r' := Next(r, s);
            && r'.held == r.held
            && InMemory(r.ring.memory, r.held.value) && InMemory(r'.ring.memory, r.held.value)
            && Contents(r'.ring.memory, r.held.value) == Contents(r.ring.memory, r.held.value)
  {
    assert FrontInMemory(r.ring) && Slot(r.ring.pos, 0) == r.ring.pos;
    if s.WorkerFetches? {
      HeldByFetch(r, s.n);
    } else if s.WorkerWakes? {
      WakeSameMemory(r);
    } else {
      FilledSameMemory(r, r.worker.slot, r.worker.n);
    }
  }

  // ---------------------------------------------------------------- progress

  predicate WorkerStep(s: Step) {
    s.WorkerWakes? || s.WorkerFetches? || s.WorkerRelocks?
  }

  /** How many more steps the worker needs at most to send the event. */
  function Rank(r: Reader): nat {
    match r.worker
    case AtHead => 3
    case Asleep => 3
    case Reading(_, _) => 2
    case HaveRead(_, _) => 1
    case Exited => 0
  }

  /** The event was sent, or the worker came closer to sending it. */
  predicate Advances(r: Reader, r': Reader) {
    if r'.handlerWaiting then Rank(r') < Rank(r) else r'.events == r.events + 1
  }

  lemma WakeAdvances(r: Reader)
    requires Valid(r) && r.handlerWaiting && !r.quit && CanWake(r)
    ensures Advances(r, Wake(r))
  {}

  lemma RelockAdvances(r: Reader)
    requires Valid(r) && r.handlerWaiting && !r.quit && CanRelock(r)
    ensures Advances(r, Relock(r))
  {}

  lemma ClientKeepsWaiting(r: Reader, s: Step)
    requires Valid(r) && r.handlerWaiting && !r.quit && Enabled(r, s) && (s.ClientReads? || s.ClientDrops? || s.ClientTakesEvent?)
    ensures Next(r, s).handlerWaiting && Rank(Next(r, s)) == Rank(r)
  {}

  /**
   A waiting client is woken within three steps of the worker: each of them sends the event or lowers the
   rank, and no call of the client but a seek or a close interferes.
   */
  lemma EventComesClosely(data: Bytes, offset: nat, maxSize: Option<nat>, steps: seq<Step>, s: Step)
    requires var r := Run(data, offset, maxSize, steps); r.handlerWaiting && !r.quit && Enabled(r, s)
    requires !s.ClientCloses? && !s.ClientSeeks?
    ensures var (r, r') := (Run(data, offset, maxSize, steps), Next(Run(data, offset, maxSize, steps), s));
            && Rank(r) <= 3
            && if WorkerStep(s) then Advances(r, r') else r'.handlerWaiting && Rank(r') == Rank(r)
  {
    StepAdvances(Run(data, offset, maxSize, steps), s);
  }

  lemma StepAdvances(r: Reader, s: Step)
    requires Valid(r) && r.handlerWaiting && !r.quit && Enabled(r, s) && !s.ClientCloses? && !s.ClientSeeks?
    ensures if WorkerStep(s) then Advances(r, Next(r, s)) else Next(r, s).handlerWaiting && Rank(Next(r, s)) == Rank(r)
  {
    match s
    case WorkerWakes => WakeAdvances(r);
    case WorkerFetches(n) =>
    case WorkerRelocks => RelockAdvances(r);
    case _ => ClientKeepsWaiting(r, s);
  }
}
