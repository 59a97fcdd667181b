/**
 The asynchronous file writer: a client fills buffers, a worker thread writes them to the
 file and drops the mutex while it does. Each critical section and each unlocked access is
 one step; a run is any interleaving of steps.
 */
module WriterRing {
  import opened BufferRing
  import opened Optional

  /** Where the worker is: about to run its loop, in the condition wait, writing unlocked, done writing, gone. */
  datatype Worker = AtHead | Asleep | Writing | Wrote(n: int) | Exited

  /**
   The fields of the writer with the worker's position, the file, the number of undelivered
   write-ready events and the buffer the client holds. `accepted` records the bytes the
   writer took over, `base` what the file held at the start.
   */
  datatype Writer = Writer(
    ring: Ring, processing: bool, handlerWaiting: bool, error: bool, quit: bool, finalized: bool,
    signalled: bool, worker: Worker, file: Bytes, events: nat,
    held: Option<Buffer>, accepted: Bytes, base: Bytes)

  /** The client has written something into the buffer it was given. */
  predicate HasData(w: Writer) {
    w.held.Some? && w.held.value.size > 0
  }

  // ---------------------------------------------------------------- the client's steps

  predicate CanFill(w: Writer, bytes: Bytes) {
    && w.held.Some?
    && InMemory(w.ring.memory, w.held.value)
    && w.held.value.start + w.held.value.size + |bytes| <= BUFFER_SIZE
  }

  /** The client appends to its buffer, without taking the mutex. */
  function Fill(w: Writer, bytes: Bytes): (w': Writer)
    requires CanFill(w, bytes)
    ensures w'.base == w.base
  {
    var b := w.held.value;
    w.(ring := WriteRegion(w.ring, b.region, w.ring.memory[b.region][..b.start + b.size] + bytes),
       held := Some(b.(size := b.size + |bytes|)))
  }

  /** The client's buffer goes into the slot behind the ready ones; an idle worker is signalled. */
  function Enqueue(w: Writer): (w': Writer)
    requires ValidRing(w) && HasData(w)
    ensures w'.base == w.base
  {
    w.(ring := Push(w.ring, w.held.value),
       signalled := w.signalled || w.ring.count == 0,
       accepted := w.accepted + Contents(w.ring.memory, w.held.value),
       processing := false, held := None)
  }

  /** The first part of asking for a buffer: the last one is taken over unless it is empty. */
  function Submit(w: Writer): (w': Writer)
    requires ValidRing(w)
    ensures w'.base == w.base
  {
    if w.processing && HasData(w) then Enqueue(w) else w.(processing := false, held := None)
  }

  /** The second part: the slot behind the ready ones is handed out if there is one. */
  function HandOut(w: Writer): (Writer, AioResult)
    requires WellFormed(w.ring)
  {
    if w.ring.count >= BUFFER_COUNT then (w.(handlerWaiting := true), Wait)
    else (w.(processing := true, held := Some(Buffer(w.ring.buffers[NextSlot(w.ring)].region, 0, 0))), Ok)
  }

  function GetWriteBuffer(w: Writer): (Writer, AioResult)
    requires ValidRing(w)
  {
    if w.error then (w, Error) else HandOut(Submit(w))
  }

  function Retire(w: Writer): (Writer, AioResult)
    requires ValidRing(w)
  {
    if w.error then (w, Error)
    else if !w.processing then (w, if HasData(w) then Error else Ok)
    else (Submit(w), Ok)
  }

  /** `synced` is the outcome of the final flush to disk, true if none was asked for. */
  function Finalize(w: Writer, synced: bool): (Writer, AioResult)
    requires ValidRing(w)
  {
    if w.error then (w, Error)
    else if w.finalized then (w, Ok)
    else FinishUp(if w.processing && HasData(w) then Enqueue(w) else w, synced)
  }

  function FinishUp(w: Writer, synced: bool): (Writer, AioResult) {
    if w.ring.count > 0 then (w.(handlerWaiting := true), Wait)
    else if synced then (w.(finalized := true), Ok)
    else (w.(error := true), Error)
  }

  // ---------------------------------------------------------------- the worker's steps

  function SendEvent(w: Writer): (w': Writer)
    ensures w'.base == w.base
  {
    if w.handlerWaiting then w.(handlerWaiting := false, events := w.events + 1) else w
  }

  /** The oldest slot is done with. */
  function Finish(w: Writer): (w': Writer)
    requires ValidRing(w) && w.ring.count > 0
    ensures w'.base == w.base
  {
    SendEvent(w.(ring := Pop(w.ring)))
  }

  /** From the head of the loop to the next release of the mutex. */
  function LoopHead(w: Writer): (w': Writer)
    requires ValidRing(w)
    ensures w'.base == w.base
  {
    if w.quit || w.error then w.(worker := Exited)
    else if w.ring.count == 0 then
      if w.handlerWaiting then SendEvent(w).(worker := Exited) else w.(worker := Asleep)
    else if w.ring.buffers[w.ring.pos].size == 0 then Finish(w).(worker := AtHead)
    else w.(worker := Writing)
  }

  predicate CanWake(w: Writer) {
    w.worker == AtHead || (w.worker == Asleep && w.signalled)
  }

  function Wake(w: Writer): (w': Writer)
    requires ValidRing(w) && CanWake(w)
    ensures w'.base == w.base
  {
    LoopHead(if w.worker == Asleep then w.(signalled := false) else w)
  }

  predicate CanWrite(w: Writer, n: int)
    requires ValidRing(w)
  {
    w.worker == Writing && w.ring.count > 0 && n <= w.ring.buffers[w.ring.pos].size
  }

  /** The unlocked system call: it writes the first `n` bytes, or fails if `n` is not positive. */
  function Write(w: Writer, n: int): (w': Writer)
    requires ValidRing(w) && CanWrite(w, n)
    ensures w'.base == w.base
  {
    if n <= 0 then w.(worker := Wrote(n)) else
    assert FrontInMemory(w.ring);
    w.(file := w.file + Contents(w.ring.memory, w.ring.buffers[w.ring.pos])[..n], worker := Wrote(n))
  }

  predicate CanRelock(w: Writer)
    requires ValidRing(w)
  {
    w.worker.Wrote? && w.ring.count > 0 && w.worker.n <= w.ring.buffers[w.ring.pos].size
  }

  /** The mutex is taken again after the system call. */
  function Relock(w: Writer): (w': Writer)
    requires ValidRing(w) && CanRelock(w)
    ensures w'.base == w.base
  {
    var n := w.worker.n;
    if w.quit then w.(worker := Exited)
    else if n <= 0 then FinishAndLoop(w.(error := true))
    else
      var w1 := w.(ring := ConsumeFront(w.ring, n));
      if w1.ring.buffers[w1.ring.pos].size > 0 then w1.(worker := Writing) else FinishAndLoop(w1)
  }

  function FinishAndLoop(w: Writer): (w': Writer)
    requires ValidRing(w) && w.ring.count > 0
    ensures w'.base == w.base
  {
    LoopHead(Finish(w))
  }

  // ---------------------------------------------------------------- invariants

  /** The ring is well formed and the client's buffer, if any, is the slot behind the ready ones. */
  predicate ValidRing(w: Writer) {
    && WellFormed(w.ring)
    && (w.processing ==> w.ring.count < BUFFER_COUNT)
    && (w.held.Some? ==>
          w.processing && w.held.value.region == NextSlot(w.ring) && InMemory(w.ring.memory, w.held.value))
  }

  function Pending(w: Writer): Bytes
    requires ValidRing(w)
  {
    Flatten(Queued(w.ring))
  }

  /** Bytes in the file that the worker has not yet taken off the queue. */
  function Lag(w: Writer): nat {
    if w.worker.Wrote? && w.worker.n > 0 then w.worker.n else 0
  }

  /** The file, then what is still queued, is what was accepted: nothing lost, repeated or reordered. */
  predicate Flows(file: Bytes, pending: Bytes, lag: nat, all: Bytes) {
    lag <= |pending| && file + pending[lag..] == all
  }

  predicate Streams(w: Writer)
    requires ValidRing(w)
  {
    && w.file <= w.base + w.accepted
    && (w.worker != Exited ==> Flows(w.file, Pending(w), Lag(w), w.base + w.accepted))
  }

  /** No side sleeps while only it could go on. */
  predicate Awake(w: Writer) {
    && (w.handlerWaiting ==> w.ring.count > 0 && !w.error)
    && (w.worker == Asleep && w.ring.count > 0 ==> w.signalled)
    && (w.worker == Exited ==> w.quit || w.error)
  }

  predicate WorkerAtFront(w: Writer)
    requires ValidRing(w)
  {
    && (w.worker == Writing || w.worker.Wrote? ==> w.ring.count > 0 && w.ring.buffers[w.ring.pos].size > 0)
    && (w.worker.Wrote? ==> w.worker.n <= w.ring.buffers[w.ring.pos].size)
  }

  predicate Valid(w: Writer) {
    ValidRing(w) && Streams(w) && Awake(w) && WorkerAtFront(w)
  }

  // ---------------------------------------------------------------- each step keeps them

  lemma FillKeeps(w: Writer, bytes: Bytes)
    requires Valid(w) && CanFill(w, bytes)
    ensures Valid(Fill(w, bytes))
  {
    var b := w.held.value;
    QueueUntouched(w.ring, w.ring.memory[b.region][..b.start + b.size] + bytes);
  }

  lemma FlowsPush(file: Bytes, pending: Bytes, lag: nat, base: Bytes, accepted: Bytes, c: Bytes)
    requires file <= base + accepted
    ensures file <= base + (accepted + c)
    ensures Flows(file, pending, lag, base + accepted) ==> Flows(file, pending + c, lag, base + (accepted + c))
  {
    assert (base + accepted) + c == base + (accepted + c);
    if lag <= |pending| {
      assert (pending + c)[lag..] == pending[lag..] + c;
      assert file + (pending[lag..] + c) == (file + pending[lag..]) + c;
    }
  }

  lemma EnqueueKeeps(w: Writer)
    requires Valid(w) && HasData(w)
    ensures Valid(Enqueue(w))
    ensures w.ring.count > 0 ==> Enqueue(w).ring.buffers[w.ring.pos] == w.ring.buffers[w.ring.pos]
  {
    QueuePush(w.ring, w.held.value);
    assert ValidRing(Enqueue(w));
    FlowsPush(w.file, Pending(w), Lag(w), w.base, w.accepted, Contents(w.ring.memory, w.held.value));
  }

  lemma SubmitKeeps(w: Writer)
    requires Valid(w)
    ensures Valid(Submit(w)) && Submit(w).held.None?
    ensures w.ring.count > 0 ==> Submit(w).ring.count > 0 && Submit(w).ring.buffers[w.ring.pos] == w.ring.buffers[w.ring.pos]
  {
    if w.processing && HasData(w) { EnqueueKeeps(w); }
  }

  lemma HandOutKeeps(w: Writer)
    requires Valid(w) && w.held.None? && !w.error
    ensures Valid(HandOut(w).0)
  {}

  lemma FinishUpKeeps(w: Writer, synced: bool)
    requires Valid(w) && !w.error
    ensures Valid(FinishUp(w, synced).0)
  {}

  lemma FinalizeKeeps(w: Writer, synced: bool)
    requires Valid(w)
    ensures Valid(Finalize(w, synced).0)
  {
    if !w.error && !w.finalized {
      if w.processing && HasData(w) { EnqueueKeeps(w); }
      FinishUpKeeps(if w.processing && HasData(w) then Enqueue(w) else w, synced);
    }
  }

  lemma FinishKeeps(w: Writer)
    requires ValidRing(w) && w.ring.count > 0 && w.ring.buffers[w.ring.pos].size == 0
    ensures ValidRing(Finish(w)) && Pending(Finish(w)) == Pending(w)
  {
    QueuePop(w.ring);
    assert Pending(w) == [] + Pending(Finish(w));
  }

  /** An empty buffer in front is skipped. */
  lemma SkipKeeps(w: Writer)
    requires ValidRing(w) && w.ring.count > 0 && w.ring.buffers[w.ring.pos].size == 0
    requires Awake(w.(worker := AtHead)) && Streams(w.(worker := AtHead))
    ensures Valid(Finish(w).(worker := AtHead))
  {
    FinishKeeps(w);
  }

  /** The worker is at the head of its loop with nothing written that is still queued. */
  lemma LoopHeadKeeps(w: Writer)
    requires ValidRing(w) && Awake(w.(worker := AtHead))
    requires Streams(w.(worker := AtHead))
    ensures Valid(LoopHead(w))
  {
    if !w.quit && !w.error && w.ring.count > 0 {
      if w.ring.buffers[w.ring.pos].size == 0 {
        SkipKeeps(w);
      }
    }
  }

  lemma WakeKeeps(w: Writer)
    requires Valid(w) && CanWake(w)
    ensures Valid(Wake(w))
  {
    LoopHeadKeeps(if w.worker == Asleep then w.(signalled := false) else w);
  }

  lemma WriteKeeps(w: Writer, n: int)
    requires Valid(w) && CanWrite(w, n)
    ensures Valid(Write(w, n))
  {
    if n > 0 {
      QueueConsume(w.ring, n);
      var p := Pending(w);
      assert p[0..] == p[..n] + p[n..];
      assert (w.file + p[..n]) + p[n..] == w.file + p[0..];
    }
  }

  /** The front buffer is used up: it leaves the queue and the loop goes round. */
  lemma FinishAndLoopKeeps(w: Writer)
    requires ValidRing(w) && w.ring.count > 0 && w.ring.buffers[w.ring.pos].size == 0
    requires Streams(w.(worker := AtHead)) && (w.handlerWaiting ==> !w.error)
    ensures Valid(FinishAndLoop(w))
  {
    FinishKeeps(w);
    LoopHeadKeeps(Finish(w));
  }

  /** A failed write ends the worker. */
  lemma FailKeeps(w: Writer)
    requires Valid(w) && w.ring.count > 0
    ensures Valid(FinishAndLoop(w.(error := true)))
  {
    QueuePop(w.ring);
  }

  lemma ConsumeKeeps(w: Writer, n: nat)
    requires Valid(w) && w.worker == Wrote(n) && 0 < n <= w.ring.buffers[w.ring.pos].size
    ensures var w1 := w.(ring := ConsumeFront(w.ring, n));
            ValidRing(w1) && Streams(w1.(worker := AtHead)) && Streams(w1.(worker := Writing))
  {
    QueueConsume(w.ring, n);
    var p := Flatten(Queued(ConsumeFront(w.ring, n)));
    assert p[0..] == p;
  }

  lemma RelockKeeps(w: Writer)
    requires Valid(w) && CanRelock(w)
    ensures Valid(Relock(w))
  {
    var n := w.worker.n;
    if w.quit {
    } else if n <= 0 {
      FailKeeps(w);
    } else {
      ConsumeKeeps(w, n);
      if w.ring.buffers[w.ring.pos].size == n {
        FinishAndLoopKeeps(w.(ring := ConsumeFront(w.ring, n)));
      }
    }
  }

  // ---------------------------------------------------------------- runs

  datatype Step =
    | ClientFills(bytes: Bytes)
    | ClientDrops
    | ClientGets
    | ClientRetires
    | ClientFinalizes(synced: bool)
    | ClientTakesEvent
    | ClientCloses
    | WorkerWakes
    | WorkerWrites(n: int)
    | WorkerRelocks

  predicate WorkerStep(s: Step) {
    s.WorkerWakes? || s.WorkerWrites? || s.WorkerRelocks?
  }

  /** After closing, the client makes no more calls. */
  predicate Enabled(w: Writer, s: Step)
    requires ValidRing(w)
  {
    match s
    case ClientFills(bytes) => !w.quit && CanFill(w, bytes)
    case ClientTakesEvent => w.events > 0
    case WorkerWakes => CanWake(w)
    case WorkerWrites(n) => CanWrite(w, n)
    case WorkerRelocks => CanRelock(w)
    case _ => !w.quit
  }

  function Next(w: Writer, s: Step): Writer
    requires ValidRing(w) && Enabled(w, s)
  {
    match s
    case ClientFills(bytes) => Fill(w, bytes)
    case ClientDrops => w.(held := None)
    case ClientGets => GetWriteBuffer(w).0
    case ClientRetires => Retire(w).0
    case ClientFinalizes(synced) => Finalize(w, synced).0
    case ClientTakesEvent => w.(events := w.events - 1)
    case ClientCloses => w.(quit := true, signalled := true)
    case WorkerWakes => Wake(w)
    case WorkerWrites(n) => Write(w, n)
    case WorkerRelocks => Relock(w)
  }

  lemma NextKeeps(w: Writer, s: Step)
    requires Valid(w) && Enabled(w, s)
    ensures Valid(Next(w, s))
  {
    match s
    case ClientFills(bytes) => FillKeeps(w, bytes);
    case ClientDrops =>
    case ClientGets => SubmitKeeps(w); if !w.error { HandOutKeeps(Submit(w)); }
    case ClientRetires => SubmitKeeps(w);
    case ClientFinalizes(synced) => FinalizeKeeps(w, synced);
    case ClientTakesEvent =>
    case ClientCloses =>
    case WorkerWakes => WakeKeeps(w);
    case WorkerWrites(n) => WriteKeeps(w, n);
    case WorkerRelocks => RelockKeeps(w);
  }

  function Opened(base: Bytes): (w: Writer)
    ensures Valid(w)
  {
    assert base + [] == base;
    assert Flatten(Queued(EmptyRing())) == [];
    Writer(EmptyRing(), false, false, false, false, false, false, AtHead, base, 0, None, [], base)
  }

  /** A run from a freshly opened writer; steps that are not possible are skipped. */
  function Run(base: Bytes, steps: seq<Step>): (w: Writer)
    ensures Valid(w)
  {
    if steps == [] then Opened(base)
    else
      var w := Run(base, steps[..|steps| - 1]);
      var s := steps[|steps| - 1];
      if Enabled(w, s) then NextKeeps(w, s); Next(w, s) else w
  }

  /**
   In every interleaving: when finalize first reports success, the file holds what it held
   at the start followed by exactly the accepted bytes.
   */
  lemma FinalizedFileIsComplete(base: Bytes, steps: seq<Step>, synced: bool)
    requires var w := Run(base, steps); !w.quit && !w.finalized && Finalize(w, synced).1 == Ok
    ensures var w' := Finalize(Run(base, steps), synced).0;
            w'.file == base + w'.accepted && w'.accepted == Run(base, steps).accepted
  {
    var w := Run(base, steps);
    BaseFixed(base, steps);
    EmptyQueue(w.ring);
    assert w.file + [] == w.file;
  }

  lemma {:induction false} BaseFixed(base: Bytes, steps: seq<Step>)
    ensures Run(base, steps).base == base
  {
    if steps != [] {
      BaseFixed(base, steps[..|steps| - 1]);
      var w := Run(base, steps[..|steps| - 1]);
      if Enabled(w, steps[|steps| - 1]) { BaseKept(w, steps[|steps| - 1]); }
    }
  }

  lemma GetsKeepBase(w: Writer)
    requires ValidRing(w)
    ensures GetWriteBuffer(w).0.base == w.base
  {}

  lemma RetireKeepsBase(w: Writer)
    requires ValidRing(w)
    ensures Retire(w).0.base == w.base
  {}

  lemma FinalizeKeepsBase(w: Writer, synced: bool)
    requires ValidRing(w)
    ensures Finalize(w, synced).0.base == w.base
  {}

  lemma BaseKept(w: Writer, s: Step)
    requires ValidRing(w) && Enabled(w, s)
    ensures Next(w, s).base == w.base
  {
    match s
    case ClientGets => GetsKeepBase(w);
    case ClientRetires => RetireKeepsBase(w);
    case ClientFinalizes(synced) => FinalizeKeepsBase(w, synced);
    case _ =>
  }

  /** At all times, also after an error or a close, the file holds a prefix of the accepted bytes. */
  lemma FileIsPrefix(base: Bytes, steps: seq<Step>)
    ensures Run(base, steps).file <= base + Run(base, steps).accepted
  {
    BaseFixed(base, steps);
  }

  /** The region the client writes into is not queued, so the worker never reads it meanwhile. */
  lemma ClientRegionNotQueued(base: Bytes, steps: seq<Step>, k: nat)
    requires var w := Run(base, steps); w.held.Some? && k < w.ring.count
    ensures var w := Run(base, steps); w.ring.buffers[Slot(w.ring.pos, k)].region != w.held.value.region
  {
    var w := Run(base, steps);
    SlotsDiffer(w.ring.pos, k, w.ring.count);
  }

  /**
   Never are both asleep: while the client waits for an event, an open writer's worker has a
   step to take. In particular the loop's exit for a waiting client with an empty queue is
   never taken.
   */
  lemma WaitingClientHasRunningWorker(base: Bytes, steps: seq<Step>)
    requires var w := Run(base, steps); w.handlerWaiting && !w.quit
    ensures var w := Run(base, steps);
            && w.ring.count > 0
            && (CanWake(w) || CanWrite(w, 1) || CanRelock(w))
  {}

  /** How many more steps the worker needs at most to finish the oldest buffer. */
  function Rank(w: Writer): nat
    requires ValidRing(w)
  {
    3 * w.ring.buffers[w.ring.pos].size +
    match w.worker
    case AtHead => 2
    case Asleep => 2
    case Writing => 1
    case _ => 0
  }

  /**
   A waiting client is woken: every worker step either sends the event, ends in an error that
   sends it as well, or lowers the rank; and no client step but closing raises it.
   */
  lemma EventComesClosely(base: Bytes, steps: seq<Step>, s: Step)
    requires var w := Run(base, steps); w.handlerWaiting && !w.quit && Enabled(w, s) && !s.ClientCloses?
    ensures var (w, w') := (Run(base, steps), Next(Run(base, steps), s));
            && ValidRing(w')
            && if WorkerStep(s) then Advances(w, w') else KeepsWaiting(w, w')
  {
    StepAdvances(Run(base, steps), s);
  }

  /** The event was sent, or the worker came closer to sending it. */
  predicate Advances(w: Writer, w': Writer)
    requires ValidRing(w) && ValidRing(w')
  {
    if w'.handlerWaiting then Rank(w') < Rank(w) else w'.events == w.events + 1
  }

  lemma LoopAdvances(w: Writer)
    requires ValidRing(w) && w.handlerWaiting && w.ring.count > 0 && !w.quit && !w.error
    requires w.worker == AtHead || w.worker == Asleep
    ensures ValidRing(LoopHead(w)) && Advances(w, LoopHead(w))
  {}

  lemma WakeAdvances(w: Writer)
    requires Valid(w) && w.handlerWaiting && !w.quit && CanWake(w)
    ensures ValidRing(Wake(w)) && Advances(w, Wake(w))
  {
    LoopAdvances(if w.worker == Asleep then w.(signalled := false) else w);
  }

  lemma ConsumeAdvances(w: Writer, n: nat)
    requires Valid(w) && w.handlerWaiting && w.worker == Wrote(n) && 0 < n < w.ring.buffers[w.ring.pos].size
    ensures var w' := w.(ring := ConsumeFront(w.ring, n), worker := Writing);
            ValidRing(w') && Advances(w, w')
  {}

  lemma FinishSends(w: Writer)
    requires ValidRing(w) && w.ring.count > 0 && w.handlerWaiting
    ensures ValidRing(FinishAndLoop(w))
    ensures !FinishAndLoop(w).handlerWaiting && FinishAndLoop(w).events == w.events + 1
  {}

  lemma RelockAdvances(w: Writer)
    requires Valid(w) && w.handlerWaiting && !w.quit && CanRelock(w)
    ensures ValidRing(Relock(w)) && Advances(w, Relock(w))
  {
    var n := w.worker.n;
    if n <= 0 {
      FinishSends(w.(error := true));
    } else if n < w.ring.buffers[w.ring.pos].size {
      ConsumeAdvances(w, n);
    } else {
      FinishSends(w.(ring := ConsumeFront(w.ring, n)));
    }
  }

  predicate KeepsWaiting(w: Writer, w': Writer)
    requires ValidRing(w) && ValidRing(w')
  {
    w'.handlerWaiting && Rank(w') <= Rank(w)
  }

  lemma HandOutKeepsWaiting(w: Writer)
    requires ValidRing(w) && w.handlerWaiting && w.held.None?
    ensures ValidRing(HandOut(w).0) && KeepsWaiting(w, HandOut(w).0)
  {}

  lemma SubmitKeepsWaiting(w: Writer)
    requires Valid(w) && w.handlerWaiting
    ensures ValidRing(Submit(w)) && KeepsWaiting(w, Submit(w)) && Submit(w).held.None?
  {
    SubmitKeeps(w);
  }

  lemma GetsKeepsWaiting(w: Writer)
    requires Valid(w) && w.handlerWaiting
    ensures ValidRing(GetWriteBuffer(w).0) && KeepsWaiting(w, GetWriteBuffer(w).0)
  {
    if !w.error {
      SubmitKeepsWaiting(w);
      HandOutKeepsWaiting(Submit(w));
    }
  }

  lemma RetireKeepsWaiting(w: Writer)
    requires Valid(w) && w.handlerWaiting
    ensures ValidRing(Retire(w).0) && KeepsWaiting(w, Retire(w).0)
  {
    SubmitKeepsWaiting(w);
  }

  lemma FinalizeKeepsWaiting(w: Writer, synced: bool)
    requires Valid(w) && w.handlerWaiting
    ensures ValidRing(Finalize(w, synced).0) && KeepsWaiting(w, Finalize(w, synced).0)
  {
    if w.processing && HasData(w) { EnqueueKeeps(w); }
  }

  lemma WriteAdvances(w: Writer, n: int)
    requires Valid(w) && w.handlerWaiting && CanWrite(w, n)
    ensures ValidRing(Write(w, n)) && Advances(w, Write(w, n))
  {}

  lemma StepAdvances(w: Writer, s: Step)
    requires Valid(w) && w.handlerWaiting && !w.quit && Enabled(w, s) && !s.ClientCloses?
    ensures ValidRing(Next(w, s))
    ensures if WorkerStep(s) then Advances(w, Next(w, s)) else KeepsWaiting(w, Next(w, s))
  {
    match s
    case ClientFills(bytes) => FillKeeps(w, bytes);
    case ClientGets => GetsKeepsWaiting(w);
    case ClientRetires => RetireKeepsWaiting(w);
    case ClientFinalizes(synced) => FinalizeKeepsWaiting(w, synced);
    case WorkerWakes => WakeAdvances(w);
    case WorkerWrites(n) => WriteAdvances(w, n);
    case WorkerRelocks => RelockAdvances(w);
    case _ =>
  }
}
