/**
 The file writer as an object: each critical section updates the ring and the flags in
 place. The methods are proved against the steps of WriterRing, whose runs are all interleavings.
 */
module FileWriter {
  import opened BufferRing
  import opened Optional
  import W = WriterRing

  class FileWriter {
    const memory: array<Bytes>
    const buffers: array<Buffer>
    var readyPos: nat
    var readyCount: nat
    var processing: bool
    var handlerWaiting: bool
    var error: bool
    var quit: bool
    var finalized: bool
    var signalled: bool
    var worker: W.Worker
    var file: Bytes
    var events: nat
    ghost var accepted: Bytes
    ghost const base: Bytes

    /** The state of writer, worker and file, together with the buffer the client holds. */
    ghost function State(held: Option<Buffer>): W.Writer
      reads this, memory, buffers
    {
      W.Writer(Ring(memory[..], buffers[..], readyPos, readyCount),
               processing, handlerWaiting, error, quit, finalized, signalled, worker, file, events,
               held, accepted, base)
    }

    constructor (start: Bytes)
      ensures State(None) == W.Opened(start)
      ensures W.Valid(State(None)) && fresh(memory) && fresh(buffers)
    {
      base := start;
      accepted := [];
      file := start;
      readyPos, readyCount, events := 0, 0, 0;
      processing, handlerWaiting, error, quit, finalized, signalled := false, false, false, false, false, false;
      worker := W.AtHead;
      memory := new Bytes[BUFFER_COUNT](i => []);
      buffers := new Buffer[BUFFER_COUNT](i requires i >= 0 => Buffer(i, 0, 0));
      new;
      assert memory[..] == EmptyRing().memory;
      assert buffers[..] == EmptyRing().buffers;
    }

    static predicate Blank(last: Option<Buffer>) {
      last.None? || last.value.size == 0
    }

    /** Stores the client's buffer behind the ready ones. */
    method Store(last: Buffer)
      requires W.ValidRing(State(Some(last))) && last.size > 0
      modifies this, buffers
      ensures State(None) == W.Enqueue(old(State(Some(last))))
    {
      accepted := accepted + Contents(memory[..], last);
      SlotIsModulo(readyPos, readyCount);
      buffers[(readyPos + readyCount) % BUFFER_COUNT] := last;
      var signal := readyCount == 0;
      readyCount := readyCount + 1;
      if signal {
        signalled := true;
      }
      processing := false;
    }

    method GetWriteBuffer(last: Option<Buffer>) returns (r: AioResult, b: Option<Buffer>)
      requires W.ValidRing(State(last))
      modifies this, buffers
      ensures (State(b), r) == W.GetWriteBuffer(old(State(last)))
    {
      if error {
        return Error, last;
      }
      Submit(last);
      r, b := HandOut();
    }

    /** Takes the client's buffer over, unless it is empty. */
    method Submit(last: Option<Buffer>)
      requires W.ValidRing(State(last))
      modifies this, buffers
      ensures State(None) == W.Submit(old(State(last)))
      ensures !processing && W.ValidRing(State(None)) && error == old(error)
    {
      EnqueueStaysValid(State(last));
      if processing && !Blank(last) {
        Store(last.value);
      } else {
        processing := false;
      }
    }

    method HandOut() returns (r: AioResult, b: Option<Buffer>)
      requires W.ValidRing(State(None)) && !processing
      modifies this
      ensures (State(b), r) == W.HandOut(old(State(None)))
    {
      if readyCount >= BUFFER_COUNT {
        handlerWaiting := true;
        return Wait, None;
      }
      processing := true;
      SlotIsModulo(readyPos, readyCount);
      b := Some(Buffer(buffers[(readyPos + readyCount) % BUFFER_COUNT].region, 0, 0));
      r := Ok;
    }

    method Retire(last: Option<Buffer>) returns (r: AioResult, b: Option<Buffer>)
      requires W.ValidRing(State(last))
      modifies this, buffers
      ensures (State(b), r) == W.Retire(old(State(last)))
    {
      if error {
        return Error, last;
      }
      if !processing {
        return if Blank(last) then Ok else Error, last;
      }
      if !Blank(last) {
        Store(last.value);
      }
      processing := false;
      return Ok, None;
    }

    method Finalize(last: Option<Buffer>, synced: bool) returns (r: AioResult, b: Option<Buffer>)
      requires W.ValidRing(State(last))
      modifies this, buffers
      ensures (State(b), r) == W.Finalize(old(State(last)), synced)
    {
      if error {
        return Error, last;
      }
      if finalized {
        return Ok, last;
      }
      b := last;
      if processing && !Blank(last) {
        Store(last.value);
        b := None;
      }
      if readyCount > 0 {
        handlerWaiting := true;
        return Wait, b;
      }
      if !synced {
        error := true;
        return Error, b;
      }
      finalized := true;
      return Ok, b;
    }

    /** The worker at the head of its loop, woken if it was asleep, up to the next release of the mutex. */
    method WorkerWakes(ghost held: Option<Buffer>)
      requires W.ValidRing(State(held)) && W.CanWake(State(held))
      modifies this
      ensures State(held) == W.Wake(old(State(held)))
    {
      if worker == W.Asleep {
        signalled := false;
      }
      LoopHead(held);
    }

    method LoopHead(ghost held: Option<Buffer>)
      requires W.ValidRing(State(held))
      modifies this
      ensures State(held) == W.LoopHead(old(State(held)))
    {
      if quit || error {
        worker := W.Exited;
        return;
      }
      if readyCount == 0 {
        if handlerWaiting {
          handlerWaiting := false;
          events := events + 1;
          worker := W.Exited;
        } else {
          worker := W.Asleep;
        }
        return;
      }
      if buffers[readyPos].size > 0 {
        worker := W.Writing;
      } else {
        FinishBuffer(held);
        worker := W.AtHead;
      }
    }

    method FinishBuffer(ghost held: Option<Buffer>)
      requires W.ValidRing(State(held)) && readyCount > 0
      modifies this
      ensures State(held) == W.Finish(old(State(held)))
    {
      SlotIsModulo(readyPos, 1);
      readyPos := (readyPos + 1) % BUFFER_COUNT;
      readyCount := readyCount - 1;
      if handlerWaiting {
        handlerWaiting := false;
        events := events + 1;
      }
    }

    /** The worker takes the mutex again after a write. */
    method WorkerRelocks(ghost held: Option<Buffer>)
      requires W.ValidRing(State(held)) && W.CanRelock(State(held))
      modifies this, buffers
      ensures State(held) == W.Relock(old(State(held)))
    {
      ghost var before := State(held);
      if quit {
        worker := W.Exited;
        return;
      }
      if worker.n > 0 {
        ConsumeBuffer(held, worker.n);
        if buffers[readyPos].size > 0 {
          worker := W.Writing;
          return;
        }
        assert State(held) == before.(ring := ConsumeFront(before.ring, before.worker.n));
      } else {
        error := true;
        assert State(held) == before.(error := true);
      }
      FinishAndLoop(held);
    }

    method FinishAndLoop(ghost held: Option<Buffer>)
      requires W.ValidRing(State(held)) && readyCount > 0
      modifies this
      ensures State(held) == W.FinishAndLoop(old(State(held)))
    {
      FinishBuffer(held);
      LoopHead(held);
    }

    method ConsumeBuffer(ghost held: Option<Buffer>, n: nat)
      requires W.ValidRing(State(held)) && readyCount > 0 && n <= buffers[readyPos].size
      modifies buffers
      ensures State(held) == old(State(held)).(ring := ConsumeFront(old(State(held)).ring, n))
    {
      var b := buffers[readyPos];
      buffers[readyPos] := Buffer(b.region, b.start + n, b.size - n);
    }
  }

  lemma EnqueueStaysValid(w: W.Writer)
    requires W.ValidRing(w)
    ensures W.ValidRing(W.Submit(w)) && !W.Submit(w).processing
  {
    if w.processing && W.HasData(w) { QueuePush(w.ring, w.held.value); }
  }
}
