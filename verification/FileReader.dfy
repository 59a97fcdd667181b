/**
 The file reader as an object: the memory regions and the slots are arrays, and each critical section updates
 them and the flags in place. The methods are proved against the steps of ReaderRing, whose runs are all
 interleavings.
 */
module FileReader {
  import opened BufferRing
  import opened Optional
  import R = ReaderRing

  class FileReader {
    const memory: array<Bytes>
    const buffers: array<Buffer>
    var readyPos: nat
    var readyCount: nat
    var processing: bool
    var handlerWaiting: bool
    var error: bool
    var quit: bool
    var calledRead: bool
    var signalled: bool
    var worker: R.Worker
    var events: nat
    var filePos: nat
    var remaining: nat
    var want: R.Request
    /** What the client was given since the last seek, and whether the end was among it. */
    ghost var given: (Bytes, bool)

    ghost function Slots(): Ring
      reads this, memory, buffers
    {
      Ring(memory[..], buffers[..], readyPos, readyCount)
    }

    /** The state of reader, worker and file, together with the buffer the client holds. */
    ghost function State(held: Option<Buffer>): R.Reader
      reads this, memory, buffers
    {
      R.Reader(Slots(), processing, handlerWaiting, error, quit, calledRead, signalled, worker, events, filePos, remaining,
               held, want, given.0, given.1)
    }

    constructor (file: Bytes, offset: nat, limit: Option<nat>)
      ensures State(None) == R.Opened(file, offset, limit)
      ensures R.Valid(State(None)) && fresh(memory) && fresh(buffers)
    {
      readyPos, readyCount := 0, 0;
      want := R.Request(file, 0, None, []);
      events, filePos, remaining := 0, 0, 0;
      processing, handlerWaiting, error, quit, calledRead, signalled := false, false, false, false, false, false;
      worker := R.AtHead;
      given := ([], false);
      memory := new Bytes[BUFFER_COUNT](i => []);
      buffers := new Buffer[BUFFER_COUNT](i requires i >= 0 => Buffer(i, 0, 0));
      new;
      assert memory[..] == EmptyRing().memory;
      assert buffers[..] == EmptyRing().buffers;
      Restart(offset, limit, R.Started, None);
    }

    /** The client gives its buffer back and takes the oldest ready one. It is given the file's next bytes:
        what it has been given so far stays a prefix of what it asked for. */
    method Read(ghost held: Option<Buffer>) returns (r: AioResult, b: Option<Buffer>)
      requires R.Valid(State(held))
      modifies this
      ensures !old(error) ==> (State(b), r) == R.Read(old(State(held)))
      ensures old(error) ==> r == Error && State(held) == old(State(held))
      ensures r == Ok ==> b.Some? && InMemory(memory[..], b.value)
                          && given.0 == old(given.0) + Contents(memory[..], b.value) && given.0 <= want.target
    {
      if error {
        return Error, None;
      }
      ReadDelivers(State(held));
      GiveBack(held);
      r, b := TakeNext();
    }

    method GiveBack(ghost held: Option<Buffer>)
      requires R.ValidRing(State(held))
      modifies this`readyPos, this`readyCount, this`signalled, this`processing
      ensures State(None) == R.GiveBack(old(State(held))) && !processing && WellFormed(Slots())
    {
      PopWellFormed(Slots());
      if processing {
        if readyCount == BUFFER_COUNT {
          signalled := true;
        }
        Advance();
        processing := false;
      }
    }

    /** The oldest slot is free again. */
    method Advance()
      requires WellFormed(Slots()) && readyCount > 0
      modifies this`readyPos, this`readyCount
      ensures Slots() == Pop(old(Slots()))
    {
      SlotIsModulo(readyPos, 1);
      readyPos, readyCount := (readyPos + 1) % BUFFER_COUNT, readyCount - 1;
    }

    method TakeNext() returns (r: AioResult, b: Option<Buffer>)
      requires WellFormed(Slots()) && !processing
      modifies this`calledRead, this`processing, this`given, this`handlerWaiting
      ensures (State(b), r) == R.TakeNext(old(State(None)))
    {
      if readyCount > 0 {
        assert FrontInMemory(Slots());
        calledRead := true;
        processing := true;
        given := (given.0 + Contents(memory[..], buffers[readyPos]), given.1 || buffers[readyPos].size == 0);
        return Ok, Some(buffers[readyPos]);
      }
      handlerWaiting := true;
      return Wait, None;
    }

    method NeedsRestart(offset: Option<nat>, limit: Option<nat>, ghost held: Option<Buffer>) returns (change: bool)
      ensures change == R.SeekChanges(State(held), offset, limit)
    {
      change := false;
      if calledRead {
        change := true;
      } else if offset.Some? {
        if offset.value != want.offset {
          change := true;
        }
        if limit != want.maxSize {
          change := true;
        }
      }
    }

    method Seek(offset: Option<nat>, limit: Option<nat>, outcome: R.Outcome, ghost held: Option<Buffer>)
      returns (r: AioResult, ghost b: Option<Buffer>)
      modifies this
      ensures (State(b), r) == R.Seek(old(State(held)), offset, limit, outcome)
    {
      if error {
        return Error, held;
      }
      var change := NeedsRestart(offset, limit, held);
      if !change {
        return Ok, held;
      }
      StopWorker(held);
      Restart(if offset.Some? then offset.value else want.offset, if offset.Some? then limit else want.maxSize, outcome, held);
      return if error then Error else Ok, None;
    }

    /** The signal that stops the worker may be left behind. */
    method StopWorker(ghost held: Option<Buffer>)
      modifies this`signalled
      ensures State(held) == old(State(held)).(signalled := true)
    {
      signalled := true;
    }

    /** Everything starts over; the worker has been joined before. */
    method Restart(offset: nat, limit: Option<nat>, outcome: R.Outcome, ghost held: Option<Buffer>)
      modifies this
      ensures State(None) == R.Restart(old(State(held)), offset, limit, outcome)
    {
      ClearFields(held);
      Ask(offset, limit);
      if outcome != R.Started || offset > |want.data| {
        error, worker := true, R.Exited;
      } else {
        filePos, worker := offset, R.AtHead;
      }
    }

    method Ask(offset: nat, limit: Option<nat>)
      modifies this`want, this`remaining
      ensures var asked := R.Asked(old(want).data, offset, limit);
              State(None) == old(State(None)).(want := asked, remaining := |asked.target|)
    {
      want := R.Asked(want.data, offset, limit);
      remaining := |want.target|;
    }

    method ClearFields(ghost held: Option<Buffer>)
      modifies this`readyPos, this`readyCount, this`processing, this`events, this`quit, this`handlerWaiting, this`calledRead, this`given
      ensures State(None) == R.Cleared(old(State(held)))
    {
      ClearRing(held);
      ClearFlags();
    }

    /** Nothing is ready, held or announced. */
    method ClearRing(ghost held: Option<Buffer>)
      modifies this`readyPos, this`readyCount, this`processing, this`events
      ensures State(None) == old(State(held)).(ring := old(Slots()).(pos := 0, count := 0), processing := false, events := 0, held := None)
    {
      readyPos, readyCount := 0, 0;
      processing, events := false, 0;
    }

    method ClearFlags()
      modifies this`quit, this`handlerWaiting, this`calledRead, this`given
      ensures State(None) == old(State(None)).(quit := false, handlerWaiting := false, calledRead := false, delivered := [], sawEnd := false)
    {
      quit, handlerWaiting, calledRead := false, false, false;
      given := ([], false);
    }

    /** The worker at the head of its loop, up to the next release of the mutex. */
    method WorkerWakes(ghost held: Option<Buffer>)
      requires R.Valid(State(held)) && R.CanWake(State(held))
      modifies this, buffers
      ensures State(held) == R.Wake(old(State(held)))
    {
      if worker == R.Asleep {
        signalled := false;
        worker := R.AtHead;
      }
      LoopHead(held);
    }

    method LoopHead(ghost held: Option<Buffer>)
      requires WellFormed(Slots())
      modifies this, buffers
      ensures State(held) == R.LoopHead(old(State(held)))
    {
      if quit || error {
        worker := R.Exited;
        return;
      }
      if readyCount >= BUFFER_COUNT {
        worker := R.Asleep;
        return;
      }
      ghost var before := State(held);
      var slot := ResetSlot(held);
      assert State(held) == R.ResetNext(before);
      var toRead := BUFFER_SIZE;
      if remaining < toRead {
        toRead := remaining;
      }
      if toRead > 0 {
        worker := R.Reading(slot, toRead);
      } else {
        AfterRead(held, slot, 0);
      }
    }

    /** The slot behind the ready ones is emptied. */
    method ResetSlot(ghost held: Option<Buffer>) returns (slot: nat)
      requires WellFormed(Slots())
      modifies buffers
      ensures State(held) == R.ResetNext(old(State(held))) && slot == NextSlot(Slots()) && slot < buffers.Length
    {
      SlotIsModulo(readyPos, readyCount);
      slot := (readyPos + readyCount) % BUFFER_COUNT;
      buffers[slot] := Buffer(buffers[slot].region, 0, 0);
    }

    /** The system call, made without the mutex: the file's next `n` bytes arrive in the slot's region, and no
        other region changes. */
    method WorkerFetches(ghost held: Option<Buffer>, n: int)
      requires R.CanFetch(State(held), n)
      modifies memory, this`filePos, this`worker
      ensures State(held) == R.Fetch(old(State(held)), n)
      ensures forall i :: 0 <= i < memory.Length && i != old(worker).slot ==> memory[i] == old(memory[i])
      ensures old(R.Valid(State(held))) ==>
                && R.Valid(State(held)) && Queued(Slots()) == old(Queued(Slots()))
                && (n > 0 ==> NextWanted(want, remaining, n, memory[old(worker).slot]))
    {
      if R.Valid(State(held)) {
        R.FetchKeeps(State(held), n);
        if n > 0 {
          FetchDelivers(State(held), n);
        }
      }
      SystemRead(held, n);
    }

    method SystemRead(ghost held: Option<Buffer>, n: int)
      requires R.CanFetch(State(held), n)
      modifies memory, this`filePos, this`worker
      ensures State(held) == R.Fetch(old(State(held)), n)
      ensures forall i :: 0 <= i < memory.Length && i != old(worker).slot ==> memory[i] == old(memory[i])
    {
      if n > 0 {
        memory[worker.slot] := want.data[filePos..filePos + n];
        filePos := filePos + n;
      }
      worker := R.HaveRead(worker.slot, n);
    }

    method WorkerRelocks(ghost held: Option<Buffer>)
      requires R.Valid(State(held)) && R.CanRelock(State(held))
      modifies this, buffers
      ensures State(held) == R.Relock(old(State(held)))
    {
      if quit {
        worker := R.Exited;
        return;
      }
      AfterRead(held, worker.slot, worker.n);
    }

    /** The slot has been filled, or reading failed; after the end or an error the loop is left. */
    method AfterRead(ghost held: Option<Buffer>, slot: nat, n: int)
      requires slot < buffers.Length && n <= remaining
      modifies this, buffers
      ensures State(held) == R.Filled(old(State(held)), slot, n)
    {
      if n >= 0 {
        AddReady(held, slot, n);
      } else {
        error := true;
        worker := R.Exited;
      }
      Notify(held);
    }

    method AddReady(ghost held: Option<Buffer>, slot: nat, n: nat)
      requires slot < buffers.Length && n <= remaining
      modifies buffers, this`readyCount, this`remaining, this`worker
      ensures State(held) == R.Added(old(State(held)), slot, n)
    {
      var b := buffers[slot];
      buffers[slot] := b.(size := b.size + n);
      readyCount := readyCount + 1;
      remaining := remaining - n;
      worker := if n == 0 then R.Exited else R.AtHead;
    }

    method Notify(ghost held: Option<Buffer>)
      modifies this`handlerWaiting, this`events
      ensures State(held) == R.SendEvent(old(State(held)))
    {
      if handlerWaiting {
        handlerWaiting := false;
        events := events + 1;
      }
    }
  }

  lemma PopWellFormed(ring: Ring)
    requires WellFormed(ring)
    ensures ring.count > 0 ==> WellFormed(Pop(ring))
  {}

  /** The next `n` bytes of what was asked for and not yet made ready. */
  ghost predicate NextWanted(w: R.Request, remaining: nat, n: nat, bytes: Bytes) {
    n <= remaining <= |w.target| && bytes == w.target[|w.target| - remaining..|w.target| - remaining + n]
  }

  lemma FetchDelivers(r: R.Reader, n: nat)
    requires WellFormed(r.ring) && R.CanFetch(r, n) && n > 0
    requires R.WorkerOk(r.ring, r.worker, r.want, r.filePos, r.remaining)
    ensures var r' := R.Fetch(r, n);
            Queued(r'.ring) == Queued(r.ring) && NextWanted(r.want, r.remaining, n, r'.ring.memory[r.worker.slot])
  {
    R.FetchedWorkerOk(r, n);
  }

  /** A buffer that is read is the next part of what was asked for. */
  lemma ReadDelivers(r: R.Reader)
    requires R.Valid(r) && !r.error
    ensures var (r', res) := R.Read(r);
            res == Ok ==> r'.held.Some? && InMemory(r'.ring.memory, r'.held.value)
                          && r'.delivered == r.delivered + Contents(r'.ring.memory, r'.held.value)
                          && r'.delivered <= r'.want.target && r'.want == r.want
  {
    R.GiveBackKeeps(r);
    R.TakeNextKeeps(R.GiveBack(r));
    var r' := R.Read(r).0;
    R.DeliveredSoFar(r');
    if R.GiveBack(r).ring.count > 0 {
      assert FrontInMemory(R.GiveBack(r).ring);
    }
  }
}
