/**
 The writer into memory. It has no worker: storing a buffer appends it at once, unless a
 size limit is set and the buffer does not fit, which is remembered as an error.
 */
module MemoryWriter {
  import opened BufferRing
  import opened Optional

  /** `held` is what the client has put into the buffer it was given; `accepted` all it ever handed over. */
  datatype Mem = Mem(result: Bytes, limit: nat, processing: bool, held: Option<Bytes>,
                     error: bool, finalized: bool, accepted: Bytes)

  predicate HasData(m: Mem) {
    m.processing && m.held.Some? && m.held.value != []
  }

  predicate Fits(m: Mem, bytes: Bytes) {
    m.limit == 0 || |m.result| + |bytes| <= m.limit
  }

  function StoreSpec(m: Mem): Mem
    requires HasData(m)
  {
    var b := m.held.value;
    var m1 := m.(held := None, processing := false, accepted := m.accepted + b);
    if Fits(m, b) then m1.(result := m.result + b) else m1.(error := true)
  }

  function GetWriteBufferSpec(m: Mem): (Mem, AioResult) {
    if m.error then (m, Error) else
    ((if HasData(m) then StoreSpec(m) else m).(processing := true, held := Some([])), Ok)
  }

  function RetireSpec(m: Mem): (Mem, AioResult) {
    if m.error then (m, Error)
    else if !m.processing then (m, if m.held.Some? && m.held.value != [] then Error else Ok)
    else ((if HasData(m) then StoreSpec(m) else m).(processing := false, held := None), Ok)
  }

  function FinalizeSpec(m: Mem): (Mem, AioResult) {
    if m.error then (m, Error)
    else if m.finalized then (m, Ok)
    else ((if HasData(m) then StoreSpec(m) else m).(finalized := true), Ok)
  }

  datatype Step = Fills(bytes: Bytes) | Drops | Gets | Retires | Finalizes

  function Next(m: Mem, s: Step): Mem {
    match s
    case Fills(bytes) => if m.held.Some? then m.(held := Some(m.held.value + bytes)) else m
    case Drops => m.(held := None)
    case Gets => GetWriteBufferSpec(m).0
    case Retires => RetireSpec(m).0
    case Finalizes => FinalizeSpec(m).0
  }

  /** The result holds a prefix of what was handed over, all of it unless there was an error, within the limit. */
  predicate Valid(m: Mem) {
    && m.result <= m.accepted
    && (!m.error ==> m.result == m.accepted)
    && (m.limit > 0 ==> |m.result| <= m.limit)
    && (m.held.Some? ==> m.processing)
  }

  function Run(limit: nat, steps: seq<Step>): Mem {
    if steps == [] then Mem([], limit, false, None, false, false, [])
    else Next(Run(limit, steps[..|steps| - 1]), steps[|steps| - 1])
  }

  lemma StoreKeeps(m: Mem)
    requires Valid(m) && HasData(m) && !m.error
    ensures Valid(StoreSpec(m)) && StoreSpec(m).error == !Fits(m, m.held.value)
  {
    assert m.result <= m.accepted + m.held.value;
  }

  lemma NextKeeps(m: Mem, s: Step)
    requires Valid(m)
    ensures Valid(Next(m, s))
  {
    if HasData(m) && !m.error { StoreKeeps(m); }
  }

  lemma {:induction false} RunKeeps(limit: nat, steps: seq<Step>)
    ensures Valid(Run(limit, steps)) && Run(limit, steps).limit == limit
    decreases |steps|
  {
    if steps != [] {
      RunKeeps(limit, steps[..|steps| - 1]);
      NextKeeps(Run(limit, steps[..|steps| - 1]), steps[|steps| - 1]);
    }
  }

  /**
   Finalizing a writer without error always reports success, but the result is complete if and
   only if the buffer handed over with that last call fits: an overflow found by finalize
   itself goes unreported.
   */
  lemma FinalizedResultComplete(limit: nat, steps: seq<Step>)
    requires var m := Run(limit, steps); !m.finalized && !m.error
    ensures var m := Run(limit, steps);
            && FinalizeSpec(m).1 == Ok
            && (FinalizeSpec(m).0.result == FinalizeSpec(m).0.accepted <==> !HasData(m) || Fits(m, m.held.value))
  {
    RunKeeps(limit, steps);
    var m := Run(limit, steps);
    if HasData(m) {
      assert |StoreSpec(m).accepted| == |m.accepted| + |m.held.value|;
    }
  }

  /** One buffer larger than the limit, handed over with finalize: success is reported, the result is empty. */
  lemma OverflowInFinalizeUnreported(b: Byte)
    ensures var m := Run(1, [Gets, Fills([b, b])]);
            && FinalizeSpec(m).1 == Ok
            && FinalizeSpec(m).0.accepted == [b, b] && FinalizeSpec(m).0.result == []
  {
    var s1: seq<Step> := [Gets];
    var s2: seq<Step> := [Gets, Fills([b, b])];
    assert s1[..0] == [] && s2[..1] == s1;
    var m1 := Run(1, s1);
    assert m1 == Mem([], 1, true, Some([]), false, false, []);
    assert [] + [b, b] == [b, b];
    assert Run(1, s2) == m1.(held := Some([b, b]));
  }

  /** The step hands over a buffer that does not fit. */
  predicate Overflows(m: Mem, s: Step) {
    HasData(m) && !Fits(m, m.held.value) && (s.Gets? || s.Retires? || (s.Finalizes? && !m.finalized))
  }

  predicate OverflowAt(limit: nat, steps: seq<Step>, k: nat) {
    k < |steps| && Overflows(Run(limit, steps[..k]), steps[k])
  }

  lemma ErrorNext(m: Mem, s: Step)
    requires Valid(m)
    ensures Next(m, s).error <==> m.error || Overflows(m, s)
  {
    if HasData(m) && !m.error { StoreKeeps(m); }
  }

  lemma {:induction false} ErrorExactly(limit: nat, steps: seq<Step>)
    ensures Run(limit, steps).error <==> exists k: nat :: OverflowAt(limit, steps, k)
    decreases |steps|
  {
    if steps != [] {
      var (init, last) := (steps[..|steps| - 1], |steps| - 1);
      ErrorExactly(limit, init);
      RunKeeps(limit, init);
      ErrorNext(Run(limit, init), steps[last]);
      forall k: nat | k < last ensures OverflowAt(limit, init, k) == OverflowAt(limit, steps, k) {
        assert init[..k] == steps[..k];
      }
      assert OverflowAt(limit, steps, last) == Overflows(Run(limit, init), steps[last]);
    }
  }

  /**
   Errors stick: after any run, finalize fails if and only if some call of the run handed over a buffer that
   did not fit, be it a finalize that reported success itself.
   */
  lemma OverflowSticks(limit: nat, steps: seq<Step>)
    ensures FinalizeSpec(Run(limit, steps)).1 == Error <==> exists k: nat :: OverflowAt(limit, steps, k)
  {
    ErrorExactly(limit, steps);
  }

  class MemoryWriter {
    var result: Bytes
    const limit: nat
    var processing: bool
    var readyCount: nat
    var error: bool
    var finalized: bool
    ghost var accepted: Bytes

    constructor (sizeLimit: nat)
      ensures State(None) == Run(sizeLimit, []) && readyCount == 0
    {
      result, limit, accepted := [], sizeLimit, [];
      processing, error, finalized, readyCount := false, false, false, 0;
    }

    ghost function State(held: Option<Bytes>): Mem
      reads this
    {
      Mem(result, limit, processing, held, error, finalized, accepted)
    }

    static predicate Blank(last: Option<Bytes>) {
      last.None? || last.value == []
    }

    /** The stored buffer is taken off the queue again at once; the subtraction cannot go below zero. */
    method SignalCapacity(b: Bytes)
      requires readyCount == 1 && (limit > 0 ==> |result| <= limit)
      modifies this`readyCount, this`error, this`result
      ensures readyCount == 0
      ensures error == (old(error) || !Fits(old(State(None)), b))
      ensures result == if Fits(old(State(None)), b) then old(result) + b else old(result)
    {
      readyCount := readyCount - 1;
      if limit > 0 && |b| > limit - |result| {
        error := true;
      } else {
        result := result + b;
      }
    }

    method Store(b: Bytes)
      requires Valid(State(Some(b))) && HasData(State(Some(b))) && readyCount == 0
      modifies this
      ensures State(None) == StoreSpec(old(State(Some(b)))) && readyCount == 0
    {
      accepted := accepted + b;
      readyCount := readyCount + 1;
      SignalCapacity(b);
      processing := false;
    }

    method GetWriteBuffer(last: Option<Bytes>) returns (r: AioResult, b: Option<Bytes>)
      requires Valid(State(last)) && readyCount == 0
      modifies this
      ensures (State(b), r) == GetWriteBufferSpec(old(State(last))) && readyCount == 0
    {
      if error { return Error, last; }
      if processing && !Blank(last) {
        Store(last.value);
      }
      processing := true;
      return Ok, Some([]);
    }

    method Retire(last: Option<Bytes>) returns (r: AioResult, b: Option<Bytes>)
      requires Valid(State(last)) && readyCount == 0
      modifies this
      ensures (State(b), r) == RetireSpec(old(State(last))) && readyCount == 0
    {
      if error { return Error, last; }
      if !processing { return if Blank(last) then Ok else Error, last; }
      if !Blank(last) {
        Store(last.value);
      }
      processing := false;
      return Ok, None;
    }

    method Finalize(last: Option<Bytes>) returns (r: AioResult, b: Option<Bytes>)
      requires Valid(State(last)) && readyCount == 0
      modifies this
      ensures (State(b), r) == FinalizeSpec(old(State(last))) && readyCount == 0
    {
      if error { return Error, last; }
      if finalized { return Ok, last; }
      b := last;
      if processing && !Blank(last) {
        Store(last.value);
        b := None;
      }
      finalized := true;
      r := Ok;
    }
  }
}
