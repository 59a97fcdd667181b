/**
 The activity logger: any number of threads record amounts in two atomic counters; a reader under the lock takes
 both out, one after the other, and asks to be woken if it found nothing. Every access to a counter is a
 step of its own.
 */
module ActivityLogger {

  /** How far the reader got: it takes the counters in either order. */
  datatype Reader = Idle | TookOne(first: bool, amount: nat) | TookBoth(send: nat, recv: nat)

  /** `inFlight` counts the threads that found a counter empty and have yet to take the lock;
      `waits`, `recorded` and `extracted` are history: how often the reader began to wait, and the amounts. */
  datatype Logger = Logger(send: nat, recv: nat, waiting: bool, reader: Reader, inFlight: nat, wakeups: nat, waits: nat,
                           recordedSend: nat, recordedRecv: nat, extractedSend: nat, extractedRecv: nat)

  datatype Step =
    | Record(sending: bool, amount: nat)
    | RecordLocks
    | ReaderTakesOne(sending: bool)
    | ReaderTakesOther
    | ReaderEnds

  function Taken(l: Logger, sending: bool): Logger {
    if sending then l.(send := 0, extractedSend := l.extractedSend + l.send)
    else l.(recv := 0, extractedRecv := l.extractedRecv + l.recv)
  }

  function Amount(l: Logger, sending: bool): nat {
    if sending then l.send else l.recv
  }

  /** A step that is not possible leaves the state as it is. */
  function After(l: Logger, step: Step): Logger {
    match step
    case Record(sending, amount) =>
      var l1 := l.(inFlight := if Amount(l, sending) == 0 then l.inFlight + 1 else l.inFlight);
      if sending then l1.(send := l.send + amount, recordedSend := l.recordedSend + amount)
      else l1.(recv := l.recv + amount, recordedRecv := l.recordedRecv + amount)
    case RecordLocks =>
      if l.reader != Idle || l.inFlight == 0 then l
      else if l.waiting then l.(inFlight := l.inFlight - 1, waiting := false, wakeups := l.wakeups + 1)
      else l.(inFlight := l.inFlight - 1)
    case ReaderTakesOne(sending) =>
      if l.reader != Idle then l else Taken(l, sending).(reader := TookOne(sending, Amount(l, sending)))
    case ReaderTakesOther =>
      if !l.reader.TookOne? then l
      else
        var (first, amount, other) := (l.reader.first, l.reader.amount, Amount(l, !l.reader.first));
        Taken(l, !first).(reader := if first then TookBoth(amount, other) else TookBoth(other, amount))
    case ReaderEnds =>
      if !l.reader.TookBoth? then l
      else
        var nothing := l.reader.send == 0 && l.reader.recv == 0;
        l.(reader := Idle, waiting := l.waiting || nothing, waits := if nothing && !l.waiting then l.waits + 1 else l.waits)
  }

  function Initial(waiting: bool): Logger {
    Logger(0, 0, waiting, Idle, 0, 0, if waiting then 1 else 0, 0, 0, 0, 0)
  }

  function Run(waiting: bool, steps: seq<Step>): Logger {
    if steps == [] then Initial(waiting) else After(Run(waiting, steps[..|steps| - 1]), steps[|steps| - 1])
  }

  /** The reader is about to wait for what it believes is missing. */
  predicate Misses(l: Logger) {
    match l.reader
    case Idle => false
    case TookOne(first, amount) => amount == 0 && Amount(l, first) != 0
    case TookBoth(send, recv) => send == 0 && recv == 0 && (l.send != 0 || l.recv != 0)
  }

  predicate Valid(l: Logger) {
    && l.recordedSend == l.extractedSend + l.send
    && l.recordedRecv == l.extractedRecv + l.recv
    && (l.waiting && (l.send != 0 || l.recv != 0) ==> l.inFlight > 0)
    && (Misses(l) ==> l.inFlight > 0)
    && l.wakeups + (if l.waiting then 1 else 0) == l.waits
  }

  lemma StepKeeps(l: Logger, step: Step)
    requires Valid(l)
    ensures Valid(After(l, step))
  {}

  lemma {:induction false} RunKeeps(waiting: bool, steps: seq<Step>)
    ensures Valid(Run(waiting, steps))
    decreases |steps|
  {
    if steps != [] {
      RunKeeps(waiting, steps[..|steps| - 1]);
      StepKeeps(Run(waiting, steps[..|steps| - 1]), steps[|steps| - 1]);
    }
  }

  /** For every interleaving, what was recorded has been extracted once or is still there to extract. */
  lemma AmountsConserved(waiting: bool, steps: seq<Step>)
    ensures var l := Run(waiting, steps);
            l.recordedSend == l.extractedSend + l.send && l.recordedRecv == l.extractedRecv + l.recv
  {
    RunKeeps(waiting, steps);
  }

  /** For every interleaving, a reader that waits while amounts are there has a recorder about to wake it;
      once that one gets the lock, the reader is woken. */
  lemma WaitingReaderIsWoken(waiting: bool, steps: seq<Step>)
    requires var l := Run(waiting, steps); l.waiting && l.reader == Idle && (l.send != 0 || l.recv != 0)
    ensures var l := Run(waiting, steps);
            l.inFlight > 0 && !After(l, RecordLocks).waiting && After(l, RecordLocks).wakeups == l.wakeups + 1
  {
    RunKeeps(waiting, steps);
  }

  /** For every interleaving, each time the reader began to wait it is woken once, or still waits. */
  lemma WokenOncePerWait(waiting: bool, steps: seq<Step>)
    ensures var l := Run(waiting, steps); l.wakeups == if l.waiting then l.waits - 1 else l.waits
  {
    RunKeeps(waiting, steps);
  }

  function RunFrom(l: Logger, steps: seq<Step>): Logger {
    if steps == [] then l else After(RunFrom(l, steps[..|steps| - 1]), steps[|steps| - 1])
  }

  lemma {:induction false} WhileTaking(l: Logger, steps: seq<Step>)
    requires l.reader.TookOne? && ReaderTakesOther !in steps
    ensures var l' := RunFrom(l, steps);
            l'.reader == l.reader && l'.extractedSend == l.extractedSend && l'.extractedRecv == l.extractedRecv
    decreases |steps|
  {
    if steps != [] {
      assert steps[|steps| - 1] in steps;
      WhileTaking(l, steps[..|steps| - 1]);
    }
  }

  lemma {:induction false} WhileEnding(l: Logger, steps: seq<Step>)
    requires l.reader.TookBoth? && ReaderEnds !in steps
    ensures var l' := RunFrom(l, steps);
            l'.reader == l.reader && l'.extractedSend == l.extractedSend && l'.extractedRecv == l.extractedRecv
    decreases |steps|
  {
    if steps != [] {
      assert steps[|steps| - 1] in steps;
      WhileEnding(l, steps[..|steps| - 1]);
    }
  }

  /** Whatever other threads do between and after the two exchanges, a reading returns exactly what it took
      out of the counters. */
  lemma ReadingReturnsTaken(l: Logger, sending: bool, between: seq<Step>, after: seq<Step>)
    requires l.reader == Idle && ReaderTakesOther !in between && ReaderEnds !in after
    ensures var l1 := RunFrom(After(l, ReaderTakesOne(sending)), between);
            var l2 := RunFrom(After(l1, ReaderTakesOther), after);
            && l2.reader.TookBoth?
            && l2.extractedSend == l.extractedSend + l2.reader.send
            && l2.extractedRecv == l.extractedRecv + l2.reader.recv
  {
    WhileTaking(After(l, ReaderTakesOne(sending)), between);
    var l1 := RunFrom(After(l, ReaderTakesOne(sending)), between);
    WhileEnding(After(l1, ReaderTakesOther), after);
  }

  class Counters {
    var send: nat
    var recv: nat
    var waiting: bool
    var reader: Reader
    var wakeups: nat
    /** Threads and history. */
    ghost var inFlight: nat
    ghost var waits: nat
    ghost var recorded: (nat, nat)
    ghost var extracted: (nat, nat)

    ghost function State(): Logger
      reads this
    {
      Logger(send, recv, waiting, reader, inFlight, wakeups, waits, recorded.0, recorded.1, extracted.0, extracted.1)
    }

    constructor (wait: bool)
      ensures State() == Initial(wait)
    {
      send, recv, waiting, reader, wakeups := 0, 0, wait, Idle, 0;
      inFlight, waits, recorded, extracted := 0, if wait then 1 else 0, (0, 0), (0, 0);
    }

    /** The atomic addition of a record; the caller goes on to take the lock if the counter was empty. */
    method FetchAdd(sending: bool, amount: nat) returns (empty: bool)
      modifies this
      ensures empty == (Amount(old(State()), sending) == 0) && State() == After(old(State()), Record(sending, amount))
      ensures old(Valid(State())) ==> Valid(State())
    {
      if sending {
        empty, send := send == 0, send + amount;
        recorded := (recorded.0 + amount, recorded.1);
      } else {
        empty, recv := recv == 0, recv + amount;
        recorded := (recorded.0, recorded.1 + amount);
      }
      if empty {
        inFlight := inFlight + 1;
      }
    }

    /** A waiting reader is woken, and only that. */
    method RecordTakesLock()
      requires reader == Idle && inFlight > 0
      modifies this
      ensures State() == After(old(State()), RecordLocks) && (old(Valid(State())) ==> Valid(State()))
      ensures !waiting && wakeups == old(wakeups) + (if old(waiting) then 1 else 0)
    {
      inFlight := inFlight - 1;
      if waiting {
        waiting, wakeups := false, wakeups + 1;
      }
    }

    method TakeOne(sending: bool)
      requires reader == Idle
      modifies this
      ensures State() == After(old(State()), ReaderTakesOne(sending)) && (old(Valid(State())) ==> Valid(State()))
    {
      if sending {
        extracted := (extracted.0 + send, extracted.1);
        reader, send := TookOne(true, send), 0;
      } else {
        extracted := (extracted.0, extracted.1 + recv);
        reader, recv := TookOne(false, recv), 0;
      }
    }

    method TakeOther()
      requires reader.TookOne?
      modifies this
      ensures State() == After(old(State()), ReaderTakesOther) && (old(Valid(State())) ==> Valid(State()))
    {
      if reader.first {
        extracted := (extracted.0, extracted.1 + recv);
        reader, recv := TookBoth(reader.amount, recv), 0;
      } else {
        extracted := (extracted.0 + send, extracted.1);
        reader, send := TookBoth(send, reader.amount), 0;
      }
    }

    method Finish() returns (amounts: (nat, nat))
      requires reader.TookBoth?
      modifies this
      ensures State() == After(old(State()), ReaderEnds) && (old(Valid(State())) ==> Valid(State()))
      ensures amounts == (old(reader).send, old(reader).recv)
    {
      amounts := (reader.send, reader.recv);
      if amounts.0 == 0 && amounts.1 == 0 {
        waits := if waiting then waits else waits + 1;
        waiting := true;
      }
      reader := Idle;
    }
  }
}
