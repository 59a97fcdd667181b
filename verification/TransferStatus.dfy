/**
 The transfer status: transferring threads add bytes to an atomic counter, and whoever finds it empty takes
 the lock to raise a notification; the user interface takes the lock to read the status. Every access to the
 counter is a step of its own, so additions may fall between any two steps of a lock holder.
 */
module TransferStatus {

  /** Who holds the lock, and how far it got: after the counter was drained, before the state is changed. */
  datatype Holder = Free | Updating | Getting

  /** `inFlight` counts the threads that found the counter empty and have yet to take the lock;
      `start` and `reported` are history: the start offset, and the bytes added since the status was set up. */
  datatype Status = Status(present: bool, offset: int, pending: int, sendState: nat,
                           inFlight: nat, holder: Holder, start: int, reported: int)

  datatype Step =
    | Init(startOffset: int)
    | Reset
    | Add(bytes: nat)
    | UpdateLocks
    | UpdateEnds
    | GetLocks
    | GetEnds

  function Drained(s: Status): Status {
    s.(offset := s.offset + s.pending, pending := 0)
  }

  /** A step that is not possible leaves the state as it is. */
  function After(s: Status, step: Step): Status {
    match step
    case Init(startOffset) =>
      if s.holder != Free then s
      else
        var start := if startOffset < 0 then 0 else startOffset;
        s.(present := true, offset := start, pending := 0, start := start, reported := 0)
    case Reset => if s.holder != Free then s else s.(present := false, sendState := 0)
    case Add(bytes) =>
      s.(pending := s.pending + bytes, reported := s.reported + bytes,
         inFlight := if s.pending == 0 then s.inFlight + 1 else s.inFlight)
    case UpdateLocks =>
      if s.holder != Free || s.inFlight == 0 then s
      else
        var s1 := s.(inFlight := s.inFlight - 1);
        if !s.present then s1
        else (if s.sendState == 0 then Drained(s1) else s1).(holder := Updating)
    case UpdateEnds => if s.holder != Updating then s else s.(sendState := 2, holder := Free)
    case GetLocks =>
      if s.holder != Free then s
      else if !s.present then s.(sendState := 0)
      else Drained(s).(holder := Getting)
    case GetEnds => if s.holder != Getting then s else s.(sendState := if s.sendState == 2 then 1 else 0, holder := Free)
  }

  function Initial(): Status {
    Status(false, 0, 0, 0, 0, Free, 0, 0)
  }

  function Run(steps: seq<Step>): Status {
    if steps == [] then Initial() else After(Run(steps[..|steps| - 1]), steps[|steps| - 1])
  }

  /** No byte is lost or counted twice. */
  predicate Conserved(s: Status) {
    s.present ==> s.offset + s.pending == s.start + s.reported
  }

  /** Pending bytes have been announced, or a thread is about to announce them. */
  predicate Announced(s: Status) {
    s.present && s.pending != 0 ==> s.inFlight > 0 || s.holder == Updating || (s.sendState == 2 && s.holder == Free)
  }

  predicate Valid(s: Status) {
    Conserved(s) && Announced(s) && s.pending >= 0 && s.sendState <= 2 && (s.holder != Free ==> s.present)
  }

  lemma StepKeeps(s: Status, step: Step)
    requires Valid(s)
    ensures Valid(After(s, step))
  {}

  lemma {:induction false} RunKeeps(steps: seq<Step>)
    ensures Valid(Run(steps))
    decreases |steps|
  {
    if steps != [] {
      RunKeeps(steps[..|steps| - 1]);
      StepKeeps(Run(steps[..|steps| - 1]), steps[|steps| - 1]);
    }
  }

  /** For every interleaving: the offset and the pending bytes are the start offset and all bytes since. */
  lemma BytesConserved(steps: seq<Step>)
    ensures var s := Run(steps); s.present ==> s.offset + s.pending == s.start + s.reported
  {
    RunKeeps(steps);
  }

  /** For every interleaving: with bytes pending and nobody in between, the next reading of the status
      says that it changed, and shows all bytes. */
  lemma NextGetReportsChange(steps: seq<Step>)
    requires var s := Run(steps); s.present && s.pending != 0 && s.inFlight == 0 && s.holder == Free
    ensures var s := Run(steps);
            var s' := After(s, GetLocks);
            && s.sendState == 2 && s'.sendState == 2
            && s'.offset == s.start + s.reported && After(s', GetEnds).sendState == 1
  {
    RunKeeps(steps);
  }

  /** After a reading that says nothing changed, the next bytes raise a notification: the thread that adds
      them takes the lock, finds nothing announced, and takes all pending bytes into the status. */
  lemma NextBytesNotify(steps: seq<Step>, bytes: nat)
    requires var s := Run(steps); s.present && s.sendState == 0 && s.inFlight == 0 && s.holder == Free
    ensures var s := After(After(Run(steps), Add(bytes)), UpdateLocks);
            s.holder == Updating && s.pending == 0 && s.offset == s.start + s.reported && After(s, UpdateEnds).sendState == 2
  {
    RunKeeps(steps);
  }

  // ---------------------------------------------------------------- whatever happens in between

  function RunFrom(s: Status, steps: seq<Step>): Status {
    if steps == [] then s else After(RunFrom(s, steps[..|steps| - 1]), steps[|steps| - 1])
  }

  lemma {:induction false} WhileGetting(s: Status, steps: seq<Step>)
    requires s.holder == Getting && GetEnds !in steps
    ensures var s' := RunFrom(s, steps);
            && s'.holder == Getting && s'.offset == s.offset && s'.start == s.start && s'.sendState == s.sendState
            && s'.present == s.present && s'.pending - s.pending == s'.reported - s.reported
    decreases |steps|
  {
    if steps != [] {
      WhileGetting(s, steps[..|steps| - 1]);
      assert steps[|steps| - 1] in steps;
    }
  }

  /** Whatever other threads do while the status is read, the reading shows exactly the bytes reported until the
      counter was drained; those reported since are still pending, and are announced. */
  lemma ReadingShowsAll(steps: seq<Step>, between: seq<Step>)
    requires Run(steps).present && Run(steps).holder == Free && GetEnds !in between
    ensures var s := Run(steps);
            var s' := After(RunFrom(After(s, GetLocks), between), GetEnds);
            && s'.offset == s.start + s.reported && s'.pending == s'.reported - s.reported && Valid(s')
  {
    RunKeeps(steps);
    var s := After(Run(steps), GetLocks);
    StepKeeps(Run(steps), GetLocks);
    WhileGetting(s, between);
    RunFromKeeps(s, between);
    StepKeeps(RunFrom(s, between), GetEnds);
  }

  lemma {:induction false} RunFromKeeps(s: Status, steps: seq<Step>)
    requires Valid(s)
    ensures Valid(RunFrom(s, steps))
    decreases |steps|
  {
    if steps != [] {
      RunFromKeeps(s, steps[..|steps| - 1]);
      StepKeeps(RunFrom(s, steps[..|steps| - 1]), steps[|steps| - 1]);
    }
  }

  /** Once announced, bytes stay announced until a reading ends or the status is cleared, so that reading says
      that the status changed. */
  lemma {:induction false} AnnouncementLasts(s: Status, steps: seq<Step>)
    requires Valid(s) && s.present && s.sendState == 2 && GetEnds !in steps && Reset !in steps
    ensures var s' := RunFrom(s, steps);
            && s'.present && s'.sendState == 2
            && (s'.holder == Getting ==> After(s', GetEnds).sendState == 1)
    decreases |steps|
  {
    if steps != [] {
      assert steps[|steps| - 1] in steps;
      AnnouncementLasts(s, steps[..|steps| - 1]);
    }
  }

  predicate IsInit(step: Step) {
    step.Init?
  }

  /** After the status was cleared nothing is announced and no one raises a notification until it is set up
      again, however many bytes are still reported. */
  lemma {:induction false} ClearedStaysQuiet(s: Status, steps: seq<Step>)
    requires s.holder == Free && forall i :: 0 <= i < |steps| ==> !IsInit(steps[i])
    ensures var s' := RunFrom(After(s, Reset), steps);
            !s'.present && s'.sendState == 0 && s'.holder == Free && s'.pending - s.pending == s'.reported - s.reported
    decreases |steps|
  {
    if steps != [] {
      ClearedStaysQuiet(s, steps[..|steps| - 1]);
      assert !IsInit(steps[|steps| - 1]);
    }
  }

  class TransferStatusManager {
    var present: bool
    var offset: int
    var pending: int
    var sendState: nat
    /** Threads and history: no part of the program's state. */
    ghost var inFlight: nat
    ghost var holder: Holder
    ghost var start: int
    ghost var reported: int

    ghost function State(): Status
      reads this
    {
      Status(present, offset, pending, sendState, inFlight, holder, start, reported)
    }

    constructor ()
      ensures State() == Initial()
    {
      present, offset, pending, sendState := false, 0, 0, 0;
      inFlight, holder, start, reported := 0, Free, 0, 0;
    }

    method SetUp(startOffset: int)
      requires holder == Free
      modifies this
      ensures State() == After(old(State()), Init(startOffset)) && (old(Valid(State())) ==> Valid(State()))
    {
      var from := startOffset;
      if from < 0 {
        from := 0;
      }
      present, offset := true, from;
      pending := 0;
      start, reported := from, 0;
    }

    /** Forgets the status; bytes on their way stay where they are. */
    method Clear()
      requires holder == Free
      modifies this
      ensures State() == After(old(State()), Reset) && (old(Valid(State())) ==> Valid(State()))
    {
      present, sendState := false, 0;
    }

    /** The atomic addition; the caller goes on to take the lock if the counter was empty. */
    method FetchAdd(bytes: nat) returns (empty: bool)
      modifies this
      ensures empty == (old(pending) == 0) && State() == After(old(State()), Add(bytes)) && (old(Valid(State())) ==> Valid(State()))
    {
      empty := pending == 0;
      pending := pending + bytes;
      reported := reported + bytes;
      if empty {
        inFlight := inFlight + 1;
      }
    }

    /** A notification is raised exactly if nothing was announced; it shows all bytes reported so far. */
    method UpdateTakesLock() returns (notify: bool)
      requires holder == Free && inFlight > 0
      modifies this
      ensures State() == After(old(State()), UpdateLocks) && (old(Valid(State())) ==> Valid(State()))
      ensures notify == (old(present) && old(sendState) == 0)
      ensures notify && old(Valid(State())) ==> offset == start + reported && pending == 0
    {
      inFlight := inFlight - 1;
      if !present {
        return false;
      }
      notify := sendState == 0;
      if notify {
        offset, pending := offset + pending, 0;
      }
      holder := Updating;
    }

    method UpdateReleases()
      requires holder == Updating
      modifies this
      ensures State() == After(old(State()), UpdateEnds) && (old(Valid(State())) ==> Valid(State()))
    {
      sendState, holder := 2, Free;
    }

    /** The status, if there is one, shows all bytes reported so far. */
    method GetTakesLock()
      requires holder == Free
      modifies this
      ensures State() == After(old(State()), GetLocks) && (old(Valid(State())) ==> Valid(State()))
      ensures present && old(Valid(State())) ==> offset == start + reported && pending == 0 && reported == old(reported)
    {
      if !present {
        sendState := 0;
        return;
      }
      offset, pending := offset + pending, 0;
      holder := Getting;
    }

    method GetReleases() returns (changed: bool)
      requires holder == Getting
      modifies this
      ensures State() == After(old(State()), GetEnds) && changed == (old(sendState) == 2) && (old(Valid(State())) ==> Valid(State()))
    {
      changed := sendState == 2;
      sendState := if changed then 1 else 0;
      holder := Free;
    }
  }
}
