/**
  The shortprint driver at work: one writer holding the write mutex, the work queue, the missed-interrupt
  timer and the interrupt handler, interleaved at every unlocked access and every spin-locked section.
 */
module PrinterProtocol {
  import opened Kernel
  import opened Printer

  /** Where the writer is. */
  datatype Writer =
    | NoWriter
    | Looping                                // at the head of the loop
    | Waiting                                // found no space: about to test the wait condition
    | Queued(woken: bool)                    // on the wait queue, about to test again
    | Asleep(woken: bool)                    // tested in vain: sleeps unless woken since it queued
    | Copying(space: nat, done: nat)         // has stored `done` of `space` bytes behind the head
    | Starting                               // has moved the head, not yet checked that output is active

  /** The work item: idle, waiting for the printer, or past its locked section. */
  datatype Worker = NoWork | AtPrinter | Finishing

  /** The timer callback: entered, saw active output, found the printer idle, or is about to queue the work. */
  datatype Callback = NoCallback | Entered | Checking | Missed | Requeueing

  datatype State = State(
    ring: Ring,
    active: bool, armed: bool, queued: bool,
    writer: Writer, worker: Worker, timer: Callback, irq: bool,
    user: seq<byte>, written: nat, before: seq<byte>,  // the current call: its data, how much is accepted, what was accepted before it
    accepted: seq<byte>, printed: seq<byte>)

  datatype Action =
    // shortp_write
    | Call(user: seq<byte>) | Loop | TestCondition | TestAgain | WakeUp | Signal | CopyByte | CopyFault | Advance | CheckActive
    // shortp_do_work
    | StartWork | WorkSection | EndWork
    // GetIntrTimerCallback
    | TimerFires | TimerEnters | TimerLooks(busy: bool) | TimerReports | TimerQueues
    // shortp_interrupt
    | Interrupt | InterruptQueues

  predicate Init(s: State) {
    && s.ring.Valid() && s.ring.head == 0 == s.ring.tail
    && !s.active && !s.armed && !s.queued && !s.irq
    && s.writer == NoWriter && s.worker == NoWork && s.timer == NoCallback
    && s.accepted == [] && s.printed == [] && s.before == [] && s.user == [] && s.written == 0
  }

  /** The bytes to copy in one go: the free run, or what is left of the data. */
  function Clip(s: State, space: int): nat
    requires 0 <= space && s.written <= |s.user|
  {
    if space + s.written > |s.user| then |s.user| - s.written else space
  }

  /** The locked section of the work function: print a byte or stop, and wake the writer if there is room. */
  function DoWork(s: State): State
    requires s.ring.Valid()
  {
    var s1 :=
      if s.ring.head == s.ring.tail then s.(active := false, armed := false)
      else s.(ring := s.ring.Strobed(), printed := s.printed + [s.ring.buf[s.ring.tail]], armed := true);
    var s2 := s1.(worker := Finishing);
    if !s1.ring.WakeTest() then s2
    else if s2.writer.Asleep? then s2.(writer := Asleep(true))
    else if s2.writer.Queued? then s2.(writer := Queued(true))
    else s2
  }

  /** Makes output active if it is not: arms the timer and queues the work. */
  function StartOutput(s: State): State {
    if s.active then s else s.(active := true, armed := true, queued := true)
  }

  predicate Enabled(s: State, a: Action) {
    && s.ring.Valid() && s.written <= |s.user|
    && match a
       case Call(_) => s.writer.NoWriter?
       case Loop => s.writer.Looping?
       case TestCondition => s.writer.Waiting?
       case TestAgain => s.writer.Queued?
       case WakeUp => s.writer.Asleep? && s.writer.woken
       case Signal => s.writer.Asleep?
       case CopyByte => s.writer.Copying? && s.writer.done < s.writer.space && s.ring.head + s.writer.done < |s.ring.buf|
         && s.written + s.writer.done < |s.user|
       case CopyFault => s.writer.Copying? && s.writer.done < s.writer.space
       case Advance => s.writer.Copying? && s.writer.done == s.writer.space <= |s.ring.buf| && s.written + s.writer.space <= |s.user|
       case CheckActive => s.writer.Starting?
       case StartWork => s.queued && s.worker.NoWork?
       case WorkSection => s.worker.AtPrinter?
       case EndWork => s.worker.Finishing?
       case TimerFires => s.armed && s.timer.NoCallback?
       case TimerEnters => s.timer.Entered?
       case TimerLooks(_) => s.timer.Checking?
       case TimerReports => s.timer.Missed?
       case TimerQueues => s.timer.Requeueing?
       case Interrupt => !s.irq
       case InterruptQueues => s.irq
  }

  function Apply(s: State, a: Action): State
    requires Enabled(s, a)
  {
    match a
    case Call(user) => s.(writer := Looping, user := user, written := 0, before := s.accepted)
    case Loop =>
      if s.written < |s.user| then
        var space := s.ring.OutSpace();
        if space <= 0 then s.(writer := Waiting) else s.(writer := Copying(Clip(s, space), 0))
      else s.(writer := NoWriter)
    case TestCondition =>
      var space := s.ring.OutSpace();
      if space > 0 then s.(writer := Copying(Clip(s, space), 0)) else s.(writer := Queued(false))
    case TestAgain =>
      var space := s.ring.OutSpace();
      if space > 0 then s.(writer := Copying(Clip(s, space), 0)) else s.(writer := Asleep(s.writer.woken))
    case WakeUp => s.(writer := Queued(false))
    case Signal => s.(writer := NoWriter)
    case CopyByte =>
      var i := s.writer.done;
      s.(ring := s.ring.Stored(s.ring.head + i, s.user[s.written + i]), writer := Copying(s.writer.space, i + 1))
    case CopyFault => s.(writer := NoWriter)
    case Advance =>
      var n := s.writer.space;
      s.(ring := s.ring.Advanced(n), written := s.written + n, accepted := s.accepted + s.user[s.written..s.written + n], writer := Starting)
    case CheckActive => StartOutput(s).(writer := Looping)
    case StartWork => s.(queued := false, worker := AtPrinter)
    case WorkSection => DoWork(s)
    case EndWork => s.(worker := NoWork)
    case TimerFires => s.(armed := false, timer := Entered)
    case TimerEnters => s.(timer := if s.active then Checking else NoCallback)
    case TimerLooks(busy) => if busy then s.(armed := true, timer := NoCallback) else s.(timer := Missed)
    case TimerReports => s.(timer := if s.active then Requeueing else NoCallback)
    case TimerQueues => s.(queued := true, timer := NoCallback)
    case Interrupt => s.(irq := s.active)
    case InterruptQueues => s.(queued := true, irq := false)
  }

  // ----- what holds in every reachable state

  /** Printed and waiting bytes are the accepted ones, in order, and the current call accepted a prefix of its data. */
  predicate Fifo(s: State) {
    && s.ring.Valid()
    && s.printed + s.ring.Contents() == s.accepted
    && s.written <= |s.user|
    && (!s.writer.NoWriter? ==> s.accepted == s.before + s.user[..s.written])
  }

  /** While bytes are copied without the spin lock, they stay in space the consumer never looks at. */
  predicate CopySafe(s: State) {
    && (s.writer.Waiting? || s.writer.Queued? || s.writer.Asleep? ==> s.written < |s.user|)
    && (s.writer.Copying? ==>
      && s.ring.Valid() && s.written <= |s.user|
      && 0 < s.writer.space && s.writer.done <= s.writer.space
      && s.writer.space <= s.ring.OutSpace() && s.written + s.writer.space <= |s.user|
      && s.ring.head + s.writer.space <= |s.ring.buf|
      && forall p :: s.ring.head <= p < s.ring.head + s.writer.done ==> s.ring.buf[p] == s.user[s.written + (p - s.ring.head)])
  }

  /** Bytes wait while output is inactive only until the writer that put them there makes its check. */
  predicate Attended(s: State)
    requires s.ring.Valid()
  {
    s.ring.Contents() != [] && !s.active ==> s.writer.Starting?
  }

  /** Something will make the output go on: an armed timer, its callback, or the work before its section. */
  predicate Driven(s: State) {
    s.armed || !s.timer.NoCallback? || s.queued || s.worker.AtPrinter?
  }

  /** A sleeper is woken before the ring is less than half full. */
  predicate SleeperCovered(s: State)
    requires s.ring.Valid()
  {
    s.writer.Asleep? && !s.writer.woken ==> s.ring.Page() / 2 <= |s.ring.Contents()|
  }

  predicate Inv(s: State) {
    Fifo(s) && CopySafe(s) && Attended(s) && (s.active ==> Driven(s)) && SleeperCovered(s)
  }

  /** The steps of the writer. */
  predicate ByWriter(a: Action) {
    a.Call? || a.Loop? || a.TestCondition? || a.TestAgain? || a.WakeUp? || a.Signal? || a.CopyByte? || a.CopyFault? || a.Advance? || a.CheckActive?
  }

  lemma WriterKeepsInv(s: State, a: Action)
    requires Inv(s) && Enabled(s, a) && ByWriter(a)
    ensures Inv(Apply(s, a))
  {
    if a.CopyByte? {
      CopyByteKeepsInv(s);
    } else if a.Advance? {
      AdvanceKeepsFifo(s);
      hide Fifo;
    } else if a.Loop? || a.TestCondition? || a.TestAgain? {
      SearchKeepsInv(s, a);
    } else {
      assert a.Call? ==> s.accepted == s.accepted + a.user[..0];
      hide Ring.Contents, Ring.OutSpace, Ring.Incr, Ring.WakeTest, DoWork, Clip;
    }
  }

  /** Space that was found is free, and a writer that found none may go to sleep. */
  lemma SearchKeepsInv(s: State, a: Action)
    requires Inv(s) && Enabled(s, a) && (a.Loop? || a.TestCondition? || a.TestAgain?)
    ensures Inv(Apply(s, a))
  {
    SpaceIsFree(s.ring);
    hide Ring.Contents, Ring.OutSpace, Ring.Incr, Ring.WakeTest, DoWork, StartOutput;
    var s' := Apply(s, a);
    assert s' == s.(writer := s'.writer);
  }

  lemma CopyByteKeepsInv(s: State)
    requires Inv(s) && Enabled(s, CopyByte)
    ensures Inv(Apply(s, CopyByte))
  {
    var i := s.writer.done;
    StoreIsUnseen(s.ring, s.ring.head + i, s.user[s.written + i]);
    hide Ring.Contents, Ring.OutSpace;
  }

  lemma AdvanceKeepsFifo(s: State)
    requires Fifo(s) && CopySafe(s) && Enabled(s, Advance)
    ensures Fifo(Apply(s, Advance))
  {
    hide Ring.Contents, Ring.OutSpace, Ring.Incr, Ring.Advanced, DoWork, StartOutput;
    var n, w, s' := s.writer.space, s.written, Apply(s, Advance);
    AdvancePublishes(s.ring, n);
    assert s'.ring == s.ring.Advanced(n) && s'.accepted == s.accepted + s.user[w..w + n];
    CopiedIsUser(s);
    PrefixGrows(s.user, w, n);
    AppendBoth(s.accepted, s.printed, s.ring.Contents(), s.before, s.user[..w], s.user[w..w + n]);
  }

  /** Appending to both ways of splitting a sequence. */
  lemma AppendBoth(all: seq<byte>, a: seq<byte>, b: seq<byte>, c: seq<byte>, d: seq<byte>, more: seq<byte>)
    requires all == a + b == c + d
    ensures all + more == a + (b + more) == c + (d + more)
  {
  }

  lemma CopiedIsUser(s: State)
    requires CopySafe(s) && s.writer.Copying? && s.writer.done == s.writer.space
    ensures s.ring.buf[s.ring.head..s.ring.head + s.writer.space] == s.user[s.written..s.written + s.writer.space]
  {
  }

  lemma PrefixGrows(data: seq<byte>, w: nat, n: nat)
    requires w + n <= |data|
    ensures data[..w] + data[w..w + n] == data[..w + n]
  {
  }

  lemma Reassociate(a: seq<byte>, b: seq<byte>, c: seq<byte>)
    ensures a + b + c == a + (b + c)
  {
  }

  lemma WorkKeepsInv(s: State, a: Action)
    requires Inv(s) && Enabled(s, a) && (a.StartWork? || a.WorkSection? || a.EndWork?)
    ensures Inv(Apply(s, a))
  {
    hide Inv, DoWork;
    if a.WorkSection? {
      SectionKeepsInv(s);
    } else {
      AroundSectionKeepsInv(s, a);
    }
  }

  lemma AroundSectionKeepsInv(s: State, a: Action)
    requires Inv(s) && Enabled(s, a) && (a.StartWork? || a.EndWork?)
    ensures Inv(Apply(s, a))
  {
    hide Ring.Contents, Ring.OutSpace, Ring.WakeTest, DoWork, StartOutput, Clip;
  }

  lemma SectionKeepsFifo(s: State)
    requires Fifo(s)
    ensures Fifo(DoWork(s))
    ensures DoWork(s).ring == if s.ring.head == s.ring.tail then s.ring else s.ring.Strobed()
  {
    hide Ring.Contents, Ring.OutSpace, Ring.WakeTest;
    if s.ring.head != s.ring.tail {
      StrobeTakes(s.ring);
      Reassociate(s.printed, [s.ring.buf[s.ring.tail]], s.ring.Strobed().Contents());
    }
  }

  lemma SectionKeepsInv(s: State)
    requires Inv(s)
    ensures Inv(DoWork(s))
  {
    hide Ring.Contents, Ring.OutSpace, Ring.WakeTest;
    SectionKeepsFifo(s);
    assert s.ring.Valid() && DoWork(s).ring.Valid();
    hide Fifo;
    SpaceIsFree(s.ring);
    WakeTestMeans(DoWork(s).ring);
    if s.ring.head != s.ring.tail {
      StrobeTakes(s.ring);
    }
    assert DoWork(s).ring.head == s.ring.head && DoWork(s).ring.buf == s.ring.buf;
    hide Ring.Strobed;
  }

  lemma TimerKeepsInv(s: State, a: Action)
    requires Inv(s) && Enabled(s, a) && !ByWriter(a) && !(a.StartWork? || a.WorkSection? || a.EndWork?)
    ensures Inv(Apply(s, a))
  {
    hide Ring.Contents, Ring.OutSpace, Ring.Incr, Ring.WakeTest, DoWork, StartOutput, Clip;
  }

  // ----- runs

  ghost predicate Next(s: State, s': State) {
    exists a :: Enabled(s, a) && s' == Apply(s, a)
  }

  ghost predicate IsRun(run: seq<State>) {
    && 0 < |run| && Init(run[0])
    && forall i :: 0 < i < |run| ==> Next(run[i - 1], run[i])
  }

  lemma StepKeepsInv(s: State, a: Action)
    requires Inv(s) && Enabled(s, a)
    ensures Inv(Apply(s, a))
  {
    hide Inv, Apply, Enabled;
    if ByWriter(a) {
      WriterKeepsInv(s, a);
    } else if a.StartWork? || a.WorkSection? || a.EndWork? {
      WorkKeepsInv(s, a);
    } else {
      TimerKeepsInv(s, a);
    }
  }

  /** In every interleaving the printer gets the accepted bytes in order, and output never stalls. */
  lemma {:induction false} RunKeepsInv(run: seq<State>, i: nat)
    requires IsRun(run) && i < |run|
    ensures Inv(run[i])
  {
    if i > 0 {
      RunKeepsInv(run, i - 1);
      hide Inv, Next;
      NextKeepsInv(run[i - 1], run[i]);
    }
  }

  lemma NextKeepsInv(s: State, s': State)
    requires Inv(s) && Next(s, s')
    ensures Inv(s')
  {
    hide Inv, Apply, Enabled;
    var a :| Enabled(s, a) && s' == Apply(s, a);
    StepKeepsInv(s, a);
  }

  /**
    A writer that sleeps un-woken sleeps on a ring at least half full, with output active and something
    on its way that will drain it.
   */
  lemma SleeperIsServed(run: seq<State>, i: nat)
    requires IsRun(run) && i < |run| && run[i].writer == Asleep(false)
    ensures run[i].ring.Valid() && run[i].ring.Page() / 2 <= |run[i].ring.Contents()|
    ensures run[i].active && Driven(run[i])
  {
    RunKeepsInv(run, i);
    hide Ring.Contents;
  }

  /** The writer sleeps un-woken from `i` to `j`. */
  predicate SleepsOn(run: seq<State>, i: nat, j: nat)
    requires i <= j < |run|
  {
    forall k :: i <= k <= j ==> run[k].writer == Asleep(false)
  }

  /** Through one sleep, fewer than half a page of bytes is printed before the writer is woken. */
  lemma WokenInTime(run: seq<State>, i: nat, j: nat)
    requires IsRun(run) && i <= j < |run| && SleepsOn(run, i, j)
    ensures run[j].ring.Valid() && |run[j].printed| - |run[i].printed| < run[j].ring.Page() / 2
  {
    SleepKeepsAccepted(run, i, j);
    RunKeepsInv(run, i);
    RunKeepsInv(run, j);
    SpaceIsFree(run[i].ring);
    hide Ring.Contents, Ring.OutSpace;
  }

  /** While the writer sleeps nothing is accepted. */
  lemma {:induction false} SleepKeepsAccepted(run: seq<State>, i: nat, j: nat)
    requires IsRun(run) && i <= j < |run| && SleepsOn(run, i, j)
    ensures run[j].accepted == run[i].accepted && |run[j].ring.buf| == |run[i].ring.buf|
  {
    hide Next, SleepsOn, Init;
    if i < j {
      ShorterSleep(run, i, j);
      SleepKeepsAccepted(run, i, j - 1);
      SleepNext(run[j - 1], run[j]);
    }
  }

  lemma ShorterSleep(run: seq<State>, i: nat, j: nat)
    requires i < j < |run| && SleepsOn(run, i, j)
    ensures SleepsOn(run, i, j - 1) && run[j - 1].writer == Asleep(false) == run[j].writer
  {
  }

  lemma SleepNext(s: State, s': State)
    requires Next(s, s') && s.writer == Asleep(false) == s'.writer
    ensures s'.accepted == s.accepted && |s'.ring.buf| == |s.ring.buf|
  {
    hide Apply, Enabled;
    var a :| Enabled(s, a) && s' == Apply(s, a);
    SleepStep(s, a);
  }

  lemma SleepStep(s: State, a: Action)
    requires Enabled(s, a) && s.writer == Asleep(false) == Apply(s, a).writer
    ensures Apply(s, a).accepted == s.accepted && |Apply(s, a).ring.buf| == |s.ring.buf|
  {
    hide Ring.Contents, Ring.OutSpace, Ring.WakeTest;
  }

  /** When a call has ended, what it accepted is the prefix of its data that it counts as written. */
  lemma CallAccepts(run: seq<State>, i: nat)
    requires IsRun(run) && i < |run| && !run[i].writer.NoWriter?
    ensures run[i].written <= |run[i].user| && run[i].accepted == run[i].before + run[i].user[..run[i].written]
    ensures run[i].ring.Valid() && run[i].printed + run[i].ring.Contents() == run[i].accepted
  {
    RunKeepsInv(run, i);
  }
}
