/**
  The shortprint driver goes on: how many steps of the timer and the work there can be before the next byte is
  printed, whatever the writer and the interrupts do in between, and how many of the writer before the next bytes
  are accepted.
 */
module PrinterProgress {
  import opened Counting
  import opened Kernel
  import opened Printer
  import opened PrinterProtocol

  /** The states that a sequence of steps goes through. */
  predicate IsPath(path: seq<State>, acts: seq<Action>) {
    && |path| == |acts| + 1
    && forall i :: 0 <= i < |acts| ==> Enabled(path[i], acts[i]) && path[i + 1] == Apply(path[i], acts[i])
  }

  lemma Shorter(path: seq<State>, acts: seq<Action>)
    requires IsPath(path, acts) && acts != []
    ensures var n := |acts| - 1;
      IsPath(path[..n + 1], acts[..n]) && Enabled(path[n], acts[n]) && path[n + 1] == Apply(path[n], acts[n])
  {
    hide Enabled, Apply;
  }

  lemma {:induction false} PathKeepsInv(path: seq<State>, acts: seq<Action>)
    requires IsPath(path, acts) && Inv(path[0])
    ensures Inv(path[|acts|])
  {
    hide Enabled, Apply, Inv;
    if acts != [] {
      var n := |acts| - 1;
      Shorter(path, acts);
      PathKeepsInv(path[..n + 1], acts[..n]);
      StepKeepsInv(path[n], acts[n]);
    }
  }

  /** Bytes wait and output is active. */
  predicate Printing(s: State) {
    s.ring.Valid() && s.active && s.ring.head != s.ring.tail
  }

  /** A step prints nothing, or the next byte. */
  lemma PrintsOne(s: State, a: Action)
    requires Enabled(s, a)
    ensures var s' := Apply(s, a);
      s'.printed == s.printed || (a.WorkSection? && s'.printed == s.printed + [s.ring.buf[s.ring.tail]])
  {
    hide DoWork, Ring.Contents, Ring.OutSpace, Ring.Incr, Ring.WakeTest, Ring.Stored, Ring.Advanced, Clip;
    SectionLeaves(s);
  }

  /** What the section of the work does to the writer, and what it prints. */
  lemma SectionLeaves(s: State)
    requires s.ring.Valid()
    ensures var s' := DoWork(s);
      && s'.accepted == s.accepted
      && (s'.writer == s.writer || (s.writer.Asleep? && s'.writer.Asleep?) || (s.writer.Queued? && s'.writer.Queued?))
      && (s'.printed == s.printed || s'.printed == s.printed + [s.ring.buf[s.ring.tail]])
  {
    hide Ring.Contents, Ring.OutSpace, Ring.Incr, Ring.WakeTest;
  }

  // ----- timer and work

  /** The steps of the work and the timer; a look that finds the printer busy is the printer's own delay. */
  const Serving := (a: Action) =>
    a.StartWork? || a.WorkSection? || a.EndWork? || a.InterruptQueues?
    || a.TimerFires? || a.TimerEnters? || a == TimerLooks(false) || a.TimerReports? || a.TimerQueues?

  const Interrupting := (a: Action) => a.Interrupt?
  const FindingBusy := (a: Action) => a == TimerLooks(true)

  /** How far off the next byte is at most, if the printer is ready whenever the timer looks. */
  function Rank(s: State): nat {
    (if s.armed then 9 else 0)
    + (match s.timer case NoCallback => 0 case Entered => 8 case Checking => 7 case Missed => 6 case Requeueing => 5)
    + (if s.irq then 4 else 0) + (if s.queued then 3 else 0)
    + (match s.worker case NoWork => 0 case AtPrinter => 2 case Finishing => 1)
  }

  const MAX_RANK := 26

  /** Until the next byte is printed, output stays active, and each step of the work or the timer comes nearer to it. */
  lemma StepComesNearer(s: State, a: Action)
    requires Inv(s) && Enabled(s, a) && Printing(s) && Apply(s, a).printed == s.printed
    ensures Printing(Apply(s, a))
    ensures Rank(Apply(s, a)) + (if Serving(a) then 1 else 0) <= Rank(s) + (if Interrupting(a) then 4 else 0) + (if FindingBusy(a) then 2 else 0)
  {
    hide Inv, Rank, Apply, Enabled, Printing;
    if ByWriter(a) {
      WriterLeavesRank(s, a);
    } else {
      ServiceComesNearer(s, a);
    }
  }

  /** The writer's steps leave the timer and the work of active output alone. */
  lemma WriterLeavesRank(s: State, a: Action)
    requires Inv(s) && Enabled(s, a) && Printing(s) && ByWriter(a)
    ensures Printing(Apply(s, a)) && Rank(Apply(s, a)) == Rank(s)
  {
    if a.Advance? {
      AdvanceKeepsPrinting(s);
    }
    hide Ring.Contents, Ring.OutSpace, Ring.WakeTest, Ring.Incr, Clip, Inv;
  }

  lemma ServiceComesNearer(s: State, a: Action)
    requires Enabled(s, a) && Printing(s) && !ByWriter(a) && Apply(s, a).printed == s.printed
    ensures Printing(Apply(s, a))
    ensures Rank(Apply(s, a)) + (if Serving(a) then 1 else 0) <= Rank(s) + (if Interrupting(a) then 4 else 0) + (if FindingBusy(a) then 2 else 0)
  {
    if a.WorkSection? {
      SectionPrints(s);
    } else {
      hide Ring.Contents, Ring.OutSpace, Ring.WakeTest, Ring.Incr, Clip, DoWork, StartOutput;
    }
  }

  lemma SectionPrints(s: State)
    requires Printing(s)
    ensures DoWork(s).printed == s.printed + [s.ring.buf[s.ring.tail]]
  {
    hide Ring.Contents, Ring.OutSpace, Ring.WakeTest, Ring.Incr;
  }

  lemma AdvanceKeepsPrinting(s: State)
    requires Inv(s) && Enabled(s, Advance) && Printing(s)
    ensures Printing(Apply(s, Advance))
  {
    AdvancePublishes(s.ring, s.writer.space);
    SpaceIsFree(s.ring);
    SpaceIsFree(s.ring.Advanced(s.writer.space));
    hide Ring.Contents, Ring.OutSpace, Ring.Advanced;
  }

  lemma {:induction false} PrintingCounts(path: seq<State>, acts: seq<Action>)
    requires IsPath(path, acts) && Inv(path[0]) && Printing(path[0])
    ensures |path[0].printed| <= |path[|acts|].printed|
    ensures path[|acts|].printed == path[0].printed || |path[0].printed| < |path[|acts|].printed|
    ensures path[|acts|].printed == path[0].printed ==>
              && Printing(path[|acts|])
              && Rank(path[|acts|]) + Count(acts, Serving) <= Rank(path[0]) + 4 * Count(acts, Interrupting) + 2 * Count(acts, FindingBusy)
  {
    hide Enabled, Apply, Inv, Rank, Printing;
    if acts != [] {
      var n := |acts| - 1;
      Shorter(path, acts);
      PrintingCounts(path[..n + 1], acts[..n]);
      PathKeepsInv(path[..n + 1], acts[..n]);
      PrintsOne(path[n], acts[n]);
      CountLast(acts, Serving);
      CountLast(acts, Interrupting);
      CountLast(acts, FindingBusy);
      if path[n + 1].printed == path[0].printed {
        StepComesNearer(path[n], acts[n]);
      }
    }
  }

  /**
    Whatever happens in between: from any reachable state with output active and bytes waiting, the next byte is
    printed before the work and the timer have made 27 steps, and 4 more for each interrupt and 2 for each look
    that finds the printer busy.
   */
  lemma OutputGoesOn(run: seq<State>, path: seq<State>, acts: seq<Action>)
    requires IsRun(run) && IsPath(path, acts) && path[0] == run[|run| - 1]
    requires path[0].active && path[0].printed != path[0].accepted
    requires MAX_RANK + 4 * Count(acts, Interrupting) + 2 * Count(acts, FindingBusy) < Count(acts, Serving)
    ensures |path[0].printed| < |path[|acts|].printed|
  {
    hide Count, Next, Init;
    RunKeepsInv(run, |run| - 1);
    WaitingIsPrinting(path[0]);
    PrintingCounts(path, acts);
    assert Rank(path[0]) <= MAX_RANK;
  }

  lemma WaitingIsPrinting(s: State)
    requires Inv(s) && s.active && s.printed != s.accepted
    ensures Printing(s)
  {
    SpaceIsFree(s.ring);
    hide Ring.Contents, Ring.OutSpace;
    assert s.ring.Contents() != [];
  }

  /** And there always is such a step to make. */
  lemma OutputNeverStalls(run: seq<State>, i: nat)
    requires IsRun(run) && i < |run| && run[i].active
    ensures exists a :: Serving(a) && Enabled(run[i], a)
  {
    RunKeepsInv(run, i);
    var s := run[i];
    hide Ring.Contents, Ring.OutSpace, Next, Init;
    var a := NextServing(s);
    assert Serving(a) && Enabled(s, a);
  }

  function NextServing(s: State): Action {
    if s.worker.AtPrinter? then WorkSection
    else if s.timer.Entered? then TimerEnters
    else if s.timer.Checking? then TimerLooks(false)
    else if s.timer.Missed? then TimerReports
    else if s.timer.Requeueing? then TimerQueues
    else if s.armed then TimerFires
    else if s.worker.Finishing? then EndWork
    else StartWork
  }

  // ----- interrupts

  /** The work will be done although the timer never fires. */
  predicate OnItsWay(s: State) {
    s.irq || s.queued || s.worker.AtPrinter?
  }

  const Working := (a: Action) => a.StartWork? || a.WorkSection? || a.EndWork? || a.InterruptQueues?
  const Requeueing := (a: Action) => a.TimerQueues?

  function WorkRank(s: State): nat {
    (if s.irq then 4 else 0) + (if s.queued then 3 else 0) + (match s.worker case NoWork => 0 case AtPrinter => 2 case Finishing => 1)
  }

  lemma WorkComesNearer(s: State, a: Action)
    requires Inv(s) && Enabled(s, a) && Printing(s) && Apply(s, a).printed == s.printed && OnItsWay(s)
    ensures OnItsWay(Apply(s, a))
    ensures WorkRank(Apply(s, a)) + (if Working(a) then 1 else 0) <= WorkRank(s) + (if Interrupting(a) then 4 else 0) + (if Requeueing(a) then 3 else 0)
  {
    if a.WorkSection? {
      SectionPrints(s);
    } else {
      hide Ring.Contents, Ring.OutSpace, Ring.WakeTest, Ring.Incr, Clip, DoWork, Inv;
    }
  }

  lemma {:induction false} WorkCounts(path: seq<State>, acts: seq<Action>)
    requires IsPath(path, acts) && Inv(path[0]) && Printing(path[0]) && OnItsWay(path[0])
    requires path[|acts|].printed == path[0].printed
    ensures OnItsWay(path[|acts|])
    ensures WorkRank(path[|acts|]) + Count(acts, Working) <= WorkRank(path[0]) + 4 * Count(acts, Interrupting) + 3 * Count(acts, Requeueing)
  {
    hide Enabled, Apply, Inv, WorkRank, Printing, OnItsWay;
    if acts != [] {
      var n := |acts| - 1;
      Shorter(path, acts);
      PrintingCounts(path[..n + 1], acts[..n]);
      PathKeepsInv(path[..n + 1], acts[..n]);
      PrintsOne(path[n], acts[n]);
      CountLast(acts, Working);
      CountLast(acts, Interrupting);
      CountLast(acts, Requeueing);
      WorkCounts(path[..n + 1], acts[..n]);
      WorkComesNearer(path[n], acts[n]);
    }
  }

  /** An interrupt taken while output is active puts work on its way, and so does the check of a writer that finds it inactive. */
  lemma RequestsWork(s: State, a: Action)
    requires Inv(s) && Enabled(s, a)
    ensures a.Interrupt? && s.active ==> OnItsWay(Apply(s, a)) && Apply(s, a).active
    ensures a.CheckActive? && !s.active ==> OnItsWay(Apply(s, a)) && Apply(s, a).active
    ensures Apply(s, a).printed == s.printed || a.WorkSection?
  {
    hide Ring.Contents, Ring.OutSpace, Ring.Incr, Ring.WakeTest, Clip;
  }

  /** While work is on its way there is a step of it to make. */
  lemma WorkHasAStep(s: State)
    requires Inv(s) && OnItsWay(s)
    ensures exists a :: Working(a) && Enabled(s, a)
  {
    hide Ring.Contents, Ring.OutSpace;
    var a := if s.worker.AtPrinter? then WorkSection else if s.irq then InterruptQueues else if s.worker.Finishing? then EndWork else StartWork;
    assert Working(a) && Enabled(s, a);
  }

  /** Work that is on its way prints, however the steps of the others fall in between. */
  lemma WorkPrints(path: seq<State>, acts: seq<Action>)
    requires IsPath(path, acts) && Inv(path[0]) && Printing(path[0]) && OnItsWay(path[0])
    ensures 10 + 4 * Count(acts, Interrupting) + 3 * Count(acts, Requeueing) < Count(acts, Working) ==> |path[0].printed| < |path[|acts|].printed|
    ensures path[|acts|].printed == path[0].printed ==> exists a :: Working(a) && Enabled(path[|acts|], a)
  {
    hide Count, Enabled, Apply, Inv, Printing, OnItsWay;
    PrintingCounts(path, acts);
    if path[|acts|].printed == path[0].printed {
      WorkCounts(path, acts);
      assert WorkRank(path[0]) <= 10;
      PathKeepsInv(path, acts);
      WorkHasAStep(path[|acts|]);
    }
  }

  /**
    An interrupt taken while output is active, or the check of a writer that finds it inactive, has the next byte
    printed without the timer: until then there always is a step of the work to make, and there are no more than ten
    of them, and some for further requests.
   */
  lemma RequestPrints(run: seq<State>, a: Action, path: seq<State>, acts: seq<Action>)
    requires IsRun(run) && Enabled(run[|run| - 1], a)
    requires (a.Interrupt? && run[|run| - 1].active) || (a.CheckActive? && !run[|run| - 1].active)
    requires run[|run| - 1].printed != run[|run| - 1].accepted
    requires IsPath(path, acts) && path[0] == Apply(run[|run| - 1], a)
    ensures 10 + 4 * Count(acts, Interrupting) + 3 * Count(acts, Requeueing) < Count(acts, Working) ==> |path[0].printed| < |path[|acts|].printed|
    ensures path[|acts|].printed == path[0].printed ==> exists a :: Working(a) && Enabled(path[|acts|], a)
  {
    hide Count, Next, Init, Inv, Enabled, Printing, OnItsWay;
    var s := run[|run| - 1];
    RunKeepsInv(run, |run| - 1);
    StepKeepsInv(s, a);
    RequestsWork(s, a);
    AcceptsNothing(s, a);
    WaitingIsPrinting(path[0]);
    hide Apply;
    WorkPrints(path, acts);
  }

  lemma AcceptsNothing(s: State, a: Action)
    requires Enabled(s, a) && (a.Interrupt? || a.CheckActive?)
    ensures Apply(s, a).accepted == s.accepted
  {
  }

  // ----- the writer

  /** A call that no signal and no fault cuts short ends only when all of its data is accepted. */
  lemma EndsWhenAllIsAccepted(s: State, a: Action)
    requires Inv(s) && Enabled(s, a) && !s.writer.NoWriter? && Apply(s, a).writer.NoWriter? && !Ending(a)
    ensures s.accepted == s.before + s.user && Apply(s, a).accepted == s.accepted
  {
    hide DoWork, StartOutput, Ring.Contents, Ring.OutSpace, Ring.WakeTest, Ring.Incr, Ring.Stored, Ring.Advanced, Clip;
    SectionLeaves(s);
    assert s.user[..|s.user|] == s.user;
  }

  /** Between its beginning and its end a call keeps its data, and what was accepted before it. */
  lemma StepOfCall(s: State, a: Action)
    requires Enabled(s, a) && !s.writer.NoWriter?
    ensures Apply(s, a).user == s.user && Apply(s, a).before == s.before
    ensures Ending(a) ==> Apply(s, a).writer.NoWriter? && Apply(s, a).accepted == s.accepted && Apply(s, a).written == s.written
  {
    hide DoWork, Ring.Contents, Ring.OutSpace, Ring.WakeTest, Ring.Incr, Ring.Stored, Ring.Advanced, Clip;
    SectionOfCall(s);
  }

  lemma SectionOfCall(s: State)
    requires s.ring.Valid()
    ensures DoWork(s).user == s.user && DoWork(s).before == s.before && DoWork(s).written == s.written
  {
    hide Ring.Contents, Ring.OutSpace, Ring.WakeTest, Ring.Incr;
  }

  lemma {:induction false} DuringCall(path: seq<State>, acts: seq<Action>)
    requires IsPath(path, acts) && !path[0].writer.NoWriter? && forall k :: 0 <= k < |acts| ==> !path[k].writer.NoWriter?
    ensures path[|acts|].user == path[0].user && path[|acts|].before == path[0].before
  {
    hide Enabled, Apply;
    if acts != [] {
      var n := |acts| - 1;
      Shorter(path, acts);
      assert forall k :: 0 <= k < n ==> path[..n + 1][k] == path[k];
      DuringCall(path[..n + 1], acts[..n]);
      StepOfCall(path[n], acts[n]);
    }
  }

  lemma CallBegins(s: State, data: seq<byte>)
    requires Enabled(s, Call(data))
    ensures var s' := Apply(s, Call(data)); !s'.writer.NoWriter? && s'.user == data && s'.before == s.accepted == s'.accepted
  {
  }

  /**
    A call from its beginning to its end: unless that is a signal or a fault, exactly its data has been accepted, behind
    what was accepted before; and a signal or a fault does end it, with a prefix of its data accepted.
   */
  lemma CallAcceptsItsData(run: seq<State>, path: seq<State>, acts: seq<Action>, data: seq<byte>)
    requires IsRun(run) && Enabled(run[|run| - 1], Call(data))
    requires IsPath(path, acts) && acts != [] && path[0] == Apply(run[|run| - 1], Call(data))
    requires forall k :: 0 < k < |acts| ==> !path[k].writer.NoWriter?
    ensures var n := |acts|;
      && (path[n].writer.NoWriter? && !Ending(acts[n - 1]) ==> path[n].accepted == run[|run| - 1].accepted + data)
      && (Ending(acts[n - 1]) ==> path[n].writer.NoWriter? && path[n].written <= |data| && path[n].accepted == run[|run| - 1].accepted + data[..path[n].written])
  {
    hide Next, Init, Enabled, Apply, Inv;
    var s, n := run[|run| - 1], |acts| - 1;
    RunKeepsInv(run, |run| - 1);
    StepKeepsInv(s, Call(data));
    CallBegins(s, data);
    Shorter(path, acts);
    assert forall k :: 0 <= k < n ==> path[..n + 1][k] == path[k];
    DuringCall(path[..n + 1], acts[..n]);
    PathKeepsInv(path[..n + 1], acts[..n]);
    AcceptedOfCall(path[n]);
    StepOfCall(path[n], acts[n]);
    if path[n + 1].writer.NoWriter? && !Ending(acts[n]) {
      EndsWhenAllIsAccepted(path[n], acts[n]);
    }
  }

  lemma AcceptedOfCall(s: State)
    requires Inv(s) && !s.writer.NoWriter?
    ensures s.written <= |s.user| && s.accepted == s.before + s.user[..s.written]
  {
  }

  /** A writer lies down only on a full ring. */
  lemma SleepsOnlyWhenFull(s: State, a: Action)
    requires Enabled(s, a) && !s.writer.Asleep? && Apply(s, a).writer.Asleep?
    ensures |s.ring.Contents()| == s.ring.Page() - 1
  {
    hide DoWork, Ring.Contents, Ring.OutSpace, Ring.WakeTest, Ring.Incr, Ring.Stored, Ring.Advanced, Clip;
    SectionLeaves(s);
    SpaceIsFree(s.ring);
  }

  /** It copies all that is left of its data, or fills the ring, or goes on to the end of the page. */
  lemma CopiesAllItCan(s: State, a: Action)
    requires Inv(s) && Enabled(s, a) && !s.writer.Copying? && Apply(s, a).writer.Copying?
    ensures var n := Apply(s, a).writer.space;
      && Apply(s, a).writer.done == 0 && 0 < n && s.written + n <= |s.user|
      && (s.written + n == |s.user| || n == s.ring.Page() - 1 - |s.ring.Contents()| || s.ring.head + n == s.ring.Page())
  {
    SpaceIsAll(s.ring);
    SpaceIsFree(s.ring);
    StartsCopying(s, a);
    hide Apply, Enabled, Inv, Ring.Contents, Ring.OutSpace;
  }

  /** Space that was found is cut to what is left of the data. */
  lemma StartsCopying(s: State, a: Action)
    requires Inv(s) && Enabled(s, a) && !s.writer.Copying? && Apply(s, a).writer.Copying?
    ensures var w := Apply(s, a).writer;
      && w.done == 0 && 0 < w.space && s.ring.Valid() && s.written + w.space <= |s.user|
      && (w.space == s.ring.OutSpace() || s.written + w.space == |s.user|)
  {
    if ByWriter(a) {
      hide Ring.Contents, Ring.OutSpace, Ring.WakeTest, Ring.Incr, Ring.Stored, Ring.Advanced, DoWork, Attended, SleeperCovered, Driven;
    } else {
      OthersLeaveWriter(s, a);
    }
  }

  lemma OthersLeaveWriter(s: State, a: Action)
    requires Enabled(s, a) && !ByWriter(a)
    ensures Apply(s, a).writer.Copying? <==> s.writer.Copying?
  {
    hide DoWork, Ring.Contents, Ring.OutSpace, Ring.WakeTest, Ring.Incr;
    SectionLeaves(s);
  }

  /** The writer is in a call with data left, and awake; there is space. */
  predicate CanWrite(s: State) {
    && s.ring.Valid() && 0 < s.ring.OutSpace() && s.written < |s.user|
    && !s.writer.NoWriter? && s.writer != Asleep(false)
  }

  const Writing := (a: Action) =>
    a.Loop? || a.TestCondition? || a.TestAgain? || a.WakeUp? || a.CopyByte? || a.Advance? || a.CheckActive?

  /** The call ends early. */
  const Ending := (a: Action) => a.Signal? || a.CopyFault?

  function WriteRank(s: State): int {
    match s.writer
    case NoWriter => 0
    case Copying(space, done) => space - done + 1
    case Looping => s.ring.Page() + 2
    case Waiting => s.ring.Page() + 2
    case Queued(_) => s.ring.Page() + 2
    case Asleep(_) => s.ring.Page() + 3
    case Starting => s.ring.Page() + 3
  }

  lemma WriteComesNearer(s: State, a: Action)
    requires Inv(s) && Enabled(s, a) && CanWrite(s) && !Ending(a) && Apply(s, a).accepted == s.accepted
    ensures CanWrite(Apply(s, a)) && Apply(s, a).ring.Page() == s.ring.Page()
    ensures WriteRank(Apply(s, a)) + (if Writing(a) then 1 else 0) <= WriteRank(s)
  {
    hide Inv, WriteRank, Apply, Enabled, CanWrite;
    if ByWriter(a) {
      if a.CopyByte? {
        CopyComesNearer(s);
      } else {
        OwnStepComesNearer(s, a);
      }
    } else {
      OthersLeaveSpace(s, a);
    }
  }

  lemma CopyComesNearer(s: State)
    requires Inv(s) && Enabled(s, CopyByte) && CanWrite(s)
    ensures CanWrite(Apply(s, CopyByte)) && Apply(s, CopyByte).ring.Page() == s.ring.Page()
    ensures WriteRank(Apply(s, CopyByte)) + 1 <= WriteRank(s)
  {
    StoreIsUnseen(s.ring, s.ring.head + s.writer.done, s.user[s.written + s.writer.done]);
    hide Ring.Contents, Ring.OutSpace;
  }

  lemma OwnStepComesNearer(s: State, a: Action)
    requires Inv(s) && Enabled(s, a) && CanWrite(s) && ByWriter(a) && !a.CopyByte? && !Ending(a) && Apply(s, a).accepted == s.accepted
    ensures CanWrite(Apply(s, a)) && Apply(s, a).ring.Page() == s.ring.Page()
    ensures WriteRank(Apply(s, a)) + (if Writing(a) then 1 else 0) <= WriteRank(s)
  {
    SpaceIsFree(s.ring);
    hide Ring.Contents, Ring.OutSpace, Ring.WakeTest, Ring.Incr, Fifo, Attended, SleeperCovered, Driven;
  }

  lemma OthersLeaveSpace(s: State, a: Action)
    requires Enabled(s, a) && CanWrite(s) && !ByWriter(a)
    ensures CanWrite(Apply(s, a)) && Apply(s, a).ring.Page() == s.ring.Page() && WriteRank(Apply(s, a)) == WriteRank(s) && !Writing(a)
  {
    if a.WorkSection? {
      SectionLeavesSpace(s);
    } else {
      hide Ring.Contents, Ring.OutSpace, Ring.WakeTest, DoWork, StartOutput, Clip;
    }
  }

  lemma SectionLeavesSpace(s: State)
    requires CanWrite(s)
    ensures CanWrite(DoWork(s)) && DoWork(s).ring.Page() == s.ring.Page() && WriteRank(DoWork(s)) == WriteRank(s)
  {
    if s.ring.head != s.ring.tail {
      StrobeTakes(s.ring);
    }
    hide Ring.Contents, Ring.OutSpace, Ring.WakeTest;
  }

  /** A step accepts nothing, or the bytes that were copied, at least one. */
  lemma AcceptsSome(s: State, a: Action)
    requires Inv(s) && Enabled(s, a)
    ensures Apply(s, a).accepted == s.accepted || |s.accepted| < |Apply(s, a).accepted|
  {
    hide DoWork, Ring.Contents, Ring.OutSpace, Ring.WakeTest, Ring.Incr, Ring.Stored, Ring.Advanced, Fifo, Attended, SleeperCovered, Driven;
    SectionLeaves(s);
  }

  lemma {:induction false} WritingCounts(path: seq<State>, acts: seq<Action>)
    requires IsPath(path, acts) && Inv(path[0]) && CanWrite(path[0]) && Count(acts, Ending) == 0
    ensures path[|acts|].accepted == path[0].accepted || |path[0].accepted| < |path[|acts|].accepted|
    ensures path[|acts|].accepted == path[0].accepted ==>
              && CanWrite(path[|acts|]) && path[|acts|].ring.Page() == path[0].ring.Page()
              && WriteRank(path[|acts|]) + Count(acts, Writing) <= WriteRank(path[0])
  {
    hide Enabled, Apply, Inv, WriteRank, CanWrite;
    if acts != [] {
      var n := |acts| - 1;
      Shorter(path, acts);
      CountLast(acts, Writing);
      CountLast(acts, Ending);
      WritingCounts(path[..n + 1], acts[..n]);
      PathKeepsInv(path[..n + 1], acts[..n]);
      AcceptsSome(path[n], acts[n]);
      if path[n + 1].accepted == path[0].accepted {
        WriteComesNearer(path[n], acts[n]);
      }
    }
  }

  /**
    While there is space, an awake writer with data left has some of it accepted within a page of its own steps,
    whatever the others do, unless a signal or a fault ends its call; and it always has such a step to make.
   */
  lemma WriterGoesOn(run: seq<State>, path: seq<State>, acts: seq<Action>)
    requires IsRun(run) && IsPath(path, acts) && path[0] == run[|run| - 1]
    requires CanWrite(path[0]) && Count(acts, Ending) == 0
    ensures path[0].ring.Page() + 3 < Count(acts, Writing) ==> |path[0].accepted| < |path[|acts|].accepted|
    ensures path[|acts|].accepted == path[0].accepted ==> exists a :: Writing(a) && Enabled(path[|acts|], a)
  {
    hide Count, Next, Init, Apply, Ring.Contents, Ring.OutSpace;
    RunKeepsInv(run, |run| - 1);
    WritingCounts(path, acts);
    PathKeepsInv(path, acts);
    if path[|acts|].accepted == path[0].accepted {
      var s := path[|acts|];
      var a := NextWriting(s);
      assert Writing(a) && Enabled(s, a);
    }
  }

  function NextWriting(s: State): Action {
    match s.writer
    case Looping => Loop
    case Waiting => TestCondition
    case Queued(_) => TestAgain
    case Asleep(_) => WakeUp
    case Copying(space, done) => if done < space then CopyByte else Advance
    case _ => CheckActive
  }
}
