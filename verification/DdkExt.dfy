/**
  The extension of the DDK driver: writers, the activity timer's callback, the blink worker, commands
  written to the proc entry, and cleanup, interleaved at the sections of the spin lock.
 */
module DdkExt {
  import opened Counting
  import opened Kernel

  /** A writer that has left its first section with the timer flag it read there. */
  datatype Writer = NotWriting | SawEnabled | SawDisabled

  datatype Callback = NoCallback | Entered | WillRearm

  datatype Worker = NoWork | BeforeSnapshot | Blinking(count: int, done: nat)

  /** How far cleanup has come. */
  datatype Cleanup = Serving | ProcRemoved | TimerDeleted | WorkCancelled

  datatype State = State(
    timerEnabled: bool, workPending: bool, blinkCount: int,   // under the lock
    armed: bool, callback: Callback,                          // the timer
    queued: bool, worker: Worker,                             // the work item
    writers: seq<Writer>, cleanup: Cleanup,
    accepted: nat, runs: nat, firings: nat)                   // for the record

  datatype Action =
    // ddk_ext_on_write_success
    | WriteSucceeds(w: nat) | ModTimer(w: nat) | QueueDirectly(w: nat)
    // activity_timer_cb
    | Fire | CallbackSection | Rearm
    // blink_worker
    | StartWork | Snapshot | Blink | EndWork
    // ddk_proc_write
    | TimerCommand(on: bool) | BlinkCommand(n: int) | OtherCommand
    // ddk_ext_cleanup
    | RemoveProc | DeleteTimer | CancelWork

  predicate Init(s: State) {
    && !s.timerEnabled && !s.workPending && !s.armed && s.callback == NoCallback && !s.queued && s.worker == NoWork
    && s.blinkCount == 3 && s.accepted == s.runs == s.firings == 0
    && s.cleanup == Serving && forall w :: 0 <= w < |s.writers| ==> s.writers[w] == NotWriting
  }

  /** A 64-bit number stored in a 32-bit one keeps its low bits. */
  function ToInt(n: int): int {
    var low := n % 0x1_0000_0000;
    if low < 0x8000_0000 then low else low - 0x1_0000_0000
  }

  /** The number stored is the one given as far as 32 bits go, and so the same if it fits. */
  lemma StoredNumber(n: int)
    ensures -0x8000_0000 <= ToInt(n) < 0x8000_0000 && (n - ToInt(n)) % 0x1_0000_0000 == 0
    ensures -0x8000_0000 <= n < 0x8000_0000 ==> ToInt(n) == n
  {
  }

  /** Queues the work unless a run of it is already on its way. */
  function Request(s: State): State {
    if s.workPending then s else s.(workPending := true, queued := true, accepted := s.accepted + 1)
  }

  predicate Enabled(s: State, a: Action) {
    match a
    case WriteSucceeds(w) => w < |s.writers| && s.writers[w] == NotWriting
    case ModTimer(w) => w < |s.writers| && s.writers[w] == SawEnabled
    case QueueDirectly(w) => w < |s.writers| && s.writers[w] == SawDisabled
    case Fire => s.armed && s.callback == NoCallback
    case CallbackSection => s.callback == Entered
    case Rearm => s.callback == WillRearm
    case StartWork => s.queued && s.worker == NoWork
    case Snapshot => s.worker == BeforeSnapshot
    case Blink => s.worker.Blinking? && s.worker.done < s.worker.count
    case EndWork => s.worker.Blinking? && s.worker.done >= s.worker.count
    case TimerCommand(_) => s.cleanup == Serving
    case BlinkCommand(_) => s.cleanup == Serving
    case OtherCommand => s.cleanup == Serving
    case RemoveProc => s.cleanup == Serving
    case DeleteTimer => s.cleanup == ProcRemoved && s.callback == NoCallback  // waits for a running callback
    case CancelWork => s.cleanup == TimerDeleted && s.worker == NoWork       // waits for a running worker
  }

  function Apply(s: State, a: Action): State
    requires Enabled(s, a)
  {
    match a
    case WriteSucceeds(w) =>
      s.(writers := s.writers[w := if s.timerEnabled then SawEnabled else SawDisabled])
    case ModTimer(w) => s.(armed := true, writers := s.writers[w := NotWriting])
    case QueueDirectly(w) => Request(s).(writers := s.writers[w := NotWriting])
    case Fire => s.(armed := false, callback := Entered, firings := s.firings + 1)
    case CallbackSection => Request(s).(callback := if s.timerEnabled then WillRearm else NoCallback)
    case Rearm => s.(armed := true, callback := NoCallback)
    case StartWork => s.(queued := false, worker := BeforeSnapshot)
    case Snapshot => s.(workPending := false, worker := Blinking(s.blinkCount, 0), runs := s.runs + 1)
    case Blink => s.(worker := s.worker.(done := s.worker.done + 1))
    case EndWork => s.(worker := NoWork)
    case TimerCommand(on) => if on then s.(timerEnabled := true) else s.(timerEnabled := false, armed := false)
    case BlinkCommand(n) => if n > 0 then s.(blinkCount := ToInt(n)) else s
    case OtherCommand => s
    case RemoveProc => s.(cleanup := ProcRemoved)
    case DeleteTimer => s.(armed := false, cleanup := TimerDeleted)
    case CancelWork => s.(queued := false, cleanup := WorkCancelled)
  }

  predicate StepBy(s: State, a: Action, s': State) {
    Enabled(s, a) && s' == Apply(s, a)
  }

  ghost predicate Next(s: State, s': State) {
    exists a :: StepBy(s, a, s')
  }

  ghost predicate IsRun(run: seq<State>) {
    && 0 < |run| && Init(run[0])
    && forall i :: 0 < i < |run| ==> Next(run[i - 1], run[i])
  }

  // ----- steps of the protocol

  /** Where a sequence of steps leads, if each can be taken. */
  ghost function Do(s: State, steps: seq<Action>): Option<State> {
    if steps == [] then Some(s) else
      var before, a := Do(s, steps[..|steps| - 1]), steps[|steps| - 1];
      if before.Some? && Enabled(before.value, a) then Some(Apply(before.value, a)) else None
  }

  lemma DoMore(s: State, steps: seq<Action>, a: Action)
    requires Do(s, steps).Some? && Enabled(Do(s, steps).value, a)
    ensures Do(s, steps + [a]) == Some(Apply(Do(s, steps).value, a))
  {
    assert (steps + [a])[..|steps|] == steps;
  }

  lemma DoOne(s: State, a: Action)
    requires Enabled(s, a)
    ensures Do(s, [a]) == Some(Apply(s, a))
  {
  }

  lemma DoTwo(s: State, a: Action, b: Action)
    requires Enabled(s, a) && Enabled(Apply(s, a), b)
    ensures Do(s, [a, b]) == Some(Apply(Apply(s, a), b))
  {
    hide Apply, Enabled;
    DoOne(s, a);
    DoMore(s, [a], b);
    assert [a] + [b] == [a, b];
  }

  lemma DoThree(s: State, a: Action, b: Action, c: Action)
    requires Enabled(s, a) && Enabled(Apply(s, a), b) && Enabled(Apply(Apply(s, a), b), c)
    ensures Do(s, [a, b, c]) == Some(Apply(Apply(Apply(s, a), b), c))
  {
    hide Apply, Enabled;
    DoTwo(s, a, b);
    DoMore(s, [a, b], c);
    assert [a, b] + [c] == [a, b, c];
  }

  // ----- requests and runs of the work

  /** The flag says exactly whether a run is on its way, and each accepted request makes one run. */
  predicate Tracked(s: State) {
    && (s.cleanup != WorkCancelled ==>
          && (s.workPending <==> s.queued || s.worker == BeforeSnapshot)
          && !(s.queued && s.worker == BeforeSnapshot)
          && s.accepted == s.runs + (if s.workPending then 1 else 0))
    && (s.worker.Blinking? && 0 < s.worker.done ==> s.worker.done <= s.worker.count)
  }

  lemma StepKeepsTracked(s: State, a: Action)
    requires Tracked(s) && Enabled(s, a)
    ensures Tracked(Apply(s, a))
    ensures s.cleanup != WorkCancelled && Apply(s, a).accepted > s.accepted ==> !s.queued
  {
  }

  /** A run that ends has blinked as often as the count it took at its start says, if that is positive. */
  lemma RunBlinksItsCount(run: seq<State>, i: nat)
    requires IsRun(run) && i < |run| && Enabled(run[i], EndWork)
    ensures run[i].worker.done == if 0 < run[i].worker.count then run[i].worker.count else 0
  {
    RunKeepsTracked(run, i);
  }

  /** In every reachable state before the work is cancelled, no request was lost, merged into another, or run twice. */
  lemma {:induction false} RunKeepsTracked(run: seq<State>, i: nat)
    requires IsRun(run) && i < |run|
    ensures Tracked(run[i])
  {
    if i > 0 {
      RunKeepsTracked(run, i - 1);
      assert Next(run[i - 1], run[i]);
      var a :| StepBy(run[i - 1], a, run[i]);
      StepKeepsTracked(run[i - 1], a);
    }
  }

  lemma {:induction false} DoKeepsTracked(s: State, steps: seq<Action>)
    requires Tracked(s) && Do(s, steps).Some?
    ensures Tracked(Do(s, steps).value)
  {
    if steps != [] {
      DoKeepsTracked(s, steps[..|steps| - 1]);
      StepKeepsTracked(Do(s, steps[..|steps| - 1]).value, steps[|steps| - 1]);
    }
  }

  // ----- how often the light flashes

  /** Steps one after the other, and the states between them. */
  ghost predicate Follow(path: seq<State>, acts: seq<Action>) {
    |path| == |acts| + 1 && forall i :: 0 <= i < |acts| ==> StepBy(path[i], acts[i], path[i + 1])
  }

  /** The count stays until the next blink command with a positive number. */
  lemma {:induction false} CountStays(path: seq<State>, acts: seq<Action>, i: nat, j: nat)
    requires Follow(path, acts) && i <= j <= |acts|
    requires forall m :: i <= m < j ==> !(acts[m].BlinkCommand? && 0 < acts[m].n)
    ensures path[j].blinkCount == path[i].blinkCount
  {
    if i < j {
      CountStays(path, acts, i, j - 1);
      assert StepBy(path[j - 1], acts[j - 1], path[j]);
    }
  }

  const Flash := (a: Action) => a.Blink?

  lemma RunStep(s: State, a: Action)
    requires Enabled(s, a) && !a.EndWork?
    ensures a.Snapshot? ==> Apply(s, a).worker == Blinking(s.blinkCount, 0)
    ensures s.worker.Blinking? ==> Apply(s, a).worker == Blinking(s.worker.count, s.worker.done + if a.Blink? then 1 else 0)
  {
  }

  /** A run of the work blinks by its blink steps alone, whatever happens in between. */
  lemma {:induction false} BlinksAreCounted(path: seq<State>, acts: seq<Action>, j: nat, k: nat)
    requires Follow(path, acts) && j < k <= |acts| && acts[j].Snapshot?
    requires forall m :: j < m < k ==> !acts[m].EndWork?
    ensures path[k].worker == Blinking(path[j].blinkCount, Count(acts[j + 1..k], Flash))
  {
    assert StepBy(path[k - 1], acts[k - 1], path[k]);
    RunStep(path[k - 1], acts[k - 1]);
    hide Apply, Enabled, StepBy;
    if j + 1 < k {
      BlinksAreCounted(path, acts, j, k - 1);
      var flashes := acts[j + 1..k];
      assert flashes[..|flashes| - 1] == acts[j + 1..k - 1] && flashes[|flashes| - 1] == acts[k - 1];
      CountLast(flashes, Flash);
    } else {
      assert acts[j + 1..k] == [];
    }
  }

  /**
    After a blink command with a positive number that fits, every run of the work that takes its count before the
    next such command flashes exactly that often, however the steps of others fall in between.
   */
  lemma FlashesAsCommanded(path: seq<State>, acts: seq<Action>, i: nat, j: nat, k: nat, n: int)
    requires Follow(path, acts) && i < j < k < |acts| && 0 < n < 0x8000_0000
    requires acts[i] == BlinkCommand(n) && acts[j].Snapshot? && acts[k].EndWork?
    requires forall m :: i < m < j ==> !(acts[m].BlinkCommand? && 0 < acts[m].n)
    requires forall m :: j < m < k ==> !acts[m].EndWork?
    ensures Count(acts[j + 1..k], Flash) == n
  {
    assert StepBy(path[i], acts[i], path[i + 1]) && StepBy(path[k], acts[k], path[k + 1]);
    StoredNumber(n);
    CountStays(path, acts, i + 1, j);
    BlinksAreCounted(path, acts, j, k);
    NeverMore(path, acts, j, k);
  }

  lemma {:induction false} NeverMore(path: seq<State>, acts: seq<Action>, j: nat, k: nat)
    requires Follow(path, acts) && j < k <= |acts| && acts[j].Snapshot? && 0 <= path[j].blinkCount
    requires forall m :: j < m < k ==> !acts[m].EndWork?
    ensures Count(acts[j + 1..k], Flash) <= path[j].blinkCount
  {
    BlinksAreCounted(path, acts, j, k);
    assert StepBy(path[k - 1], acts[k - 1], path[k]);
    RunStep(path[k - 1], acts[k - 1]);
    assert acts[k - 1].Blink? ==> path[k - 1].worker.Blinking? && path[k - 1].worker.done < path[k - 1].worker.count;
    hide Apply, Enabled, StepBy;
    if j + 1 < k {
      NeverMore(path, acts, j, k - 1);
      BlinksAreCounted(path, acts, j, k - 1);
    }
  }

  // ----- after the timer is disabled

  function Late(writers: seq<Writer>): nat {
    if writers == [] then 0 else (if writers[0] == SawEnabled then 1 else 0) + Late(writers[1..])
  }

  /** The firings that are still to come if nobody reads the timer as enabled any more. */
  function Outstanding(s: State): nat {
    (if s.armed then 1 else 0) + (if s.callback == WillRearm then 1 else 0) + Late(s.writers)
  }

  lemma {:induction false} LateChanges(writers: seq<Writer>, w: nat, x: Writer)
    requires w < |writers|
    ensures Late(writers[w := x]) + (if writers[w] == SawEnabled then 1 else 0) == Late(writers) + (if x == SawEnabled then 1 else 0)
  {
    if w == 0 {
      assert writers[w := x][1..] == writers[1..];
    } else {
      assert writers[w := x][1..] == writers[1..][w - 1 := x];
      LateChanges(writers[1..], w - 1, x);
    }
  }

  lemma StepSpendsFirings(s: State, a: Action)
    requires Enabled(s, a) && !s.timerEnabled
    ensures Apply(s, a).firings + Outstanding(Apply(s, a)) <= s.firings + Outstanding(s)
  {
    if a.WriteSucceeds? || a.ModTimer? || a.QueueDirectly? {
      LateChanges(s.writers, a.w, Apply(s, a).writers[a.w]);
    }
  }

  /**
    While the timer stays disabled it fires at most once for being armed, once for a callback that is
    about to re-arm it, and once for every writer that had read it as enabled before.
   */
  lemma {:induction false} FiringsAfterDisable(run: seq<State>, i: nat, j: nat)
    requires IsRun(run) && i <= j < |run|
    requires forall k :: i <= k < j ==> !run[k].timerEnabled
    ensures run[j].firings + Outstanding(run[j]) <= run[i].firings + Outstanding(run[i])
  {
    if i < j {
      FiringsAfterDisable(run, i, j - 1);
      assert Next(run[j - 1], run[j]);
      var a :| StepBy(run[j - 1], a, run[j]);
      StepSpendsFirings(run[j - 1], a);
    }
  }

  /** The command that disables the timer also takes back its being armed. */
  lemma FiringsAfterCommand(run: seq<State>, i: nat, j: nat)
    requires IsRun(run) && i + 1 <= j < |run|
    requires StepBy(run[i], TimerCommand(false), run[i + 1])
    requires forall k :: i + 1 <= k < j ==> !run[k].timerEnabled
    ensures run[j].firings <= run[i].firings + Late(run[i].writers) + (if run[i].callback == WillRearm then 1 else 0)
  {
    FiringsAfterDisable(run, i + 1, j);
  }

  // ----- cleanup

  predicate NobodyWriting(s: State) {
    forall w :: 0 <= w < |s.writers| ==> s.writers[w] == NotWriting
  }

  predicate Quiet(s: State) {
    !s.armed && s.callback == NoCallback && !s.queued && s.worker == NoWork
  }

  /** What each stage of cleanup has achieved. */
  predicate CleanedUp(s: State) {
    && (s.cleanup == TimerDeleted || s.cleanup == WorkCancelled ==> !s.armed && s.callback == NoCallback)
    && (s.cleanup == WorkCancelled ==> Quiet(s))
  }

  lemma {:induction false} RunCleansUp(run: seq<State>, i: nat)
    requires IsRun(run) && i < |run|
    requires forall k :: 0 <= k <= i && run[k].cleanup != Serving ==> NobodyWriting(run[k])
    ensures CleanedUp(run[i])
  {
    if i > 0 {
      RunCleansUp(run, i - 1);
      hide Apply, CleanedUp;
      assert Next(run[i - 1], run[i]);
      var a :| StepBy(run[i - 1], a, run[i]);
      StepCleansUp(run[i - 1], a);
    }
  }

  lemma StepCleansUp(s: State, a: Action)
    requires CleanedUp(s) && Enabled(s, a) && (s.cleanup != Serving ==> NobodyWriting(s))
    ensures CleanedUp(Apply(s, a))
  {
  }

  /** Without writers from the start of cleanup on, cleanup ends with nothing pending or running, for good. */
  lemma CleanupIsFinal(run: seq<State>, i: nat, j: nat)
    requires IsRun(run) && i <= j < |run| && run[i].cleanup == WorkCancelled
    requires forall k :: 0 <= k <= j && run[k].cleanup != Serving ==> NobodyWriting(run[k])
    ensures run[j].cleanup == WorkCancelled && Quiet(run[j])
  {
    CleanupStays(run, i, j);
    RunCleansUp(run, j);
  }

  lemma {:induction false} CleanupStays(run: seq<State>, i: nat, j: nat)
    requires IsRun(run) && i <= j < |run| && run[i].cleanup == WorkCancelled
    ensures run[j].cleanup == WorkCancelled
  {
    if i < j {
      CleanupStays(run, i, j - 1);
      assert Next(run[j - 1], run[j]);
    }
  }

  /** Only a writer can disturb what has been cleaned up: one that arms the timer, or finds no run pending. */
  lemma OnlyWritersDisturb(s: State, a: Action)
    requires s.cleanup == WorkCancelled && Quiet(s) && Enabled(s, a)
    ensures !Quiet(Apply(s, a)) <==> a.ModTimer? || (a.QueueDirectly? && !s.workPending)
  {
  }

  /** The states a finished cleanup may leave that no continuation disturbs. */
  predicate Settled(s: State) {
    && s.cleanup == WorkCancelled && Quiet(s)
    && (s.writers == [] || (!s.timerEnabled && s.workPending && forall w :: 0 <= w < |s.writers| ==> s.writers[w] != SawEnabled))
  }

  ghost predicate IsPath(path: seq<State>) {
    0 < |path| && forall i :: 0 < i < |path| ==> Next(path[i - 1], path[i])
  }

  /** However the tasks go on, nothing is pending or running again. */
  ghost predicate AlwaysQuiet(s: State) {
    forall path, i :: IsPath(path) && path[0] == s && 0 <= i < |path| ==> Quiet(path[i])
  }

  lemma StepKeepsSettled(s: State, a: Action)
    requires Settled(s) && Enabled(s, a)
    ensures Settled(Apply(s, a))
  {
  }

  lemma {:induction false} PathKeepsSettled(path: seq<State>, i: nat)
    requires IsPath(path) && Settled(path[0]) && i < |path|
    ensures Settled(path[i])
  {
    if i > 0 {
      PathKeepsSettled(path, i - 1);
      hide Settled, Apply;
      assert Next(path[i - 1], path[i]);
      var a :| StepBy(path[i - 1], a, path[i]);
      StepKeepsSettled(path[i - 1], a);
    }
  }

  lemma {:induction false} PrefixesDo(s: State, steps: seq<Action>, k: nat)
    requires Do(s, steps).Some? && k <= |steps|
    ensures Do(s, steps[..k]).Some?
    decreases |steps|
  {
    if k < |steps| {
      PrefixesDo(s, steps[..|steps| - 1], k);
      assert steps[..|steps| - 1][..k] == steps[..k];
    } else {
      assert steps[..k] == steps;
    }
  }

  /** The states that a sequence of steps goes through. */
  ghost function Path(s: State, steps: seq<Action>): (path: seq<State>)
    requires Do(s, steps).Some?
    ensures |path| == |steps| + 1
  {
    seq(|steps| + 1, k requires 0 <= k <= |steps| => (PrefixesDo(s, steps, k); Do(s, steps[..k]).value))
  }

  lemma StepOfPath(s: State, steps: seq<Action>, i: nat)
    requires Do(s, steps).Some? && 0 < i <= |steps|
    ensures Next(Path(s, steps)[i - 1], Path(s, steps)[i])
  {
    hide Apply, Enabled;
    PrefixesDo(s, steps, i);
    PrefixesDo(s, steps, i - 1);
    var front := steps[..i];
    assert front[..|front| - 1] == steps[..i - 1];
    StepIsNext(Do(s, steps[..i - 1]).value, steps[i - 1], Do(s, front).value);
  }

  lemma StepIsNext(s: State, a: Action, s': State)
    requires Enabled(s, a) && s' == Apply(s, a)
    ensures Next(s, s')
  {
    assert StepBy(s, a, s');
  }

  lemma PathOfSteps(s: State, steps: seq<Action>)
    requires Do(s, steps).Some?
    ensures var path := Path(s, steps); IsPath(path) && path[0] == s && path[|steps|] == Do(s, steps).value
  {
    hide Next;
    var path := Path(s, steps);
    forall i | 0 < i < |path|
      ensures Next(path[i - 1], path[i])
    {
      StepOfPath(s, steps, i);
    }
    assert steps[..|steps|] == steps && steps[..0] == [];
  }

  /** What undoes a finished cleanup that is not settled: at most three steps of one writer. */
  function Disturbance(s: State, w: nat): seq<Action>
    requires w < |s.writers|
  {
    if s.writers[w] == SawEnabled then [ModTimer(w)]
    else if s.timerEnabled then
      (if s.writers[w] == SawDisabled then [QueueDirectly(w)] else []) + [WriteSucceeds(w), ModTimer(w)]
    else
      (if s.writers[w] == SawDisabled then [] else [WriteSucceeds(w)]) + [QueueDirectly(w)]
  }

  lemma DisturbanceDisturbs(s: State, w: nat)
    requires s.cleanup == WorkCancelled && Quiet(s) && w < |s.writers|
    requires s.timerEnabled || !s.workPending || s.writers[w] == SawEnabled
    ensures var end := Do(s, Disturbance(s, w)); end.Some? && !Quiet(end.value)
  {
    var steps := Disturbance(s, w);
    if |steps| == 1 {
      DoOne(s, steps[0]);
    } else if |steps| == 2 {
      DoTwo(s, steps[0], steps[1]);
      assert steps == [steps[0], steps[1]];
    } else {
      DoThree(s, steps[0], steps[1], steps[2]);
      assert steps == [steps[0], steps[1], steps[2]];
    }
  }

  /**
    Cleanup is final exactly if nobody can write any more, or if the timer is disabled, a run that was
    cancelled is still marked as pending, and no writer is left that read the timer as enabled.
   */
  lemma CleanupIsFinalExactly(s: State)
    requires s.cleanup == WorkCancelled && Quiet(s)
    ensures AlwaysQuiet(s) <==>
      s.writers == [] || (!s.timerEnabled && s.workPending && forall w :: 0 <= w < |s.writers| ==> s.writers[w] != SawEnabled)
  {
    if Settled(s) {
      forall path, i | IsPath(path) && path[0] == s && 0 <= i < |path|
        ensures Quiet(path[i])
      {
        PathKeepsSettled(path, i);
      }
    } else {
      var w: nat :| w < |s.writers| && (s.timerEnabled || !s.workPending || s.writers[w] == SawEnabled);
      DisturbanceDisturbs(s, w);
      var steps := Disturbance(s, w);
      PathOfSteps(s, steps);
      var path := Path(s, steps);
      assert IsPath(path) && path[0] == s && 0 <= |steps| < |path| && !Quiet(path[|steps|]);
    }
  }

  /** A driver whose timer was enabled, cleaned up with nobody writing, and armed by a write after that. */
  lemma CleanupUndone(s: State)
    requires Init(s) && s.writers == [NotWriting]
    ensures var before := Do(s, [TimerCommand(true), RemoveProc, DeleteTimer, CancelWork]);
      && before.Some? && before.value.cleanup == WorkCancelled && Quiet(before.value) && NobodyWriting(before.value)
      && var after := Do(before.value, [WriteSucceeds(0), ModTimer(0)]);
      after.Some? && after.value.armed
  {
    DoThree(s, TimerCommand(true), RemoveProc, DeleteTimer);
    var front := [TimerCommand(true), RemoveProc, DeleteTimer];
    DoMore(s, front, CancelWork);
    assert front + [CancelWork] == [TimerCommand(true), RemoveProc, DeleteTimer, CancelWork];
    DoTwo(Do(s, front + [CancelWork]).value, WriteSucceeds(0), ModTimer(0));
  }
}
