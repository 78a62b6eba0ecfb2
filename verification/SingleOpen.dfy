/**
  The single-open device: a counter that starts at one, taken down by opening and up again by closing.  A
  write-only open empties the device without its mutex, which reads and writes hold while they copy; each
  trim frees all blocks and so ends a generation of them.
 */
module SingleOpen {
  import opened Counting
  import opened Kernel

  /**
    A task is outside, has taken the counter down in vain and will undo that, or has the device open: about
    to trim it, idle, or copying to or from a block of some generation.
   */
  datatype Task = Outside | Undoing | Trimming | Holding | Copying(generation: nat)

  datatype State = State(available: int, generation: nat, mutex: Option<nat>, tasks: seq<Task>)

  datatype Action =
    | DecAndTest(t: nat, writeOnly: bool) | Undo(t: nat) | Trim(t: nat)
    | StartCopy(t: nat) | EndCopy(t: nat) | Release(t: nat)

  predicate Init(s: State) {
    s.available == 1 && s.mutex == None && forall t :: 0 <= t < |s.tasks| ==> s.tasks[t] == Outside
  }

  predicate Enabled(s: State, a: Action) {
    && a.t < |s.tasks|
    && match a
       case DecAndTest(t, _) => s.tasks[t] == Outside
       case Undo(t) => s.tasks[t] == Undoing
       case Trim(t) => s.tasks[t] == Trimming
       case StartCopy(t) => s.tasks[t] == Holding && s.mutex == None
       case EndCopy(t) => s.tasks[t].Copying?
       case Release(t) => s.tasks[t] == Holding
  }

  function Entered(writeOnly: bool): Task {
    if writeOnly then Trimming else Holding
  }

  function Apply(s: State, a: Action): State
    requires Enabled(s, a)
  {
    match a
    case DecAndTest(t, writeOnly) =>
      s.(available := s.available - 1, tasks := s.tasks[t := if s.available - 1 == 0 then Entered(writeOnly) else Undoing])
    case Undo(t) => s.(available := s.available + 1, tasks := s.tasks[t := Outside])
    case Trim(t) => s.(generation := s.generation + 1, tasks := s.tasks[t := Holding])
    case StartCopy(t) => s.(mutex := Some(t), tasks := s.tasks[t := Copying(s.generation)])
    case EndCopy(t) => s.(mutex := None, tasks := s.tasks[t := Holding])
    case Release(t) => s.(available := s.available + 1, tasks := s.tasks[t := Outside])
  }

  predicate StepBy(s: State, a: Action, s': State) {
    Enabled(s, a) && s' == Apply(s, a)
  }

  ghost predicate Next(s: State, s': State) {
    exists a :: StepBy(s, a, s')
  }

  ghost predicate IsRun(run: seq<State>) {
    && 0 < |run| && Init(run[0])
    && forall i :: 0 < i < |run| ==> Next(run[i - 1], run[i])
  }

  predicate Holder(d: Task) {
    d.Trimming? || d.Holding? || d.Copying?
  }

  const Inside := (t: Task) => t != Outside
  const Holds := (t: Task) => Holder(t)

  /** The counter is one less for every task that has taken it down, and at most one of those holds the device. */
  predicate Counted(s: State) {
    s.available == 1 - Count(s.tasks, Inside) && Count(s.tasks, Holds) <= 1
  }

  /** Some task copies to or from a block that has been freed. */
  predicate CopiesFreed(s: State) {
    exists t :: 0 <= t < |s.tasks| && s.tasks[t].Copying? && s.tasks[t].generation != s.generation
  }

  predicate Inv(s: State) {
    Counted(s) && !CopiesFreed(s)
  }

  lemma {:induction false} HoldersAreInside(tasks: seq<Task>)
    ensures Count(tasks, Holds) <= Count(tasks, Inside)
  {
    if tasks != [] {
      HoldersAreInside(tasks[1..]);
    }
  }

  lemma StepKeepsCounted(s: State, a: Action)
    requires Counted(s) && Enabled(s, a)
    ensures Counted(Apply(s, a))
  {
    var x := Apply(s, a).tasks[a.t];
    CountChanges(s.tasks, a.t, x, Inside);
    CountChanges(s.tasks, a.t, x, Holds);
    HoldersAreInside(s.tasks);
  }

  /** Whoever trims the device is its only holder. */
  lemma TrimsAlone(s: State, t: nat, u: nat)
    requires Counted(s) && t < |s.tasks| && u < |s.tasks| && s.tasks[t] == Trimming && t != u
    ensures !Holder(s.tasks[u])
  {
    if Holder(s.tasks[u]) {
      CountTwo(s.tasks, if t < u then t else u, if t < u then u else t, Holds);
    }
  }

  lemma StepFreesNothing(s: State, a: Action)
    requires Inv(s) && Enabled(s, a)
    ensures !CopiesFreed(Apply(s, a))
  {
    forall u | 0 <= u < |s.tasks| && Apply(s, a).tasks[u].Copying?
      ensures Apply(s, a).tasks[u].generation == Apply(s, a).generation
    {
      if a.Trim? && u != a.t {
        TrimsAlone(s, a.t, u);
      }
    }
  }

  /** In every interleaving the counter is right, one file at most is open, and no trim comes under a copy. */
  lemma {:induction false} RunKeepsInv(run: seq<State>, i: nat)
    requires IsRun(run) && i < |run|
    ensures Inv(run[i])
  {
    if i == 0 {
      CountNone(run[0].tasks, Inside);
      CountNone(run[0].tasks, Holds);
    } else {
      RunKeepsInv(run, i - 1);
      assert Next(run[i - 1], run[i]);
      var a :| StepBy(run[i - 1], a, run[i]);
      StepKeepsCounted(run[i - 1], a);
      StepFreesNothing(run[i - 1], a);
    }
  }

  /** Two tasks never hold the device at once. */
  lemma OneHolder(run: seq<State>, i: nat, t: nat, u: nat)
    requires IsRun(run) && i < |run| && t < u < |run[i].tasks|
    ensures !(Holder(run[i].tasks[t]) && Holder(run[i].tasks[u]))
  {
    RunKeepsInv(run, i);
    if Holder(run[i].tasks[t]) && Holder(run[i].tasks[u]) {
      CountTwo(run[i].tasks, t, u, Holds);
    }
  }

  /**
    Opening succeeds exactly when every other task is outside.  So it may report the device busy although
    nobody holds it: another task that failed has only not undone its attempt yet.
   */
  lemma OpensWhenAlone(run: seq<State>, i: nat, t: nat, writeOnly: bool)
    requires IsRun(run) && i < |run| && Enabled(run[i], DecAndTest(t, writeOnly))
    ensures Holder(Apply(run[i], DecAndTest(t, writeOnly)).tasks[t]) <==> forall u :: 0 <= u < |run[i].tasks| ==> run[i].tasks[u] == Outside
  {
    RunKeepsInv(run, i);
    CountNone(run[i].tasks, Inside);
  }

  /** Although trims do not take the mutex, none ever comes under a copy: an opener is alone until it has trimmed. */
  lemma NeverTrimmedUnder(run: seq<State>, i: nat, t: nat)
    requires IsRun(run) && i < |run| && t < |run[i].tasks| && run[i].tasks[t] == Trimming
    ensures forall u :: 0 <= u < |run[i].tasks| && u != t ==> !Holder(run[i].tasks[u])
    ensures !CopiesFreed(run[i]) && !CopiesFreed(Apply(run[i], Trim(t)))
  {
    RunKeepsInv(run, i);
    forall u | 0 <= u < |run[i].tasks| && u != t
      ensures !Holder(run[i].tasks[u])
    {
      TrimsAlone(run[i], t, u);
    }
    StepFreesNothing(run[i], Trim(t));
  }

  // ----- leaving

  /** How many steps a task is away from being outside, if it begins nothing new. */
  function Away(d: Task): nat {
    match d
    case Outside => 0
    case Undoing => 1
    case Holding => 1
    case Trimming => 2
    case Copying(_) => 2
  }

  /** Each step that begins nothing new brings its task nearer to being outside, leaves the others, and can be made until then. */
  lemma LeavesInTheEnd(s: State, t: nat)
    requires t < |s.tasks|
    ensures s.tasks[t] != Outside ==> exists a: Action :: a.t == t && Enabled(s, a) && !a.DecAndTest? && !a.StartCopy?
    ensures forall a: Action :: a.t == t && Enabled(s, a) && !a.DecAndTest? && !a.StartCopy? ==>
              && Away(Apply(s, a).tasks[t]) < Away(s.tasks[t])
              && forall u :: 0 <= u < |s.tasks| && u != t ==> Apply(s, a).tasks[u] == s.tasks[u]
  {
    var a := match s.tasks[t]
      case Undoing => Undo(t)
      case Trimming => Trim(t)
      case Copying(_) => EndCopy(t)
      case _ => Release(t);
    assert s.tasks[t] != Outside ==> a.t == t && Enabled(s, a);
  }

  /** Steps one after the other, and the states between them. */
  predicate Follow(path: seq<State>, acts: seq<Action>) {
    |path| == |acts| + 1 && forall i :: 0 <= i < |acts| ==> StepBy(path[i], acts[i], path[i + 1])
  }

  /**
    Whoever opens the device for writing only finds it emptied: from his success on, and as long as he has it open, it
    has been trimmed once more, by him, before he copies anything; and never again until he closes it.
   */
  lemma {:induction false} OpensEmptied(run: seq<State>, t: nat, path: seq<State>, acts: seq<Action>)
    requires IsRun(run) && Enabled(run[|run| - 1], DecAndTest(t, true)) && run[|run| - 1].available == 1
    requires Follow(path, acts) && path[0] == Apply(run[|run| - 1], DecAndTest(t, true))
    requires forall k :: 0 <= k <= |acts| ==> t < |path[k].tasks| && Holder(path[k].tasks[t])
    ensures var s, s' := run[|run| - 1], path[|acts|];
      && Inv(s') && s'.generation == s.generation + (if s'.tasks[t].Trimming? then 0 else 1)
      && (s'.tasks[t].Copying? ==> s'.tasks[t].generation == s.generation + 1)
  {
    if acts == [] {
      RunKeepsInv(run, |run| - 1);
      StepKeepsCounted(run[|run| - 1], DecAndTest(t, true));
      StepFreesNothing(run[|run| - 1], DecAndTest(t, true));
    } else {
      var n := |acts| - 1;
      OpensEmptied(run, t, path[..n + 1], acts[..n]);
      assert StepBy(path[n], acts[n], path[n + 1]);
      StepKeepsCounted(path[n], acts[n]);
      StepFreesNothing(path[n], acts[n]);
      if acts[n].Trim? && acts[n].t != t {
        TrimsAlone(path[n], acts[n].t, t);
      }
    }
  }

  /** One task opens the device, copies and closes it; then the other opens it for writing only and closes it. */
  function TakingTurns(): seq<State> {
    [ State(1, 0, None, [Outside, Outside]),
      State(0, 0, None, [Holding, Outside]),
      State(0, 0, Some(0), [Copying(0), Outside]),
      State(0, 0, None, [Holding, Outside]),
      State(1, 0, None, [Outside, Outside]),
      State(0, 0, None, [Outside, Trimming]),
      State(0, 1, None, [Outside, Holding]),
      State(1, 1, None, [Outside, Outside]) ]
  }

  lemma TurnsAreARun()
    ensures IsRun(TakingTurns())
  {
    var run := TakingTurns();
    assert StepBy(run[0], DecAndTest(0, false), run[1]);
    assert StepBy(run[1], StartCopy(0), run[2]);
    assert StepBy(run[2], EndCopy(0), run[3]);
    assert StepBy(run[3], Release(0), run[4]);
    assert StepBy(run[4], DecAndTest(1, true), run[5]);
    assert StepBy(run[5], Trim(1), run[6]);
    assert StepBy(run[6], Release(1), run[7]);
  }

  /** A holder, a failed open that is not yet undone, and a close: then nobody holds the device. */
  function FailedAndClosed(): seq<State> {
    [ State(1, 0, None, [Outside, Outside, Outside]),
      State(0, 0, None, [Holding, Outside, Outside]),
      State(-1, 0, None, [Holding, Undoing, Outside]),
      State(0, 0, None, [Outside, Undoing, Outside]) ]
  }

  /** The next open is refused all the same. */
  lemma BusyWithoutHolder(writeOnly: bool)
    ensures var run := FailedAndClosed();
      && IsRun(run)
      && var s := run[3];
      && (forall t :: 0 <= t < 3 ==> !Holder(s.tasks[t]))
      && Enabled(s, DecAndTest(2, writeOnly)) && Apply(s, DecAndTest(2, writeOnly)).tasks[2] == Undoing
  {
    var run := FailedAndClosed();
    assert StepBy(run[0], DecAndTest(0, false), run[1]);
    assert StepBy(run[1], DecAndTest(1, false), run[2]);
    assert StepBy(run[2], Release(0), run[3]);
  }
}
