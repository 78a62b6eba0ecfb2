/**
  The device that can be opened by one user at a time, where others wait: an owner, a count, and a wait
  queue, with the spin-locked sections and the unlocked tests of any number of tasks interleaved.  Without
  the waiting it is the device that refuses other users at once.

  A write-only open empties the device without its mutex, which reads and writes hold while they copy; each
  trim frees all blocks and so ends a generation of them.
 */
module OwnerOpen {
  import opened Counting
  import opened Kernel

  datatype Pc =
    | Outside
    | Trying                   // about to take the lock and test
    | Waiting                  // was refused, about to test the wait condition
    | Queued(woken: bool)      // on the wait queue, about to test again
    | Asleep(woken: bool)      // tested in vain: sleeps unless woken since it queued
    | Trimming                 // has opened the device for writing only, about to empty it
    | Holding                  // has it open
    | Copying(generation: nat) // holds the mutex and copies to or from a block of some generation
    | Owing                    // closed the last opening, about to wake the others

  /** Who a task runs as, and whether it may override access rights. */
  datatype User = User(uid: nat, euid: nat, capable: bool)

  datatype Task = Task(user: User, pc: Pc)

  datatype State = State(count: int, owner: nat, generation: nat, mutex: Option<nat>, tasks: seq<Task>)

  datatype Action =
    | Call(t: nat) | OpenSection(t: nat, writeOnly: bool) | GiveUp(t: nat) | TestCondition(t: nat) | TestAgain(t: nat)
    | WakeUp(t: nat) | Signal(t: nat) | Release(t: nat) | WakeOthers(t: nat)
    | Trim(t: nat) | StartCopy(t: nat) | EndCopy(t: nat)

  predicate Init(s: State) {
    s.count == 0 && s.mutex == None && forall t :: 0 <= t < |s.tasks| ==> s.tasks[t].pc == Outside
  }

  /** The owner, whoever has taken his identity, and a privileged task match. */
  predicate Matches(owner: nat, u: User) {
    owner == u.uid || owner == u.euid || u.capable
  }

  predicate Available(s: State, d: Task) {
    s.count == 0 || Matches(s.owner, d.user)
  }

  predicate Enabled(s: State, a: Action) {
    && a.t < |s.tasks|
    && var pc := s.tasks[a.t].pc;
    match a
    case Call(_) => pc.Outside?
    case OpenSection(_, _) => pc.Trying?
    case GiveUp(_) => pc.Waiting?
    case TestCondition(_) => pc.Waiting?
    case TestAgain(_) => pc.Queued?
    case WakeUp(_) => pc.Asleep? && pc.woken
    case Signal(_) => pc.Asleep?
    case Release(_) => pc.Holding?
    case WakeOthers(_) => pc.Owing?
    case Trim(_) => pc.Trimming?
    case StartCopy(_) => pc.Holding? && s.mutex == None
    case EndCopy(_) => pc.Copying?
  }

  function At(s: State, t: nat, pc: Pc): State
    requires t < |s.tasks|
  {
    s.(tasks := s.tasks[t := s.tasks[t].(pc := pc)])
  }

  function Woken(d: Task): Task {
    match d.pc
    case Queued(_) => d.(pc := Queued(true))
    case Asleep(_) => d.(pc := Asleep(true))
    case _ => d
  }

  function Apply(s: State, a: Action): State
    requires Enabled(s, a)
  {
    var d := s.tasks[a.t];
    match a
    case Call(t) => At(s, t, Trying)
    case OpenSection(t, writeOnly) =>
      if !Available(s, d) then At(s, t, Waiting)
      else At(s, t, if writeOnly then Trimming else Holding).(owner := if s.count == 0 then d.user.uid else s.owner, count := s.count + 1)
    case GiveUp(t) => At(s, t, Outside)
    case TestCondition(t) => At(s, t, if Available(s, d) then Trying else Queued(false))
    case TestAgain(t) => At(s, t, if Available(s, d) then Trying else Asleep(d.pc.woken))
    case WakeUp(t) => At(s, t, Queued(false))
    case Signal(t) => At(s, t, Outside)
    case Release(t) => At(s, t, if s.count - 1 == 0 then Owing else Outside).(count := s.count - 1)
    case WakeOthers(t) => At(s.(tasks := seq(|s.tasks|, i requires 0 <= i < |s.tasks| => Woken(s.tasks[i]))), t, Outside)
    case Trim(t) => At(s, t, Holding).(generation := s.generation + 1)
    case StartCopy(t) => At(s, t, Copying(s.generation)).(mutex := Some(t))
    case EndCopy(t) => At(s, t, Holding).(mutex := None)
  }

  predicate StepBy(s: State, a: Action, s': State) {
    Enabled(s, a) && s' == Apply(s, a)
  }

  ghost predicate Next(s: State, s': State) {
    exists a :: StepBy(s, a, s')
  }

  ghost predicate IsRun(run: seq<State>) {
    && 0 < |run| && Init(run[0])
    && forall i :: 0 < i < |run| ==> Next(run[i - 1], run[i])
  }

  predicate Inside(d: Task) {
    d.pc.Trimming? || d.pc.Holding? || d.pc.Copying?
  }

  const Holds := (d: Task) => Inside(d)

  /** The count is the number of openings. */
  predicate Counted(s: State) {
    s.count == Count(s.tasks, Holds)
  }

  /** Everybody who has the device open matches its owner. */
  predicate OneUser(s: State) {
    forall t :: 0 <= t < |s.tasks| && Inside(s.tasks[t]) ==> Matches(s.owner, s.tasks[t].user)
  }

  ghost predicate Owed(s: State) {
    exists t :: 0 <= t < |s.tasks| && s.tasks[t].pc.Owing?
  }

  /** A task sleeps on only while it may not open the device, or while a wake-up is still owed. */
  ghost predicate Covered(s: State) {
    forall t :: 0 <= t < |s.tasks| && s.tasks[t].pc == Asleep(false) ==> !Available(s, s.tasks[t]) || Owed(s)
  }

  /** The mutex is held by the one task that copies. */
  predicate Exclusive(s: State) {
    && (s.mutex.Some? ==> s.mutex.value < |s.tasks|)
    && forall t :: 0 <= t < |s.tasks| ==> (s.tasks[t].pc.Copying? <==> s.mutex == Some(t))
  }

  ghost predicate Inv(s: State) {
    Counted(s) && OneUser(s) && Covered(s) && Exclusive(s)
  }

  lemma {:induction false} WakingCountsNobody(tasks: seq<Task>, tasks': seq<Task>)
    requires |tasks'| == |tasks| && forall i :: 0 <= i < |tasks| ==> tasks'[i] == Woken(tasks[i])
    ensures Count(tasks', Holds) == Count(tasks, Holds)
  {
    if tasks != [] {
      WakingCountsNobody(tasks[1..], tasks'[1..]);
    }
  }

  lemma StepKeepsCounted(s: State, a: Action)
    requires Counted(s) && Enabled(s, a)
    ensures Counted(Apply(s, a))
  {
    var s' := Apply(s, a);
    if a.WakeOthers? {
      var woken := seq(|s.tasks|, i requires 0 <= i < |s.tasks| => Woken(s.tasks[i]));
      WakingCountsNobody(s.tasks, woken);
      CountChanges(woken, a.t, s'.tasks[a.t], Holds);
    } else {
      CountChanges(s.tasks, a.t, s'.tasks[a.t], Holds);
    }
  }

  /** The owner changes only while nobody has the device open, so all openings are by one user. */
  lemma StepKeepsOneUser(s: State, a: Action)
    requires Counted(s) && OneUser(s) && Enabled(s, a)
    ensures OneUser(Apply(s, a))
    ensures 0 < s.count ==> Apply(s, a).owner == s.owner
  {
    CountNone(s.tasks, Holds);
  }

  lemma StepKeepsExclusive(s: State, a: Action)
    requires Exclusive(s) && Enabled(s, a)
    ensures Exclusive(Apply(s, a))
  {
  }

  lemma StepKeepsCovered(s: State, a: Action)
    requires Counted(s) && Covered(s) && Enabled(s, a)
    ensures Covered(Apply(s, a))
  {
    var s' := Apply(s, a);
    if Owed(s) && !a.WakeOthers? {
      var u :| 0 <= u < |s.tasks| && s.tasks[u].pc.Owing?;
      assert s'.tasks[u].pc.Owing?;
    }
    if a.Release? && s.count - 1 == 0 {
      assert s'.tasks[a.t].pc.Owing?;
    }
  }

  lemma {:induction false} RunKeepsInv(run: seq<State>, i: nat)
    requires IsRun(run) && i < |run|
    ensures Inv(run[i])
  {
    if i == 0 {
      CountNone(run[0].tasks, Holds);
    } else {
      RunKeepsInv(run, i - 1);
      assert Next(run[i - 1], run[i]);
      var a :| StepBy(run[i - 1], a, run[i]);
      StepKeepsCounted(run[i - 1], a);
      StepKeepsOneUser(run[i - 1], a);
      StepKeepsCovered(run[i - 1], a);
      StepKeepsExclusive(run[i - 1], a);
    }
  }

  /** Whoever has the device open without the capability is its owner or has taken his identity. */
  lemma HoldersAreTheOwner(run: seq<State>, i: nat, t: nat)
    requires IsRun(run) && i < |run| && t < |run[i].tasks|
    requires run[i].tasks[t].pc.Trimming? || run[i].tasks[t].pc.Holding? || run[i].tasks[t].pc.Copying?
    ensures var u := run[i].tasks[t].user; u.capable || u.uid == run[i].owner || u.euid == run[i].owner
  {
    RunKeepsInv(run, i);
  }

  /** Nobody has the device open, or the task runs for its owner, under his identity, or with the capability. */
  predicate MayOpen(s: State, t: nat)
    requires t < |s.tasks|
  {
    s.count == 0 || s.tasks[t].user.capable || s.tasks[t].user.uid == s.owner || s.tasks[t].user.euid == s.owner
  }

  /** A test of the device lets exactly such a task on; the first to open it becomes its owner. */
  lemma TestsAdmitExactly(s: State, a: Action)
    requires Enabled(s, a) && (a.OpenSection? || a.TestCondition? || a.TestAgain?)
    ensures var s' := Apply(s, a);
      && (a.OpenSection? ==> (Inside(s'.tasks[a.t]) <==> MayOpen(s, a.t)) && (s'.tasks[a.t].pc.Waiting? <==> !MayOpen(s, a.t)))
      && (!a.OpenSection? ==> (s'.tasks[a.t].pc.Trying? <==> MayOpen(s, a.t)) && s'.count == s.count && s'.owner == s.owner)
      && (a.OpenSection? && MayOpen(s, a.t) ==> s'.count == s.count + 1 && s'.owner == if s.count == 0 then s.tasks[a.t].user.uid else s.owner)
  {
  }

  // ----- waiting

  /** The steps of a path, and what may follow each. */
  ghost predicate Steps(path: seq<State>, acts: seq<Action>) {
    |path| == |acts| + 1 && forall i :: 0 <= i < |acts| ==> StepBy(path[i], acts[i], path[i + 1])
  }

  predicate InCall(d: Task) {
    d.pc.Trying? || d.pc.Waiting? || d.pc.Queued? || d.pc.Asleep?
  }

  function Own(t: nat): Action -> bool {
    (a: Action) => a.t == t
  }

  /** How many steps of its own an admitted task is away from having the device open. */
  function Away(d: Task): nat
    requires InCall(d)
  {
    match d.pc
    case Trying => 1
    case Waiting => 2
    case Queued(_) => 2
    case Asleep(_) => 3
  }

  /** An admitted task that does not give up comes nearer with each step of its own, and no step of another takes it back. */
  lemma StepLetsIn(s: State, a: Action, t: nat)
    requires Enabled(s, a) && t < |s.tasks| && InCall(s.tasks[t]) && MayOpen(s, t) && a != GiveUp(t) && a != Signal(t)
    ensures t < |Apply(s, a).tasks|
    ensures var d := Apply(s, a).tasks[t];
      d.user == s.tasks[t].user && if InCall(d) then Away(d) + (if a.t == t then 1 else 0) <= Away(s.tasks[t]) else Inside(d)
  {
  }

  lemma {:induction false} StepsLetIn(path: seq<State>, acts: seq<Action>, t: nat)
    requires Steps(path, acts) && t < |path[0].tasks| && InCall(path[0].tasks[t])
    requires forall k :: 0 <= k < |acts| ==> acts[k] != GiveUp(t) && acts[k] != Signal(t)
    requires forall k :: 0 <= k < |acts| && t < |path[k].tasks| ==> MayOpen(path[k], t)
    ensures |path[|acts|].tasks| == |path[0].tasks|
    ensures (exists k :: 0 <= k <= |acts| && IsIn(path[k], t)) ||
      (InCall(path[|acts|].tasks[t]) && Away(path[|acts|].tasks[t]) + Count(acts, Own(t)) <= Away(path[0].tasks[t]))
  {
    hide Apply, Enabled, MayOpen, Away, InCall, Inside;
    if acts != [] {
      var n := |acts| - 1;
      CountLast(acts, Own(t));
      StepsLetIn(path[..n + 1], acts[..n], t);
      assert StepBy(path[n], acts[n], path[n + 1]);
      if !(exists k :: 0 <= k <= n && IsIn(path[k], t)) {
        assert forall k :: 0 <= k <= n ==> path[..n + 1][k] == path[k];
        StepLetsIn(path[n], acts[n], t);
        assert !InCall(path[n + 1].tasks[t]) ==> IsIn(path[n + 1], t);
      }
      TasksStay(path[n], acts[n]);
    }
  }

  lemma TasksStay(s: State, a: Action)
    requires Enabled(s, a)
    ensures |Apply(s, a).tasks| == |s.tasks|
  {
  }

  predicate IsIn(s: State, t: nat) {
    t < |s.tasks| && Inside(s.tasks[t])
  }

  /**
    Nobody who may open the device is left waiting.  As long as that is so and it does not give up, a task in its
    call has the device open after at most three steps of its own, and such a step can be made, unless it sleeps and
    somebody is about to wake it.
   */
  lemma AdmittedGetIn(run: seq<State>, path: seq<State>, acts: seq<Action>, t: nat)
    requires IsRun(run) && Steps(path, acts) && path[0] == run[|run| - 1] && t < |path[0].tasks| && InCall(path[0].tasks[t])
    requires forall k :: 0 <= k < |acts| ==> acts[k] != GiveUp(t) && acts[k] != Signal(t)
    requires forall k :: 0 <= k <= |acts| && t < |path[k].tasks| ==> MayOpen(path[k], t)
    requires forall k :: 0 <= k <= |acts| ==> !IsIn(path[k], t)
    ensures Count(acts, Own(t)) < 3
    ensures (exists a: Action :: a.t == t && Enabled(path[|acts|], a)) || Owed(path[|acts|])
  {
    StepsLetIn(path, acts, t);
    StepsKeepInv(run, path, acts);
    var s := path[|acts|];
    var a := match s.tasks[t].pc
      case Trying => OpenSection(t, false)
      case Waiting => TestCondition(t)
      case Queued(_) => TestAgain(t)
      case _ => WakeUp(t);
    assert a.t == t && (Enabled(s, a) || s.tasks[t].pc == Asleep(false));
  }

  lemma {:induction false} StepsKeepInv(run: seq<State>, path: seq<State>, acts: seq<Action>)
    requires IsRun(run) && Steps(path, acts) && path[0] == run[|run| - 1]
    ensures Inv(path[|acts|])
  {
    hide Apply, Enabled, Inv, Init;
    if acts == [] {
      RunKeepsInv(run, |run| - 1);
    } else {
      var n := |acts| - 1;
      StepsKeepInv(run, path[..n + 1], acts[..n]);
      assert StepBy(path[n], acts[n], path[n + 1]);
      StepKeepsInv(path[n], acts[n]);
    }
  }

  lemma StepKeepsInv(s: State, a: Action)
    requires Inv(s) && Enabled(s, a)
    ensures Inv(Apply(s, a))
  {
    StepKeepsCounted(s, a);
    StepKeepsOneUser(s, a);
    StepKeepsCovered(s, a);
    StepKeepsExclusive(s, a);
  }

  /** As long as somebody has the device open the whole time, it keeps its owner. */
  lemma {:induction false} OwnerIsFixed(run: seq<State>, i: nat, j: nat)
    requires IsRun(run) && i <= j < |run|
    requires forall k :: i <= k < j ==> 0 < run[k].count
    ensures run[j].owner == run[i].owner
  {
    if i < j {
      OwnerIsFixed(run, i, j - 1);
      RunKeepsInv(run, j - 1);
      assert Next(run[j - 1], run[j]);
      var a :| StepBy(run[j - 1], a, run[j]);
      StepKeepsOneUser(run[j - 1], a);
    }
  }

  /** Once everything has come to rest with the device closed, nobody is left asleep. */
  lemma ClosedMeansAwake(run: seq<State>, i: nat)
    requires IsRun(run) && i < |run| && run[i].count == 0
    requires forall t :: 0 <= t < |run[i].tasks| ==> !run[i].tasks[t].pc.Owing?
    ensures forall t :: 0 <= t < |run[i].tasks| ==> run[i].tasks[t].pc != Asleep(false)
  {
    RunKeepsInv(run, i);
  }

  // ----- leaving

  /** How many steps a task is away from being outside, if it begins nothing new and waits no longer. */
  function Leaving(d: Task): nat {
    match d.pc
    case Outside => 0
    case Owing => 1
    case Holding => 2
    case Trimming => 3
    case Copying(_) => 3
    case _ => 1
  }

  /** Steps that open, test or copy nothing. */
  predicate Ends(a: Action) {
    a.GiveUp? || a.Signal? || a.Release? || a.WakeOthers? || a.Trim? || a.EndCopy?
  }

  /** Each step that ends something brings its task nearer to being outside, and a task that has the device open can always make one. */
  lemma LeavesInTheEnd(s: State, t: nat)
    requires t < |s.tasks|
    ensures Inside(s.tasks[t]) || s.tasks[t].pc.Owing? ==> exists a: Action :: a.t == t && Ends(a) && Enabled(s, a)
    ensures forall a: Action :: a.t == t && Ends(a) && Enabled(s, a) ==> Leaving(Apply(s, a).tasks[t]) < Leaving(s.tasks[t])
  {
    var a := match s.tasks[t].pc
      case Trimming => Trim(t)
      case Copying(_) => EndCopy(t)
      case Holding => Release(t)
      case _ => WakeOthers(t);
    assert Inside(s.tasks[t]) || s.tasks[t].pc.Owing? ==> a.t == t && Ends(a) && Enabled(s, a);
  }

  // ----- trims under copies

  /** Some task copies to or from a block that has been freed. */
  predicate CopiesFreed(s: State) {
    exists t :: 0 <= t < |s.tasks| && s.tasks[t].pc.Copying? && s.tasks[t].pc.generation != s.generation
  }

  predicate SomebodyCopies(s: State) {
    exists t :: 0 <= t < |s.tasks| && s.tasks[t].pc.Copying?
  }

  /** An open that nobody interrupts: the section, and then the trim if there is one. */
  function Opened(s: State, t: nat, writeOnly: bool): State
    requires Enabled(s, OpenSection(t, writeOnly))
  {
    var s' := Apply(s, OpenSection(t, writeOnly));
    if s'.tasks[t].pc.Trimming? then Apply(s', Trim(t)) else s'
  }

  /** An open frees blocks under a copy exactly if it is write-only and admitted, and another holder is copying. */
  lemma OpenFreesExactly(run: seq<State>, i: nat, t: nat, writeOnly: bool)
    requires IsRun(run) && i < |run| && Enabled(run[i], OpenSection(t, writeOnly)) && !CopiesFreed(run[i])
    ensures var s := run[i];
      CopiesFreed(Opened(s, t, writeOnly)) <==> writeOnly && Available(s, s.tasks[t]) && SomebodyCopies(s)
  {
    var s := run[i];
    var s' := Opened(s, t, writeOnly);
    if u :| 0 <= u < |s.tasks| && s.tasks[u].pc.Copying? {
      assert u != t && s'.tasks[u] == s.tasks[u];
    }
  }

  /** Whoever is about to trim was admitted by a write-only open of its own. */
  lemma {:induction false} TrimsAfterOpen(run: seq<State>, i: nat, t: nat)
    requires IsRun(run) && i < |run| && t < |run[i].tasks| && run[i].tasks[t].pc.Trimming?
    ensures exists j :: 0 <= j < i && OpensForTrim(run, j, t)
  {
    assert Next(run[i - 1], run[i]);
    var a :| StepBy(run[i - 1], a, run[i]);
    BecomesTrimming(run[i - 1], a, t);
    hide Apply, Enabled, Init;
    if run[i - 1].tasks[t].pc.Trimming? {
      TrimsAfterOpen(run, i - 1, t);
    } else {
      assert OpensForTrim(run, i - 1, t);
    }
  }

  lemma BecomesTrimming(s: State, a: Action, t: nat)
    requires Enabled(s, a) && t < |Apply(s, a).tasks| && Apply(s, a).tasks[t].pc.Trimming?
    ensures t < |s.tasks|
    ensures !s.tasks[t].pc.Trimming? ==> a == OpenSection(t, true) && Available(s, s.tasks[t])
  {
  }

  predicate OpensForTrim(run: seq<State>, j: nat, t: nat) {
    j + 1 < |run| && StepBy(run[j], OpenSection(t, true), run[j + 1]) && Available(run[j], run[j].tasks[t])
  }

  // ----- an open with others at work

  ghost predicate IsPath(path: seq<State>) {
    0 < |path| && forall i :: 0 < i < |path| ==> Next(path[i - 1], path[i])
  }

  /** While `t` is about to trim, others may do what they like. */
  ghost predicate Meanwhile(path: seq<State>, t: nat) {
    IsPath(path) && forall i :: 0 <= i < |path| ==> t < |path[i].tasks| && path[i].tasks[t].pc.Trimming?
  }

  /** However the others go on, nobody is copying when `t` trims the device. */
  ghost predicate TrimsSafely(s: State, t: nat) {
    forall path: seq<State>, i :: Meanwhile(path, t) && path[0] == s && 0 <= i < |path| ==> !SomebodyCopies(path[i])
  }

  /** No other task has the device open or could open it. */
  predicate Alone(s: State, t: nat) {
    forall u :: 0 <= u < |s.tasks| && u != t ==> !Inside(s.tasks[u]) && !Matches(s.owner, s.tasks[u].user)
  }

  lemma InsideCounts(s: State, t: nat)
    requires Counted(s) && t < |s.tasks| && Inside(s.tasks[t])
    ensures 1 <= s.count
  {
    CountOne(s.tasks, t, Holds);
  }

  lemma StepKeepsAlone(s: State, a: Action, t: nat)
    requires Counted(s) && Enabled(s, a) && t < |s.tasks| && s.tasks[t].pc.Trimming? && Alone(s, t)
    requires Apply(s, a).tasks[t].pc.Trimming?
    ensures Alone(Apply(s, a), t)
  {
    InsideCounts(s, t);
  }

  lemma {:induction false} StaysAlone(path: seq<State>, i: nat, t: nat)
    requires Meanwhile(path, t) && i < |path| && Counted(path[0]) && Alone(path[0], t)
    ensures Counted(path[i]) && Alone(path[i], t)
  {
    if i > 0 {
      StaysAlone(path, i - 1, t);
      assert Next(path[i - 1], path[i]);
      var a :| StepBy(path[i - 1], a, path[i]);
      StepKeepsCounted(path[i - 1], a);
      StepKeepsAlone(path[i - 1], a, t);
    }
  }

  /** What brings task `u`, which may open the device, nearer to a copy. */
  function Towards(s: State, u: nat): Action
    requires u < |s.tasks| && !s.tasks[u].pc.Copying?
  {
    match s.tasks[u].pc
    case Outside => Call(u)
    case Trying => OpenSection(u, false)
    case Waiting => TestCondition(u)
    case Queued(_) => TestAgain(u)
    case Asleep(_) => Signal(u)
    case Trimming => Trim(u)
    case Holding => StartCopy(u)
    case Owing => WakeOthers(u)
  }

  function Rank(d: Task): nat {
    match d.pc
    case Copying(_) => 0
    case Holding => 1
    case Trimming => 2
    case Trying => 2
    case Outside => 3
    case Waiting => 3
    case Queued(_) => 3
    case Asleep(_) => 4
    case Owing => 4
  }

  lemma TowardsGoes(s: State, t: nat, u: nat)
    requires Counted(s) && t < |s.tasks| && u < |s.tasks| && t != u && s.tasks[t].pc.Trimming? && !s.tasks[u].pc.Copying?
    requires s.mutex == None && (Inside(s.tasks[u]) || Matches(s.owner, s.tasks[u].user))
    ensures Enabled(s, Towards(s, u))
    ensures var s' := Apply(s, Towards(s, u));
      && |s'.tasks| == |s.tasks| && s'.owner == s.owner && s'.tasks[t].pc.Trimming? && s'.tasks[u].user == s.tasks[u].user
      && Rank(s'.tasks[u]) < Rank(s.tasks[u]) && (Inside(s'.tasks[u]) || Matches(s'.owner, s'.tasks[u].user))
  {
    InsideCounts(s, t);
  }

  lemma MeanwhileGrows(s: State, a: Action, path: seq<State>, t: nat)
    requires Meanwhile(path, t) && Enabled(s, a) && Apply(s, a) == path[0] && t < |s.tasks| && s.tasks[t].pc.Trimming?
    ensures Meanwhile([s] + path, t)
  {
    var longer := [s] + path;
    assert StepBy(s, a, longer[1]);
    forall i | 0 < i < |longer|
      ensures Next(longer[i - 1], longer[i])
    {
      if i > 1 {
        assert Next(path[i - 2], path[i - 1]);
      }
    }
  }

  /** A task that has the device open, or may open it, can be copying while `t` is about to trim. */
  lemma {:induction false} OtherCopies(s: State, t: nat, u: nat) returns (path: seq<State>)
    requires Counted(s) && Exclusive(s) && t < |s.tasks| && u < |s.tasks| && t != u && s.tasks[t].pc.Trimming?
    requires Inside(s.tasks[u]) || Matches(s.owner, s.tasks[u].user)
    ensures Meanwhile(path, t) && path[0] == s && SomebodyCopies(path[|path| - 1])
    decreases Rank(s.tasks[u])
  {
    if s.mutex.Some? {
      path := [s];
      assert s.tasks[s.mutex.value].pc.Copying?;
    } else {
      TowardsGoes(s, t, u);
      var a := Towards(s, u);
      var s' := Apply(s, a);
      StepKeepsCounted(s, a);
      StepKeepsExclusive(s, a);
      var rest := OtherCopies(s', t, u);
      MeanwhileGrows(s, a, rest, t);
      path := [s] + rest;
    }
  }

  /** A task that has been admitted trims safely, whatever others do, exactly if nobody else has the device open or may open it. */
  lemma TrimsSafelyExactly(s: State, t: nat)
    requires Inv(s) && t < |s.tasks| && s.tasks[t].pc.Trimming?
    ensures TrimsSafely(s, t) <==> Alone(s, t)
  {
    if Alone(s, t) {
      forall path: seq<State>, i | Meanwhile(path, t) && path[0] == s && 0 <= i < |path|
        ensures !SomebodyCopies(path[i])
      {
        StaysAlone(path, i, t);
      }
    } else {
      var u: nat :| u < |s.tasks| && u != t && (Inside(s.tasks[u]) || Matches(s.owner, s.tasks[u].user));
      var path := OtherCopies(s, t, u);
      assert SomebodyCopies(path[|path| - 1]);
    }
  }

  /** So before the call: a write-only open that is admitted is safe exactly if nobody has the device open and nobody else matches the caller. */
  lemma OpenIsSafeExactly(run: seq<State>, i: nat, t: nat)
    requires IsRun(run) && i < |run| && Enabled(run[i], OpenSection(t, true)) && Available(run[i], run[i].tasks[t])
    ensures var s := run[i];
      TrimsSafely(Apply(s, OpenSection(t, true)), t) <==>
        s.count == 0 && forall u :: 0 <= u < |s.tasks| && u != t ==> !Matches(s.tasks[t].user.uid, s.tasks[u].user)
  {
    RunKeepsInv(run, i);
    var s, a := run[i], OpenSection(t, true);
    var s' := Apply(s, a);
    StepKeepsCounted(s, a);
    StepKeepsOneUser(s, a);
    StepKeepsCovered(s, a);
    StepKeepsExclusive(s, a);
    TrimsSafelyExactly(s', t);
    CountNone(s.tasks, Holds);
    assert forall u :: 0 <= u < |s.tasks| && u != t ==> s'.tasks[u] == s.tasks[u];
  }

  /** Two tasks of one user: the first copies, the second opens for writing only and empties the device. */
  function TwoOpeners(u: User): seq<State> {
    [ State(0, 0, 0, None, [Task(u, Outside), Task(u, Outside)]),
      State(0, 0, 0, None, [Task(u, Trying), Task(u, Outside)]),
      State(1, u.uid, 0, None, [Task(u, Holding), Task(u, Outside)]),
      State(1, u.uid, 0, Some(0), [Task(u, Copying(0)), Task(u, Outside)]),
      State(1, u.uid, 0, Some(0), [Task(u, Copying(0)), Task(u, Trying)]),
      State(2, u.uid, 0, Some(0), [Task(u, Copying(0)), Task(u, Trimming)]),
      State(2, u.uid, 1, Some(0), [Task(u, Copying(0)), Task(u, Holding)]) ]
  }

  /** The first goes on copying to a block that is gone. */
  lemma FreedUnderCopy(u: User)
    ensures IsRun(TwoOpeners(u)) && CopiesFreed(TwoOpeners(u)[6])
  {
    var run := TwoOpeners(u);
    assert StepBy(run[0], Call(0), run[1]);
    assert StepBy(run[1], OpenSection(0, false), run[2]);
    assert StepBy(run[2], StartCopy(0), run[3]);
    assert StepBy(run[3], Call(1), run[4]);
    assert StepBy(run[4], OpenSection(1, true), run[5]);
    assert StepBy(run[5], Trim(1), run[6]);
    assert run[6].tasks[0].pc.Copying?;
  }
}
