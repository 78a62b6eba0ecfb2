/**
  The open pipe goes on: without new calls, and as long as nobody is interrupted, refuses to block or faults, every
  task makes only so many steps, and until all of them rest there is a step to make.
 */
module PipeProgress {
  import opened Counting
  import opened Kernel
  import opened Pipe
  import opened PipeProtocol

  datatype Kind = Moves | Wakes | Plain

  /** A step of task `t`: it moves bytes, wakes the other side, or neither. */
  datatype Step = Step(t: nat, kind: Kind)

  /** In a call whose bytes have not been moved yet. */
  predicate Unserved(d: Task) {
    !d.pc.Idle? && !d.OwesWriters() && !d.OwesReaders()
  }

  const InCall := (d: Task) => Unserved(d)
  const Owing := (d: Task) => d.OwesWriters() || d.OwesReaders()

  function KindOf(before: Task, after: Task): Kind {
    if after.pc.ReadDone? || after.pc.WriteDone? then Moves
    else if before.pc.ReadWake? || before.pc.WriteWake? then Wakes
    else Plain
  }

  /** A step of a call that is under way and does not end early. */
  ghost predicate GoesOn(s: State, s': State, t: nat) {
    && s.ring.Valid() && t < |s.tasks| == |s'.tasks| && !s.tasks[t].pc.Idle?
    && (ReadStep(s, s', t) || WriteStep(s, s', t))
    && (s'.tasks[t].pc.Idle? ==> s.tasks[t].pc.ReadWake? || s.tasks[t].pc.WriteWake?)
  }

  ghost predicate IsWalk(path: seq<State>, steps: seq<Step>) {
    && |path| == |steps| + 1
    && forall i :: 0 <= i < |steps| ==>
         GoesOn(path[i], path[i + 1], steps[i].t) && steps[i].kind == KindOf(path[i].tasks[steps[i].t], path[i + 1].tasks[steps[i].t])
  }

  const Moving := (x: Step) => x.kind.Moves?
  const Waking := (x: Step) => x.kind.Wakes?

  function Own(t: nat): Step -> bool {
    (x: Step) => x.t == t
  }

  function ReadRank(d: Task, empty: bool): nat
    requires d.pc.ReadLock? || d.pc.ReadTest? || d.pc.ReadOut? || d.pc.ReadQueued? || d.pc.ReadAsleep?
  {
    match d.pc
    case ReadTest(_) => 3
    case ReadLock(_) => 4
    case ReadOut(_) => if empty then 2 else 6
    case ReadQueued(_) => if !empty then 5 else if d.woken then 3 else 1
    case ReadAsleep(_) => if !d.woken then 0 else if empty then 2 else 6
  }

  function WriteRank(d: Task, full: bool): nat
    requires d.pc.WriteLock? || d.pc.WriteTest? || d.pc.WriteOut? || d.pc.WriteQueued? || d.pc.WriteAsleep?
  {
    match d.pc
    case WriteTest(_) => 3
    case WriteLock(_) => 4
    case WriteOut(_) => if full then 2 else 6
    case WriteQueued(_) => if !full then 5 else if d.woken then 6 else 1
    case WriteAsleep(_) => if !d.woken then 0 else 5
  }

  /** How many steps a task can make before it rests, if nobody moves bytes or wakes it. */
  function Rank(d: Task, empty: bool, full: bool): (r: nat)
    ensures r <= 6
  {
    match d.pc
    case Idle => 0
    case ReadDone => 2
    case WriteDone => 2
    case ReadWake => 1
    case WriteWake => 1
    case ReadLock(_) => ReadRank(d, empty)
    case ReadTest(_) => ReadRank(d, empty)
    case ReadOut(_) => ReadRank(d, empty)
    case ReadQueued(_) => ReadRank(d, empty)
    case ReadAsleep(_) => ReadRank(d, empty)
    case _ => WriteRank(d, full)
  }

  function RankIn(s: State, t: nat): nat
    requires s.ring.Valid() && t < |s.tasks|
  {
    Rank(s.tasks[t], s.ring.Empty(), s.ring.SpaceFree() == 0)
  }

  /** What a step that moves no bytes and wakes nobody leaves alone. */
  lemma PlainStep(s: State, s': State, t: nat)
    requires GoesOn(s, s', t) && KindOf(s.tasks[t], s'.tasks[t]).Plain?
    ensures s'.ring == s.ring && forall u :: 0 <= u < |s.tasks| && u != t ==> s'.tasks[u] == s.tasks[u]
    ensures Unserved(s'.tasks[t]) == Unserved(s.tasks[t]) && s'.tasks[t].OwesWriters() == s.tasks[t].OwesWriters() && s'.tasks[t].OwesReaders() == s.tasks[t].OwesReaders()
  {
    hide Ring.Queue, Ring.AfterRead, Ring.AfterWrite, Ring.ReadCount, Ring.WriteCount, Ring.SpaceFree, Ring.Empty, Ring.Filled;
  }

  /** A task's own step brings it nearer to rest. */
  lemma OwnStepComesNearer(s: State, s': State, t: nat)
    requires GoesOn(s, s', t) && s'.ring.Valid()
    ensures RankIn(s', t) < RankIn(s, t)
  {
    hide ReadStep, WriteStep, RankIn;
    if ReadStep(s, s', t) {
      ReadComesNearer(s, s', t);
    } else {
      WriteComesNearer(s, s', t);
    }
  }

  lemma ReadComesNearer(s: State, s': State, t: nat)
    requires GoesOn(s, s', t) && ReadStep(s, s', t) && s'.ring.Valid()
    ensures RankIn(s', t) < RankIn(s, t)
  {
    hide WriteStep, Ring.Valid, Ring.Queue, Ring.AfterRead, Ring.ReadCount, Ring.SpaceFree, Ring.Empty;
  }

  lemma WriteComesNearer(s: State, s': State, t: nat)
    requires GoesOn(s, s', t) && WriteStep(s, s', t) && s'.ring.Valid()
    ensures RankIn(s', t) < RankIn(s, t)
  {
    hide ReadStep, Ring.Valid, Ring.AfterWrite, Ring.WriteCount, Ring.SpaceFree, Ring.Empty, Ring.Filled;
  }

  /** What any step leaves alone of the other tasks. */
  lemma OthersStay(s: State, s': State, t: nat)
    requires GoesOn(s, s', t)
    ensures forall u :: 0 <= u < |s.tasks| && u != t ==> s'.tasks[u].pc == s.tasks[u].pc
    ensures !KindOf(s.tasks[t], s'.tasks[t]).Plain? && !KindOf(s.tasks[t], s'.tasks[t]).Wakes? ==> Unserved(s.tasks[t]) && !Unserved(s'.tasks[t]) && Owing(s'.tasks[t]) && !Owing(s.tasks[t])
    ensures KindOf(s.tasks[t], s'.tasks[t]).Wakes? ==> !Unserved(s.tasks[t]) && !Unserved(s'.tasks[t]) && Owing(s.tasks[t]) && !Owing(s'.tasks[t])
  {
    hide Ring.Queue, Ring.AfterRead, Ring.AfterWrite, Ring.ReadCount, Ring.WriteCount, Ring.SpaceFree, Ring.Empty, Ring.Filled;
  }

  /** Tasks at the same places count alike, but for one of them. */
  lemma {:induction false} CountAlike(a: seq<Task>, b: seq<Task>, t: nat, p: Task -> bool)
    requires |a| == |b| && t < |a|
    requires forall u :: 0 <= u < |a| && u != t ==> p(a[u]) == p(b[u])
    ensures Count(b, p) + (if p(a[t]) then 1 else 0) == Count(a, p) + if p(b[t]) then 1 else 0
  {
    if t == 0 {
      CountSame(a[1..], b[1..], p);
    } else {
      CountAlike(a[1..], b[1..], t - 1, p);
    }
  }

  lemma {:induction false} CountSame(a: seq<Task>, b: seq<Task>, p: Task -> bool)
    requires |a| == |b| && forall u :: 0 <= u < |a| ==> p(a[u]) == p(b[u])
    ensures Count(a, p) == Count(b, p)
  {
    if a != [] {
      CountSame(a[1..], b[1..], p);
    }
  }

  /** Bytes are moved once for each call, and there is one wake-up for each move. */
  lemma StepServes(s: State, s': State, t: nat)
    requires GoesOn(s, s', t)
    ensures var kind := KindOf(s.tasks[t], s'.tasks[t]);
      && Count(s'.tasks, InCall) + (if kind.Moves? then 1 else 0) == Count(s.tasks, InCall)
      && Count(s'.tasks, Owing) + (if kind.Wakes? then 1 else 0) == Count(s.tasks, Owing) + if kind.Moves? then 1 else 0
  {
    OthersStay(s, s', t);
    if KindOf(s.tasks[t], s'.tasks[t]).Plain? {
      PlainStep(s, s', t);
    }
    hide GoesOn;
    CountAlike(s.tasks, s'.tasks, t, InCall);
    CountAlike(s.tasks, s'.tasks, t, Owing);
  }

  lemma Shorter(path: seq<State>, steps: seq<Step>)
    requires IsWalk(path, steps) && steps != []
    ensures var n := |steps| - 1;
      && IsWalk(path[..n + 1], steps[..n]) && GoesOn(path[n], path[n + 1], steps[n].t)
      && steps[n].kind == KindOf(path[n].tasks[steps[n].t], path[n + 1].tasks[steps[n].t])
  {
    hide GoesOn, KindOf;
  }

  lemma {:induction false} WalkServes(path: seq<State>, steps: seq<Step>)
    requires IsWalk(path, steps)
    ensures |path[|steps|].tasks| == |path[0].tasks|
    ensures Count(path[|steps|].tasks, InCall) + Count(steps, Moving) == Count(path[0].tasks, InCall)
    ensures Count(steps, Waking) <= Count(path[0].tasks, Owing) + Count(steps, Moving)
    ensures Count(path[|steps|].tasks, Owing) + Count(steps, Waking) == Count(path[0].tasks, Owing) + Count(steps, Moving)
  {
    hide GoesOn, KindOf, Unserved;
    if steps != [] {
      var n := |steps| - 1;
      Shorter(path, steps);
      WalkServes(path[..n + 1], steps[..n]);
      StepServes(path[n], path[n + 1], steps[n].t);
      CountLast(steps, Moving);
      CountLast(steps, Waking);
      SameTasks(path[n], path[n + 1], steps[n].t);
    }
  }

  lemma SameTasks(s: State, s': State, t: nat)
    requires GoesOn(s, s', t)
    ensures |s'.tasks| == |s.tasks|
  {
  }

  lemma {:induction false} WalkKeepsInv(path: seq<State>, steps: seq<Step>)
    requires IsWalk(path, steps) && Inv(path[0])
    ensures Inv(path[|steps|])
  {
    hide GoesOn, KindOf, Inv;
    if steps != [] {
      var n := |steps| - 1;
      Shorter(path, steps);
      WalkKeepsInv(path[..n + 1], steps[..n]);
      GoesOnIsNext(path[n], path[n + 1], steps[n].t);
      StepKeepsInv(path[n], path[n + 1]);
    }
  }

  lemma GoesOnIsNext(s: State, s': State, t: nat)
    requires GoesOn(s, s', t)
    ensures Next(s, s')
  {
    hide ReadStep, WriteStep;
  }

  /** A task's steps are paid for by its rank, and by the moves and wake-ups of all. */
  lemma {:induction false} OwnStepsAreFew(path: seq<State>, steps: seq<Step>, t: nat)
    requires IsWalk(path, steps) && Inv(path[0]) && t < |path[0].tasks|
    ensures |path[|steps|].tasks| == |path[0].tasks| && path[0].ring.Valid() && path[|steps|].ring.Valid()
    ensures RankIn(path[|steps|], t) + Count(steps, Own(t)) <= RankIn(path[0], t) + 6 * (Count(steps, Moving) + Count(steps, Waking))
  {
    hide GoesOn, KindOf, Inv, Rank, Ring.Valid, Ring.SpaceFree, Ring.Empty;
    InvIsValid(path[0]);
    if steps != [] {
      var n := |steps| - 1;
      Shorter(path, steps);
      OwnStepsAreFew(path[..n + 1], steps[..n], t);
      WalkKeepsInv(path, steps);
      InvIsValid(path[n + 1]);
      CountLast(steps, Moving);
      CountLast(steps, Waking);
      CountLast(steps, Own(t));
      SameTasks(path[n], path[n + 1], steps[n].t);
      if steps[n].t == t {
        OwnStepComesNearer(path[n], path[n + 1], t);
      } else if steps[n].kind.Plain? {
        PlainStep(path[n], path[n + 1], steps[n].t);
      }
    }
  }

  lemma InvIsValid(s: State)
    requires Inv(s)
    ensures s.ring.Valid()
  {
  }

  lemma {:induction false} CountAtMost(tasks: seq<Task>)
    ensures Count(tasks, InCall) + Count(tasks, Owing) <= |tasks|
  {
    if tasks != [] {
      CountAtMost(tasks[1..]);
    }
  }

  /**
    From any reachable state, without new calls, interruptions and faults: bytes are moved at most once by each
    task, and each task makes no more than six steps and twelve for every task there is, in whatever order.
   */
  lemma CallsComeToRest(run: seq<State>, path: seq<State>, steps: seq<Step>, t: nat)
    requires IsRun(run) && IsWalk(path, steps) && path[0] == run[|run| - 1] && t < |path[0].tasks|
    ensures Count(steps, Moving) <= |path[0].tasks|
    ensures Count(steps, Own(t)) <= 6 + 12 * |path[0].tasks|
  {
    hide Next, Init, Inv, GoesOn, KindOf, Rank, Count;
    RunKeepsInv(run, |run| - 1);
    WalkServes(path, steps);
    OwnStepsAreFew(path, steps, t);
    CountAtMost(path[0].tasks);
    RankIsSmall(path[0], t);
  }

  lemma RankIsSmall(s: State, t: nat)
    requires s.ring.Valid() && t < |s.tasks|
    ensures RankIn(s, t) <= 6
  {
  }

  /** As long as not every task rests, there is such a step to make. */
  lemma NeverStuck(run: seq<State>, i: nat) returns (t: nat, s': State)
    requires IsRun(run) && i < |run| && exists u :: 0 <= u < |run[i].tasks| && !Parked(run[i].tasks[u])
    ensures GoesOn(run[i], s', t)
  {
    RunKeepsInv(run, i);
    hide Next, Init, IsRun;
    var s := run[i];
    if s.lock.Some? {
      t := s.lock.value;
      s' := HolderGoesOn(s, t);
    } else {
      t :| 0 <= t < |s.tasks| && !Parked(s.tasks[t]);
      s' := FreeGoesOn(s, t);
    }
  }

  /** And a task that is not in a call can begin one at any time. */
  lemma CanBegin(s: State, t: nat, count: nat, data: seq<byte>)
    requires s.ring.Valid() && t < |s.tasks| && s.tasks[t].pc.Idle?
    ensures Next(s, s.At(t, ReadLock(count))) && Next(s, s.At(t, WriteLock(data)))
  {
    assert ReadStep(s, s.At(t, ReadLock(count)), t);
    assert WriteStep(s, s.At(t, WriteLock(data)), t);
  }

  lemma HolderGoesOn(s: State, t: nat) returns (s': State)
    requires s.ring.Valid() && t < |s.tasks| && s.tasks[t].Locking()
    ensures GoesOn(s, s', t)
  {
    hide Ring.Queue, Ring.AfterRead, Ring.AfterWrite, Ring.ReadCount, Ring.WriteCount, Ring.SpaceFree, Ring.Empty, Ring.Filled;
    match s.tasks[t].pc {
      case ReadTest(count) =>
        s' := if s.ring.Empty() then s.Release(t, ReadOut(count)) else s.At(t, ReadDone).(
             ring := s.ring.AfterRead(count),
             delivered := s.delivered + s.ring.Queue()[..Min(s.ring.ReadCount(count), |s.ring.Queue()|)]);
      case WriteTest(data) =>
        s' := if s.ring.SpaceFree() == 0 then s.Release(t, WriteOut(data)) else s.At(t, WriteDone).(
             ring := s.ring.AfterWrite(data),
             accepted := s.accepted + data[..s.ring.WriteCount(|data|)]);
      case ReadDone => s' := s.Release(t, ReadWake);
      case WriteDone => s' := s.Release(t, WriteWake);
    }
  }

  lemma FreeGoesOn(s: State, t: nat) returns (s': State)
    requires s.ring.Valid() && t < |s.tasks| && s.lock == None && !s.tasks[t].Locking() && !Parked(s.tasks[t])
    ensures GoesOn(s, s', t)
  {
    hide Ring.Queue, Ring.SpaceFree, Ring.Empty;
    match s.tasks[t].pc {
      case ReadLock(count) => s' := s.Acquire(t, ReadTest(count));
      case ReadWake => s' := s.WakeWriters().At(t, Idle);
      case ReadOut(count) => s' := s.Queue(t, ReadQueued(count));
      case ReadQueued(count) => s' := if !s.ring.Empty() then s.At(t, ReadLock(count)) else s.At(t, ReadAsleep(count));
      case ReadAsleep(count) => s' := s.Queue(t, ReadQueued(count));
      case WriteLock(data) => s' := s.Acquire(t, WriteTest(data));
      case WriteWake => s' := s.WakeReaders().At(t, Idle);
      case WriteOut(data) => s' := s.Queue(t, WriteQueued(data));
      case WriteQueued(data) => s' := if s.ring.SpaceFree() > 0 then s.At(t, WriteLock(data)) else s.At(t, WriteAsleep(data));
      case WriteAsleep(data) => s' := s.At(t, WriteLock(data));
    }
  }
}
