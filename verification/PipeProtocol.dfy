/**
  Any number of readers and writers of one open pipe, interleaved at every lock operation, wait-queue
  operation and unlocked test.  Between two opens nothing resets the pointers.
 */
module PipeProtocol {
  import opened Kernel
  import opened Pipe

  /** Where a task is in read or write. */
  datatype Pc =
    | Idle
    // scull_p_read
    | ReadLock(count: nat)      // about to take the mutex
    | ReadTest(count: nat)      // holds it, about to test for data
    | ReadDone                  // took its data, about to release the mutex
    | ReadWake                  // about to wake the writers
    | ReadOut(count: nat)       // found no data and released the mutex
    | ReadQueued(count: nat)    // on the wait queue, about to test again
    | ReadAsleep(count: nat)    // tested in vain: sleeps unless woken since it queued
    // scull_p_write
    | WriteLock(data: seq<byte>)
    | WriteTest(data: seq<byte>)
    | WriteDone
    | WriteWake
    | WriteOut(data: seq<byte>)
    | WriteQueued(data: seq<byte>)
    | WriteAsleep(data: seq<byte>)

  /** `woken` is set when a task on a wait queue is made runnable, and cleared when it queues again. */
  datatype Task = Task(pc: Pc, woken: bool)
  {
    predicate Locking() {
      pc.ReadTest? || pc.ReadDone? || pc.WriteTest? || pc.WriteDone?
    }

    /** A reader that took data and has not yet woken the writers. */
    predicate OwesWriters() {
      pc.ReadDone? || pc.ReadWake?
    }

    predicate OwesReaders() {
      pc.WriteDone? || pc.WriteWake?
    }
  }

  datatype State = State(ring: Ring, lock: Option<nat>, tasks: seq<Task>, accepted: seq<byte>, delivered: seq<byte>)
  {
    /** Task `t` goes on to `pc`. */
    function At(t: nat, pc: Pc): State
      requires t < |tasks|
    {
      this.(tasks := tasks[t := tasks[t].(pc := pc)])
    }

    /** Task `t` puts itself on a wait queue. */
    function Queue(t: nat, pc: Pc): State
      requires t < |tasks|
    {
      this.(tasks := tasks[t := Task(pc, false)])
    }

    function Acquire(t: nat, pc: Pc): State
      requires t < |tasks|
    {
      At(t, pc).(lock := Some(t))
    }

    function Release(t: nat, pc: Pc): State
      requires t < |tasks|
    {
      At(t, pc).(lock := None)
    }

    function WakeWriters(): State {
      this.(tasks := seq(|tasks|, i requires 0 <= i < |tasks| =>
        if tasks[i].pc.WriteQueued? || tasks[i].pc.WriteAsleep? then tasks[i].(woken := true) else tasks[i]))
    }

    function WakeReaders(): State {
      this.(tasks := seq(|tasks|, i requires 0 <= i < |tasks| =>
        if tasks[i].pc.ReadQueued? || tasks[i].pc.ReadAsleep? then tasks[i].(woken := true) else tasks[i]))
    }
  }

  predicate Init(s: State) {
    && s.ring.Valid() && s.ring.rp == s.ring.wp == 0
    && s.lock == None && s.accepted == [] && s.delivered == []
    && forall t :: 0 <= t < |s.tasks| ==> s.tasks[t].pc == Idle
  }

  /** One step of a task that is reading. */
  ghost predicate ReadStep(s: State, s': State, t: nat)
    requires t < |s.tasks| && s.ring.Valid()
  {
    match s.tasks[t].pc
    case Idle => exists count :: s' == s.At(t, ReadLock(count))
    case ReadLock(count) =>
      || (s.lock == None && s' == s.Acquire(t, ReadTest(count)))
      || s' == s.At(t, Idle)                                                        // interrupted
    case ReadTest(count) =>
      if s.ring.Empty() then s' == s.Release(t, ReadOut(count))
      else
        || s' == s.Release(t, Idle)                                                 // the copy faulted
        || s' == s.At(t, ReadDone).(
             ring := s.ring.AfterRead(count),
             delivered := s.delivered + s.ring.Queue()[..Min(s.ring.ReadCount(count), |s.ring.Queue()|)])
    case ReadDone => s' == s.Release(t, ReadWake)
    case ReadWake => s' == s.WakeWriters().At(t, Idle)
    case ReadOut(count) =>
      || s' == s.At(t, Idle)                                                        // non-blocking
      || (!s.ring.Empty() && s' == s.At(t, ReadLock(count)))
      || s' == s.Queue(t, ReadQueued(count))
    case ReadQueued(count) =>
      if !s.ring.Empty() then s' == s.At(t, ReadLock(count)) else s' == s.At(t, ReadAsleep(count))
    case ReadAsleep(count) =>
      || s' == s.At(t, Idle)                                                        // a signal
      || (s.tasks[t].woken && s' == s.Queue(t, ReadQueued(count)))
    case _ => false
  }

  /** The copy from user space faults, leaving anything in the free slots it was to fill. */
  ghost predicate WriteFaults(s: State, s': State, t: nat, data: seq<byte>)
    requires t < |s.tasks| && s.ring.Valid() && s.ring.SpaceFree() != 0
  {
    exists junk: seq<byte> ::
      && |junk| == s.ring.WriteCount(|data|) && s.ring.wp + |junk| <= |s.ring.buf|
      && s' == s.Release(t, Idle).(ring := s.ring.(buf := s.ring.Filled(junk)))
  }

  /** One step of a task that is writing. */
  ghost predicate WriteStep(s: State, s': State, t: nat)
    requires t < |s.tasks| && s.ring.Valid()
  {
    match s.tasks[t].pc
    case Idle => exists data :: s' == s.At(t, WriteLock(data))
    case WriteLock(data) =>
      || (s.lock == None && s' == s.Acquire(t, WriteTest(data)))
      || s' == s.At(t, Idle)
    case WriteTest(data) =>
      if s.ring.SpaceFree() == 0 then s' == s.Release(t, WriteOut(data))
      else
        || WriteFaults(s, s', t, data)
        || s' == s.At(t, WriteDone).(
             ring := s.ring.AfterWrite(data),
             accepted := s.accepted + data[..s.ring.WriteCount(|data|)])
    case WriteDone => s' == s.Release(t, WriteWake)
    case WriteWake => s' == s.WakeReaders().At(t, Idle)
    case WriteOut(data) =>
      || s' == s.At(t, Idle)
      || s' == s.Queue(t, WriteQueued(data))
    case WriteQueued(data) =>
      if s.ring.SpaceFree() > 0 then s' == s.At(t, WriteLock(data)) else s' == s.At(t, WriteAsleep(data))
    case WriteAsleep(data) =>
      || s' == s.At(t, Idle)
      || (s.tasks[t].woken && s' == s.At(t, WriteLock(data)))
    case _ => false
  }

  ghost predicate Next(s: State, s': State) {
    s.ring.Valid() && exists t :: 0 <= t < |s.tasks| && (ReadStep(s, s', t) || WriteStep(s, s', t))
  }

  ghost predicate IsPath(path: seq<State>) {
    0 < |path| && forall i :: 0 < i < |path| ==> Next(path[i - 1], path[i])
  }

  ghost predicate IsRun(run: seq<State>) {
    IsPath(run) && Init(run[0])
  }

  // ----- what holds in every reachable state

  /** The mutex is held by the one task that is between taking and releasing it. */
  predicate Exclusive(s: State) {
    && (s.lock.Some? ==> s.lock.value < |s.tasks|)
    && forall t :: 0 <= t < |s.tasks| ==> (s.tasks[t].Locking() <==> s.lock == Some(t))
  }

  /** Bytes come out in the order they went in: none lost, none twice, none invented. */
  predicate Fifo(s: State) {
    s.ring.Valid() && s.delivered + s.ring.Queue() == s.accepted
  }

  ghost predicate WritersOwed(s: State) {
    exists t :: 0 <= t < |s.tasks| && s.tasks[t].OwesWriters()
  }

  ghost predicate ReadersOwed(s: State) {
    exists t :: 0 <= t < |s.tasks| && s.tasks[t].OwesReaders()
  }

  /** A writer sleeps on only while the pipe is full, or while a reader is still to wake the writers. */
  ghost predicate WritersCovered(s: State)
    requires s.ring.Valid()
  {
    forall t :: 0 <= t < |s.tasks| && s.tasks[t].pc.WriteAsleep? && !s.tasks[t].woken ==> s.ring.SpaceFree() == 0 || WritersOwed(s)
  }

  /** A reader sleeps on only while the pipe is empty, or while a writer is still to wake the readers. */
  ghost predicate ReadersCovered(s: State) {
    forall t :: 0 <= t < |s.tasks| && s.tasks[t].pc.ReadAsleep? && !s.tasks[t].woken ==> s.ring.Empty() || ReadersOwed(s)
  }

  ghost predicate Inv(s: State) {
    Exclusive(s) && Fifo(s) && WritersCovered(s) && ReadersCovered(s)
  }

  lemma ReadStepKeepsExclusive(s: State, s': State, t: nat)
    requires s.ring.Valid() && Exclusive(s) && t < |s.tasks| && ReadStep(s, s', t)
    ensures Exclusive(s')
  {
    hide Ring.Queue, Ring.AfterRead, Ring.ReadCount, Ring.Empty;
  }

  lemma WriteStepKeepsExclusive(s: State, s': State, t: nat)
    requires s.ring.Valid() && Exclusive(s) && t < |s.tasks| && WriteStep(s, s', t)
    ensures Exclusive(s')
  {
    hide Ring.SpaceFree, Ring.AfterWrite, Ring.Filled, Ring.WriteCount;
  }

  /** Only a successful copy moves bytes, and it moves them in order. */
  lemma StepKeepsFifo(s: State, s': State, t: nat)
    requires Fifo(s) && t < |s.tasks|
    requires ReadStep(s, s', t) || WriteStep(s, s', t)
    ensures Fifo(s')
  {
    hide Ring.SpaceFree, Ring.Queue, Ring.AfterRead, Ring.AfterWrite, Ring.Filled, Ring.WriteCount, Ring.ReadCount, Ring.Empty;
    match s.tasks[t].pc {
      case ReadTest(count) =>
        if !s.ring.Empty() {
          ReadTakes(s.ring, count);
        }
      case WriteTest(data) =>
        if s.ring.SpaceFree() != 0 {
          WriteTestKeepsFifo(s, s', t, data);
        }
      case _ =>
        assert s'.ring == s.ring && s'.accepted == s.accepted && s'.delivered == s.delivered;
    }
  }

  lemma WriteTestKeepsFifo(s: State, s': State, t: nat, data: seq<byte>)
    requires Fifo(s) && t < |s.tasks| && s.tasks[t].pc == WriteTest(data) && s.ring.SpaceFree() != 0 && WriteStep(s, s', t)
    ensures Fifo(s')
  {
    hide Ring.SpaceFree, Ring.Queue, Ring.Filled, Ring.WriteCount, Ring.AfterWrite;
    if WriteFaults(s, s', t, data) {
      var junk: seq<byte> :|
        && |junk| == s.ring.WriteCount(|data|) && s.ring.wp + |junk| <= |s.ring.buf|
        && s' == s.Release(t, Idle).(ring := s.ring.(buf := s.ring.Filled(junk)));
      FaultKeepsQueue(s.ring, |data|, junk);
    } else {
      WriteAppends(s.ring, data);
      Reassociate(s.delivered, s.ring.Queue(), data[..s.ring.WriteCount(|data|)]);
    }
  }

  lemma Reassociate(a: seq<byte>, b: seq<byte>, c: seq<byte>)
    ensures a + (b + c) == a + b + c
  {
  }

  /** Whoever owes a wake-up goes on owing it until it acts. */
  lemma StillOwed(s: State, s': State, t: nat)
    requires |s'.tasks| == |s.tasks| && t < |s.tasks|
    requires forall u :: 0 <= u < |s.tasks| && u != t ==> s'.tasks[u].pc == s.tasks[u].pc
    ensures (s.tasks[t].OwesWriters() ==> s'.tasks[t].OwesWriters()) ==> (WritersOwed(s) ==> WritersOwed(s'))
    ensures (s.tasks[t].OwesReaders() ==> s'.tasks[t].OwesReaders()) ==> (ReadersOwed(s) ==> ReadersOwed(s'))
  {
    if WritersOwed(s) && (s.tasks[t].OwesWriters() ==> s'.tasks[t].OwesWriters()) {
      var u :| 0 <= u < |s.tasks| && s.tasks[u].OwesWriters();
      assert s'.tasks[u].OwesWriters();
    }
    if ReadersOwed(s) && (s.tasks[t].OwesReaders() ==> s'.tasks[t].OwesReaders()) {
      var u :| 0 <= u < |s.tasks| && s.tasks[u].OwesReaders();
      assert s'.tasks[u].OwesReaders();
    }
  }

  /** A step that moves no byte and wakes nobody, and puts nobody to sleep who would not be covered. */
  lemma QuietStepKeepsCovered(s: State, s': State, t: nat)
    requires s.ring.Valid() && s'.ring.Valid() && t < |s.tasks| == |s'.tasks|
    requires s'.ring.SpaceFree() == s.ring.SpaceFree() && (s'.ring.Empty() <==> s.ring.Empty())
    requires forall u :: 0 <= u < |s.tasks| && u != t ==> s'.tasks[u] == s.tasks[u]
    requires (WritersOwed(s) ==> WritersOwed(s')) && (ReadersOwed(s) ==> ReadersOwed(s'))
    requires s'.tasks[t].pc.WriteAsleep? ==> s'.ring.SpaceFree() == 0
    requires s'.tasks[t].pc.ReadAsleep? ==> s'.ring.Empty()
    ensures WritersCovered(s) ==> WritersCovered(s')
    ensures ReadersCovered(s) ==> ReadersCovered(s')
  {
    hide WritersOwed, ReadersOwed, Ring.SpaceFree, Ring.Empty, Ring.Valid;
  }

  lemma ReadStepKeepsCovered(s: State, s': State, t: nat)
    requires s.ring.Valid() && s'.ring.Valid() && t < |s.tasks| && ReadStep(s, s', t)
    ensures WritersCovered(s) ==> WritersCovered(s')
    ensures ReadersCovered(s) ==> ReadersCovered(s')
  {
    hide Ring.SpaceFree, Ring.Queue, Ring.AfterRead, Ring.ReadCount, Ring.Empty;
    StillOwed(s, s', t);
    var pc := s.tasks[t].pc;
    if pc.ReadTest? && s'.tasks[t].pc.ReadDone? {
      assert s'.tasks[t].OwesWriters();
    } else if pc.ReadWake? {
      assert forall u :: 0 <= u < |s.tasks| && u != t ==> s'.tasks[u] == s.WakeWriters().tasks[u];
    } else {
      hide WritersCovered, ReadersCovered, WritersOwed, ReadersOwed;
      assert s'.ring == s.ring && forall u :: 0 <= u < |s.tasks| && u != t ==> s'.tasks[u] == s.tasks[u];
      QuietStepKeepsCovered(s, s', t);
    }
  }

  lemma WriteStepKeepsCovered(s: State, s': State, t: nat)
    requires s.ring.Valid() && s'.ring.Valid() && t < |s.tasks| && WriteStep(s, s', t)
    ensures WritersCovered(s) ==> WritersCovered(s')
    ensures ReadersCovered(s) ==> ReadersCovered(s')
  {
    hide Pointers.SpaceFree, Pointers.WriteCount, Pointers.AfterWrite, Overwritten, Ring.Queue;
    StillOwed(s, s', t);
    var pc := s.tasks[t].pc;
    if pc.WriteTest? && s'.tasks[t].pc.WriteDone? {
      assert s'.tasks[t].OwesReaders();
    } else if pc.WriteWake? {
      assert forall u :: 0 <= u < |s.tasks| && u != t ==> s'.tasks[u] == s.WakeReaders().tasks[u];
    } else {
      hide WritersCovered, ReadersCovered, WritersOwed, ReadersOwed;
      assert s'.ring.SpaceFree() == s.ring.SpaceFree() && (s'.ring.Empty() <==> s.ring.Empty());
      assert forall u :: 0 <= u < |s.tasks| && u != t ==> s'.tasks[u] == s.tasks[u];
      QuietStepKeepsCovered(s, s', t);
    }
  }

  lemma StepKeepsInv(s: State, s': State)
    requires Inv(s) && Next(s, s')
    ensures Inv(s')
  {
    var t :| 0 <= t < |s.tasks| && (ReadStep(s, s', t) || WriteStep(s, s', t));
    StepKeepsFifo(s, s', t);
    hide ReadStep, WriteStep, Exclusive, WritersCovered, ReadersCovered;
    if ReadStep(s, s', t) {
      ReadStepKeepsExclusive(s, s', t);
      ReadStepKeepsCovered(s, s', t);
    } else {
      WriteStepKeepsExclusive(s, s', t);
      WriteStepKeepsCovered(s, s', t);
    }
  }

  /** Whatever the interleaving: the pipe is a first-in first-out queue, and no wake-up is lost. */
  lemma {:induction false} RunKeepsInv(run: seq<State>, i: nat)
    requires IsRun(run) && i < |run|
    ensures Inv(run[i])
  {
    if i > 0 {
      RunKeepsInv(run, i - 1);
      StepKeepsInv(run[i - 1], run[i]);
    }
  }

  /** With room for a byte, a reader and a writer are never both asleep with nobody left to wake either. */
  lemma NoDeadlock(run: seq<State>, i: nat, r: nat, w: nat)
    requires IsRun(run) && i < |run|
    requires var s := run[i]; r < |s.tasks| && w < |s.tasks| && 2 <= s.ring.size
    requires var s := run[i]; s.tasks[r].pc.ReadAsleep? && !s.tasks[r].woken && s.tasks[w].pc.WriteAsleep? && !s.tasks[w].woken
    ensures ReadersOwed(run[i]) || WritersOwed(run[i])
  {
    RunKeepsInv(run, i);
    SpaceIsRest(run[i].ring);
  }

  /** A task that no step but a call or a signal can move: it is not in a call, or it sleeps un-woken. */
  predicate Parked(d: Task) {
    d.pc.Idle? || ((d.pc.ReadAsleep? || d.pc.WriteAsleep?) && !d.woken)
  }

  /** Once everything has come to rest, readers sleep only on an empty pipe and writers only on a full one. */
  lemma AtRest(run: seq<State>, i: nat)
    requires IsRun(run) && i < |run|
    requires forall t :: 0 <= t < |run[i].tasks| ==> Parked(run[i].tasks[t])
    ensures var s := run[i];
      && s.lock == None && s.ring.Valid()
      && ((exists t :: 0 <= t < |s.tasks| && s.tasks[t].pc.ReadAsleep?) ==> s.delivered == s.accepted)
      && ((exists t :: 0 <= t < |s.tasks| && s.tasks[t].pc.WriteAsleep?) ==> |s.accepted| - |s.delivered| == s.ring.size - 1)
  {
    RunKeepsInv(run, i);
    SpaceIsRest(run[i].ring);
  }

  // ----- why the runs above are those between two opens

  /** Another open, which takes the mutex, empties the pipe and wakes nobody: the history starts anew. */
  function AfterOpen(s: State): State {
    s.(ring := s.ring.(rp := 0, wp := 0), accepted := [], delivered := [])
  }

  /** Right after an open every sleeper is covered exactly if no writer is left asleep, a wake-up is on its way, or there is never room. */
  lemma CoveredAfterOpen(s: State)
    requires Inv(s)
    ensures AfterOpen(s).ring.Valid() && (Inv(AfterOpen(s)) <==> s.ring.size == 1 || WritersOwed(s) || !WriterSleeps(s))
  {
    var s' := AfterOpen(s);
    assert s'.tasks == s.tasks && s'.ring.SpaceFree() == s.ring.size - 1 && s'.ring.Queue() == [];
    assert WritersOwed(s') <==> WritersOwed(s);
  }

  /** A writer sleeps on, and nothing has woken it. */
  ghost predicate WriterSleeps(s: State) {
    exists t :: 0 <= t < |s.tasks| && s.tasks[t].pc.WriteAsleep? && !s.tasks[t].woken
  }

  /** If everything is at rest, then writers sleep only on a full pipe. */
  ghost predicate RestsWell(s: State)
    requires s.ring.Valid()
  {
    (forall t :: 0 <= t < |s.tasks| ==> Parked(s.tasks[t])) && WriterSleeps(s) ==> s.ring.SpaceFree() == 0
  }

  ghost predicate Leads(path: seq<State>, s: State, s': State) {
    IsPath(path) && path[0] == s && path[|path| - 1] == s'
  }

  ghost predicate Reaches(s: State, s': State) {
    exists path :: Leads(path, s, s')
  }

  /** However the tasks go on, no writer is left asleep beside free space. */
  ghost predicate NeverStrands(s: State) {
    forall s' :: Reaches(s, s') ==> s'.ring.Valid() && RestsWell(s')
  }

  lemma Stays(s: State)
    ensures Reaches(s, s)
  {
    assert Leads([s], s, s);
  }

  lemma GoesOn(s: State, s': State, s'': State)
    requires Reaches(s, s') && Next(s', s'')
    ensures Reaches(s, s'')
  {
    hide Next;
    var path :| Leads(path, s, s');
    assert Leads(path + [s''], s, s'');
  }

  lemma {:induction false} PathKeepsInv(path: seq<State>, i: nat)
    requires IsPath(path) && Inv(path[0]) && i < |path|
    ensures Inv(path[i])
  {
    hide Next, Inv;
    if i > 0 {
      PathKeepsInv(path, i - 1);
      StepKeepsInv(path[i - 1], path[i]);
    }
  }

  lemma InvNeverStrands(s: State)
    requires Inv(s)
    ensures NeverStrands(s)
  {
    hide Next;
    forall s' | Reaches(s, s') ensures s'.ring.Valid() && RestsWell(s') {
      var path :| Leads(path, s, s');
      PathKeepsInv(path, |path| - 1);
      assert WritersCovered(s');
    }
  }

  /** The mutex is free, writer `u` sleeps on, and nobody is to wake the writers. */
  predicate Stranded(s: State, u: nat) {
    && s.ring.Valid() && s.lock == None && u < |s.tasks| && s.tasks[u].pc.WriteAsleep? && !s.tasks[u].woken
    && forall t :: 0 <= t < |s.tasks| ==> !s.tasks[t].Locking() && !s.tasks[t].OwesWriters()
  }

  /** A task on its way into a lock is interrupted, and any other but a waker ends its call or queues for the lock again. */
  function Leaving(s: State, t: nat): State
    requires s.ring.Valid() && t < |s.tasks|
  {
    match s.tasks[t].pc
    case ReadQueued(count) => if s.ring.Empty() then s.At(t, ReadAsleep(count)) else s.At(t, ReadLock(count))
    case WriteQueued(data) => if s.ring.SpaceFree() > 0 then s.At(t, WriteLock(data)) else s.At(t, WriteAsleep(data))
    case WriteWake => s.WakeReaders().At(t, Idle)
    case _ => s.At(t, Idle)
  }

  lemma LeavingIsAStep(s: State, u: nat, t: nat)
    requires Stranded(s, u) && t < |s.tasks| && t != u && !s.tasks[t].pc.Idle?
    ensures var s' := Leaving(s, t);
      && Next(s, s') && Stranded(s', u) && s'.ring == s.ring && |s'.tasks| == |s.tasks|
      && (forall v :: 0 <= v < |s.tasks| && v != t ==> s'.tasks[v].pc == s.tasks[v].pc)
      && (!s'.tasks[t].pc.Idle? ==> (s.tasks[t].pc.ReadQueued? || s.tasks[t].pc.WriteQueued?) && !s'.tasks[t].pc.ReadQueued? && !s'.tasks[t].pc.WriteQueued?)
  {
    hide Ring.SpaceFree, Ring.Empty, Ring.Valid;
    assert ReadStep(s, Leaving(s, t), t) || WriteStep(s, Leaving(s, t), t);
  }

  /** The tasks before `n` have ended their calls; the others do so one after the other, and the writer sleeps on. */
  lemma {:induction false} AllLeave(s: State, s': State, u: nat, n: nat) returns (last: State)
    requires Reaches(s, s') && Stranded(s', u) && n <= |s'.tasks|
    requires forall t :: 0 <= t < n && t != u ==> s'.tasks[t].pc.Idle?
    ensures Reaches(s, last) && Stranded(last, u) && last.ring == s'.ring
    ensures forall t :: 0 <= t < |last.tasks| && t != u ==> last.tasks[t].pc.Idle?
    decreases |s'.tasks| - n
  {
    hide Next, Reaches, Leaving;
    if n == |s'.tasks| {
      last := s';
    } else if n == u || s'.tasks[n].pc.Idle? {
      last := AllLeave(s, s', u, n + 1);
    } else {
      LeavingIsAStep(s', u, n);
      var next := Leaving(s', n);
      GoesOn(s, s', next);
      if !next.tasks[n].pc.Idle? {
        LeavingIsAStep(next, u, n);
        GoesOn(s, next, Leaving(next, n));
        next := Leaving(next, n);
      }
      last := AllLeave(s, next, u, n + 1);
    }
  }

  /**
    Opening the pipe again never leaves a writer asleep beside free space, however the tasks go on, exactly if
    no writer sleeps at that moment, or its wake-up is on its way, or the pipe has no room at any time.
   */
  lemma OpenStrandsWriters(s: State)
    requires Inv(s) && s.lock == None
    ensures NeverStrands(AfterOpen(s)) <==> s.ring.size == 1 || WritersOwed(s) || !WriterSleeps(s)
  {
    hide Next, Fifo, IsPath;
    var s0 := AfterOpen(s);
    CoveredAfterOpen(s);
    if Inv(s0) {
      InvNeverStrands(s0);
    } else {
      var u :| 0 <= u < |s.tasks| && s.tasks[u].pc.WriteAsleep? && !s.tasks[u].woken;
      Stays(s0);
      var last := AllLeave(s0, s0, u, 0);
      assert !RestsWell(last);
    }
  }

  /** One writer on a pipe of two slots: the first write fills the pipe, the second falls asleep on it. */
  function FillAndSleep(): seq<State> {
    var r0, r1 := Ring([0, 0], 2, 0, 0), Ring([7, 0], 2, 0, 1);
    [ Alone(r0, None, Idle, []),
      Alone(r0, None, WriteLock([7]), []),
      Alone(r0, Some(0), WriteTest([7]), []),
      Alone(r1, Some(0), WriteDone, [7]),
      Alone(r1, None, WriteWake, [7]),
      Alone(r1, None, Idle, [7]),
      Alone(r1, None, WriteLock([8]), [7]),
      Alone(r1, Some(0), WriteTest([8]), [7]),
      Alone(r1, None, WriteOut([8]), [7]),
      Alone(r1, None, WriteQueued([8]), [7]),
      Alone(r1, None, WriteAsleep([8]), [7]) ]
  }

  function Alone(ring: Ring, lock: Option<nat>, pc: Pc, accepted: seq<byte>): State {
    State(ring, lock, [Task(pc, false)], accepted, [])
  }

  /** What the steps of the run below do: the first write takes the one free slot. */
  lemma FillRing()
    ensures var r0, r1 := Ring([0, 0], 2, 0, 0), Ring([7, 0], 2, 0, 1);
      && r0.Valid() && r1.Valid() && r0.SpaceFree() == 1 && r1.SpaceFree() == 0
      && r0.AfterWrite([7]) == r1 && [7][..r0.WriteCount(1)] == [7]
  {
    Distance(0, 1, 2);
    assert [7][..1] == [7] && [0, 0][..0] + [7] + [0, 0][1..] == [7, 0];
  }

  /** A lone writer goes on, or takes or releases the mutex. */
  lemma AloneSteps(ring: Ring, lock: Option<nat>, pc: Pc, accepted: seq<byte>, lock': Option<nat>, pc': Pc)
    requires ring.Valid()
    requires match pc
      case Idle => pc'.WriteLock? && lock' == lock
      case WriteLock(data) => lock == None && lock' == Some(0) && pc' == WriteTest(data)
      case WriteTest(data) => ring.SpaceFree() == 0 && lock' == None && pc' == WriteOut(data)
      case WriteDone => lock' == None && pc' == WriteWake
      case WriteOut(data) => lock' == lock && pc' == WriteQueued(data)
      case WriteQueued(data) => ring.SpaceFree() == 0 && lock' == lock && pc' == WriteAsleep(data)
      case _ => false
    ensures Next(Alone(ring, lock, pc, accepted), Alone(ring, lock', pc', accepted))
  {
    hide Ring.SpaceFree;
    var s, s' := Alone(ring, lock, pc, accepted), Alone(ring, lock', pc', accepted);
    assert s.tasks[0 := Task(pc', false)] == s'.tasks;
    assert WriteStep(s, s', 0);
  }

  lemma AloneStores(ring: Ring, data: seq<byte>, accepted: seq<byte>)
    requires ring.Valid() && 0 < ring.SpaceFree()
    ensures Next(Alone(ring, Some(0), WriteTest(data), accepted),
                 Alone(ring.AfterWrite(data), Some(0), WriteDone, accepted + data[..ring.WriteCount(|data|)]))
  {
    hide Ring.SpaceFree, Ring.AfterWrite, Ring.WriteCount;
    var s := Alone(ring, Some(0), WriteTest(data), accepted);
    var s' := Alone(ring.AfterWrite(data), Some(0), WriteDone, accepted + data[..ring.WriteCount(|data|)]);
    assert s.tasks[0 := Task(WriteDone, false)] == s'.tasks;
    assert WriteStep(s, s', 0);
  }

  lemma AloneWakes(ring: Ring, accepted: seq<byte>)
    requires ring.Valid()
    ensures Next(Alone(ring, None, WriteWake, accepted), Alone(ring, None, Idle, accepted))
  {
    var s, s' := Alone(ring, None, WriteWake, accepted), Alone(ring, None, Idle, accepted);
    assert s.WakeReaders().tasks == s.tasks && s.tasks[0 := Task(Idle, false)] == s'.tasks;
    assert WriteStep(s, s', 0);
  }

  /** Each state of the run comes from the one before by a step of the writer. */
  lemma SleepIsARun()
    ensures IsRun(FillAndSleep())
  {
    var run := FillAndSleep();
    FillRing();
    hide Next, Ring.SpaceFree, Ring.AfterWrite, Ring.WriteCount;
    var r0, r1 := Ring([0, 0], 2, 0, 0), Ring([7, 0], 2, 0, 1);
    AloneSteps(r0, None, Idle, [], None, WriteLock([7]));
    AloneSteps(r0, None, WriteLock([7]), [], Some(0), WriteTest([7]));
    AloneStores(r0, [7], []);
    assert [] + [7] == [7];
    AloneSteps(r1, Some(0), WriteDone, [7], None, WriteWake);
    AloneWakes(r1, [7]);
    AloneSteps(r1, None, Idle, [7], None, WriteLock([8]));
    AloneSteps(r1, None, WriteLock([8]), [7], Some(0), WriteTest([8]));
    AloneSteps(r1, Some(0), WriteTest([8]), [7], None, WriteOut([8]));
    AloneSteps(r1, None, WriteOut([8]), [7], None, WriteQueued([8]));
    AloneSteps(r1, None, WriteQueued([8]), [7], None, WriteAsleep([8]));
  }

  /** So a writer asleep on a full pipe is reachable, and an open then leaves it asleep on an empty one. */
  lemma StrandedWriter()
    ensures var run := FillAndSleep();
      && IsRun(run) && run[10].lock == None && run[10].ring.size == 2
      && var s := AfterOpen(run[10]);
      s.ring.Valid() && s.tasks[0].pc.WriteAsleep? && !s.tasks[0].woken && s.ring.SpaceFree() == 1 && !NeverStrands(s)
  {
    SleepIsARun();
    hide Next;
    var s := AfterOpen(FillAndSleep()[10]);
    Stays(s);
    assert Parked(s.tasks[0]) && WriterSleeps(s) && s.ring.SpaceFree() == 1;
  }
}
