/**
  The packet pools of the two snull interfaces, with any number of tasks transmitting, handling
  interrupts and polling at once.  Every operation under a device lock is one step.  Returning a buffer is
  four: it is put back under the lock, and only then, without it, the queue is found stopped, the buffer's next
  pointer is found null, and the queue is restarted.  By then the buffer may be somewhere else.
 */
module SnullProtocol {
  import opened Kernel

  /** A packet buffer belongs to the device whose pool it came from, 0 or 1. */
  datatype Packet = Packet(dev: nat, number: nat)

  datatype Device = Device(ppool: seq<Packet>, rxQueue: seq<Packet>, stopped: bool)

  /**
    A task is transmitting on `dev` or not; besides it may be receiving a packet.
   */
  datatype Xmit =
    | NotSending
    | Chosen(dev: nat)                    // called to transmit on a queue that was not stopped
    | Filling(dev: nat, pkt: Packet)      // has a buffer, not yet queued at the other side
    | Sent(dev: nat)                      // has queued it, interrupts still to be simulated

  datatype Held =
    | Nothing
    | Handling(pkt: Packet)               // took it off a receive queue, not yet put back
    | Testing(pkt: Packet)                // has put it back, about to test whether the queue is stopped
    | Looking(pkt: Packet)                // found it stopped, about to test the next pointer
    | Waking(pkt: Packet)                 // found it null, about to restart the queue
  {
    /** Has put a buffer back and not yet done with the queue. */
    predicate Returning() {
      Testing? || Looking? || Waking?
    }

    /** Will restart the queue, if it stays stopped and `p` the end of its list. */
    predicate Owes(p: Packet) {
      ((Testing? || Looking?) && pkt == p) || (Waking? && pkt.dev == p.dev)
    }
  }

  datatype Task = Task(xmit: Xmit, held: Held)
  {
    /** How often this task alone holds `p`. */
    function Has(p: Packet): nat {
      One(xmit.Filling? && xmit.pkt == p) + One(held.Handling? && held.pkt == p)
    }
  }

  /** `links` are the next pointers, which pools and queues share; taking a buffer off a list leaves its own as it was. */
  datatype State = State(devs: seq<Device>, tasks: seq<Task>, links: map<Packet, Packet>)

  function NextOf(links: map<Packet, Packet>, p: Packet): Option<Packet> {
    if p in links then Some(links[p]) else None
  }

  function Linked(links: map<Packet, Packet>, p: Packet, list: seq<Packet>): map<Packet, Packet> {
    if list == [] then links - {p} else links[p := list[0]]
  }

  function InTasks(tasks: seq<Task>, p: Packet): nat {
    if tasks == [] then 0 else tasks[0].Has(p) + InTasks(tasks[1..], p)
  }

  function InDevice(d: Device, p: Packet): nat {
    multiset(d.ppool)[p] + multiset(d.rxQueue)[p]
  }

  /** In how many places `p` is: pools, receive queues and the hands of tasks. */
  function Places(s: State, p: Packet): nat
    requires |s.devs| == 2
  {
    InDevices(s.devs, p) + InTasks(s.tasks, p)
  }

  /** The buffers that were set up: `n` of each device. */
  predicate Exists(p: Packet, n: nat) {
    p.dev < 2 && p.number < n
  }

  ghost predicate Init(s: State, n: nat) {
    && |s.devs| == 2 && 0 < n
    && (forall d :: 0 <= d < 2 ==> s.devs[d] == Device(seq(n, i requires 0 <= i => Packet(d, i)), [], false))
    && (forall t :: 0 <= t < |s.tasks| ==> s.tasks[t] == Task(NotSending, Nothing))
    && (forall d, k :: 0 <= d < 2 && 0 <= k < n ==> NextOf(s.links, Packet(d, k)) == if k + 1 < n then Some(Packet(d, k + 1)) else None)
  }

  datatype Action =
    | StartXmit(t: nat, dev: nat)
    | GetTxBuffer(t: nat)
    | EnqueueBuf(t: nat)
    | EndXmit(t: nat)
    | DequeueBuf(t: nat, dev: nat)
    | PutBack(t: nat)
    | TestStopped(t: nat)
    | LookNext(t: nat)
    | Wake(t: nat)

  predicate Enabled(s: State, a: Action) {
    && |s.devs| == 2 && a.t < |s.tasks|
    && var task := s.tasks[a.t];
    match a
    case StartXmit(_, dev) =>  // the transmit lock admits one task per device, and only to a running queue
      dev < 2 && task.xmit.NotSending? && !s.devs[dev].stopped
      && forall u :: 0 <= u < |s.tasks| && !s.tasks[u].xmit.NotSending? ==> s.tasks[u].xmit.dev != dev
    case GetTxBuffer(_) => task.xmit.Chosen? && task.xmit.dev < 2
    case EnqueueBuf(_) => task.xmit.Filling? && task.xmit.dev < 2
    case EndXmit(_) => task.xmit.Sent?
    case DequeueBuf(_, dev) => dev < 2 && task.held.Nothing?
    case PutBack(_) => task.held.Handling? && task.held.pkt.dev < 2
    case TestStopped(_) => task.held.Testing? && task.held.pkt.dev < 2
    case LookNext(_) => task.held.Looking? && task.held.pkt.dev < 2
    case Wake(_) => task.held.Waking? && task.held.pkt.dev < 2
  }

  /** A buffer is only taken from a pool that has one; anything else would follow a null pointer. */
  predicate Safe(s: State, a: Action)
    requires Enabled(s, a)
  {
    a.GetTxBuffer? ==> s.devs[s.tasks[a.t].xmit.dev].ppool != []
  }

  function With(s: State, t: nat, task: Task, d: nat, dev: Device): State
    requires t < |s.tasks| && d < |s.devs|
  {
    s.(devs := s.devs[d := dev], tasks := s.tasks[t := task])
  }

  /** Taking the last buffer stops the queue. */
  function Apply(s: State, a: Action): State
    requires Enabled(s, a) && Safe(s, a)
  {
    var task := s.tasks[a.t];
    match a
    case StartXmit(t, dev) => s.(tasks := s.tasks[t := task.(xmit := Chosen(dev))])
    case GetTxBuffer(t) =>
      var d := task.xmit.dev;
      var pool := s.devs[d].ppool;
      With(s, t, task.(xmit := Filling(d, pool[0])), d,
           s.devs[d].(ppool := pool[1..], stopped := s.devs[d].stopped || pool[1..] == []))
    case EnqueueBuf(t) =>
      var e, p := 1 - task.xmit.dev, task.xmit.pkt;
      With(s, t, task.(xmit := Sent(task.xmit.dev)), e, s.devs[e].(rxQueue := [p] + s.devs[e].rxQueue))
        .(links := Linked(s.links, p, s.devs[e].rxQueue))
    case EndXmit(t) => s.(tasks := s.tasks[t := task.(xmit := NotSending)])
    case DequeueBuf(t, dev) =>
      var queue := s.devs[dev].rxQueue;
      if queue == [] then s
      else With(s, t, task.(held := Handling(queue[0])), dev, s.devs[dev].(rxQueue := queue[1..]))
    case PutBack(t) =>
      var p := task.held.pkt;
      With(s, t, task.(held := Testing(p)), p.dev, s.devs[p.dev].(ppool := [p] + s.devs[p.dev].ppool))
        .(links := Linked(s.links, p, s.devs[p.dev].ppool))
    case TestStopped(t) =>
      var p := task.held.pkt;
      s.(tasks := s.tasks[t := task.(held := if s.devs[p.dev].stopped then Looking(p) else Nothing)])
    case LookNext(t) =>
      var p := task.held.pkt;
      s.(tasks := s.tasks[t := task.(held := if NextOf(s.links, p) == None then Waking(p) else Nothing)])
    case Wake(t) =>
      var d := task.held.pkt.dev;
      With(s, t, task.(held := Nothing), d, s.devs[d].(stopped := false))
  }

  // ----- what holds in every reachable state

  /** Each buffer is in exactly one place: its pool, the other side's queue, or the hands of one task. */
  ghost predicate Conserved(s: State, n: nat)
    requires |s.devs| == 2
  {
    forall p :: Places(s, p) == if Exists(p, n) then 1 else 0
  }

  /** Pools hold a device's own buffers, receive queues those of the other. */
  ghost predicate Sorted(s: State)
    requires |s.devs| == 2
  {
    && (forall d, p :: 0 <= d < 2 && p in s.devs[d].ppool ==> p.dev == d)
    && (forall d, p :: 0 <= d < 2 && p in s.devs[d].rxQueue ==> p.dev == 1 - d)
    && (forall t :: 0 <= t < |s.tasks| ==>
          && (!s.tasks[t].xmit.NotSending? ==> s.tasks[t].xmit.dev < 2)
          && (s.tasks[t].xmit.Filling? ==> s.tasks[t].xmit.pkt.dev == s.tasks[t].xmit.dev)
          && (!s.tasks[t].held.Nothing? ==> s.tasks[t].held.pkt.dev < 2))
  }

  /** One task at a time transmits on a device. */
  ghost predicate Serialized(s: State) {
    forall t, u :: 0 <= t < u < |s.tasks| && !s.tasks[t].xmit.NotSending? && !s.tasks[u].xmit.NotSending? ==>
      s.tasks[t].xmit.dev != s.tasks[u].xmit.dev
  }

  function Successor(list: seq<Packet>, k: nat): Option<Packet> {
    if k + 1 < |list| then Some(list[k + 1]) else None
  }

  /** The next pointers lead through a list to its end. */
  ghost predicate Chained(links: map<Packet, Packet>, list: seq<Packet>) {
    forall k :: 0 <= k < |list| ==> NextOf(links, list[k]) == Successor(list, k)
  }

  ghost predicate AllChained(s: State) {
    forall d :: 0 <= d < |s.devs| ==> Chained(s.links, s.devs[d].ppool) && Chained(s.links, s.devs[d].rxQueue)
  }

  /** Some task has put `p` back and is still to test it, or has tested a buffer and will restart the queue of `p`. */
  ghost predicate TestOwed(s: State, p: Packet) {
    exists t :: 0 <= t < |s.tasks| && s.tasks[t].held.Owes(p)
  }

  /** A queue stays stopped over a pool that has buffers only until the last of them has been tested or a restart comes. */
  ghost predicate RestartOwed(s: State) {
    forall d :: 0 <= d < |s.devs| && s.devs[d].stopped && s.devs[d].ppool != [] ==>
      TestOwed(s, s.devs[d].ppool[|s.devs[d].ppool| - 1])
  }

  /** A task chosen to transmit found the queue running, and it still is. */
  predicate ChosenRuns(s: State) {
    forall t :: 0 <= t < |s.tasks| && s.tasks[t].xmit.Chosen? && s.tasks[t].xmit.dev < |s.devs| ==> !s.devs[s.tasks[t].xmit.dev].stopped
  }

  /** Only buffers that were set up are ever tested. */
  predicate TestsExist(s: State, n: nat) {
    forall t :: 0 <= t < |s.tasks| && s.tasks[t].held.Returning() ==> Exists(s.tasks[t].held.pkt, n)
  }

  ghost predicate Inv(s: State, n: nat) {
    |s.devs| == 2 && Conserved(s, n) && TestsExist(s, n) && Sorted(s) && Serialized(s) && AllChained(s) && RestartOwed(s) && ChosenRuns(s)
  }

  lemma {:induction false} TaskChanges(tasks: seq<Task>, t: nat, task: Task, p: Packet)
    requires t < |tasks|
    ensures InTasks(tasks[t := task], p) + tasks[t].Has(p) == InTasks(tasks, p) + task.Has(p)
  {
    if t == 0 {
      assert tasks[t := task][1..] == tasks[1..];
    } else {
      assert tasks[t := task][1..] == tasks[1..][t - 1 := task];
      TaskChanges(tasks[1..], t - 1, task, p);
    }
  }

  function InDevices(devs: seq<Device>, p: Packet): nat
    requires |devs| == 2
  {
    InDevice(devs[0], p) + InDevice(devs[1], p)
  }

  lemma DeviceChanges(devs: seq<Device>, d: nat, dev: Device, p: Packet)
    requires |devs| == 2 && d < 2
    ensures InDevices(devs[d := dev], p) + InDevice(devs[d], p) == InDevices(devs, p) + InDevice(dev, p)
  {
  }

  function One(b: bool): nat {
    if b then 1 else 0
  }

  lemma PushPool(d: Device, x: Packet, stopped: bool, p: Packet)
    ensures InDevice(d.(ppool := [x] + d.ppool, stopped := stopped), p) == InDevice(d, p) + One(x == p)
  {
    assert multiset([x] + d.ppool) == multiset{x} + multiset(d.ppool);
  }

  lemma SamePlaces(d: Device, stopped: bool, p: Packet)
    ensures InDevice(d.(stopped := stopped), p) == InDevice(d, p)
  {
  }

  lemma PushQueue(d: Device, x: Packet, p: Packet)
    ensures InDevice(d.(rxQueue := [x] + d.rxQueue), p) == InDevice(d, p) + One(x == p)
  {
    assert multiset([x] + d.rxQueue) == multiset{x} + multiset(d.rxQueue);
  }

  lemma PopPool(d: Device, stopped: bool, p: Packet)
    requires d.ppool != []
    ensures InDevice(d, p) == InDevice(d.(ppool := d.ppool[1..], stopped := stopped), p) + One(d.ppool[0] == p)
  {
    assert d.ppool == [d.ppool[0]] + d.ppool[1..];
  }

  lemma PopQueue(d: Device, p: Packet)
    requires d.rxQueue != []
    ensures InDevice(d, p) == InDevice(d.(rxQueue := d.rxQueue[1..]), p) + One(d.rxQueue[0] == p)
  {
    assert d.rxQueue == [d.rxQueue[0]] + d.rxQueue[1..];
  }

  /** A step takes a packet from one place and puts it in another. */
  lemma StepConserves(s: State, a: Action, n: nat, p: Packet)
    requires Inv(s, n) && Enabled(s, a) && Safe(s, a)
    ensures Places(Apply(s, a), p) == Places(s, p)
  {
    hide Conserved, Serialized, AllChained, RestartOwed, ChosenRuns, InDevice, InDevices, InTasks, Linked;
    var task, s' := s.tasks[a.t], Apply(s, a);
    TaskChanges(s.tasks, a.t, s'.tasks[a.t], p);
    match a {
      case GetTxBuffer(_) =>
        var d := task.xmit.dev;
        PopPool(s.devs[d], s'.devs[d].stopped, p);
        DeviceChanges(s.devs, d, s'.devs[d], p);
      case EnqueueBuf(_) =>
        var e := 1 - task.xmit.dev;
        PushQueue(s.devs[e], task.xmit.pkt, p);
        DeviceChanges(s.devs, e, s'.devs[e], p);
      case DequeueBuf(_, dev) =>
        if s.devs[dev].rxQueue != [] {
          PopQueue(s.devs[dev], p);
          DeviceChanges(s.devs, dev, s'.devs[dev], p);
        }
      case PutBack(_) =>
        var d := task.held.pkt.dev;
        PushPool(s.devs[d], task.held.pkt, s'.devs[d].stopped, p);
        DeviceChanges(s.devs, d, s'.devs[d], p);
      case Wake(_) =>
        var d := task.held.pkt.dev;
        SamePlaces(s.devs[d], s'.devs[d].stopped, p);
        DeviceChanges(s.devs, d, s'.devs[d], p);
      case _ =>
    }
  }

  lemma StepKeepsSorted(s: State, a: Action, n: nat)
    requires Inv(s, n) && Enabled(s, a) && Safe(s, a)
    ensures Sorted(Apply(s, a))
  {
    hide Conserved, Serialized, AllChained, RestartOwed, ChosenRuns, TestsExist, Linked, NextOf;
  }

  lemma StepKeepsSerialized(s: State, a: Action, n: nat)
    requires Inv(s, n) && Enabled(s, a) && Safe(s, a)
    ensures Serialized(Apply(s, a)) && ChosenRuns(Apply(s, a))
  {
    hide Conserved, AllChained, RestartOwed, Linked;
  }

  // ----- the lists

  lemma {:induction false} HeldIsCounted(tasks: seq<Task>, t: nat, p: Packet)
    requires t < |tasks|
    ensures tasks[t].Has(p) <= InTasks(tasks, p)
  {
    if t > 0 {
      HeldIsCounted(tasks[1..], t - 1, p);
    }
  }

  /** A buffer in somebody's hands is on no list. */
  lemma HeldIsOnNoList(s: State, n: nat, t: nat, p: Packet)
    requires |s.devs| == 2 && Conserved(s, n) && t < |s.tasks| && 0 < s.tasks[t].Has(p)
    ensures forall d :: 0 <= d < 2 ==> p !in s.devs[d].ppool && p !in s.devs[d].rxQueue
  {
    HeldIsCounted(s.tasks, t, p);
    assert Places(s, p) <= 1;
    assert InDevice(s.devs[0], p) == 0 && InDevice(s.devs[1], p) == 0;
  }

  lemma StepKeepsTests(s: State, a: Action, n: nat)
    requires Inv(s, n) && Enabled(s, a) && Safe(s, a)
    ensures TestsExist(Apply(s, a), n)
  {
    hide Serialized, AllChained, RestartOwed, ChosenRuns, Linked, InDevice;
    if a.PutBack? {
      var p := s.tasks[a.t].held.pkt;
      HeldIsCounted(s.tasks, a.t, p);
      assert 0 < Places(s, p);
    }
  }

  /** Linking a buffer in front of one list leaves the lists it is not on. */
  lemma LinkKeepsChains(links: map<Packet, Packet>, p: Packet, front: seq<Packet>, list: seq<Packet>)
    requires Chained(links, list) && p !in list
    ensures Chained(Linked(links, p, front), list)
    ensures list == front ==> Chained(Linked(links, p, front), [p] + list)
  {
    var links' := Linked(links, p, front);
    if list == front {
      forall k | 0 <= k < |[p] + list|
        ensures NextOf(links', ([p] + list)[k]) == Successor([p] + list, k)
      {
        if k > 0 {
          assert ([p] + list)[k] == list[k - 1] && Successor([p] + list, k) == Successor(list, k - 1);
        }
      }
    }
  }

  lemma TailIsChained(links: map<Packet, Packet>, list: seq<Packet>)
    requires Chained(links, list) && list != []
    ensures Chained(links, list[1..])
  {
    forall k | 0 <= k < |list[1..]|
      ensures NextOf(links, list[1..][k]) == Successor(list[1..], k)
    {
      assert list[1..][k] == list[k + 1] && Successor(list[1..], k) == Successor(list, k + 1);
    }
  }

  lemma EndOfChain(links: map<Packet, Packet>, list: seq<Packet>)
    requires Chained(links, list) && list != []
    ensures NextOf(links, list[|list| - 1]) == None
  {
    assert Successor(list, |list| - 1) == None;
  }

  lemma StepKeepsChained(s: State, a: Action, n: nat)
    requires Inv(s, n) && Enabled(s, a) && Safe(s, a)
    ensures AllChained(Apply(s, a))
  {
    hide Conserved, Serialized, RestartOwed, ChosenRuns, Linked, Chained;
    var s' := Apply(s, a);
    forall d | 0 <= d < 2
      ensures Chained(s'.links, s'.devs[d].ppool) && Chained(s'.links, s'.devs[d].rxQueue)
    {
      var dev := s.devs[d];
      if a.EnqueueBuf? || a.PutBack? {
        var p := if a.EnqueueBuf? then s.tasks[a.t].xmit.pkt else s.tasks[a.t].held.pkt;
        var front := if a.EnqueueBuf? then s.devs[1 - s.tasks[a.t].xmit.dev].rxQueue else s.devs[p.dev].ppool;
        HeldIsOnNoList(s, n, a.t, p);
        LinkKeepsChains(s.links, p, front, dev.ppool);
        LinkKeepsChains(s.links, p, front, dev.rxQueue);
      } else {
        if dev.ppool != [] {
          TailIsChained(s.links, dev.ppool);
        }
        if dev.rxQueue != [] {
          TailIsChained(s.links, dev.rxQueue);
        }
      }
    }
  }

  /** What a step does to the pool of a device whose queue stays stopped: it leaves it, or puts a buffer in front. */
  lemma StoppedPoolGrows(s: State, a: Action, n: nat, d: nat)
    requires Inv(s, n) && Enabled(s, a) && Safe(s, a) && d < 2
    requires s.devs[d].stopped && Apply(s, a).devs[d].stopped
    ensures var s' := Apply(s, a);
      || s'.devs[d].ppool == s.devs[d].ppool
      || (a.PutBack? && s'.devs[d].ppool == [s'.tasks[a.t].held.pkt] + s.devs[d].ppool && s'.tasks[a.t].held.Testing?)
  {
    hide Conserved, Serialized, AllChained, RestartOwed, Linked;
  }

  predicate StopsOn(s: State, d: nat) {
    d < |s.devs| && s.devs[d].stopped
  }

  /** The restart of a queue that stays stopped goes on being owed through a buffer at the end of its list. */
  lemma StillOwed(s: State, a: Action, p: Packet)
    requires Enabled(s, a) && Safe(s, a) && TestOwed(s, p) && p.dev < 2 && NextOf(s.links, p) == None
    requires StopsOn(s, p.dev) && StopsOn(Apply(s, a), p.dev)
    ensures TestOwed(Apply(s, a), p)
  {
    hide Linked;
    var t :| 0 <= t < |s.tasks| && s.tasks[t].held.Owes(p);
    assert Apply(s, a).tasks[t].held.Owes(p);
  }

  lemma StepKeepsRestartOwed(s: State, a: Action, n: nat)
    requires Inv(s, n) && Enabled(s, a) && Safe(s, a)
    ensures RestartOwed(Apply(s, a))
  {
    hide Apply, Conserved, Serialized, ChosenRuns, Safe, Chained;
    var s' := Apply(s, a);
    DevicesStay(s, a);
    forall d | 0 <= d < 2 && s'.devs[d].stopped && s'.devs[d].ppool != []
      ensures TestOwed(s', s'.devs[d].ppool[|s'.devs[d].ppool| - 1])
    {
      StopsWhenEmptied(s, a, n, d);
      StoppedPoolGrows(s, a, n, d);
      var pool := s.devs[d].ppool;
      if pool == [] {
        assert s'.tasks[a.t].held.Owes(s'.devs[d].ppool[0]);
      } else {
        var last := pool[|pool| - 1];
        EndOfChain(s.links, pool);
        assert last in pool && last.dev == d;
        StillOwed(s, a, last);
      }
    }
  }

  lemma DevicesStay(s: State, a: Action)
    requires Enabled(s, a) && Safe(s, a)
    ensures |Apply(s, a).devs| == 2 && |Apply(s, a).tasks| == |s.tasks|
  {
  }

  lemma StopsWhenEmptied(s: State, a: Action, n: nat, d: nat)
    requires Inv(s, n) && Enabled(s, a) && Safe(s, a) && d < 2
    requires Apply(s, a).devs[d].stopped && Apply(s, a).devs[d].ppool != []
    ensures s.devs[d].stopped
  {
    hide Conserved, Serialized, AllChained, RestartOwed, Linked;
  }

  lemma StepKeepsInv(s: State, a: Action, n: nat)
    requires Inv(s, n) && Enabled(s, a) && Safe(s, a)
    ensures Inv(Apply(s, a), n)
  {
    hide Places, Sorted, TestsExist, RestartOwed, ChosenRuns, AllChained, Serialized;
    StepKeepsTests(s, a, n);
    StepKeepsSorted(s, a, n);
    StepKeepsSerialized(s, a, n);
    StepKeepsChained(s, a, n);
    StepKeepsRestartOwed(s, a, n);
    forall p
      ensures Places(Apply(s, a), p) == if Exists(p, n) then 1 else 0
    {
      StepConserves(s, a, n, p);
    }
  }

  // ----- runs

  predicate StepBy(s: State, a: Action, s': State) {
    Enabled(s, a) && Safe(s, a) && s' == Apply(s, a)
  }

  ghost predicate Next(s: State, s': State) {
    exists a :: StepBy(s, a, s')
  }

  ghost predicate IsRun(run: seq<State>, n: nat) {
    && 0 < |run| && Init(run[0], n)
    && forall i :: 0 < i < |run| ==> Next(run[i - 1], run[i])
  }

  lemma {:induction false} IdleTasksHoldNothing(tasks: seq<Task>, p: Packet)
    requires forall t :: 0 <= t < |tasks| ==> tasks[t] == Task(NotSending, Nothing)
    ensures InTasks(tasks, p) == 0
  {
    if tasks != [] {
      IdleTasksHoldNothing(tasks[1..], p);
    }
  }

  lemma {:induction false} PoolOf(dev: nat, n: nat, p: Packet)
    ensures multiset(seq(n, i requires 0 <= i => Packet(dev, i)))[p] == One(p.dev == dev && p.number < n)
  {
    if n > 0 {
      PoolOf(dev, n - 1, p);
      assert seq(n, i requires 0 <= i => Packet(dev, i)) == seq(n - 1, i requires 0 <= i => Packet(dev, i)) + [Packet(dev, n - 1)];
    }
  }

  lemma InitIsConserved(s: State, n: nat)
    requires Init(s, n)
    ensures Conserved(s, n)
  {
    forall p
      ensures Places(s, p) == if Exists(p, n) then 1 else 0
    {
      IdleTasksHoldNothing(s.tasks, p);
      PoolOf(0, n, p);
      PoolOf(1, n, p);
    }
  }

  lemma InitIsChained(s: State, n: nat)
    requires Init(s, n)
    ensures AllChained(s)
  {
    forall d | 0 <= d < 2
      ensures Chained(s.links, s.devs[d].ppool)
    {
      var pool := s.devs[d].ppool;
      forall k | 0 <= k < |pool|
        ensures NextOf(s.links, pool[k]) == Successor(pool, k)
      {
        assert pool[k] == Packet(d, k) && (k + 1 < n ==> pool[k + 1] == Packet(d, k + 1));
      }
    }
  }

  lemma InitHasInv(s: State, n: nat)
    requires Init(s, n)
    ensures Inv(s, n)
  {
    InitIsConserved(s, n);
    InitIsChained(s, n);
    hide Conserved, AllChained;
  }

  lemma StepByKeepsInv(s: State, a: Action, s': State, n: nat)
    requires Inv(s, n) && StepBy(s, a, s')
    ensures Inv(s', n)
  {
    StepKeepsInv(s, a, n);
  }

  /**
    In every interleaving no buffer is lost, doubled or put in the wrong list, and no queue stays stopped
    over a pool with buffers unless a test that will restart it is still owed.
   */
  lemma {:induction false} RunKeepsInv(run: seq<State>, n: nat, i: nat)
    requires IsRun(run, n) && i < |run|
    ensures Inv(run[i], n)
  {
    if i == 0 {
      InitHasInv(run[0], n);
    } else {
      RunKeepsInv(run, n, i - 1);
      hide Inv, Init, StepBy;
      assert Next(run[i - 1], run[i]);
      var a :| StepBy(run[i - 1], a, run[i]);
      StepByKeepsInv(run[i - 1], a, run[i], n);
    }
  }

  // ----- flow control

  /** Step `j` of the run restarts the queue of a device whose pool is empty. */
  predicate RestartsEmpty(run: seq<State>, j: nat, d: nat)
    requires j + 1 < |run| && d < |run[j].devs| && d < |run[j + 1].devs|
  {
    run[j].devs[d].stopped && !run[j + 1].devs[d].stopped && run[j].devs[d].ppool == []
  }

  predicate Unguarded(s: State, d: nat) {
    d < |s.devs| && s.devs[d].ppool == [] && !s.devs[d].stopped
  }

  /** How a queue comes to run over an empty pool, stays so, or ceases to. */
  lemma StepOpens(s: State, a: Action, n: nat, d: nat)
    requires Inv(s, n) && Enabled(s, a) && Safe(s, a) && d < 2
    ensures Unguarded(Apply(s, a), d) <==> Apply(s, a).devs[d].ppool == [] && (Unguarded(s, d) || (s.devs[d].stopped && !Apply(s, a).devs[d].stopped))
    ensures Unguarded(Apply(s, a), d) ==> s.devs[d].ppool == []
  {
    hide Conserved, Serialized, Sorted, AllChained, RestartOwed, ChosenRuns, Linked;
  }

  /** The queue was restarted over an empty pool at step `j`, and the pool has been empty since. */
  ghost predicate EmptySince(run: seq<State>, j: nat, i: nat, d: nat)
    requires i < |run|
  {
    && j < i
    && (forall k :: j <= k <= i ==> |run[k].devs| == 2)
    && d < 2 && RestartsEmpty(run, j, d)
    && forall k :: j < k <= i ==> run[k].devs[d].ppool == []
  }

  ghost predicate EverEmptySince(run: seq<State>, i: nat, d: nat)
    requires i < |run|
  {
    exists j: nat :: EmptySince(run, j, i, d)
  }

  lemma {:induction false} OpenMeans(run: seq<State>, n: nat, i: nat, d: nat)
    requires IsRun(run, n) && i < |run| && d < 2
    ensures Unguarded(run[i], d) <==> EverEmptySince(run, i, d)
  {
    hide Inv, Init, Next, Unguarded, EverEmptySince;
    if i == 0 {
      InitIsGuarded(run[0], n, d);
      NeverBeforeStart(run, d);
    } else {
      RunKeepsInv(run, n, i);
      OpenMeans(run, n, i - 1, d);
      RunKeepsInv(run, n, i - 1);
      OpenGrows(run, n, i, d);
    }
  }

  lemma NeverBeforeStart(run: seq<State>, d: nat)
    requires run != []
    ensures !EverEmptySince(run, 0, d)
  {
  }

  lemma InitIsGuarded(s: State, n: nat, d: nat)
    requires Init(s, n) && d < 2
    ensures !Unguarded(s, d)
  {
    assert |s.devs[d].ppool| == n;
  }

  lemma OpenGrows(run: seq<State>, n: nat, i: nat, d: nat)
    requires IsRun(run, n) && 0 < i < |run| && d < 2 && Inv(run[i - 1], n) && Inv(run[i], n)
    requires Unguarded(run[i - 1], d) <==> EverEmptySince(run, i - 1, d)
    ensures Unguarded(run[i], d) <==> EverEmptySince(run, i, d)
  {
    hide Init, Apply, Enabled, Safe, Conserved, Sorted, Serialized, AllChained, RestartOwed, ChosenRuns;
    assert Next(run[i - 1], run[i]);
    var a :| StepBy(run[i - 1], a, run[i]);
    StepOpens(run[i - 1], a, n, d);
    hide Inv, StepBy, IsRun;
    if Unguarded(run[i], d) {
      var j: nat := i - 1;
      if Unguarded(run[i - 1], d) {
        j :| EmptySince(run, j, i - 1, d);
      }
      assert EmptySince(run, j, i, d);
    }
    if j: nat :| EmptySince(run, j, i, d) {
      if j < i - 1 {
        assert EmptySince(run, j, i - 1, d);
      }
    }
  }

  /**
    A task takes a buffer from an empty pool, and so follows a null pointer, exactly if the queue was
    restarted over an empty pool before and no buffer has come back since.
   */
  lemma UnsafeExactly(run: seq<State>, n: nat, i: nat, a: Action)
    requires IsRun(run, n) && i < |run| && Enabled(run[i], a)
    ensures !Safe(run[i], a) <==>
      a.GetTxBuffer? && EverEmptySince(run, i, run[i].tasks[a.t].xmit.dev)
  {
    RunKeepsInv(run, n, i);
    if a.GetTxBuffer? {
      OpenMeans(run, n, i, run[i].tasks[a.t].xmit.dev);
    }
  }

  predicate NeverRestartsEmpty(run: seq<State>, i: nat)
    requires i < |run|
  {
    forall j, d :: 0 <= j < i && 0 <= d < 2 && |run[j].devs| == 2 == |run[j + 1].devs| ==> !RestartsEmpty(run, j, d)
  }

  lemma NoneSince(run: seq<State>, i: nat, d: nat)
    requires i < |run| && NeverRestartsEmpty(run, i)
    ensures !EverEmptySince(run, i, d)
  {
  }

  /** Without such a restart a queue is stopped whenever its pool is empty, and every task finds a buffer. */
  lemma FlowControl(run: seq<State>, n: nat, i: nat)
    requires IsRun(run, n) && i < |run|
    requires NeverRestartsEmpty(run, i)
    ensures |run[i].devs| == 2
    ensures forall d :: 0 <= d < 2 && run[i].devs[d].ppool == [] ==> run[i].devs[d].stopped
    ensures forall a :: Enabled(run[i], a) ==> Safe(run[i], a)
    ensures (forall t :: 0 <= t < |run[i].tasks| ==> !run[i].tasks[t].held.Returning()) ==>
              forall d :: 0 <= d < 2 ==> (run[i].devs[d].stopped <==> run[i].devs[d].ppool == [])
  {
    RunKeepsInv(run, n, i);
    forall d | 0 <= d < 2
      ensures !Unguarded(run[i], d)
    {
      OpenMeans(run, n, i, d);
      RunKeepsInv(run, n, i);
      NoneSince(run, i, d);
    }
    assert !Unguarded(run[i], 0) && !Unguarded(run[i], 1);
    hide Conserved, Serialized, AllChained;
  }

  /**
    A look at a buffer that was put back finds its next pointer null exactly if the buffer is the last of its
    pool, or has been taken again and is the last of the other side's queue, or is in somebody's hands with the
    null pointer it had when it was last on a list.
   */
  lemma LookMeans(s: State, n: nat, p: Packet)
    requires Inv(s, n) && Exists(p, n)
    ensures var pool, queue := s.devs[p.dev].ppool, s.devs[1 - p.dev].rxQueue;
      && (p in pool ==> p !in queue && InTasks(s.tasks, p) == 0 && (NextOf(s.links, p) == None <==> p == pool[|pool| - 1]))
      && (p in queue ==> p !in pool && InTasks(s.tasks, p) == 0 && (NextOf(s.links, p) == None <==> p == queue[|queue| - 1]))
      && (p !in pool && p !in queue ==> InTasks(s.tasks, p) == 1)
  {
    hide Serialized, RestartOwed, ChosenRuns, Chained;
    var pool, queue := s.devs[p.dev].ppool, s.devs[1 - p.dev].rxQueue;
    assert p !in s.devs[p.dev].rxQueue && p !in s.devs[1 - p.dev].ppool;
    assert Places(s, p) == 1;
    if p in queue {
      LastHasNoNext(s.links, queue, p);
    } else if p in pool {
      LastHasNoNext(s.links, pool, p);
    }
  }

  /** At step `k` task `t` found the next pointer of a buffer null, and ever since it has been about to restart the queue. */
  ghost predicate HasLooked(run: seq<State>, t: nat, k: nat, i: nat) {
    && k < i < |run|
    && (forall m :: k <= m <= i ==> t < |run[m].tasks|)
    && run[i].tasks[t].held.Waking?
    && run[k].tasks[t].held == Looking(run[i].tasks[t].held.pkt) && NextOf(run[k].links, run[i].tasks[t].held.pkt) == None
    && forall m :: k < m <= i ==> run[m].tasks[t].held == run[i].tasks[t].held
  }

  lemma InitWakesNothing(s: State, n: nat, t: nat)
    requires Init(s, n) && t < |s.tasks|
    ensures !s.tasks[t].held.Waking?
  {
  }

  /** A task that is about to restart a queue was so before the step, or has looked in it. */
  lemma WaitsToWake(s: State, a: Action, t: nat)
    requires Enabled(s, a) && Safe(s, a)
    requires t < |Apply(s, a).tasks| && Apply(s, a).tasks[t].held.Waking?
    ensures |Apply(s, a).tasks| == |s.tasks|
    ensures var h, h' := s.tasks[t].held, Apply(s, a).tasks[t].held;
      if a.LookNext? && a.t == t then h == Looking(h'.pkt) && NextOf(s.links, h'.pkt) == None else h == h'
  {
    hide Linked;
  }

  lemma {:induction false} WakingHasLooked(run: seq<State>, n: nat, i: nat, t: nat) returns (k: nat)
    requires IsRun(run, n) && i < |run| && t < |run[i].tasks| && run[i].tasks[t].held.Waking?
    ensures HasLooked(run, t, k, i)
  {
    hide Init, Inv, Enabled, Safe, Apply;
    if i == 0 {
      InitWakesNothing(run[0], n, t);
    } else {
      assert Next(run[i - 1], run[i]);
      var a :| StepBy(run[i - 1], a, run[i]);
      WaitsToWake(run[i - 1], a, t);
      if a.LookNext? && a.t == t {
        k := i - 1;
      } else {
        k := WakingHasLooked(run, n, i - 1, t);
      }
    }
  }

  /** The buffer is at the end of a list, or on none. */
  predicate EndsAList(s: State, p: Packet)
    requires |s.devs| == 2 && p.dev < 2
  {
    var pool, queue := s.devs[p.dev].ppool, s.devs[1 - p.dev].rxQueue;
    (pool != [] && p == pool[|pool| - 1]) || (queue != [] && p == queue[|queue| - 1]) || InTasks(s.tasks, p) == 1
  }

  /**
    Behind every restart of an empty pool is an earlier look, made for a buffer that was at that time the last of
    the pool, which has been emptied since, or that had been sent again and was the last of the other side's
    queue or in somebody's hands.
   */
  lemma RestartOfEmptyMeans(run: seq<State>, n: nat, j: nat, d: nat) returns (t: nat, k: nat)
    requires IsRun(run, n) && j + 1 < |run| && d < 2 && |run[j].devs| == 2 == |run[j + 1].devs| && RestartsEmpty(run, j, d)
    ensures HasLooked(run, t, k, j) && StepBy(run[j], Wake(t), run[j + 1]) && |run[k].devs| == 2
    ensures var p := run[j].tasks[t].held.pkt; p.dev == d && EndsAList(run[k], p)
  {
    hide Init, Enabled, Safe, Apply, Conserved, Serialized, AllChained, RestartOwed, ChosenRuns, Sorted;
    assert Next(run[j], run[j + 1]);
    var a :| StepBy(run[j], a, run[j + 1]);
    t := a.t;
    WakesEmpty(run[j], a, d);
    k := WakingHasLooked(run, n, j, t);
    RunKeepsInv(run, n, k);
    assert run[k].tasks[t].held.Returning();
    LookMeans(run[k], n, run[j].tasks[t].held.pkt);
  }

  lemma WakesEmpty(s: State, a: Action, d: nat)
    requires Enabled(s, a) && Safe(s, a) && d < 2 && s.devs[d].stopped && !Apply(s, a).devs[d].stopped
    ensures a == Wake(a.t) && a.t < |s.tasks| && s.tasks[a.t].held.Waking? && s.tasks[a.t].held.pkt.dev == d
  {
    hide Linked;
  }

  /** On a list that holds a buffer once, its next pointer is null exactly if it is the last. */
  lemma LastHasNoNext(links: map<Packet, Packet>, list: seq<Packet>, p: Packet)
    requires Chained(links, list) && p in list && multiset(list)[p] <= 1
    ensures NextOf(links, p) == None <==> p == list[|list| - 1]
  {
    var k :| 0 <= k < |list| && list[k] == p;
    assert NextOf(links, list[k]) == Successor(list, k);
    if k != |list| - 1 {
      Once(list, k, |list| - 1);
    }
  }

  lemma Once(q: seq<Packet>, i: nat, j: nat)
    requires i < j < |q| && multiset(q)[q[i]] <= 1
    ensures q[i] != q[j]
  {
    var front, back := q[..j], q[j..];
    assert q == front + back;
    assert front[i] == q[i] && q[i] in multiset(front);
    assert multiset(back)[q[i]] == 0;
    assert back[0] == q[j] && q[j] in multiset(back);
  }

  // ----- a run that fails

  const A := Packet(0, 0)
  const B := Packet(0, 1)
  const C := Packet(1, 0)
  const D := Packet(1, 1)

  /** Two buffers a side; task 0 transmits on device 0, task 1 receives on device 1. */
  function Scene(pool: seq<Packet>, queue: seq<Packet>, stopped: bool, xmit: Xmit, held: Held, links: map<Packet, Packet>): State {
    State([Device(pool, [], stopped), Device([C, D], queue, false)], [Task(xmit, Nothing), Task(NotSending, held)], links)
  }

  /** Buffer A is put back, and before its test sent again; then B is sent, and the pool is empty. */
  function LateTest(): seq<State> {
    var both, none, rest := map[A := B, C := D], map[C := D], map[B := A, C := D];
    [ Scene([A, B], [], false, NotSending, Nothing, both),
      Scene([A, B], [], false, Chosen(0), Nothing, both),
      Scene([B], [], false, Filling(0, A), Nothing, both),
      Scene([B], [A], false, Sent(0), Nothing, none),
      Scene([B], [A], false, NotSending, Nothing, none),
      Scene([B], [], false, NotSending, Handling(A), none),
      Scene([A, B], [], false, NotSending, Testing(A), both),
      Scene([A, B], [], false, Chosen(0), Testing(A), both),
      Scene([B], [], false, Filling(0, A), Testing(A), both),
      Scene([B], [A], false, Sent(0), Testing(A), none),
      Scene([B], [A], false, NotSending, Testing(A), none),
      Scene([B], [A], false, Chosen(0), Testing(A), none),
      Scene([], [A], true, Filling(0, B), Testing(A), none),
      Scene([], [B, A], true, Sent(0), Testing(A), rest),
      Scene([], [B, A], true, NotSending, Testing(A), rest),
      Scene([], [B, A], true, NotSending, Looking(A), rest),
      Scene([], [B, A], true, NotSending, Waking(A), rest),
      Scene([], [B, A], false, NotSending, Nothing, rest),
      Scene([], [B, A], false, Chosen(0), Nothing, rest) ]
  }

  function LateTestActions(): seq<Action> {
    [ StartXmit(0, 0), GetTxBuffer(0), EnqueueBuf(0), EndXmit(0), DequeueBuf(1, 1), PutBack(1),
      StartXmit(0, 0), GetTxBuffer(0), EnqueueBuf(0), EndXmit(0), StartXmit(0, 0), GetTxBuffer(0), EnqueueBuf(0), EndXmit(0),
      TestStopped(1), LookNext(1), Wake(1), StartXmit(0, 0) ]
  }

  lemma SceneStarts(pool: seq<Packet>, queue: seq<Packet>, held: Held, links: map<Packet, Packet>)
    ensures StepBy(Scene(pool, queue, false, NotSending, held, links), StartXmit(0, 0), Scene(pool, queue, false, Chosen(0), held, links))
  {
  }

  lemma SceneGets(p: Packet, pool: seq<Packet>, queue: seq<Packet>, held: Held, links: map<Packet, Packet>)
    ensures StepBy(Scene([p] + pool, queue, false, Chosen(0), held, links), GetTxBuffer(0),
                   Scene(pool, queue, pool == [], Filling(0, p), held, links))
  {
  }

  lemma SceneQueues(p: Packet, pool: seq<Packet>, queue: seq<Packet>, stopped: bool, held: Held, links: map<Packet, Packet>)
    ensures StepBy(Scene(pool, queue, stopped, Filling(0, p), held, links), EnqueueBuf(0),
                   Scene(pool, [p] + queue, stopped, Sent(0), held, Linked(links, p, queue)))
  {
    hide Linked;
  }

  lemma SceneEnds(pool: seq<Packet>, queue: seq<Packet>, stopped: bool, held: Held, links: map<Packet, Packet>)
    ensures StepBy(Scene(pool, queue, stopped, Sent(0), held, links), EndXmit(0), Scene(pool, queue, stopped, NotSending, held, links))
  {
  }

  lemma SceneReceives(p: Packet, pool: seq<Packet>, links: map<Packet, Packet>)
    requires p.dev == 0
    ensures StepBy(Scene(pool, [p], false, NotSending, Nothing, links), DequeueBuf(1, 1),
                   Scene(pool, [], false, NotSending, Handling(p), links))
    ensures StepBy(Scene(pool, [], false, NotSending, Handling(p), links), PutBack(1),
                   Scene([p] + pool, [], false, NotSending, Testing(p), Linked(links, p, pool)))
  {
    assert [p][1..] == [];
    hide Linked;
  }

  lemma SceneRestarts(p: Packet, queue: seq<Packet>, links: map<Packet, Packet>)
    requires p.dev == 0 && NextOf(links, p) == None
    ensures StepBy(Scene([], queue, true, NotSending, Testing(p), links), TestStopped(1), Scene([], queue, true, NotSending, Looking(p), links))
    ensures StepBy(Scene([], queue, true, NotSending, Looking(p), links), LookNext(1), Scene([], queue, true, NotSending, Waking(p), links))
    ensures StepBy(Scene([], queue, true, NotSending, Waking(p), links), Wake(1), Scene([], queue, false, NotSending, Nothing, links))
  {
  }

  lemma SmallLists()
    ensures [A] + [] == [A] && [A] + [B] == [A, B] && [B] + [A] == [B, A] && [B] + [] == [B]
    ensures Linked(map[A := B, C := D], A, []) == map[C := D] == Linked(map[C := D], A, [])
    ensures Linked(map[C := D], A, [B]) == map[A := B, C := D] && Linked(map[C := D], B, [A]) == map[B := A, C := D]
  {
  }

  lemma LateTestSteps(i: nat)
    requires i < 18
    ensures StepBy(LateTest()[i], LateTestActions()[i], LateTest()[i + 1])
  {
    SmallLists();
    hide StepBy, Linked, Scene;
    var both, none, rest := map[A := B, C := D], map[C := D], map[B := A, C := D];
    match i {
      case 0 => SceneStarts([A, B], [], Nothing, both);
      case 1 => SceneGets(A, [B], [], Nothing, both);
      case 2 => SceneQueues(A, [B], [], false, Nothing, both);
      case 3 => SceneEnds([B], [A], false, Nothing, none);
      case 4 => SceneReceives(A, [B], none);
      case 5 => SceneReceives(A, [B], none);
      case 6 => SceneStarts([A, B], [], Testing(A), both);
      case 7 => SceneGets(A, [B], [], Testing(A), both);
      case 8 => SceneQueues(A, [B], [], false, Testing(A), both);
      case 9 => SceneEnds([B], [A], false, Testing(A), none);
      case 10 => SceneStarts([B], [A], Testing(A), none);
      case 11 => SceneGets(B, [], [A], Testing(A), none);
      case 12 => SceneQueues(B, [], [A], true, Testing(A), none);
      case 13 => SceneEnds([], [B, A], true, Testing(A), rest);
      case 14 => SceneRestarts(A, [B, A], rest);
      case 15 => SceneRestarts(A, [B, A], rest);
      case 16 => SceneRestarts(A, [B, A], rest);
      case 17 => SceneStarts([], [B, A], Nothing, rest);
    }
  }

  /** The late test finds A last on the other queue and restarts the queue of the empty pool; the next transmission takes a buffer from it. */
  lemma LateTestFails()
    ensures var run := LateTest();
      IsRun(run, 2) && RestartsEmpty(run, 16, 0) && Enabled(run[18], GetTxBuffer(0)) && !Safe(run[18], GetTxBuffer(0))
  {
    var run := LateTest();
    forall i | 0 < i < |run|
      ensures Next(run[i - 1], run[i])
    {
      LateTestSteps(i - 1);
      assert StepBy(run[i - 1], LateTestActions()[i - 1], run[i]);
    }
    var links := run[0].links;
    assert NextOf(links, Packet(0, 0)) == Some(B) && NextOf(links, Packet(0, 1)) == None;
    assert NextOf(links, Packet(1, 0)) == Some(D) && NextOf(links, Packet(1, 1)) == None;
    forall d, k | 0 <= d < 2 && 0 <= k < 2
      ensures NextOf(links, Packet(d, k)) == if k + 1 < 2 then Some(Packet(d, k + 1)) else None
    {
      assert (d == 0 || d == 1) && (k == 0 || k == 1);
    }
    assert seq(2, i requires 0 <= i => Packet(0, i)) == [A, B];
    assert seq(2, i requires 0 <= i => Packet(1, i)) == [C, D];
  }
}
