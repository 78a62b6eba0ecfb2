/**
  Mapping a scullp device takes no lock: the test of the allocation order and the count of the mapping are
  steps of their own, and so are the load and the store of the counter.  A trim, which holds the mutex and
  looks at the counter, may come between any two of them.
 */
module MmapRace {
  import opened Counting

  /**
    A mapping that is not there, that found the order to be 0, that has loaded the counter to add to it, that
    is there, that is being closed, and that has loaded the counter to take from it.
   */
  datatype Task = Outside | Tested | Adding(seen: int) | Mapped | Closing | Removing(seen: int)
  {
    /** Between the beginning and the end of mmap or of the close. */
    predicate Midway() {
      Tested? || Adding? || Closing? || Removing?
    }

    /** What this task stores in the counter. */
    function Stored(): int
      requires Adding? || Removing?
    {
      if Adding? then seen + 1 else seen - 1
    }
  }

  datatype State = State(order: int, vmas: int, tasks: seq<Task>)

  datatype Action = Test(t: nat) | Close(t: nat) | Load(t: nat) | Store(t: nat) | Trim(order: int)

  predicate Init(s: State) {
    s.vmas == 0 && forall t :: 0 <= t < |s.tasks| ==> s.tasks[t] == Outside
  }

  predicate Enabled(s: State, a: Action) {
    match a
    case Test(t) => t < |s.tasks| && s.tasks[t] == Outside
    case Close(t) => t < |s.tasks| && s.tasks[t] == Mapped
    case Load(t) => t < |s.tasks| && (s.tasks[t] == Tested || s.tasks[t] == Closing)
    case Store(t) => t < |s.tasks| && (s.tasks[t].Adding? || s.tasks[t].Removing?)
    case Trim(_) => true
  }

  function Apply(s: State, a: Action): State
    requires Enabled(s, a)
  {
    match a
    case Test(t) => if s.order == 0 then s.(tasks := s.tasks[t := Tested]) else s
    case Close(t) => s.(tasks := s.tasks[t := Closing])
    case Load(t) => s.(tasks := s.tasks[t := if s.tasks[t].Tested? then Adding(s.vmas) else Removing(s.vmas)])
    case Store(t) => s.(vmas := s.tasks[t].Stored(), tasks := s.tasks[t := if s.tasks[t].Adding? then Mapped else Outside])
    case Trim(order) => if s.vmas != 0 then s else s.(order := order)
  }

  predicate StepBy(s: State, a: Action, s': State) {
    Enabled(s, a) && s' == Apply(s, a)
  }

  ghost predicate Next(s: State, s': State) {
    exists a :: StepBy(s, a, s')
  }

  ghost predicate IsPath(path: seq<State>) {
    0 < |path| && forall i :: 0 < i < |path| ==> Next(path[i - 1], path[i])
  }

  // ----- the counter

  const Counted := (d: Task) => d.Mapped? || d.Closing? || d.Removing?

  /** The counter is the number of mappings whose count has not been taken back. */
  predicate Exact(s: State) {
    s.vmas == Count(s.tasks, Counted)
  }

  /** The step stores a value worked out from one that the counter no longer has. */
  predicate StoresStale(s: State, a: Action)
    requires Enabled(s, a)
  {
    a.Store? && s.tasks[a.t].seen != s.vmas
  }

  ghost predicate Overwrites(s: State, s': State) {
    exists a :: StepBy(s, a, s') && StoresStale(s, a)
  }

  lemma StepCounts(s: State, a: Action)
    requires Exact(s) && Enabled(s, a)
    ensures Exact(Apply(s, a)) <==> !StoresStale(s, a)
  {
    if !a.Trim? {
      CountChanges(s.tasks, a.t, Apply(s, a).tasks[a.t], Counted);
      assert s.tasks[a.t := s.tasks[a.t]] == s.tasks;
    }
  }

  lemma NextCounts(s: State, s': State)
    requires Exact(s) && Next(s, s')
    ensures Exact(s') <==> !Overwrites(s, s')
  {
    hide Exact, Enabled, Apply, StoresStale;
    var a :| StepBy(s, a, s');
    StepCounts(s, a);
    if Overwrites(s, s') {
      var b :| StepBy(s, b, s') && StoresStale(s, b);
      StepCounts(s, b);
    }
  }

  /** In any run the counter is right all the way exactly if no store overwrites a change that came after its load. */
  lemma {:induction false} RunCountsExactly(run: seq<State>, i: nat)
    requires IsPath(run) && Init(run[0]) && i < |run|
    ensures (forall j :: 0 <= j <= i ==> Exact(run[j])) <==> (forall j :: 0 < j <= i ==> !Overwrites(run[j - 1], run[j]))
  {
    if i == 0 {
      CountNone(run[0].tasks, Counted);
    } else {
      RunCountsExactly(run, i - 1);
      assert Next(run[i - 1], run[i]);
      if Exact(run[i - 1]) {
        NextCounts(run[i - 1], run[i]);
      }
    }
  }

  /** A step of a call that is under way, or a trim. */
  ghost predicate Continues(s: State, s': State) {
    exists a :: StepBy(s, a, s') && !a.Test? && !a.Close?
  }

  ghost predicate Leads(path: seq<State>, s: State, s': State) {
    && 0 < |path| && path[0] == s && path[|path| - 1] == s'
    && forall i :: 0 < i < |path| ==> Continues(path[i - 1], path[i])
  }

  ghost predicate Reaches(s: State, s': State) {
    exists path :: Leads(path, s, s')
  }

  /** However the calls under way go on, the counter is right. */
  ghost predicate StaysExact(s: State) {
    forall s' :: Reaches(s, s') ==> Exact(s')
  }

  /** Every value loaded is still the counter's. */
  predicate Fresh(s: State) {
    forall t :: 0 <= t < |s.tasks| && (s.tasks[t].Adding? || s.tasks[t].Removing?) ==> s.tasks[t].seen == s.vmas
  }

  predicate OneMidway(s: State) {
    forall t, u :: 0 <= t < u < |s.tasks| ==> !(s.tasks[t].Midway() && s.tasks[u].Midway())
  }

  lemma {:induction false} AloneStaysExact(path: seq<State>, i: nat)
    requires 0 < |path| && Leads(path, path[0], path[|path| - 1]) && i < |path|
    requires Exact(path[0]) && Fresh(path[0]) && OneMidway(path[0])
    ensures Exact(path[i]) && Fresh(path[i]) && OneMidway(path[i])
  {
    if i > 0 {
      AloneStaysExact(path, i - 1);
      assert Continues(path[i - 1], path[i]);
      var a :| StepBy(path[i - 1], a, path[i]) && !a.Test? && !a.Close?;
      StepCounts(path[i - 1], a);
    }
  }

  lemma GoesOn(s: State, s': State, a: Action)
    requires Reaches(s, s') && Enabled(s', a) && !a.Test? && !a.Close?
    ensures Reaches(s, Apply(s', a))
  {
    hide Enabled, Apply;
    var path :| Leads(path, s, s');
    assert StepBy(s', a, Apply(s', a));
    assert Leads(path + [Apply(s', a)], s, Apply(s', a));
  }

  /** A task that is midway gets to the point where it has loaded the counter. */
  lemma LoadsFirst(s: State, s': State, t: nat) returns (r: State)
    requires Reaches(s, s') && Exact(s') && Fresh(s') && t < |s'.tasks| && s'.tasks[t].Midway()
    ensures Reaches(s, r) && Exact(r) && Fresh(r) && |r.tasks| == |s'.tasks| && (r.tasks[t].Adding? || r.tasks[t].Removing?)
    ensures forall u :: 0 <= u < |r.tasks| && u != t ==> r.tasks[u] == s'.tasks[u]
  {
    if s'.tasks[t].Tested? || s'.tasks[t].Closing? {
      r := Apply(s', Load(t));
      GoesOn(s, s', Load(t));
      StepCounts(s', Load(t));
    } else {
      r := s';
    }
  }

  /**
    With a right counter and no stale load, the counter stays right however the calls under way go on, exactly
    if no two of them are under way.
   */
  lemma StaysExactExactly(s: State)
    requires Exact(s) && Fresh(s)
    ensures StaysExact(s) <==> OneMidway(s)
  {
    if OneMidway(s) {
      forall s' | Reaches(s, s') ensures Exact(s') {
        var path :| Leads(path, s, s');
        AloneStaysExact(path, |path| - 1);
      }
    } else {
      var t, u :| 0 <= t < u < |s.tasks| && s.tasks[t].Midway() && s.tasks[u].Midway();
      TwoGoWrong(s, t, u);
    }
  }

  lemma TwoGoWrong(s: State, t: nat, u: nat)
    requires Exact(s) && Fresh(s) && t < u < |s.tasks| && s.tasks[t].Midway() && s.tasks[u].Midway()
    ensures !StaysExact(s)
  {
    assert Leads([s], s, s);
    hide Exact, Reaches;
    var s1 := LoadsFirst(s, s, t);
    var s2 := LoadsFirst(s, s1, u);
    GoesOn(s, s2, Store(t));
    StepCounts(s2, Store(t));
    var s3 := Apply(s2, Store(t));
    GoesOn(s, s3, Store(u));
    StepCounts(s3, Store(u));
    assert !Exact(Apply(s3, Store(u)));
  }

  // ----- the order

  /** Only devices of single pages are mapped. */
  predicate Safe(s: State) {
    forall t :: 0 <= t < |s.tasks| && s.tasks[t].Mapped? ==> s.order == 0
  }

  /** A task is about to map the device. */
  predicate Pending(s: State) {
    exists t :: 0 <= t < |s.tasks| && (s.tasks[t].Tested? || s.tasks[t].Adding?)
  }

  predicate Sound(s: State) {
    Exact(s) && Safe(s) && (Pending(s) ==> s.order == 0)
  }

  /** The step gives the device another order than 0 while a task is about to map it. */
  predicate TrimsUnder(s: State, s': State) {
    Pending(s) && s.order == 0 && s'.order != 0
  }

  lemma StepIsSound(s: State, a: Action)
    requires Sound(s) && Enabled(s, a)
    ensures Sound(Apply(s, a)) <==> !TrimsUnder(s, Apply(s, a)) && !StoresStale(s, a)
  {
    var s' := Apply(s, a);
    StepCounts(s, a);
    CountNone(s.tasks, Counted);
    if Pending(s') && !Pending(s) {
      assert a.Test?;
    }
    if a.Trim? && Pending(s) {
      assert s'.tasks == s.tasks;
    }
  }

  /**
    As long as no trim comes between a test and its count, and no store overwrites a change after its load, the
    counter is right and only devices of order 0 are mapped.
   */
  lemma {:induction false} RunIsSafe(run: seq<State>, i: nat)
    requires IsPath(run) && Init(run[0]) && i < |run|
    requires forall j :: 0 < j <= i ==> !TrimsUnder(run[j - 1], run[j]) && !Overwrites(run[j - 1], run[j])
    ensures Sound(run[i])
  {
    if i == 0 {
      CountNone(run[0].tasks, Counted);
    } else {
      RunIsSafe(run, i - 1);
      assert Next(run[i - 1], run[i]);
      var a :| StepBy(run[i - 1], a, run[i]);
      StepIsSound(run[i - 1], a);
    }
  }

  predicate KeepsOrder(path: seq<State>, i: nat)
    requires i < |path|
  {
    forall k :: 0 <= k <= i ==> path[k].order == path[0].order
  }

  /** However the tasks go on, the device is never mapped while it has another order than 0, as long as it keeps the order. */
  ghost predicate StaysSafe(s: State) {
    forall path: seq<State>, i :: IsPath(path) && path[0] == s && 0 <= i < |path| && KeepsOrder(path, i) ==> Safe(path[i])
  }

  /** With no task about to count and another order than 0, nobody gets to map the device. */
  lemma {:induction false} NobodyMaps(path: seq<State>, i: nat)
    requires IsPath(path) && i < |path| && path[0].order != 0 && Safe(path[0]) && !Pending(path[0])
    requires KeepsOrder(path, i)
    ensures Safe(path[i]) && !Pending(path[i])
  {
    if i > 0 {
      NobodyMaps(path, i - 1);
      assert Next(path[i - 1], path[i]);
      var a :| StepBy(path[i - 1], a, path[i]);
    }
  }

  /** With another order than 0 the device stays safe exactly if it is not mapped and no task is about to map it. */
  lemma TrimIsSafeExactly(s: State)
    requires s.order != 0
    ensures StaysSafe(s) <==> Safe(s) && !Pending(s)
  {
    if Pending(s) {
      var t :| 0 <= t < |s.tasks| && (s.tasks[t].Tested? || s.tasks[t].Adding?);
      MapsInTheEnd(s, t);
    } else if Safe(s) {
      forall path: seq<State>, i | IsPath(path) && path[0] == s && 0 <= i < |path| && KeepsOrder(path, i)
        ensures Safe(path[i])
      {
        NobodyMaps(path, i);
      }
    } else {
      assert IsPath([s]) && [s][0] == s && KeepsOrder([s], 0);
    }
  }

  lemma MapsInTheEnd(s: State, t: nat)
    requires s.order != 0 && t < |s.tasks| && (s.tasks[t].Tested? || s.tasks[t].Adding?)
    ensures !StaysSafe(s)
  {
    var s1 := if s.tasks[t].Tested? then Apply(s, Load(t)) else s;
    var s2 := Apply(s1, Store(t));
    var path := if s.tasks[t].Tested? then [s, s1, s2] else [s, s2];
    assert s.tasks[t].Tested? ==> StepBy(s, Load(t), s1);
    assert StepBy(s1, Store(t), s2);
    assert s2.tasks[t] == Mapped && path[|path| - 1] == s2;
    assert IsPath(path) && path[0] == s && KeepsOrder(path, |path| - 1);
  }

  /** The order is tested, the device is trimmed to order 1, and the mapping is counted. */
  function TrimmedUnder(): seq<State> {
    [ State(0, 0, [Outside]), State(0, 0, [Tested]), State(1, 0, [Tested]), State(1, 0, [Adding(0)]), State(1, 1, [Mapped]) ]
  }

  /** A run that maps a device of order 1, with a right counter. */
  lemma MappedWithOrder()
    ensures var run := TrimmedUnder(); IsPath(run) && Init(run[0]) && Exact(run[4]) && !Safe(run[4])
  {
    var run := TrimmedUnder();
    assert StepBy(run[0], Test(0), run[1]);
    assert StepBy(run[1], Trim(1), run[2]);
    assert StepBy(run[2], Load(0), run[3]);
    assert StepBy(run[3], Store(0), run[4]);
    assert Exact(run[4]) && run[4].tasks[0].Mapped?;
  }

  /** Two mappings are counted as one; when one of them is closed the counter is 0, and the trim goes ahead. */
  function CountedOnce(): seq<State> {
    [ State(0, 0, [Outside, Outside]),
      State(0, 0, [Tested, Outside]),
      State(0, 0, [Tested, Tested]),
      State(0, 0, [Adding(0), Tested]),
      State(0, 0, [Adding(0), Adding(0)]),
      State(0, 1, [Mapped, Adding(0)]),
      State(0, 1, [Mapped, Mapped]),
      State(0, 1, [Closing, Mapped]),
      State(0, 1, [Removing(1), Mapped]),
      State(0, 0, [Outside, Mapped]),
      State(1, 0, [Outside, Mapped]) ]
  }

  lemma CountedOnceIsAPath()
    ensures IsPath(CountedOnce())
  {
    var run := CountedOnce();
    assert StepBy(run[0], Test(0), run[1]);
    assert StepBy(run[1], Test(1), run[2]);
    assert StepBy(run[2], Load(0), run[3]);
    assert StepBy(run[3], Load(1), run[4]);
    assert StepBy(run[4], Store(0), run[5]);
    assert StepBy(run[5], Store(1), run[6]);
    assert StepBy(run[6], Close(0), run[7]);
    assert StepBy(run[7], Load(0), run[8]);
    assert StepBy(run[8], Store(0), run[9]);
    assert StepBy(run[9], Trim(1), run[10]);
  }

  /** So a device can be trimmed under a mapping although none was about to be counted. */
  lemma TrimmedWhileMapped()
    ensures var run := CountedOnce();
      && IsPath(run) && Init(run[0])
      && !Exact(run[6]) && !Pending(run[9]) && Enabled(run[9], Trim(1)) && run[10] == Apply(run[9], Trim(1)) && !Safe(run[10])
  {
    CountedOnceIsAPath();
    hide IsPath, Next;
    var run := CountedOnce();
    CountTwo(run[6].tasks, 0, 1, Counted);
    assert run[10].tasks[1].Mapped?;
  }
}
