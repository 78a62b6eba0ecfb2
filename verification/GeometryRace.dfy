/**
  A scull call reads the device's quantum and pointer-array length before it takes the mutex.  When a trim
  gives the device another geometry in between, the call addresses, and allocates, by the old one.  The steps
  are the two reads and the locked section of a call; every allocation is granted.
 */
module GeometryRace {
  import opened Geometry
  import opened Kernel

  type Size = n: nat | 0 < n witness 1

  /** A list item without its pointer array, or with one of some length; a slot of that is null or a block of some length. */
  type Item = Option<seq<Option<nat>>>

  /** A read or write that has fetched the quantum, or both numbers. */
  datatype Call = Half(writes: bool, quantum: Size) | Ready(writes: bool, quantum: Size, qset: Size)

  datatype State = State(quantum: Size, qset: Size, items: seq<Item>, size: nat, calls: seq<Call>)
  {
    function Without(c: nat): State
      requires c < |calls|
    {
      this.(calls := calls[..c] + calls[c + 1..])
    }
  }

  datatype Action =
    | Start(writes: bool)
    | Fetch(c: nat)
    | Finish(c: nat, pos: nat, count: nat)
    | Trim(quantum: Size, qset: Size)

  predicate Init(s: State) {
    s.items == [] && s.size == 0 && s.calls == []
  }

  predicate Enabled(s: State, a: Action) {
    match a
    case Start(_) => true
    case Fetch(c) => c < |s.calls| && s.calls[c].Half?
    case Finish(c, _, _) => c < |s.calls| && s.calls[c].Ready?
    case Trim(_, _) => true
  }

  /** The list once it has been followed to item `n`. */
  function Followed(items: seq<Item>, n: nat): (r: seq<Item>)
    ensures |r| == Max(|items|, n + 1)
    ensures forall i :: 0 <= i < |r| ==> r[i] == if i < |items| then items[i] else None
  {
    items + seq(Max(0, n + 1 - |items|), _ => None)
  }

  /** The pointer array that a write finds or makes. */
  function Slots(item: Item, qset: nat): seq<Option<nat>> {
    if item.Some? then item.value else seq(qset, _ => None)
  }

  /** The bytes from `off` on are inside the block, if there is one. */
  predicate Fits(block: Option<nat>, off: nat, count: nat) {
    block.Some? && 0 < count ==> off + count <= block.value
  }

  function Count(s: State, call: Call, pos: nat, count: nat): nat
    requires call.Ready? && (call.writes || pos < s.size)
  {
    Min(if call.writes then count else Min(count, s.size - pos), call.quantum - Locate(pos, call.quantum, call.qset).off)
  }

  /** The section indexes no pointer array behind its end and copies to or from no byte behind the end of a block. */
  predicate Inside(s: State, a: Action)
    requires Enabled(s, a)
  {
    match a
    case Finish(c, pos, count) =>
      var call := s.calls[c];
      var at := Locate(pos, call.quantum, call.qset);
      var item := Followed(s.items, at.item)[at.item];
      if !call.writes && (s.size <= pos || item == None) then true
      else
        var slots := Slots(item, call.qset);
        at.slot < |slots| && Fits(slots[at.slot], at.off, Count(s, call, pos, count))
    case Trim(_, _) => forall i :: 0 <= i < |s.items| && s.items[i].Some? ==> s.qset <= |s.items[i].value|
    case _ => true
  }

  function Apply(s: State, a: Action): State
    requires Enabled(s, a) && Inside(s, a)
  {
    match a
    case Start(writes) => s.(calls := s.calls + [Half(writes, s.quantum)])
    case Fetch(c) => s.(calls := s.calls[c := Ready(s.calls[c].writes, s.calls[c].quantum, s.qset)])
    case Finish(c, pos, count) =>
      var call := s.calls[c];
      var at := Locate(pos, call.quantum, call.qset);
      if call.writes then Stored(s, call, at).(size := Max(s.size, pos + Count(s, call, pos, count))).Without(c)
      else if s.size <= pos then s.Without(c)
      else s.(items := Followed(s.items, at.item)).Without(c)
    case Trim(quantum, qset) => s.(quantum := quantum, qset := qset, items := [], size := 0)
  }

  /** The array and the block that are missing are made to the measure of the call. */
  function Stored(s: State, call: Call, at: Addr): State
    requires call.Ready? && at.slot < |Slots(Followed(s.items, at.item)[at.item], call.qset)|
  {
    var list := Followed(s.items, at.item);
    var slots := Slots(list[at.item], call.qset);
    s.(items := list[at.item := Some(slots[at.slot := if slots[at.slot] == None then Some(call.quantum) else slots[at.slot]])])
  }

  predicate StepBy(s: State, a: Action, s': State) {
    Enabled(s, a) && Inside(s, a) && s' == Apply(s, a)
  }

  ghost predicate Next(s: State, s': State) {
    exists a :: StepBy(s, a, s')
  }

  ghost predicate IsRun(run: seq<State>) {
    && 0 < |run| && Init(run[0])
    && forall i :: 0 < i < |run| ==> Next(run[i - 1], run[i])
  }

  // ----- calls that fit the device

  predicate ItemIsUniform(item: Item, quantum: nat, qset: nat) {
    item.Some? ==> |item.value| == qset && forall j :: 0 <= j < qset && item.value[j].Some? ==> item.value[j].value == quantum
  }

  /** Every array has `qset` slots and every block `quantum` bytes. */
  predicate Uniform(s: State) {
    forall i :: 0 <= i < |s.items| ==> ItemIsUniform(s.items[i], s.quantum, s.qset)
  }

  predicate IsCurrent(s: State, call: Call) {
    call.quantum == s.quantum && (call.Ready? ==> call.qset == s.qset)
  }

  predicate AllCurrent(s: State) {
    forall c :: 0 <= c < |s.calls| ==> IsCurrent(s, s.calls[c])
  }

  /** The call is a write with the geometry of the device, or a read with one that is not larger. */
  predicate IsHarmless(s: State, call: Call) {
    IsCurrent(s, call) || (!call.writes && call.quantum <= s.quantum && (call.Ready? ==> call.qset <= s.qset))
  }

  predicate AllHarmless(s: State) {
    forall c :: 0 <= c < |s.calls| ==> IsHarmless(s, s.calls[c])
  }

  lemma HarmlessIsInside(s: State, c: nat, pos: nat, count: nat)
    requires Uniform(s) && Enabled(s, Finish(c, pos, count)) && IsHarmless(s, s.calls[c])
    ensures Inside(s, Finish(c, pos, count)) && Uniform(Apply(s, Finish(c, pos, count)))
  {
    LocateIsFlat(pos, s.calls[c].quantum, s.calls[c].qset);
    hide Locate;
    var a := Finish(c, pos, count);
    assert Inside(s, a);
    var s' := Apply(s, a);
    forall i | 0 <= i < |s'.items| ensures ItemIsUniform(s'.items[i], s.quantum, s.qset) {
      if i < |s.items| {
        assert ItemIsUniform(s.items[i], s.quantum, s.qset);
      }
    }
  }

  lemma OthersStay(s: State, c: nat, pos: nat, count: nat)
    requires Enabled(s, Finish(c, pos, count)) && Inside(s, Finish(c, pos, count))
    ensures var s' := Apply(s, Finish(c, pos, count));
      && s'.quantum == s.quantum && s'.qset == s.qset
      && (AllHarmless(s) ==> AllHarmless(s')) && (AllCurrent(s) ==> AllCurrent(s'))
  {
    hide Locate, Count, Inside;
    var s' := Apply(s, Finish(c, pos, count));
    assert forall d :: 0 <= d < |s'.calls| ==> s'.calls[d] == s.calls[if d < c then d else d + 1];
  }

  /** No step but a trim makes a call, an array or a block that is not to the measure of the device. */
  lemma StepKeepsHarmless(s: State, a: Action)
    requires Uniform(s) && AllHarmless(s) && Enabled(s, a)
    ensures Inside(s, a)
    ensures !a.Trim? ==> Uniform(Apply(s, a)) && AllHarmless(Apply(s, a)) && (AllCurrent(s) ==> AllCurrent(Apply(s, a)))
    ensures a.Trim? ==> Uniform(Apply(s, a))
  {
    hide Locate, Count, Stored;
    match a {
      case Finish(c, pos, count) =>
        HarmlessIsInside(s, c, pos, count);
        OthersStay(s, c, pos, count);
      case Trim(_, _) =>
        assert forall i :: 0 <= i < |s.items| ==> ItemIsUniform(s.items[i], s.quantum, s.qset);
      case _ =>
    }
  }

  /** The step leaves a call under way with another geometry than the device's. */
  predicate LeavesStale(s: State, s': State) {
    AllCurrent(s) && !AllCurrent(s')
  }

  /**
    As long as no trim changes the geometry while a call that has read it is under way, every pointer array and
    every block is to the measure of the device, and every access is inside them.
   */
  lemma {:induction false} RunIsInside(run: seq<State>, i: nat)
    requires IsRun(run) && i < |run|
    requires forall j :: 0 < j <= i ==> !LeavesStale(run[j - 1], run[j])
    ensures Uniform(run[i]) && AllCurrent(run[i])
    ensures forall a :: Enabled(run[i], a) ==> Inside(run[i], a)
  {
    if i > 0 {
      RunIsInside(run, i - 1);
      assert Next(run[i - 1], run[i]);
      var a :| StepBy(run[i - 1], a, run[i]);
      StepKeepsHarmless(run[i - 1], a);
    }
    forall a | Enabled(run[i], a) ensures Inside(run[i], a) {
      StepKeepsHarmless(run[i], a);
    }
  }

  // ----- what may follow a trim

  ghost predicate Continues(s: State, s': State) {
    exists a :: StepBy(s, a, s') && !a.Trim?
  }

  ghost predicate Leads(path: seq<State>, s: State, s': State) {
    && 0 < |path| && path[0] == s && path[|path| - 1] == s'
    && forall i :: 0 < i < |path| ==> Continues(path[i - 1], path[i])
  }

  ghost predicate Reaches(s: State, s': State) {
    exists path :: Leads(path, s, s')
  }

  /** Whatever calls go on and begin, until the next trim every access is inside. */
  ghost predicate StaysInside(s: State) {
    forall s', a :: Reaches(s, s') && Enabled(s', a) && !a.Trim? ==> Inside(s', a)
  }

  lemma {:induction false} PathIsHarmless(path: seq<State>, i: nat)
    requires 0 < |path| && Leads(path, path[0], path[|path| - 1]) && i < |path|
    requires Uniform(path[0]) && AllHarmless(path[0])
    ensures Uniform(path[i]) && AllHarmless(path[i])
  {
    hide Enabled, Inside, Apply, Uniform, AllHarmless;
    if i > 0 {
      PathIsHarmless(path, i - 1);
      assert Continues(path[i - 1], path[i]);
      var a :| StepBy(path[i - 1], a, path[i]) && !a.Trim?;
      StepKeepsHarmless(path[i - 1], a);
    }
  }

  lemma GoesOn(s: State, s': State, a: Action)
    requires Reaches(s, s') && Enabled(s', a) && Inside(s', a) && !a.Trim?
    ensures Reaches(s, Apply(s', a))
  {
    hide Enabled, Inside, Apply;
    var path :| Leads(path, s, s');
    assert StepBy(s', a, Apply(s', a));
    assert Leads(path + [Apply(s', a)], s, Apply(s', a));
  }

  /** Another call comes and reads the geometry. */
  lemma Comes(s: State, s': State) returns (r: State)
    requires Reaches(s, s')
    ensures r == s'.(calls := s'.calls + [Ready(true, s'.quantum, s'.qset)]) && Reaches(s, r)
  {
    hide Reaches;
    GoesOn(s, s', Start(true));
    var half := Apply(s', Start(true));
    GoesOn(s, half, Fetch(|s'.calls|));
    r := Apply(half, Fetch(|s'.calls|));
    assert r.calls == s'.calls + [Ready(true, s'.quantum, s'.qset)];
  }

  /** Another call comes and writes a byte at `pos`.  The first block stays if it was there, and is there once byte 0 was written. */
  lemma Writes(s: State, s': State, pos: nat) returns (r: State)
    requires Reaches(s, s') && Uniform(s')
    ensures Reaches(s, r) && Uniform(r) && r.calls == s'.calls && r.quantum == s'.quantum && r.qset == s'.qset
    ensures pos < r.size && s'.size <= r.size
    ensures pos == 0 || (s'.items != [] && HasBlock(s'.items[0])) ==> r.items != [] && HasBlock(r.items[0])
  {
    hide Reaches;
    var call := Comes(s, s');
    var a := Finish(|s'.calls|, pos, 1);
    LocateIsFlat(pos, s'.quantum, s'.qset);
    FlattenIsLocated(Addr(0, 0, 0), s'.quantum, s'.qset);
    assert Uniform(call);
    hide Locate, Uniform;
    HarmlessIsInside(call, |s'.calls|, pos, 1);
    GoesOn(s, call, a);
    r := Apply(call, a);
    assert r.calls == s'.calls;
  }

  /** The item has a pointer array with a block in its first slot. */
  predicate HasBlock(item: Item) {
    item.Some? && 0 < |item.value| && item.value[0].Some?
  }

  /** A write with a smaller quantum or array length makes an array or block that is too short for the next write. */
  lemma SmallGoesWrong(s: State, s': State, c: nat)
    requires Reaches(s, s') && s'.items == [] && c < |s'.calls| && s'.calls[c].Ready? && s'.calls[c].writes
    requires s'.calls[c].qset < s'.qset || s'.calls[c].quantum < s'.quantum
    ensures !StaysInside(s)
  {
    hide Reaches;
    var call := s'.calls[c];
    FlattenIsLocated(Addr(0, 0, 0), call.quantum, call.qset);
    hide Locate;
    var a := Finish(c, 0, 1);
    GoesOn(s, s', a);
    var done := Apply(s', a);
    assert |done.items| == 1 && done.items[0].Some? && |done.items[0].value| == call.qset && done.items[0].value[0] == Some(call.quantum);
    var last := Comes(s, done);
    var to := if call.qset < s'.qset then Addr(0, call.qset, 0) else Addr(0, 0, call.quantum);
    FlattenIsLocated(to, s'.quantum, s'.qset);
    assert !Inside(last, Finish(|done.calls|, Flatten(to, s'.quantum, s'.qset), 1));
  }

  /** A call with a larger quantum or array length looks behind the end of an array or block of the next write. */
  lemma LargeGoesWrong(s: State, s': State, c: nat)
    requires Reaches(s, s') && Uniform(s') && c < |s'.calls| && s'.calls[c].Ready?
    requires s'.qset < s'.calls[c].qset || s'.quantum < s'.calls[c].quantum
    ensures !StaysInside(s)
  {
    hide Reaches;
    var call := s'.calls[c];
    var to := if s'.qset < call.qset then Addr(0, s'.qset, 0) else Addr(0, 0, s'.quantum);
    var pos := Flatten(to, call.quantum, call.qset);
    FlattenIsLocated(to, call.quantum, call.qset);
    hide Locate, Flatten;
    var first := Writes(s, s', 0);
    var r := Writes(s, first, pos);
    assert ItemIsUniform(r.items[0], r.quantum, r.qset);
    assert !Inside(r, Finish(c, pos, 1));
  }

  /**
    After a trim every access stays inside, whatever calls go on and begin until the next one, exactly if each
    write under way has read the device's new geometry and each read under way one that is not larger.
   */
  lemma TrimIsInsideExactly(s: State)
    requires s.items == []
    ensures StaysInside(s) <==> AllHarmless(s)
  {
    hide Inside, Apply;
    if AllHarmless(s) {
      forall s', a | Reaches(s, s') && Enabled(s', a) && !a.Trim? ensures Inside(s', a) {
        var path :| Leads(path, s, s');
        PathIsHarmless(path, |path| - 1);
        StepKeepsHarmless(s', a);
      }
    } else {
      var c :| 0 <= c < |s.calls| && !IsHarmless(s, s.calls[c]);
      assert Leads([s], s, s);
      HarmfulGoesWrong(s, c);
    }
  }

  lemma HarmfulGoesWrong(s: State, c: nat)
    requires s.items == [] && Reaches(s, s) && c < |s.calls| && !IsHarmless(s, s.calls[c])
    ensures !StaysInside(s)
  {
    hide Reaches, StaysInside;
    var s' := s;
    if s.calls[c].Half? {
      GoesOn(s, s, Fetch(c));
      s' := Apply(s, Fetch(c));
    }
    var call := s'.calls[c];
    if s'.qset < call.qset || s'.quantum < call.quantum {
      LargeGoesWrong(s, s', c);
    } else {
      SmallGoesWrong(s, s', c);
    }
  }

  /** A write has read a quantum of 1 when the device is trimmed to a quantum of 2; it makes a block of one byte. */
  function StaleWrite(): seq<State> {
    [ State(1, 1, [], 0, []),
      State(1, 1, [], 0, [Half(true, 1)]),
      State(1, 1, [], 0, [Ready(true, 1, 1)]),
      State(2, 1, [], 0, [Ready(true, 1, 1)]),
      State(2, 1, [Some([Some(1)])], 1, []),
      State(2, 1, [Some([Some(1)])], 1, [Half(true, 2)]),
      State(2, 1, [Some([Some(1)])], 1, [Ready(true, 2, 1)]) ]
  }

  lemma FirstStore(s: State)
    requires s == StaleWrite()[3]
    ensures StepBy(s, Finish(0, 0, 1), StaleWrite()[4])
  {
    var list := Followed(s.items, 0);
    assert list == [None];
    var slots := Slots(list[0], 1);
    assert slots == [None] && slots[0 := Some(1)] == [Some(1)];
    var item: Item := Some([Some(1)]);
    assert list[0 := item] == [item];
    assert Apply(s, Finish(0, 0, 1)).calls == [];
  }

  /** The next write copies a byte behind its end. */
  lemma StaleWriteOverruns()
    ensures var run := StaleWrite(); IsRun(run) && Enabled(run[6], Finish(0, 1, 1)) && !Inside(run[6], Finish(0, 1, 1))
  {
    var run := StaleWrite();
    assert StepBy(run[0], Start(true), run[1]);
    assert StepBy(run[1], Fetch(0), run[2]);
    assert StepBy(run[2], Trim(2, 1), run[3]);
    FirstStore(run[3]);
    assert StepBy(run[3], Finish(0, 0, 1), run[4]);
    assert StepBy(run[4], Start(true), run[5]);
    assert StepBy(run[5], Fetch(0), run[6]);
  }
}
