/** Whole runs of a scull device: copying a buffer in and out, and any sequence of calls. */
module ScullRuns {
  import opened Kernel
  import opened Geometry
  import opened Layout
  import opened SparseFile
  import opened Scull

  /** The cells from `pos` on hold `bytes`, and the file reaches at least behind them. */
  ghost predicate Holding(f: File, pos: nat, bytes: seq<byte>) {
    && (0 < |bytes| ==> pos + |bytes| <= f.size)
    && forall p :: pos <= p < pos + |bytes| ==> p in f.cells && f.cells[p] == bytes[p - pos]
  }

  /** Storing the next bytes behind those already held extends what is held. */
  lemma HoldMore(f: File, f': File, quantum: nat, pos: nat, held: seq<byte>, more: seq<byte>)
    requires 0 < quantum && Holding(f, pos, held) && Stored(f, f', quantum, pos + |held|, more)
    ensures Holding(f', pos, held + more)
  {
    forall p | pos <= p < pos + |held + more|
      ensures p in f'.cells && f'.cells[p] == (held + more)[p - pos]
    {
      if p < pos + |held| {
        assert p in f.cells && f.cells[p] == held[p - pos];
      }
    }
  }

  lemma HoldNone(f: File, pos: nat, buf: seq<byte>)
    ensures Holding(f, pos, buf[..0])
  {
  }

  lemma HoldNext(f: File, f': File, quantum: nat, pos: nat, buf: seq<byte>, done: nat, n: nat)
    requires 0 < quantum && done + n <= |buf| && Holding(f, pos, buf[..done])
    requires Stored(f, f', quantum, pos + done, buf[done..][..n])
    ensures Holding(f', pos, buf[..done + n])
  {
    hide Holding, Stored;
    HoldMore(f, f', quantum, pos, buf[..done], buf[done..][..n]);
    assert buf[..done] + buf[done..][..n] == buf[..done + n];
  }

  /** A byte never takes more allocations than its position and three. */
  lemma FewMissing(dev: Device, pos: nat)
    requires 0 < dev.quantum && 0 < dev.qset
    ensures dev.Missing(pos) <= pos + 3
  {
    ItemSmall(pos, dev.quantum, dev.qset);
  }

  /** Going on to the next boundary comes to the next quantum. */
  lemma NextQuantum(pos: nat, n: nat, quantum: nat)
    requires 0 < quantum && 0 < n && pos % quantum + n <= quantum && (pos + n) % quantum == 0
    ensures QuantumOf(pos + n, quantum) == QuantumOf(pos, quantum) + 1
  {
    var q := (pos + n) / quantum;
    assert pos + n == q * quantum;
    assert pos == (q - 1) * quantum + (quantum - n);
    DivModUnique(pos, quantum, q - 1, quantum - n);
  }

  /** The number of the quantum that a position lies in. */
  function QuantumOf(pos: nat, quantum: nat): nat
    requires 0 < quantum
  {
    pos / quantum
  }

  lemma QuantumIs(pos: nat, quantum: nat)
    requires 0 < quantum
    ensures QuantumOf(pos, quantum) == pos / quantum
  {
  }

  lemma Further(pos: nat, n: nat, quantum: nat)
    requires 0 < quantum
    ensures QuantumOf(pos, quantum) <= QuantumOf(pos + n, quantum)
  {
    assert pos == pos / quantum * quantum + pos % quantum;
    MulOrder((pos + n) / quantum + 1 - pos / quantum, quantum);
  }

  /** One more call of the loop below. */
  method WriteMore(dev: Device, start: nat, buf: seq<byte>, done: nat, budget: nat) returns (n: nat)
    requires dev.Valid() && 0 < dev.quantum && 0 < dev.qset
    requires done < |buf| && Holding(dev.Contents(), start, buf[..done])
    modifies dev, dev.owner.Keys
    ensures dev.Valid() && unchanged(dev`quantum, dev`qset) && fresh(dev.owner.Keys - old(dev.owner.Keys))
    ensures done + n <= |buf| && Holding(dev.Contents(), start, buf[..done + n])
    ensures n == 0 ==> budget < start + done + 3
    ensures n == 0 || done + n == |buf| || QuantumOf(start + done + n, dev.quantum) == QuantumOf(start + done, dev.quantum) + 1
    ensures n == 0 || QuantumOf(start + done, dev.quantum) <= QuantumOf(start + done + n, dev.quantum)
  {
    hide QuantumOf, Device.Valid, Device.Contents, Device.Missing, Stored, Holding;
    FewMissing(dev, start + done);
    var r, _ := dev.Write(start + done, buf[done..], Complete, budget);
    if r.Err? {
      return 0;
    }
    n := r.value;
    Further(start + done, n, dev.quantum);
    if n < |buf| - done {
      NextQuantum(start + done, n, dev.quantum);
    }
    HoldNext(old(dev.Contents()), dev.Contents(), dev.quantum, start, buf, done, n);
  }

  /**
    Writes a buffer of any length, call by call, until everything is accepted or memory runs out.  It takes
    one call for each quantum boundary that is reached, and one more.
   */
  method WriteAll(dev: Device, start: nat, buf: seq<byte>, budget: nat) returns (done: nat, calls: nat)
    requires dev.Valid() && 0 < dev.quantum && 0 < dev.qset
    modifies dev, dev.owner.Keys
    ensures dev.Valid() && unchanged(dev`quantum, dev`qset)
    ensures done <= |buf| && Holding(dev.Contents(), start, buf[..done])
    ensures done < |buf| ==> budget < start + done + 3
    ensures calls <= (start + done) / dev.quantum - start / dev.quantum + 1
  {
    hide Device.Valid, Device.Contents, Holding, QuantumOf;
    done, calls := 0, 0;
    HoldNone(dev.Contents(), start, buf);
    while done < |buf|
      invariant done <= |buf|
      invariant dev.Valid() && unchanged(dev`quantum, dev`qset) && fresh(dev.owner.Keys - old(dev.owner.Keys))
      invariant Holding(dev.Contents(), start, buf[..done])
      invariant calls <= QuantumOf(start + done, dev.quantum) - QuantumOf(start, dev.quantum) + (if done < |buf| then 0 else 1)
    {
      calls := calls + 1;
      var n := WriteMore(dev, start, buf, done, budget);
      if n == 0 {
        break;
      }
      done := done + n;
    }
    QuantumIs(start, dev.quantum);
    QuantumIs(start + done, dev.quantum);
  }

  /** A read inside what is held returns a part of it, and at least one byte. */
  lemma ReadHeld(f: File, quantum: nat, pos: nat, bytes: seq<byte>, done: nat, got: seq<byte>)
    requires 0 < quantum && done < |bytes| && Holding(f, pos, bytes)
    requires Returned(f, quantum, pos + done, |bytes| - done, got)
    ensures 0 < |got| && done + |got| <= |bytes| && bytes[..done] + got == bytes[..done + |got|]
  {
    assert pos + done in f.cells;
    forall i | 0 <= i < |got|
      ensures got[i] == bytes[done + i]
    {
      var p := pos + done + i;
      assert p in f.cells && f.cells[p] == got[p - (pos + done)] == bytes[p - pos];
    }
  }

  lemma HeldIsBelowSize(dev: Device, start: nat, held: seq<byte>, done: nat)
    requires dev.Valid() && Holding(dev.Contents(), start, held) && done < |held|
    ensures start + done < dev.size == dev.Contents().size && start + done in dev.Contents().cells
  {
  }

  /** A read that ends before what is held does so at the end of a quantum. */
  lemma EndsQuantum(f: File, quantum: nat, start: nat, held: seq<byte>, done: nat, more: seq<byte>)
    requires 0 < quantum && Holding(f, start, held) && done + |more| < |held|
    requires Returned(f, quantum, start + done, |held| - done, more)
    requires 0 < |more| && (start + done + |more| == f.size || (start + done + |more|) % quantum == 0)
    ensures QuantumOf(start + done + |more|, quantum) == QuantumOf(start + done, quantum) + 1
  {
    NextQuantum(start + done, |more|, quantum);
  }

  /** One more call of the loop below. */
  method ReadMore(dev: Device, start: nat, ghost held: seq<byte>, done: nat, count: nat) returns (more: seq<byte>)
    requires dev.Valid() && Holding(dev.Contents(), start, held) && done < count == |held|
    modifies dev
    ensures unchanged(dev)
    ensures 0 < dev.quantum && 0 < |more| && done + |more| <= count && held[..done] + more == held[..done + |more|]
    ensures done + |more| == count || QuantumOf(start + done + |more|, dev.quantum) == QuantumOf(start + done, dev.quantum) + 1
    ensures QuantumOf(start + done, dev.quantum) <= QuantumOf(start + done + |more|, dev.quantum)
  {
    hide QuantumOf, Device.Valid, Device.Contents, Holding, Returned, ReadCount;
    HeldIsBelowSize(dev, start, held, done);
    ghost var f, quantum := dev.Contents(), dev.quantum;
    var r, pos' := dev.Read(start + done, count - done, false, 0);
    assert r.Ok? && Returned(f, quantum, start + done, |held| - done, r.value);
    more := r.value;
    Further(start + done, |more|, dev.quantum);
    if done + |more| < count {
      EndsQuantum(f, quantum, start, held, done, more);
    }
    ReadHeld(f, quantum, start, held, done, more);
  }

  /** Reads as many bytes as a caller asked for, call by call, where the device holds them, with as few calls. */
  method ReadAll(dev: Device, start: nat, ghost held: seq<byte>, count: nat) returns (got: seq<byte>, calls: nat)
    requires dev.Valid() && Holding(dev.Contents(), start, held) && count == |held|
    modifies dev
    ensures got == held && unchanged(dev)
    ensures 0 < count ==> 0 < dev.quantum && calls <= (start + count) / dev.quantum - start / dev.quantum + 1
    ensures count == 0 ==> calls == 0
  {
    hide Device.Valid, Device.Contents, Holding, QuantumOf;
    got, calls := [], 0;
    while |got| < count
      invariant unchanged(dev) && |got| <= count && got == held[..|got|]
      invariant got == [] ==> calls == 0
      invariant got != [] ==> 0 < dev.quantum
      invariant got != [] ==>
                  calls <= QuantumOf(start + |got|, dev.quantum) - QuantumOf(start, dev.quantum) + (if |got| < count then 0 else 1)
    {
      calls := calls + 1;
      var more := ReadMore(dev, start, held, |got|, count);
      assert start + |got| + |more| == start + |got + more|;
      got := got + more;
    }
    if 0 < count {
      QuantumIs(start, dev.quantum);
      QuantumIs(start + count, dev.quantum);
    }
  }

  /** With memory enough, a buffer copied in is copied out unchanged, across any number of quanta and items. */
  method RoundTrip(dev: Device, start: nat, buf: seq<byte>, budget: nat) returns (got: seq<byte>)
    requires dev.Valid() && 0 < dev.quantum && 0 < dev.qset
    requires start + |buf| + 3 <= budget
    modifies dev, dev.owner.Keys
    ensures dev.Valid() && Holding(dev.Contents(), start, buf) && got == buf
  {
    var done, _ := WriteAll(dev, start, buf, budget);
    assert buf[..done] == buf;
    var calls;
    got, calls := ReadAll(dev, start, buf, |buf|);
  }

  // ----- any sequence of calls

  datatype Call =
    | OpenCall(writeOnly: bool)
    | ReadCall(pos: nat, count: nat, fault: bool, budget: nat)
    | WriteCall(pos: nat, buf: seq<byte>, copy: UserCopy, budget: nat)
    | IoctlCall(cmd: Command, capable: bool, inRange: bool)

  /** What a call did, as its caller saw it. */
  datatype Event =
    | Emptied(quantum: int, qset: int)
    | Wrote(pos: nat, bytes: seq<byte>)
    | Faulted(pos: nat, n: nat)
    | Got(pos: nat, count: nat, bytes: seq<byte>)
    | NoEffect

  /** The flat memory after an event. */
  ghost function After(w: Written, e: Event): Written {
    match e
    case Emptied(_, _) => Written(imap[], 0)
    case Wrote(pos, bytes) => AfterWrite(w, pos, bytes)
    case Faulted(pos, n) => AfterFault(w, pos, n)
    case _ => w
  }

  ghost function Replay(log: seq<Event>): Written {
    if log == [] then Written(imap[], 0) else After(Replay(log[..|log| - 1]), log[|log| - 1])
  }

  /** Reads returned the latest bytes written, nothing past the end, and something wherever a byte was written. */
  ghost predicate Faithful(w: Written, e: Event) {
    e.Got? ==>
      && |e.bytes| <= e.count
      && (0 < |e.bytes| ==> e.pos + |e.bytes| <= w.size)
      && (e.pos in w.bytes && 0 < e.count ==> 0 < |e.bytes|)
      && forall p :: e.pos <= p < e.pos + |e.bytes| && p in w.bytes ==> e.bytes[p - e.pos] == w.bytes[p]
  }

  ghost predicate AllFaithful(log: seq<Event>) {
    forall i :: 0 <= i < |log| ==> Faithful(Replay(log[..i]), log[i])
  }

  /** What a device and the module-wide geometry are like between two calls. */
  datatype Moment = Moment(items: seq<Item>, file: File, quantum: int, qset: int, defaultQuantum: int, defaultQset: int)

  ghost function MomentOf(dev: Device, params: Params): Moment
    requires dev.Valid()
    reads dev, dev.owner.Keys, params
  {
    Moment(dev.items, dev.Contents(), dev.quantum, dev.qset, params.quantum, params.qset)
  }

  /** A command that gets past its checks. */
  predicate Permitted(cmd: Command, capable: bool, inRange: bool) {
    !cmd.Unknown? && (cmd.ByPointer() ==> inRange) && (cmd.Privileged() ==> capable)
  }

  /** What each call does and what its caller sees, given how things are when it is made. */
  ghost predicate Answers(m: Moment, c: Call, e: Event, m': Moment)
    requires 0 < m.quantum && 0 < m.qset
  {
    match c
    case OpenCall(writeOnly) =>
      if writeOnly
      then e == Emptied(m.defaultQuantum, m.defaultQset) && m' == m.(items := [], file := Empty, quantum := m.defaultQuantum, qset := m.defaultQset)
      else e == NoEffect && m' == m
    case ReadCall(pos, count, fault, _) =>
      && m' == m
      && if m.file.size <= pos then e == Got(pos, count, [])
         else if fault && 0 < ReadCount(m.file, m.quantum, pos, count) then e == NoEffect
         else e.Got? && e.pos == pos && e.count == count && Returned(m.file, m.quantum, pos, count, e.bytes)
    case WriteCall(pos, buf, copy, budget) =>
      var a, n := Locate(pos, m.quantum, m.qset), Chunk(m.quantum, pos, |buf|);
      && m' == m.(items := m'.items, file := m'.file)
      && a.slot < m.qset && (forall i :: 0 <= i < |m.items| && m.items[i].data.Some? ==> |m.items[i].data.value| == m.qset)
      && m'.items == Grown(m.items, a, m.qset, budget, BlockAt(m'.items, a.item, a.slot))
      && if budget < MissingAt(m.items, a) then e == NoEffect && m'.file == m.file
         else if copy.Fault? && 0 < n then e == Faulted(pos, n) && m'.file.size == m.file.size && Kept(m.file, m'.file, m.quantum, pos, n)
         else e == Wrote(pos, buf[..n]) && Stored(m.file, m'.file, m.quantum, pos, buf[..n])
    case IoctlCall(cmd, capable, inRange) =>
      && e == NoEffect
      && m' == if !Permitted(cmd, capable, inRange) then m
               else m.(defaultQuantum := cmd.NewValue(Quantum, m.defaultQuantum), defaultQset := cmd.NewValue(Qset, m.defaultQset))
  }

  ghost predicate Usable(dev: Device, params: Params)
    reads dev, dev.owner.Keys, params
  {
    dev.Valid() && 0 < dev.quantum && 0 < dev.qset && 0 < params.quantum && 0 < params.qset
  }

  /** Calls that keep the module-wide geometry positive. */
  ghost predicate Sensible(c: Call) {
    c.IoctlCall? ==> forall p, v :: 0 < v ==> 0 < c.cmd.NewValue(p, v)
  }

  /** One call answers as it should, and keeps the device in step with the flat memory. */
  method Perform(dev: Device, params: Params, c: Call, ghost w: Written) returns (e: Event)
    requires Usable(dev, params) && Sensible(c) && Agrees(dev.Contents(), w)
    modifies dev, dev.owner.Keys, params
    ensures Usable(dev, params) && fresh(dev.owner.Keys - old(dev.owner.Keys))
    ensures Answers(old(MomentOf(dev, params)), c, e, MomentOf(dev, params))
    ensures Agrees(dev.Contents(), After(w, e)) && Faithful(w, e)
  {
    hide Device.Valid, Device.Contents, Stored, Kept, Returned, ReadCount, Agrees, Grown, Locate, MissingAt, BlockAt, Faithful, After;
    match c {
      case OpenCall(writeOnly) =>
        dev.Open(writeOnly, params);
        e := if writeOnly then Emptied(dev.quantum, dev.qset) else NoEffect;
        EmptyAgrees(w, dev.quantum, dev.qset);
      case ReadCall(pos, count, fault, budget) =>
        SizeOfContents(dev);
        e := PerformRead(dev, pos, count, fault, budget, w);
      case WriteCall(pos, buf, copy, budget) =>
        e := PerformWrite(dev, pos, buf, copy, budget, w);
      case IoctlCall(cmd, capable, inRange) =>
        e := PerformIoctl(params, cmd, capable, inRange);
        EmptyAgrees(w, 0, 0);
    }
  }

  lemma SizeOfContents(dev: Device)
    requires dev.Valid()
    ensures dev.Contents().size == dev.size
  {
  }

  lemma EmptyAgrees(w: Written, quantum: int, qset: int)
    ensures Agrees(Empty, After(w, Emptied(quantum, qset))) && Faithful(w, Emptied(quantum, qset))
    ensures After(w, NoEffect) == w && Faithful(w, NoEffect)
  {
  }

  method PerformIoctl(params: Params, cmd: Command, capable: bool, inRange: bool) returns (e: Event)
    requires Sensible(IoctlCall(cmd, capable, inRange)) && 0 < params.quantum && 0 < params.qset
    modifies params
    ensures e == NoEffect && 0 < params.quantum && 0 < params.qset
    ensures params.quantum == if Permitted(cmd, capable, inRange) then cmd.NewValue(Quantum, old(params.quantum)) else old(params.quantum)
    ensures params.qset == if Permitted(cmd, capable, inRange) then cmd.NewValue(Qset, old(params.qset)) else old(params.qset)
  {
    assert 0 < params.Value(Param.Quantum) && 0 < params.Value(Param.Qset);
    var _, _ := params.Ioctl(cmd, capable, inRange);
    assert 0 < params.Value(Param.Quantum) && 0 < params.Value(Param.Qset);
    e := NoEffect;
  }

  method PerformRead(dev: Device, pos: nat, count: nat, fault: bool, budget: nat, ghost w: Written) returns (e: Event)
    requires dev.Valid() && 0 < dev.quantum && 0 < dev.qset && Agrees(dev.Contents(), w)
    modifies dev
    ensures unchanged(dev)
    ensures if dev.size <= pos then e == Got(pos, count, [])
            else if fault && 0 < ReadCount(dev.Contents(), dev.quantum, pos, count) then e == NoEffect
            else e.Got? && e.pos == pos && e.count == count && Returned(dev.Contents(), dev.quantum, pos, count, e.bytes)
    ensures Faithful(w, e) && After(w, e) == w
  {
    hide Device.Valid, Cells, Returned, ReadCount;
    var r, _ := dev.Read(pos, count, fault, budget);
    if pos < dev.size && r.Ok? {
      ReadAgrees(dev.Contents(), w, dev.quantum, pos, count, r.value);
    }
    e := if r.Ok? then Got(pos, count, r.value) else NoEffect;
  }

  method PerformWrite(dev: Device, pos: nat, buf: seq<byte>, copy: UserCopy, budget: nat, ghost w: Written) returns (e: Event)
    requires dev.Valid() && 0 < dev.quantum && 0 < dev.qset && Agrees(dev.Contents(), w)
    modifies dev, dev.owner.Keys
    ensures dev.Valid() && fresh(dev.owner.Keys - old(dev.owner.Keys)) && unchanged(dev`quantum, dev`qset)
    ensures dev.GrownTo(old(dev.items), pos, budget)
    ensures var n := Chunk(dev.quantum, pos, |buf|);
      if budget < old(dev.Missing(pos)) then e == NoEffect && dev.Contents() == old(dev.Contents())
      else if copy.Fault? && 0 < n then
        e == Faulted(pos, n) && dev.Contents().size == old(dev.Contents().size) && Kept(old(dev.Contents()), dev.Contents(), dev.quantum, pos, n)
      else e == Wrote(pos, buf[..n]) && Stored(old(dev.Contents()), dev.Contents(), dev.quantum, pos, buf[..n])
    ensures Agrees(dev.Contents(), After(w, e)) && Faithful(w, e)
  {
    hide Device.Valid, Device.GrownTo, Device.Missing, Stored, Kept, Agrees, Cells;
    var r, _ := dev.Write(pos, buf, copy, budget);
    match r {
      case Ok(n) =>
        e := Wrote(pos, buf[..n]);
        StoreAgrees(old(dev.Contents()), dev.Contents(), w, dev.quantum, pos, buf[..n]);
      case Err(EFAULT) =>
        var n := Min(|buf|, dev.quantum - pos % dev.quantum);
        e := Faulted(pos, n);
        FaultAgrees(old(dev.Contents()), dev.Contents(), w, dev.quantum, pos, n);
      case Err(_) =>
        e := NoEffect;
    }
  }

  /** Each call answers as it should in the moment it is made. */
  ghost predicate AllAnswer(trace: seq<Moment>, calls: seq<Call>, log: seq<Event>) {
    && |trace| == |calls| + 1 && |log| == |calls|
    && forall i :: 0 <= i < |calls| ==>
         0 < trace[i].quantum && 0 < trace[i].qset && Answers(trace[i], calls[i], log[i], trace[i + 1])
  }

  lemma OneMoreAnswer(trace: seq<Moment>, calls: seq<Call>, log: seq<Event>, c: Call, e: Event, m: Moment)
    requires AllAnswer(trace, calls, log)
    requires var last := trace[|calls|]; 0 < last.quantum && 0 < last.qset && Answers(last, c, e, m)
    ensures AllAnswer(trace + [m], calls + [c], log + [e])
  {
    hide Answers;
  }

  lemma OneMoreFaithful(log: seq<Event>, e: Event)
    requires AllFaithful(log) && Faithful(Replay(log), e)
    ensures AllFaithful(log + [e]) && Replay(log + [e]) == After(Replay(log), e)
  {
    hide Faithful, After;
    var more := log + [e];
    assert more[..|log|] == log;
    forall i | 0 <= i < |more|
      ensures Faithful(Replay(more[..i]), more[i])
    {
      assert i < |log| ==> more[..i] == log[..i];
    }
  }

  /**
    Any sequence of calls: each answers as it should in the moment it is made, the device holds what the
    flat memory of the events holds, every read was faithful to that memory, and nothing was leaked or
    shared (Valid).
   */
  method Run(dev: Device, params: Params, calls: seq<Call>) returns (log: seq<Event>, ghost trace: seq<Moment>)
    requires Usable(dev, params) && dev.Contents() == Empty
    requires forall i :: 0 <= i < |calls| ==> Sensible(calls[i])
    modifies dev, dev.owner.Keys, params
    ensures Usable(dev, params)
    ensures AllAnswer(trace, calls, log) && trace[0] == old(MomentOf(dev, params)) && trace[|calls|] == MomentOf(dev, params)
    ensures Agrees(dev.Contents(), Replay(log)) && AllFaithful(log)
  {
    hide Device.Valid, Device.Contents, Answers, Agrees, Faithful;
    log, trace := [], [MomentOf(dev, params)];
    EmptyAgrees(Written(imap[], 0), 0, 0);
    for i := 0 to |calls|
      invariant Usable(dev, params) && fresh(dev.owner.Keys - old(dev.owner.Keys))
      invariant AllAnswer(trace, calls[..i], log) && trace[0] == old(MomentOf(dev, params)) && trace[i] == MomentOf(dev, params)
      invariant Agrees(dev.Contents(), Replay(log)) && AllFaithful(log)
    {
      var e := Perform(dev, params, calls[i], Replay(log));
      OneMoreAnswer(trace, calls[..i], log, calls[i], e, MomentOf(dev, params));
      OneMoreFaithful(log, e);
      assert calls[..i] + [calls[i]] == calls[..i + 1];
      log, trace := log + [e], trace + [MomentOf(dev, params)];
    }
    assert calls[..|calls|] == calls;
  }
}
