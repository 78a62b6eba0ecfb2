/**
  The scullpipe device: a circular buffer in which one slot always stays free, so that equal pointers
  mean an empty pipe.  Pointers are offsets into the buffer.
 */
module Pipe {
  import opened Geometry
  import opened Kernel

  /** The read and write pointers, as offsets, and the size they go round; nothing here looks at the buffer. */
  datatype Pointers = Pointers(size: nat, rp: nat, wp: nat)
  {
    predicate Valid() {
      rp < size && wp < size
    }

    predicate Empty() {
      rp == wp
    }

    function SpaceFree(): (n: int)
      requires Valid()
      ensures 0 <= n < size
    {
      Distance(rp, wp, size);
      if rp == wp then size - 1 else (rp + size - wp) % size - 1
    }

    /** What one read hands out: bytes up to the write pointer, or to the end of the buffer. */
    function ReadCount(count: nat): (n: nat)
      requires Valid()
      ensures n <= count && rp + n <= size
    {
      if wp > rp then Min(count, wp - rp) else Min(count, size - rp)
    }

    /** What one write accepts: bytes up to the end of the buffer, or to the slot before the read pointer. */
    function WriteCount(count: nat): (n: nat)
      requires Valid() && 0 < SpaceFree()
      ensures n <= count && wp + n <= size
    {
      var n := Min(count, SpaceFree());
      if wp >= rp then Min(n, size - wp) else
        Distance(rp, wp, size);
        Min(n, rp - wp - 1)
    }

    function AfterRead(count: nat): (p: Pointers)
      requires Valid()
      ensures p.Valid() && p.size == size
    {
      var rp' := rp + ReadCount(count);
      this.(rp := if rp' == size then 0 else rp')
    }

    function AfterWrite(count: nat): (p: Pointers)
      requires Valid() && 0 < SpaceFree()
      ensures p.Valid() && p.size == size
    {
      var wp' := wp + WriteCount(count);
      this.(wp := if wp' == size then 0 else wp')
    }
  }

  /** The elements from one offset on, going round, up to another. */
  function Stretch(buf: seq<byte>, size: nat, from: nat, to: nat): seq<byte>
    requires from <= size <= |buf| && to <= size
  {
    if from <= to then buf[from..to] else buf[from..size] + buf[..to]
  }

  function Overwritten(buf: seq<byte>, at: nat, bytes: seq<byte>): (r: seq<byte>)
    requires at + |bytes| <= |buf|
    ensures |r| == |buf|
  {
    buf[..at] + bytes + buf[at + |bytes|..]
  }

  datatype Ring = Ring(buf: seq<byte>, size: nat, rp: nat, wp: nat)
  {
    function At(): Pointers {
      Pointers(size, rp, wp)
    }

    predicate Valid() {
      size <= |buf| && At().Valid()
    }

    predicate Empty() {
      rp == wp
    }

    function SpaceFree(): (n: int)
      requires Valid()
      ensures 0 <= n < size
    {
      At().SpaceFree()
    }

    /** The bytes written and not yet read, in order. */
    function Queue(): seq<byte>
      requires Valid()
    {
      Stretch(buf, size, rp, wp)
    }

    function ReadCount(count: nat): (n: nat)
      requires Valid()
      ensures n <= count && rp + n <= size
    {
      At().ReadCount(count)
    }

    function AfterRead(count: nat): Ring
      requires Valid()
    {
      this.(rp := At().AfterRead(count).rp)
    }

    function WriteCount(count: nat): (n: nat)
      requires Valid() && 0 < SpaceFree()
      ensures n <= count && wp + n <= size
    {
      At().WriteCount(count)
    }

    /** The buffer with `bytes` at the write pointer. */
    function Filled(bytes: seq<byte>): seq<byte>
      requires wp + |bytes| <= |buf|
    {
      Overwritten(buf, wp, bytes)
    }

    function AfterWrite(data: seq<byte>): Ring
      requires Valid() && 0 < SpaceFree()
    {
      this.(buf := Filled(data[..WriteCount(|data|)]), wp := At().AfterWrite(|data|).wp)
    }

    predicate ReadLeads(count: nat, r': Ring)
      requires Valid()
    {
      !Empty() && r' == AfterRead(count)
    }

    predicate WriteLeads(data: seq<byte>, r': Ring)
      requires Valid()
    {
      0 < SpaceFree() && r' == AfterWrite(data)
    }
  }

  /** Going round the ring from one offset to another. */
  lemma Distance(to: nat, from: nat, size: nat)
    requires to < size && from < size
    ensures (to + size - from) % size == if from <= to then to - from else to + size - from
  {
    DivModUnique(to + size - from, size, if from <= to then 1 else 0, if from <= to then to - from else to + size - from);
  }

  /** The free space is what the queue leaves of all slots but one. */
  lemma SpaceIsRest(r: Ring)
    requires r.Valid()
    ensures r.SpaceFree() == r.size - 1 - |r.Queue()|
    ensures r.Empty() <==> r.Queue() == []
  {
    Distance(r.rp, r.wp, r.size);
  }

  // ----- stretches of the buffer

  lemma StretchFront(buf: seq<byte>, size: nat, from: nat, to: nat, n: nat)
    requires from < size <= |buf| && to < size && from != to
    requires n <= (if from < to then to else size) - from
    ensures var from' := if from + n == size then 0 else from + n;
      Stretch(buf, size, from, to) == buf[from..from + n] + Stretch(buf, size, from', to)
  {
    if from < to {
      assert buf[from..to] == buf[from..from + n] + buf[from + n..to];
    } else {
      assert buf[from..size] == buf[from..from + n] + buf[from + n..size];
      assert from + n == size ==> buf[size..size] == [] && buf[0..to] == buf[..to];
    }
  }

  lemma OverwrittenParts(buf: seq<byte>, at: nat, bytes: seq<byte>, lo: nat, hi: nat)
    requires at + |bytes| <= |buf| && lo <= hi <= |buf|
    ensures hi <= at || at + |bytes| <= lo ==> Overwritten(buf, at, bytes)[lo..hi] == buf[lo..hi]
    ensures lo <= at && hi == at + |bytes| ==> Overwritten(buf, at, bytes)[lo..hi] == buf[lo..at] + bytes
  {
    var r, end := Overwritten(buf, at, bytes), at + |bytes|;
    assert r[..at] == buf[..at] && r[at..end] == bytes && r[end..] == buf[end..];
    hide Overwritten;
    if hi <= at {
      assert r[lo..hi] == r[..at][lo..hi] && buf[lo..hi] == buf[..at][lo..hi];
    }
    if end <= lo {
      assert r[lo..hi] == r[end..][lo - end..hi - end] && buf[lo..hi] == buf[end..][lo - end..hi - end];
    }
    if lo <= at && hi == end {
      assert r[lo..hi] == r[..at][lo..] + r[at..end] && buf[lo..at] == buf[..at][lo..];
    }
  }

  /** Overwriting what is behind a stretch, and going on to the end of it, lengthens the stretch. */
  lemma StretchGrows(buf: seq<byte>, size: nat, from: nat, to: nat, bytes: seq<byte>)
    requires from < size <= |buf| && to < size
    requires to + |bytes| <= size && (to < from ==> to + |bytes| < from) && (from == 0 ==> to + |bytes| < size)
    ensures var to' := if to + |bytes| == size then 0 else to + |bytes|;
      Stretch(Overwritten(buf, to, bytes), size, from, to') == Stretch(buf, size, from, to) + bytes
  {
    var end := to + |bytes|;
    if from <= to {
      OverwrittenParts(buf, to, bytes, from, end);
      hide Overwritten;
      var buf' := Overwritten(buf, to, bytes);
      assert end == size ==> buf'[from..size] + buf'[..0] == buf'[from..size];
    } else {
      OverwrittenParts(buf, to, bytes, 0, end);
      OverwrittenParts(buf, to, bytes, from, size);
      hide Overwritten;
      assert Overwritten(buf, to, bytes)[0..end] == Overwritten(buf, to, bytes)[..end];
      assert buf[from..size] + (buf[0..to] + bytes) == buf[from..size] + buf[..to] + bytes;
    }
  }

  lemma StretchStays(buf: seq<byte>, size: nat, from: nat, to: nat, bytes: seq<byte>)
    requires from < size <= |buf| && to < size
    requires to + |bytes| <= size && (to < from ==> to + |bytes| < from)
    ensures Stretch(Overwritten(buf, to, bytes), size, from, to) == Stretch(buf, size, from, to)
  {
    if from <= to {
      OverwrittenParts(buf, to, bytes, from, to);
    } else {
      OverwrittenParts(buf, to, bytes, 0, to);
      OverwrittenParts(buf, to, bytes, from, size);
      assert buf[0..to] == buf[..to];
    }
  }

  /** How far a read or a write may go. */
  lemma CountsFit(p: Pointers, count: nat)
    requires p.Valid()
    ensures p.rp != p.wp ==> p.ReadCount(count) <= (if p.rp < p.wp then p.wp else p.size) - p.rp
    ensures p.rp != p.wp && 0 < count ==> 0 < p.ReadCount(count)
    ensures 0 < p.SpaceFree() ==>
              && p.WriteCount(count) <= p.SpaceFree() && (p.wp < p.rp ==> p.wp + p.WriteCount(count) < p.rp)
              && (p.rp == 0 ==> p.wp + p.WriteCount(count) < p.size) && (0 < count ==> 0 < p.WriteCount(count))
  {
    Distance(p.rp, p.wp, p.size);
  }

  /** A read stops short only when it has emptied the queue or come to the end of the buffer, a write when that is full or at its end. */
  lemma CountsReach(r: Ring, count: nat)
    requires r.Valid()
    ensures !r.Empty() ==> var n := r.ReadCount(count); n == count || n == |r.Queue()| || r.rp + n == r.size
    ensures 0 < r.SpaceFree() ==> var n := r.WriteCount(count); n == count || |r.Queue()| + n == r.size - 1 || r.wp + n == r.size
  {
    Distance(r.rp, r.wp, r.size);
  }

  /** A read takes bytes off the front of the queue, at least one if asked for one. */
  lemma ReadTakes(r: Ring, count: nat)
    requires r.Valid() && !r.Empty()
    ensures var n, r' := r.ReadCount(count), r.AfterRead(count);
      && n <= |r.Queue()| && r.rp + n <= r.size && (0 < count ==> 0 < n <= count)
      && r.buf[r.rp..r.rp + n] == r.Queue()[..n]
      && r'.Valid() && r'.Queue() == r.Queue()[n..]
  {
    hide Pointers.ReadCount, Pointers.SpaceFree, Stretch;
    CountsFit(r.At(), count);
    var n := r.ReadCount(count);
    StretchFront(r.buf, r.size, r.rp, r.wp, n);
    var front, rest := r.buf[r.rp..r.rp + n], r.AfterRead(count).Queue();
    assert r.Queue() == front + rest;
    hide Ring.Queue, Ring.AfterRead, Ring.ReadCount;
    Parted(front, rest);
  }

  lemma Parted(a: seq<byte>, b: seq<byte>)
    ensures (a + b)[..|a|] == a && (a + b)[|a|..] == b
  {
  }

  /** A write adds bytes at the end of the queue, at least one if given one, and never fills the last slot. */
  lemma WriteAppends(r: Ring, data: seq<byte>)
    requires r.Valid() && 0 < r.SpaceFree()
    ensures var n, r' := r.WriteCount(|data|), r.AfterWrite(data);
      && n <= r.SpaceFree() && n <= |data| && r.wp + n <= r.size && (0 < |data| ==> 0 < n)
      && r'.Valid() && r'.Queue() == r.Queue() + data[..n]
  {
    CountsFit(r.At(), |data|);
    hide Pointers.SpaceFree, Pointers.WriteCount, Stretch, Overwritten;
    StretchGrows(r.buf, r.size, r.rp, r.wp, data[..r.WriteCount(|data|)]);
  }

  /** A copy into the free part that faults leaves the queue alone. */
  lemma FaultKeepsQueue(r: Ring, count: nat, junk: seq<byte>)
    requires r.Valid() && 0 < r.SpaceFree() && |junk| == r.WriteCount(count)
    ensures var r' := r.(buf := r.Filled(junk)); r'.Valid() && r'.Queue() == r.Queue()
  {
    CountsFit(r.At(), count);
    hide Pointers.SpaceFree, Pointers.WriteCount, Stretch, Overwritten;
    StretchStays(r.buf, r.size, r.rp, r.wp, junk);
  }

  // ----- a pipe whose size and memory need not agree

  datatype Access = Reads(count: nat) | Writes(count: nat)

  /** The offset behind the last byte that a call copies, or 0 if it copies none or would have to wait. */
  function Reach(p: Pointers, c: Access): nat
    requires p.Valid()
  {
    match c
    case Reads(count) => if p.Empty() || p.ReadCount(count) == 0 then 0 else p.rp + p.ReadCount(count)
    case Writes(count) => if p.SpaceFree() == 0 || p.WriteCount(count) == 0 then 0 else p.wp + p.WriteCount(count)
  }

  function AfterAccess(p: Pointers, c: Access): (p': Pointers)
    requires p.Valid()
    ensures p'.Valid() && p'.size == p.size
  {
    match c
    case Reads(count) => if p.Empty() then p else p.AfterRead(count)
    case Writes(count) => if p.SpaceFree() == 0 then p else p.AfterWrite(count)
  }

  /** No call of the sequence copies from or to behind the first `len` bytes. */
  predicate StaysInside(p: Pointers, len: nat, calls: seq<Access>)
    requires p.Valid()
    decreases |calls|
  {
    calls == [] || (Reach(p, calls[0]) <= len && StaysInside(AfterAccess(p, calls[0]), len, calls[1..]))
  }

  ghost predicate AlwaysInside(p: Pointers, len: nat)
    requires p.Valid()
  {
    forall calls :: StaysInside(p, len, calls)
  }

  lemma {:induction false} FittingStaysInside(p: Pointers, len: nat, calls: seq<Access>)
    requires p.Valid() && p.size <= len
    ensures StaysInside(p, len, calls)
    decreases |calls|
  {
    if calls != [] {
      FittingStaysInside(AfterAccess(p, calls[0]), len, calls[1..]);
    }
  }

  /** Filling what memory there is, taking a byte, and writing one more. */
  function Overrun(len: nat): seq<Access> {
    [Writes(len), Reads(1), Writes(1)]
  }

  lemma TooLargeOverruns(size: nat, len: nat)
    requires 0 < len < size
    ensures !StaysInside(Pointers(size, 0, 0), len, Overrun(len))
  {
    var p, calls := Pointers(size, 0, 0), Overrun(len);
    Distance(0, len, size);
    Distance(1, len, size);
    var p1 := AfterAccess(p, Writes(len));
    assert p1 == Pointers(size, 0, len);
    var p2 := AfterAccess(p1, Reads(1));
    assert p2 == Pointers(size, 1, len);
    assert Reach(p2, Writes(1)) == len + 1;
    assert calls[1..] == [Reads(1), Writes(1)] && calls[1..][1..] == [Writes(1)];
    assert !StaysInside(p2, len, [Writes(1)]);
    assert !StaysInside(p1, len, [Reads(1), Writes(1)]);
  }

  /** An empty pipe stays inside its memory, through every sequence of reads and writes, exactly if it is no larger. */
  lemma InsideExactly(size: nat, len: nat)
    requires 0 < size && 0 < len
    ensures AlwaysInside(Pointers(size, 0, 0), len) <==> size <= len
  {
    if size <= len {
      forall calls
        ensures StaysInside(Pointers(size, 0, 0), len, calls)
      {
        FittingStaysInside(Pointers(size, 0, 0), len, calls);
      }
    } else {
      TooLargeOverruns(size, len);
    }
  }

  /** With 4 bytes of memory, a size of 8 lets the first write run over the end. */
  lemma EightOverFour()
    ensures !StaysInside(Pointers(8, 0, 0), 4, [Writes(8)])
  {
    assert Reach(Pointers(8, 0, 0), Writes(8)) == 7;
  }

  /** With a size of 5 no first write does, but a write after a read. */
  lemma FiveOverFour(count: nat)
    ensures StaysInside(Pointers(5, 0, 0), 4, [Writes(count)])
    ensures !StaysInside(Pointers(5, 0, 0), 4, [Writes(4), Reads(1), Writes(1)])
  {
    TooLargeOverruns(5, 4);
    assert [Writes(count)][1..] == [];
  }

  class ScullPipe {
    var buffer: array?<byte>
    var buffersize: nat
    var rp: nat
    var wp: nat
    var nreaders: nat
    var nwriters: nat

    /** The buffer lives as long as somebody has the pipe open. */
    ghost predicate Counted()
      reads this
    {
      (buffer == null <==> nreaders + nwriters == 0) && (buffer != null ==> 0 < buffer.Length)
    }

    ghost function Snapshot(): Ring
      requires buffer != null
      reads this, buffer
    {
      Ring(buffer[..], buffersize, rp, wp)
    }

    /** An open pipe whose pointers stay inside the memory it has. */
    ghost predicate Valid()
      reads this, buffer
    {
      buffer != null && Snapshot().Valid()
    }

    ghost function Queue(): seq<byte>
      requires Valid()
      reads this, buffer
    {
      Snapshot().Queue()
    }

    constructor ()
      ensures Counted() && buffer == null
    {
      buffer, nreaders, nwriters := null, 0, 0;
    }

    /**
      Opening allocates the buffer if there is none, and empties the pipe in any case.  The size is taken
      from the parameter even when the buffer is an older one: all later reads and writes stay inside the
      buffer exactly when it is new or the parameter has not grown beyond it.
     */
    method Open(reader: bool, writer: bool, param: nat, granted: bool) returns (r: Result<()>)
      requires Counted() && (reader || writer) && 0 < param
      modifies this
      ensures Counted()
      ensures r == Err(ENOMEM) <==> old(buffer) == null && !granted
      ensures r.Err? ==> r == Err(ENOMEM) && unchanged(this)
      ensures r.Ok? ==> nreaders == old(nreaders) + (if reader then 1 else 0) && nwriters == old(nwriters) + (if writer then 1 else 0)
      ensures r.Ok? ==> (old(buffer) != null ==> buffer == old(buffer)) && (old(buffer) == null ==> fresh(buffer))
      ensures r.Ok? ==> buffersize == param && rp == wp == 0
      ensures r.Ok? ==> (AlwaysInside(Pointers(buffersize, rp, wp), buffer.Length) <==> old(buffer) == null || param <= old(buffer).Length)
      ensures r.Ok? ==> (Valid() <==> AlwaysInside(Pointers(buffersize, rp, wp), buffer.Length))
      ensures r.Ok? && Valid() ==> Queue() == []
    {
      if buffer == null {
        if !granted {
          return Err(ENOMEM);
        }
        buffer := new byte[param];
      }
      buffersize := param;
      rp, wp := 0, 0;
      if reader {
        nreaders := nreaders + 1;
      }
      if writer {
        nwriters := nwriters + 1;
      }
      InsideExactly(param, buffer.Length);
      r := Ok(());
    }

    method Release(reader: bool, writer: bool)
      requires Counted() && (reader || writer) && (reader ==> 0 < nreaders) && (writer ==> 0 < nwriters)
      modifies this
      ensures Counted() && unchanged(`rp, `wp, `buffersize)
      ensures nreaders == old(nreaders) - (if reader then 1 else 0) && nwriters == old(nwriters) - (if writer then 1 else 0)
      ensures buffer == null || buffer == old(buffer)
    {
      if reader {
        nreaders := nreaders - 1;
      }
      if writer {
        nwriters := nwriters - 1;
      }
      if nreaders + nwriters == 0 {
        buffer := null;
      }
    }

    /** A read that may not block; what a blocking one does once there is data. */
    method Read(count: nat, fault: bool) returns (r: Result<seq<byte>>)
      requires Valid()
      modifies `rp
      ensures Valid()
      ensures r == Err(EAGAIN) <==> old(Queue()) == []
      ensures r == Err(EFAULT) <==> old(Queue()) != [] && fault && 0 < count
      ensures r.Err? ==> (r == Err(EAGAIN) || r == Err(EFAULT)) && unchanged(this)
      ensures r.Ok? ==> old(Snapshot()).ReadLeads(count, Snapshot()) && r.value + Queue() == old(Queue())
      ensures r.Ok? ==> |r.value| <= count && (0 < count ==> 0 < |r.value|)
      ensures r.Ok? && |r.value| < count ==> Queue() == [] || (rp == 0 && old(rp) + |r.value| == buffersize)
    {
      hide Ring.Queue, Ring.SpaceFree, Pointers.SpaceFree;
      SpaceIsRest(Snapshot());
      CountsReach(Snapshot(), count);
      if rp == wp {
        return Err(EAGAIN);
      }
      ReadTakes(Snapshot(), count);
      var n := if wp > rp then Min(count, wp - rp) else Min(count, buffersize - rp);
      if fault && 0 < n {
        return Err(EFAULT);
      }
      r := Ok(buffer[rp..rp + n]);
      rp := rp + n;
      if rp == buffersize {
        rp := 0;
      }
    }

    function SpaceFree(): int
      requires 0 < buffersize
      reads this
    {
      if rp == wp then buffersize - 1 else (rp + buffersize - wp) % buffersize - 1
    }

    /** How many of `count` bytes fit behind the write pointer, without going round and without filling the last slot. */
    method Room(count: nat) returns (n: nat)
      requires Valid() && 0 < SpaceFree()
      ensures 0 < Snapshot().SpaceFree() == SpaceFree() && n == Snapshot().WriteCount(count)
    {
      n := Min(count, SpaceFree());
      if wp >= rp {
        n := Min(n, buffersize - wp);
      } else {
        n := Min(n, rp - wp - 1);
      }
    }

    /** A write that may not block; what a blocking one does once there is space. */
    method Write(data: seq<byte>, copy: UserCopy) returns (r: Result<nat>)
      requires Valid()
      modifies `wp, buffer
      ensures Valid() && buffersize == old(buffersize)
      ensures r == Err(EAGAIN) <==> |old(Queue())| == buffersize - 1
      ensures r == Err(EFAULT) <==> |old(Queue())| < buffersize - 1 && copy.Fault? && data != []
      ensures r.Err? ==> (r == Err(EAGAIN) || r == Err(EFAULT)) && Queue() == old(Queue()) && wp == old(wp)
      ensures r.Ok? ==> r.value <= |data| && Queue() == old(Queue()) + data[..r.value]
      ensures r.Ok? && data != [] ==> 0 < r.value
      ensures r.Ok? && r.value < |data| ==> |Queue()| == buffersize - 1 || (wp == 0 && old(wp) + r.value == buffersize)
      ensures r.Ok? ==> old(Snapshot()).WriteLeads(data, Snapshot())
    {
      hide Ring.Queue, Ring.Filled;
      ghost var ring := Snapshot();
      SpaceIsRest(ring);
      if SpaceFree() == 0 {
        return Err(EAGAIN);
      }
      WriteAppends(ring, data);
      CountsReach(ring, |data|);
      var n := Room(|data|);
      hide Ring.SpaceFree, Ring.WriteCount;
      if copy.Fault? && 0 < n {
        ghost var junk := seq(n, i requires 0 <= i => copy.junk(i));
        FaultKeepsQueue(ring, |data|, junk);
        Put(seq(n, i requires 0 <= i => copy.junk(i)));
        return Err(EFAULT);
      }
      Put(data[..n]);
      wp := wp + n;
      if wp == buffersize {
        wp := 0;
      }
      r := Ok(n);
    }

    /** Copies bytes to where the write pointer is. */
    method Put(bytes: seq<byte>)
      requires buffer != null && wp + |bytes| <= buffer.Length
      modifies buffer
      ensures buffer[..] == old(Snapshot()).Filled(bytes)
    {
      forall i | 0 <= i < |bytes| {
        buffer[wp + i] := bytes[i];
      }
    }
  }
}
