/**
  The DDK USB memory driver: reads go through a packet buffer whose rest is kept for the next read,
  writes are sent in packets, and after both the two cursors on the device are brought together.
  What is read and what is written are separate memories.  Every call is proved against the session it
  leads to, and against the bytes that move.
 */
module DdkMem {
  import opened Kernel
  import D = DdkSession

  datatype Cursor = ForRead | ForWrite

  /** The device: the memory that is read, the stream of bytes it was sent, its cursors, and its answers. */
  class UsbDevice {
    const rx: seq<byte>
    const replies: nat -> D.Reply
    var tx: seq<byte>
    var rd: nat
    var wr: nat
    var tick: nat

    constructor (rx: seq<byte>, replies: nat -> D.Reply)
      ensures this.rx == rx && this.replies == replies && tx == [] && rd == wr == tick == 0
    {
      this.rx, this.replies := rx, replies;
      tx, rd, wr, tick := [], 0, 0, 0;
    }

    /** A control message that sets a cursor, if it goes through. */
    method SetOff(c: Cursor, off: nat) returns (ok: bool)
      modifies `rd, `wr, `tick
      ensures ok == replies(old(tick)).Through? && tick == old(tick) + 1
      ensures rd == (if ok && c.ForRead? then off else old(rd))
      ensures wr == (if ok && c.ForWrite? then off else old(wr))
    {
      ok := replies(tick).Through?;
      tick := tick + 1;
      if ok {
        match c {
          case ForRead => rd := off;
          case ForWrite => wr := off;
        }
      }
    }

    /** A control message that asks for a number. */
    method Ask(n: nat) returns (r: Result<nat>)
      modifies `tick
      ensures r == (if replies(old(tick)).Through? then Ok(n) else Err(EIO)) && tick == old(tick) + 1
    {
      r := if replies(tick).Through? then Ok(n) else Err(EIO);
      tick := tick + 1;
    }

    /** The device sends a packet from its read cursor, as short as it likes. */
    method ReceivePacket(max: nat) returns (r: Result<seq<byte>>)
      modifies `rd, `tick
      ensures tick == old(tick) + 1
      ensures r == match replies(old(tick))
        case Lost => Err(EIO)
        case Through(n) =>
          var k := Min(Min(n, max), Max(0, |rx| - old(rd)));
          Ok(if k == 0 then [] else rx[old(rd)..old(rd) + k])
      ensures rd == old(rd) + if r.Ok? then |r.value| else 0
    {
      match replies(tick) {
        case Lost =>
          r := Err(EIO);
        case Through(n) =>
          var k := Min(Min(n, max), Max(0, |rx| - rd));
          r := Ok(if k == 0 then [] else rx[rd..rd + k]);
          rd := rd + k;
      }
      tick := tick + 1;
    }

    /** The device takes a packet or the front of it, but at least one byte, at its write cursor. */
    method SendPacket(data: seq<byte>) returns (r: Result<nat>)
      requires data != []
      modifies `tx, `wr, `tick
      ensures tick == old(tick) + 1
      ensures r == match replies(old(tick))
        case Lost => Err(EIO)
        case Through(n) => Ok(if 0 < n <= |data| then n else |data|)
      ensures r.Ok? ==> tx == old(tx) + data[..r.value] && wr == old(wr) + r.value
      ensures r.Err? ==> tx == old(tx) && wr == old(wr)
    {
      match replies(tick) {
        case Lost =>
          r := Err(EIO);
        case Through(n) =>
          var k := if 0 < n <= |data| then n else |data|;
          tx := tx + data[..k];
          wr := wr + k;
          r := Ok(k);
      }
      tick := tick + 1;
    }
  }

  /** An open file on the device. */
  class File {
    const usb: UsbDevice
    const in_buf: array<byte>
    const outBufSize: nat
    var leftOver: nat
    var pos: nat
    var successes: nat
    var failures: nat

    // Where in the memory the left-over bytes were, and how many bytes were written in all.
    ghost var src: nat
    ghost var sent: nat

    ghost function Line(): D.Link {
      D.Link(|usb.rx|, in_buf.Length, outBufSize, usb.replies)
    }

    ghost function View(): D.Session
      reads this, usb
    {
      D.Session(pos, leftOver, src, usb.rd, usb.wr, usb.tick, sent, successes, failures)
    }

    /** The left-over bytes in the buffer are those of the memory at `src`. */
    ghost predicate Valid()
      reads this, in_buf
    {
      0 < outBufSize && 0 < in_buf.Length && leftOver <= in_buf.Length && Loaded(src, leftOver)
    }

    /** The first `size` bytes of the buffer are those of the memory at `p`. */
    ghost predicate Loaded(p: nat, size: nat)
      requires size <= in_buf.Length
      reads in_buf
    {
      0 < size ==> p + size <= |usb.rx| && in_buf[..size] == usb.rx[p..p + size]
    }

    /** Opening a device that has an input endpoint: the cursors are still where they were. */
    constructor Open(usb: UsbDevice, inBufSize: nat, outBufSize: nat)
      requires 0 < inBufSize && 0 < outBufSize
      ensures Valid() && this.usb == usb && View() == D.Opened(usb.rd, usb.wr, usb.tick) && fresh(in_buf)
      ensures in_buf.Length == inBufSize && this.outBufSize == outBufSize
    {
      this.usb := usb;
      in_buf := new byte[inBufSize];
      this.outBufSize := outBufSize;
      leftOver, pos, successes, failures := 0, 0, 0, 0;
      src, sent := 0, 0;
    }

    /** The second half of opening: both cursors go to the start. */
    method Rewind() returns (r: Result<()>)
      modifies usb
      ensures View() == D.Open(Line(), old(View())).0
      ensures r == if D.Open(Line(), old(View())).1 then Ok(()) else Err(EIO)
      ensures r.Ok? <==> usb.replies(old(usb.tick)).Through? && usb.replies(old(usb.tick) + 1).Through?
      ensures usb.rd == (if usb.replies(old(usb.tick)).Through? then 0 else old(usb.rd)) && usb.wr == if r.Ok? then 0 else old(usb.wr)
      ensures usb.tx == old(usb.tx)
    {
      var ok := usb.SetOff(ForRead, 0);
      if !ok {
        return Err(EIO);
      }
      ok := usb.SetOff(ForWrite, 0);
      if !ok {
        return Err(EIO);
      }
      r := Ok(());
    }

    /** Gets the next packet into the buffer, from the file position on. */
    method Fetch() returns (r: Result<nat>)
      requires Valid() && leftOver == 0
      modifies usb, in_buf
      ensures (View(), r) == D.Fetch(Line(), old(View()))
      ensures r.Ok? ==> usb.rd == usb.wr == pos + r.value
      ensures usb.tx == old(usb.tx)
      ensures r.Ok? ==> r.value <= in_buf.Length && Loaded(pos, r.value)
    {
      var ok := usb.SetOff(ForRead, pos);
      if !ok {
        return Err(EIO);
      }
      var packet := usb.ReceivePacket(in_buf.Length);
      if packet.Err? {
        return Err(packet.error);
      }
      forall i | 0 <= i < |packet.value| {
        in_buf[i] := packet.value[i];
      }
      ok := usb.SetOff(ForWrite, pos + |packet.value|);
      if !ok {
        return Err(EIO);
      }
      r := Ok(|packet.value|);
    }

    /** Moves what is behind the first `cnt` bytes of the buffer to its front. */
    method ShiftDown(cnt: nat, size: nat)
      requires cnt <= size <= in_buf.Length
      modifies in_buf
      ensures in_buf[..size - cnt] == old(in_buf[cnt..size])
    {
      var i := cnt;
      while i < size
        invariant cnt <= i <= size
        invariant forall k :: 0 <= k < i - cnt ==> in_buf[k] == old(in_buf[cnt + k])
        invariant forall k :: i <= k < size ==> in_buf[k] == old(in_buf[k])
      {
        in_buf[i - cnt] := in_buf[i];
        i := i + 1;
      }
    }

    /**
      Returns the next bytes: from the left-over, which followed the last read, or else from a packet
      fetched at the file position.  The rest is kept, and nothing is lost when a step fails.
     */
    method Read(cnt: nat, fault: bool) returns (r: Result<seq<byte>>)
      requires Valid()
      modifies `leftOver, `pos, `src, usb, in_buf
      ensures Valid() && usb.tx == old(usb.tx)
      ensures var (s, p) := D.Read(Line(), old(View()), cnt, fault);
        View() == s && IsOf(usb.rx, r, p)
      ensures r.Ok? ==> |r.value| <= cnt && pos == old(pos) + |r.value| && (|r.value| == cnt || leftOver == 0)
      ensures r.Err? ==> pos == old(pos)
      ensures old(leftOver) != 0 ==> unchanged(usb) && leftOver == old(leftOver) - if r.Ok? then |r.value| else 0
      ensures old(leftOver) == 0 && r.Ok? ==> usb.rd == usb.wr == pos + leftOver
    {
      hide D.Fetch;
      var size := leftOver;
      ghost var from := src;
      if leftOver != 0 {
        leftOver := 0;
      } else {
        var fetched := Fetch();
        if fetched.Err? {
          return Err(fetched.error);
        }
        size, from := fetched.value, pos;
      }
      r := Deliver(size, from, cnt, fault);
    }

    /** Copies up to `cnt` of the `size` bytes in the buffer to the user, and keeps the rest for the next read. */
    method Deliver(size: nat, ghost from: nat, cnt: nat, fault: bool) returns (r: Result<seq<byte>>)
      requires 0 < outBufSize && 0 < in_buf.Length && size <= in_buf.Length && Loaded(from, size)
      modifies `leftOver, `pos, `src, in_buf
      ensures Valid()
      ensures View() == D.Deliver(old(View()), size, from, cnt, fault).0
      ensures IsOf(usb.rx, r, D.Deliver(old(View()), size, from, cnt, fault).1)
      ensures r.Ok? ==> |r.value| == Min(size, cnt) && leftOver == size - |r.value| && pos == old(pos) + |r.value|
      ensures r.Err? ==> fault && leftOver == size && pos == old(pos)
    {
      var n := if size <= cnt then size else cnt;
      src := from;
      if fault && 0 < n {
        leftOver := size;
        return Err(EFAULT);
      }
      Halves(in_buf[..], usb.rx, from, size, n);
      r := Ok(in_buf[..n]);
      if cnt < size {
        ShiftDown(cnt, size);
        leftOver := size - cnt;
      } else {
        leftOver := 0;
      }
      pos, src := pos + n, from + n;
    }

    /** Sends the buffer packet by packet, however short the transfers, until a step fails. */
    method SendAll(buf: seq<byte>, faults: nat -> bool) returns (r: Result<nat>)
      requires Valid()
      modifies `failures, `sent, usb
      ensures Valid() && (View(), r) == D.Send(Line(), old(View()), |buf|, 0, faults)
      ensures old(sent) <= sent <= old(sent) + |buf| && usb.tx == old(usb.tx) + buf[..sent - old(sent)]
    {
      hide Loaded, D.Send;
      var wrote := 0;
      while wrote < |buf|
        invariant wrote == sent - old(sent) <= |buf| && usb.tx == old(usb.tx) + buf[..wrote]
        invariant Valid() && unchanged(`failures)
        invariant D.Send(Line(), old(View()), |buf|, 0, faults) == D.Send(Line(), View(), |buf|, wrote, faults)
      {
        D.SendStep(Line(), View(), |buf|, wrote, faults);
        var size := Min(outBufSize, |buf| - wrote);
        if faults(wrote) {
          return Err(EFAULT);
        }
        var transfer := usb.SendPacket(buf[wrote..wrote + size]);
        if transfer.Err? {
          failures := failures + 1;
          return Err(transfer.error);
        }
        Appended(old(usb.tx), buf, wrote, size, transfer.value);
        wrote := wrote + transfer.value;
        sent := sent + transfer.value;
      }
      D.SendStep(Line(), View(), |buf|, wrote, faults);
      r := Ok(wrote);
    }

    /**
      Sends the whole buffer and then brings the read cursor to where the write cursor is.  If a step
      fails, a front part of the buffer has been sent.
     */
    method Write(buf: seq<byte>, faults: nat -> bool) returns (r: Result<nat>)
      requires Valid()
      modifies `pos, `successes, `failures, `sent, usb
      ensures Valid() && (View(), r) == D.Write(Line(), old(View()), |buf|, faults)
      ensures r.Ok? ==> r.value == |buf| && successes == old(successes) + 1 && usb.rd == usb.wr == pos
      ensures if successes == old(successes) then r.Err? && pos == old(pos)
              else successes == old(successes) + 1 && pos == old(pos) + |buf| && sent == old(sent) + |buf| && failures == old(failures)
      ensures old(failures) <= failures <= old(failures) + 1 && (r == Err(EFAULT) ==> failures == old(failures))
      ensures old(sent) <= sent <= old(sent) + |buf| && usb.tx == old(usb.tx) + buf[..sent - old(sent)]
    {
      hide D.Send;
      var ok := usb.SetOff(ForWrite, pos);
      if !ok {
        return Err(EIO);
      }
      D.SendMoves(Line(), View(), |buf|, 0, faults);
      r := SendAll(buf, faults);
      if r.Err? {
        return r;
      }
      pos := pos + r.value;
      successes := successes + 1;
      ok := usb.SetOff(ForRead, pos);
      if !ok {
        return Err(EIO);
      }
    }

    /** Sets both cursors and then the position. */
    method MoveTo(newpos: nat) returns (r: Result<nat>)
      requires Valid()
      modifies `pos, usb
      ensures Valid() && usb.tx == old(usb.tx) && (View(), r) == D.MoveTo(Line(), old(View()), newpos)
      ensures r.Ok? <==> usb.replies(old(usb.tick)).Through? && usb.replies(old(usb.tick) + 1).Through?
      ensures if r.Ok? then r.value == pos == usb.rd == usb.wr == newpos else pos == old(pos)
    {
      var ok := usb.SetOff(ForRead, newpos);
      if !ok {
        return Err(EIO);
      }
      ok := usb.SetOff(ForWrite, newpos);
      if !ok {
        return Err(EIO);
      }
      pos := newpos;
      r := Ok(newpos);
    }

    /** Seeking sets the position and both cursors; relative seeks start from the device's read cursor. */
    method Seek(offset: int, whence: int) returns (r: Result<nat>)
      requires Valid()
      modifies `pos, usb
      ensures Valid() && usb.tx == old(usb.tx)
      ensures (View(), r) == D.Seek(Line(), old(View()), offset, whence)
      ensures r.Ok? ==> 0 <= whence <= 2 && r.value == pos == usb.rd == usb.wr <= |usb.rx|
      ensures r.Ok? ==> var p := offset + if whence == 0 then 0 else if whence == 1 then old(usb.rd) else |usb.rx|;
        (0 <= p <= |usb.rx| ==> pos == p) && (p < 0 ==> pos == 0) && (|usb.rx| < p ==> pos == |usb.rx|)
      ensures r.Err? ==> pos == old(pos)
      ensures (forall t :: usb.replies(t).Through?) ==> (r.Ok? <==> 0 <= whence <= 2)
    {
      hide D.MoveTo;
      var size := usb.Ask(|usb.rx|);
      if size.Err? {
        return size;
      }
      var newpos := offset;
      match whence {
        case 0 =>
        case 1 =>
          var cur := usb.Ask(usb.rd);
          if cur.Err? {
            return cur;
          }
          newpos := newpos + cur.value;
        case 2 =>
          newpos := newpos + size.value;
        case _ =>
          return Err(EINVAL);
      }
      if newpos < 0 {
        newpos := 0;
      } else if newpos > size.value {
        newpos := size.value;
      }
      r := MoveTo(newpos);
    }

    ghost function Reads(counts: seq<nat>, faults: nat -> bool): seq<D.Call> {
      seq(|counts|, i requires 0 <= i < |counts| => D.ReadCall(counts[i], faults(i)))
    }

    /**
      Reads any number of times with any counts.  Each result is that of its call in the run of sessions, and
      the bytes, put together, are the memory from the first position to the last, wherever a call failed.
     */
    method ReadMany(counts: seq<nat>, faults: nat -> bool) returns (results: seq<Result<seq<byte>>>, bytes: seq<byte>)
      requires Valid() && (leftOver == 0 || src == pos)
      modifies `leftOver, `pos, `src, usb, in_buf
      ensures Valid() && usb.tx == old(usb.tx)
      ensures var run := D.Trace(Line(), old(View()), Reads(counts, faults));
        && View() == run[|counts|] && |results| == |counts|
        && forall i :: 0 <= i < |counts| ==> IsOf(usb.rx, results[i], D.Read(Line(), run[i], counts[i], faults(i)).1)
      ensures old(pos) <= pos <= Max(old(pos), |usb.rx|)
      ensures bytes == Joined(results) == if pos == old(pos) then [] else usb.rx[old(pos)..pos]
    {
      ghost var line, calls := Line(), Reads(counts, faults);
      ghost var run := D.Trace(line, View(), calls);
      assert |calls| == |counts| && D.OnlyReads(calls) && forall i :: 0 <= i < |counts| ==> calls[i] == D.ReadCall(counts[i], faults(i));
      hide Valid, IsOf, AreOf, Joined, Reads, D.Read, D.Trace, D.Perform, D.IsRun;
      results := [];
      NoneOf(usb.rx, line, run, calls);
      for i := 0 to |counts|
        invariant Valid() && usb.tx == old(usb.tx) && |results| == i && View() == run[i]
        invariant AreOf(usb.rx, line, run, calls, results)
      {
        var r := Read(counts[i], faults(i));
        OneMoreOf(usb.rx, line, run, calls, results, r);
        results := results + [r];
      }
      EachIsOf(usb.rx, line, run, calls, results);
      bytes := Joined(results);
      JoinedIsStream(usb.rx, line, run, calls, results);
      D.ReadsAreTheMemory(line, usb.rx, run, calls, |counts|);
    }
  }

  /** The front and the rest of a piece of the memory. */
  lemma Halves(a: seq<byte>, rx: seq<byte>, from: nat, size: nat, n: nat)
    requires n <= size <= |a| && (0 < size ==> from + size <= |rx| && a[..size] == rx[from..from + size])
    ensures 0 < size ==> a[..n] == rx[from..from + n] && a[n..size] == rx[from + n..from + size]
  {
    assert a[..n] == a[..size][..n] && a[n..size] == a[..size][n..];
  }

  /** A result is that of a read of a piece of the memory. */
  ghost predicate IsOf(rx: seq<byte>, r: Result<seq<byte>>, p: Result<D.Piece>) {
    if p.Err? then r == Err(p.error)
    else (p.value.n == 0 || p.value.from + p.value.n <= |rx|) && r == Ok(D.Fetched(rx, p.value))
  }

  /** The results are those of the first calls of a run of reads. */
  ghost predicate AreOf(rx: seq<byte>, line: D.Link, run: seq<D.Session>, calls: seq<D.Call>, results: seq<Result<seq<byte>>>) {
    && |results| <= |calls| < |run| && D.OnlyReads(calls)
    && forall i :: 0 <= i < |results| ==> IsOf(rx, results[i], D.Read(line, run[i], calls[i].count, calls[i].fault).1)
  }

  lemma NoneOf(rx: seq<byte>, line: D.Link, run: seq<D.Session>, calls: seq<D.Call>)
    requires |calls| < |run| && D.OnlyReads(calls)
    ensures AreOf(rx, line, run, calls, [])
  {
  }

  lemma OneMoreOf(rx: seq<byte>, line: D.Link, run: seq<D.Session>, calls: seq<D.Call>, results: seq<Result<seq<byte>>>, r: Result<seq<byte>>)
    requires 0 < line.outSize && D.IsRun(line, run, calls) && AreOf(rx, line, run, calls, results) && |results| < |calls|
    requires var k := |results|; IsOf(rx, r, D.Read(line, run[k], calls[k].count, calls[k].fault).1)
    ensures AreOf(rx, line, run, calls, results + [r])
    ensures var k := |results|; run[k + 1] == D.Read(line, run[k], calls[k].count, calls[k].fault).0
  {
    hide IsOf, D.Read;
  }

  lemma EachIsOf(rx: seq<byte>, line: D.Link, run: seq<D.Session>, calls: seq<D.Call>, results: seq<Result<seq<byte>>>)
    requires AreOf(rx, line, run, calls, results)
    ensures |results| <= |calls| < |run| && D.OnlyReads(calls)
    ensures forall i :: 0 <= i < |results| ==> IsOf(rx, results[i], D.Read(line, run[i], calls[i].count, calls[i].fault).1)
  {
  }

  lemma {:induction false} JoinedIsStream(rx: seq<byte>, line: D.Link, run: seq<D.Session>, calls: seq<D.Call>, results: seq<Result<seq<byte>>>)
    requires 0 < line.outSize && D.IsRun(line, run, calls) && AreOf(rx, line, run, calls, results)
    ensures Joined(results) == D.Stream(line, rx, run, calls, |results|)
  {
    hide D.Read, D.Perform;
    if results == [] {
      D.StreamStarts(line, rx, run, calls);
    } else {
      var k := |results| - 1;
      JoinedIsStream(rx, line, run, calls, results[..k]);
      D.StreamGrows(line, rx, run, calls, k);
    }
  }

  /** The bytes of the reads that succeeded. */
  function Joined(results: seq<Result<seq<byte>>>): seq<byte> {
    if results == [] then [] else
      var last := results[|results| - 1];
      Joined(results[..|results| - 1]) + if last.Ok? then last.value else []
  }

  lemma Appended(tx: seq<byte>, buf: seq<byte>, wrote: nat, size: nat, k: nat)
    requires wrote + size <= |buf| && k <= size
    ensures tx + buf[..wrote] + buf[wrote..wrote + size][..k] == tx + buf[..wrote + k]
  {
    assert buf[wrote..wrote + size][..k] == buf[wrote..wrote + k];
    assert buf[..wrote] + buf[wrote..wrote + k] == buf[..wrote + k];
  }
}
