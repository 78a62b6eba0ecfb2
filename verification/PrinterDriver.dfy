/**
  The shortprint output engine on its page, run by one task: the sections that the protocol interleaves,
  and the write loop with the work function called whenever the writer would sleep.
 */
module PrinterDriver {
  import opened Kernel
  import opened Printer

  lemma Append(before: seq<byte>, data: seq<byte>, w: nat, n: nat)
    requires w + n <= |data|
    ensures before + data[..w] + data[w..w + n] == before + data[..w + n]
  {
    assert data[..w] + data[w..w + n] == data[..w + n];
  }

  class Driver {
    const page: array<byte>
    var head: nat
    var tail: nat
    var active: bool
    var armed: bool
    var queued: bool
    ghost var printed: seq<byte>

    ghost function Snapshot(): Ring
      reads this, page
    {
      Ring(page[..], head, tail)
    }

    /** Output is active whenever bytes wait, and then the timer or the work item will carry it on. */
    ghost predicate Valid()
      reads this, page
    {
      && Snapshot().Valid()
      && (Snapshot().Contents() != [] ==> active)
      && (active ==> armed || queued)
    }

    ghost function Accepted(): seq<byte>
      requires Snapshot().Valid()
      reads this, page
    {
      printed + Snapshot().Contents()
    }

    constructor (size: nat)
      requires 4 <= size && size % 2 == 0
      ensures Valid() && Accepted() == [] && page.Length == size && fresh(page)
    {
      page := new byte[size];
      head, tail, active, armed, queued, printed := 0, 0, false, false, false, [];
    }

    function OutSpace(): int
      reads this
    {
      if head >= tail then
        var space := page.Length - head;
        if tail == 0 then space - 1 else space
      else tail - head - 1
    }

    /** Prints the byte at the tail. */
    method DoWrite()
      requires Snapshot().Valid() && head != tail
      modifies `tail, `armed, `printed
      ensures Snapshot() == old(Snapshot()).Strobed() && armed
      ensures printed == old(printed) + [page[old(tail)]]
    {
      armed := true;
      printed := printed + [page[tail]];
      tail := if tail + 1 >= page.Length then tail + 1 - page.Length else tail + 1;
    }

    method StartOutput()
      modifies `active, `armed, `queued
      ensures if old(active) then unchanged(this) else active && armed && queued
    {
      if active {
        return;
      }
      active, armed, queued := true, true, true;
    }

    /** The work function: prints one byte, or stops when there is none; says whether it wakes the writer. */
    method DoWork() returns (wake: bool)
      requires Valid()
      modifies `tail, `active, `armed, `queued, `printed
      ensures Valid() && Accepted() == old(Accepted())
      ensures active <==> old(Snapshot().Contents()) != []
      ensures |Snapshot().Contents()| == if active then |old(Snapshot().Contents())| - 1 else 0
      ensures wake <==> 0 < |Snapshot().Contents()| < page.Length / 2
    {
      hide Ring.Contents, Ring.OutSpace;
      SpaceIsFree(Snapshot());
      queued := false;
      if head == tail {
        active, armed := false, false;
      } else {
        StrobeTakes(Snapshot());
        DoWrite();
      }
      WakeTestMeans(Snapshot());
      wake := (page.Length + tail - head) % page.Length > page.Length / 2;
    }

    /**
      Sleeping on a full ring while the work function runs: it wakes the sleeper after half a page, unless a
      signal comes first, after `patience` runs.
     */
    method Sleep(patience: nat) returns (woken: bool)
      requires Valid() && OutSpace() == 0
      modifies `tail, `active, `armed, `queued, `printed
      ensures Valid() && Accepted() == old(Accepted())
      ensures woken <==> page.Length / 2 <= patience
      ensures |Snapshot().Contents()| == page.Length - 1 - Min(patience, page.Length / 2)
      ensures woken ==> 0 < OutSpace()
    {
      SpaceIsFree(Snapshot());
      hide Ring.Contents, Ring.OutSpace;
      woken := false;
      var runs := 0;
      while !woken && runs < patience
        invariant Valid() && Accepted() == old(Accepted()) && runs <= patience
        invariant |Snapshot().Contents()| == page.Length - 1 - runs && runs <= page.Length / 2
        invariant woken <==> runs == page.Length / 2
        decreases patience - runs, woken
      {
        woken := DoWork();
        runs := runs + 1;
      }
      SpaceIsFree(Snapshot());
    }

    /** Waiting for space: either there is some at once, or the writer sleeps; false if a signal ends that. */
    method WaitForSpace(patience: nat) returns (ok: bool, space: int)
      requires Valid()
      modifies `tail, `active, `armed, `queued, `printed
      ensures Valid() && Accepted() == old(Accepted())
      ensures ok <==> 0 < old(OutSpace()) || page.Length / 2 <= patience
      ensures ok ==> 0 < space == OutSpace()
      ensures old(OutSpace()) == 0 ==> |Snapshot().Contents()| == page.Length - 1 - Min(patience, page.Length / 2)
      ensures 0 < old(OutSpace()) ==> unchanged(this)
    {
      SpaceIsFree(Snapshot());
      ok, space := true, OutSpace();
      if space <= 0 {
        ok := Sleep(patience);
        space := OutSpace();
      }
    }

    /** Copies `n` bytes behind the head, publishes them, and makes sure that output is active. */
    method PutChunk(data: seq<byte>)
      requires Valid() && 0 < |data| <= OutSpace()
      modifies this, page
      ensures Valid() && Accepted() == old(Accepted()) + data
      ensures |data| == old(OutSpace()) ==> head == 0 || OutSpace() == 0
    {
      hide Ring.Contents;
      SpaceIsFree(Snapshot());
      CopyBehindHead(data);
      ghost var filled := Snapshot();
      AdvancePublishes(filled, |data|);
      assert filled.buf[head..head + |data|] == data;
      assert printed + (filled.Contents() + data) == printed + filled.Contents() + data;
      hide Ring.OutSpace;
      head := if head + |data| >= page.Length then head + |data| - page.Length else head + |data|;
      SpaceIsUsed(filled, |data|);
      StartOutput();
    }

    method CopyBehindHead(data: seq<byte>)
      requires Snapshot().Valid() && |data| <= OutSpace() && head + |data| <= page.Length
      modifies page
      ensures Snapshot().Valid() && Snapshot().Contents() == old(Snapshot().Contents()) && page[head..head + |data|] == data
    {
      hide Ring.Contents, Ring.OutSpace, Ring.Stored;
      SpaceOfSnapshot();
      var i := 0;
      while i < |data|
        invariant 0 <= i <= |data| && Behind(old(Snapshot()), |data|)
        invariant page[head..head + i] == data[..i]
      {
        StoreIsUnseen(Snapshot(), head + i, data[i]);
        StoreByte(head + i, data[i]);
        assert page[head..head + (i + 1)] == page[head..head + i] + [page[head + i]];
        i := i + 1;
      }
    }

    /** The ring has the contents it had in `before`, and room for `n` bytes behind the head. */
    ghost predicate Behind(before: Ring, n: nat)
      requires before.Valid()
      reads this, page
    {
      Snapshot().Valid() && Snapshot().Contents() == before.Contents() && n <= Snapshot().OutSpace()
    }

    lemma SpaceOfSnapshot()
      ensures Snapshot().OutSpace() == OutSpace()
    {
    }

    method StoreByte(i: nat, b: byte)
      requires i < page.Length
      modifies page
      ensures Snapshot() == old(Snapshot()).Stored(i, b)
      ensures forall p :: 0 <= p < page.Length ==> page[p] == if p == i then b else old(page[p])
    {
      page[i] := b;
      assert page[..] == old(page[..])[i := b];
    }

    /** A copy that faults leaves bytes only where nobody looks. */
    method SpoilBehindHead(junk: nat -> byte, n: nat)
      requires Valid() && n <= OutSpace()
      modifies page
      ensures Valid() && Snapshot().Contents() == old(Snapshot().Contents())
    {
      hide Ring.Contents;
      SpaceIsFree(Snapshot());
      CopyBehindHead(seq(n, i requires 0 <= i => junk(i)));
    }

    /**
      A write is accepted in order and as far as it gets, and leaves output going: the whole of it, unless a
      copy faults or a signal ends a wait.  After a fault the caller does not learn what was accepted before.
     */
    method Write(data: seq<byte>, copies: nat -> UserCopy, patience: nat -> nat) returns (r: Result<nat>, ghost accepted: nat)
      requires Valid()
      modifies this, page
      ensures Valid() && accepted <= |data| && Accepted() == old(Accepted()) + data[..accepted]
      ensures match r
        case Ok(n) => n == accepted && (n < |data| ==> patience(n) < page.Length / 2)
        case Err(e) => e == EFAULT && accepted < |data| && copies(accepted).Fault?
      ensures r.Ok? && r.value < |data| ==> |Snapshot().Contents()| == page.Length - 1 - patience(r.value)
      ensures r.Err? && 0 < accepted ==> head == 0 || |Snapshot().Contents()| == page.Length - 1 - page.Length / 2
      ensures (forall k :: copies(k).Complete?) && (forall k :: page.Length / 2 <= patience(k)) ==> r == Ok(|data|)
    {
      hide Ring.Contents, Ring.OutSpace;
      var written := 0;
      accepted := 0;
      assert Accepted() == old(Accepted()) + data[..0];
      while written < |data|
        invariant Valid() && written == accepted <= |data| && Accepted() == old(Accepted()) + data[..written]
        invariant 0 < written < |data| ==> head == 0 || OutSpace() == 0
      {
        var ok, space := WaitForSpace(patience(written));
        if !ok {
          return Ok(written), accepted;
        }
        if space + written > |data| {
          space := |data| - written;
        }
        var copy := copies(written);
        if copy.Fault? {
          SpoilBehindHead(copy.junk, space);
          return Err(EFAULT), accepted;
        }
        PutChunk(data[written..written + space]);
        Append(old(Accepted()), data, written, space);
        written := written + space;
        accepted := written;
      }
      r := Ok(written);
    }
  }
}
