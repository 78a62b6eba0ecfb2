/**
  The output side of shortprint: a page used as a circular buffer, filled by one writer at a time and
  drained byte by byte by a work queue.  Offsets stand for the head and tail pointers.
 */
module Printer {
  import opened Geometry
  import opened Kernel

  datatype Ring = Ring(buf: seq<byte>, head: nat, tail: nat)
  {
    function Page(): nat {
      |buf|
    }

    predicate Valid() {
      4 <= Page() && Page() % 2 == 0 && head < Page() && tail < Page()
    }

    /** The space that can be filled from the head without wrapping. */
    function OutSpace(): int {
      if head >= tail then
        var space := Page() - head;
        if tail == 0 then space - 1 else space
      else tail - head - 1
    }

    function Incr(p: nat, n: nat): nat
      requires Valid() && p < Page() && n <= Page()
    {
      if p + n >= Page() then p + n - Page() else p + n
    }

    /** The bytes that are still to be printed, in order. */
    function Contents(): seq<byte>
      requires Valid()
    {
      if tail <= head then buf[tail..head] else buf[tail..] + buf[..head]
    }

    /** Whether the consumer wakes a waiting writer. */
    predicate WakeTest()
      requires Valid()
    {
      (Page() + tail - head) % Page() > Page() / 2
    }

    function Strobed(): Ring
      requires Valid()
    {
      this.(tail := Incr(tail, 1))
    }

    function Stored(i: nat, b: byte): Ring
      requires i < |buf|
    {
      this.(buf := buf[i := b])
    }

    function Advanced(n: nat): Ring
      requires Valid() && n <= Page()
    {
      this.(head := Incr(head, n))
    }
  }

  /** No space is left only when all slots but one are full; what space there is, is free. */
  lemma SpaceIsFree(r: Ring)
    requires r.Valid()
    ensures 0 <= r.OutSpace() <= r.Page() - 1 - |r.Contents()|
    ensures r.head + r.OutSpace() <= r.Page()
    ensures r.OutSpace() == 0 <==> |r.Contents()| == r.Page() - 1
    ensures r.head == r.tail <==> r.Contents() == []
  {
  }

  /** The space found is all there is, or goes on to the end of the page. */
  lemma SpaceIsAll(r: Ring)
    requires r.Valid()
    ensures r.OutSpace() == r.Page() - 1 - |r.Contents()| || r.head + r.OutSpace() == r.Page()
  {
  }

  /** Printing a byte takes the oldest one and can only add to the space a writer has seen. */
  lemma StrobeTakes(r: Ring)
    requires r.Valid() && r.head != r.tail
    ensures r.Strobed().Valid() && r.Contents() == [r.buf[r.tail]] + r.Strobed().Contents()
    ensures r.OutSpace() <= r.Strobed().OutSpace()
  {
  }

  /** A byte stored in the free space is not seen by the consumer. */
  lemma StoreIsUnseen(r: Ring, i: nat, b: byte)
    requires r.Valid() && r.head <= i < r.head + r.OutSpace()
    ensures i < r.Page() && r.Stored(i, b).Valid() && r.Stored(i, b).Contents() == r.Contents()
    ensures r.Stored(i, b).OutSpace() == r.OutSpace()
  {
    var r' := r.Stored(i, b);
    if r.tail <= r.head {
      assert r'.buf[r.tail..r.head] == r.buf[r.tail..r.head];
    } else {
      assert r'.buf[r.tail..] == r.buf[r.tail..];
      assert r'.buf[..r.head] == r.buf[..r.head];
    }
  }

  /** Moving the head publishes what was stored behind it, at the end of the queue. */
  lemma AdvancePublishes(r: Ring, n: nat)
    requires r.Valid() && n <= r.OutSpace()
    ensures r.head + n <= r.Page() && r.Advanced(n).Valid()
    ensures r.Advanced(n).Contents() == r.Contents() + r.buf[r.head..r.head + n]
  {
    var r' := r.Advanced(n);
    if r.tail <= r.head {
      assert r.buf[r.tail..r.head + n] == r.buf[r.tail..r.head] + r.buf[r.head..r.head + n];
      if r.head + n == r.Page() {
        assert r'.Contents() == r.buf[r.tail..] + r.buf[..0];
      }
    } else {
      assert r.buf[..r.head + n] == r.buf[..r.head] + r.buf[r.head..r.head + n];
    }
  }

  /** Filling the space leaves none, or comes to the end of the page. */
  lemma SpaceIsUsed(r: Ring, n: nat)
    requires r.Valid() && n <= r.OutSpace()
    ensures n <= r.Page() && r.Advanced(n).Valid()
    ensures n == r.OutSpace() ==> r.Advanced(n).head == 0 || r.Advanced(n).OutSpace() == 0
  {
  }

  /** The wake test holds when less than half a page is left to print, but not when nothing is left. */
  lemma WakeTestMeans(r: Ring)
    requires r.Valid()
    ensures r.WakeTest() <==> 0 < |r.Contents()| < r.Page() / 2
  {
    var n, used := r.Page(), |r.Contents()|;
    if used == 0 {
      DivModUnique(n + r.tail - r.head, n, 1, 0);
    } else {
      DivModUnique(n + r.tail - r.head, n, if r.tail < r.head then 0 else 1, n - used);
    }
  }
}
