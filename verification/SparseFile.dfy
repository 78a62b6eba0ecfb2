/**
  What a scull device is for its users: a flat, sparse array of bytes with a size.  A cell exists once
  the quantum it lies in has been allocated; the other offsets are holes.
 */
module SparseFile {
  import opened Geometry
  import opened Kernel

  datatype File = File(cells: imap<nat, byte>, size: nat)

  ghost const Empty := File(imap[], 0)

  /** A call moves no more than the rest of the quantum the position lies in. */
  function Chunk(quantum: nat, pos: nat, count: nat): nat
    requires 0 < quantum
  {
    Min(count, quantum - pos % quantum)
  }

  /** A call moves all it is asked to, or goes on to the end of the quantum; and it does not go further. */
  lemma ChunkEnds(quantum: nat, pos: nat, count: nat)
    requires 0 < quantum
    ensures var n := Chunk(quantum, pos, count);
      && n <= count && pos % quantum + n <= quantum && (0 < count ==> 0 < n)
      && (n == count || ((pos + n) % quantum == 0 && (pos + n) / quantum == pos / quantum + 1))
  {
    var n := quantum - pos % quantum;
    DivModUnique(pos + n, quantum, pos / quantum + 1, 0);
  }

  /** At most the quantum of `pos` was added; every cell outside `pos..pos+n` that was there is untouched. */
  ghost predicate Kept(f: File, f': File, quantum: nat, pos: nat, n: nat)
    requires 0 < quantum
  {
    && (forall p :: p in f.cells && !(pos <= p < pos + n) ==> p in f'.cells && f'.cells[p] == f.cells[p])
    && (forall p :: p in f.cells ==> p in f'.cells)
    && (forall p :: p in f'.cells && p !in f.cells ==> p / quantum == pos / quantum)
  }

  /** `bytes` were stored at `pos`. */
  ghost predicate Stored(f: File, f': File, quantum: nat, pos: nat, bytes: seq<byte>)
    requires 0 < quantum
  {
    && Kept(f, f', quantum, pos, |bytes|)
    && (forall p :: pos <= p < pos + |bytes| ==> p in f'.cells && f'.cells[p] == bytes[p - pos])
    && f'.size == Max(f.size, pos + |bytes|)
  }

  lemma KeptSelf(f: File, quantum: nat, pos: nat)
    requires 0 < quantum
    ensures Kept(f, f, quantum, pos, 0)
  {
  }

  /** Adding a quantum and then storing into it is a store. */
  lemma KeptThenStored(f: File, f': File, f'': File, quantum: nat, pos: nat, bytes: seq<byte>)
    requires 0 < quantum && Kept(f, f', quantum, pos, 0) && f'.size == f.size && Stored(f', f'', quantum, pos, bytes)
    ensures Stored(f, f'', quantum, pos, bytes)
    ensures Kept(f, f''.(size := f.size), quantum, pos, |bytes|)
  {
  }

  /** How many bytes a read transfers: none past the end or at a hole, and no more than the quantum holds. */
  ghost function ReadCount(f: File, quantum: nat, pos: nat, count: nat): (n: nat)
    requires 0 < quantum
    ensures n <= count && pos % quantum + n <= quantum
    ensures 0 < n ==> pos in f.cells && pos + n <= f.size
  {
    if f.size <= pos || pos !in f.cells then 0 else Chunk(quantum, pos, Min(count, f.size - pos))
  }

  /** A read below the size where there is a cell stops short only at the end of the file or of the quantum. */
  lemma ReadEnds(f: File, quantum: nat, pos: nat, count: nat)
    requires 0 < quantum && pos < f.size && pos in f.cells
    ensures var n := ReadCount(f, quantum, pos, count);
      n < count ==> 0 < n && (pos + n == f.size || (pos + n) % quantum == 0)
  {
    ChunkEnds(quantum, pos, Min(count, f.size - pos));
  }

  /** `bytes` is what a read of `count` bytes at `pos` must return. */
  ghost predicate Returned(f: File, quantum: nat, pos: nat, count: nat, bytes: seq<byte>)
    requires 0 < quantum
  {
    && |bytes| == ReadCount(f, quantum, pos, count)
    && forall p :: pos <= p < pos + |bytes| ==> p in f.cells && f.cells[p] == bytes[p - pos]
  }

  // ----- a device over a whole run, against a flat reference memory

  /** The bytes written since the device was last emptied, and the end of the furthest write. */
  datatype Written = Written(bytes: imap<nat, byte>, size: nat)

  predicate InRange(p: nat, pos: nat, n: nat) {
    pos <= p < pos + n
  }

  ghost function AfterWrite(w: Written, pos: nat, bytes: seq<byte>): Written {
    Written(
      imap p: nat | p in w.bytes || InRange(p, pos, |bytes|) :: if InRange(p, pos, |bytes|) then bytes[p - pos] else w.bytes[p],
      Max(w.size, pos + |bytes|))
  }

  ghost predicate Agrees(f: File, w: Written) {
    && f.size == w.size
    && forall p :: p in w.bytes ==> p < w.size && p in f.cells && f.cells[p] == w.bytes[p]
  }

  /** A write that faulted may have left anything in its range. */
  ghost function AfterFault(w: Written, pos: nat, n: nat): Written {
    Written(imap p: nat | p in w.bytes && !InRange(p, pos, n) :: w.bytes[p], w.size)
  }

  /** Storing bytes keeps a device in agreement with the reference memory. */
  lemma StoreAgrees(f: File, f': File, w: Written, quantum: nat, pos: nat, bytes: seq<byte>)
    requires 0 < quantum && Agrees(f, w) && Stored(f, f', quantum, pos, bytes)
    ensures Agrees(f', AfterWrite(w, pos, bytes))
  {
  }

  /** A read never returns anything but the last byte written at each offset that was written. */
  lemma ReadAgrees(f: File, w: Written, quantum: nat, pos: nat, count: nat, bytes: seq<byte>)
    requires 0 < quantum && Agrees(f, w) && Returned(f, quantum, pos, count, bytes)
    ensures |bytes| <= count && (0 < |bytes| ==> pos + |bytes| <= w.size)
    ensures forall p :: pos <= p < pos + |bytes| && p in w.bytes ==> bytes[p - pos] == w.bytes[p]
    ensures pos in w.bytes && 0 < count ==> 0 < |bytes|
  {
  }

  lemma FaultAgrees(f: File, f': File, w: Written, quantum: nat, pos: nat, n: nat)
    requires 0 < quantum && Agrees(f, w) && Kept(f, f', quantum, pos, n) && f'.size == f.size
    ensures Agrees(f', AfterFault(w, pos, n))
  {
  }
}
