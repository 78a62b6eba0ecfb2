/**
  The bare scull device: a list of items, each with an array of `qset` pointers to blocks of `quantum`
  bytes.  Items, arrays and blocks are allocated when first written, and all freed when the device is
  trimmed, which is also when it adopts a new geometry.
 */
module Scull {
  import opened Kernel
  import opened Geometry
  import opened Layout
  import opened SparseFile

  const DEFAULT_QUANTUM := 4000
  const DEFAULT_QSET := 1000

  datatype Param = Quantum | Qset

  /** An integer behind a user pointer.  A read that faults leaves `junk` where it was to go. */
  datatype UserInt = Readable(value: int) | Unreadable(junk: int)

  /** The commands, by the letters of their names; those that use a user pointer say whether it can be used. */
  datatype Command =
    | Unknown
    | Reset
    | Set(param: Param, arg: UserInt)
    | Tell(param: Param, value: int)
    | Get(param: Param, writable: bool)
    | Query(param: Param)
    | Exchange(param: Param, arg: UserInt, writable: bool)
    | Shift(param: Param, value: int)
  {
    predicate Privileged() {
      Set? || Tell? || Exchange? || Shift?
    }

    predicate ByPointer() {
      Set? || Get? || Exchange?
    }

    /** A user access of the command fails. */
    predicate Faults() {
      (Set? && arg.Unreadable?) || (Get? && !writable) || (Exchange? && (arg.Unreadable? || !writable))
    }

    /** What a permitted command makes of a parameter: even one that faults may change it. */
    function NewValue(p: Param, before: int): int {
      match this
      case Reset => if p.Quantum? then DEFAULT_QUANTUM else DEFAULT_QSET
      case Tell(q, v) => if p == q then v else before
      case Shift(q, v) => if p == q then v else before
      case Set(q, arg) => if p != q then before else if arg.Readable? then arg.value else arg.junk
      case Exchange(q, arg, _) => if p != q then before else if arg.Readable? then arg.value else arg.junk
      case _ => before
    }
  }

  /** The module-wide geometry, for devices to adopt. */
  class Params {
    var quantum: int
    var qset: int

    constructor ()
      ensures quantum == DEFAULT_QUANTUM && qset == DEFAULT_QSET
    {
      quantum, qset := DEFAULT_QUANTUM, DEFAULT_QSET;
    }

    function Value(p: Param): int
      reads this
    {
      if p.Quantum? then quantum else qset
    }

    method Assign(p: Param, v: int)
      modifies this
      ensures quantum == (if p.Quantum? then v else old(quantum)) && qset == (if p.Qset? then v else old(qset))
    {
      match p {
        case Quantum => quantum := v;
        case Qset => qset := v;
      }
    }

    /**
      Changing a parameter takes the capability; resetting or asking does not.  `inRange` says whether
      the pointer passes the first check.  `stored` is what the command wrote to user memory.
     */
    method Ioctl(cmd: Command, capable: bool, inRange: bool) returns (r: Result<int>, stored: Option<int>)
      modifies this
      ensures r == Err(ENOTTY) <==> cmd.Unknown?
      ensures r == Err(EPERM) <==> cmd.Privileged() && !capable && (cmd.ByPointer() ==> inRange)
      ensures r == Err(EFAULT) <==> (cmd.ByPointer() && !inRange) || (cmd.Faults() && (cmd.Privileged() ==> capable))
      ensures r.Err? ==> r.error in {ENOTTY, EPERM, EFAULT}
      ensures if cmd.Unknown? || (cmd.ByPointer() && !inRange) || (cmd.Privileged() && !capable) then unchanged(this)
              else forall p :: Value(p) == cmd.NewValue(p, old(Value(p)))
      ensures !capable && (cmd.Set? || cmd.Tell? || cmd.Exchange? || cmd.Shift?) ==> r.Err? && unchanged(this)
      ensures cmd.Unknown? || cmd.Get? || cmd.Query? ==> unchanged(this)
      ensures cmd.Reset? ==> quantum == DEFAULT_QUANTUM && qset == DEFAULT_QSET
      ensures capable && (cmd.Tell? || cmd.Shift?) ==>
                if cmd.param.Quantum? then quantum == cmd.value && qset == old(qset) else qset == cmd.value && quantum == old(quantum)
      ensures capable && inRange && (cmd.Set? || cmd.Exchange?) && cmd.arg.Readable? ==>
                if cmd.param.Quantum? then quantum == cmd.arg.value && qset == old(qset) else qset == cmd.arg.value && quantum == old(quantum)
      ensures !inRange && (cmd.Set? || cmd.Get? || cmd.Exchange?) ==> r == Err(EFAULT) && unchanged(this)
      ensures inRange && cmd.Get? ==> if cmd.writable then r == Ok(0) && stored.Some? else r == Err(EFAULT)
      ensures capable && inRange && cmd.Set? ==> r == if cmd.arg.Readable? then Ok(0) else Err(EFAULT)
      ensures capable && inRange && cmd.Exchange? ==>
                if cmd.arg.Readable? && cmd.writable then r == Ok(0) && stored.Some? else r == Err(EFAULT)
      ensures cmd.Reset? || (capable && cmd.Tell?) ==> r == Ok(0)
      ensures capable && cmd.Shift? ==> r == Ok(if cmd.param.Quantum? then old(quantum) else old(qset))
      ensures cmd.Query? ==> r == Ok(if cmd.param.Quantum? then old(quantum) else old(qset))
      ensures stored.Some? ==> (cmd.Get? || cmd.Exchange?) && stored.value == if cmd.param.Quantum? then old(quantum) else old(qset)
      ensures r.Ok? ==> r.value == if cmd.Query? || cmd.Shift? then old(Value(cmd.param)) else 0
      ensures stored == if r.Ok? && (cmd.Get? || cmd.Exchange?) then Some(old(Value(cmd.param))) else None
    {
      r, stored := Ok(0), None;
      if cmd.Unknown? {
        return Err(ENOTTY), None;
      }
      if cmd.ByPointer() && !inRange {
        return Err(EFAULT), None;
      }
      match cmd {
        case Reset =>
          quantum, qset := DEFAULT_QUANTUM, DEFAULT_QSET;
        case Set(p, arg) =>
          if !capable { return Err(EPERM), None; }
          r := GetUser(p, arg);
        case Tell(p, v) =>
          if !capable { return Err(EPERM), None; }
          Assign(p, v);
        case Get(p, writable) =>
          if !writable { return Err(EFAULT), None; }
          stored := Some(Value(p));
        case Query(p) =>
          r := Ok(Value(p));
        case Exchange(p, arg, writable) =>
          if !capable { return Err(EPERM), None; }
          var tmp := Value(p);
          r := GetUser(p, arg);
          if r.Ok? {
            if !writable { return Err(EFAULT), None; }
            stored := Some(tmp);
          }
        case Shift(p, v) =>
          if !capable { return Err(EPERM), None; }
          var tmp := Value(p);
          Assign(p, v);
          r := Ok(tmp);
      }
    }

    /** Reads a parameter from user memory. */
    method GetUser(p: Param, arg: UserInt) returns (r: Result<int>)
      modifies this
      ensures r == if arg.Readable? then Ok(0) else Err(EFAULT)
      ensures var v := if arg.Readable? then arg.value else arg.junk;
        quantum == (if p.Quantum? then v else old(quantum)) && qset == if p.Qset? then v else old(qset)
    {
      match arg {
        case Readable(v) =>
          Assign(p, v);
          r := Ok(0);
        case Unreadable(junk) =>
          Assign(p, junk);
          r := Err(EFAULT);
      }
    }
  }

  class Device {
    var items: seq<Item>
    var quantum: int
    var qset: int
    var size: nat

    // The bytes of the blocks, the place of each block, and what is allocated.
    ghost var image: Image
    ghost var owner: map<array<byte>, (nat, nat)>
    ghost var live: set<Use>

    ghost predicate Valid()
      reads this, owner.Keys
    {
      && Inventory(items, image, owner, live, quantum, qset)
      && InMemory()
      && (items != [] ==> 0 < quantum && 0 < qset)
      && (0 < size ==> items != [] && Locate(size - 1, quantum, qset).item < |items|)
    }

    ghost predicate InMemory()
      requires Inventory(items, image, owner, live, quantum, qset)
      reads this, owner.Keys
    {
      forall b :: b in owner ==> b[..] == image[owner[b].0][owner[b].1]
    }

    /** The flat file the device holds. */
    ghost function Contents(): File
      requires Valid()
      reads this, owner.Keys
    {
      Flat(items, image, quantum, qset, size)
    }

    /** The block that the list, the pointer array and the slot lead to, if all of them are there. */
    function Lookup(pos: nat): array?<byte>
      requires 0 < quantum && 0 < qset
      reads this
    {
      var a := Locate(pos, quantum, qset);
      BlockAt(items, a.item, a.slot)
    }

    /** How many allocations it takes before the byte at `pos` can be stored. */
    ghost function Missing(pos: nat): nat
      requires 0 < quantum && 0 < qset
      reads this
    {
      MissingAt(items, Locate(pos, quantum, qset))
    }

    constructor (params: Params)
      ensures Valid() && Contents() == Empty && live == {} && owner == map[]
      ensures quantum == params.quantum && qset == params.qset
    {
      items, size := [], 0;
      quantum, qset := params.quantum, params.qset;
      image, owner, live := [], map[], {};
    }

    /** The list is what `before` becomes when a byte at `pos` is to be stored. */
    ghost predicate GrownTo(before: seq<Item>, pos: nat, budget: nat)
      requires 0 < quantum && 0 < qset
      reads this
    {
      var a := Locate(pos, quantum, qset);
      && a.slot < qset && (forall i :: 0 <= i < |before| && before[i].data.Some? ==> |before[i].data.value| == qset)
      && items == Grown(before, a, qset, budget, BlockAt(items, a.item, a.slot))
    }

    // ----- following the list

    /** Allocates one more item at the end of the list. */
    method Extend()
      requires Valid() && 0 < quantum && 0 < qset
      modifies `items, `image, `live
      ensures Valid() && Contents() == old(Contents())
      ensures items == old(items) + [Item(None)]
      ensures live == old(live) + {ForItem(|old(items)|)} && |live| == |old(live)| + 1
    {
      hide NoLeak, Cells, Locate;
      AddItem(items, image, owner, live, quantum, qset);
      AddItemFlat(items, image, quantum, qset, size);
      live := live + {ForItem(|items|)};
      items := items + [Item(None)];
      image := image + [[]];
    }

    /**
      Walks to item `n`, allocating the items that are missing on the way.  The allocator serves `budget`
      more requests; when it refuses one, the items allocated so far are kept.
     */
    method Follow(n: nat, budget: nat) returns (ok: bool, left: nat)
      requires Valid() && 0 < quantum && 0 < qset
      modifies `items, `image, `live
      ensures Valid() && Contents() == old(Contents())
      ensures ok <==> n < |old(items)| + budget
      ensures ok ==> left == budget - (|items| - |old(items)|) && |items| == Max(|old(items)|, n + 1)
      ensures items == Extended(old(items), Min(budget, Max(0, n + 1 - |old(items)|)))
      ensures old(live) <= live && |live| == |old(live)| + (|items| - |old(items)|)
      ensures n < |old(items)| ==> unchanged(this)
    {
      hide Inventory, InMemory, Flat, Locate;
      ok, left := false, budget;
      if items == [] {
        if left == 0 {
          return;
        }
        left := left - 1;
        Extend();
      }
      var k := 0;
      while k < n
        invariant 0 <= k <= n
        invariant Valid() && Contents() == old(Contents())
        invariant |items| == Max(|old(items)|, k + 1) && left == budget - (|items| - |old(items)|)
        invariant items == Extended(old(items), |items| - |old(items)|)
        invariant old(live) <= live && |live| == |old(live)| + (|items| - |old(items)|)
        invariant |items| == |old(items)| ==> unchanged(this)
      {
        if k + 1 == |items| {
          if left == 0 {
            return;
          }
          left := left - 1;
          Extend();
        }
        k := k + 1;
      }
      ok := true;
    }

    // ----- reading

    /**
      A read never allocates: any position below the size has its item already.  It returns what the
      flat file holds up to the end of the quantum, and nothing at a hole or past the end.
     */
    method Read(pos: nat, count: nat, fault: bool, budget: nat) returns (r: Result<seq<byte>>, pos': nat)
      requires Valid()
      modifies `items, `image, `live
      ensures Valid() && unchanged(this)
      ensures size <= pos ==> r == Ok([])
      ensures pos < size ==> 0 < quantum
      ensures pos < size && r.Ok? ==> Returned(Contents(), quantum, pos, count, r.value)
      ensures pos < size ==> (r.Err? <==> fault && 0 < ReadCount(Contents(), quantum, pos, count))
      ensures r.Ok? && pos < size && pos in Contents().cells && |r.value| < count ==>
                0 < |r.value| && (pos + |r.value| == size || (pos + |r.value|) % quantum == 0)
      ensures r.Err? ==> r == Err(EFAULT)
      ensures pos' == pos + if r.Ok? then |r.value| else 0
    {
      hide Valid, Contents, Locate, Lookup;
      r, pos' := Ok([]), pos;
      if pos >= size {
        return;
      }
      ReadsToEnd(pos, count);
      var n := count;
      if pos + n > size {
        n := size - pos;
      }
      ItemExists(pos);
      var ok, _ := Follow(Locate(pos, quantum, qset).item, budget);
      CellsOfBlock(pos);
      var block := Lookup(pos);
      if !ok || block == null {
        return;
      }
      var off := pos % quantum;
      if n > quantum - off {
        n := quantum - off;
      }
      if fault && 0 < n {
        return Err(EFAULT), pos;
      }
      r := Ok(block[off..off + n]);
      pos' := pos + n;
    }

    lemma ReadsToEnd(pos: nat, count: nat)
      requires Valid() && pos < size
      ensures 0 < quantum
      ensures var n := ReadCount(Contents(), quantum, pos, count);
        pos in Contents().cells && n < count ==> 0 < n && (pos + n == size || (pos + n) % quantum == 0)
    {
      if pos in Contents().cells {
        ReadEnds(Contents(), quantum, pos, count);
      }
    }

    lemma ItemExists(pos: nat)
      requires Valid() && pos < size
      ensures 0 < quantum && 0 < qset && Locate(pos, quantum, qset).item < |items|
    {
      ItemMonotone(pos, size - 1, quantum, qset);
    }

    /** The cells of the flat file around `pos` are the bytes of the block there; no block is a hole. */
    lemma CellsOfBlock(pos: nat)
      requires Valid() && 0 < quantum && 0 < qset
      ensures var block, f := Lookup(pos), Contents();
        && f.size == size
        && (block == null <==> pos !in f.cells)
        && (block != null ==> block in owner && block.Length == quantum)
        && (block != null ==> forall p :: pos <= p < pos + (quantum - pos % quantum) ==>
              p in f.cells && f.cells[p] == block[pos % quantum + (p - pos)])
    {
      hide NoLeak, Locate;
      if Lookup(pos) != null {
        BytesOfBlock(pos);
        hide InMemory, Owned;
        ReadFlat(items, image, quantum, qset, size, pos, quantum - pos % quantum);
      }
    }

    lemma BytesOfBlock(pos: nat)
      requires Valid() && 0 < quantum && 0 < qset && Lookup(pos) != null
      ensures Lookup(pos) in owner && Lookup(pos).Length == quantum
      ensures Lookup(pos)[..] == BytesAt(items, image, quantum, qset, pos)
    {
      hide NoLeak, Locate;
    }

    // ----- writing

    /** Allocates and zeroes the pointer array of item `i`. */
    method AllocatePointers(i: nat)
      requires Valid() && i < |items| && items[i].data.None?
      modifies `items, `image, `live
      ensures Valid() && Contents() == old(Contents())
      ensures items == old(items)[i := Item(Some(seq(qset, _ => null)))]
      ensures live == old(live) + {ForPointers(i)} && |live| == |old(live)| + 1
    {
      hide NoLeak, Cells, Locate;
      AddPointers(items, image, owner, live, quantum, qset, i);
      AddPointersFlat(items, image, quantum, qset, size, i);
      live := live + {ForPointers(i)};
      items := items[i := Item(Some(seq(qset, _ => null)))];
      image := image[i := seq(qset, _ => [])];
    }

    /** Allocates the block that `pos` lies in.  Its bytes are whatever the memory held. */
    method AllocateBlock(pos: nat)
      requires Valid() && 0 < quantum && 0 < qset && Lookup(pos) == null
      requires var a := Locate(pos, quantum, qset); a.item < |items| && items[a.item].data.Some?
      modifies `items, `image, `owner, `live
      ensures Valid() && Kept(old(Contents()), Contents(), quantum, pos, 0) && Contents().size == old(Contents().size)
      ensures Lookup(pos) != null && fresh(Lookup(pos)) && owner.Keys == old(owner.Keys) + {Lookup(pos)}
      ensures var a := Locate(pos, quantum, qset);
        a.slot < |old(items)[a.item].data.value| && items == WithBlock(old(items), a.item, a.slot, Lookup(pos))
      ensures old(live) <= live && |live| == |old(live)| + 1
    {
      var a := Locate(pos, quantum, qset);
      LocateIsFlat(pos, quantum, qset);
      hide Valid, Cells, Locate, Kept;
      var block := new byte[quantum];
      Install(a.item, a.slot, block);
      AddBlockFlat(old(items), old(image), quantum, qset, size, pos, block, block[..]);
    }

    /** Hangs a block into a free slot. */
    method Install(i: nat, j: nat, block: array<byte>)
      requires Valid() && i < |items| && items[i].data.Some? && j < qset && BlockAt(items, i, j) == null
      requires block !in owner && block.Length == quantum
      modifies `items, `image, `owner, `live
      ensures Valid() && live == old(live) + {ForBlock(i, j)} && |live| == |old(live)| + 1 && owner == old(owner)[block := (i, j)]
      ensures |old(image)| == |old(items)| && |old(image)[i]| == qset == |old(items)[i].data.value|
      ensures items == WithBlock(old(items), i, j, block) && image == WithBytes(old(image), i, j, block[..])
    {
      hide NoLeak, Cells, Locate;
      ghost var bytes := block[..];
      AddBlock(items, image, owner, live, quantum, qset, i, j, block, bytes);
      live := live + {ForBlock(i, j)};
      owner := owner[block := (i, j)];
      image := WithBytes(image, i, j, bytes);
      items := WithBlock(items, i, j, block);
      forall b | b in owner
        ensures b[..] == image[owner[b].0][owner[b].1]
      {
        if b != block {
          assert BlockAt(old(items), owner[b].0, owner[b].1) == b;
        }
      }
    }

    /** Copies bytes into the block at `pos`; the size of the device is not touched. */
    method CopyIn(pos: nat, bytes: seq<byte>)
      requires Valid() && 0 < quantum && 0 < qset && Lookup(pos) != null
      requires pos % quantum + |bytes| <= quantum
      modifies `image, Lookup(pos)
      ensures Valid() && size == old(size)
      ensures Stored(old(Contents()), Contents().(size := Max(size, pos + |bytes|)), quantum, pos, bytes)
    {
      hide NoLeak, Cells, Locate, Stored;
      RewriteFlat(items, image, quantum, qset, size, pos, bytes);
      var block, off := Lookup(pos), pos % quantum;
      ghost var before := block[..];
      assert before == BytesAt(items, image, quantum, qset, pos);
      forall i | 0 <= i < |bytes| {
        block[off + i] := bytes[i];
      }
      assert block[..] == Spliced(before, off, bytes);
      image := Rewritten(items, image, quantum, qset, pos, bytes);
      forall b | b in owner
        ensures b[..] == image[owner[b].0][owner[b].1]
      {
        if b != block {
          assert b[..] == old(b[..]);
        }
      }
    }

    /** Allocates the pointer array and the block that are missing at `pos`, whose item is there. */
    method Supply(pos: nat, budget: nat) returns (ok: bool)
      requires Valid() && 0 < quantum && 0 < qset && Locate(pos, quantum, qset).item < |items|
      modifies `items, `image, `owner, `live
      ensures Valid() && old(live) <= live && ArraysFit(old(items)) && ArraysFit(items)
      ensures fresh(owner.Keys - old(owner.Keys))
      ensures ok <==> old(Missing(pos)) <= budget
      ensures |live| == |old(live)| + Min(budget, old(Missing(pos))) && |items| == |old(items)|
      ensures var a := Locate(pos, quantum, qset);
        a.slot < qset && items == Supplied(old(items), a, qset, budget, BlockAt(items, a.item, a.slot))
      ensures !ok ==> Contents() == old(Contents())
      ensures ok ==> Kept(old(Contents()), Contents(), quantum, pos, 0) && Contents().size == old(Contents().size)
      ensures ok ==> Lookup(pos) != null && (Lookup(pos) == old(Lookup(pos)) || fresh(Lookup(pos)))
    {
      hide Valid, Contents, Locate, Kept;
      var a, left := Locate(pos, quantum, qset), budget;
      LocateIsFlat(pos, quantum, qset);
      ArraysOfValid();
      KeptSelf(Contents(), quantum, pos);
      if items[a.item].data.None? {
        if left == 0 {
          return false;
        }
        left := left - 1;
        AllocatePointers(a.item);
        ArraysOfValid();
      }
      if Lookup(pos) == null {
        if left == 0 {
          return false;
        }
        AllocateBlock(pos);
      }
      ok := true;
      ArraysOfValid();
    }

    ghost predicate ArraysFit(list: seq<Item>)
      reads this
    {
      forall i :: 0 <= i < |list| && list[i].data.Some? ==> |list[i].data.value| == qset
    }

    lemma ArraysOfValid()
      requires Valid()
      ensures ArraysFit(items)
    {
    }

    /** Allocates what is missing to store a byte at `pos`, from an allocator that serves `budget` requests. */
    method Prepare(pos: nat, budget: nat) returns (ok: bool)
      requires Valid() && 0 < quantum && 0 < qset
      modifies `items, `image, `owner, `live
      ensures Valid() && old(live) <= live
      ensures fresh(owner.Keys - old(owner.Keys))
      ensures ok <==> old(Missing(pos)) <= budget
      ensures |live| == |old(live)| + Min(budget, old(Missing(pos)))
      ensures ok ==> |items| == Max(|old(items)|, Locate(pos, quantum, qset).item + 1)
      ensures GrownTo(old(items), pos, budget)
      ensures !ok ==> Contents() == old(Contents())
      ensures ok ==> Kept(old(Contents()), Contents(), quantum, pos, 0) && Contents().size == old(Contents().size)
      ensures ok ==> Lookup(pos) != null && (Lookup(pos) == old(Lookup(pos)) || fresh(Lookup(pos)))
    {
      hide Valid, Contents, Locate, Kept, Supplied, Extended, BlockAt, MissingAt, ArraysFit, Grown;
      LocateIsFlat(pos, quantum, qset);
      ArraysOfValid();
      ghost var before, a := items, Locate(pos, quantum, qset);
      var left;
      ok, left := Follow(Locate(pos, quantum, qset).item, budget);
      ExtendedAlike(before, Min(budget, Max(0, a.item + 1 - |before|)), a);
      MissingItems(before, a);
      if ok {
        ok := Supply(pos, left);
      }
      GrownCases(before, a, qset, budget, BlockAt(items, a.item, a.slot));
    }

    /**
      Stores the part of `buf` that fits in the quantum `pos` lies in, allocating what is missing.  It
      needs `Missing(pos)` allocations and fails when the allocator, which serves `budget` more
      requests, refuses one of them; then the flat file is as before.
     */
    method Write(pos: nat, buf: seq<byte>, copy: UserCopy, budget: nat) returns (r: Result<nat>, pos': nat)
      requires Valid() && 0 < quantum && 0 < qset
      modifies `items, `image, `owner, `live, `size, owner.Keys
      ensures Valid() && old(live) <= live
      ensures fresh(owner.Keys - old(owner.Keys))
      ensures r == Err(ENOMEM) <==> budget < old(Missing(pos))
      ensures |live| == |old(live)| + Min(budget, old(Missing(pos)))
      ensures r != Err(ENOMEM) ==> |items| == Max(|old(items)|, Locate(pos, quantum, qset).item + 1)
      ensures GrownTo(old(items), pos, budget)
      ensures r == Err(ENOMEM) ==> Contents() == old(Contents())
      ensures r == Err(EFAULT) <==> old(Missing(pos)) <= budget && copy.Fault? && 0 < Chunk(quantum, pos, |buf|)
      ensures r == Err(EFAULT) ==> size == old(size) && Kept(old(Contents()), Contents(), quantum, pos, Chunk(quantum, pos, |buf|))
      ensures r.Err? ==> (r == Err(ENOMEM) || r == Err(EFAULT)) && pos' == pos
      ensures r.Ok? ==> r.value == Chunk(quantum, pos, |buf|) && pos' == pos + r.value
      ensures r.Ok? ==> r.value <= |buf| && pos % quantum + r.value <= quantum
      ensures r.Ok? && r.value < |buf| ==> 0 < r.value && (pos + r.value) % quantum == 0
      ensures r.Ok? ==> Stored(old(Contents()), Contents(), quantum, pos, buf[..r.value])
    {
      hide Valid, Cells, Missing, Locate, Stored, Kept;
      CellsOfBlock(pos);
      r, pos' := Err(ENOMEM), pos;
      var ok := Prepare(pos, budget);
      if !ok {
        return;
      }
      var n := |buf|;
      if n > quantum - pos % quantum {
        n := quantum - pos % quantum;
      }
      if copy.Fault? && 0 < n {
        label Before:
        var junk := seq(n, i requires 0 <= i => copy.junk(i));
        CopyIn(pos, junk);
        KeptThenStored(old(Contents()), old@Before(Contents()), Contents().(size := Max(size, pos + n)), quantum, pos, junk);
        return Err(EFAULT), pos;
      }
      label Prepared:
      ChunkEnds(quantum, pos, |buf|);
      CopyIn(pos, buf[..n]);
      KeptThenStored(old(Contents()), old@Prepared(Contents()), Contents().(size := Max(size, pos + n)), quantum, pos, buf[..n]);
      pos' := pos + n;
      r := Ok(n);
      if size < pos' {
        Grow(pos, n);
      }
    }

    /** Moves the end of the file behind the bytes just written. */
    method Grow(pos: nat, n: nat)
      requires Valid() && 0 < quantum && 0 < qset && Lookup(pos) != null && pos % quantum + n <= quantum
      requires size < pos + n
      modifies `size
      ensures Valid() && size == pos + n && Contents() == old(Contents()).(size := pos + n)
    {
      if 0 < n {
        LocateStep(pos, n - 1, quantum, qset);
      } else {
        ItemMonotone(pos - 1, pos, quantum, qset);
      }
      size := pos + n;
    }

    // ----- emptying the device

    /** Frees one allocation, which must still be there: nothing is freed twice. */
    ghost method Kfree(u: Use)
      requires u in live
      modifies `live
      ensures live == old(live) - {u}
    {
      live := live - {u};
    }

    /** What is left to free when item `i` is being freed and its blocks before slot `j` are gone. */
    ghost predicate Remaining(i: nat, j: nat)
      reads this
    {
      forall u :: u in live <==> match u
        case ForItem(k) => i <= k < |items|
        case ForPointers(k) => i <= k < |items| && items[k].data.Some?
        case ForBlock(k, l) => (i < k || (i == k && j <= l)) && BlockAt(items, k, l) != null
    }

    /** Frees every block, array and item exactly once, and adopts the module-wide geometry. */
    method Trim(params: Params)
      requires Valid()
      modifies this
      ensures Valid() && items == [] && live == {} && owner == map[] && Contents() == Empty
      ensures quantum == params.quantum && qset == params.qset
    {
      var i := 0;
      while i < |items|
        invariant 0 <= i <= |items| && unchanged(`items, `image, `owner, `quantum, `qset)
        invariant Remaining(i, 0)
      {
        if items[i].data.Some? {
          var j := 0;
          while j < qset
            invariant 0 <= j <= qset && unchanged(`items, `image, `owner, `quantum, `qset)
            invariant Remaining(i, j)
          {
            if items[i].data.value[j] != null {
              Kfree(ForBlock(i, j));
            }
            j := j + 1;
          }
          Kfree(ForPointers(i));
        }
        Kfree(ForItem(i));
        i := i + 1;
      }
      items, size := [], 0;
      quantum, qset := params.quantum, params.qset;
      image, owner := [], map[];
    }

    /** Opening for writing only empties the device. */
    method Open(writeOnly: bool, params: Params)
      requires Valid()
      modifies this
      ensures Valid()
      ensures writeOnly ==> items == [] && live == {} && owner == map[] && Contents() == Empty && quantum == params.quantum && qset == params.qset
      ensures !writeOnly ==> unchanged(this)
    {
      if writeOnly {
        Trim(params);
      }
    }
  }
}
