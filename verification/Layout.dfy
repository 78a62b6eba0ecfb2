/**
  The memory of a scull store: a list of items, each with an array of pointers to blocks, all of them
  allocated when first needed.  `Flat` is the sparse file such a memory holds.
 */
module Layout {
  import opened Kernel
  import opened Geometry
  import opened SparseFile

  /** One list item: nothing yet, or an array of pointers to blocks, some of them null. */
  datatype Item = Item(data: Option<seq<array?<byte>>>)
  {
    function Blocks(): seq<array?<byte>> {
      if data.None? then [] else data.value
    }
  }

  /** What an allocation is for. */
  datatype Use = ForItem(item: nat) | ForPointers(item: nat) | ForBlock(item: nat, slot: nat)

  /** The bytes in the blocks of every item. */
  type Image = seq<seq<seq<byte>>>

  function BlockAt(items: seq<Item>, i: nat, j: nat): array?<byte> {
    if i < |items| && j < |items[i].Blocks()| then items[i].Blocks()[j] else null
  }

  /** Pointer arrays have `qset` slots and blocks `quantum` bytes. */
  ghost predicate Geometric(items: seq<Item>, image: Image, quantum: int, qset: int) {
    && |image| == |items|
    && (forall i :: 0 <= i < |items| ==> |image[i]| == |items[i].Blocks()| == if items[i].data.None? then 0 else qset)
    && (forall i: nat, j: nat :: BlockAt(items, i, j) != null ==> BlockAt(items, i, j).Length == quantum == |image[i][j]|)
  }

  /** No block hangs in two places, and `owner` lists them all. */
  ghost predicate Owned(items: seq<Item>, owner: map<array<byte>, (nat, nat)>) {
    && (forall i: nat, j: nat :: BlockAt(items, i, j) != null ==> BlockAt(items, i, j) in owner && owner[BlockAt(items, i, j)] == (i, j))
    && (forall b :: b in owner ==> BlockAt(items, owner[b].0, owner[b].1) == b)
  }

  /** What is allocated is exactly what can be reached. */
  ghost predicate NoLeak(items: seq<Item>, live: set<Use>) {
    forall u :: u in live <==> match u
      case ForItem(i) => i < |items|
      case ForPointers(i) => i < |items| && items[i].data.Some?
      case ForBlock(i, j) => BlockAt(items, i, j) != null
  }

  /** Whether the block that position `p` lies in has been allocated. */
  ghost predicate Present(items: seq<Item>, quantum: int, qset: int, p: nat) {
    && 0 < quantum && 0 < qset
    && var a := Locate(p, quantum, qset);
    BlockAt(items, a.item, a.slot) != null
  }

  /** The bytes of the block that position `p` lies in. */
  ghost function BytesAt(items: seq<Item>, image: Image, quantum: int, qset: int, p: nat): (bytes: seq<byte>)
    requires Geometric(items, image, quantum, qset) && Present(items, quantum, qset, p)
    ensures |bytes| == quantum
  {
    var a := Locate(p, quantum, qset);
    image[a.item][a.slot]
  }

  ghost function ByteAt(items: seq<Item>, image: Image, quantum: int, qset: int, p: nat): byte
    requires Geometric(items, image, quantum, qset) && Present(items, quantum, qset, p)
  {
    BytesAt(items, image, quantum, qset, p)[p % quantum]
  }

  /** The cells of the flat file that the memory holds. */
  ghost function Cells(items: seq<Item>, image: Image, quantum: int, qset: int): imap<nat, byte>
    requires Geometric(items, image, quantum, qset)
  {
    imap p: nat | Present(items, quantum, qset, p) :: ByteAt(items, image, quantum, qset, p)
  }

  ghost function Flat(items: seq<Item>, image: Image, quantum: int, qset: int, size: nat): File
    requires Geometric(items, image, quantum, qset)
  {
    File(Cells(items, image, quantum, qset), size)
  }

  /** A state of the memory with nothing shared and nothing leaked. */
  ghost predicate Inventory(items: seq<Item>, image: Image, owner: map<array<byte>, (nat, nat)>, live: set<Use>, quantum: int, qset: int) {
    Geometric(items, image, quantum, qset) && Owned(items, owner) && NoLeak(items, live)
  }

  // ----- the ways the memory changes, and what each means for the flat file

  lemma AddItem(items: seq<Item>, image: Image, owner: map<array<byte>, (nat, nat)>, live: set<Use>, quantum: int, qset: int)
    requires Inventory(items, image, owner, live, quantum, qset)
    ensures Inventory(items + [Item(None)], image + [[]], owner, live + {ForItem(|items|)}, quantum, qset)
    ensures ForItem(|items|) !in live
  {
    var items' := items + [Item(None)];
    assert forall i: nat, j: nat :: BlockAt(items', i, j) == BlockAt(items, i, j);
  }

  /** A new item at the end of the list holds nothing. */
  lemma AddItemFlat(items: seq<Item>, image: Image, quantum: int, qset: int, size: nat)
    requires Geometric(items, image, quantum, qset) && Geometric(items + [Item(None)], image + [[]], quantum, qset)
    ensures Flat(items + [Item(None)], image + [[]], quantum, qset, size) == Flat(items, image, quantum, qset, size)
  {
    hide Locate;
    assert forall i: nat, j: nat :: BlockAt(items + [Item(None)], i, j) == BlockAt(items, i, j);
  }

  function WithPointers(items: seq<Item>, i: nat, qset: nat): seq<Item>
    requires i < |items|
  {
    items[i := Item(Some(seq(qset, _ => null)))]
  }

  lemma AddPointers(items: seq<Item>, image: Image, owner: map<array<byte>, (nat, nat)>, live: set<Use>, quantum: int, qset: nat, i: nat)
    requires Inventory(items, image, owner, live, quantum, qset)
    requires i < |items| && items[i].data.None?
    ensures Inventory(WithPointers(items, i, qset), image[i := seq(qset, _ => [])], owner, live + {ForPointers(i)}, quantum, qset)
    ensures ForPointers(i) !in live
  {
    assert forall k: nat, j: nat :: BlockAt(WithPointers(items, i, qset), k, j) == BlockAt(items, k, j);
  }

  /** A zeroed pointer array holds nothing either. */
  lemma AddPointersFlat(items: seq<Item>, image: Image, quantum: int, qset: nat, size: nat, i: nat)
    requires i < |items| && items[i].data.None?
    requires Geometric(items, image, quantum, qset)
    requires Geometric(WithPointers(items, i, qset), image[i := seq(qset, _ => [])], quantum, qset)
    ensures Flat(WithPointers(items, i, qset), image[i := seq(qset, _ => [])], quantum, qset, size) == Flat(items, image, quantum, qset, size)
  {
    hide Locate;
    var items', image' := WithPointers(items, i, qset), image[i := seq(qset, _ => [])];
    assert forall k: nat, j: nat :: BlockAt(items', k, j) == BlockAt(items, k, j);
    forall p: nat
      ensures Present(items', quantum, qset, p) <==> Present(items, quantum, qset, p)
      ensures Present(items, quantum, qset, p) ==> ByteAt(items', image', quantum, qset, p) == ByteAt(items, image, quantum, qset, p)
    {
    }
  }

  function WithBlock(items: seq<Item>, i: nat, j: nat, b: array<byte>): seq<Item>
    requires i < |items| && items[i].data.Some? && j < |items[i].data.value|
  {
    items[i := Item(Some(items[i].data.value[j := b]))]
  }

  /** The list with `n` more items at its end. */
  function Extended(items: seq<Item>, n: nat): seq<Item> {
    items + seq(n, _ => Item(None))
  }

  /** More items at the end change nothing about the blocks; a place behind the end then lacks no items. */
  lemma ExtendedAlike(items: seq<Item>, n: nat, a: Addr)
    ensures BlockAt(Extended(items, n), a.item, a.slot) == BlockAt(items, a.item, a.slot)
    ensures a.item < |items| ==> MissingAt(Extended(items, n), a) == MissingAt(items, a)
    ensures |items| <= a.item < |items| + n ==> MissingAt(Extended(items, n), a) == 2
    ensures |Extended(items, n)| == |items| + n && (n == 0 ==> Extended(items, n) == items)
  {
  }

  /** An item gets its pointer array and then a block in one slot, as far as they are missing and granted. */
  function Supplied(items: seq<Item>, a: Addr, qset: nat, budget: nat, block: array?<byte>): seq<Item>
    requires a.item < |items| && a.slot < qset
    requires items[a.item].data.Some? ==> |items[a.item].data.value| == qset
  {
    if items[a.item].data.None? then
      if budget == 0 then items else Placed(WithPointers(items, a.item, qset), a, budget - 1, block)
    else Placed(items, a, budget, block)
  }

  function Placed(items: seq<Item>, a: Addr, budget: nat, block: array?<byte>): seq<Item>
    requires a.item < |items| && items[a.item].data.Some? && a.slot < |items[a.item].data.value|
  {
    if budget == 0 || block == null || items[a.item].data.value[a.slot] != null then items else WithBlock(items, a.item, a.slot, block)
  }

  /** What a store at an address makes of the list: the items, the array and the block that the budget allows, in this order. */
  function Grown(items: seq<Item>, a: Addr, qset: nat, budget: nat, block: array?<byte>): seq<Item>
    requires a.slot < qset && forall i :: 0 <= i < |items| && items[i].data.Some? ==> |items[i].data.value| == qset
  {
    var missing := Max(0, a.item + 1 - |items|);
    if budget < missing then Extended(items, budget) else Supplied(Extended(items, missing), a, qset, budget - missing, block)
  }

  lemma GrownCases(items: seq<Item>, a: Addr, qset: nat, budget: nat, block: array?<byte>)
    requires a.slot < qset && forall i :: 0 <= i < |items| && items[i].data.Some? ==> |items[i].data.value| == qset
    ensures var missing := Max(0, a.item + 1 - |items|);
      Grown(items, a, qset, budget, block) ==
        if budget < missing then Extended(items, budget) else Supplied(Extended(items, missing), a, qset, budget - missing, block)
  {
  }

  lemma MissingItems(items: seq<Item>, a: Addr)
    ensures a.item >= |items| ==> MissingAt(items, a) == a.item + 1 - |items| + 2
  {
  }

  /** How many allocations it takes before a byte at the address can be stored. */
  function MissingAt(items: seq<Item>, a: Addr): nat {
    if a.item >= |items| then a.item + 1 - |items| + 2
    else if items[a.item].data.None? then 2
    else if BlockAt(items, a.item, a.slot) == null then 1
    else 0
  }

  ghost function WithBytes(image: Image, i: nat, j: nat, bytes: seq<byte>): Image
    requires i < |image| && j < |image[i]|
  {
    image[i := image[i][j := bytes]]
  }

  lemma AddBlock(items: seq<Item>, image: Image, owner: map<array<byte>, (nat, nat)>, live: set<Use>, quantum: int, qset: int,
                 i: nat, j: nat, b: array<byte>, bytes: seq<byte>)
    requires Inventory(items, image, owner, live, quantum, qset) && b !in owner
    requires i < |items| && items[i].data.Some? && j < qset && BlockAt(items, i, j) == null
    requires b.Length == |bytes| == quantum
    ensures Inventory(WithBlock(items, i, j, b), WithBytes(image, i, j, bytes), owner[b := (i, j)], live + {ForBlock(i, j)}, quantum, qset)
    ensures ForBlock(i, j) !in live
  {
    assert forall k: nat, l: nat :: BlockAt(WithBlock(items, i, j, b), k, l) == if k == i && l == j then b else BlockAt(items, k, l);
  }

  /** A new block makes cells of one whole quantum, whatever it holds. */
  lemma AddBlockFlat(items: seq<Item>, image: Image, quantum: int, qset: int, size: nat, pos: nat, b: array<byte>, bytes: seq<byte>)
    requires 0 < quantum && 0 < qset
    requires Geometric(items, image, quantum, qset) && !Present(items, quantum, qset, pos)
    requires var a := Locate(pos, quantum, qset);
      && a.item < |items| && items[a.item].data.Some? && a.slot < qset
      && Geometric(WithBlock(items, a.item, a.slot, b), WithBytes(image, a.item, a.slot, bytes), quantum, qset)
    ensures var a := Locate(pos, quantum, qset);
      Kept(
        Flat(items, image, quantum, qset, size),
        Flat(WithBlock(items, a.item, a.slot, b), WithBytes(image, a.item, a.slot, bytes), quantum, qset, size), quantum, pos, 0)
  {
    var a := Locate(pos, quantum, qset);
    var items', image' := WithBlock(items, a.item, a.slot, b), WithBytes(image, a.item, a.slot, bytes);
    hide Locate;
    forall p: nat
      ensures Present(items, quantum, qset, p) ==>
        Present(items', quantum, qset, p) && ByteAt(items', image', quantum, qset, p) == ByteAt(items, image, quantum, qset, p)
      ensures Present(items', quantum, qset, p) && !Present(items, quantum, qset, p) ==> p / quantum == pos / quantum
    {
      SameBlock(p, pos, quantum, qset);
    }
  }

  ghost function Spliced(block: seq<byte>, off: nat, bytes: seq<byte>): (r: seq<byte>)
    requires off + |bytes| <= |block|
    ensures |r| == |block|
    ensures forall k :: 0 <= k < |block| ==> r[k] == if off <= k < off + |bytes| then bytes[k - off] else block[k]
  {
    block[..off] + bytes + block[off + |bytes|..]
  }

  ghost function Rewritten(items: seq<Item>, image: Image, quantum: int, qset: int, pos: nat, bytes: seq<byte>): Image
    requires Geometric(items, image, quantum, qset) && Present(items, quantum, qset, pos) && pos % quantum + |bytes| <= quantum
  {
    var a := Locate(pos, quantum, qset);
    WithBytes(image, a.item, a.slot, Spliced(BytesAt(items, image, quantum, qset, pos), pos % quantum, bytes))
  }

  /** Overwriting part of a block stores those bytes in the flat file, and changes nothing else. */
  lemma RewriteFlat(items: seq<Item>, image: Image, quantum: int, qset: int, size: nat, pos: nat, bytes: seq<byte>)
    requires Geometric(items, image, quantum, qset) && Present(items, quantum, qset, pos) && pos % quantum + |bytes| <= quantum
    ensures Geometric(items, Rewritten(items, image, quantum, qset, pos, bytes), quantum, qset)
    ensures Stored(
      Flat(items, image, quantum, qset, size),
      Flat(items, Rewritten(items, image, quantum, qset, pos, bytes), quantum, qset, Max(size, pos + |bytes|)),
      quantum, pos, bytes)
  {
    hide Locate;
    var image' := Rewritten(items, image, quantum, qset, pos, bytes);
    assert Geometric(items, image', quantum, qset);
    forall p: nat
      ensures Present(items, quantum, qset, p) && !(pos <= p < pos + |bytes|) ==>
        ByteAt(items, image', quantum, qset, p) == ByteAt(items, image, quantum, qset, p)
      ensures pos <= p < pos + |bytes| ==> Present(items, quantum, qset, p) && ByteAt(items, image', quantum, qset, p) == bytes[p - pos]
    {
      RewriteByte(items, image, quantum, qset, pos, bytes, p);
    }
  }

  lemma RewriteByte(items: seq<Item>, image: Image, quantum: int, qset: int, pos: nat, bytes: seq<byte>, p: nat)
    requires Geometric(items, image, quantum, qset) && Present(items, quantum, qset, pos) && pos % quantum + |bytes| <= quantum
    requires Geometric(items, Rewritten(items, image, quantum, qset, pos, bytes), quantum, qset)
    ensures var image' := Rewritten(items, image, quantum, qset, pos, bytes);
      && (Present(items, quantum, qset, p) && !(pos <= p < pos + |bytes|) ==>
            ByteAt(items, image', quantum, qset, p) == ByteAt(items, image, quantum, qset, p))
      && (pos <= p < pos + |bytes| ==> Present(items, quantum, qset, p) && ByteAt(items, image', quantum, qset, p) == bytes[p - pos])
  {
    LocateIsFlat(p, quantum, qset);
    LocateIsFlat(pos, quantum, qset);
    SameBlock(p, pos, quantum, qset);
    if pos <= p < pos + |bytes| {
      LocateStep(pos, p - pos, quantum, qset);
    }
    hide Locate;
    if p / quantum == pos / quantum {
      assert p - pos == p % quantum - pos % quantum;
    }
  }

  /** The cells behind `pos` are the bytes of its block, up to the end of the quantum. */
  lemma ReadFlat(items: seq<Item>, image: Image, quantum: int, qset: int, size: nat, pos: nat, n: nat)
    requires Geometric(items, image, quantum, qset) && Present(items, quantum, qset, pos) && pos % quantum + n <= quantum
    ensures var bytes, f := BytesAt(items, image, quantum, qset, pos), Flat(items, image, quantum, qset, size);
      forall p :: pos <= p < pos + n ==> p in f.cells && f.cells[p] == bytes[pos % quantum + (p - pos)]
  {
    forall p | pos <= p < pos + n
      ensures Present(items, quantum, qset, p)
      ensures ByteAt(items, image, quantum, qset, p) == BytesAt(items, image, quantum, qset, pos)[pos % quantum + (p - pos)]
    {
      LocateStep(pos, p - pos, quantum, qset);
      assert p == pos + (p - pos);
    }
  }
}
