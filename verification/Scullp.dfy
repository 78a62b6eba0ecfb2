/**
  The scullp device: the same store with whole pages for blocks, which can also be mapped into memory.
  The device is its own first list item, so one item is always there.
 */
module Scullp {
  import opened Kernel
  import opened Geometry
  import opened Layout

  const PAGE_SIZE: nat := 4096

  type Page = array<byte>

  /** What the fault handler answers: a page, the signal for a hole, or neither when out of range. */
  datatype PageFault = Mapped(page: Page) | Sigbus | OutOfRange

  class Params {
    var qset: int
    var order: int
  }

  class Device {
    var items: seq<Item>
    var qset: int
    var order: int
    var size: nat
    var vmas: int

    ghost var live: set<Use>

    ghost predicate Valid()
      reads this
    {
      && 0 < |items| && 0 < qset && 0 <= vmas
      && (forall i :: 0 <= i < |items| && items[i].data.Some? ==> |items[i].data.value| == qset)
      && (order == 0 && 0 < size ==> Locate(size - 1, PAGE_SIZE, qset).item < |items|)
      && (0 < vmas ==> order == 0)
      && (order == 0 ==> forall i: nat, j: nat :: BlockAt(items, i, j) != null ==> BlockAt(items, i, j).Length == PAGE_SIZE)
      && Reachable(items, live) && Unshared(items)
    }

    /** No page hangs in two places. */
    static ghost predicate Unshared(items: seq<Item>) {
      forall i: nat, j: nat, k: nat, l: nat ::
        BlockAt(items, i, j) != null && BlockAt(items, i, j) == BlockAt(items, k, l) ==> i == k && j == l
    }

    /** What is allocated is exactly what can be reached, the first item being the device itself. */
    static ghost predicate Reachable(items: seq<Item>, live: set<Use>) {
      forall u :: u in live <==> match u
        case ForItem(i) => 0 < i < |items|
        case ForPointers(i) => i < |items| && items[i].data.Some?
        case ForBlock(i, j) => BlockAt(items, i, j) != null
    }

    /** The pages the device owns. */
    ghost function Pages(): set<Page>
      reads this
    {
      set i, j | 0 <= i < |items| && 0 <= j < |items[i].Blocks()| && items[i].Blocks()[j] != null :: items[i].Blocks()[j]
    }

    /** The page that read and write find for a position, by division and remainder. */
    function PageAt(pos: nat): array?<byte>
      requires 0 < qset
      reads `items, `qset
    {
      var a := Locate(pos, PAGE_SIZE, qset);
      BlockAt(items, a.item, a.slot)
    }

    /** How many allocations it takes before the byte at `pos` can be stored. */
    ghost function Missing(pos: nat): nat
      requires 0 < qset
      reads this
    {
      MissingAt(items, Locate(pos, PAGE_SIZE, qset))
    }

    /** How many list items are missing before that of `pos`. */
    ghost function MissingItems(pos: nat): nat
      requires 0 < qset
      reads this
    {
      Max(0, Locate(pos, PAGE_SIZE, qset).item + 1 - |items|)
    }

    /** The list is what `before` becomes when a byte at `pos` is to be stored. */
    ghost predicate GrownTo(before: seq<Item>, pos: nat, budget: nat)
      requires 0 < qset
      reads `items, `qset
    {
      var a := Locate(pos, PAGE_SIZE, qset);
      && a.slot < qset && (forall i :: 0 <= i < |before| && before[i].data.Some? ==> |before[i].data.value| == qset)
      && items == Grown(before, a, qset, budget, PageAt(pos))
    }

    /** Different pages of the device are different pages of memory. */
    lemma PagesDiffer(p: nat, q: nat)
      requires Valid() && PageAt(p) != null && p / PAGE_SIZE != q / PAGE_SIZE
      ensures PageAt(p) != PageAt(q)
    {
      SameBlock(p, q, PAGE_SIZE, qset);
    }

    constructor (params: Params)
      requires 0 < params.qset
      ensures Valid() && items == [Item(None)] && size == 0 && vmas == 0
      ensures qset == params.qset && order == params.order
    {
      items, size, vmas, live := [Item(None)], 0, 0, {};
      qset, order := params.qset, params.order;
    }

    // ----- mapping

    method VmaOpen()
      requires Valid() && order == 0
      modifies `vmas
      ensures Valid() && vmas == old(vmas) + 1
    {
      vmas := vmas + 1;
    }

    method VmaClose()
      requires Valid() && 0 < vmas
      modifies `vmas
      ensures Valid() && vmas == old(vmas) - 1
    {
      vmas := vmas - 1;
    }

    /** Only single-page blocks can be mapped. */
    method Mmap() returns (r: Result<()>)
      requires Valid()
      modifies `vmas
      ensures Valid()
      ensures if order != 0 then r == Err(ENODEV) && vmas == old(vmas) else r == Ok(()) && vmas == old(vmas) + 1
    {
      if order != 0 {
        return Err(ENODEV);
      }
      VmaOpen();
      r := Ok(());
    }

    /**
      The page under an address of a mapping.  It is found by walking the list and taking `qset` pages
      off the offset for every item, and it is the page that read and write find by division.
     */
    method Nopage(address: nat, start: nat, pgoff: nat) returns (r: PageFault)
      requires Valid() && 0 < vmas && start <= address
      ensures var offset := address - start + pgoff * PAGE_SIZE;
        r == if size <= offset then OutOfRange
             else if PageAt(offset) == null then Sigbus
             else Mapped(PageAt(offset))
    {
      var offset := address - start + pgoff * PAGE_SIZE;
      if offset >= size {
        return OutOfRange;
      }
      LocateIsFlat(offset, PAGE_SIZE, qset);
      ghost var a := Locate(offset, PAGE_SIZE, qset);
      hide Locate, Reachable, Unshared;
      var page := offset / PAGE_SIZE;
      assert SamePage(0, page, a.item, a.slot, qset);
      hide SamePage;
      var ptr := 0;  // the number of the item pointed to; |items| stands for the null pointer
      while ptr < |items| && page >= qset
        invariant 0 <= ptr <= |items| && 0 <= page
        invariant SamePage(ptr, page, a.item, a.slot, qset)
        decreases |items| - ptr
      {
        WalkOn(ptr, page, a.item, a.slot, qset);
        ptr := ptr + 1;
        page := page - qset;
      }
      EndOfWalk(ptr, page, a.item, a.slot, qset);
      if ptr < |items| && items[ptr].data.Some? && items[ptr].data.value[page] != null {
        r := Mapped(items[ptr].data.value[page]);
      } else {
        r := Sigbus;
      }
    }

    /** Two ways of numbering one page of the device. */
    static ghost predicate SamePage(item: nat, page: nat, item': nat, page': nat, qset: nat) {
      item * qset + page == item' * qset + page'
    }

    static lemma WalkOn(ptr: nat, page: nat, item: nat, slot: nat, qset: nat)
      requires SamePage(ptr, page, item, slot, qset) && qset <= page
      ensures SamePage(ptr + 1, page - qset, item, slot, qset)
    {
      assert (ptr + 1) * qset == ptr * qset + qset;
    }

    /** Taking `qset` pages off per item ends at the item and slot that division gives, or past the list. */
    static lemma EndOfWalk(ptr: nat, page: nat, item: nat, slot: nat, qset: nat)
      requires slot < qset && SamePage(ptr, page, item, slot, qset)
      ensures ptr <= item
      ensures page < qset ==> ptr == item && page == slot
    {
      MulOrder(ptr - item - 1, qset);
      assert (ptr - item - 1) * qset == slot - page - qset;
      if page < qset {
        NoRoomBetween(ptr, page, item, slot, qset);
      }
    }

    // ----- growing: what write does before it copies

    /**
      Walks to item `n`, allocating the items that are missing from an allocator that serves `budget`
      requests.  Nobody looks whether it got one: a refused item is cleared all the same, through a null pointer.
     */
    method Follow(n: nat, budget: nat) returns (ok: bool, left: nat)
      requires Valid()
      modifies `items, `live
      ensures Valid()
      ensures ok <==> n < |old(items)| + budget
      ensures items == Extended(old(items), Min(budget, Max(0, n + 1 - |old(items)|)))
      ensures ok ==> left == budget - Max(0, n + 1 - |old(items)|)
    {
      ok, left := false, budget;
      var k := 0;
      while k < n
        invariant 0 <= k <= n && k < |items|
        invariant Valid() && |items| == Max(|old(items)|, k + 1) && left == budget - (|items| - |old(items)|)
        invariant items == Extended(old(items), |items| - |old(items)|)
      {
        if k + 1 == |items| {
          if left == 0 {
            return;
          }
          left := left - 1;
          AddItem();
        }
        k := k + 1;
      }
      ok := true;
    }

    method AddItem()
      requires Valid()
      modifies `items, `live
      ensures Valid() && items == old(items) + [Item(None)]
    {
      assert forall i: nat, j: nat :: BlockAt(items + [Item(None)], i, j) == BlockAt(items, i, j);
      live := live + {ForItem(|items|)};
      items := items + [Item(None)];
    }

    /** Every page that was there is still where it was, and the others are new. */
    twostate predicate Stays()
      requires 0 < old(qset) == qset
      reads this
    {
      forall pos: nat ::
        && (old(PageAt(pos)) != null ==> PageAt(pos) == old(PageAt(pos)))
        && (old(PageAt(pos)) == null && PageAt(pos) != null ==> fresh(PageAt(pos)))
    }

    method AllocatePointers(i: nat)
      requires Valid() && i < |items| && items[i].data.None?
      modifies `items, `live
      ensures Valid() && items == old(items)[i := Item(Some(seq(qset, _ => null)))] && Stays()
    {
      hide Locate;
      live := live + {ForPointers(i)};
      items := items[i := Item(Some(seq(qset, _ => null)))];
      assert items == WithPointers(old(items), i, qset);
      NoNewBlocks(old(items), i, qset);
    }

    static lemma NoNewBlocks(items: seq<Item>, i: nat, qset: nat)
      requires i < |items| && items[i].data.None?
      ensures forall k: nat, j: nat :: BlockAt(WithPointers(items, i, qset), k, j) == BlockAt(items, k, j)
    {
    }

    /** A page is cleared when it is allocated, so that bytes nobody wrote are zero. */
    method AllocatePage(pos: nat) returns (page: Page)
      requires Valid() && order == 0 && PageAt(pos) == null
      requires var a := Locate(pos, PAGE_SIZE, qset); a.item < |items| && items[a.item].data.Some?
      modifies `items, `live
      ensures Valid() && PageAt(pos) == page && Stays() && |items| == |old(items)|
      ensures var a := Locate(pos, PAGE_SIZE, qset);
        a.slot < |old(items)[a.item].data.value| && items == WithBlock(old(items), a.item, a.slot, page)
      ensures fresh(page) && page.Length == PAGE_SIZE && forall k :: 0 <= k < PAGE_SIZE ==> page[k] == 0
    {
      var a := Locate(pos, PAGE_SIZE, qset);
      LocateIsFlat(pos, PAGE_SIZE, qset);
      hide Locate;
      page := new byte[PAGE_SIZE](_ => 0);
      assert forall k: nat, j: nat ::
          BlockAt(WithBlock(items, a.item, a.slot, page), k, j) == if k == a.item && j == a.slot then page else BlockAt(items, k, j);
      live := live + {ForBlock(a.item, a.slot)};
      items := WithBlock(items, a.item, a.slot, page);
    }

    /** Allocates the pointer array and the page that are missing at `pos`, whose item is there. */
    method Supply(pos: nat, budget: nat) returns (ok: bool)
      requires Valid() && order == 0 && Locate(pos, PAGE_SIZE, qset).item < |items|
      modifies `items, `live
      ensures Valid() && Stays()
      ensures ok <==> old(Missing(pos)) <= budget
      ensures var a := Locate(pos, PAGE_SIZE, qset);
        a.slot < qset && items == Supplied(old(items), a, qset, budget, PageAt(pos))
      ensures ok ==> PageAt(pos) != null && Locate(pos, PAGE_SIZE, qset).item < |items|
      ensures ok && old(PageAt(pos)) == null ==> fresh(PageAt(pos)) && forall k :: 0 <= k < PAGE_SIZE ==> PageAt(pos)[k] == 0
    {
      hide Locate, Reachable, Unshared;
      var a, left := Locate(pos, PAGE_SIZE, qset), budget;
      LocateIsFlat(pos, PAGE_SIZE, qset);
      if items[a.item].data.None? {
        if left == 0 {
          return false;
        }
        left := left - 1;
        AllocatePointers(a.item);
      }
      if items[a.item].data.value[a.slot] == null {
        if left == 0 {
          return false;
        }
        var _ := AllocatePage(pos);
      }
      ok := true;
    }

    /** Makes sure there is a page for `pos`, if the allocator serves the requests that takes. */
    method Fill(pos: nat, budget: nat) returns (r: Result<()>)
      requires Valid() && order == 0
      modifies `items, `live
      ensures Valid() && Stays() && GrownTo(old(items), pos, budget)
      ensures r == if budget < old(MissingItems(pos)) then Err(OOPS) else if budget < old(Missing(pos)) then Err(ENOMEM) else Ok(())
      ensures r.Ok? ==> PageAt(pos) != null && Locate(pos, PAGE_SIZE, qset).item < |items|
      ensures r.Ok? && old(PageAt(pos)) == null ==> fresh(PageAt(pos)) && forall k :: 0 <= k < PAGE_SIZE ==> PageAt(pos)[k] == 0
    {
      hide Locate, Reachable, Unshared, Supplied, Extended, BlockAt, MissingAt, Grown;
      LocateIsFlat(pos, PAGE_SIZE, qset);
      ghost var before, a := items, Locate(pos, PAGE_SIZE, qset);
      var ok, left := Follow(Locate(pos, PAGE_SIZE, qset).item, budget);
      ExtendedStays(before, Min(budget, Max(0, a.item + 1 - |before|)));
      ExtendedAlike(before, Min(budget, Max(0, a.item + 1 - |before|)), a);
      Layout.MissingItems(before, a);
      if ok {
        ok := Supply(pos, left);
        r := if ok then Ok(()) else Err(ENOMEM);
      } else {
        r := Err(OOPS);
      }
      GrownCases(before, a, qset, budget, PageAt(pos));
    }

    static lemma ExtendedStays(items: seq<Item>, n: nat)
      ensures forall i: nat, j: nat :: BlockAt(Extended(items, n), i, j) == BlockAt(items, i, j)
    {
    }

    /**
      Stores the part of `buf` that fits in the page of `pos`.  What nobody wrote in a new page is zero, and
      a copy that faults can only spoil what it was to overwrite.
     */
    method Write(pos: nat, buf: seq<byte>, copy: UserCopy, budget: nat) returns (r: Result<nat>)
      requires Valid() && order == 0
      modifies `items, `live, `size, PageAt(pos)
      ensures Valid() && Stays() && GrownTo(old(items), pos, budget)
      ensures r == if budget < old(MissingItems(pos)) then Err(OOPS)
                   else if budget < old(Missing(pos)) then Err(ENOMEM)
                   else if copy.Fault? && buf != [] then Err(EFAULT)
                   else Ok(Min(|buf|, PAGE_SIZE - pos % PAGE_SIZE))
      ensures size == if r.Ok? then Max(old(size), pos + r.value) else old(size)
      ensures r.Ok? || r == Err(EFAULT) ==> PageAt(pos) != null
      ensures r.Ok? ==> forall k :: 0 <= k < r.value ==> PageAt(pos)[pos % PAGE_SIZE + k] == buf[k]
      ensures r.Ok? || r == Err(EFAULT) ==>
                forall k :: 0 <= k < PAGE_SIZE && !(pos % PAGE_SIZE <= k < pos % PAGE_SIZE + |buf|) ==>
                  PageAt(pos)[k] == old(if PageAt(pos) != null then PageAt(pos)[k] else 0)
      ensures forall p: nat :: p / PAGE_SIZE != pos / PAGE_SIZE && old(PageAt(p)) != null ==> PageAt(p)[..] == old(PageAt(p)[..])
    {
      hide Reachable, Unshared, Missing, MissingItems, GrownTo, Locate;
      var filled := Fill(pos, budget);
      if filled.Err? {
        return Err(filled.error);
      }
      forall p: nat | p / PAGE_SIZE != pos / PAGE_SIZE && PageAt(p) != null
        ensures PageAt(p) != PageAt(pos)
      {
        PagesDiffer(p, pos);
      }
      var n, off, page := Min(|buf|, PAGE_SIZE - pos % PAGE_SIZE), pos % PAGE_SIZE, PageAt(pos);
      if copy.Fault? && 0 < n {
        forall k | 0 <= k < n {
          page[off + k] := copy.junk(k);
        }
        return Err(EFAULT);
      }
      forall k | 0 <= k < n {
        page[off + k] := buf[k];
      }
      if size < pos + n {
        if 0 < n {
          LocateStep(pos, n - 1, PAGE_SIZE, qset);
        } else {
          ItemMonotone(pos - 1, pos, PAGE_SIZE, qset);
        }
        size := pos + n;
      }
      r := Ok(n);
    }

    /**
      Returns the bytes at `pos` up to the end of its page, or none at a hole or behind the end.  Unlike
      scull, a read exactly at the end may add items to the list, and only such a read does.
     */
    method Read(pos: nat, count: nat, fault: bool, budget: nat) returns (r: Result<seq<byte>>)
      requires Valid() && order == 0
      modifies `items, `live
      ensures Valid() && Stays()
      ensures items == if size < pos then old(items) else Extended(old(items), Min(budget, old(MissingItems(pos))))
      ensures 0 < old(MissingItems(pos)) ==> size <= pos
      ensures var n := if size <= pos || old(PageAt(pos)) == null then 0 else Min(Min(count, size - pos), PAGE_SIZE - pos % PAGE_SIZE);
        if pos == size && budget < old(MissingItems(pos)) then r == Err(OOPS)
        else if fault && 0 < n then r == Err(EFAULT)
        else r.Ok? && |r.value| == n
      ensures r.Ok? && r.value != [] ==> r.value == old(PageAt(pos))[pos % PAGE_SIZE..pos % PAGE_SIZE + |r.value|]
    {
      r := Ok([]);
      var a := Locate(pos, PAGE_SIZE, qset);
      if pos < size {
        ItemMonotone(pos, size - 1, PAGE_SIZE, qset);
      }
      hide Locate, Reachable, Unshared;
      if pos > size {
        return;
      }
      var n := Min(count, size - pos);
      ExtendedStays(items, Min(budget, MissingItems(pos)));
      var ok, _ := Follow(a.item, budget);
      if !ok {
        return Err(OOPS);
      }
      var page := PageAt(pos);
      if page == null {
        return;
      }
      n := Min(n, PAGE_SIZE - pos % PAGE_SIZE);
      if fault && 0 < n {
        return Err(EFAULT);
      }
      r := Ok(page[pos % PAGE_SIZE..pos % PAGE_SIZE + n]);
    }

    // ----- emptying the device

    ghost method Kfree(u: Use)
      requires u in live
      modifies `live
      ensures live == old(live) - {u}
    {
      live := live - {u};
    }

    /** What is left to free when item `i` is being freed and its pages before slot `j` are gone. */
    ghost predicate Remaining(i: nat, j: nat)
      reads this
    {
      forall u :: u in live <==> match u
        case ForItem(k) => 0 < k && i <= k < |items|
        case ForPointers(k) => i <= k < |items| && items[k].data.Some?
        case ForBlock(k, l) => (i < k || (i == k && j <= l)) && BlockAt(items, k, l) != null
    }

    /** Frees every page, array and further item exactly once, unless something is mapped. */
    method Trim(params: Params) returns (r: Result<()>)
      requires Valid() && 0 < params.qset
      modifies this
      ensures Valid()
      ensures 0 < old(vmas) <==> r == Err(EBUSY)
      ensures r.Err? ==> r == Err(EBUSY) && unchanged(this)
      ensures r.Ok? ==> items == [Item(None)] && live == {} && size == 0 && qset == params.qset && order == params.order && vmas == 0
    {
      if vmas != 0 {
        return Err(EBUSY);
      }
      var i := 0;
      while i < |items|
        invariant 0 <= i <= |items| && unchanged(`items, `qset, `vmas)
        invariant Remaining(i, 0)
      {
        if items[i].data.Some? {
          var j := 0;
          while j < qset
            invariant 0 <= j <= qset && unchanged(`items, `qset, `vmas)
            invariant Remaining(i, j)
          {
            if items[i].data.value[j] != null {
              Kfree(ForBlock(i, j));
            }
            j := j + 1;
          }
          Kfree(ForPointers(i));
        }
        if i != 0 {
          Kfree(ForItem(i));
        }
        i := i + 1;
      }
      items, size, qset, order := [Item(None)], 0, params.qset, params.order;
      r := Ok(());
    }
  }

  /** On a new device a write behind the first item, with no memory left, follows the null pointer of the item it did not get. */
  method FollowsNull(params: Params, data: seq<byte>) returns (r: Result<nat>)
    requires 0 < params.qset && params.order == 0
    ensures r == Err(OOPS)
  {
    var dev := new Device(params);
    var pos := PAGE_SIZE * dev.qset;
    FlattenIsLocated(Addr(1, 0, 0), PAGE_SIZE, dev.qset);
    assert Flatten(Addr(1, 0, 0), PAGE_SIZE, dev.qset) == pos;
    hide Locate;
    r := dev.Write(pos, data, Complete, 0);
  }

  // ----- a mapped device

  datatype Call =
    | MmapCall | OpenCall | CloseCall | TrimCall
    | WriteCall(pos: nat, buf: seq<byte>, copy: UserCopy, budget: nat)
    | ReadCall(pos: nat, count: nat, fault: bool, budget: nat)
    | TouchCall(offset: nat)

  datatype Outcome = Done | Moved(n: nat) | Failed(error: Errno) | Touched(fault: PageFault)

  /** What a mapped device is like between two calls. */
  datatype Moment = Moment(items: seq<Item>, size: nat, vmas: int)

  ghost function MomentOf(dev: Device): Moment
    reads dev
  {
    Moment(dev.items, dev.size, dev.vmas)
  }

  /** What a fault on the page of an offset has to give. */
  function FaultAt(m: Moment, qset: nat, offset: nat): PageFault
    requires 0 < qset
  {
    var a := Locate(offset, PAGE_SIZE, qset);
    if m.size <= offset then OutOfRange
    else if BlockAt(m.items, a.item, a.slot) == null then Sigbus
    else Mapped(BlockAt(m.items, a.item, a.slot))
  }

  /** What each call does, given how the device is when it is made. */
  ghost predicate Answers(qset: nat, m: Moment, c: Call, o: Outcome, m': Moment)
    requires 0 < qset
  {
    match c
    case MmapCall => o == Done && m' == m.(vmas := m.vmas + 1)
    case OpenCall => o == Done && m' == m.(vmas := m.vmas + 1)
    case CloseCall => o == Done && m' == m.(vmas := m.vmas - 1)
    case TrimCall => o == Failed(EBUSY) && m' == m
    case TouchCall(offset) => o == Touched(FaultAt(m, qset, offset)) && m' == m
    case WriteCall(pos, buf, copy, budget) =>
      var a, n := Locate(pos, PAGE_SIZE, qset), Min(|buf|, PAGE_SIZE - pos % PAGE_SIZE);
      && a.slot < qset && (forall i :: 0 <= i < |m.items| && m.items[i].data.Some? ==> |m.items[i].data.value| == qset)
      && o == (if budget < Max(0, a.item + 1 - |m.items|) then Failed(OOPS)
               else if budget < MissingAt(m.items, a) then Failed(ENOMEM)
               else if copy.Fault? && buf != [] then Failed(EFAULT)
               else Moved(n))
      && m' == m.(items := Grown(m.items, a, qset, budget, BlockAt(m'.items, a.item, a.slot)),
                 size := if o.Moved? then Max(m.size, pos + n) else m.size)
    case ReadCall(pos, count, fault, budget) =>
      var a := Locate(pos, PAGE_SIZE, qset);
      var n := if m.size <= pos || BlockAt(m.items, a.item, a.slot) == null then 0 else Min(Min(count, m.size - pos), PAGE_SIZE - pos % PAGE_SIZE);
      var missing := Max(0, a.item + 1 - |m.items|);
      && o == (if pos == m.size && budget < missing then Failed(OOPS) else if fault && 0 < n then Failed(EFAULT) else Moved(n))
      && m' == m.(items := if m.size < pos then m.items else Extended(m.items, Min(budget, missing)))
  }

  /** Where a fault gave a mapping a page, the page still is. */
  ghost predicate InPlace(dev: Device, c: Call, o: Outcome)
    requires 0 < dev.qset
    reads dev
  {
    c.TouchCall? && o.Touched? && o.fault.Mapped? ==> dev.PageAt(c.offset) == o.fault.page
  }

  /** One call on a mapped device answers as it should, and moves or frees no page. */
  method PerformMapped(dev: Device, params: Params, c: Call) returns (o: Outcome)
    requires dev.Valid() && 0 < dev.vmas && 0 < params.qset
    modifies dev, if c.WriteCall? && dev.PageAt(c.pos) != null then {dev.PageAt(c.pos)} else {}
    ensures dev.Valid() && dev.qset == old(dev.qset) && dev.order == 0 && dev.Stays()
    ensures Answers(dev.qset, old(MomentOf(dev)), c, o, MomentOf(dev)) && InPlace(dev, c, o)
  {
    hide Locate, Device.Reachable, Device.Unshared, MissingAt, Grown, Extended, BlockAt;
    o := Done;
    match c {
      case MmapCall =>
        var _ := dev.Mmap();
      case OpenCall =>
        dev.VmaOpen();
      case CloseCall =>
        dev.VmaClose();
      case TrimCall =>
        var r := dev.Trim(params);
        o := Failed(r.error);
      case WriteCall(pos, buf, copy, budget) =>
        var r := dev.Write(pos, buf, copy, budget);
        o := if r.Ok? then Moved(r.value) else Failed(r.error);
      case ReadCall(pos, count, fault, budget) =>
        var r := dev.Read(pos, count, fault, budget);
        o := if r.Ok? then Moved(|r.value|) else Failed(r.error);
      case TouchCall(offset) =>
        var fault := dev.Nopage(offset, 0, 0);
        o := Touched(fault);
    }
  }

  /** Each call answers as it should in the moment it is made. */
  ghost predicate AllAnswer(qset: nat, trace: seq<Moment>, calls: seq<Call>, log: seq<Outcome>)
    requires 0 < qset
  {
    && |trace| == |log| + 1 && |log| <= |calls|
    && forall i :: 0 <= i < |log| ==> Answers(qset, trace[i], calls[i], log[i], trace[i + 1])
  }

  /**
    As long as a mapping exists and no call follows a null pointer, each call answers as it should, and every
    page that a fault ever handed to a mapping is still at its offset.
   */
  method RunMapped(dev: Device, params: Params, calls: seq<Call>) returns (log: seq<Outcome>, ghost trace: seq<Moment>)
    requires dev.Valid() && 0 < dev.vmas && 0 < params.qset
    modifies dev, dev.Pages()
    ensures dev.Valid() && dev.qset == old(dev.qset) && dev.order == 0 && dev.Stays()
    ensures AllAnswer(dev.qset, trace, calls, log) && trace[0] == old(MomentOf(dev)) && trace[|log|] == MomentOf(dev)
    ensures |log| == |calls| || dev.vmas == 0 || (log != [] && log[|log| - 1] == Failed(OOPS))
    ensures forall i :: 0 <= i < |log| ==> InPlace(dev, calls[i], log[i])
  {
    hide Answers, Locate, Device.Reachable, Device.Unshared;
    log, trace := [], [MomentOf(dev)];
    var crashed := false;
    while |log| < |calls| && 0 < dev.vmas && !crashed
      invariant dev.Valid() && dev.qset == old(dev.qset) && dev.order == 0 && dev.Stays()
      invariant AllAnswer(dev.qset, trace, calls, log) && trace[0] == old(MomentOf(dev)) && trace[|log|] == MomentOf(dev)
      invariant crashed ==> log != [] && log[|log| - 1] == Failed(OOPS)
      invariant forall i :: 0 <= i < |log| ==> InPlace(dev, calls[i], log[i])
    {
      var o := PerformMapped(dev, params, calls[|log|]);
      log, trace := log + [o], trace + [MomentOf(dev)];
      crashed := o == Failed(OOPS);
    }
  }
}
