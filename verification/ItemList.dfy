/**
  The list of a scull device as it is in memory: nodes linked by next pointers.  Its walks do to the linked
  list what the device does to its sequence of items, and freeing it never touches a node that is gone.
 */
module ItemList {
  import opened Kernel
  import opened Layout

  class Node {
    var item: Item
    var next: Node?

    /** A new node is cleared. */
    constructor ()
      ensures item == Item(None) && next == null
    {
      item, next := Item(None), null;
    }
  }

  class List {
    var data: Node?
    ghost var spine: seq<Node>
    ghost var live: set<Node>
    ghost var trace: seq<Touch>

    /** The pointers lead from the first node through all of them, each once, to null. */
    ghost predicate Valid()
      reads this, spine
    {
      && data == (if spine == [] then null else spine[0])
      && (forall i :: 0 <= i < |spine| ==> spine[i].next == Behind(i))
      && (forall i, j :: 0 <= i < j < |spine| ==> spine[i] != spine[j])
      && live == Nodes(spine)
    }

    /** The node behind the `i`-th. */
    ghost function Behind(i: nat): Node?
      reads this
    {
      if i + 1 < |spine| then spine[i + 1] else null
    }

    ghost function Items(): seq<Item>
      reads this, spine
    {
      seq(|spine|, i requires 0 <= i < |spine| reads this, spine => spine[i].item)
    }

    constructor ()
      ensures Valid() && Items() == []
    {
      data, spine, live, trace := null, [], {}, [];
    }

    /** Links a new node behind the last one. */
    method Append(last: Node?)
      requires Valid() && last == (if spine == [] then null else spine[|spine| - 1])
      modifies `data, `spine, `live, last
      ensures Valid() && Items() == Extended(old(Items()), 1)
      ensures fresh(spine[|old(spine)|]) && spine == old(spine) + [spine[|old(spine)|]]
    {
      var node := new Node();
      if last == null {
        data := node;
      } else {
        last.next := node;
      }
      spine, live := spine + [node], live + {node};
    }

    lemma NextOf(k: nat)
      requires Valid() && k < |spine|
      ensures spine[k].next == Behind(k)
    {
    }

    method First() returns (qs: Node?)
      requires Valid()
      ensures qs == if spine == [] then null else spine[0]
    {
      qs := data;
    }

    static lemma ExtendedTwice(items: seq<Item>, m: nat, n: nat)
      ensures Extended(Extended(items, m), n) == Extended(items, m + n) && Extended(items, 0) == items
    {
    }

    /**
      Follows the pointers to node `n`, allocating the nodes that are missing.  The node reached is the
      `n`-th of the list, and the list is what the device's sequence of items becomes.
     */
    method Follow(n: nat, budget: nat) returns (qs: Node?)
      requires Valid()
      modifies this, spine
      ensures Valid() && Items() == Extended(old(Items()), Min(budget, Max(0, n + 1 - |old(spine)|)))
      ensures old(spine) <= spine && forall i :: |old(spine)| <= i < |spine| ==> fresh(spine[i])
      ensures if n < |old(spine)| + budget then n < |spine| && qs == spine[n] else qs == null
    {
      hide Valid, Items, Extended;
      var left := budget;
      qs := First();
      ExtendedTwice(Items(), 0, 0);
      if qs == null {
        if left == 0 {
          return;
        }
        left := left - 1;
        Append(null);
        qs := First();
      }
      var k := 0;
      while k < n
        invariant Valid() && 0 <= k <= n && k < |spine| && qs == spine[k]
        invariant |spine| == Max(|old(spine)|, k + 1) && left == budget - (|spine| - |old(spine)|)
        invariant old(spine) <= spine && forall i :: |old(spine)| <= i < |spine| ==> fresh(spine[i])
        invariant Items() == Extended(old(Items()), |spine| - |old(spine)|)
      {
        NextOf(k);
        if qs.next == null {
          if left == 0 {
            return null;
          }
          left := left - 1;
          assert k < |old(spine)| ==> spine[k] == old(spine)[k];
          ExtendedTwice(old(Items()), |spine| - |old(spine)|, 1);
          Append(qs);
          NextOf(k);
        }
        qs := qs.next;
        k := k + 1;
      }
    }

    /** Frees a node, which must still be there. */
    ghost method Kfree(node: Node)
      requires node in live
      modifies `live, `trace
      ensures live == old(live) - {node} && trace == old(trace) + [Freed(node)]
    {
      live, trace := live - {node}, trace + [Freed(node)];
    }

    /** Reads the next pointer of a node, which must still be there. */
    method NextPointer(node: Node) returns (next: Node?)
      requires node in live
      modifies `trace
      ensures next == node.next && trace == old(trace) + [ReadNext(node)]
    {
      next := node.next;
      trace := trace + [ReadNext(node)];
    }

    /** Takes the next pointer and then frees the node. */
    method Unlink(node: Node) returns (next: Node?)
      requires node in live
      modifies `live, `trace
      ensures next == node.next && live == old(live) - {node} && trace == old(trace) + [ReadNext(node), Freed(node)]
    {
      next := NextPointer(node);
      Kfree(node);
    }

    /** Every node is read, and then freed, once, from the first to the last; and so none is read after it is gone. */
    method Trim()
      requires Valid()
      modifies this
      ensures Valid() && Items() == [] && live == {}
      ensures trace == old(trace) + Unlinked(old(spine))
    {
      hide Unlinked;
      UnlinkedNone(trace);
      var dptr := data;
      ghost var i := 0;
      assert spine[0..] == spine && spine[..0] == [];
      while dptr != null
        invariant 0 <= i <= |spine| && dptr == (if i < |spine| then spine[i] else null) && unchanged(`spine, `data)
        invariant forall k :: 0 <= k < |spine| ==> spine[k].next == old(spine[k].next)
        invariant live == Nodes(spine[i..])
        invariant trace == old(trace) + Unlinked(spine[..i])
        decreases |spine| - i
      {
        UnlinkedMore(old(trace), spine, i);
        RestOf(spine, i);
        dptr := Unlink(dptr);
        i := i + 1;
      }
      assert spine[..|spine|] == spine;
      data, spine := null, [];
    }
  }

  ghost function Nodes(list: seq<Node>): set<Node> {
    set x | x in list
  }

  /** What freeing the list does to a node. */
  datatype Touch = ReadNext(node: Node) | Freed(node: Node)

  /** Each node of the list read and then freed, in order. */
  ghost function Unlinked(spine: seq<Node>): seq<Touch> {
    if spine == [] then [] else Unlinked(spine[..|spine| - 1]) + [ReadNext(spine[|spine| - 1]), Freed(spine[|spine| - 1])]
  }

  lemma UnlinkedNone(before: seq<Touch>)
    ensures before + Unlinked([]) == before
  {
  }

  lemma UnlinkedMore(before: seq<Touch>, spine: seq<Node>, i: nat)
    requires i < |spine|
    ensures before + Unlinked(spine[..i + 1]) == before + Unlinked(spine[..i]) + [ReadNext(spine[i]), Freed(spine[i])]
  {
    assert spine[..i + 1][..i] == spine[..i];
  }

  lemma RestOf(spine: seq<Node>, i: nat)
    requires i < |spine| && forall k, l :: 0 <= k < l < |spine| ==> spine[k] != spine[l]
    ensures Nodes(spine[i + 1..]) == Nodes(spine[i..]) - {spine[i]}
  {
    assert spine[i..] == [spine[i]] + spine[i + 1..];
  }

  /** In that order a node is read exactly once, right before it is freed, and never after. */
  lemma {:induction false} ReadBeforeFreed(spine: seq<Node>, i: nat)
    requires i < |spine|
    ensures |Unlinked(spine)| == 2 * |spine|
    ensures Unlinked(spine)[2 * i] == ReadNext(spine[i]) && Unlinked(spine)[2 * i + 1] == Freed(spine[i])
  {
    var last := |spine| - 1;
    if last == 0 {
      assert spine[..0] == [];
    } else {
      ReadBeforeFreed(spine[..last], if i < last then i else 0);
    }
  }
}
