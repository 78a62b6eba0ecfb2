/**
  The addressing arithmetic of the scull stores: a byte position is split by division and remainder
  into a list item, a slot of that item's pointer array, and an offset inside the slot's block.
 */
module Geometry {

  datatype Addr = Addr(item: nat, slot: nat, off: nat)

  function Locate(pos: nat, quantum: nat, qset: nat): Addr
    requires 0 < quantum && 0 < qset
  {
    Positive(quantum, qset);
    var itemsize := quantum * qset;
    var rest := pos % itemsize;
    Addr(pos / itemsize, rest / quantum, rest % quantum)
  }

  function Flatten(a: Addr, quantum: nat, qset: nat): nat {
    (a.item * qset + a.slot) * quantum + a.off
  }

  lemma Positive(quantum: nat, qset: nat)
    requires 0 < quantum && 0 < qset
    ensures 0 < quantum * qset
  {
  }

  /** Two ways of splitting one number into multiples of d and a rest below d are the same. */
  lemma NoRoomBetween(q: int, r: int, q': int, r': int, d: int)
    requires 0 <= r < d && 0 <= r' < d
    requires q * d + r == q' * d + r'
    ensures q == q' && r == r'
  {
    MulOrder(q - q' - 1, d);
    MulOrder(q' - q - 1, d);
    assert (q - q') * d == r' - r;
    assert (q - q' - 1) * d == (q - q') * d - d && (q' - q - 1) * d == -((q - q') * d) - d;
  }

  lemma MulOrder(k: int, d: int)
    requires 0 <= d
    ensures 0 <= k ==> 0 <= k * d
    ensures k <= 0 ==> k * d <= 0
  {
  }

  /** A quotient and a remainder are determined by the number they make up. */
  lemma DivModUnique(n: int, d: int, q: int, r: int)
    requires 0 < d && n == q * d + r && 0 <= r < d
    ensures n / d == q && n % d == r
  {
    assert n == (n / d) * d + n % d;
    NoRoomBetween(n / d, n % d, q, r, d);
  }

  /**
    The two-level address is the flat one: the item and the slot together are the number of the
    quantum the position lies in, and the offset is the position inside that quantum.
   */
  lemma LocateIsFlat(pos: nat, quantum: nat, qset: nat)
    requires 0 < quantum && 0 < qset
    ensures var a := Locate(pos, quantum, qset);
      && a.slot < qset && a.off < quantum
      && a.item * qset + a.slot == pos / quantum
      && a.off == pos % quantum
      && Flatten(a, quantum, qset) == pos
  {
    Positive(quantum, qset);
    var itemsize := quantum * qset;
    var item, rest := pos / itemsize, pos % itemsize;
    var slot, off := rest / quantum, rest % quantum;
    assert pos == item * itemsize + rest;
    assert rest == slot * quantum + off;
    assert slot < qset by {
      MulOrder(slot - qset, quantum);
      assert (slot - qset) * quantum == slot * quantum - itemsize < 0;
    }
    assert pos == (item * qset + slot) * quantum + off by {
      assert item * itemsize == (item * qset) * quantum;
    }
    DivModUnique(pos, quantum, item * qset + slot, off);
  }

  /** Every address inside the geometry is the address of exactly one position. */
  lemma FlattenIsLocated(a: Addr, quantum: nat, qset: nat)
    requires 0 < quantum && 0 < qset
    requires a.slot < qset && a.off < quantum
    ensures Locate(Flatten(a, quantum, qset), quantum, qset) == a
  {
    Positive(quantum, qset);
    var itemsize := quantum * qset;
    var rest := a.slot * quantum + a.off;
    RestInItem(a.slot, a.off, quantum, qset);
    var pos := Flatten(a, quantum, qset);
    Regroup(a.item, a.slot, a.off, quantum, qset);
    DivModUnique(pos, itemsize, a.item, rest);
    DivModUnique(rest, quantum, a.slot, a.off);
  }

  lemma RestInItem(slot: nat, off: nat, quantum: nat, qset: nat)
    requires slot < qset && off < quantum
    ensures slot * quantum + off < quantum * qset
  {
    MulOrder(slot - (qset - 1), quantum);
    assert (slot - (qset - 1)) * quantum == slot * quantum - quantum * qset + quantum;
  }

  lemma Regroup(item: nat, slot: nat, off: nat, quantum: nat, qset: nat)
    ensures (item * qset + slot) * quantum + off == item * (quantum * qset) + (slot * quantum + off)
  {
    assert (item * qset + slot) * quantum == (item * qset) * quantum + slot * quantum;
    assert (item * qset) * quantum == item * (quantum * qset);
  }

  /** Positions in one quantum share item and slot; positions in different quanta share no block. */
  lemma SameBlock(p: nat, r: nat, quantum: nat, qset: nat)
    requires 0 < quantum && 0 < qset
    ensures var a, b := Locate(p, quantum, qset), Locate(r, quantum, qset);
      (a.item == b.item && a.slot == b.slot) <==> p / quantum == r / quantum
  {
    var a, b := Locate(p, quantum, qset), Locate(r, quantum, qset);
    LocateIsFlat(p, quantum, qset);
    LocateIsFlat(r, quantum, qset);
    if p / quantum == r / quantum {
      DivModUnique(p / quantum, qset, a.item, a.slot);
      DivModUnique(p / quantum, qset, b.item, b.slot);
    }
  }

  /** Walking on inside one quantum only moves the offset. */
  lemma LocateStep(pos: nat, i: nat, quantum: nat, qset: nat)
    requires 0 < quantum && 0 < qset
    requires pos % quantum + i < quantum
    ensures Locate(pos + i, quantum, qset) == Locate(pos, quantum, qset).(off := pos % quantum + i)
    ensures (pos + i) / quantum == pos / quantum && (pos + i) % quantum == pos % quantum + i
  {
    LocateIsFlat(pos, quantum, qset);
    var a := Locate(pos, quantum, qset);
    FlattenIsLocated(a.(off := pos % quantum + i), quantum, qset);
    assert pos + i == (pos / quantum) * quantum + (pos % quantum + i);
    DivModUnique(pos + i, quantum, pos / quantum, pos % quantum + i);
  }

  /** Earlier positions lie in earlier or equal items. */
  lemma ItemMonotone(p: nat, r: nat, quantum: nat, qset: nat)
    requires 0 < quantum && 0 < qset && p <= r
    ensures Locate(p, quantum, qset).item <= Locate(r, quantum, qset).item
  {
    Positive(quantum, qset);
    var d := quantum * qset;
    var q, q' := p / d, r / d;
    assert p == q * d + p % d && r == q' * d + r % d;
    MulOrder(q - q' - 1, d);
    assert (q - q' - 1) * d == q * d - q' * d - d < 0;
  }

  lemma ItemSmall(pos: nat, quantum: nat, qset: nat)
    requires 0 < quantum && 0 < qset
    ensures Locate(pos, quantum, qset).item <= pos
  {
    Positive(quantum, qset);
    var d := quantum * qset;
    var q := pos / d;
    assert pos == q * d + pos % d;
    MulOrder(q, d - 1);
    assert q * d == q * (d - 1) + q;
  }
}
