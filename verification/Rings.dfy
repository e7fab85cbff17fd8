/** Positions in a ring buffer. */
module Rings {
  /** Where item number `k` goes in a ring of `c` slots. */
  function Slot(k: nat, c: nat): (s: nat)
    requires 0 < c
    ensures s < c
  {
    if k < c then k else Slot(k - c, c)
  }

  /** `++i; if (i == count) i = 0;` */
  function Advance(i: nat, c: nat): nat {
    if i + 1 == c then 0 else i + 1
  }

  lemma {:induction false} SlotNext(k: nat, c: nat)
    requires 0 < c
    ensures Slot(k + 1, c) == Advance(Slot(k, c), c)
  {
    if k + 1 < c {
    } else if k + 1 == c {
      assert Slot(c, c) == Slot(0, c) == 0;
    } else {
      SlotNext(k - c, c);
    }
  }

  /** One round later comes the same slot. */
  lemma SlotRound(k: nat, c: nat)
    requires 0 < c
    ensures Slot(k + c, c) == Slot(k, c)
  {
  }

  /** Less than a round apart, two items never share a slot. */
  lemma {:induction false} SlotsDiffer(i: nat, j: nat, c: nat)
    requires 0 < c && i < j < i + c
    ensures Slot(i, c) != Slot(j, c)
  {
    if i >= c { SlotsDiffer(i - c, j - c, c); }
    else if j >= c { assert Slot(j, c) == j - c; }
  }

  /** Within a window of one round, slots tell items apart. */
  lemma SlotsApart(lo: nat, c: nat)
    requires 0 < c
    ensures forall i, j {:trigger Slot(i, c), Slot(j, c)} :: lo <= i < lo + c && lo <= j < lo + c && i != j ==>
      Slot(i, c) != Slot(j, c)
  {
    forall i, j {:trigger Slot(i, c), Slot(j, c)} | lo <= i < lo + c && lo <= j < lo + c && i != j
      ensures Slot(i, c) != Slot(j, c) {
      if i < j { SlotsDiffer(i, j, c); } else { SlotsDiffer(j, i, c); }
    }
  }

  /** The tail of a ring that holds items `lo..hi`; -1 when it holds none. */
  function Tail(lo: nat, hi: nat, c: nat): int
    requires 0 < c
  {
    if lo == hi then -1 else Slot(lo, c)
  }
}
