/** pbzip2's queue between producer and consumers, as far as compression uses it: every element stands alone. */
module PbzipQueue {
  import opened Rings

  /** The ring `q` holds `s` as its elements number `lo`, `lo + 1`, ... */
  ghost predicate Ring<E>(c: nat, q: seq<E>, lo: nat, s: seq<E>) {
    && 0 < c == |q| && |s| <= c
    && forall n {:trigger Slot(n, c)} :: lo <= n < lo + |s| ==> q[Slot(n, c)] == s[n - lo]
  }

  lemma RingAdd<E>(c: nat, q: seq<E>, lo: nat, s: seq<E>, e: E)
    requires Ring(c, q, lo, s) && |s| < c
    ensures Ring(c, q[Slot(lo + |s|, c) := e], lo, s + [e])
  {
    var hi, t := lo + |s|, s + [e];
    SlotsApart(lo, c);
    forall n {:trigger Slot(n, c)} | lo <= n < lo + |t| ensures q[Slot(hi, c) := e][Slot(n, c)] == t[n - lo] {
      if n < hi { assert q[Slot(n, c)] == s[n - lo]; }
    }
  }

  lemma RingRemove<E>(c: nat, q: seq<E>, lo: nat, s: seq<E>)
    requires Ring(c, q, lo, s) && s != []
    ensures q[Slot(lo, c)] == s[0] && Ring(c, q, lo + 1, s[1..])
  {
  }

  /** Head and tail meet exactly when the ring is empty or full. */
  lemma Meet(c: nat, lo: nat, n: nat)
    requires 0 < c && n <= c
    ensures Slot(lo + n, c) == Slot(lo, c) <==> n == 0 || n == c
  {
    SlotRound(lo, c);
    SlotsApart(lo, c);
  }

  /** The fields of a queue of `n` elements, the first of them number `lo`. */
  predicate Shape(c: nat, lo: nat, n: nat, head: nat, tail: nat, full: bool, empty: bool, topLevelFull: bool,
        topLevelEmpty: bool)
    requires 0 < c
  {
    && head == Slot(lo, c) && tail == Slot(lo + n, c)
    && full == topLevelFull == (n == c) && empty == topLevelEmpty == (n == 0)
  }

  lemma ShapeAdd(c: nat, lo: nat, n: nat, head: nat, tail: nat, full: bool, empty: bool, topLevelFull: bool,
        topLevelEmpty: bool)
    requires 0 < c && n < c && Shape(c, lo, n, head, tail, full, empty, topLevelFull, topLevelEmpty)
    ensures var t := if tail + 1 == c then 0 else tail + 1;
      Shape(c, lo, n + 1, head, t, full || n + 1 == c, false, topLevelFull || t == head, false)
  {
    SlotNext(lo + n, c);
    Meet(c, lo, n + 1);
  }

  lemma ShapeRemove(c: nat, lo: nat, n: nat, head: nat, tail: nat, full: bool, empty: bool, topLevelFull: bool,
        topLevelEmpty: bool)
    requires 0 < c && 0 < n <= c && Shape(c, lo, n, head, tail, full, empty, topLevelFull, topLevelEmpty)
    ensures var h := if head + 1 == c then 0 else head + 1;
      Shape(c, lo + 1, n - 1, h, tail, false, n - 1 == 0, false, h == tail)
  {
    SlotNext(lo, c);
    Meet(c, lo + 1, n - 1);
  }

  class Queue<E(0)> {
    const qData: array<E>
    var head: nat
    var tail: nat
    var count: nat
    var full: bool
    var empty: bool
    var topLevelFull: bool
    var topLevelEmpty: bool
    ghost var removed: nat  // how many elements have gone
    ghost var contents: seq<E>

    ghost predicate Valid()
      reads this, qData
    {
      && Ring(qData.Length, qData[..], removed, contents) && count == |contents|
      && Shape(qData.Length, removed, count, head, tail, full, empty, topLevelFull, topLevelEmpty)
    }

    constructor (size: nat, blank: E)
      requires 0 < size
      ensures Valid() && contents == [] && qData.Length == size && fresh(qData)
    {
      qData := new E[size](i => blank);
      head, tail, count, full, empty, topLevelFull, topLevelEmpty := 0, 0, 0, false, true, false, true;
      removed, contents := 0, [];
    }

    /** `clear` */
    method Clear()
      requires Valid()
      modifies this
      ensures Valid() && contents == []
    {
      head, tail, count, full, empty, topLevelFull, topLevelEmpty := 0, 0, 0, false, true, false, true;
      removed, contents := 0, [];
    }

    /** `add`, which its caller calls only while the queue is not full. */
    method Add(e: E)
      requires Valid() && !full
      modifies this, qData
      ensures Valid() && contents == old(contents) + [e] && (full <==> |contents| == qData.Length)
    {
      ghost var was := qData[..];
      assert count <= qData.Length && tail < qData.Length;
      hide Ring, Slot;
      ShapeAdd(qData.Length, removed, count, head, tail, full, empty, topLevelFull, topLevelEmpty);
      RingAdd(qData.Length, was, removed, contents, e);
      qData[tail] := e;
      assert qData[..] == was[tail := e];
      tail := if tail + 1 == qData.Length then 0 else tail + 1;
      topLevelFull := topLevelFull || tail == head;
      topLevelEmpty := false;
      count := count + 1;
      full := full || count == qData.Length;
      empty := false;
      contents := contents + [e];
    }

    /** `remove`: the oldest element, or nothing when there is none. */
    method Remove(element: E) returns (ok: bool, e: E)
      requires Valid()
      modifies this
      ensures Valid() && ok == (old(contents) != [])
      ensures if ok then old(contents) == [e] + contents else contents == old(contents) && e == element
    {
      assert count <= qData.Length && head < qData.Length;
      hide Ring, Slot;
      if topLevelEmpty { return false, element; }
      ShapeRemove(qData.Length, removed, count, head, tail, full, empty, topLevelFull, topLevelEmpty);
      RingRemove(qData.Length, qData[..], removed, contents);
      e := qData[head];
      head := if head + 1 == qData.Length then 0 else head + 1;
      topLevelEmpty := head == tail;
      topLevelFull := false;
      count := count - 1;
      empty := count == 0;
      full := false;
      removed, contents := removed + 1, contents[1..];
      ok := true;
    }
  }
}
