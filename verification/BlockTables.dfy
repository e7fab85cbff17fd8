/** The arrays of `DState` that the head of a block fills: the byte map, the selectors and the code lengths. */
module BlockTables {
  import opened Bits
  import opened Mtf
  import opened HuffmanCodes
  import opened Decoder

  /** `inUse16`, `inUse` and the map that `makeMaps_d` makes of them. */
  class ByteMap {
    const inUse16: array<bool>
    const inUse: array<bool>
    const seqToUnseq: array<byte>
    var nInUse: nat
    var i: nat
    var j: nat

    ghost predicate Valid()
      reads this
    {
      && inUse16.Length == 16 && inUse.Length == 256 && seqToUnseq.Length == 256 && inUse16 != inUse
      && i <= 16 && j <= 16 && nInUse <= 256
    }

    /** The bits of the second level up to the one to be read next; the rest are still false. */
    ghost predicate Filled(p: seq<bool>)
      reads this, inUse
    {
      && |p| == 16 * i + j <= inUse.Length == 256 && inUse[..|p|] == p
      && forall x {:trigger inUse[x]} :: |p| <= x < 256 ==> !inUse[x]
    }

    constructor ()
      ensures Valid() && i == 0 && fresh(inUse16) && fresh(inUse) && fresh(seqToUnseq)
    {
      inUse16, inUse, seqToUnseq := new bool[16], new bool[256], new byte[256];
      nInUse, i, j := 0, 0, 0;
    }

    method TakeUsed16(v: nat)
      requires Valid() && i < 16
      modifies this`i, inUse16
      ensures Valid() && i == old(i) + 1 && inUse16[..i] == old(inUse16[..i]) + [v == 1]
    {
      inUse16[i] := v == 1;
      i := i + 1;
    }

    /** Goes on to the next group that has any byte in use. */
    method NextGroup(ghost st: Stream, ghost hd: Head, ghost p: seq<bool>) returns (ghost q: seq<bool>)
      requires Valid() && j == 0 && Filled(p)
      modifies this`i
      ensures Valid() && old(i) <= i && Filled(q) && (i < 16 ==> inUse16[i])
      ensures NextInUse(st, hd, inUse16[..], p) == NextInUse(st, hd, inUse16[..], q)
    {
      q := p;
      while i < 16 && !inUse16[i]
        invariant old(i) <= i <= 16 && Filled(q)
          && NextInUse(st, hd, inUse16[..], p) == NextInUse(st, hd, inUse16[..], q)
      {
        var none := seq(16, x => false);
        assert inUse[..|q| + 16] == q + none;
        q := q + none;
        i := i + 1;
      }
    }

    /** All of the first level is known. */
    method StartGroups(ghost st: Stream, ghost hd: Head) returns (ghost q: seq<bool>)
      requires Valid() && i == 16
      modifies this`i, this`j, inUse
      ensures Valid() && j == 0 && Filled(q) && (i < 16 ==> inUse16[i])
      ensures NextInUse(st, hd, inUse16[..], []) == NextInUse(st, hd, inUse16[..], q)
    {
      for x := 0 to 256
        invariant forall y {:trigger inUse[y]} :: 0 <= y < x ==> !inUse[y]
        invariant inUse16[..] == old(inUse16[..])
      {
        inUse[x] := false;
      }
      i, j := 0, 0;
      q := NextGroup(st, hd, []);
    }

    method TakeInUse(v: nat, ghost st: Stream, ghost hd: Head, ghost p: seq<bool>) returns (ghost q: seq<bool>)
      requires Valid() && i < 16 && j < 16 && Filled(p)
      modifies this`i, this`j, inUse
      ensures Valid() && Filled(q) && (i < 16 ==> j < 16) && (i < 16 && j == 0 ==> inUse16[i])
      ensures NextInUse(st, hd, inUse16[..], p + [v == 1]) == NextInUse(st, hd, inUse16[..], q)
    {
      if v == 1 { inUse[16 * i + j] := true; }
      j := j + 1;
      q := p + [v == 1];
      if j == 16 {
        i, j := i + 1, 0;
        q := NextGroup(st, hd, q);
      }
    }

    /** `makeMaps_d` */
    method MakeMaps()
      requires Valid()
      modifies this`nInUse, seqToUnseq
      ensures Valid() && seqToUnseq[..nInUse] == SeqToUnseq(inUse[..], 256)
    {
      nInUse := 0;
      for x := 0 to 256
        invariant nInUse <= x && seqToUnseq[..nInUse] == SeqToUnseq(inUse[..], x)
      {
        if inUse[x] {
          seqToUnseq[nInUse] := x;
          nInUse := nInUse + 1;
        }
      }
    }
  }

  /** `pos[v]` moves to the front: `while (v > 0) { pos[v] = pos[v-1]; v--; } pos[0] = tmp;` */
  method MoveFront(pos: array<nat>, v0: nat) returns (tmp: nat)
    requires v0 < pos.Length
    modifies pos
    ensures tmp == old(pos[v0]) && pos[..] == Front(old(pos[..]), v0)
  {
    ghost var was := pos[..];
    tmp := pos[v0];
    var v := v0;
    while v > 0
      invariant v <= v0
      invariant forall k {:trigger pos[k]} :: 0 <= k < pos.Length ==>
        pos[k] == if v < k <= v0 then was[k - 1] else was[k]
    {
      pos[v] := pos[v - 1];
      v := v - 1;
    }
    pos[0] := tmp;
  }

  lemma NoneToUndo(pos: seq<nat>)
    ensures UndoSelectors(pos, []) == []
  {
  }

  /** `selectorMtf` and `selector`; the number of selectors is read from the stream and may be more than they hold. */
  class Selectors {
    const selectorMtf: array<nat>
    const selector: array<nat>
    var nGroups: nat
    var nSelectors: nat
    var i: nat
    var j: nat

    /** The positions read so far name groups. */
    ghost predicate Valid()
      reads this, selectorMtf
    {
      && selectorMtf != selector && selectorMtf.Length == selector.Length == MAX_SELECTORS
      && 0 < nGroups && i < nSelectors && i <= MAX_SELECTORS && j < nGroups
      && forall x {:trigger selectorMtf[x]} :: 0 <= x < i ==> selectorMtf[x] < nGroups
    }

    constructor ()
      ensures selectorMtf != selector && selectorMtf.Length == selector.Length == MAX_SELECTORS
      ensures fresh(selectorMtf) && fresh(selector)
    {
      selectorMtf, selector := new nat[MAX_SELECTORS], new nat[MAX_SELECTORS];
      nGroups, nSelectors, i, j := 0, 0, 0, 0;
    }

    /** Both numbers are known. */
    method Begin(nGroups: nat, nSelectors: nat)
      requires selectorMtf != selector && selectorMtf.Length == selector.Length == MAX_SELECTORS
      requires 0 < nGroups && 0 < nSelectors
      modifies this
      ensures Valid() && this.nGroups == nGroups && this.nSelectors == nSelectors && i == 0 && j == 0
    {
      this.nGroups, this.nSelectors, i, j := nGroups, nSelectors, 0, 0;
    }

    /** A one: the position is at least one more. */
    method TakeOne() returns (ok: bool)
      requires Valid()
      modifies this`j
      ensures ok == (old(j) + 1 < nGroups) && (ok ==> Valid() && j == old(j) + 1)
    {
      j := j + 1;
      ok := j < nGroups;
    }

    /** The zero that ends a position; true if it was the last. */
    method TakeZero() returns (all: bool)
      requires Valid() && i < MAX_SELECTORS
      modifies this, selectorMtf
      ensures nGroups == old(nGroups) && nSelectors == old(nSelectors) && i == old(i) + 1 && j == 0
      ensures selectorMtf[..i] == old(selectorMtf[..i]) + [old(j)] && all == (i == nSelectors) && (!all ==> Valid())
      ensures forall x {:trigger selectorMtf[x]} :: 0 <= x < i ==> selectorMtf[x] < nGroups
    {
      selectorMtf[i] := j;
      i, j := i + 1, 0;
      all := i == nSelectors;
    }

    /** Undoes the MTF values. */
    method Undo()
      requires selectorMtf != selector && selectorMtf.Length == selector.Length == MAX_SELECTORS
        && nSelectors <= MAX_SELECTORS
      requires forall x {:trigger selectorMtf[x]} :: 0 <= x < nSelectors ==> selectorMtf[x] < nGroups
      modifies selector
      ensures selector[..nSelectors] == UndoSelectors(Identity(nGroups), selectorMtf[..nSelectors])
    {
      hide Front, UndoSelectors;
      var pos := new nat[nGroups](v => v);
      assert pos[..] == Identity(nGroups);
      ghost var all := UndoSelectors(pos[..], selectorMtf[..nSelectors]);
      assert selectorMtf[0..nSelectors] == selectorMtf[..nSelectors];
      for x := 0 to nSelectors
        invariant pos.Length == nGroups && selector[..x] + UndoSelectors(pos[..], selectorMtf[x..nSelectors]) == all
      {
        UndoOne(pos, x, all);
      }
      NoneToUndo(pos[..]);
      assert selectorMtf[nSelectors..nSelectors] == [];
      assert selector[..nSelectors] + [] == selector[..nSelectors];
    }

    /** One of them. */
    method UndoOne(pos: array<nat>, x: nat, ghost all: seq<nat>)
      requires selectorMtf != selector && pos != selector && pos != selectorMtf
      requires selectorMtf.Length == selector.Length && x < nSelectors <= selectorMtf.Length
        && selectorMtf[x] < pos.Length
      requires selector[..x] + UndoSelectors(pos[..], selectorMtf[x..nSelectors]) == all
      modifies selector, pos
      ensures selector[..x + 1] + UndoSelectors(pos[..], selectorMtf[x + 1..nSelectors]) == all
    {
      hide Front;
      ghost var rest := selectorMtf[x..nSelectors];
      assert rest[0] == selectorMtf[x] && rest[1..] == selectorMtf[x + 1..nSelectors];
      ghost var p, done := pos[..], selector[..x];
      var tmp := MoveFront(pos, selectorMtf[x]);
      selector[x] := tmp;
      assert selector[..x + 1] == done + [p[rest[0]]];
    }
  }

  /** How many lengths a row has room for: `BZ_MAX_ALPHA_SIZE`. */
  const ROW := 258

  /** The first `n` lengths of row `x` of all the lengths. */
  function RowOf(len: seq<nat>, x: nat, n: nat): (row: seq<nat>)
    requires |len| == 6 * ROW && x < 6 && n <= ROW
    ensures |row| == n
  {
    len[ROW * x..ROW * x + n]
  }

  /** The rows before `n`. */
  function RowsOf(len: seq<nat>, n: nat, alphaSize: nat): (rows: seq<seq<nat>>)
    requires |len| == 6 * ROW && n <= 6 && alphaSize <= ROW
    ensures |rows| == n && forall x {:trigger rows[x]} :: 0 <= x < n ==> |rows[x]| == alphaSize
  {
    if n == 0 then [] else RowsOf(len, n - 1, alphaSize) + [RowOf(len, n - 1, alphaSize)]
  }

  /** Storing into a row leaves those before it alone. */
  lemma {:induction false} RowsKept(len: seq<nat>, n: nat, alphaSize: nat, k: nat, v: nat)
    requires |len| == 6 * ROW && n <= 6 && alphaSize <= ROW && ROW * n <= k < |len|
    ensures RowsOf(len[k := v], n, alphaSize) == RowsOf(len, n, alphaSize)
  {
    if n > 0 {
      RowsKept(len, n - 1, alphaSize, k, v);
      assert RowOf(len[k := v], n - 1, alphaSize) == RowOf(len, n - 1, alphaSize);
    }
  }

  lemma RowGrew(len: seq<nat>, x: nat, n: nat, v: nat)
    requires |len| == 6 * ROW && x < 6 && n < ROW
    ensures ROW * x + n < |len| && RowOf(len[ROW * x + n := v], x, n + 1) == RowOf(len, x, n) + [v]
  {
  }

  /** `len`, row after row */
  class Lengths {
    const len: array<nat>
    var alphaSize: nat
    var nGroups: nat
    var t: nat
    var i: nat
    var curr: int

    ghost predicate Sized()
      reads this`alphaSize, this`nGroups
    {
      len.Length == 6 * ROW && nGroups <= 6 && 0 < alphaSize <= ROW
    }

    /** Rows before `t` are complete, row `t` up to `i`. */
    ghost predicate Valid()
      reads this
    {
      Sized() && t < nGroups && i < alphaSize
    }

    /** The first `n` lengths of row `x`. */
    ghost function Row(x: nat, n: nat): (row: seq<nat>)
      requires len.Length == 6 * ROW && x < 6 && n <= ROW
      reads len
      ensures |row| == n
    {
      RowOf(len[..], x, n)
    }

    /** The rows before `n`. */
    ghost function Rows(n: nat): (rows: seq<seq<nat>>)
      requires len.Length == 6 * ROW && n <= 6 && alphaSize <= ROW
      reads this`alphaSize, len
      ensures |rows| == n && forall x {:trigger rows[x]} :: 0 <= x < n ==> |rows[x]| == alphaSize
    {
      RowsOf(len[..], n, alphaSize)
    }

    constructor ()
      ensures len.Length == 6 * ROW && fresh(len)
    {
      len := new nat[6 * ROW];
      alphaSize, nGroups, t, i, curr := 0, 0, 0, 0, 0;
    }

    method Begin(alphaSize: nat, nGroups: nat)
      requires len.Length == 6 * ROW && 0 < nGroups <= 6 && 0 < alphaSize <= ROW
      modifies this
      ensures Valid() && this.alphaSize == alphaSize && this.nGroups == nGroups && t == 0 && i == 0
    {
      this.alphaSize, this.nGroups, t, i, curr := alphaSize, nGroups, 0, 0, 0;
    }

    /** `s->len[t][i] = curr;` and on to the next; true at the end of a row. */
    method Keep() returns (row: bool)
      requires Valid() && curr >= 0
      modifies this, len
      ensures Sized() && alphaSize == old(alphaSize) && nGroups == old(nGroups) && curr == old(curr)
      ensures row == (old(i) + 1 == alphaSize)
      ensures !row ==>
        && Valid() && t == old(t) && i == old(i) + 1 && Rows(t) == old(Rows(t))
        && Row(t, i) == old(Row(t, i)) + [curr]
      ensures row ==> t == old(t) + 1 && i == 0 && Rows(t) == old(Rows(t)) + [old(Row(t, i)) + [curr]]
    {
      ghost var was, k := len[..], ROW * t + i;
      ghost var v: nat := curr;
      RowsKept(was, t, alphaSize, k, curr);
      RowGrew(was, t, i, curr);
      len[ROW * t + i] := curr;
      assert len[..] == was[k := v];
      i := i + 1;
      row := i == alphaSize;
      if row {
        t, i := t + 1, 0;
      }
    }

    /** One length of a complete row. */
    method At(x: nat, k: nat) returns (n: nat)
      requires Sized() && x < nGroups && k < alphaSize
      ensures n == Row(x, alphaSize)[k] && Row(x, k + 1) == Row(x, k) + [n]
    {
      n := len[ROW * x + k];
      assert len[..][ROW * x + k] == n;
      assert Row(x, k + 1) == Row(x, k) + [n];
    }
  }
}
