/** The two inverse transforms of the decompressor: the FAST vector and the nibble-packed SMALL one. */
module UndoBwt {
  import opened Bits
  import opened Counting
  import opened InverseBwt

  ghost predicate Bytes(l: seq<int>) {
    forall i :: 0 <= i < |l| ==> 0 <= l[i] < 256
  }

  /** `cftab`: for each byte value, how many bytes of the column are smaller. */
  ghost predicate Cumulative(l: seq<int>, t: seq<nat>) {
    |t| == 257 && forall c :: 0 <= c <= 256 ==> t[c] == Below(l, c)
  }

  /** `cftab` from the byte frequencies; the bounds check that follows it never fails. */
  method MakeCftab(unzftab: array<nat>, ghost l: seq<int>) returns (cftab: array<nat>)
    requires unzftab.Length == 256 && Bytes(l) && forall c :: 0 <= c < 256 ==> unzftab[c] == Count(l, c)
    ensures fresh(cftab) && Cumulative(l, cftab[..])
    ensures forall c :: 0 <= c <= 256 ==> cftab[c] <= |l|
  {
    cftab := new nat[257](i => 0);
    for i := 1 to 257
      invariant cftab[0] == 0 && forall c {:trigger cftab[c]} :: 0 < c < i ==> cftab[c] == Count(l, c - 1)
    {
      cftab[i] := unzftab[i - 1];
    }
    BelowBounds(l, 0, 256);
    for i := 1 to 257
      invariant forall c {:trigger cftab[c]} :: 0 <= c < i ==> cftab[c] == Below(l, c)
      invariant forall c {:trigger cftab[c]} :: i <= c < 257 ==> cftab[c] == Count(l, c - 1)
    {
      BelowStep(l, i - 1);
      cftab[i] := cftab[i] + cftab[i - 1];
    }
  }

  /** `cftab` after the first `k` elements have taken their slots. */
  ghost predicate Tops(l: seq<int>, t: seq<nat>, k: nat)
    requires k <= |l|
  {
    |t| == 257 && forall c {:trigger t[c]} :: 0 <= c < 256 ==> t[c] == Below(l, c) + Count(l[..k], c)
  }

  lemma TopsStart(l: seq<int>, t: seq<nat>)
    requires Cumulative(l, t)
    ensures Tops(l, t, 0)
  {
    assert l[..0] == [];
  }

  lemma TopsNext(l: seq<int>, t: seq<nat>, k: nat)
    requires Bytes(l) && k < |l| && Tops(l, t, k)
    ensures t[l[k]] == LF(l, k) < |l|
    ensures Tops(l, t[l[k] := t[l[k]] + 1], k + 1)
  {
    LFRange(l, k);
    assert l[..k + 1][..k] == l[..k];
  }

  /** `low | (i << 8)` when `low` is a byte. */
  function OrAbove8(low: nat, i: nat): nat
    requires low < 256
  {
    low + 256 * i
  }

  lemma {:induction false} NotScattered(l: seq<int>, k: nat, i: nat)
    requires k <= i < |l|
    ensures LF(l, i) < |l| && Scatter(l, k)[LF(l, i)] == 0
  {
    LFRange(l, i);
    if k > 0 {
      LFRange(l, k - 1);
      NotScattered(l, k - 1, i);
      LFInjective(l, k - 1, i);
    }
  }

  /** Each `tt` entry: a byte of the column below, a row number above. */
  ghost predicate Packed(l: seq<int>, tt: seq<nat>, k: nat)
    requires k <= |l|
  {
    |tt| == |l| && forall y {:trigger tt[y]} :: 0 <= y < |l| ==> tt[y] == Scatter(l, k)[y] * 256 + l[y]
  }

  lemma PackedStart(l: seq<int>, tt: seq<nat>)
    requires Bytes(l) && tt == l
    ensures Packed(l, tt, 0)
  {
  }

  lemma PackedNext(l: seq<int>, tt: seq<nat>, k: nat)
    requires Bytes(l) && k < |l| && Packed(l, tt, k)
    ensures tt[k] % 256 == l[k]
    ensures LF(l, k) < |l| && tt[LF(l, k)] < 256
    ensures Packed(l, tt[LF(l, k) := OrAbove8(tt[LF(l, k)], k)], k + 1)
  {
    NotScattered(l, k, k);
  }

  /** The FAST build: the block part of `tt` becomes the inverse vector with the column still in its low bytes. */
  method BuildFast(tt: array<nat>, nblock: nat, cftab: array<nat>, ghost l: seq<int>)
    requires tt != cftab && Bytes(l) && |l| == nblock <= tt.Length && tt[..nblock] == l && Cumulative(l, cftab[..])
    modifies tt, cftab
    ensures Packed(l, tt[..nblock], nblock)
  {
    ghost var t, v := cftab[..], tt[..nblock];
    TopsStart(l, t);
    assert |t| == 257;
    hide Tops, Packed, Cumulative, LF, Scatter;
    PackedStart(l, v);
    for i := 0 to nblock
      invariant cftab[..] == t && tt[..nblock] == v && |t| == 257
      invariant Tops(l, t, i) && Packed(l, v, i)
    {
      TopsNext(l, t, i);
      PackedNext(l, v, i);
      assert tt[i] == v[i] && tt[t[l[i]]] == v[t[l[i]]];
      var uc := tt[i] % 256;
      tt[cftab[uc]] := OrAbove8(tt[cftab[uc]], i);
      v := v[t[uc] := OrAbove8(v[t[uc]], i)];
      cftab[uc] := cftab[uc] + 1;
      t := t[uc := t[uc] + 1];
    }
  }

  /** `BZ_GET_FAST`: the byte at row `tPos` and the row after it. */
  method GetFast(tt: array<nat>, tPos: nat, ghost l: seq<int>) returns (c: nat, next: nat)
    requires Bytes(l) && |l| <= tt.Length && Packed(l, tt[..|l|], |l|) && tPos < |l|
    ensures c == l[tPos] && next == TInv(l)[tPos] < |l|
  {
    ghost var v := tt[..|l|];
    TInvInverse(l, tPos);
    assert v[tPos] == Scatter(l, |l|)[tPos] * 256 + l[tPos];
    var e := tt[tPos];
    c := e % 256;
    next := e / 256;
  }

  /** `BZ2_indexIntoF`: binary search for the byte value whose rows include `indx`. */
  method IndexIntoF(indx: nat, cftab: array<nat>) returns (nb: nat)
    requires cftab.Length == 257 && cftab[0] <= indx < cftab[256]
    ensures nb < 256 && cftab[nb] <= indx < cftab[nb + 1]
  {
    nb := 0;
    var na := 256;
    var first := true;
    while first || na - nb != 1
      invariant 0 <= nb < na <= 256 && cftab[nb] <= indx < cftab[na]
      invariant first ==> na - nb > 1
      decreases na - nb
    {
      first := false;
      var mid := (nb + na) / 2;
      if indx >= cftab[mid] { nb := mid; } else { na := mid; }
    }
  }

  /** The byte whose rows include `y` is the byte at the row before it. */
  lemma RowByte(l: seq<int>, y: nat, c: nat)
    requires y < |l| && Below(l, c) <= y < Below(l, c + 1)
    ensures TInv(l)[y] < |l| && l[TInv(l)[y]] == c
  {
    TInvInverse(l, y);
    var x := TInv(l)[y];
    LFRange(l, x);
    if l[x] < c { BelowMono(l, l[x] + 1, c); }
    if c < l[x] { BelowMono(l, c + 1, l[x]); }
  }

  /** `GET_LL4`: entries share bytes two by two. */
  function Nibble(v: nat, odd: bool): nat {
    if odd then v / 16 % 16 else v % 16
  }

  /** `SET_LL4` */
  function WithNibble(v: nat, odd: bool, n: nat): nat {
    if odd then v % 16 + 16 * n else v / 16 * 16 + n
  }

  /** The 20-bit entries kept in `ll16` and `ll4`. */
  function Entries(ll16: seq<nat>, ll4: seq<nat>): (v: seq<nat>)
    requires |ll4| == (|ll16| + 1) / 2
    ensures |v| == |ll16|
    ensures forall i :: 0 <= i < |v| ==> v[i] == ll16[i] + 0x1_0000 * Nibble(ll4[i / 2], i % 2 == 1)
  {
    seq(|ll16|, i requires 0 <= i < |ll16| => ll16[i] + 0x1_0000 * Nibble(ll4[i / 2], i % 2 == 1))
  }

  /** `GET_LL` */
  method GetLL(ll16: array<nat>, ll4: array<nat>, i: nat) returns (n: nat)
    requires ll4.Length == (ll16.Length + 1) / 2 && i < ll16.Length
    ensures n == Entries(ll16[..], ll4[..])[i]
  {
    n := ll16[i] + 0x1_0000 * Nibble(ll4[i / 2], i % 2 == 1);
  }

  /** Two entries sharing a byte do not disturb each other. */
  lemma EntriesSet(a: seq<nat>, b: seq<nat>, i: nat, n: nat)
    requires |b| == (|a| + 1) / 2 && i < |a| && n < 0x10_0000
    ensures Entries(a[i := n % 0x1_0000], b[i / 2 := WithNibble(b[i / 2], i % 2 == 1, n / 0x1_0000)])
         == Entries(a, b)[i := n]
  {
    var a', b' := a[i := n % 0x1_0000], b[i / 2 := WithNibble(b[i / 2], i % 2 == 1, n / 0x1_0000)];
    forall j | 0 <= j < |a| ensures Entries(a', b')[j] == Entries(a, b)[i := n][j] {
      if j / 2 == i / 2 {
        NibbleSet(b[i / 2], i % 2 == 1, n / 0x1_0000, j % 2 == 1);
        if j != i { assert j % 2 != i % 2; }
      }
    }
  }

  lemma NibbleSet(v: nat, odd: bool, n: nat, other: bool)
    requires n < 16
    ensures Nibble(WithNibble(v, odd, n), other) == if other == odd then n else Nibble(v, other)
  {
  }

  /** `SET_LL` */
  method SetLL(ll16: array<nat>, ll4: array<nat>, i: nat, n: nat)
    requires ll16 != ll4 && ll4.Length == (ll16.Length + 1) / 2 && i < ll16.Length && n < 0x10_0000
    modifies ll16, ll4
    ensures Entries(ll16[..], ll4[..]) == old(Entries(ll16[..], ll4[..]))[i := n]
    ensures ll16[..] == old(ll16[..])[i := n % 0x1_0000]
  {
    EntriesSet(ll16[..], ll4[..], i, n);
    ll16[i] := n % 0x1_0000;
    ll4[i / 2] := WithNibble(ll4[i / 2], i % 2 == 1, n / 0x1_0000);
  }

  /** The SMALL build under way: `LF` before `k`, still the column from there on. */
  ghost predicate Mapped(l: seq<int>, a: seq<nat>, v: seq<nat>, k: nat) {
    && |a| == |v| == |l|
    && (forall j {:trigger a[j]} :: k <= j < |l| ==> a[j] == l[j])
    && (forall j {:trigger v[j]} :: 0 <= j < k && j < |l| ==> v[j] == LF(l, j))
  }

  lemma MappedNext(l: seq<int>, a: seq<nat>, v: seq<nat>, k: nat)
    requires k < |l| && Mapped(l, a, v, k)
    ensures a[k] == l[k] && Mapped(l, a[k := LF(l, k) % 0x1_0000], v[k := LF(l, k)], k + 1)
  {
  }

  /** One round of the SMALL build: `SET_LL(i, cftabCopy[uc])`. */
  method MapOne(ll16: array<nat>, ll4: array<nat>, cftabCopy: array<nat>, i: nat, ghost l: seq<int>)
    requires ll16 != ll4 && ll16 != cftabCopy && ll4 != cftabCopy && ll4.Length == (ll16.Length + 1) / 2
    requires Bytes(l) && i < |l| <= ll16.Length && |l| <= 0x10_0000 && Tops(l, cftabCopy[..], i)
    requires Mapped(l, ll16[..|l|], Entries(ll16[..], ll4[..])[..|l|], i)
    modifies ll16, ll4, cftabCopy
    ensures Tops(l, cftabCopy[..], i + 1) && Mapped(l, ll16[..|l|], Entries(ll16[..], ll4[..])[..|l|], i + 1)
  {
    ghost var t, a, v := cftabCopy[..], ll16[..|l|], Entries(ll16[..], ll4[..])[..|l|];
    TopsNext(l, t, i);
    MappedNext(l, a, v, i);
    var uc := ll16[i];
    var n := cftabCopy[uc];
    SetLL(ll16, ll4, i, n);
    assert ll16[..|l|] == a[i := n % 0x1_0000] && Entries(ll16[..], ll4[..])[..|l|] == v[i := n];
    cftabCopy[uc] := n + 1;
    assert cftabCopy[..] == t[uc := n + 1];
  }

  /** The SMALL build, first part: the vector `LF` overwrites the column. */
  method BuildSmall(ll16: array<nat>, ll4: array<nat>, nblock: nat, cftabCopy: array<nat>, ghost l: seq<int>)
    requires ll16 != ll4 && ll16 != cftabCopy && ll4 != cftabCopy && ll4.Length == (ll16.Length + 1) / 2
    requires Bytes(l) && |l| == nblock <= ll16.Length && ll16[..nblock] == l && nblock <= 0x10_0000
      && Cumulative(l, cftabCopy[..])
    modifies ll16, ll4, cftabCopy
    ensures Entries(ll16[..], ll4[..])[..nblock] == LFs(l)
  {
    TopsStart(l, cftabCopy[..]);
    for i := 0 to nblock
      invariant Tops(l, cftabCopy[..], i) && Mapped(l, ll16[..|l|], Entries(ll16[..], ll4[..])[..|l|], i)
    {
      MapOne(ll16, ll4, cftabCopy, i, l);
    }
  }

  /** Along `path`, which starts at `o` and follows `t`, `v` points back; elsewhere it is still `t`. */
  ghost predicate Reversing(t: seq<nat>, v: seq<nat>, o: nat, path: seq<nat>) {
    && |v| == |t| && IsPerm(t, |t|) && path != [] && path[0] == o
    && IsPath(t, path) && Distinct(path)
    && (forall k :: 1 <= k < |path| ==> v[path[k]] == path[k - 1])
    && (forall y {:trigger v[y]} :: 0 <= y < |t| && y !in path[1..] ==> v[y] == t[y])
  }

  ghost predicate IsPath(t: seq<nat>, path: seq<nat>) {
    && (forall k :: 0 <= k < |path| ==> path[k] < |t|)
    && (forall k :: 1 <= k < |path| ==> t[path[k - 1]] == path[k])
  }

  /** Turning one more pointer: either the path grows or the cycle closes. */
  lemma ReverseOne(t: seq<nat>, v: seq<nat>, o: nat, path: seq<nat>)
    requires Reversing(t, v, o, path)
    ensures var i := path[|path| - 1]; var j := t[i];
      && j < |t| && (j == o || j !in path) && v[j] == t[j]
      && (j != o ==> Reversing(t, v[j := i], o, path + [j]))
  {
    var m := |path| - 1;
    var i := path[m];
    var j := t[i];
    forall k | 0 <= k < |path| ensures j == o || path[k] != j {
      if k > 0 {
        assert t[path[k - 1]] == path[k];
      }
    }
    assert o !in path[1..];
    if j != o {
      assert j !in path[1..];
      var p', v' := path + [j], v[j := i];
      assert p'[1..] == path[1..] + [j];
      forall k | 1 <= k < |p'| ensures v'[p'[k]] == p'[k - 1] && t[p'[k - 1]] == p'[k] {
        if k <= m { assert p'[k] == path[k] && p'[k - 1] == path[k - 1] && path[k] in path; }
      }
    }
  }

  lemma PathShort(t: seq<nat>, path: seq<nat>)
    requires IsPath(t, path) && Distinct(path)
    ensures |path| <= |t|
  {
    DistinctCard(path);
    IotaSet(|t|);
    assert ToSet(path) <= ToSet(Iota(|t|)) by {
      forall y | y in path ensures y in ToSet(Iota(|t|)) {
        var k :| 0 <= k < |path| && path[k] == y;
      }
    }
    SubsetCard(ToSet(path), ToSet(Iota(|t|)));
  }

  /** On the rows in `c`, `v` is the inverse vector, and it stays within them. */
  ghost predicate Inverts(l: seq<int>, v: seq<nat>, c: set<nat>) {
    && |v| == |l| && (forall y :: y in c ==> y < |l|)
    && (forall y {:trigger v[y]} :: y in c ==> v[y] in c && v[y] == TInv(l)[y])
  }

  lemma CycleClosed(l: seq<int>, v: seq<nat>, o: nat, path: seq<nat>)
    requires Reversing(LFs(l), v, o, path) && LF(l, path[|path| - 1]) == o
    ensures Inverts(l, v[o := path[|path| - 1]], ToSet(path))
  {
    var v', last := v[o := path[|path| - 1]], path[|path| - 1];
    forall y | y in path ensures y < |l| && v'[y] in path && v'[y] == TInv(l)[y] {
      var k :| 0 <= k < |path| && path[k] == y;
      assert v'[y] == if k == 0 then last else path[k - 1];
      assert LF(l, v'[y]) == y;
      TInvInverse(l, y);
      if v'[y] != TInv(l)[y] { LFInjective(l, v'[y], TInv(l)[y]); }
    }
  }

  /** The SMALL build, second part: pointer reversal along the cycle of `origPtr`. */
  method ReverseCycle(ll16: array<nat>, ll4: array<nat>, origPtr: nat, ghost l: seq<int>)
    returns (ghost cycle: set<nat>)
    requires ll16 != ll4 && ll4.Length == (ll16.Length + 1) / 2 && |l| <= ll16.Length && |l| <= 0x10_0000
    requires origPtr < |l| && Entries(ll16[..], ll4[..])[..|l|] == LFs(l)
    modifies ll16, ll4
    ensures origPtr in cycle && Inverts(l, Entries(ll16[..], ll4[..])[..|l|], cycle)
  {
    ghost var t: seq<nat> := Entries(ll16[..], ll4[..])[..|l|];
    ghost var v, path := t, [origPtr];
    LFPerm(l);
    var i, first := origPtr, true;
    var j := GetLL(ll16, ll4, i);
    while first || i != origPtr
      invariant v == Entries(ll16[..], ll4[..])[..|l|] && path != [] && i < |l|
      invariant first ==> path == [origPtr]
      invariant first || i != origPtr ==> Reversing(t, v, origPtr, path) && i == path[|path| - 1] && j == t[i]
      invariant !first && i == origPtr ==> Inverts(l, v, ToSet(path))
      invariant origPtr in path
      decreases first || i != origPtr, |l| - |path|
    {
      first := false;
      ReverseOne(t, v, origPtr, path);
      PathShort(t, path);
      if j == origPtr { CycleClosed(l, v, origPtr, path); }
      else { PathShort(t, path + [j]); path := path + [j]; }
      var tmp := GetLL(ll16, ll4, j);
      SetLL(ll16, ll4, j, i);
      v := v[j := i];
      i := j;
      j := tmp;
    }
    cycle := ToSet(path);
  }

  /** The rows of a block in transmission order, read from `tt`. */
  class FastRows {
    const tt: array<nat>
    var tPos: nat
    ghost const l: seq<int>
    ghost var row: nat

    ghost predicate Valid()
      reads this, tt
    {
      Bytes(l) && row < |l| <= tt.Length && Packed(l, tt[..|l|], |l|) && tPos == TInv(l)[row]
    }

    /** The FAST setup: `tPos = tt[origPtr] >> 8`. */
    constructor (tt: array<nat>, nblock: nat, unzftab: array<nat>, origPtr: nat, ghost l: seq<int>)
      requires tt != unzftab && Bytes(l) && origPtr < |l| == nblock <= tt.Length && tt[..nblock] == l
      requires unzftab.Length == 256 && forall c :: 0 <= c < 256 ==> unzftab[c] == Count(l, c)
      modifies tt
      ensures Valid() && this.l == l && row == origPtr && this.tt == tt
    {
      this.tt, this.l, row := tt, l, origPtr;
      var cftab := MakeCftab(unzftab, l);
      BuildFast(tt, nblock, cftab, l);
      ghost var v := tt[..nblock];
      assert v[origPtr] == Scatter(l, |l|)[origPtr] * 256 + l[origPtr];
      tPos := tt[origPtr] / 256;
    }

    /** `BZ_GET_FAST` */
    method Get() returns (c: nat)
      requires Valid()
      modifies this
      ensures Valid() && row == TInv(l)[old(row)] < |l| && c == l[row]
    {
      TInvInverse(l, row);
      TInvInverse(l, TInv(l)[row]);
      c, tPos := GetFast(tt, tPos, l);
      row := TInv(l)[row];
    }

    /** Back to an earlier position. */
    method Restore(tPos: nat, ghost row: nat)
      requires Bytes(l) && row < |l| <= tt.Length && Packed(l, tt[..|l|], |l|) && tPos == TInv(l)[row]
      modifies this
      ensures Valid() && this.row == row
    {
      this.tPos, this.row := tPos, row;
    }
  }

  /** The same rows, read from the reversed pointers in `ll16` and `ll4`. */
  class SmallRows {
    const ll16: array<nat>
    const ll4: array<nat>
    const cftab: array<nat>
    var tPos: nat
    ghost const l: seq<int>
    ghost const cycle: set<nat>

    ghost predicate Valid()
      reads this, ll16, ll4, cftab
    {
      && Bytes(l) && Cumulative(l, cftab[..]) && tPos in cycle
      && ll4.Length == (ll16.Length + 1) / 2 && |l| <= ll16.Length
      && Inverts(l, Entries(ll16[..], ll4[..])[..|l|], cycle)
    }

    /** The SMALL setup. */
    constructor (ll16: array<nat>, ll4: array<nat>, nblock: nat, unzftab: array<nat>, origPtr: nat, ghost l: seq<int>)
      requires ll16 != unzftab && ll4 != unzftab && ll16 != ll4 && ll4.Length == (ll16.Length + 1) / 2
      requires Bytes(l) && origPtr < |l| == nblock <= 0x10_0000 && nblock <= ll16.Length && ll16[..nblock] == l
      requires unzftab.Length == 256 && forall c :: 0 <= c < 256 ==> unzftab[c] == Count(l, c)
      modifies ll16, ll4
      ensures Valid() && this.l == l && tPos == origPtr && this.ll16 == ll16 && this.ll4 == ll4 && fresh(cftab)
    {
      this.ll16, this.ll4, this.l, tPos := ll16, ll4, l, origPtr;
      var t := MakeCftab(unzftab, l);
      var tCopy := new nat[257](i requires 0 <= i < 257 reads t requires t.Length == 257 => t[i]);
      assert tCopy[..] == t[..];
      cftab := t;
      BuildSmall(ll16, ll4, nblock, tCopy, l);
      ghost var c := ReverseCycle(ll16, ll4, origPtr, l);
      cycle := c;
    }

    /** `BZ_GET_SMALL` */
    method Get() returns (c: nat)
      requires Valid()
      modifies this
      ensures Valid() && old(tPos) < |l| && tPos == TInv(l)[old(tPos)] < |l| && c == l[tPos]
    {
      ghost var t := cftab[..];
      BelowBounds(l, 0, 256);
      assert t[0] == 0 && t[256] == |l|;
      c := IndexIntoF(tPos, cftab);
      assert t[c] == Below(l, c) && t[c + 1] == Below(l, c + 1);
      RowByte(l, tPos, c);
      tPos := GetLL(ll16, ll4, tPos);
    }
  }
}
