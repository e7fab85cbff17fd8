/** The decompressor's move-to-front list: sixteen sliding lines of sixteen entries in one array. */
module MtfLines {
  import opened Bits
  import opened Mtf

  const MTFL_SIZE := 16
  const MTFA_SIZE := 4096

  /** The lines lie in order without overlapping. */
  ghost predicate Placed(a: seq<nat>, base: seq<nat>) {
    && |a| == MTFA_SIZE && |base| == 16 && base[15] <= MTFA_SIZE - MTFL_SIZE
    && forall i, j {:trigger base[i], base[j]} :: 0 <= i < j < 16 ==> base[i] + 16 * (j - i) <= base[j]
  }

  /** The list that the lines represent. */
  ghost function Listed(a: seq<nat>, base: seq<nat>): (s: seq<nat>)
    requires Placed(a, base)
    ensures |s| == 256 && forall k {:trigger s[k]} :: 0 <= k < 256 ==> s[k] == a[base[k / 16] + k % 16]
  {
    seq(256, k requires 0 <= k < 256 => a[base[k / 16] + k % 16])
  }

  /** The cells after `lo` up to `hi` hold what was one cell lower. */
  ghost predicate Shifted(was: seq<nat>, now: seq<nat>, lo: nat, hi: nat) {
    && |now| == |was|
    && forall q {:trigger now[q]} :: 0 <= q < |now| ==> now[q] == if lo < q <= hi then was[q - 1] else was[q]
  }

  lemma FrontInLine(a: seq<nat>, base: seq<nat>, now: seq<nat>, nn: nat)
    requires Placed(a, base) && nn < 16 && Shifted(a, now, base[0], base[0] + nn)
    ensures Placed(now[base[0] := a[base[0] + nn]], base)
    ensures Listed(now[base[0] := a[base[0] + nn]], base) == Front(Listed(a, base), nn)
  {
    var b := now[base[0] := a[base[0] + nn]];
    var s, t := Listed(b, base), Front(Listed(a, base), nn);
    forall k | 0 <= k < 256 ensures s[k] == t[k] {
      if k / 16 > 0 { assert base[k / 16] >= base[0] + 16; }
    }
  }

  function At(a: seq<nat>, base: seq<nat>, k: nat): nat
    requires Placed(a, base) && k < 256
  {
    a[base[k / 16] + k % 16]
  }

  /** Entry `k` of the list once its entry `nn` has moved to the front. */
  function Target(a: seq<nat>, base: seq<nat>, nn: nat, k: nat): nat
    requires Placed(a, base) && nn < 256 && k < 256
  {
    if k == 0 then At(a, base, nn) else if k <= nn then At(a, base, k - 1) else At(a, base, k)
  }

  /** Line `i` is as it will be. */
  ghost predicate LineDone(a0: seq<nat>, b0: seq<nat>, a: seq<nat>, start: nat, nn: nat, i: nat)
    requires Placed(a0, b0) && nn < 256 && i < 16
  {
    start + 16 <= |a| && forall q {:trigger a[q]} :: start <= q < start + 16 ==>
      a[q] == Target(a0, b0, nn, 16 * i + (q - start))
  }

  /** The general case in progress: the lines above `m` are as they will be, the cells below them untouched. */
  ghost predicate Slid(a0: seq<nat>, b0: seq<nat>, a: seq<nat>, b: seq<nat>, nn: nat, m: nat)
    requires Placed(a0, b0) && nn < 256
  {
    && m < nn / 16 && |a| == |a0| && |b| == 16
    && (forall i {:trigger b[i]} :: 0 <= i < 16 ==> b[i] + (if m < i < nn / 16 then 1 else 0) == b0[i])
    && (forall q {:trigger a[q]} :: 0 <= q < b[m + 1] && q < |a| ==> a[q] == a0[q])
    && (forall i {:trigger b[i]} :: m < i < 16 ==> LineDone(a0, b0, a, b[i], nn, i))
  }

  lemma LineKept(a0: seq<nat>, b0: seq<nat>, a: seq<nat>, start: nat, nn: nat, i: nat, q: nat, v: nat)
    requires Placed(a0, b0) && nn < 256 && i < 16 && LineDone(a0, b0, a, start, nn, i) && q < start
    ensures LineDone(a0, b0, a[q := v], start, nn, i)
  {
  }

  lemma AboveDone(a0: seq<nat>, b0: seq<nat>, a: seq<nat>, nn: nat, i: nat)
    requires Placed(a0, b0) && 16 <= nn < 256 && nn / 16 < i < 16
    requires Shifted(a0, a, b0[nn / 16], b0[nn / 16] + nn % 16)
    ensures b0[nn / 16] < b0[i] && LineDone(a0, b0, a, b0[i], nn, i)
  {
    assert b0[nn / 16] + 16 <= b0[i] <= b0[15];
    forall q | b0[i] <= q < b0[i] + 16 ensures a[q] == Target(a0, b0, nn, 16 * i + (q - b0[i])) {
      assert At(a0, b0, 16 * i + (q - b0[i])) == a0[q];
    }
  }

  lemma SlideFirst(a0: seq<nat>, b0: seq<nat>, a: seq<nat>, nn: nat)
    requires Placed(a0, b0) && 16 <= nn < 256
    requires Shifted(a0, a, b0[nn / 16], b0[nn / 16] + nn % 16)
    ensures b0[nn / 16 - 1] + 15 < b0[nn / 16]
    ensures Slid(a0, b0, a[b0[nn / 16] := a[b0[nn / 16 - 1] + 15]], b0, nn, nn / 16 - 1)
  {
    var lno := nn / 16;
    assert b0[lno - 1] + 16 <= b0[lno];
    assert b0[lno] <= b0[15];
    var v := a[b0[lno - 1] + 15];
    var a' := a[b0[lno] := v];
    forall i | lno <= i < 16 ensures LineDone(a0, b0, a', b0[i], nn, i) {
      if i > lno {
        AboveDone(a0, b0, a, nn, i);
        LineKept(a0, b0, a, b0[i], nn, i, b0[lno], v);
      } else {
        FirstLine(a0, b0, a, nn, v);
      }
    }
  }

  lemma FirstLine(a0: seq<nat>, b0: seq<nat>, a: seq<nat>, nn: nat, v: nat)
    requires Placed(a0, b0) && 16 <= nn < 256 && Shifted(a0, a, b0[nn / 16], b0[nn / 16] + nn % 16)
    requires b0[nn / 16 - 1] + 15 < |a| && v == a0[b0[nn / 16 - 1] + 15] && b0[nn / 16] + 16 <= |a|
    ensures LineDone(a0, b0, a[b0[nn / 16] := v], b0[nn / 16], nn, nn / 16)
  {
    var lno, a' := nn / 16, a[b0[nn / 16] := v];
    var s := b0[lno];
    forall q | s <= q < s + 16 ensures a'[q] == Target(a0, b0, nn, 16 * lno + (q - s)) {
      var j := q - s;
      var k := 16 * lno + j;
      if j == 0 {
        assert (k - 1) / 16 == lno - 1 && (k - 1) % 16 == 15;
      } else {
        assert (k - 1) / 16 == lno && (k - 1) % 16 == j - 1;
        assert k / 16 == lno && k % 16 == j;
      }
    }
  }

  lemma SlideNext(a0: seq<nat>, b0: seq<nat>, a: seq<nat>, b: seq<nat>, nn: nat, m: nat)
    requires Placed(a0, b0) && nn < 256 && Slid(a0, b0, a, b, nn, m) && m > 0
    ensures b[m] > 0 && b[m - 1] + 15 < b[m]
    ensures Slid(a0, b0, a[b[m] - 1 := a[b[m - 1] + 15]], b[m := b[m] - 1], nn, m - 1)
  {
    assert b0[m - 1] + 16 <= b0[m] && b0[m] + 16 <= b0[m + 1];
    assert b0[m] <= b0[15];
    var v := a[b[m - 1] + 15];
    var a', b' := a[b[m] - 1 := v], b[m := b[m] - 1];
    forall i | m <= i < 16 ensures LineDone(a0, b0, a', b'[i], nn, i) {
      if i > m {
        assert b0[m] + 16 <= b0[i];
        LineKept(a0, b0, a, b[i], nn, i, b[m] - 1, v);
      } else {
        NextLine(a0, b0, a, nn, m, v);
      }
    }
  }

  lemma NextLine(a0: seq<nat>, b0: seq<nat>, a: seq<nat>, nn: nat, m: nat, v: nat)
    requires Placed(a0, b0) && nn < 256 && 0 < m < nn / 16 && b0[m - 1] + 16 <= b0[m] && b0[m] + 16 <= |a| == |a0|
    requires v == a0[b0[m - 1] + 15] && forall q {:trigger a[q]} :: 0 <= q < b0[m] + 15 ==> a[q] == a0[q]
    ensures LineDone(a0, b0, a[b0[m] - 1 := v], b0[m] - 1, nn, m)
  {
    var a', s := a[b0[m] - 1 := v], b0[m] - 1;
    forall q | s <= q < s + 16 ensures a'[q] == Target(a0, b0, nn, 16 * m + (q - s)) {
      var j := q - s;
      var k := 16 * m + j;
      if j == 0 {
        assert (k - 1) / 16 == m - 1 && (k - 1) % 16 == 15;
      } else {
        assert (k - 1) / 16 == m && (k - 1) % 16 == j - 1;
        assert a'[s + j] == a0[s + j];
      }
    }
  }

  lemma LastLine(a0: seq<nat>, b0: seq<nat>, a: seq<nat>, nn: nat)
    requires Placed(a0, b0) && 16 <= nn < 256 && 0 < b0[0] && b0[0] + 16 <= |a| == |a0|
    requires forall q {:trigger a[q]} :: 0 <= q < b0[0] + 15 ==> a[q] == a0[q]
    ensures LineDone(a0, b0, a[b0[0] - 1 := At(a0, b0, nn)], b0[0] - 1, nn, 0)
  {
    var a', s := a[b0[0] - 1 := At(a0, b0, nn)], b0[0] - 1;
    forall q | s <= q < s + 16 ensures a'[q] == Target(a0, b0, nn, 16 * 0 + (q - s)) {
      var j := q - s;
      if j > 0 {
        assert (j - 1) / 16 == 0 && (j - 1) % 16 == j - 1;
        assert a'[s + j] == a0[s + j];
      }
    }
  }

  lemma SlideLast(a0: seq<nat>, b0: seq<nat>, a: seq<nat>, b: seq<nat>, nn: nat)
    requires Placed(a0, b0) && nn < 256 && Slid(a0, b0, a, b, nn, 0) && b0[0] > 0
    ensures b[0] > 0
    ensures var a', b' := a[b[0] - 1 := Listed(a0, b0)[nn]], b[0 := b[0] - 1];
      Placed(a', b') && Listed(a', b') == Front(Listed(a0, b0), nn)
  {
    assert b0[0] + 16 <= b0[1] <= b0[15];
    var v := Listed(a0, b0)[nn];
    var a', b' := a[b[0] - 1 := v], b[0 := b[0] - 1];
    LastLine(a0, b0, a, nn);
    forall i | 1 <= i < 16 ensures LineDone(a0, b0, a', b'[i], nn, i) {
      assert b0[0] + 16 <= b0[i];
      LineKept(a0, b0, a, b[i], nn, i, b[0] - 1, v);
    }
    AllDone(a0, b0, a', b', nn);
  }

  lemma AllDone(a0: seq<nat>, b0: seq<nat>, a: seq<nat>, b: seq<nat>, nn: nat)
    requires Placed(a0, b0) && nn < 256 && Placed(a, b)
    requires forall i {:trigger b[i]} :: 0 <= i < 16 ==> LineDone(a0, b0, a, b[i], nn, i)
    ensures Listed(a, b) == Front(Listed(a0, b0), nn)
  {
    forall k | 0 <= k < 256 ensures At(a, b, k) == Front(Listed(a0, b0), nn)[k] {
      assert LineDone(a0, b0, a, b[k / 16], nn, k / 16);
      assert 16 * (k / 16) + k % 16 == k;
      TargetIsFront(a0, b0, nn, k);
    }
  }

  lemma TargetIsFront(a: seq<nat>, base: seq<nat>, nn: nat, k: nat)
    requires Placed(a, base) && nn < 256 && k < 256
    ensures Target(a, base, nn, k) == Front(Listed(a, base), nn)[k]
  {
  }

  lemma LastFits(b: seq<nat>, i: nat)
    requires |b| == 16 && i < 16 && b[15] <= MTFA_SIZE - MTFL_SIZE
    requires forall i, j {:trigger b[i], b[j]} :: 0 <= i < j < 16 ==> b[i] + 16 * (j - i) <= b[j]
    ensures b[i] <= 3840 + 16 * i
  {
    if i < 15 { assert b[i] + 16 * (15 - i) <= b[15]; }
  }

  /** The rebuild in progress: entries from `k` on are at the top of the array, the cells below untouched. */
  ghost predicate Rebuilt(a0: seq<nat>, b0: seq<nat>, a: seq<nat>, k: nat)
    requires Placed(a0, b0)
  {
    && |a| == |a0| && k <= 256
    && forall q {:trigger a[q]} :: 0 <= q < |a| ==> a[q] == if q < 3840 + k then a0[q] else At(a0, b0, q - 3840)
  }

  lemma RebuildNext(a0: seq<nat>, b0: seq<nat>, a: seq<nat>, ii: nat, jj: nat)
    requires Placed(a0, b0) && ii < 16 && jj < 16 && Rebuilt(a0, b0, a, 16 * ii + jj + 1)
    ensures b0[ii] + jj <= 3840 + 16 * ii + jj
    ensures Rebuilt(a0, b0, a[3840 + 16 * ii + jj := a[b0[ii] + jj]], 16 * ii + jj)
  {
    var k := 16 * ii + jj;
    assert k / 16 == ii && k % 16 == jj;
    LastFits(b0, ii);
  }

  /** The bases that `MTF init` and the rebuild set. */
  function TopBases(): (b: seq<nat>)
    ensures |b| == 16 && forall i :: 0 <= i < 16 ==> b[i] == 3840 + 16 * i
  {
    seq(16, i => 3840 + 16 * i)
  }

  lemma RebuildDone(a0: seq<nat>, b0: seq<nat>, a: seq<nat>)
    requires Placed(a0, b0) && Rebuilt(a0, b0, a, 0)
    ensures Placed(a, TopBases()) && Listed(a, TopBases()) == Listed(a0, b0)
  {
    forall k | 0 <= k < 256 ensures At(a, TopBases(), k) == At(a0, b0, k) {
      assert 16 * (k / 16) + k % 16 == k;
    }
  }

  /** The list as the decompressor keeps it in `DState`. */
  class Lines {
    const mtfa: array<nat>
    const mtfbase: array<nat>

    ghost predicate Valid()
      reads mtfa, mtfbase
    {
      mtfa != mtfbase && Placed(mtfa[..], mtfbase[..]) && mtfbase[0] > 0
    }

    ghost function List(): seq<nat>
      requires Valid()
      reads mtfa, mtfbase
    {
      Listed(mtfa[..], mtfbase[..])
    }

    /** `MTF init` */
    constructor ()
      ensures Valid() && List() == Identity(256) && fresh(mtfa) && fresh(mtfbase)
    {
      mtfa := new nat[MTFA_SIZE](i => 0);
      mtfbase := new nat[16](i => 0);
      new;
      var kk := MTFA_SIZE - 1;
      for ii := 16 downto 0
        invariant kk == 3840 + 16 * ii - 1
        invariant forall q {:trigger mtfa[q]} :: kk < q < MTFA_SIZE ==> mtfa[q] == q - 3840
        invariant forall i {:trigger mtfbase[i]} :: ii <= i < 16 ==> mtfbase[i] == 3840 + 16 * i
      {
        for jj := 16 downto 0
          invariant kk == 3840 + 16 * ii + jj - 1
          invariant forall q {:trigger mtfa[q]} :: kk < q < MTFA_SIZE ==> mtfa[q] == q - 3840
          invariant forall i {:trigger mtfbase[i]} :: ii < i < 16 ==> mtfbase[i] == 3840 + 16 * i
        {
          mtfa[kk] := ii * 16 + jj;
          kk := kk - 1;
        }
        mtfbase[ii] := kk + 1;
      }
      assert List() == Identity(256) by {
        forall k | 0 <= k < 256 ensures List()[k] == k { assert 16 * (k / 16) + k % 16 == k; }
      }
    }

    /** Moves the cells `[lo, hi)` up by one: the first loop of the fast case goes four at a time. */
    method ShiftFast(pp: nat, nn0: nat)
      requires pp + nn0 < mtfa.Length
      modifies mtfa
      ensures Shifted(old(mtfa[..]), mtfa[..], pp, pp + nn0)
    {
      ghost var a := mtfa[..];
      var nn := nn0;
      while nn > 3
        invariant 0 <= nn <= nn0
        invariant forall q {:trigger mtfa[q]} :: 0 <= q < mtfa.Length ==>
          mtfa[q] == if pp + nn < q <= pp + nn0 then a[q - 1] else a[q]
      {
        var z := pp + nn;
        mtfa[z] := mtfa[z - 1];
        mtfa[z - 1] := mtfa[z - 2];
        mtfa[z - 2] := mtfa[z - 3];
        mtfa[z - 3] := mtfa[z - 4];
        nn := nn - 4;
      }
      while nn > 0
        invariant 0 <= nn <= nn0
        invariant forall q {:trigger mtfa[q]} :: 0 <= q < mtfa.Length ==>
          mtfa[q] == if pp + nn < q <= pp + nn0 then a[q - 1] else a[q]
      {
        mtfa[pp + nn] := mtfa[pp + nn - 1];
        nn := nn - 1;
      }
    }

    /** `while (pp > mtfbase[lno]) { mtfa[pp] = mtfa[pp-1]; pp--; }` */
    method ShiftLine(base: nat, pp0: nat)
      requires base <= pp0 < mtfa.Length
      modifies mtfa
      ensures Shifted(old(mtfa[..]), mtfa[..], base, pp0)
    {
      ghost var a := mtfa[..];
      var pp := pp0;
      while pp > base
        invariant base <= pp <= pp0
        invariant forall q {:trigger mtfa[q]} :: 0 <= q < mtfa.Length ==>
          mtfa[q] == if pp < q <= pp0 then a[q - 1] else a[q]
      {
        mtfa[pp] := mtfa[pp - 1];
        pp := pp - 1;
      }
    }

    /** `MTF(nn)`, fast case. */
    method AccessFirst(nn: nat) returns (uc: nat)
      requires Valid() && nn < MTFL_SIZE
      modifies mtfa
      ensures Valid() && uc == old(List())[nn] && List() == Front(old(List()), nn)
    {
      ghost var a, b := mtfa[..], mtfbase[..];
      assert b[0] + 16 * 15 <= b[15];
      var pp := mtfbase[0];
      uc := mtfa[pp + nn];
      ShiftFast(pp, nn);
      FrontInLine(a, b, mtfa[..], nn);
      mtfa[pp] := uc;
    }

    /** One round of that loop. */
    method Carry(lno: nat)
      requires mtfa != mtfbase && mtfbase.Length == 16 && 0 < lno < 16
      requires 0 < mtfbase[lno] <= mtfa.Length && mtfbase[lno - 1] + 15 < mtfa.Length
      modifies mtfa, mtfbase
      ensures mtfbase[..] == old(mtfbase[..])[lno := old(mtfbase[lno]) - 1]
      ensures mtfa[..] == old(mtfa[..])[old(mtfbase[lno]) - 1 := old(mtfa[mtfbase[lno - 1] + 15])]
    {
      mtfbase[lno] := mtfbase[lno] - 1;
      mtfa[mtfbase[lno]] := mtfa[mtfbase[lno - 1] + MTFL_SIZE - 1];
    }

    method SlideTop(lno: nat, ghost a0: seq<nat>, ghost b0: seq<nat>, ghost nn: nat)
      requires Placed(a0, b0) && 16 <= nn < 256 && lno == nn / 16 && mtfa != mtfbase
      requires Shifted(a0, mtfa[..], b0[lno], b0[lno] + nn % 16) && mtfbase[..] == b0[lno := b0[lno] + 1]
      modifies mtfa, mtfbase
      ensures Slid(a0, b0, mtfa[..], mtfbase[..], nn, lno - 1)
    {
      ghost var a, b := mtfa[..], mtfbase[..];
      SlideFirst(a0, b0, a, nn);
      assert b[lno] == b0[lno] + 1 && b[lno - 1] == b0[lno - 1];
      assert b[lno := b0[lno]] == b0;
      LastFits(b0, lno);
      Carry(lno);
    }

    method SlideRound(lno: nat, ghost a0: seq<nat>, ghost b0: seq<nat>, ghost nn: nat)
      requires Placed(a0, b0) && 16 <= nn < 256 && mtfa != mtfbase && lno > 0
      requires Slid(a0, b0, mtfa[..], mtfbase[..], nn, lno)
      modifies mtfa, mtfbase
      ensures Slid(a0, b0, mtfa[..], mtfbase[..], nn, lno - 1)
    {
      ghost var a, b := mtfa[..], mtfbase[..];
      SlideNext(a0, b0, a, b, nn, lno);
      LastFits(b0, lno);
      assert b[lno] == b0[lno] && b[lno - 1] == b0[lno - 1];
      Carry(lno);
    }

    /** The loop that moves the last entry of each line to the front of the next. */
    method Slide(lno0: nat, ghost a0: seq<nat>, ghost b0: seq<nat>, ghost nn: nat)
      requires Placed(a0, b0) && 16 <= nn < 256 && lno0 == nn / 16 && mtfa != mtfbase
      requires Shifted(a0, mtfa[..], b0[lno0], b0[lno0] + nn % 16) && mtfbase[..] == b0[lno0 := b0[lno0] + 1]
      modifies mtfa, mtfbase
      ensures Slid(a0, b0, mtfa[..], mtfbase[..], nn, 0)
    {
      SlideTop(lno0, a0, b0, nn);
      var lno := lno0 - 1;
      while lno > 0
        invariant 0 <= lno < lno0 && Slid(a0, b0, mtfa[..], mtfbase[..], nn, lno)
      {
        SlideRound(lno, a0, b0, nn);
        lno := lno - 1;
      }
    }

    /** `mtfbase[0]--; mtfa[mtfbase[0]] = uc;` */
    method PutFirst(uc: nat, ghost a0: seq<nat>, ghost b0: seq<nat>, ghost nn: nat)
      requires Placed(a0, b0) && 16 <= nn < 256 && b0[0] > 0 && mtfa != mtfbase
      requires Slid(a0, b0, mtfa[..], mtfbase[..], nn, 0) && uc == Listed(a0, b0)[nn]
      modifies mtfa, mtfbase
      ensures Placed(mtfa[..], mtfbase[..]) && Listed(mtfa[..], mtfbase[..]) == Front(Listed(a0, b0), nn)
    {
      ghost var a, b := mtfa[..], mtfbase[..];
      SlideLast(a0, b0, a, b, nn);
      LastFits(b0, 0);
      assert b[0] == b0[0];
      mtfbase[0] := mtfbase[0] - 1;
      mtfa[mtfbase[0]] := uc;
      assert mtfbase[..] == b[0 := b[0] - 1] && mtfa[..] == a[b[0] - 1 := uc];
    }

    /** The rebuild when the first line has reached the bottom of the array. */
    method Rebuild()
      requires mtfa != mtfbase && Placed(mtfa[..], mtfbase[..])
      modifies mtfa, mtfbase
      ensures Valid() && List() == old(Listed(mtfa[..], mtfbase[..]))
    {
      ghost var a0, b0 := mtfa[..], mtfbase[..];
      ghost var a := a0;
      var kk := MTFA_SIZE - 1;
      for ii := 16 downto 0
        invariant kk == 3840 + 16 * ii - 1 && mtfa[..] == a && Rebuilt(a0, b0, a, 16 * ii)
        invariant forall i {:trigger mtfbase[i]} :: 0 <= i < 16 ==>
          mtfbase[i] == if i < ii then b0[i] else 3840 + 16 * i
      {
        for jj := 16 downto 0
          invariant kk == 3840 + 16 * ii + jj - 1 && mtfa[..] == a && Rebuilt(a0, b0, a, 16 * ii + jj)
          invariant forall i {:trigger mtfbase[i]} :: 0 <= i < 16 ==>
            mtfbase[i] == if i <= ii then b0[i] else 3840 + 16 * i
        {
          RebuildNext(a0, b0, a, ii, jj);
          mtfa[kk] := mtfa[mtfbase[ii] + jj];
          a := a[kk := a[b0[ii] + jj]];
          kk := kk - 1;
        }
        mtfbase[ii] := kk + 1;
      }
      RebuildDone(a0, b0, a);
      assert mtfbase[..] == TopBases();
    }

    /** `MTF(nn)`, general case. */
    method AccessFar(nn: nat) returns (uc: nat)
      requires Valid() && MTFL_SIZE <= nn < 256
      modifies mtfa, mtfbase
      ensures Valid() && uc == old(List())[nn] && List() == Front(old(List()), nn)
    {
      ghost var a, b := mtfa[..], mtfbase[..];
      var lno, off := nn / MTFL_SIZE, nn % MTFL_SIZE;
      LastFits(b, lno);
      var pp := mtfbase[lno] + off;
      uc := mtfa[pp];
      ShiftLine(mtfbase[lno], pp);
      mtfbase[lno] := mtfbase[lno] + 1;
      Slide(lno, a, b, nn);
      PutFirst(uc, a, b, nn);
      if mtfbase[0] == 0 { Rebuild(); }
    }

    /** `uc = MTF ( nextSym-1 )` */
    method Access(nn: nat) returns (uc: nat)
      requires Valid() && nn < 256
      modifies mtfa, mtfbase
      ensures Valid() && uc == old(List())[nn] && List() == Front(old(List()), nn)
    {
      if nn < MTFL_SIZE { uc := AccessFirst(nn); } else { uc := AccessFar(nn); }
    }

    /** `mtfa[mtfbase[0]]`: the entry that a zero run repeats. */
    method First() returns (uc: nat)
      requires Valid()
      ensures uc == List()[0]
    {
      uc := mtfa[mtfbase[0]];
    }
  }
}
