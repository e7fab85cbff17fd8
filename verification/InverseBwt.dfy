/** The Burrows-Wheeler transform and its inverse on values. */
module InverseBwt {
  import opened Counting
  import opened Rotations

  function Pred(n: nat, p: int): (q: int)
    requires 0 <= p < n
    ensures 0 <= q < n
  {
    if p == 0 then n - 1 else p - 1
  }

  /** The last column: for each sorted rotation, the byte before its start. */
  function LastColumn(b: seq<int>, p: seq<int>): (l: seq<int>)
    requires InRange(p, |b|)
    ensures |l| == |p| && forall x :: 0 <= x < |p| ==> l[x] == b[Pred(|b|, p[x])]
  {
    seq(|p|, x requires 0 <= x < |p| => b[Pred(|b|, p[x])])
  }

  /** The inverse of `LF`, filled in as the elements `0..k-1` are scattered. */
  function Scatter(l: seq<int>, k: nat): (t: seq<nat>)
    requires k <= |l|
    ensures |t| == |l|
  {
    if k == 0 then seq(|l|, i => 0) else
    LFRange(l, k - 1);
    Scatter(l, k - 1)[LF(l, k - 1) := k - 1]
  }

  function TInv(l: seq<int>): (t: seq<nat>)
    ensures |t| == |l|
  {
    Scatter(l, |l|)
  }

  lemma {:induction false} ScatterAt(l: seq<int>, k: nat, i: nat)
    requires i < k <= |l|
    ensures LF(l, i) < |l| && Scatter(l, k)[LF(l, i)] == i
  {
    LFRange(l, i);
    LFRange(l, k - 1);
    if i < k - 1 {
      ScatterAt(l, k - 1, i);
      LFInjective(l, i, k - 1);
    }
  }

  /** `TInv` undoes `LF` from both sides. */
  lemma TInvInverse(l: seq<int>, y: nat)
    requires y < |l|
    ensures TInv(l)[y] < |l| && LF(l, TInv(l)[y]) == y
  {
    LFPerm(l);
    PermReaches(LFs(l), |l|, y);
    var x :| 0 <= x < |l| && LFs(l)[x] == y;
    ScatterAt(l, |l|, x);
  }

  /** `k` bytes read by following `t` from `pos`, as `BZ_GET_FAST` does. */
  function Walk(t: seq<nat>, l: seq<int>, pos: nat, k: nat): (r: seq<int>)
    requires |t| == |l| && (forall y :: 0 <= y < |t| ==> t[y] < |t|)
    requires pos < |t|
    ensures |r| == k
    decreases k
  {
    if k == 0 then [] else [l[t[pos]]] + Walk(t, l, t[pos], k - 1)
  }

  lemma {:induction false} WalkPrefix(t: seq<nat>, l: seq<int>, pos: nat, k: nat, m: nat)
    requires |t| == |l| && (forall y :: 0 <= y < |t| ==> t[y] < |t|)
    requires pos < |t| && k <= m
    ensures Walk(t, l, pos, m)[..k] == Walk(t, l, pos, k)
    decreases k
  {
    if k > 0 {
      WalkPrefix(t, l, t[pos], k - 1, m - 1);
      assert Walk(t, l, pos, m)[..k] == [l[t[pos]]] + Walk(t, l, t[pos], m - 1)[..k - 1];
    }
  }

  lemma {:induction false} WalkMembers(t: seq<nat>, l: seq<int>, pos: nat, k: nat, i: nat)
    requires |t| == |l| && (forall y :: 0 <= y < |t| ==> t[y] < |t|)
    requires pos < |t| && i < k
    ensures Walk(t, l, pos, k)[i] in l
    decreases k
  {
    if i > 0 {
      WalkMembers(t, l, t[pos], k - 1, i - 1);
    }
  }

  /** What the decoder outputs for a last column and a starting row. */
  function Inverse(l: seq<int>, orig: nat): (r: seq<int>)
    requires orig < |l|
    ensures |r| == |l|
  {
    assert forall y :: 0 <= y < |l| ==> TInv(l)[y] < |l| by {
      forall y | 0 <= y < |l| ensures TInv(l)[y] < |l| { TInvInverse(l, y); }
    }
    Walk(TInv(l), l, orig, |l|)
  }

  /** Row `y` holds the rotation one step before that of row `TInv[y]`. */
  function Previous(b: seq<int>, p: seq<int>, y: nat): int
    requires IsPerm(p, |b|) && y < |b|
  {
    var l := LastColumn(b, p);
    TInvInverse(l, y);
    Pred(|b|, p[TInv(l)[y]])
  }

  ghost function Previouses(b: seq<int>, p: seq<int>): (q: seq<int>)
    requires IsPerm(p, |b|)
    ensures |q| == |b| && forall y :: 0 <= y < |b| ==> q[y] == Previous(b, p, y)
  {
    seq(|b|, y requires 0 <= y < |b| => Previous(b, p, y))
  }

  lemma PredCmp(b: seq<int>, i: nat, j: nat)
    requires b != [] && i < |b| && j < |b|
    ensures var n := |b|;
      Cmp(b, Pred(n, i), Pred(n, j), n)
      == if b[Pred(n, i)] < b[Pred(n, j)] then -1
         else if b[Pred(n, i)] > b[Pred(n, j)] then 1 else Cmp(b, i, j, n - 1)
  {
    var n := |b|;
    var i', j' := Pred(n, i), Pred(n, j);
    CmpWrap(b, i, j' + 1, n - 1);
    assert Cmp(b, i' + 1, j' + 1, n - 1) == Cmp(b, i, j' + 1, n - 1);
    CmpFlip(b, i, j' + 1, n - 1);
    CmpWrap(b, j, i, n - 1);
    CmpFlip(b, i, j, n - 1);
  }

  lemma PreviousPerm(b: seq<int>, p: seq<int>)
    requires IsPerm(p, |b|)
    ensures IsPerm(Previouses(b, p), |b|)
  {
    var q, l := Previouses(b, p), LastColumn(b, p);
    forall y, z | 0 <= y < z < |b| ensures q[y] != q[z] {
      TInvInverse(l, y);
      TInvInverse(l, z);
      var y', z' := TInv(l)[y], TInv(l)[z];
      assert y' != z';
      assert p[y'] != p[z'];
    }
  }

  lemma PredSorted(b: seq<int>, p: seq<int>, x: nat, z: nat)
    requires b != [] && Sorted(b, p, |b|) && x < |p| && z < |p|
    requires var c, d := b[Pred(|b|, p[x])], b[Pred(|b|, p[z])]; c < d || (c == d && x < z)
    ensures Cmp(b, Pred(|b|, p[x]), Pred(|b|, p[z]), |b|) <= 0
  {
    var n := |b|;
    PredCmp(b, p[x], p[z]);
    CmpSplit(b, p[x], p[z], n - 1, 1);
  }

  lemma PreviousSorted(b: seq<int>, p: seq<int>, y: nat, z: nat)
    requires b != [] && SortsRotations(b, p) && y < z < |b|
    ensures Cmp(b, Previous(b, p, y), Previous(b, p, z), |b|) <= 0
  {
    var l := LastColumn(b, p);
    TInvInverse(l, y);
    TInvInverse(l, z);
    ElementOrder(l, TInv(l)[y], TInv(l)[z]);
    PredSorted(b, p, TInv(l)[y], TInv(l)[z]);
  }

  lemma ElementOrder(l: seq<int>, i: nat, j: nat)
    requires i < |l| && j < |l| && LF(l, i) < LF(l, j)
    ensures l[i] < l[j] || (l[i] == l[j] && i < j)
  {
    if l[j] < l[i] || (l[j] == l[i] && j < i) {
      LFOrder(l, j, i);
    }
  }

  /** The heart of the inverse: equal rotations included, row `y` is row `TInv[y]` turned back by one. */
  lemma RowTurned(b: seq<int>, p: seq<int>, y: nat)
    requires b != [] && SortsRotations(b, p) && y < |b|
    ensures Cmp(b, p[y], Previous(b, p, y), |b|) == 0
  {
    var q := Previouses(b, p);
    PreviousPerm(b, p);
    forall x, z | 0 <= x < z < |q| ensures Cmp(b, q[x], q[z], |b|) <= 0 {
      PreviousSorted(b, p, x, z);
    }
    SortedAgree(b, p, q, y);
  }

  /** Following `TInv` from the row of rotation `k` gives the row of rotation `k + 1`. */
  lemma NextRow(b: seq<int>, p: seq<int>, y: nat, k: nat)
    requires b != [] && SortsRotations(b, p) && y < |b| && k < |b|
    requires Cmp(b, p[y], k, |b|) == 0
    ensures var x := TInv(LastColumn(b, p))[y];
      x < |b| && Cmp(b, p[x], k + 1, |b|) == 0 && LastColumn(b, p)[x] == b[k]
  {
    var l, n := LastColumn(b, p), |b|;
    TInvInverse(l, y);
    var x := TInv(l)[y];
    var q := Previous(b, p, y);
    RowTurned(b, p, y);
    CmpFlip(b, p[y], q, n);
    CmpTrans(b, q, p[y], k, n);
    CmpFlip(b, k, p[y], n);
    CmpFlip(b, p[y], k, n);
    CmpTrans(b, k, p[y], q, n);
    CmpFlip(b, q, k, n);
    assert Cmp(b, q, k, n) == 0;
    assert At(b, q) == At(b, k);
    CmpTurn(b, q, k);
    CmpWrap(b, p[x], k + 1, n);
  }

  lemma {:induction false} WalkRecovers(b: seq<int>, p: seq<int>, y: nat, k: nat, t: seq<nat>)
    requires b != [] && SortsRotations(b, p) && y < |b| && k <= |b|
    requires k < |b| ==> Cmp(b, p[y], k, |b|) == 0
    requires t == TInv(LastColumn(b, p)) && (forall z :: 0 <= z < |t| ==> t[z] < |t|)
    ensures Walk(t, LastColumn(b, p), y, |b| - k) == b[k..]
    decreases |b| - k
  {
    if k < |b| {
      NextRow(b, p, y, k);
      WalkRecovers(b, p, t[y], k + 1, t);
    }
  }

  /** Inverting the last column from the row of rotation 0 gives back the block, periodic blocks included. */
  lemma InverseOfForward(b: seq<int>, p: seq<int>, orig: nat)
    requires b != [] && SortsRotations(b, p) && orig < |b| && p[orig] == 0
    ensures Inverse(LastColumn(b, p), orig) == b
  {
    var l := LastColumn(b, p);
    forall y | 0 <= y < |l| ensures TInv(l)[y] < |l| { TInvInverse(l, y); }
    CmpSame(b, 0, |b|);
    WalkRecovers(b, p, orig, 0, TInv(l));
    assert b[0..] == b;
  }
}
