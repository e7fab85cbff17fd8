/** The cyclic rotations of a block and their order. */
module Rotations {
  import opened Counting

  /** The byte at distance `p` when the block repeats for ever. */
  function At(b: seq<int>, p: nat): int
    requires b != []
  {
    if p < |b| then b[p] else At(b, p - |b|)
  }

  /** Order of the rotations starting at `i` and `j`, on their first `h` bytes. */
  function Cmp(b: seq<int>, i: nat, j: nat, h: nat): (c: int)
    requires b != []
    ensures -1 <= c <= 1
    decreases h
  {
    if h == 0 then 0
    else if At(b, i) < At(b, j) then -1
    else if At(b, i) > At(b, j) then 1
    else Cmp(b, i + 1, j + 1, h - 1)
  }

  lemma {:induction false} CmpSame(b: seq<int>, i: nat, h: nat)
    requires b != []
    ensures Cmp(b, i, i, h) == 0
    decreases h
  {
    if h > 0 {
      CmpSame(b, i + 1, h - 1);
    }
  }

  lemma {:induction false} CmpFlip(b: seq<int>, i: nat, j: nat, h: nat)
    requires b != []
    ensures Cmp(b, j, i, h) == -Cmp(b, i, j, h)
    decreases h
  {
    if h > 0 {
      CmpFlip(b, i + 1, j + 1, h - 1);
    }
  }

  lemma {:induction false} CmpTrans(b: seq<int>, i: nat, j: nat, k: nat, h: nat)
    requires b != [] && Cmp(b, i, j, h) <= 0 && Cmp(b, j, k, h) <= 0
    ensures Cmp(b, i, k, h) <= 0
    ensures Cmp(b, i, k, h) == 0 ==> Cmp(b, i, j, h) == 0 && Cmp(b, j, k, h) == 0
    decreases h
  {
    if h > 0 && At(b, i) == At(b, j) == At(b, k) {
      CmpTrans(b, i + 1, j + 1, k + 1, h - 1);
    }
  }

  /** Comparing `g + h` bytes is comparing `g` and, on a tie, the next `h`. */
  lemma {:induction false} CmpSplit(b: seq<int>, i: nat, j: nat, g: nat, h: nat)
    requires b != []
    ensures Cmp(b, i, j, g + h)
         == if Cmp(b, i, j, g) != 0 then Cmp(b, i, j, g) else Cmp(b, i + g, j + g, h)
    decreases g
  {
    if g > 0 {
      CmpSplit(b, i + 1, j + 1, g - 1, h);
    }
  }

  lemma {:induction false} CmpWrap(b: seq<int>, i: nat, j: nat, h: nat)
    requires b != []
    ensures Cmp(b, i + |b|, j, h) == Cmp(b, i, j, h)
    decreases h
  {
    if h > 0 {
      CmpWrap(b, i + 1, j + 1, h - 1);
    }
  }

  /** Rotations equal all the way round stay equal when both are turned by one. */
  lemma CmpTurn(b: seq<int>, i: nat, j: nat)
    requires b != [] && Cmp(b, i, j, |b|) == 0
    ensures Cmp(b, i + 1, j + 1, |b|) == 0
  {
    var n := |b|;
    assert Cmp(b, i + 1, j + 1, n - 1) == 0;
    CmpSplit(b, i + 1, j + 1, n - 1, 1);
    assert At(b, i + n) == At(b, i) && At(b, j + n) == At(b, j);
    assert Cmp(b, i + n, j + n, 1) == 0 by {
      assert Cmp(b, i + n + 1, j + n + 1, 0) == 0;
    }
  }

  /** `p` lists rotations in non-decreasing order of their first `h` bytes. */
  ghost predicate Sorted(b: seq<int>, p: seq<int>, h: nat)
    requires b != []
  {
    InRange(p, |b|) && forall x, y :: 0 <= x < y < |p| ==> Cmp(b, p[x], p[y], h) <= 0
  }

  lemma SortedShorter(b: seq<int>, p: seq<int>, g: nat, h: nat)
    requires b != [] && g <= h && Sorted(b, p, h)
    ensures Sorted(b, p, g)
  {
    forall x, y | 0 <= x < y < |p| ensures Cmp(b, p[x], p[y], g) <= 0 {
      CmpSplit(b, p[x], p[y], g, h - g);
    }
  }

  /** What `BZ2_blockSort` must produce: all rotations, in order. */
  ghost predicate SortsRotations(b: seq<int>, p: seq<int>)
    requires b != []
  {
    IsPerm(p, |b|) && Sorted(b, p, |b|)
  }

  /** Two sorted listings of the same rotations agree place by place, up to equal rotations. */
  lemma SortedAgree(b: seq<int>, p: seq<int>, q: seq<int>, y: nat)
    requires b != [] && SortsRotations(b, p) && SortsRotations(b, q) && y < |b|
    ensures Cmp(b, p[y], q[y], |b|) == 0
  {
    if Cmp(b, p[y], q[y], |b|) < 0 {
      NotBelow(b, p, q, y);
    }
    CmpFlip(b, p[y], q[y], |b|);
    if Cmp(b, q[y], p[y], |b|) < 0 {
      NotBelow(b, q, p, y);
    }
  }

  lemma NotBelow(b: seq<int>, p: seq<int>, q: seq<int>, y: nat)
    requires b != [] && SortsRotations(b, p) && SortsRotations(b, q) && y < |b|
    ensures Cmp(b, p[y], q[y], |b|) >= 0
  {
    if Cmp(b, p[y], q[y], |b|) < 0 {
      // the y + 1 first rotations of p would all be among the y first of q
      forall x | 0 <= x <= y ensures p[x] in q[..y] {
        PermReaches(q, |b|, p[x]);
        var z :| 0 <= z < |q| && q[z] == p[x];
        if z >= y {
          LessChain(b, p, q, x, y, z);
        }
        assert q[..y][z] == q[z];
      }
      assert ToSet(p[..y + 1]) <= ToSet(q[..y]);
      assert Distinct(p[..y + 1]) && Distinct(q[..y]);
      DistinctCard(p[..y + 1]);
      DistinctCard(q[..y]);
      SubsetCard(ToSet(p[..y + 1]), ToSet(q[..y]));
    }
  }

  lemma LessChain(b: seq<int>, p: seq<int>, q: seq<int>, x: nat, y: nat, z: nat)
    requires b != [] && Sorted(b, p, |b|) && Sorted(b, q, |b|)
    requires x <= y < |p| && y <= z < |q| && Cmp(b, p[y], q[y], |b|) < 0
    ensures p[x] != q[z]
  {
    var n := |b|;
    CmpSame(b, p[y], n);
    CmpSame(b, q[y], n);
    assert Cmp(b, p[x], p[y], n) <= 0 && Cmp(b, q[y], q[z], n) <= 0;
    CmpTrans(b, p[x], p[y], q[y], n);
    CmpTrans(b, p[x], q[y], q[z], n);
    CmpSame(b, p[x], n);
  }
}
