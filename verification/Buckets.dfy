/** The theory behind `fallbackSort`: buckets of rotations equal so far, refined by doubling the depth. */
module Buckets {
  import opened Bits
  import opened Counting
  import opened Rotations
  import opened FallbackQSort

  function Twice(h: nat): nat {
    h + h
  }

  /** The bits of `bhtab`: a set bit starts a bucket of rotations equal on their first `h` bytes. */
  ghost predicate BitAt(b: seq<int>, f: seq<nat>, bh: seq<bool>, x: nat, h: nat)
    requires b != [] && x < |f| <= |bh|
  {
    bh[x] <==> x == 0 || Cmp(b, f[x - 1], f[x], h) < 0
  }

  /** `fmap` and `bhtab` describe the rotations sorted to depth `h`. */
  ghost predicate Depth(b: seq<int>, f: seq<nat>, bh: seq<bool>, h: nat) {
    && b != [] && IsPerm(f, |b|) && |b| + 1 < |bh| && bh[|b|] && !bh[|b| + 1] && Sorted(b, f, h)
    && (forall x :: 0 <= x < |b| ==> BitAt(b, f, bh, x, h))
  }

  /** The start of the bucket that holds position `x`. */
  function StartOf(bh: seq<bool>, x: nat): (s: nat)
    requires x < |bh|
    ensures s <= x
  {
    if bh[x] || x == 0 then x else StartOf(bh, x - 1)
  }

  lemma StrictChain(b: seq<int>, i: nat, j: nat, k: nat, l: nat, h: nat)
    requires b != [] && Cmp(b, i, j, h) <= 0 && Cmp(b, j, k, h) < 0 && Cmp(b, k, l, h) <= 0
    ensures Cmp(b, i, l, h) < 0
  {
    CmpTrans(b, i, j, k, h);
    CmpTrans(b, i, k, l, h);
  }

  /** A set bit separates what is before it from what is at or after it. */
  lemma Separated(b: seq<int>, f: seq<nat>, h: nat, x: nat, s: nat, y: nat)
    requires b != [] && Sorted(b, f, h) && x < s <= y < |f| && Cmp(b, f[s - 1], f[s], h) < 0
    ensures Cmp(b, f[x], f[y], h) < 0
  {
    CmpSame(b, f[x], h);
    CmpSame(b, f[y], h);
    assert Cmp(b, f[x], f[s - 1], h) <= 0 && Cmp(b, f[s], f[y], h) <= 0;
    StrictChain(b, f[x], f[s - 1], f[s], f[y], h);
  }

  lemma {:induction false} SameBucket(b: seq<int>, f: seq<nat>, bh: seq<bool>, h: nat, x: nat, y: nat)
    requires Depth(b, f, bh, h) && x <= y < |b| && StartOf(bh, y) <= x
    ensures StartOf(bh, x) == StartOf(bh, y) && Cmp(b, f[x], f[y], h) == 0
    decreases y
  {
    if x < y {
      assert BitAt(b, f, bh, y, h);
      SameBucket(b, f, bh, h, x, y - 1);
      assert Cmp(b, f[y - 1], f[y], h) == 0;
      CmpTrans(b, f[x], f[y - 1], f[y], h);
      CmpFlip(b, f[x], f[y - 1], h);
      CmpFlip(b, f[y - 1], f[y], h);
      CmpTrans(b, f[y], f[y - 1], f[x], h);
      CmpFlip(b, f[y], f[x], h);
    } else {
      CmpSame(b, f[x], h);
    }
  }

  lemma StartBit(bh: seq<bool>, x: nat)
    requires x < |bh|
    ensures StartOf(bh, x) > 0 ==> bh[StartOf(bh, x)]
  {
  }

  /** Bucket starts rank positions exactly as their rotations compare. */
  lemma StartsRank(b: seq<int>, f: seq<nat>, bh: seq<bool>, h: nat, x: nat, y: nat)
    requires Depth(b, f, bh, h) && x < |b| && y < |b|
    ensures StartOf(bh, x) < StartOf(bh, y) <==> Cmp(b, f[x], f[y], h) < 0
    ensures StartOf(bh, x) == StartOf(bh, y) <==> Cmp(b, f[x], f[y], h) == 0
  {
    if x <= y {
      StartsRankUp(b, f, bh, h, x, y);
    } else {
      StartsRankUp(b, f, bh, h, y, x);
      CmpFlip(b, f[x], f[y], h);
    }
  }

  lemma StartsRankUp(b: seq<int>, f: seq<nat>, bh: seq<bool>, h: nat, x: nat, y: nat)
    requires Depth(b, f, bh, h) && x <= y < |b|
    ensures StartOf(bh, x) <= StartOf(bh, y)
    ensures StartOf(bh, x) < StartOf(bh, y) <==> Cmp(b, f[x], f[y], h) < 0
    ensures StartOf(bh, x) == StartOf(bh, y) <==> Cmp(b, f[x], f[y], h) == 0
  {
    var s := StartOf(bh, y);
    if s <= x {
      SameBucket(b, f, bh, h, x, y);
    } else {
      StartBit(bh, y);
      assert BitAt(b, f, bh, s, h);
      Separated(b, f, h, x, s, y);
    }
  }

  /** `k = fmap[i] - H; if (k < 0) k += nblock;` */
  function Back(n: nat, p: int, h: nat): (q: int)
    requires 0 <= p < n && h <= n
    ensures 0 <= q < n && (q + h == p || q + h == p + n)
  {
    if p - h < 0 then p - h + n else p - h
  }

  /** `eclass` ranks each rotation by the `h` bytes that follow its first `h`. */
  ghost predicate Classes(b: seq<int>, e: seq<nat>, h: nat) {
    && b != [] && |e| == |b|
    && (forall q, r :: 0 <= q < |b| && 0 <= r < |b| ==>
          && (e[q] < e[r] <==> Cmp(b, q + h, r + h, h) < 0)
          && (e[q] == e[r] <==> Cmp(b, q + h, r + h, h) == 0))
  }

  lemma CmpModulo(b: seq<int>, i: nat, j: nat, i': nat, j': nat, h: nat)
    requires b != [] && (i' == i || i' == i + |b|) && (j' == j || j' == j + |b|)
    ensures Cmp(b, i', j', h) == Cmp(b, i, j, h)
  {
    CmpWrap(b, i, j', h);
    CmpFlip(b, i, j', h);
    CmpWrap(b, j, i, h);
    CmpFlip(b, i, j, h);
  }

  /** The classes assigned by the first loop of a pass. */
  lemma AssignedClasses(b: seq<int>, f: seq<nat>, bh: seq<bool>, e: seq<nat>, h: nat)
    requires Depth(b, f, bh, h) && h <= |b| && |e| == |b|
    requires forall x :: 0 <= x < |b| ==> e[Back(|b|, f[x], h)] == StartOf(bh, x)
    ensures Classes(b, e, h)
  {
    forall q, r | 0 <= q < |b| && 0 <= r < |b|
      ensures e[q] < e[r] <==> Cmp(b, q + h, r + h, h) < 0
      ensures e[q] == e[r] <==> Cmp(b, q + h, r + h, h) == 0
    {
      var x := Source(b, f, h, q);
      var y := Source(b, f, h, r);
      StartsRank(b, f, bh, h, x, y);
      CmpModulo(b, f[x], f[y], q + h, r + h, h);
    }
  }

  lemma Source(b: seq<int>, f: seq<nat>, h: nat, q: nat) returns (x: nat)
    requires IsPerm(f, |b|) && h <= |b| && q < |b|
    ensures x < |b| && Back(|b|, f[x], h) == q
  {
    var p := if q + h < |b| then q + h else q + h - |b|;
    PermReaches(f, |b|, p);
    x :| 0 <= x < |f| && f[x] == p;
  }

  /** In a pass at depth `h`: refined to `2h` before `p`, still at depth `h` from there on. */
  ghost predicate Refining(b: seq<int>, f: seq<nat>, bh: seq<bool>, h: nat, p: nat) {
    && b != [] && IsPerm(f, |b|) && |b| + 1 < |bh| && bh[|b|] && !bh[|b| + 1]
    && Sorted(b, f, h) && p <= |b| && bh[p]
    && Sorted(b, f[..p], Twice(h))
    && (forall x :: 0 <= x < p ==> BitAt(b, f, bh, x, Twice(h)))
    && (forall x :: p <= x < |b| ==> BitAt(b, f, bh, x, h))
  }

  lemma StrictDeeper(b: seq<int>, i: nat, j: nat, g: nat, h: nat)
    requires b != [] && g <= h && Cmp(b, i, j, g) < 0
    ensures Cmp(b, i, j, h) < 0
  {
    CmpSplit(b, i, j, g, h - g);
  }

  lemma RefiningStarts(b: seq<int>, f: seq<nat>, bh: seq<bool>, h: nat)
    requires Depth(b, f, bh, h)
    ensures Refining(b, f, bh, h, 0)
  {
    assert BitAt(b, f, bh, 0, h);
  }

  lemma RefiningEnds(b: seq<int>, f: seq<nat>, bh: seq<bool>, h: nat)
    requires Refining(b, f, bh, h, |b|)
    ensures Depth(b, f, bh, Twice(h))
  {
    assert f[..|b|] == f;
  }

  /** Skipping singleton buckets: every bit from `p` to `l` is set. */
  lemma SkipSingletons(b: seq<int>, f: seq<nat>, bh: seq<bool>, h: nat, p: nat, l: nat)
    requires Refining(b, f, bh, h, p) && p <= l <= |b|
    requires forall x :: p <= x <= l ==> bh[x]
    ensures Refining(b, f, bh, h, l)
  {
    forall x, y | 0 <= x < y < l ensures Cmp(b, f[..l][x], f[..l][y], Twice(h)) <= 0 {
      if y < p {
        assert f[..p][x] == f[x] && f[..p][y] == f[y];
      } else {
        assert BitAt(b, f, bh, y, h);
        Separated(b, f, h, x, y, y);
        StrictDeeper(b, f[x], f[y], h, Twice(h));
      }
    }
    var d := Twice(h);
    forall x | 0 <= x < l ensures BitAt(b, f, bh, x, d) {
      if p <= x {
        assert BitAt(b, f, bh, x, h);
        if x > 0 { StrictDeeper(b, f[x - 1], f[x], h, Twice(h)); }
      }
    }
  }

  /** One bucket: its bit is set, the others up to `r` are clear, and the next is set. */
  ghost predicate Bucket(bh: seq<bool>, l: nat, r: nat) {
    l < r && r + 1 < |bh| && bh[l] && bh[r + 1] && (forall x :: l < x <= r ==> !bh[x])
  }

  lemma {:induction false} BucketTies(b: seq<int>, f: seq<nat>, bh: seq<bool>, h: nat, l: nat, r: nat, x: nat)
    requires Refining(b, f, bh, h, l) && Bucket(bh, l, r) && r < |b| && l <= x <= r
    ensures Cmp(b, f[l], f[x], h) == 0
    decreases x
  {
    if x > l {
      BucketTies(b, f, bh, h, l, r, x - 1);
      assert BitAt(b, f, bh, x, h);
      TieTrans(b, f[l], f[x - 1], f[x], h);
    } else {
      CmpSame(b, f[l], h);
    }
  }

  lemma TieTrans(b: seq<int>, i: nat, j: nat, k: nat, h: nat)
    requires b != [] && Cmp(b, i, j, h) == 0 && Cmp(b, j, k, h) == 0
    ensures Cmp(b, i, k, h) == 0 && Cmp(b, k, i, h) == 0
  {
    CmpTrans(b, i, j, k, h);
    CmpFlip(b, i, j, h);
    CmpFlip(b, j, k, h);
    CmpTrans(b, k, j, i, h);
    CmpFlip(b, i, k, h);
  }

  lemma BucketTie(b: seq<int>, f: seq<nat>, bh: seq<bool>, h: nat, l: nat, r: nat, x: nat, y: nat)
    requires Refining(b, f, bh, h, l) && Bucket(bh, l, r) && r < |b| && l <= x <= r && l <= y <= r
    ensures Cmp(b, f[x], f[y], h) == 0
  {
    BucketTies(b, f, bh, h, l, r, x);
    BucketTies(b, f, bh, h, l, r, y);
    CmpFlip(b, f[l], f[x], h);
    TieTrans(b, f[x], f[l], f[y], h);
  }

  /** Rearranging within the bucket changes no comparison on `h` bytes. */
  lemma RearrangedCmp(b: seq<int>, f: seq<nat>, g: seq<nat>, bh: seq<bool>, h: nat, l: nat, r: nat, x: nat)
    requires Refining(b, f, bh, h, l) && Bucket(bh, l, r) && r < |b|
    requires Rearranged(f, g, l, r) && x < |b|
    ensures Cmp(b, f[x], g[x], h) == 0 && Cmp(b, g[x], f[x], h) == 0
  {
    if l <= x <= r {
      var y := FromStretch(f, g, l, r, x);
      BucketTie(b, f, bh, h, l, r, x, y);
      CmpFlip(b, f[x], g[x], h);
    } else {
      CmpSame(b, f[x], h);
    }
  }

  lemma CmpTied(b: seq<int>, i: nat, j: nat, i': nat, j': nat, h: nat)
    requires b != [] && Cmp(b, i, i', h) == 0 && Cmp(b, j, j', h) == 0
    ensures Cmp(b, i, j, h) == Cmp(b, i', j', h)
  {
    CmpFlip(b, i, i', h);
    CmpFlip(b, j, j', h);
    CmpFlip(b, i, j, h);
    CmpFlip(b, i', j', h);
    if Cmp(b, i, j, h) <= 0 {
      CmpTrans(b, i', i, j, h);
      CmpTrans(b, i', j, j', h);
    }
    if Cmp(b, j, i, h) <= 0 {
      CmpTrans(b, j', j, i, h);
      CmpTrans(b, j', i, i', h);
    }
  }

  lemma RearrangedCmps(b: seq<int>, f: seq<nat>, g: seq<nat>, bh: seq<bool>, h: nat, l: nat, r: nat, x: nat, y: nat)
    requires Refining(b, f, bh, h, l) && Bucket(bh, l, r) && r < |b|
    requires Rearranged(f, g, l, r) && x < |b| && y < |b|
    ensures Cmp(b, f[x], f[y], h) == Cmp(b, g[x], g[y], h)
  {
    RearrangedCmp(b, f, g, bh, h, l, r, x);
    RearrangedCmp(b, f, g, bh, h, l, r, y);
    CmpTied(b, f[x], f[y], g[x], g[y], h);
  }

  lemma ClassDecides(b: seq<int>, e: seq<nat>, h: nat, i: nat, j: nat)
    requires Classes(b, e, h) && i < |b| && j < |b| && Cmp(b, i, j, h) == 0
    ensures Cmp(b, i, j, Twice(h)) < 0 <==> e[i] < e[j]
    ensures Cmp(b, i, j, Twice(h)) == 0 <==> e[i] == e[j]
  {
    CmpSplit(b, i, j, h, h);
  }

  /** What a sorted bucket with its new header bits adds to the pass. */
  ghost predicate Marked(e: seq<nat>, g: seq<nat>, bh: seq<bool>, bh': seq<bool>, l: nat, r: nat) {
    && Indexes(g, e) && |bh'| == |bh| && l <= r < |g| && r < |bh|
    && (forall x {:trigger bh'[x]} :: 0 <= x < |bh| && !(l < x <= r) ==> bh'[x] == bh[x])
    && (forall x {:trigger bh'[x]} :: l < x <= r ==> (bh'[x] <==> e[g[x - 1]] != e[g[x]]))
  }

  lemma BucketRefined(b: seq<int>, f: seq<nat>, g: seq<nat>, e: seq<nat>, bh: seq<bool>, bh': seq<bool>,
                      h: nat, l: nat, r: nat)
    requires Refining(b, f, bh, h, l) && Bucket(bh, l, r) && r < |b| && Classes(b, e, h)
    requires Rearranged(f, g, l, r) && Indexes(g, e) && SortedBy(e, g, l, r) && Marked(e, g, bh, bh', l, r)
    ensures Refining(b, g, bh', h, r + 1)
  {
    PermOfPerm(f, g, |b|);
    forall x, y | 0 <= x < y < |b| ensures Cmp(b, g[x], g[y], h) <= 0 {
      RearrangedCmps(b, f, g, bh, h, l, r, x, y);
    }
    var p, d := r + 1, Twice(h);
    forall x, y | 0 <= x < y < p ensures Cmp(b, g[..p][x], g[..p][y], d) <= 0 {
      RefinedPair(b, f, g, e, bh, h, l, r, x, y);
    }
    forall x | 0 <= x < p ensures BitAt(b, g, bh', x, d) {
      RefinedBit(b, f, g, e, bh, bh', h, l, r, x);
    }
    forall x | r + 1 <= x < |b| ensures BitAt(b, g, bh', x, h) {
      assert BitAt(b, f, bh, x, h);
      RearrangedCmps(b, f, g, bh, h, l, r, x - 1, x);
    }
  }

  lemma RefinedPair(b: seq<int>, f: seq<nat>, g: seq<nat>, e: seq<nat>, bh: seq<bool>,
                    h: nat, l: nat, r: nat, x: nat, y: nat)
    requires Refining(b, f, bh, h, l) && Bucket(bh, l, r) && r < |b| && Classes(b, e, h)
    requires Rearranged(f, g, l, r) && Indexes(g, e) && SortedBy(e, g, l, r) && x < y <= r
    ensures Cmp(b, g[x], g[y], Twice(h)) <= 0
  {
    if y < l {
      assert f[..l][x] == f[x] == g[x] && f[..l][y] == f[y] == g[y];
    } else if x < l {
      assert BitAt(b, f, bh, l, h);
      Separated(b, f, h, x, l, y);
      RearrangedCmps(b, f, g, bh, h, l, r, x, y);
      StrictDeeper(b, g[x], g[y], h, Twice(h));
    } else {
      BucketTie(b, f, bh, h, l, r, x, y);
      RearrangedCmps(b, f, g, bh, h, l, r, x, y);
      ClassDecides(b, e, h, g[x], g[y]);
    }
  }

  lemma RefinedBit(b: seq<int>, f: seq<nat>, g: seq<nat>, e: seq<nat>, bh: seq<bool>, bh': seq<bool>,
                   h: nat, l: nat, r: nat, x: nat)
    requires Refining(b, f, bh, h, l) && Bucket(bh, l, r) && r < |b| && Classes(b, e, h)
    requires Rearranged(f, g, l, r) && Indexes(g, e) && SortedBy(e, g, l, r) && Marked(e, g, bh, bh', l, r)
    requires x <= r
    ensures BitAt(b, g, bh', x, Twice(h))
  {
    if x < l {
      assert BitAt(b, f, bh, x, Twice(h));
      assert g[x] == f[x] && (x > 0 ==> g[x - 1] == f[x - 1]);
    } else if x == l {
      assert BitAt(b, f, bh, l, h);
      if l > 0 {
        RearrangedCmps(b, f, g, bh, h, l, r, l - 1, l);
        StrictDeeper(b, g[l - 1], g[l], h, Twice(h));
      }
    } else {
      BucketTie(b, f, bh, h, l, r, x - 1, x);
      RearrangedCmps(b, f, g, bh, h, l, r, x - 1, x);
      ClassDecides(b, e, h, g[x - 1], g[x]);
    }
  }

  /** Nothing left to resolve: all buckets are singletons, so the order holds at any depth. */
  lemma AllSingletons(b: seq<int>, f: seq<nat>, h: nat, g: nat)
    requires b != [] && Sorted(b, f, h) && h <= g
    requires forall x :: 0 < x < |f| ==> Cmp(b, f[x - 1], f[x], h) < 0
    ensures Sorted(b, f, g)
  {
    forall x, y | 0 <= x < y < |f| ensures Cmp(b, f[x], f[y], g) <= 0 {
      Separated(b, f, h, x, y, y);
      StrictDeeper(b, f[x], f[y], h, g);
    }
  }
}
