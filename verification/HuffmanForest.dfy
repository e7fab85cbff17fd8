/** The forest that the code-length computation grows: what every merge of two lightest trees keeps. */
module HuffmanForest {
  import opened Bits
  import opened HuffmanHeap

  /** `WEIGHTOF` in units of its lowest bit, and `DEPTHOF`. */
  function Wt(z: nat): nat {
    z / 256
  }

  function Dp(z: nat): nat {
    z % 256
  }

  /** `ADDWEIGHTS` */
  function AddWeights(a: nat, b: nat): nat {
    (Wt(a) + Wt(b)) * 256 + 1 + (if Dp(a) > Dp(b) then Dp(a) else Dp(b))
  }

  function Fib(n: nat): (f: nat)
    ensures n > 0 ==> f > 0
  {
    if n < 2 then n else Fib(n - 1) + Fib(n - 2)
  }

  lemma {:induction false} FibMono(a: nat, b: nat)
    requires a <= b
    ensures Fib(a) <= Fib(b)
  {
    if a < b { FibMono(a, b - 1); }
  }

  lemma FibValues()
    ensures Fib(15) == 610 && Fib(35) == 9227465
  {
    assert Fib(8) == 21 && Fib(9) == 34;
    assert Fib(14) == 377 && Fib(15) == 610;
    assert Fib(20) == 6765 && Fib(21) == 10946;
    assert Fib(26) == 121393 && Fib(27) == 196418;
    assert Fib(32) == 2178309 && Fib(33) == 3524578;
  }

  /** Largest total weight whose packed form fits 32 bits. */
  const MAX_TOTAL := 0x7f_ffff

  /** Nodes 1..m; `last` is the weight of the last node taken from the heap; `left` and `right` are proof only. */
  datatype Forest = Forest(parent: seq<int>, w: seq<nat>, left: seq<nat>, right: seq<nat>, m: nat, last: nat)

  /** Every node above the leaves has exactly two children, created before it. */
  ghost predicate Kin(f: Forest, alpha: nat) {
    && alpha <= f.m < |f.w| && |f.parent| == |f.left| == |f.right| == |f.w|
    && (forall k {:trigger f.parent[k]} :: 1 <= k <= f.m && f.parent[k] != -1 ==>
          k < f.parent[k] <= f.m && alpha < f.parent[k]
          && (k == f.left[f.parent[k]] || k == f.right[f.parent[k]]))
    && (forall p {:trigger f.left[p]} {:trigger f.right[p]} :: alpha < p <= f.m ==>
          1 <= f.left[p] < p && 1 <= f.right[p] < p && f.left[p] != f.right[p]
          && f.parent[f.left[p]] == p && f.parent[f.right[p]] == p)
  }

  /** Heights grow towards the roots, and weights grow with heights at least as the Fibonacci numbers do. */
  ghost predicate Growth(f: Forest, alpha: nat) {
    && alpha <= f.m < |f.w| && |f.parent| == |f.w|
    && (forall k {:trigger f.w[k]} :: 1 <= k <= f.m ==>
          && Wt(f.w[k]) >= Fib(Dp(f.w[k]) + 2) && (Dp(f.w[k]) >= 1 ==> f.last >= Fib(Dp(f.w[k]) + 1))
          && (f.parent[k] == -1 ==> Wt(f.w[k]) >= f.last))
  }

  ghost predicate Heights(f: Forest, alpha: nat) {
    && alpha <= f.m < |f.w| && |f.parent| == |f.w|
    && (forall k {:trigger f.parent[k]} :: 1 <= k <= f.m && f.parent[k] != -1 ==>
          k < f.parent[k] <= f.m && Dp(f.w[f.parent[k]]) > Dp(f.w[k]))
  }

  /** When the nodes up to `t` were there, node `j` was a root. */
  predicate Open(f: Forest, t: nat, j: nat) {
    1 <= j <= t < |f.parent| && (f.parent[j] == -1 || f.parent[j] > t)
  }

  /** Node `t` was made of the two lightest trees there were, and weighs what they weigh together. */
  ghost predicate MadeOfLightest(f: Forest, t: nat) {
    && 1 < t < |f.w| && |f.parent| == |f.left| == |f.right| == |f.w| && f.left[t] < |f.w| && f.right[t] < |f.w|
    && Wt(f.w[t]) == Wt(f.w[f.left[t]]) + Wt(f.w[f.right[t]])
    && forall j: nat {:trigger f.w[j]} :: Open(f, t - 1, j) && j != f.left[t] ==>
         Wt(f.w[f.left[t]]) <= Wt(f.w[j]) && (j != f.right[t] ==> Wt(f.w[f.right[t]]) <= Wt(f.w[j]))
  }

  /** Every node above the leaves was made of the two lightest trees there were. */
  ghost predicate Greedy(f: Forest, alpha: nat) {
    alpha <= f.m < |f.w| && forall t {:trigger f.left[t]} :: alpha < t <= f.m ==> MadeOfLightest(f, t)
  }

  function Roots(f: Forest): set<nat>
    requires f.m < |f.parent|
  {
    set k: nat | 1 <= k <= f.m && f.parent[k] == -1
  }

  /** The weight of the roots among nodes 1..j. */
  function RootSum(parent: seq<int>, w: seq<nat>, j: nat): nat
    requires j < |w| && |parent| == |w|
  {
    if j == 0 then 0 else RootSum(parent, w, j - 1) + (if parent[j] == -1 then Wt(w[j]) else 0)
  }

  lemma {:induction false} RootSumTaken(parent: seq<int>, w: seq<nat>, j: nat, n: nat, p: nat)
    requires j < |w| && |parent| == |w| && 1 <= n < |w| && parent[n] == -1
    ensures RootSum(parent[n := p], w, j) == RootSum(parent, w, j) - (if n <= j then Wt(w[n]) else 0)
  {
    if j > 0 { RootSumTaken(parent, w, j - 1, n, p); }
  }

  lemma {:induction false} RootSumLocal(parent: seq<int>, w: seq<nat>, parent': seq<int>, w': seq<nat>, j: nat)
    requires j < |w| == |w'| && |parent| == |w| == |parent'|
    requires forall k {:trigger parent[k]} {:trigger w[k]} :: 1 <= k <= j ==> parent'[k] == parent[k] && w'[k] == w[k]
    ensures RootSum(parent', w', j) == RootSum(parent, w, j)
  {
    if j > 0 {
      RootSumLocal(parent, w, parent', w', j - 1);
      assert parent'[j] == parent[j];
    }
  }

  lemma {:induction false} RootSumHas(parent: seq<int>, w: seq<nat>, j: nat, k: nat)
    requires j < |w| && |parent| == |w| && 1 <= k <= j && parent[k] == -1
    ensures Wt(w[k]) <= RootSum(parent, w, j)
  {
    if k < j { RootSumHas(parent, w, j - 1, k); }
  }

  /** The forest after nodes `n1` and `n2` are joined under a new one. */
  function Merge(f: Forest, n1: nat, n2: nat): (g: Forest)
    requires f.m + 1 < |f.w| && |f.parent| == |f.left| == |f.right| == |f.w| && n1 <= f.m && n2 <= f.m
    ensures g.m == f.m + 1 < |g.w| == |g.parent|
  {
    var p := f.m + 1;
    Forest(f.parent[n1 := p][n2 := p][p := -1], f.w[p := AddWeights(f.w[n1], f.w[n2])],
           f.left[p := n1], f.right[p := n2], p, Wt(f.w[n2]))
  }

  ghost predicate Mergeable(f: Forest, alpha: nat, n1: nat, n2: nat) {
    && alpha <= f.m && f.m + 1 < |f.w| && |f.parent| == |f.left| == |f.right| == |f.w|
    && n1 != n2 && 1 <= n1 <= f.m && 1 <= n2 <= f.m && f.parent[n1] == -1 && f.parent[n2] == -1
  }

  lemma MergeKin(f: Forest, alpha: nat, n1: nat, n2: nat)
    requires Kin(f, alpha) && Mergeable(f, alpha, n1, n2)
    ensures Kin(Merge(f, n1, n2), alpha)
  {
    hide AddWeights;
  }

  lemma AddedFields(a: nat, b: nat)
    requires Dp(a) < 255 && Dp(b) < 255
    ensures Wt(AddWeights(a, b)) == Wt(a) + Wt(b) && Dp(AddWeights(a, b)) > Dp(a) && Dp(AddWeights(a, b)) > Dp(b)
    ensures Dp(AddWeights(a, b)) == 1 + Dp(a) || Dp(AddWeights(a, b)) == 1 + Dp(b)
  {
  }

  lemma MergeHeights(f: Forest, alpha: nat, n1: nat, n2: nat)
    requires Heights(f, alpha) && Mergeable(f, alpha, n1, n2) && Dp(f.w[n1]) < 255 && Dp(f.w[n2]) < 255
    ensures Heights(Merge(f, n1, n2), alpha)
  {
    var p, g := f.m + 1, Merge(f, n1, n2);
    AddedFields(f.w[n1], f.w[n2]);
    forall k {:trigger g.parent[k]} | 1 <= k <= p && g.parent[k] != -1
      ensures k < g.parent[k] <= p && Dp(g.w[g.parent[k]]) > Dp(g.w[k])
    {
      if k != n1 && k != n2 {
        assert g.parent[k] == f.parent[k];
      }
    }
  }

  lemma MergeRoots(f: Forest, alpha: nat, n1: nat, n2: nat)
    requires Mergeable(f, alpha, n1, n2) && Dp(f.w[n1]) < 255 && Dp(f.w[n2]) < 255
    ensures Roots(Merge(f, n1, n2)) == Roots(f) - {n1} - {n2} + {f.m + 1}
    ensures RootSum(Merge(f, n1, n2).parent, Merge(f, n1, n2).w, f.m + 1) == RootSum(f.parent, f.w, f.m)
  {
    var p, g := f.m + 1, Merge(f, n1, n2);
    RootSumTaken(f.parent, f.w, f.m, n1, p);
    RootSumTaken(f.parent[n1 := p], f.w, f.m, n2, p);
    RootSumLocal(f.parent[n1 := p][n2 := p], f.w, g.parent, g.w, f.m);
    AddedFields(f.w[n1], f.w[n2]);
  }

  lemma MergeGrowth(f: Forest, alpha: nat, n1: nat, n2: nat)
    requires Growth(f, alpha) && Mergeable(f, alpha, n1, n2) && Dp(f.w[n1]) < 255 && Dp(f.w[n2]) < 255
    requires Lightest(f.w, n1, Roots(f)) && Lightest(f.w, n2, Roots(f) - {n1})
    ensures Growth(Merge(f, n1, n2), alpha)
  {
    var p, g := f.m + 1, Merge(f, n1, n2);
    assert n2 in Roots(f);
    assert f.last <= Wt(f.w[n1]) <= Wt(f.w[n2]);
    MergedWeight(f, alpha, n1, n2);
    hide Wt, Dp, Fib, AddWeights;
    forall k {:trigger g.w[k]} | 1 <= k <= p
      ensures Wt(g.w[k]) >= Fib(Dp(g.w[k]) + 2) && (Dp(g.w[k]) >= 1 ==> g.last >= Fib(Dp(g.w[k]) + 1))
      ensures g.parent[k] == -1 ==> Wt(g.w[k]) >= g.last
    {
      if k < p && g.parent[k] == -1 {
        assert k in Roots(f) - {n1};
      }
    }
  }

  /** The new node: its lighter part is at least as heavy as anything merged before. */
  lemma MergedWeight(f: Forest, alpha: nat, n1: nat, n2: nat)
    requires Growth(f, alpha) && Mergeable(f, alpha, n1, n2) && Dp(f.w[n1]) < 255 && Dp(f.w[n2]) < 255
    requires Wt(f.w[n1]) <= Wt(f.w[n2])
    ensures var z := AddWeights(f.w[n1], f.w[n2]);
      && Wt(z) == Wt(f.w[n1]) + Wt(f.w[n2]) && 1 <= Dp(z) && Wt(z) >= Fib(Dp(z) + 2)
      && Wt(f.w[n2]) >= Fib(Dp(z) + 1)
  {
    AddedFields(f.w[n1], f.w[n2]);
  }

  lemma MergeOld(f: Forest, alpha: nat, n1: nat, n2: nat, t: nat)
    requires Kin(f, alpha) && Mergeable(f, alpha, n1, n2) && alpha < t <= f.m && MadeOfLightest(f, t)
    ensures MadeOfLightest(Merge(f, n1, n2), t)
  {
    hide Wt, AddWeights;
    var g := Merge(f, n1, n2);
    assert f.left[t] < t && f.right[t] < t;
    forall j: nat {:trigger g.w[j]} | Open(g, t - 1, j) && j != g.left[t]
      ensures Wt(g.w[g.left[t]]) <= Wt(g.w[j]) && (j != g.right[t] ==> Wt(g.w[g.right[t]]) <= Wt(g.w[j]))
    {
      assert Open(f, t - 1, j) && g.w[j] == f.w[j];
    }
  }

  lemma MergeNew(f: Forest, alpha: nat, n1: nat, n2: nat)
    requires Kin(f, alpha) && Mergeable(f, alpha, n1, n2) && Dp(f.w[n1]) < 255 && Dp(f.w[n2]) < 255
    requires Lightest(f.w, n1, Roots(f)) && Lightest(f.w, n2, Roots(f) - {n1})
    ensures MadeOfLightest(Merge(f, n1, n2), f.m + 1)
  {
    var g, t := Merge(f, n1, n2), f.m + 1;
    AddedFields(f.w[n1], f.w[n2]);
    hide AddWeights, Dp;
    forall j: nat {:trigger g.w[j]} | Open(g, t - 1, j) && j != g.left[t]
      ensures Wt(g.w[g.left[t]]) <= Wt(g.w[j]) && (j != g.right[t] ==> Wt(g.w[g.right[t]]) <= Wt(g.w[j]))
    {
      assert f.parent[j] == -1;
      assert j in Roots(f) && g.w[j] == f.w[j];
    }
  }

  lemma MergeGreedy(f: Forest, alpha: nat, n1: nat, n2: nat)
    requires Kin(f, alpha) && Greedy(f, alpha)
    requires Mergeable(f, alpha, n1, n2) && Dp(f.w[n1]) < 255 && Dp(f.w[n2]) < 255
    requires Lightest(f.w, n1, Roots(f)) && Lightest(f.w, n2, Roots(f) - {n1})
    ensures Greedy(Merge(f, n1, n2), alpha)
  {
    hide MadeOfLightest;
    MergeNew(f, alpha, n1, n2);
    var g := Merge(f, n1, n2);
    forall t: nat | alpha < t <= g.m ensures MadeOfLightest(g, t) {
      if t <= f.m {
        assert g.left[t] == f.left[t];
        MergeOld(f, alpha, n1, n2, t);
      }
    }
  }

  ghost predicate Grown(f: Forest, alpha: nat, total: nat) {
    && Kin(f, alpha) && Heights(f, alpha) && Growth(f, alpha) && Greedy(f, alpha)
    && RootSum(f.parent, f.w, f.m) == total <= MAX_TOTAL
  }

  lemma FibBig(d: nat)
    requires d >= 33
    ensures Fib(d + 2) > MAX_TOTAL
  {
    FibValues();
    FibMono(35, d + 2);
  }

  /** The depth field never overflows its byte. */
  lemma DepthFits(f: Forest, alpha: nat, total: nat, k: nat)
    requires Grown(f, alpha, total) && 1 <= k <= f.m && f.parent[k] == -1
    ensures Dp(f.w[k]) < 33
  {
    RootSumHas(f.parent, f.w, f.m, k);
    if Dp(f.w[k]) >= 33 { FibBig(Dp(f.w[k])); }
  }

  /** The two lightest trees are different ones, and their depth fits. */
  lemma TakenRoots(f: Forest, alpha: nat, total: nat, n1: nat, n2: nat)
    requires Grown(f, alpha, total) && f.m + 1 < |f.w|
    requires Lightest(f.w, n1, Roots(f)) && Lightest(f.w, n2, Roots(f) - {n1})
    ensures Mergeable(f, alpha, n1, n2) && Dp(f.w[n1]) < 255 && Dp(f.w[n2]) < 255
  {
    hide Growth, Heights, RootSum, Greedy;
    assert n1 in Roots(f) && n2 in Roots(f);
    DepthFits(f, alpha, total, n1);
    DepthFits(f, alpha, total, n2);
  }

  /** Joining the two lightest trees keeps everything. */
  lemma MergeGrown(f: Forest, alpha: nat, total: nat, n1: nat, n2: nat)
    requires Grown(f, alpha, total) && f.m + 1 < |f.w|
    requires Lightest(f.w, n1, Roots(f)) && Lightest(f.w, n2, Roots(f) - {n1})
    ensures Mergeable(f, alpha, n1, n2) && Dp(f.w[n1]) < 255 && Dp(f.w[n2]) < 255
    ensures Grown(Merge(f, n1, n2), alpha, total)
    ensures Roots(Merge(f, n1, n2)) == Roots(f) - {n1} - {n2} + {f.m + 1}
  {
    hide Grown, Roots, Lightest, Merge;
    TakenRoots(f, alpha, total, n1, n2);
    JoinedGrown(f, alpha, total, n1, n2);
  }

  lemma JoinedGrown(f: Forest, alpha: nat, total: nat, n1: nat, n2: nat)
    requires Grown(f, alpha, total) && Mergeable(f, alpha, n1, n2) && Dp(f.w[n1]) < 255 && Dp(f.w[n2]) < 255
    requires Lightest(f.w, n1, Roots(f)) && Lightest(f.w, n2, Roots(f) - {n1})
    ensures Grown(Merge(f, n1, n2), alpha, total)
    ensures Roots(Merge(f, n1, n2)) == Roots(f) - {n1} - {n2} + {f.m + 1}
  {
    hide Kin, Heights, Growth, Greedy, Roots, RootSum, Lightest, Merge;
    MergeGreedy(f, alpha, n1, n2);
    MergeKin(f, alpha, n1, n2);
    MergeHeights(f, alpha, n1, n2);
    MergeRoots(f, alpha, n1, n2);
    MergeGrowth(f, alpha, n1, n2);
  }

  /** Steps from node `k` up to its root. */
  function Depth(parent: seq<int>, m: nat, k: nat): (d: nat)
    requires m < |parent| && 1 <= k <= m
    requires forall i {:trigger parent[i]} :: 1 <= i <= m && parent[i] != -1 ==> i < parent[i] <= m
    decreases m - k
  {
    if parent[k] == -1 then 0 else 1 + Depth(parent, m, parent[k])
  }

  /** One tree remains, rooted at the last node. */
  ghost predicate Single(f: Forest, alpha: nat) {
    && 2 <= alpha <= f.m && Kin(f, alpha) && Heights(f, alpha) && f.parent[f.m] == -1
    && forall k {:trigger f.parent[k]} :: 1 <= k < f.m ==> f.parent[k] != -1
  }

  /** Depth and height add up to at most the height of the whole tree. */
  lemma {:induction false} DepthBound(f: Forest, alpha: nat, k: nat)
    requires Single(f, alpha) && 1 <= k <= f.m
    ensures Depth(f.parent, f.m, k) + Dp(f.w[k]) <= Dp(f.w[f.m])
    decreases f.m - k
  {
    if k < f.m { DepthBound(f, alpha, f.parent[k]); }
  }

  /** What node `j` counts in the cut just above node `t`: 2^(L - depth) if its parent is above. */
  function Term(f: Forest, alpha: nat, L: nat, t: nat, j: nat): nat
    requires Single(f, alpha) && Dp(f.w[f.m]) <= L && 1 <= j <= f.m
  {
    DepthBound(f, alpha, j);
    if f.parent[j] == -1 || f.parent[j] > t then Shl(1, L - Depth(f.parent, f.m, j)) else 0
  }

  function FrontSum(f: Forest, alpha: nat, L: nat, t: nat, j: nat): nat
    requires Single(f, alpha) && Dp(f.w[f.m]) <= L && j <= t <= f.m
  {
    if j == 0 then 0 else FrontSum(f, alpha, L, t, j - 1) + Term(f, alpha, L, t, j)
  }

  lemma TermLower(f: Forest, alpha: nat, L: nat, t: nat, j: nat)
    requires Single(f, alpha) && Dp(f.w[f.m]) <= L && alpha < t <= f.m && 1 <= j < t
    ensures L > Depth(f.parent, f.m, t) && f.left[t] != f.right[t]
    ensures Term(f, alpha, L, t - 1, j) == Term(f, alpha, L, t, j)
      + (if j == f.left[t] || j == f.right[t] then Shl(1, L - Depth(f.parent, f.m, t) - 1) else 0)
  {
    DepthBound(f, alpha, f.left[t]);
    DepthBound(f, alpha, j);
    ParentIs(f, alpha, t, j);
  }

  /** Lowering the cut below node `t` exposes its two children. */
  lemma {:induction false} FrontLower(f: Forest, alpha: nat, L: nat, t: nat, j: nat)
    requires Single(f, alpha) && Dp(f.w[f.m]) <= L && alpha < t <= f.m && j < t
    requires 1 <= f.left[t] && 1 <= f.right[t] && L > Depth(f.parent, f.m, t)
    ensures FrontSum(f, alpha, L, t - 1, j) == FrontSum(f, alpha, L, t, j)
      + (if f.left[t] <= j then Shl(1, L - Depth(f.parent, f.m, t) - 1) else 0)
      + (if f.right[t] <= j then Shl(1, L - Depth(f.parent, f.m, t) - 1) else 0)
  {
    if j > 0 {
      TermLower(f, alpha, L, t, j);
      FrontLower(f, alpha, L, t, j - 1);
    }
  }

  lemma ParentIs(f: Forest, alpha: nat, t: nat, j: nat)
    requires Kin(f, alpha) && alpha < t <= f.m && 1 <= j < t
    ensures f.parent[j] == t <==> j == f.left[t] || j == f.right[t]
    ensures f.left[t] != f.right[t]
  {
  }

  lemma {:induction false} FrontTop(f: Forest, alpha: nat, L: nat, j: nat)
    requires Single(f, alpha) && Dp(f.w[f.m]) <= L && j <= f.m
    ensures FrontSum(f, alpha, L, f.m, j) == if j == f.m then Shl(1, L) else 0
  {
    if j > 0 { FrontTop(f, alpha, L, j - 1); }
  }

  lemma FrontStep(f: Forest, alpha: nat, L: nat, t: nat)
    requires Single(f, alpha) && Dp(f.w[f.m]) <= L && alpha < t <= f.m
    ensures FrontSum(f, alpha, L, t - 1, t - 1) == FrontSum(f, alpha, L, t, t)
  {
    FrontChildren(f, alpha, L, t);
    hide Term, Shl;
    FrontLower(f, alpha, L, t, t - 1);
  }

  /** The term of node `t` itself is what its two children count together. */
  lemma FrontChildren(f: Forest, alpha: nat, L: nat, t: nat)
    requires Single(f, alpha) && Dp(f.w[f.m]) <= L && alpha < t <= f.m
    ensures 1 <= f.left[t] < t && 1 <= f.right[t] < t && L > Depth(f.parent, f.m, t)
    ensures Term(f, alpha, L, t, t) == 2 * Shl(1, L - Depth(f.parent, f.m, t) - 1)
  {
    assert 1 <= f.left[t] < t && 1 <= f.right[t] < t;
    DepthBound(f, alpha, f.left[t]);
    var x := L - Depth(f.parent, f.m, t);
    assert Shl(1, x) == 2 * Shl(1, x - 1);
  }

  /** Every cut through the tree sums to the same. */
  lemma {:induction false} FrontConserved(f: Forest, alpha: nat, L: nat, t: nat)
    requires Single(f, alpha) && Dp(f.w[f.m]) <= L && alpha <= t <= f.m
    ensures FrontSum(f, alpha, L, t, t) == Shl(1, L)
    decreases f.m - t
  {
    if t == f.m {
      FrontTop(f, alpha, L, t);
    } else {
      FrontConserved(f, alpha, L, t + 1);
      FrontStep(f, alpha, L, t + 1);
    }
  }

  /** The code lengths are the leaves' depths. */
  ghost predicate LeafDepths(f: Forest, alpha: nat, lens: seq<nat>) {
    && Single(f, alpha) && |lens| == alpha
    && forall i {:trigger lens[i]} :: 0 <= i < alpha ==> lens[i] == Depth(f.parent, f.m, i + 1)
  }

  /** The Kraft sum, scaled by 2^L. */
  function Kraft(lens: seq<nat>, L: nat): nat
    requires forall i :: 0 <= i < |lens| ==> lens[i] <= L
  {
    if lens == [] then 0 else Kraft(lens[..|lens| - 1], L) + Shl(1, L - lens[|lens| - 1])
  }

  lemma {:induction false} KraftOfFront(f: Forest, alpha: nat, L: nat, lens: seq<nat>, j: nat)
    requires LeafDepths(f, alpha, lens) && Dp(f.w[f.m]) <= L && j <= alpha
    ensures forall i :: 0 <= i < |lens| ==> lens[i] <= L
    ensures Kraft(lens[..j], L) == FrontSum(f, alpha, L, alpha, j)
  {
    forall i | 0 <= i < |lens| ensures lens[i] <= L { DepthBound(f, alpha, i + 1); }
    if j > 0 {
      KraftOfFront(f, alpha, L, lens, j - 1);
      assert lens[..j][..j - 1] == lens[..j - 1];
      DepthBound(f, alpha, j);
      assert f.parent[j] != -1;
    }
  }

  lemma {:induction false} KraftDouble(lens: seq<nat>, L: nat)
    requires forall i :: 0 <= i < |lens| ==> lens[i] <= L
    ensures Kraft(lens, L + 1) == 2 * Kraft(lens, L)
  {
    if lens != [] { KraftDouble(lens[..|lens| - 1], L); }
  }

  /** The Kraft sum is exactly one at any scale or at none. */
  lemma {:induction false} KraftScale(lens: seq<nat>, L: nat, M: nat)
    requires L <= M && forall i :: 0 <= i < |lens| ==> lens[i] <= L
    ensures Kraft(lens, M) == Shl(1, M) <==> Kraft(lens, L) == Shl(1, L)
  {
    if L < M {
      KraftScale(lens, L, M - 1);
      KraftDouble(lens, M - 1);
    }
  }

  /** The lengths of a Huffman code use up the code space exactly. */
  lemma KraftExact(f: Forest, alpha: nat, lens: seq<nat>, L: nat)
    requires LeafDepths(f, alpha, lens) && forall i :: 0 <= i < |lens| ==> lens[i] <= L
    ensures Kraft(lens, L) == Shl(1, L)
    ensures forall i :: 0 <= i < |lens| ==> lens[i] >= 1
  {
    var h := Dp(f.w[f.m]);
    KraftOfFront(f, alpha, h, lens, alpha);
    FrontConserved(f, alpha, h, alpha);
    assert lens[..alpha] == lens;
    if h <= L { KraftScale(lens, h, L); } else { KraftScale(lens, L, h); }
    forall i | 0 <= i < |lens| ensures lens[i] >= 1 { assert f.parent[i + 1] != -1; }
  }
}
