/** `BZ2_hbMakeCodeLengths` */
module HuffmanLengths {
  import opened Bits
  import opened HuffmanHeap
  import opened HuffmanForest
  import opened HuffmanOptimal

  const MAX_ALPHA := 258

  ghost predicate Apart(a: object, b: object) {
    a != b
  }

  /** Leaves carry weights of at least one and no depth. */
  ghost predicate Leaves(w: seq<nat>, alpha: nat) {
    alpha < |w| && forall i {:trigger w[i]} :: 1 <= i <= alpha ==> Wt(w[i]) >= 1 && Dp(w[i]) == 0
  }

  function LeafSum(w: seq<nat>, j: nat): nat
    requires j < |w|
  {
    if j == 0 then 0 else LeafSum(w, j - 1) + Wt(w[j])
  }

  ghost predicate SameLeaves(w: seq<nat>, w': seq<nat>, alpha: nat) {
    alpha < |w| && alpha < |w'| && forall i {:trigger w'[i]} :: 1 <= i <= alpha ==> w'[i] == w[i]
  }

  lemma SameTrans(u: seq<nat>, v: seq<nat>, w: seq<nat>, alpha: nat)
    requires SameLeaves(u, v, alpha) && SameLeaves(v, w, alpha)
    ensures SameLeaves(u, w, alpha)
  {
    forall i {:trigger w[i]} | 1 <= i <= alpha ensures w[i] == u[i] { assert v[i] == u[i]; }
  }

  lemma {:induction false} LeafSumLocal(w: seq<nat>, w': seq<nat>, j: nat)
    requires SameLeaves(w, w', j)
    ensures LeafSum(w', j) == LeafSum(w, j)
  {
    if j > 0 {
      assert w'[j] == w[j];
      LeafSumLocal(w, w', j - 1);
    }
  }

  function Nodes(j: nat): (s: set<nat>)
    ensures forall k: nat {:trigger k in s} :: k in s <==> 1 <= k <= j
  {
    if j == 0 then {} else Nodes(j - 1) + {j}
  }

  /** The forest of leaves. */
  function Seedlings(parent: seq<int>, w: seq<nat>, alpha: nat): Forest {
    Forest(parent, w, seq(|w|, i => 0), seq(|w|, i => 0), alpha, 0)
  }

  lemma {:induction false} SeedSum(parent: seq<int>, w: seq<nat>, j: nat)
    requires j < |w| == |parent| && forall k {:trigger parent[k]} :: 1 <= k <= j ==> parent[k] == -1
    ensures RootSum(parent, w, j) == LeafSum(w, j)
  {
    if j > 0 { SeedSum(parent, w, j - 1); }
  }

  lemma SeedGrown(parent: seq<int>, w: seq<nat>, alpha: nat)
    requires Leaves(w, alpha) && |parent| == |w| && LeafSum(w, alpha) <= MAX_TOTAL
    requires AllRoots(parent, alpha)
    ensures Grown(Seedlings(parent, w, alpha), alpha, LeafSum(w, alpha))
    ensures Roots(Seedlings(parent, w, alpha)) == Nodes(alpha)
  {
    SeedSum(parent, w, alpha);
    assert Fib(2) == 1;
  }

  /** Filling the heap with the leaves. */
  method Plant(heap: array<nat>, weight: array<nat>, parent: array<int>, alphaSize: nat) returns (nHeap: nat)
    requires heap != weight && Apart(heap, parent) && Apart(weight, parent)
    requires heap.Length == MAX_ALPHA + 2 && weight.Length == parent.Length == 2 * MAX_ALPHA
    requires 2 <= alphaSize <= MAX_ALPHA
    modifies heap, weight, parent
    ensures nHeap == alphaSize && weight[..] == old(weight[..])[0 := 0]
    ensures HeapOf(heap[..], weight[..], nHeap, Nodes(alphaSize))
    ensures AllRoots(parent[..], alphaSize)
  {
    heap[0] := 0;
    weight[0] := 0;
    parent[0] := -2;
    ghost var w, ps := weight[..], parent[..];
    assert Live(heap[..], 0) == [];
    nHeap := 0;
    while nHeap < alphaSize
      invariant 0 <= nHeap <= alphaSize && weight[..] == w && HeapOf(heap[..], w, nHeap, Nodes(nHeap))
      invariant parent[..] == ps && AllRoots(ps, nHeap)
    {
      parent[nHeap + 1] := -1;
      RootsNext(ps, nHeap);
      ps := ps[nHeap + 1 := -1];
      Push(heap, weight, nHeap, nHeap + 1, w, Nodes(nHeap));
      nHeap := nHeap + 1;
    }
  }

  ghost predicate AllRoots(parent: seq<int>, j: nat) {
    j < |parent| && forall k {:trigger parent[k]} :: 1 <= k <= j ==> parent[k] == -1
  }

  lemma RootsNext(parent: seq<int>, j: nat)
    requires AllRoots(parent, j) && j + 1 < |parent|
    ensures AllRoots(parent[j + 1 := -1], j + 1)
  {
  }

  /** Weights of nodes outside the heap do not matter to it. */
  lemma HeapExtend(h: seq<nat>, w: seq<nat>, n: nat, s: set<nat>, p: nat, z: nat)
    requires HeapOf(h, w, n, s) && 0 < p < |w| && p !in s
    ensures HeapOf(h, w[p := z], n, s)
  {
    var v := w[p := z];
    forall i {:trigger h[i]} | 0 <= i <= n ensures h[i] != p {
      if i > 0 { HoldsEntry(h, n, s, i); }
    }
    forall i {:trigger h[i]} | 2 <= i <= n ensures v[h[i / 2]] <= v[h[i]] {
      assert h[i / 2] != p;
    }
  }

  /** The arrays hold the forest, the heap its roots. */
  ghost predicate Growing(f: Forest, alpha: nat, total: nat, h: seq<nat>, nHeap: nat) {
    && Grown(f, alpha, total) && HeapOf(h, f.w, nHeap, Roots(f)) && f.parent[f.m] == -1
    && f.m + nHeap == 2 * alpha && |f.w| == 2 * MAX_ALPHA && 2 <= alpha <= MAX_ALPHA && |h| == MAX_ALPHA + 2
  }

  /** The first half of a round: two lightest nodes leave the heap, and `k` remain. */
  method TakeTwo(heap: array<nat>, weight: array<nat>, k: nat, ghost w: seq<nat>, ghost s: set<nat>)
    returns (n1: nat, n2: nat)
    requires heap != weight && weight[..] == w && HeapOf(heap[..], w, k + 2, s)
    modifies heap
    ensures HeapOf(heap[..], w, k, s - {n1} - {n2}) && Lightest(w, n1, s) && Lightest(w, n2, s - {n1})
  {
    n1 := Pop(heap, weight, k + 1, w, s);
    n2 := Pop(heap, weight, k, w, s - {n1});
  }

  /** The second half: the new node joins them. */
  method Join(weight: array<nat>, parent: array<int>, nNodes: nat, n1: nat, n2: nat, ghost f: Forest)
    requires Apart(weight, parent) && weight[..] == f.w && parent[..] == f.parent && nNodes == f.m + 1 < |f.w|
    requires |f.parent| == |f.left| == |f.right| == |f.w| && n1 <= f.m && n2 <= f.m
    modifies weight, parent
    ensures weight[..] == Merge(f, n1, n2).w && parent[..] == Merge(f, n1, n2).parent
  {
    parent[n1] := nNodes;
    parent[n2] := nNodes;
    weight[nNodes] := AddWeights(weight[n1], weight[n2]);
    parent[nNodes] := -1;
  }

  /** The arrays hold a forest of `n` trees. */
  ghost predicate Trees(f: Forest, alpha: nat, total: nat, h: seq<nat>, n: nat) {
    f.m + n == 2 * alpha && Growing(f, alpha, total, h, n)
  }

  /** `Growing` but for the new root, which is not in the heap yet. */
  ghost predicate Joined(g: Forest, alpha: nat, total: nat, h: seq<nat>, nHeap: nat) {
    && Grown(g, alpha, total) && g.m > 0 && HeapOf(h, g.w, nHeap, Roots(g) - {g.m}) && g.parent[g.m] == -1
    && g.m + nHeap + 1 == 2 * alpha && |g.w| == 2 * MAX_ALPHA && 2 <= alpha <= MAX_ALPHA && |h| == MAX_ALPHA + 2
  }

  lemma JoinTaken(f: Forest, alpha: nat, total: nat, h0: seq<nat>, h: seq<nat>, nHeap: nat, n1: nat, n2: nat)
    requires Trees(f, alpha, total, h0, nHeap + 2) && |h| == |h0|
    requires Lightest(f.w, n1, Roots(f)) && Lightest(f.w, n2, Roots(f) - {n1})
    requires HeapOf(h, f.w, nHeap, Roots(f) - {n1} - {n2})
    ensures n1 <= f.m && n2 <= f.m && f.m + 1 < |f.w| && |f.parent| == |f.left| == |f.right| == |f.w|
    ensures Joined(Merge(f, n1, n2), alpha, total, h, nHeap)
    ensures SameLeaves(f.w, Merge(f, n1, n2).w, alpha)
  {
    MergeGrown(f, alpha, total, n1, n2);
    var g, s, p := Merge(f, n1, n2), Roots(f) - {n1} - {n2}, f.m + 1;
    HeapExtend(h, f.w, nHeap, s, p, g.w[p]);
    assert Roots(g) - {p} == s;
  }

  lemma PushJoined(g: Forest, alpha: nat, total: nat, h: seq<nat>, nHeap: nat, h': seq<nat>)
    requires Joined(g, alpha, total, h, nHeap) && |h'| == |h| && HeapOf(h', g.w, nHeap + 1, Roots(g) - {g.m} + {g.m})
    ensures Trees(g, alpha, total, h', nHeap + 1)
  {
    assert Roots(g) - {g.m} + {g.m} == Roots(g);
  }

  /** One round of the merging loop, which leaves `k + 1` nodes in the heap. */
  method MergeTwo(heap: array<nat>, weight: array<nat>, parent: array<int>, k: nat, nNodes: nat,
        ghost f: Forest, ghost alpha: nat, ghost total: nat)
    returns (ghost g: Forest)
    requires heap != weight && Apart(heap, parent) && Apart(weight, parent) && nNodes == f.m
    requires Trees(f, alpha, total, heap[..], k + 2) && weight[..] == f.w && parent[..] == f.parent
    modifies heap, weight, parent
    ensures Trees(g, alpha, total, heap[..], k + 1) && weight[..] == g.w && parent[..] == g.parent
    ensures nNodes + 1 == g.m && SameLeaves(f.w, g.w, alpha)
  {
    ghost var h0 := heap[..];
    var n1, n2 := TakeTwo(heap, weight, k, f.w, Roots(f));
    ghost var h := heap[..];
    JoinTaken(f, alpha, total, h0, h, k, n1, n2);
    g := Merge(f, n1, n2);
    ghost var w, s := g.w, Roots(g) - {g.m};
    Join(weight, parent, nNodes + 1, n1, n2, f);
    assert heap[..] == h && weight[..] == w;
    Push(heap, weight, k, nNodes + 1, w, s);
    PushJoined(g, alpha, total, h, k, heap[..]);
  }

  lemma LastRoot(f: Forest, alpha: nat, total: nat, h: seq<nat>)
    requires Trees(f, alpha, total, h, 1)
    ensures Single(f, alpha) && Greedy(f, alpha) && Fib(Dp(f.w[f.m]) + 2) <= total
  {
    assert f.m in Roots(f);
    var i := HoldsFind(h, 1, Roots(f), f.m);
    forall k {:trigger f.parent[k]} | 1 <= k < f.m ensures f.parent[k] != -1 {
      if f.parent[k] == -1 {
        assert k in Roots(f);
        var j := HoldsFind(h, 1, Roots(f), k);
      }
    }
    RootSumHas(f.parent, f.w, f.m, f.m);
    assert f.w[f.m] == f.w[f.m];
  }

  /** The merging loop. */
  method GrowTree(heap: array<nat>, weight: array<nat>, parent: array<int>, nHeap0: nat, nNodes0: nat,
        ghost f0: Forest, ghost alpha: nat, ghost total: nat)
    returns (ghost f: Forest)
    requires heap != weight && Apart(heap, parent) && Apart(weight, parent) && nNodes0 == f0.m && nHeap0 >= 1
    requires Trees(f0, alpha, total, heap[..], nHeap0) && weight[..] == f0.w && parent[..] == f0.parent
    modifies heap, weight, parent
    ensures Trees(f, alpha, total, heap[..], 1) && weight[..] == f.w && parent[..] == f.parent
    ensures SameLeaves(f0.w, f.w, alpha)
  {
    var nHeap, nNodes := nHeap0, nNodes0;
    f := f0;
    while nHeap > 1
      invariant 1 <= nHeap && nNodes == f.m && Trees(f, alpha, total, heap[..], nHeap)
      invariant weight[..] == f.w && parent[..] == f.parent && SameLeaves(f0.w, f.w, alpha)
    {
      ghost var g := f;
      f := MergeTwo(heap, weight, parent, nHeap - 2, nNodes, f, alpha, total);
      SameTrans(f0.w, g.w, f.w, alpha);
      nHeap, nNodes := nHeap - 1, nNodes + 1;
    }
  }

  /** Builds one tree over the leaves. Assertions 2001 and 2002 cannot fire. */
  method BuildTree(heap: array<nat>, weight: array<nat>, parent: array<int>, alphaSize: nat) returns (ghost f: Forest)
    requires heap != weight && Apart(heap, parent) && Apart(weight, parent)
    requires heap.Length == MAX_ALPHA + 2 && weight.Length == parent.Length == 2 * MAX_ALPHA
    requires 2 <= alphaSize <= MAX_ALPHA && Leaves(weight[..], alphaSize) && LeafSum(weight[..], alphaSize) <= MAX_TOTAL
    modifies heap, weight, parent
    ensures Single(f, alphaSize) && Greedy(f, alphaSize) && parent[..] == f.parent && weight[..] == f.w
    ensures Fib(Dp(f.w[f.m]) + 2) <= LeafSum(weight[..], alphaSize)
    ensures SameLeaves(old(weight[..]), f.w, alphaSize)
  {
    ghost var w0 := weight[..];
    var nHeap := Plant(heap, weight, parent, alphaSize);
    f := Seedlings(parent[..], weight[..], alphaSize);
    LeafSumLocal(w0, weight[..], alphaSize);
    ghost var total := LeafSum(w0, alphaSize);
    SeedGrown(parent[..], weight[..], alphaSize);
    f := GrowTree(heap, weight, parent, nHeap, alphaSize, f, alphaSize, total);
    LastRoot(f, alphaSize, total, heap[..]);
    LeafSumLocal(w0, f.w, alphaSize);
  }

  /** `while (parent[k] >= 0) { k = parent[k]; j++; }` */
  method Climb(parent: array<int>, i: nat, ghost alpha: nat, ghost f: Forest) returns (j: nat)
    requires Single(f, alpha) && parent[..] == f.parent && 1 <= i <= f.m
    ensures j == Depth(f.parent, f.m, i)
  {
    var k := i;
    j := 0;
    while parent[k] >= 0
      invariant 1 <= k <= f.m && j + Depth(f.parent, f.m, k) == Depth(f.parent, f.m, i)
      decreases f.m - k
    {
      k := parent[k];
      j := j + 1;
    }
  }

  /** Some code is longer than `maxLen`. */
  predicate Exceeds(lens: seq<nat>, maxLen: nat) {
    exists x :: 0 <= x < |lens| && lens[x] > maxLen
  }

  lemma ExceedsMore(lens: seq<nat>, j: nat, maxLen: nat)
    ensures Exceeds(lens + [j], maxLen) <==> Exceeds(lens, maxLen) || j > maxLen
  {
    var more := lens + [j];
    assert more[|lens|] == j;
    if Exceeds(lens, maxLen) {
      var x :| 0 <= x < |lens| && lens[x] > maxLen;
      assert more[x] > maxLen;
    }
  }

  /** Reads off the code lengths by climbing from every leaf. */
  method ReadLengths(parent: array<int>, alphaSize: nat, maxLen: nat, ghost f: Forest)
    returns (len: array<nat>, tooLong: bool)
    requires Single(f, alphaSize) && parent[..] == f.parent
    ensures fresh(len) && LeafDepths(f, alphaSize, len[..])
    ensures tooLong <==> Exceeds(len[..], maxLen)
    ensures tooLong ==> Dp(f.w[f.m]) > maxLen
  {
    len := new nat[alphaSize](i => 0);
    tooLong := false;
    for i := 1 to alphaSize + 1
      invariant DepthsRead(f, alphaSize, maxLen, len[..], i - 1, tooLong)
    {
      var j := Climb(parent, i, alphaSize, f);
      DepthsNext(f, alphaSize, maxLen, len[..], i - 1, tooLong);
      len[i - 1] := j;
      if j > maxLen { tooLong := true; }
    }
    assert len[..alphaSize] == len[..];
  }

  /** The first `n` lengths are read. */
  ghost predicate DepthsRead(f: Forest, alpha: nat, maxLen: nat, lens: seq<nat>, n: nat, tooLong: bool) {
    && Single(f, alpha) && n <= |lens| == alpha
    && (forall x {:trigger lens[x]} :: 0 <= x < n ==> lens[x] == Depth(f.parent, f.m, x + 1))
    && (tooLong <==> Exceeds(lens[..n], maxLen))
    && (tooLong ==> Dp(f.w[f.m]) > maxLen)
  }

  lemma DepthsNext(f: Forest, alpha: nat, maxLen: nat, lens: seq<nat>, n: nat, tooLong: bool)
    requires DepthsRead(f, alpha, maxLen, lens, n, tooLong) && n < alpha
    ensures var j := Depth(f.parent, f.m, n + 1);
      DepthsRead(f, alpha, maxLen, lens[n := j], n + 1, tooLong || j > maxLen)
  {
    var j := Depth(f.parent, f.m, n + 1);
    assert lens[n := j][..n + 1] == lens[..n] + [j];
    hide Exceeds;
    ExceedsMore(lens[..n], j, maxLen);
    DepthBound(f, alpha, n + 1);
  }

  /** `w` after the weights of the leaves are halved. */
  ghost predicate Halved(w: seq<nat>, w': seq<nat>, alpha: nat) {
    alpha < |w| == |w'| && forall i {:trigger w'[i]} :: 1 <= i <= alpha ==>
      Wt(w'[i]) == 1 + Wt(w[i]) / 2 && Dp(w'[i]) == 0
  }

  lemma {:induction false} HalvedSum(w: seq<nat>, w': seq<nat>, alpha: nat, j: nat)
    requires Halved(w, w', alpha) && Leaves(w, alpha) && j <= alpha
    ensures LeafSum(w', j) <= LeafSum(w, j)
    ensures LeafSum(w, j) > 2 * j ==> LeafSum(w', j) < LeafSum(w, j)
  {
    if j > 0 {
      HalvedSum(w, w', alpha, j - 1);
      assert w'[j] == w'[j] && w[j] == w[j];
    }
  }

  /** The loop that scales the counts down. */
  method Rescale(weight: array<nat>, alphaSize: nat)
    requires alphaSize < weight.Length && Leaves(weight[..], alphaSize)
    modifies weight
    ensures Halved(old(weight[..]), weight[..], alphaSize) && Leaves(weight[..], alphaSize)
  {
    ghost var w := weight[..];
    for i := 1 to alphaSize + 1
      invariant forall x {:trigger weight[x]} :: i <= x <= alphaSize ==> weight[x] == w[x]
      invariant forall x {:trigger weight[x]} :: 1 <= x < i ==> Wt(weight[x]) == 1 + Wt(w[x]) / 2 && Dp(weight[x]) == 0
    {
      var j := weight[i] / 256;
      j := 1 + j / 2;
      weight[i] := j * 256;
    }
  }

  /** A tree higher than `maxLen` is a heavy one; if that is 12 or more, it weighs more than its leaves at two each. */
  lemma HighIsHeavy(d: nat, maxLen: nat, total: nat)
    requires d > maxLen >= 12 && Fib(d + 2) <= total
    ensures total > 2 * MAX_ALPHA && total >= Fib(maxLen + 3)
  {
    FibValues();
    FibMono(15, d + 2);
    FibMono(maxLen + 3, d + 2);
  }

  /** What a symbol weighs that occurs `freq` times, after the weights have been scaled down `k` times. */
  function Scaled(freq: nat, k: nat): nat {
    if k == 0 then Raised(freq) else 1 + Scaled(freq, k - 1) / 2
  }

  function ScaledAll(freq: seq<nat>, k: nat): (ws: seq<nat>)
    ensures |ws| == |freq| && forall i :: 0 <= i < |ws| ==> ws[i] == Scaled(freq[i], k)
  {
    seq(|freq|, i requires 0 <= i < |freq| => Scaled(freq[i], k))
  }

  /** The leaves have the weights of the symbols, scaled down `k` times. */
  ghost predicate Weighs(w: seq<nat>, freq: seq<nat>, k: nat) {
    |freq| < |w| && forall i {:trigger w[i]} :: 1 <= i <= |freq| ==> Wt(w[i]) == Scaled(freq[i - 1], k)
  }

  lemma WeighsIs(w: seq<nat>, freq: seq<nat>, k: nat)
    requires Weighs(w, freq, k)
    ensures LeafWeights(w, |freq|) == ScaledAll(freq, k)
  {
    forall i | 0 <= i < |freq| ensures Wt(w[i + 1]) == Scaled(freq[i], k) {}
  }

  lemma HalvedWeighs(w: seq<nat>, w': seq<nat>, freq: seq<nat>, k: nat)
    requires Weighs(w, freq, k) && Halved(w, w', |freq|)
    ensures Weighs(w', freq, k + 1)
  {
    forall i {:trigger w'[i]} | 1 <= i <= |freq| ensures Wt(w'[i]) == Scaled(freq[i - 1], k + 1) {
      assert w[i] == w[i];
    }
  }

  /** The initial weights: `(freq[i] == 0 ? 1 : freq[i]) << 8` */
  method Weigh(freq: array<nat>, weight: array<nat>, alphaSize: nat)
    requires freq != weight && alphaSize <= freq.Length && alphaSize < weight.Length
    modifies weight
    ensures Leaves(weight[..], alphaSize) && LeafSum(weight[..], alphaSize) == FreqSum(freq[..], alphaSize)
    ensures Weighs(weight[..], freq[..alphaSize], 0)
  {
    ghost var q := freq[..];
    for i := 0 to alphaSize
      invariant freq[..] == q && forall x {:trigger weight[x]} :: 1 <= x <= i ==> weight[x] == Raised(q[x - 1]) * 256
    {
      weight[i + 1] := (if freq[i] == 0 then 1 else freq[i]) * 256;
    }
    FreqSumIs(q, weight[..], alphaSize);
    FreqWeighs(q, weight[..], alphaSize);
  }

  lemma FreqWeighs(freq: seq<nat>, w: seq<nat>, n: nat)
    requires n <= |freq| && n < |w| && forall x {:trigger w[x]} :: 1 <= x <= n ==> w[x] == Raised(freq[x - 1]) * 256
    ensures Leaves(w, n) && Weighs(w, freq[..n], 0)
  {
    forall x {:trigger w[x]} | 1 <= x <= n ensures Wt(w[x]) == Scaled(freq[..n][x - 1], 0) >= 1 && Dp(w[x]) == 0 {}
  }

  function Raised(freq: nat): nat {
    if freq == 0 then 1 else freq
  }

  function FreqSum(freq: seq<nat>, j: nat): nat
    requires j <= |freq|
  {
    if j == 0 then 0 else FreqSum(freq, j - 1) + Raised(freq[j - 1])
  }

  lemma {:induction false} FreqSumIs(freq: seq<nat>, w: seq<nat>, j: nat)
    requires j <= |freq| && j < |w| && forall x {:trigger w[x]} :: 1 <= x <= j ==> w[x] == Raised(freq[x - 1]) * 256
    ensures LeafSum(w, j) == FreqSum(freq, j)
  {
    if j > 0 {
      FreqSumIs(freq, w, j - 1);
      assert w[j] == Raised(freq[j - 1]) * 256;
    }
  }

  /** Lengths between 1 and `maxLen` that fill the code space exactly. */
  ghost predicate CompleteCode(lens: seq<nat>, maxLen: nat) {
    && (forall i :: 0 <= i < |lens| ==> 1 <= lens[i] <= maxLen)
    && Kraft(lens, maxLen) == Shl(1, maxLen)
  }

  lemma LeavesKept(w: seq<nat>, w': seq<nat>, alpha: nat)
    requires Leaves(w, alpha) && SameLeaves(w, w', alpha)
    ensures Leaves(w', alpha)
  {
  }

  lemma SameWeights(w: seq<nat>, w': seq<nat>, alpha: nat)
    requires SameLeaves(w, w', alpha)
    ensures LeafWeights(w', alpha) == LeafWeights(w, alpha)
  {
    var ws, ws' := LeafWeights(w, alpha), LeafWeights(w', alpha);
    forall i | 0 <= i < alpha ensures ws'[i] == ws[i] { assert w'[i + 1] == w[i + 1]; }
  }

  /** What the leaves' weights are scaled to if the tree is too high. */
  lemma ScaledDown(f: Forest, w0: seq<nat>, w1: seq<nat>, w2: seq<nat>, alpha: nat, maxLen: nat)
    requires Leaves(w0, alpha) && SameLeaves(w0, w1, alpha) && Halved(w1, w2, alpha) && |w0| == |w1|
    requires f.m < |f.w| && Dp(f.w[f.m]) > maxLen >= 12 && alpha <= MAX_ALPHA
    requires Fib(Dp(f.w[f.m]) + 2) <= LeafSum(w1, alpha)
    ensures Halved(w0, w2, alpha) && LeafSum(w2, alpha) < LeafSum(w0, alpha) && LeafSum(w0, alpha) >= Fib(maxLen + 3)
  {
    hide Wt, Dp, Fib;
    HighIsHeavy(Dp(f.w[f.m]), maxLen, LeafSum(w1, alpha));
    LeafSumLocal(w0, w1, alpha);
    LeavesKept(w0, w1, alpha);
    HalvedSum(w1, w2, alpha, alpha);
    forall i {:trigger w2[i]} | 1 <= i <= alpha ensures Wt(w2[i]) == 1 + Wt(w0[i]) / 2 && Dp(w2[i]) == 0 {
      assert w1[i] == w0[i];
    }
  }

  /** What the tree gives: a code that no other beats, and a complete one if it is not too long. */
  lemma TreeCode(f: Forest, w0: seq<nat>, alpha: nat, lens: seq<nat>, maxLen: nat)
    requires LeafDepths(f, alpha, lens) && Greedy(f, alpha) && SameLeaves(w0, f.w, alpha)
    ensures Optimal(lens, LeafWeights(w0, alpha)) && (!Exceeds(lens, maxLen) ==> CompleteCode(lens, maxLen))
  {
    hide Optimal, Greedy, Kraft, Shl;
    SameWeights(w0, f.w, alpha);
    TreeOptimal(f, alpha, lens);
    if !Exceeds(lens, maxLen) { KraftExact(f, alpha, lens, maxLen); }
  }

  /** A symbol that still weighs more than another after scaling has no longer a code. */
  lemma WeightierShorter(lens: seq<nat>, freq: seq<nat>, k: nat, maxLen: nat, i: nat, j: nat)
    requires Optimal(lens, ScaledAll(freq, k)) && CompleteCode(lens, maxLen) && i < |freq| && j < |freq|
    requires Scaled(freq[i], k) > Scaled(freq[j], k)
    ensures lens[i] <= lens[j]
  {
    HeavierShorter(lens, ScaledAll(freq, k), maxLen, i, j);
  }

  /**
   * One round of the outer loop: a code that no other beats for the weights there are. If one of its lengths is too
   * great, the weights are scaled down to a smaller total.
   */
  method TryLengths(heap: array<nat>, weight: array<nat>, parent: array<int>, alphaSize: nat, maxLen: nat)
    returns (len: array<nat>, tooLong: bool)
    requires heap != weight && Apart(heap, parent) && Apart(weight, parent)
    requires heap.Length == MAX_ALPHA + 2 && weight.Length == parent.Length == 2 * MAX_ALPHA
    requires 2 <= alphaSize <= MAX_ALPHA && maxLen >= 12
    requires Leaves(weight[..], alphaSize) && LeafSum(weight[..], alphaSize) <= MAX_TOTAL
    modifies heap, weight, parent
    ensures fresh(len) && len.Length == alphaSize && Optimal(len[..], LeafWeights(old(weight[..]), alphaSize))
    ensures tooLong <==> Exceeds(len[..], maxLen)
    ensures !tooLong ==> CompleteCode(len[..], maxLen)
    ensures tooLong ==> Halved(old(weight[..]), weight[..], alphaSize) && Leaves(weight[..], alphaSize)
    ensures tooLong ==> LeafSum(weight[..], alphaSize) < old(LeafSum(weight[..], alphaSize))
    ensures tooLong ==> old(LeafSum(weight[..], alphaSize)) >= Fib(maxLen + 3)
  {
    hide Wt, Dp, Fib, Exceeds, Optimal, Single, Greedy, LeafSum, CompleteCode, SameLeaves, Halved;
    ghost var w0 := weight[..];
    ghost var f := BuildTree(heap, weight, parent, alphaSize);
    ghost var w1 := weight[..];
    len, tooLong := ReadLengths(parent, alphaSize, maxLen, f);
    TreeCode(f, w0, alphaSize, len[..], maxLen);
    if tooLong {
      LeavesKept(w0, w1, alphaSize);
      assert weight[..] == w1;
      Rescale(weight, alphaSize);
      ScaledDown(f, w0, w1, weight[..], alphaSize, maxLen);
    }
  }

  /** The codes in `tried` are each the best for the weights scaled down once more than for the one before. */
  ghost predicate Tried(tried: seq<seq<nat>>, freq: seq<nat>, maxLen: nat) {
    forall k {:trigger tried[k]} :: 0 <= k < |tried| ==>
      Optimal(tried[k], ScaledAll(freq, k)) && Exceeds(tried[k], maxLen)
  }

  /**
   * `BZ2_hbMakeCodeLengths` terminates: an overlong code means a tree too heavy for all leaves to weigh at most
   * two, so scaling lowers the total. No code beats the one it makes, for the frequencies scaled down as often as the
   * best code was too long; which it never is unless they add up to `Fib(maxLen + 3)`.
   */
  method MakeCodeLengths(freq: array<nat>, alphaSize: nat, maxLen: nat)
    returns (len: array<nat>, ghost tried: seq<seq<nat>>)
    requires 2 <= alphaSize <= MAX_ALPHA && alphaSize <= freq.Length && maxLen >= 12
    requires FreqSum(freq[..], alphaSize) <= MAX_TOTAL
    ensures fresh(len) && len.Length == alphaSize && CompleteCode(len[..], maxLen)
    ensures Optimal(len[..], ScaledAll(freq[..alphaSize], |tried|)) && Tried(tried, freq[..alphaSize], maxLen)
    ensures FreqSum(freq[..], alphaSize) < Fib(maxLen + 3) ==> tried == []
  {
    hide Wt, Dp, Fib, Exceeds, Optimal, LeafSum, CompleteCode, Halved, Leaves, FreqSum, Weighs, ScaledAll;
    var heap := new nat[MAX_ALPHA + 2](i => 0);
    var weight := new nat[2 * MAX_ALPHA](i => 0);
    var parent := new int[2 * MAX_ALPHA](i => 0);
    Weigh(freq, weight, alphaSize);
    ghost var q, all := freq[..alphaSize], freq[..];
    tried := [];
    while true
      invariant freq[..alphaSize] == q && freq[..] == all && Weighs(weight[..], q, |tried|) && Tried(tried, q, maxLen)
      invariant Leaves(weight[..], alphaSize) && LeafSum(weight[..], alphaSize) <= MAX_TOTAL
      invariant if tried == [] then LeafSum(weight[..], alphaSize) == FreqSum(all, alphaSize)
        else FreqSum(all, alphaSize) >= Fib(maxLen + 3)
      decreases LeafSum(weight[..], alphaSize)
    {
      ghost var w := weight[..];
      WeighsIs(w, q, |tried|);
      var tooLong;
      len, tooLong := TryLengths(heap, weight, parent, alphaSize, maxLen);
      if !tooLong { break; }
      HalvedWeighs(w, weight[..], q, |tried|);
      tried := tried + [len[..]];
    }
  }
}
