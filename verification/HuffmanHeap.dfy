/** The heap macros of the code-length computation: entries 1..n, entry 0 a sentinel. */
module HuffmanHeap {
  import opened Counting

  /** Heap entries name nodes; `w` gives their weights. */
  ghost predicate Names(h: seq<nat>, w: seq<nat>, n: nat) {
    n < |h| && forall i {:trigger h[i]} :: 0 <= i <= n ==> h[i] < |w|
  }

  /** No entry is lighter than the one above it, except that entry `z` may be. */
  ghost predicate OrderedUp(h: seq<nat>, w: seq<nat>, n: nat, z: nat) {
    && Names(h, w, n) && (forall i {:trigger h[i]} :: 2 <= i <= n && i != z ==> w[h[i / 2]] <= w[h[i]])
    && (forall i {:trigger h[i]} :: 2 <= i <= n && i / 2 == z && z > 1 ==> w[h[z / 2]] <= w[h[i]])
  }

  /** No entry is lighter than the one above it, except that those below `z` may be. */
  ghost predicate OrderedDown(h: seq<nat>, w: seq<nat>, n: nat, z: nat) {
    && Names(h, w, n) && (forall i {:trigger h[i]} :: 2 <= i <= n && i / 2 != z ==> w[h[i / 2]] <= w[h[i]])
    && (forall i {:trigger h[i]} :: 2 <= i <= n && i / 2 == z && z > 1 ==> w[h[z / 2]] <= w[h[i]])
  }

  ghost predicate Ordered(h: seq<nat>, w: seq<nat>, n: nat) {
    Names(h, w, n) && forall i {:trigger h[i]} :: 2 <= i <= n ==> w[h[i / 2]] <= w[h[i]]
  }

  /** The first entry is the lightest. */
  lemma {:induction false} FirstLightest(h: seq<nat>, w: seq<nat>, n: nat, i: nat)
    requires Ordered(h, w, n) && 1 <= i <= n
    ensures w[h[1]] <= w[h[i]]
  {
    if i > 1 { FirstLightest(h, w, n, i / 2); }
  }

  /** Moving an entry one step: seen as a swap with the entry held back in `tmp`. */
  lemma MoveIsSwap(h: seq<nat>, i: nat, j: nat, tmp: nat)
    requires i < |h| && j < |h| && i != j
    ensures h[i := h[j]][j := tmp] == h[i := tmp][i := h[j]][j := tmp]
    ensures Perm(h[i := tmp], h[i := h[j]][j := tmp])
  {
    PermSwap(h[i := tmp], i, j);
  }

  lemma PermTrans(a: seq<int>, b: seq<int>, c: seq<int>)
    requires Perm(a, b) && Perm(b, c)
    ensures Perm(a, c)
  {
    forall x ensures Count(a, x) == Count(c, x) {
      assert Count(a, x) == Count(b, x);
    }
  }

  lemma StepUp(v: seq<nat>, w: seq<nat>, n: nat, z: nat)
    requires OrderedUp(v, w, n, z) && 1 < z <= n && w[v[z]] < w[v[z / 2]]
    ensures OrderedUp(v[z := v[z / 2]][z / 2 := v[z]], w, n, z / 2)
  {
    var p := z / 2;
    var u := v[z := v[p]][p := v[z]];
    forall i | 2 <= i <= n ensures
      && (i != p ==> w[u[i / 2]] <= w[u[i]])
      && (i / 2 == p && p > 1 ==> w[u[p / 2]] <= w[u[i]])
    {
      assert v[i] == v[i] && v[i / 2] == v[i / 2] && v[p] == v[p];
    }
  }

  lemma StepDown(v: seq<nat>, w: seq<nat>, n: nat, z: nat, y: nat)
    requires OrderedDown(v, w, n, z) && 1 <= z && y / 2 == z && 2 <= y <= n && w[v[y]] <= w[v[z]]
    requires forall i {:trigger v[i]} :: 2 <= i <= n && i / 2 == z ==> w[v[y]] <= w[v[i]]
    ensures OrderedDown(v[z := v[y]][y := v[z]], w, n, y)
  {
    var u := v[z := v[y]][y := v[z]];
    forall i | 2 <= i <= n ensures
      && (i / 2 != y ==> w[u[i / 2]] <= w[u[i]])
      && (i / 2 == y ==> w[u[y / 2]] <= w[u[i]])
    {
      assert v[i] == v[i] && v[i / 2] == v[i / 2];
    }
  }

  /** `UPHEAP` under way: `tmp` is held back, `zz` is where it would go. */
  ghost predicate Rising(h0: seq<nat>, h: seq<nat>, w: seq<nat>, n: nat, zz: nat, tmp: nat) {
    && 1 <= zz <= n < |h| && |h| == |h0| && h[0] == 0 && h[n + 1..] == h0[n + 1..]
    && OrderedUp(h[zz := tmp], w, n, zz) && Perm(h0, h[zz := tmp])
  }

  lemma RisingBounds(h0: seq<nat>, h: seq<nat>, w: seq<nat>, n: nat, zz: nat, tmp: nat)
    requires Rising(h0, h, w, n, zz, tmp)
    ensures tmp < |w| && h[zz / 2] < |w|
  {
    var v := h[zz := tmp];
    assert v[zz] == tmp && v[zz / 2] == h[zz / 2];
  }

  lemma RiseStep(h0: seq<nat>, h: seq<nat>, w: seq<nat>, n: nat, zz: nat, tmp: nat)
    requires Rising(h0, h, w, n, zz, tmp) && |w| > 0 && w[0] == 0
    requires tmp < |w| && h[zz / 2] < |w| && w[tmp] < w[h[zz / 2]]
    ensures zz > 1 && Rising(h0, h[zz := h[zz / 2]], w, n, zz / 2, tmp)
  {
    StepUp(h[zz := tmp], w, n, zz);
    MoveIsSwap(h, zz, zz / 2, tmp);
    PermTrans(h0, h[zz := tmp], h[zz := h[zz / 2]][zz / 2 := tmp]);
  }

  lemma RiseEnd(h0: seq<nat>, h: seq<nat>, w: seq<nat>, n: nat, zz: nat, tmp: nat)
    requires Rising(h0, h, w, n, zz, tmp) && tmp < |w| && h[zz / 2] < |w| && w[tmp] >= w[h[zz / 2]]
    ensures Ordered(h[zz := tmp], w, n) && Perm(h0, h[zz := tmp])
    ensures h[zz := tmp][0] == 0 && h[zz := tmp][n + 1..] == h0[n + 1..]
  {
  }

  /** `UPHEAP(z)` */
  method UpHeap(heap: array<nat>, weight: array<nat>, z: nat, ghost n: nat, ghost w: seq<nat>)
    requires heap != weight && 1 <= z <= n && weight[..] == w && OrderedUp(heap[..], w, n, z)
    requires heap[0] == 0 && |w| > 0 && w[0] == 0
    modifies heap
    ensures Ordered(heap[..], w, n) && Perm(old(heap[..]), heap[..]) && heap[0] == 0
    ensures heap[n + 1..] == old(heap[n + 1..])
  {
    ghost var h0, h := heap[..], heap[..];
    var zz: nat, tmp: nat := z, heap[z];
    assert h0[z := tmp] == h0;
    RisingBounds(h0, h, w, n, zz, tmp);
    while weight[tmp] < weight[heap[zz / 2]]
      invariant heap[..] == h && weight[..] == w && Rising(h0, h, w, n, zz, tmp) && tmp < |w| && h[zz / 2] < |w|
      decreases zz
    {
      RiseStep(h0, h, w, n, zz, tmp);
      heap[zz] := heap[zz / 2];
      h := h[zz := h[zz / 2]];
      zz := zz / 2;
      RisingBounds(h0, h, w, n, zz, tmp);
    }
    RiseEnd(h0, h, w, n, zz, tmp);
    heap[zz] := tmp;
    assert heap[..] == h[zz := tmp];
  }

  /** `DOWNHEAP` under way. */
  ghost predicate Sinking(h0: seq<nat>, h: seq<nat>, w: seq<nat>, n: nat, zz: nat, tmp: nat) {
    && 1 <= zz && n < |h| && |h| == |h0| && h[0] == h0[0] && h[n + 1..] == h0[n + 1..]
    && (zz <= n || (n == 0 && zz == 1 < |h| && h == h0 && tmp == h[1]))
    && OrderedDown(h[zz := tmp], w, n, zz) && Perm(h0, h[zz := tmp])
  }

  lemma SinkingBounds(h0: seq<nat>, h: seq<nat>, w: seq<nat>, n: nat, zz: nat, tmp: nat, y: nat)
    requires Sinking(h0, h, w, n, zz, tmp) && 1 <= y <= n && y != zz
    ensures tmp < |w| && h[y] < |w|
  {
    var v := h[zz := tmp];
    assert v[zz] == tmp && v[y] == h[y];
  }

  /** `yy` is the lighter of the two entries below `zz`. */
  ghost predicate Lighter(h: seq<nat>, w: seq<nat>, n: nat, zz: nat, yy: nat) {
    && n < |h| && 2 <= yy <= n && yy / 2 == zz && h[yy] < |w|
    && (2 * zz <= n ==> h[2 * zz] < |w| && w[h[yy]] <= w[h[2 * zz]])
    && (2 * zz + 1 <= n ==> h[2 * zz + 1] < |w| && w[h[yy]] <= w[h[2 * zz + 1]])
  }

  lemma SinkStep(h0: seq<nat>, h: seq<nat>, w: seq<nat>, n: nat, zz: nat, yy: nat, tmp: nat)
    requires Sinking(h0, h, w, n, zz, tmp) && Lighter(h, w, n, zz, yy) && tmp < |w| && w[tmp] >= w[h[yy]]
    ensures Sinking(h0, h[zz := h[yy]], w, n, yy, tmp)
  {
    var v := h[zz := tmp];
    assert v[yy] == h[yy];
    forall i {:trigger v[i]} | 2 <= i <= n && i / 2 == zz ensures w[v[yy]] <= w[v[i]] {
      assert i == 2 * zz || i == 2 * zz + 1;
    }
    StepDown(v, w, n, zz, yy);
    MoveIsSwap(h, zz, yy, tmp);
    PermTrans(h0, v, h[zz := h[yy]][yy := tmp]);
  }

  lemma SinkEnd(h0: seq<nat>, h: seq<nat>, w: seq<nat>, n: nat, zz: nat, yy: nat, tmp: nat)
    requires Sinking(h0, h, w, n, zz, tmp)
    requires 2 * zz > n || (Lighter(h, w, n, zz, yy) && tmp < |w| && w[tmp] < w[h[yy]])
    ensures Ordered(h[zz := tmp], w, n) && Perm(h0, h[zz := tmp])
    ensures h[zz := tmp][0] == h0[0] && h[zz := tmp][n + 1..] == h0[n + 1..]
  {
    var v := h[zz := tmp];
    if n == 0 {
      assert v == h;
    } else {
      assert v[n + 1..] == h[n + 1..];
      forall i {:trigger v[i]} | 2 <= i <= n ensures w[v[i / 2]] <= w[v[i]] {
        if i / 2 == zz { assert i == 2 * zz || i == 2 * zz + 1; }
      }
    }
  }

  method PickChild(heap: array<nat>, weight: array<nat>, nHeap: nat, zz: nat, ghost h0: seq<nat>, ghost tmp: nat,
        ghost w: seq<nat>)
    returns (yy: nat)
    requires 2 * zz <= nHeap && weight[..] == w && Sinking(h0, heap[..], w, nHeap, zz, tmp)
    ensures Lighter(heap[..], w, nHeap, zz, yy) && tmp < |w|
  {
    yy := 2 * zz;
    SinkingBounds(h0, heap[..], w, nHeap, zz, tmp, yy);
    if yy < nHeap {
      SinkingBounds(h0, heap[..], w, nHeap, zz, tmp, yy + 1);
      if weight[heap[yy + 1]] < weight[heap[yy]] { yy := yy + 1; }
    }
  }

  /** `DOWNHEAP(1)` */
  method DownHeap(heap: array<nat>, weight: array<nat>, nHeap: nat, ghost w: seq<nat>)
    requires heap != weight && heap.Length > 1 && weight[..] == w && OrderedDown(heap[..], w, nHeap, 1)
    modifies heap
    ensures Ordered(heap[..], w, nHeap) && Perm(old(heap[..]), heap[..]) && heap[0] == old(heap[0])
    ensures heap[nHeap + 1..] == old(heap[nHeap + 1..])
  {
    ghost var h0, h := heap[..], heap[..];
    var zz: nat, tmp: nat := 1, heap[1];
    assert h0[1 := tmp] == h0;
    while true
      invariant heap[..] == h && weight[..] == w && Sinking(h0, h, w, nHeap, zz, tmp)
      decreases nHeap - zz
    {
      var yy := 2 * zz;
      if yy > nHeap {
        SinkEnd(h0, h, w, nHeap, zz, yy, tmp);
        break;
      }
      yy := PickChild(heap, weight, nHeap, zz, h0, tmp, w);
      if weight[tmp] < weight[heap[yy]] {
        SinkEnd(h0, h, w, nHeap, zz, yy, tmp);
        break;
      }
      SinkStep(h0, h, w, nHeap, zz, yy, tmp);
      heap[zz] := heap[yy];
      h := h[zz := h[yy]];
      zz := yy;
    }
    heap[zz] := tmp;
    assert heap[..] == h[zz := tmp];
  }

  /** The nodes in the heap. */
  function Live(h: seq<nat>, n: nat): seq<nat>
    requires n < |h|
  {
    h[1..n + 1]
  }

  lemma LiveCount(h: seq<nat>, h': seq<nat>, n: nat, c: int)
    requires n < |h| == |h'| && h[0] == h'[0] && h[n + 1..] == h'[n + 1..] && Perm(h, h')
    ensures Count(Live(h, n), c) == Count(Live(h', n), c)
  {
    assert h == h[..1] + Live(h, n) + h[n + 1..];
    assert h' == h'[..1] + Live(h', n) + h'[n + 1..];
    assert h[..1] == h'[..1];
    assert Count(h, c) == Count(h', c);
    CountConcat(h[..1] + Live(h, n), h[n + 1..], c);
    CountConcat(h[..1], Live(h, n), c);
    CountConcat(h'[..1] + Live(h', n), h'[n + 1..], c);
    CountConcat(h'[..1], Live(h', n), c);
  }

  /** The heap holds exactly the nodes in `s`, each once. */
  ghost predicate Holds(h: seq<nat>, n: nat, s: set<nat>) {
    n < |h| && forall c: nat {:trigger Count(Live(h, n), c)} :: Count(Live(h, n), c) == if c in s then 1 else 0
  }

  lemma HoldsPerm(h: seq<nat>, h': seq<nat>, n: nat, s: set<nat>)
    requires n < |h| == |h'| && h[0] == h'[0] && h[n + 1..] == h'[n + 1..] && Perm(h, h') && Holds(h, n, s)
    ensures Holds(h', n, s)
  {
    forall c: nat ensures Count(Live(h', n), c) == if c in s then 1 else 0 {
      LiveCount(h, h', n, c);
    }
  }

  lemma HoldsEntry(h: seq<nat>, n: nat, s: set<nat>, i: nat)
    requires Holds(h, n, s) && 1 <= i <= n
    ensures h[i] in s
  {
    assert Live(h, n)[i - 1] == h[i];
    CountPositive(Live(h, n), h[i]);
  }

  lemma HoldsFind(h: seq<nat>, n: nat, s: set<nat>, c: nat) returns (i: nat)
    requires Holds(h, n, s) && c in s
    ensures 1 <= i <= n && h[i] == c
  {
    CountPositive(Live(h, n), c);
    var j :| 0 <= j < n && Live(h, n)[j] == c;
    i := j + 1;
  }

  /** Taking the first entry out by putting the last in its place. */
  lemma HoldsPop(h: seq<nat>, n: nat, s: set<nat>)
    requires Holds(h, n, s) && n > 0
    ensures Holds(h[1 := h[n]], n - 1, s - {h[1]})
  {
    var l, u := Live(h, n), Live(h[1 := h[n]], n - 1);
    forall c: nat ensures Count(u, c) == if c in s - {h[1]} then 1 else 0 {
      CountUpdate(l, 0, h[n], c);
      assert l[0 := h[n]][..n - 1] == u;
      assert l[0 := h[n]][n - 1] == h[n];
      assert Count(l, c) == if c in s then 1 else 0;
    }
  }

  lemma HoldsPush(h: seq<nat>, n: nat, s: set<nat>, x: nat)
    requires Holds(h, n, s) && n + 1 < |h| && x !in s
    ensures Holds(h[n + 1 := x], n + 1, s + {x})
  {
    var l, u := Live(h, n), Live(h[n + 1 := x], n + 1);
    assert u[..n] == l && u[n] == x;
    forall c: nat ensures Count(u, c) == if c in s + {x} then 1 else 0 {
      assert Count(l, c) == if c in s then 1 else 0;
    }
  }

  lemma OrderedPop(h: seq<nat>, w: seq<nat>, n: nat)
    requires Ordered(h, w, n) && n > 0
    ensures OrderedDown(h[1 := h[n]], w, n - 1, 1)
  {
    var v := h[1 := h[n]];
    forall i {:trigger v[i]} | 2 <= i <= n - 1 && i / 2 != 1 ensures w[v[i / 2]] <= w[v[i]] {
      assert h[i] == v[i];
    }
  }

  lemma OrderedPush(h: seq<nat>, w: seq<nat>, n: nat, x: nat)
    requires Ordered(h, w, n) && n + 1 < |h| && x < |w|
    ensures OrderedUp(h[n + 1 := x], w, n + 1, n + 1)
  {
    var v := h[n + 1 := x];
    forall i {:trigger v[i]} | 2 <= i <= n + 1 && i != n + 1 ensures w[v[i / 2]] <= w[v[i]] {
      assert h[i] == v[i];
    }
  }

  ghost predicate HeapOf(h: seq<nat>, w: seq<nat>, n: nat, s: set<nat>) {
    Ordered(h, w, n) && Holds(h, n, s) && h[0] == 0 && 0 < |w| && w[0] == 0
  }

  lemma HeapAfter(h: seq<nat>, h': seq<nat>, w: seq<nat>, n: nat, s: set<nat>)
    requires n < |h| == |h'| && h[0] == h'[0] == 0 && h[n + 1..] == h'[n + 1..] && Perm(h, h')
    requires Holds(h, n, s) && Ordered(h', w, n) && 0 < |w| && w[0] == 0
    ensures HeapOf(h', w, n, s)
  {
    HoldsPerm(h, h', n, s);
  }

  ghost predicate Lightest(w: seq<nat>, x: nat, s: set<nat>) {
    x < |w| && x in s && forall y {:trigger w[y]} :: y in s ==> y < |w| && w[x] <= w[y]
  }

  lemma PopReady(h: seq<nat>, w: seq<nat>, k: nat, s: set<nat>)
    requires HeapOf(h, w, k + 1, s)
    ensures Lightest(w, h[1], s)
    ensures Holds(h[1 := h[k + 1]], k, s - {h[1]}) && OrderedDown(h[1 := h[k + 1]], w, k, 1)
  {
    var n := k + 1;
    HoldsEntry(h, n, s, 1);
    forall y | y in s ensures y < |w| && w[h[1]] <= w[y] {
      var i := HoldsFind(h, n, s, y);
      FirstLightest(h, w, n, i);
    }
    HoldsPop(h, n, s);
    OrderedPop(h, w, n);
  }

  /** `n1 = heap[1]; heap[1] = heap[nHeap]; nHeap--; DOWNHEAP(1);` takes a lightest node and leaves `k`. */
  method Pop(heap: array<nat>, weight: array<nat>, k: nat, ghost w: seq<nat>, ghost s: set<nat>) returns (x: nat)
    requires heap != weight && weight[..] == w && HeapOf(heap[..], w, k + 1, s)
    modifies heap
    ensures HeapOf(heap[..], w, k, s - {x}) && Lightest(w, x, s)
  {
    ghost var h := heap[..];
    PopReady(h, w, k, s);
    x := heap[1];
    heap[1] := heap[k + 1];
    ghost var h1 := heap[..];
    assert h1 == h[1 := h[k + 1]];
    DownHeap(heap, weight, k, w);
    HeapAfter(h1, heap[..], w, k, s - {x});
  }

  lemma PushReady(h: seq<nat>, w: seq<nat>, n: nat, x: nat, s: set<nat>)
    requires HeapOf(h, w, n, s) && n + 1 < |h| && x < |w| && x !in s
    ensures Holds(h[n + 1 := x], n + 1, s + {x}) && OrderedUp(h[n + 1 := x], w, n + 1, n + 1)
  {
    HoldsPush(h, n, s, x);
    OrderedPush(h, w, n, x);
  }

  /** `nHeap++; heap[nHeap] = x; UPHEAP(nHeap);` */
  method Push(heap: array<nat>, weight: array<nat>, nHeap: nat, x: nat, ghost w: seq<nat>, ghost s: set<nat>)
    requires heap != weight && nHeap + 1 < heap.Length && weight[..] == w && HeapOf(heap[..], w, nHeap, s)
    requires x < |w| && x !in s
    modifies heap
    ensures HeapOf(heap[..], w, nHeap + 1, s + {x})
  {
    var n := nHeap + 1;
    ghost var h := heap[..];
    PushReady(h, w, nHeap, x, s);
    heap[n] := x;
    ghost var h1 := heap[..];
    assert h1 == h[n := x];
    assert h1[0] == 0;
    UpHeap(heap, weight, n, n, w);
    HeapAfter(h1, heap[..], w, n, s + {x});
  }
}
