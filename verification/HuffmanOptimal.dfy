/** No code is shorter than the one whose lengths are the depths of a tree made by merging the two lightest. */
module HuffmanOptimal {
  import opened Bits
  import opened HuffmanForest

  /** The bits spent on symbols that occur `ws[i]` times each, with codes of the given lengths. */
  function Total(ws: seq<nat>, lens: seq<nat>): nat
    requires |lens| == |ws|
  {
    if ws == [] then 0
    else Total(ws[..|ws| - 1], lens[..|lens| - 1]) + ws[|ws| - 1] * lens[|lens| - 1]
  }

  /** Lengths up to `L` of a code that fits the code space: their Kraft sum is at most one. */
  ghost predicate Fitting(lens: seq<nat>, L: nat) {
    (forall i :: 0 <= i < |lens| ==> lens[i] <= L) && Kraft(lens, L) <= Shl(1, L)
  }

  /** No code that fits spends fewer bits on these symbols. */
  ghost predicate Optimal(lens: seq<nat>, ws: seq<nat>) {
    |lens| == |ws| && forall other: seq<nat>, L: nat {:trigger Fitting(other, L)} ::
      |other| == |ws| && Fitting(other, L) ==> Total(ws, lens) <= Total(ws, other)
  }

  // Sums over the roots that there were when node `t` had been made, of lengths `x` given to nodes.

  function Bit(f: Forest, x: seq<nat>, t: nat, j: nat): nat
    requires j < |f.w| && j < |x|
  {
    if Open(f, t, j) then Wt(f.w[j]) * x[j] else 0
  }

  function Cost(f: Forest, x: seq<nat>, t: nat, j: nat): nat
    requires j < |f.w| && j < |x|
  {
    if j == 0 then 0 else Cost(f, x, t, j - 1) + Bit(f, x, t, j)
  }

  function Part(f: Forest, x: seq<nat>, L: nat, t: nat, j: nat): nat
    requires j < |x|
  {
    if Open(f, t, j) && x[j] <= L then Shl(1, L - x[j]) else 0
  }

  function Space(f: Forest, x: seq<nat>, L: nat, t: nat, j: nat): nat
    requires j < |x|
  {
    if j == 0 then 0 else Space(f, x, L, t, j - 1) + Part(f, x, L, t, j)
  }

  /** No open node is deeper than `L`. */
  ghost predicate Within(f: Forest, x: seq<nat>, L: nat, t: nat) {
    t < |x| && forall j {:trigger x[j]} :: 1 <= j <= t && Open(f, t, j) ==> x[j] <= L
  }

  lemma {:induction false} CostUpdate(f: Forest, x: seq<nat>, t: nat, j: nat, i: nat, v: nat)
    requires j < |f.w| && j < |x| && 1 <= i < |x| && i < |f.w|
    ensures Cost(f, x[i := v], t, j) + (if i <= j then Bit(f, x, t, i) else 0)
      == Cost(f, x, t, j) + (if i <= j then Bit(f, x[i := v], t, i) else 0)
  {
    if j > 0 {
      CostUpdate(f, x, t, j - 1, i, v);
      hide Bit;
      if j != i { SameBit(f, x, t, j, i, v); }
    }
  }

  lemma SameBit(f: Forest, x: seq<nat>, t: nat, j: nat, i: nat, v: nat)
    requires j < |f.w| && j < |x| && i < |x| && i != j
    ensures Bit(f, x[i := v], t, j) == Bit(f, x, t, j)
  {
  }

  lemma {:induction false} SpaceUpdate(f: Forest, x: seq<nat>, L: nat, t: nat, j: nat, i: nat, v: nat)
    requires j < |x| && 1 <= i < |x|
    ensures Space(f, x[i := v], L, t, j) + (if i <= j then Part(f, x, L, t, i) else 0)
      == Space(f, x, L, t, j) + (if i <= j then Part(f, x[i := v], L, t, i) else 0)
  {
    if j > 0 {
      SpaceUpdate(f, x, L, t, j - 1, i, v);
      if j != i { assert Part(f, x[i := v], L, t, j) == Part(f, x, L, t, j); }
    }
  }

  // Exchanging the lengths of two open nodes.

  function Exchanged(x: seq<nat>, i: nat, a: nat): (y: seq<nat>)
    requires i < |x| && a < |x|
    ensures |y| == |x|
  {
    x[i := x[a]][a := x[i]]
  }

  lemma Products(w1: nat, w2: nat, x1: nat, x2: nat)
    requires w1 <= w2 && x1 <= x2
    ensures w1 * x2 + w2 * x1 <= w1 * x1 + w2 * x2
  {
    assert (w2 - w1) * (x2 - x1) >= 0;
  }

  /** Giving the greater length to the lighter node saves bits. */
  lemma ExchangeCheaper(f: Forest, x: seq<nat>, L: nat, t: nat, i: nat, a: nat)
    requires t < |f.w| && Within(f, x, L, t) && Open(f, t, i) && Open(f, t, a)
    requires x[i] <= x[a] && Wt(f.w[i]) <= Wt(f.w[a])
    ensures Cost(f, Exchanged(x, i, a), t, t) <= Cost(f, x, t, t)
    ensures Space(f, Exchanged(x, i, a), L, t, t) == Space(f, x, L, t, t)
    ensures Within(f, Exchanged(x, i, a), L, t)
  {
    if i != a {
      CostUpdate(f, x, t, t, i, x[a]);
      CostUpdate(f, x[i := x[a]], t, t, a, x[i]);
      SpaceUpdate(f, x, L, t, t, i, x[a]);
      SpaceUpdate(f, x[i := x[a]], L, t, t, a, x[i]);
      hide Cost, Space;
      Products(Wt(f.w[i]), Wt(f.w[a]), x[i], x[a]);
    } else {
      assert Exchanged(x, i, a) == x;
    }
  }

  // Lowering the scale.

  lemma {:induction false} SpaceHalves(f: Forest, x: seq<nat>, L: nat, t: nat, j: nat)
    requires L > 0 && j < |x| && forall i {:trigger x[i]} :: 1 <= i <= j && Open(f, t, i) ==> x[i] <= L - 1
    ensures Space(f, x, L, t, j) == 2 * Space(f, x, L - 1, t, j)
  {
    if j > 0 { SpaceHalves(f, x, L, t, j - 1); }
  }

  /** If node `a` alone is `L` deep, the sum is odd. */
  lemma {:induction false} SpaceOdd(f: Forest, x: seq<nat>, L: nat, t: nat, j: nat, a: nat)
    requires L > 0 && j < |x| && 1 <= a < |x| && Open(f, t, a) && x[a] == L
    requires forall i {:trigger x[i]} :: 1 <= i <= j && Open(f, t, i) && i != a ==> x[i] <= L - 1
    ensures Space(f, x, L, t, j) % 2 == if a <= j then 1 else 0
  {
    if j > 0 {
      SpaceOdd(f, x, L, t, j - 1, a);
      assert x[j] == x[j];
    }
  }

  // Merging the two children of node `t` into it.

  lemma OpenBelow(f: Forest, alpha: nat, t: nat, j: nat)
    requires Kin(f, alpha) && alpha < t <= f.m && 1 <= j < t
    ensures Open(f, t - 1, j) <==> Open(f, t, j) || j == f.left[t] || j == f.right[t]
    ensures Open(f, t, j) ==> j != f.left[t] && j != f.right[t]
    ensures Open(f, t, t) && Open(f, t - 1, f.left[t]) && Open(f, t - 1, f.right[t]) && f.left[t] != f.right[t]
  {
    ParentIs(f, alpha, t, j);
  }

  lemma {:induction false} CostMerges(f: Forest, alpha: nat, x: seq<nat>, t: nat, j: nat)
    requires Kin(f, alpha) && alpha < t <= f.m && j < t < |x|
    ensures 1 <= f.left[t] < t && 1 <= f.right[t] < t
    ensures Cost(f, x, t - 1, j) == Cost(f, x, t, j)
      + (if f.left[t] <= j then Wt(f.w[f.left[t]]) * x[f.left[t]] else 0)
      + (if f.right[t] <= j then Wt(f.w[f.right[t]]) * x[f.right[t]] else 0)
  {
    assert 1 <= f.left[t] < t && 1 <= f.right[t] < t;
    if j > 0 {
      OpenBelow(f, alpha, t, j);
      hide Kin, Wt;
      CostMerges(f, alpha, x, t, j - 1);
    }
  }

  lemma {:induction false} SpaceMerges(f: Forest, alpha: nat, x: seq<nat>, L: nat, t: nat, j: nat)
    requires Kin(f, alpha) && alpha < t <= f.m && j < t < |x|
    ensures 1 <= f.left[t] < t && 1 <= f.right[t] < t
    ensures x[f.left[t]] == x[f.right[t]] == L ==>
      Space(f, x, L, t - 1, j) == Space(f, x, L, t, j)
        + (if f.left[t] <= j then 1 else 0) + (if f.right[t] <= j then 1 else 0)
  {
    assert 1 <= f.left[t] < t && 1 <= f.right[t] < t;
    if j > 0 {
      OpenBelow(f, alpha, t, j);
      hide Kin;
      SpaceMerges(f, alpha, x, L, t, j - 1);
    }
  }

  /** Two children of equal depth `d` cost what their parent costs one step higher, and their weight. */
  lemma CostJoins(f: Forest, alpha: nat, x: seq<nat>, t: nat, d: nat)
    requires Kin(f, alpha) && alpha < t <= f.m && t < |x| && MadeOfLightest(f, t)
    requires x[f.left[t]] == x[f.right[t]] == d + 1
    ensures Cost(f, x, t - 1, t - 1) == Cost(f, x[t := d], t, t) + Wt(f.w[t])
  {
    hide Cost, Bit, Wt, Open;
    var y, a, b := x[t := d], Wt(f.w[f.left[t]]), Wt(f.w[f.right[t]]);
    OpenBelow(f, alpha, t, f.left[t]);
    assert Cost(f, x, t - 1, t - 1) == Cost(f, x, t, t - 1) + a * (d + 1) + b * (d + 1) by {
      CostMerges(f, alpha, x, t, t - 1);
    }
    assert Cost(f, y, t, t) == Cost(f, x, t, t - 1) + (a + b) * d by {
      CostUpdate(f, x, t, t - 1, t, d);
      CostLast(f, y, t);
    }
    OneMore(a, b, d);
  }

  lemma OneMore(a: nat, b: nat, d: nat)
    ensures a * (d + 1) + b * (d + 1) == (a + b) * d + (a + b)
  {
  }

  lemma CostLast(f: Forest, x: seq<nat>, t: nat)
    requires 1 <= t < |f.w| && t < |x| && Open(f, t, t)
    ensures Cost(f, x, t, t) == Cost(f, x, t, t - 1) + Wt(f.w[t]) * x[t]
  {
  }

  lemma SpaceJoins(f: Forest, alpha: nat, x: seq<nat>, L: nat, t: nat)
    requires Kin(f, alpha) && alpha < t <= f.m && t < |x| && L > 0
    requires x[f.left[t]] == x[f.right[t]] == L
    ensures Space(f, x[t := L - 1], L, t, t) == Space(f, x, L, t - 1, t - 1)
  {
    var y := x[t := L - 1];
    SpaceMerges(f, alpha, x, L, t, t - 1);
    SpaceUpdate(f, x, L, t, t - 1, t, L - 1);
    OpenBelow(f, alpha, t, f.left[t]);
    assert Shl(1, 1) == 2;
  }

  lemma WithinJoins(f: Forest, alpha: nat, x: seq<nat>, L: nat, t: nat)
    requires Kin(f, alpha) && alpha < t <= f.m && t < |x| && L > 0 && Within(f, x, L, t - 1)
    ensures Within(f, x[t := L - 1], L, t)
  {
    var y := x[t := L - 1];
    forall j {:trigger y[j]} | 1 <= j <= t && Open(f, t, j) ensures y[j] <= L {
      if j < t {
        OpenBelow(f, alpha, t, j);
        assert y[j] == x[j];
      }
    }
  }

  // The depths of the tree.

  function Depths(f: Forest, alpha: nat): (x: seq<nat>)
    requires Single(f, alpha)
    ensures |x| == f.m + 1 && forall k {:trigger x[k]} :: 1 <= k <= f.m ==> x[k] == Depth(f.parent, f.m, k)
  {
    seq(f.m + 1, k requires 0 <= k <= f.m => if k == 0 then 0 else Depth(f.parent, f.m, k))
  }

  lemma DepthsJoin(f: Forest, alpha: nat, t: nat)
    requires Single(f, alpha) && alpha < t <= f.m && MadeOfLightest(f, t)
    ensures var x := Depths(f, alpha); Cost(f, x, t - 1, t - 1) == Cost(f, x, t, t) + Wt(f.w[t])
  {
    var x := Depths(f, alpha);
    assert f.parent[f.left[t]] == t && f.parent[f.right[t]] == t;
    assert x[t := x[t]] == x;
    CostJoins(f, alpha, x, t, x[t]);
  }

  /** The finished tree has one root, at depth 0. */
  lemma {:induction false} CostTop(f: Forest, alpha: nat, j: nat)
    requires Single(f, alpha) && j <= f.m
    ensures Cost(f, Depths(f, alpha), f.m, j) == 0
  {
    if j > 0 { CostTop(f, alpha, j - 1); }
  }

  // The proof.

  /** The next node to be made, while the last one made is a root. */
  lemma NextMade(f: Forest, alpha: nat, t: nat)
    requires Single(f, alpha) && Greedy(f, alpha) && alpha <= t < f.m
    ensures Kin(f, alpha) && 1 <= t && MadeOfLightest(f, t + 1) && Open(f, t, t)
  {
    assert f.left[t + 1] == f.left[t + 1];
  }

  /** There is an open node `L` deep below `b`, other than `a`, or there is none. */
  lemma Deepest(f: Forest, x: seq<nat>, L: nat, t: nat, a: nat) returns (found: bool, b: nat)
    requires t < |x|
    ensures found ==> 1 <= b <= t && Open(f, t, b) && x[b] == L && b != a
    ensures !found ==> forall j {:trigger x[j]} :: 1 <= j <= t && Open(f, t, j) && j != a ==> x[j] != L
  {
    if j: nat :| 1 <= j <= t && Open(f, t, j) && x[j] == L && j != a {
      found, b := true, j;
    } else {
      found, b := false, 0;
    }
  }

  /** No open node is at the bottom: the scale can be lowered. */
  lemma Lower(f: Forest, x: seq<nat>, L: nat, t: nat)
    requires 1 <= t < |x| && t < |f.parent| && Open(f, t, t) && Within(f, x, L, t) && Space(f, x, L, t, t) <= Shl(1, L)
    requires forall j {:trigger x[j]} :: 1 <= j <= t && Open(f, t, j) ==> x[j] != L
    ensures L > 0 && Within(f, x, L - 1, t) && Space(f, x, L - 1, t, t) <= Shl(1, L - 1)
  {
    assert x[t] <= L && x[t] != L;
    SpaceHalves(f, x, L, t, t);
  }

  /** One open node alone is at the bottom: it can be raised, and the scale lowered. */
  lemma Raise(f: Forest, x: seq<nat>, L: nat, t: nat, a: nat)
    requires t < |x| && t < |f.w| && Open(f, t, a) && x[a] == L > 0
    requires Within(f, x, L, t) && Space(f, x, L, t, t) <= Shl(1, L)
    requires forall j {:trigger x[j]} :: 1 <= j <= t && Open(f, t, j) && j != a ==> x[j] != L
    ensures var y := x[a := L - 1];
      && Within(f, y, L - 1, t) && Space(f, y, L - 1, t, t) <= Shl(1, L - 1) && Cost(f, y, t, t) <= Cost(f, x, t, t)
  {
    var y := x[a := L - 1];
    forall j {:trigger x[j]} | 1 <= j <= t && Open(f, t, j) && j != a ensures x[j] <= L - 1 {}
    SpaceOdd(f, x, L, t, t, a);
    SpaceUpdate(f, x, L, t, t, a, L - 1);
    assert Shl(1, 1) == 2 && Shl(1, 0) == 1;
    CostUpdate(f, x, t, t, a, L - 1);
    BitLess(f, x, t, a, L - 1);
    forall j {:trigger y[j]} | 1 <= j <= t && Open(f, t, j) ensures y[j] <= L - 1 {
      if j != a { assert y[j] == x[j]; }
    }
    hide Cost, Bit;
    SpaceHalves(f, y, L, t, t);
    assert Shl(1, L) == 2 * Shl(1, L - 1);
  }

  lemma BitLess(f: Forest, x: seq<nat>, t: nat, a: nat, v: nat)
    requires a < |f.w| && a < |x| && v <= x[a]
    ensures Bit(f, x[a := v], t, a) <= Bit(f, x, t, a)
  {
    Products(0, Wt(f.w[a]), v, x[a]);
  }

  /** Of two open nodes, the ones that the two lightest change places with. */
  lemma Partners(f: Forest, alpha: nat, x: seq<nat>, L: nat, t: nat, a: nat, b: nat) returns (a': nat, b': nat)
    requires Kin(f, alpha) && alpha < t <= f.m && MadeOfLightest(f, t) && |x| == f.m + 1 && Within(f, x, L, t - 1)
    requires Open(f, t - 1, a) && Open(f, t - 1, b) && a != b && x[a] == x[b] == L
    ensures Open(f, t - 1, a') && Open(f, t - 1, b') && a' < |x| && b' < |x| && x[a'] == x[b'] == L && a' != b'
    ensures var l, r := f.left[t], f.right[t];
      && Open(f, t - 1, l) && Open(f, t - 1, r) && l < |x| && r < |x| && x[l] <= L && x[r] <= L && l != r
      && b' != l && Wt(f.w[l]) <= Wt(f.w[a']) && Wt(f.w[r]) <= Wt(f.w[b'])
  {
    var l := f.left[t];
    OpenBelow(f, alpha, t, l);
    a', b' := if b == l then b else a, if b == l then a else b;
    assert f.w[a'] == f.w[a'] && f.w[b'] == f.w[b'];
    assert x[l] <= L && x[f.right[t]] <= L;
  }

  /** Two open nodes at the bottom change places with the two lightest. */
  lemma Sink(f: Forest, alpha: nat, x: seq<nat>, L: nat, t: nat, a: nat, b: nat) returns (y: seq<nat>)
    requires Kin(f, alpha) && alpha < t <= f.m && MadeOfLightest(f, t) && |x| == f.m + 1 && Within(f, x, L, t - 1)
    requires Open(f, t - 1, a) && Open(f, t - 1, b) && a != b && x[a] == x[b] == L
    ensures |y| == |x| && Within(f, y, L, t - 1) && y[f.left[t]] == y[f.right[t]] == L
    ensures Cost(f, y, t - 1, t - 1) <= Cost(f, x, t - 1, t - 1)
    ensures Space(f, y, L, t - 1, t - 1) == Space(f, x, L, t - 1, t - 1)
  {
    hide Cost, Space, Wt, Open, Within;
    var l, r := f.left[t], f.right[t];
    var a', b' := Partners(f, alpha, x, L, t, a, b);
    ExchangeCheaper(f, x, L, t - 1, l, a');
    var z := Exchanged(x, l, a');
    ExchangeCheaper(f, z, L, t - 1, r, b');
    y := Exchanged(z, r, b');
  }

  /** A second open node is not below the first. */
  lemma NotAlone(f: Forest, alpha: nat, x: seq<nat>, L: nat, t: nat, a: nat)
    requires Kin(f, alpha) && alpha < t <= f.m && |x| == f.m + 1 && Within(f, x, L, t - 1)
    requires forall j {:trigger x[j]} :: 1 <= j < t && Open(f, t - 1, j) && j != a ==> x[j] != L
    ensures L > 0
  {
    var l, r := f.left[t], f.right[t];
    OpenBelow(f, alpha, t, l);
    assert x[l] <= L && x[r] <= L;
  }

  /** Two open nodes are at the bottom: the two lightest can be put there, and merged. */
  lemma Merging(f: Forest, alpha: nat, x: seq<nat>, L: nat, t: nat, a: nat, b: nat) returns (y: seq<nat>)
    requires Kin(f, alpha) && alpha < t <= f.m && MadeOfLightest(f, t) && |x| == f.m + 1 && Within(f, x, L, t - 1)
    requires Open(f, t - 1, a) && Open(f, t - 1, b) && a != b && x[a] == x[b] == L
    requires Space(f, x, L, t - 1, t - 1) <= Shl(1, L)
    ensures |y| == |x| && Within(f, y, L, t) && Space(f, y, L, t, t) <= Shl(1, L)
    ensures Cost(f, y, t, t) + Wt(f.w[t]) <= Cost(f, x, t - 1, t - 1)
  {
    hide Cost, Space, Wt, Open, Kin, Within, MadeOfLightest;
    y := Sink(f, alpha, x, L, t, a, b);
    SpaceMerges(f, alpha, y, L, t, t - 1);
    assert Shl(1, 0) == 1;
    CostJoins(f, alpha, y, t, L - 1);
    SpaceJoins(f, alpha, y, L, t);
    WithinJoins(f, alpha, y, L, t);
    y := y[t := L - 1];
  }

  /** Lengths `x` of the roots at time `t` that fit the code space. */
  ghost predicate Cut(f: Forest, alpha: nat, t: nat, x: seq<nat>, L: nat) {
    && Single(f, alpha) && Greedy(f, alpha) && alpha <= t <= f.m && |x| == f.m + 1
    && Within(f, x, L, t) && Space(f, x, L, t, t) <= Shl(1, L)
  }

  lemma {:induction false} CutLowered(f: Forest, alpha: nat, t: nat, x: seq<nat>, L: nat)
    requires Cut(f, alpha, t, x, L) && t < f.m
    requires forall j {:trigger x[j]} :: 1 <= j <= t && Open(f, t, j) ==> x[j] != L
    ensures Cost(f, Depths(f, alpha), t, t) <= Cost(f, x, t, t)
    decreases f.m - t, L, 0
  {
    hide Cost, Space, Shl, Within, Single, Kin, Depths, Greedy, MadeOfLightest;
    NextMade(f, alpha, t);
    Lower(f, x, L, t);
    CutOptimal(f, alpha, t, x, L - 1);
  }

  lemma {:induction false} CutRaised(f: Forest, alpha: nat, t: nat, x: seq<nat>, L: nat, a: nat)
    requires Cut(f, alpha, t, x, L) && a <= t < f.m && Open(f, t, a) && x[a] == L
    requires forall j {:trigger x[j]} :: 1 <= j <= t && Open(f, t, j) && j != a ==> x[j] != L
    ensures Cost(f, Depths(f, alpha), t, t) <= Cost(f, x, t, t)
    decreases f.m - t, L, 0
  {
    hide Cost, Space, Shl, Within, Single, Kin, Depths, Greedy, Open, MadeOfLightest;
    NextMade(f, alpha, t);
    NotAlone(f, alpha, x, L, t + 1, a);
    Raise(f, x, L, t, a);
    CutOptimal(f, alpha, t, x[a := L - 1], L - 1);
  }

  lemma {:induction false} CutMerged(f: Forest, alpha: nat, t: nat, x: seq<nat>, L: nat, a: nat, b: nat)
    requires Cut(f, alpha, t, x, L) && t < f.m
    requires Open(f, t, a) && Open(f, t, b) && a != b && x[a] == x[b] == L
    ensures Cost(f, Depths(f, alpha), t, t) <= Cost(f, x, t, t)
    decreases f.m - t, L, 0
  {
    hide Cost, Space, Shl, Within, Single, Kin, Depths, Greedy, Open, MadeOfLightest;
    NextMade(f, alpha, t);
    var y := Merging(f, alpha, x, L, t + 1, a, b);
    CutOptimal(f, alpha, t + 1, y, L);
    DepthsJoin(f, alpha, t + 1);
  }

  /** Whatever lengths are given to the roots at time `t`, their depths in the finished tree cost no more. */
  lemma {:induction false} CutOptimal(f: Forest, alpha: nat, t: nat, x: seq<nat>, L: nat)
    requires Cut(f, alpha, t, x, L)
    ensures Cost(f, Depths(f, alpha), t, t) <= Cost(f, x, t, t)
    decreases f.m - t, L, 1
  {
    if t == f.m {
      CostTop(f, alpha, t);
    } else {
      hide Cost, Space, Shl, Within, Single, Depths, Greedy;
      var some, a := Deepest(f, x, L, t, 0);
      if !some {
        CutLowered(f, alpha, t, x, L);
      } else {
        var two, b := Deepest(f, x, L, t, a);
        if two { CutMerged(f, alpha, t, x, L, a, b); } else { CutRaised(f, alpha, t, x, L, a); }
      }
    }
  }

  // The leaves.

  /** Every leaf was a root before any node was made. */
  lemma LeafOpen(f: Forest, alpha: nat, j: nat)
    requires Kin(f, alpha) && 1 <= j <= alpha
    ensures Open(f, alpha, j)
  {
    assert f.parent[j] == f.parent[j];
  }

  /** What the leaves weigh. */
  function LeafWeights(w: seq<nat>, alpha: nat): (ws: seq<nat>)
    requires alpha < |w|
    ensures |ws| == alpha && forall i :: 0 <= i < alpha ==> ws[i] == Wt(w[i + 1])
  {
    seq(alpha, i requires 0 <= i < alpha => Wt(w[i + 1]))
  }

  /** `x` gives the leaves the code lengths `lens`. */
  ghost predicate Gives(x: seq<nat>, lens: seq<nat>) {
    |lens| < |x| && forall j {:trigger x[j]} :: 1 <= j <= |lens| ==> x[j] == lens[j - 1]
  }

  lemma {:induction false} CostIsTotal(f: Forest, alpha: nat, x: seq<nat>, lens: seq<nat>, j: nat)
    requires Kin(f, alpha) && |lens| == alpha && Gives(x, lens) && j <= alpha
    ensures Cost(f, x, alpha, j) == Total(LeafWeights(f.w, alpha)[..j], lens[..j])
  {
    if j > 0 {
      var ws := LeafWeights(f.w, alpha);
      CostIsTotal(f, alpha, x, lens, j - 1);
      LeafOpen(f, alpha, j);
      assert ws[..j][..j - 1] == ws[..j - 1] && lens[..j][..j - 1] == lens[..j - 1];
      assert x[j] == lens[j - 1];
    }
  }

  lemma {:induction false} SpaceIsKraft(f: Forest, alpha: nat, x: seq<nat>, L: nat, lens: seq<nat>, j: nat)
    requires Kin(f, alpha) && |lens| == alpha && Gives(x, lens) && j <= alpha
    requires forall i :: 0 <= i < |lens| ==> lens[i] <= L
    ensures Space(f, x, L, alpha, j) == Kraft(lens[..j], L)
  {
    if j > 0 {
      SpaceIsKraft(f, alpha, x, L, lens, j - 1);
      LeafOpen(f, alpha, j);
      assert lens[..j][..j - 1] == lens[..j - 1];
      assert x[j] == lens[j - 1];
    }
  }

  lemma NoShorter(f: Forest, alpha: nat, lens: seq<nat>, other: seq<nat>, L: nat)
    requires LeafDepths(f, alpha, lens) && Greedy(f, alpha) && |other| == alpha && Fitting(other, L)
    ensures Total(LeafWeights(f.w, alpha), lens) <= Total(LeafWeights(f.w, alpha), other)
  {
    hide Total, Kraft, Cost, Space, Shl, Greedy;
    var x, ws := [0] + other + seq(f.m - alpha, i => 0), LeafWeights(f.w, alpha);
    assert ws[..alpha] == ws && other[..alpha] == other && lens[..alpha] == lens;
    CostIsTotal(f, alpha, x, other, alpha);
    SpaceIsKraft(f, alpha, x, L, other, alpha);
    CostIsTotal(f, alpha, Depths(f, alpha), lens, alpha);
    CutOptimal(f, alpha, alpha, x, L);
  }

  /** The depths of the leaves are the lengths of a code that no other beats. */
  lemma TreeOptimal(f: Forest, alpha: nat, lens: seq<nat>)
    requires LeafDepths(f, alpha, lens) && Greedy(f, alpha)
    ensures Optimal(lens, LeafWeights(f.w, alpha))
  {
    hide Total, Fitting, Greedy;
    forall other: seq<nat>, L: nat {:trigger Fitting(other, L)} | |other| == alpha && Fitting(other, L)
      ensures Total(LeafWeights(f.w, alpha), lens) <= Total(LeafWeights(f.w, alpha), other)
    {
      NoShorter(f, alpha, lens, other, L);
    }
  }

  // What follows for single symbols.

  lemma {:induction false} TotalUpdate(ws: seq<nat>, lens: seq<nat>, i: nat, v: nat)
    requires |lens| == |ws| && i < |ws|
    ensures Total(ws, lens[i := v]) + ws[i] * lens[i] == Total(ws, lens) + ws[i] * v
  {
    var n := |ws| - 1;
    if i < n {
      assert lens[i := v][..n] == lens[..n][i := v];
      TotalUpdate(ws[..n], lens[..n], i, v);
    } else {
      assert lens[i := v][..n] == lens[..n];
    }
  }

  lemma {:induction false} KraftUpdate(lens: seq<nat>, L: nat, i: nat, v: nat)
    requires i < |lens| && v <= L && forall k :: 0 <= k < |lens| ==> lens[k] <= L
    ensures Kraft(lens[i := v], L) + Shl(1, L - lens[i]) == Kraft(lens, L) + Shl(1, L - v)
  {
    var n := |lens| - 1;
    if i < n {
      assert lens[i := v][..n] == lens[..n][i := v];
      KraftUpdate(lens[..n], L, i, v);
    } else {
      assert lens[i := v][..n] == lens[..n];
    }
  }

  /** In a code that no other beats, a symbol that occurs more often has no longer a code. */
  lemma HeavierShorter(lens: seq<nat>, ws: seq<nat>, L: nat, i: nat, j: nat)
    requires Optimal(lens, ws) && Fitting(lens, L) && i < |ws| && j < |ws| && ws[i] > ws[j]
    ensures lens[i] <= lens[j]
  {
    if lens[i] > lens[j] {
      var half := lens[i := lens[j]];
      var other := half[j := lens[i]];
      KraftUpdate(lens, L, i, lens[j]);
      KraftUpdate(half, L, j, lens[i]);
      TotalUpdate(ws, lens, i, lens[j]);
      TotalUpdate(ws, half, j, lens[i]);
      hide Kraft, Total;
      assert Fitting(other, L);
      StrictProducts(ws[j], ws[i], lens[j], lens[i]);
    }
  }

  lemma StrictProducts(w1: nat, w2: nat, x1: nat, x2: nat)
    requires w1 < w2 && x1 < x2
    ensures w1 * x2 + w2 * x1 < w1 * x1 + w2 * x2
  {
    assert (w2 - w1) * (x2 - x1) >= 1;
  }
}
