/** `fallbackSimpleSort` and `fallbackQSort3`: sorting a stretch of `fmap` by `eclass`, in place. */
module FallbackQSort {
  import opened Bits
  import opened Counting

  const SMALL_THRESH := 10
  const STACK_SIZE := 100

  /** Every entry of `f` is an index into `e`. */
  ghost predicate Indexes(f: seq<nat>, e: seq<nat>) {
    forall k :: 0 <= k < |f| ==> f[k] < |e|
  }

  /** `f[lo..hi]` (both ends included) is in non-decreasing order of class. */
  ghost predicate SortedBy(e: seq<nat>, f: seq<nat>, lo: int, hi: int)
    requires Indexes(f, e) && 0 <= lo && hi < |f|
  {
    forall x, y :: lo <= x < y <= hi ==> e[f[x]] <= e[f[y]]
  }

  /** `g` is `f` rearranged within `lo..hi` only. */
  ghost predicate Rearranged(f: seq<nat>, g: seq<nat>, lo: int, hi: int) {
    && |f| == |g| && Perm(f, g)
    && (forall k {:trigger g[k]} :: 0 <= k < |f| && !(lo <= k <= hi) ==> g[k] == f[k])
  }

  /** A rearrangement takes its elements from the same stretch. */
  lemma FromStretch(f: seq<nat>, g: seq<nat>, lo: int, hi: int, x: int) returns (y: int)
    requires Rearranged(f, g, lo, hi) && 0 <= lo <= x <= hi < |f|
    ensures lo <= y <= hi && f[y] == g[x]
  {
    var c := g[x];
    assert f == f[..lo] + f[lo..hi + 1] + f[hi + 1..];
    assert g == g[..lo] + g[lo..hi + 1] + g[hi + 1..];
    assert f[..lo] == g[..lo] && f[hi + 1..] == g[hi + 1..];
    CountConcat(f[..lo] + f[lo..hi + 1], f[hi + 1..], c);
    CountConcat(f[..lo], f[lo..hi + 1], c);
    CountConcat(g[..lo] + g[lo..hi + 1], g[hi + 1..], c);
    CountConcat(g[..lo], g[lo..hi + 1], c);
    assert g[lo..hi + 1][x - lo] == c;
    CountPositive(g[lo..hi + 1], c);
    CountPositive(f[lo..hi + 1], c);
    var k :| 0 <= k < hi + 1 - lo && f[lo..hi + 1][k] == c;
    y := lo + k;
  }

  lemma RearrangedIndexes(f: seq<nat>, g: seq<nat>, e: seq<nat>)
    requires |f| == |g| && Perm(f, g) && Indexes(f, e)
    ensures Indexes(g, e)
  {
    forall k | 0 <= k < |g| ensures g[k] < |e| {
      CountPositive(g, g[k]);
      CountPositive(f, g[k]);
    }
  }

  /** `now` is `was` with entry `i` moved up to `p` and the entries between moved down by one. */
  ghost predicate SunkTo(was: seq<nat>, now: seq<nat>, i: nat, p: nat) {
    && |now| == |was| && i <= p < |was| && now[p] == was[i]
    && (forall k {:trigger now[k]} :: i <= k < p ==> now[k] == was[k + 1])
    && (forall k {:trigger now[k]} :: 0 <= k < |was| && !(i <= k <= p) ==> now[k] == was[k])
  }

  lemma SunkSorted(e: seq<nat>, was: seq<nat>, now: seq<nat>, i: nat, p: nat, hi: nat)
    requires SunkTo(was, now, i, p) && p <= hi < |was| && Indexes(was, e) && Indexes(now, e)
    requires SortedBy(e, was, i + 1, hi)
    requires p > i ==> e[was[p]] < e[was[i]]
    requires p < hi ==> e[was[i]] <= e[was[p + 1]]
    ensures SortedBy(e, now, i, hi)
  {
    forall k | i <= k <= hi ensures k < p ==> e[now[k]] <= e[now[p]] {
      if k < p { assert e[was[k + 1]] <= e[was[p]]; }
    }
    forall k | i <= k <= hi ensures p < k ==> e[now[p]] <= e[now[k]] {
      if p < k { assert now[k] == was[k]; assert e[was[p + 1]] <= e[was[k]]; }
    }
  }

  /** `f` with `t` put back at `h` rearranges `was`. */
  ghost predicate Sinking(was: seq<nat>, f: seq<nat>, t: nat, i: int, h: int, hi: int) {
    && |f| == |was| && 0 <= i <= h <= hi < |f| && Rearranged(was, f[h := t], i, hi)
  }

  lemma SinkOne(was: seq<nat>, f: seq<nat>, t: nat, i: nat, h: nat, j: nat, hi: nat)
    requires Sinking(was, f, t, i, h, hi) && h < j <= hi
    ensures Sinking(was, f[h := f[j]], t, i, j, hi)
    ensures j == h + 1 && SunkTo(was, f[h := t], i, h) ==> SunkTo(was, f[h := f[j]][j := t], i, j)
  {
    var g, g' := f[h := t], f[h := f[j]][j := t];
    forall c ensures Count(g', c) == Count(g, c) {
      CountUpdate(f, h, t, c);
      CountUpdate(f, h, f[j], c);
      CountUpdate(f[h := f[j]], j, t, c);
    }
    forall k | 0 <= k < |was| && !(i <= k <= hi) ensures g'[k] == was[k] {
      assert g'[k] == g[k];
    }
    if j == h + 1 && SunkTo(was, g, i, h) {
      assert g'[h] == g[j] == was[j];
      forall k | i <= k < j ensures g'[k] == was[k + 1] {
        if k < h { assert g'[k] == g[k]; }
      }
      forall k | 0 <= k < |was| && !(i <= k <= j) ensures g'[k] == was[k] {
        assert g'[k] == g[k];
      }
    }
  }

  /** The entry at `i` went up in strides to `p`; with stride one it passed exactly the smaller classes. */
  ghost predicate Sunk(e: seq<nat>, was: seq<nat>, now: seq<nat>, i: nat, p: nat, hi: nat, step: nat) {
    && Indexes(was, e) && Indexes(now, e) && i <= p <= hi < |was| && Rearranged(was, now, i, hi)
    && (step == 1 ==>
          && SunkTo(was, now, i, p)
          && (p > i ==> e[was[p]] < e[was[i]])
          && (p < hi ==> e[was[i]] <= e[was[p + 1]]))
  }

  lemma NotRearranged(f: seq<nat>, lo: int, hi: int)
    ensures Rearranged(f, f, lo, hi)
  {
  }

  /** The inner loop of `fallbackSimpleSort`: sinks `fmap[i]` upwards in steps of `step`. */
  method Sink(fmap: array<nat>, eclass: array<nat>, i: nat, hi: nat, step: nat) returns (p: nat)
    requires fmap != eclass && 1 <= step && i <= hi < fmap.Length && Indexes(fmap[..], eclass[..])
    modifies fmap
    ensures Sunk(eclass[..], old(fmap[..]), fmap[..], i, p, hi, step)
  {
    hide Rearranged;
    ghost var was, e := fmap[..], eclass[..];
    NotRearranged(was, i, hi);
    ghost var f := was;
    var tmp := fmap[i];
    var ec := eclass[tmp];
    var j := i + step;
    assert was[i := tmp] == was;
    while j <= hi && ec > eclass[fmap[j]]
      invariant i + step <= j && j - step <= hi
      invariant f == fmap[..] && Indexes(f, e) && eclass[..] == e
      invariant Sinking(was, f, tmp, i, j - step, hi)
      invariant step == 1 ==> SunkTo(was, f[j - 1 := tmp], i, j - 1)
      invariant step == 1 && j - 1 > i ==> e[was[j - 1]] < ec
    {
      SinkOne(was, f, tmp, i, j - step, j, hi);
      assert step == 1 ==> f[j - 1 := tmp][j] == was[j];
      f := f[j - step := f[j]];
      fmap[j - step] := fmap[j];
      j := j + step;
    }
    p := j - step;
    fmap[p] := tmp;
    assert fmap[..] == f[p := tmp];
    assert step == 1 && p < hi ==> f[p := tmp][p + 1] == was[p + 1];
    assert Sunk(e, was, f[p := tmp], i, p, hi, step);
  }

  /** `fallbackSimpleSort`: a pass in steps of four, then a plain insertion sort. */
  method SimpleSort(fmap: array<nat>, eclass: array<nat>, lo: int, hi: int)
    requires fmap != eclass && 0 <= lo && hi < fmap.Length && Indexes(fmap[..], eclass[..])
    modifies fmap
    ensures Rearranged(old(fmap[..]), fmap[..], lo, hi) && Indexes(fmap[..], eclass[..])
    ensures SortedBy(eclass[..], fmap[..], lo, hi)
  {
    if lo == hi { return; }
    var i := hi - 4;
    if hi - lo > 3 {
      while i >= lo
        invariant lo - 1 <= i <= hi - 4
        invariant Rearranged(old(fmap[..]), fmap[..], lo, hi) && Indexes(fmap[..], eclass[..])
      {
        var _ := Sink(fmap, eclass, i, hi, 4);
        i := i - 1;
      }
    }
    i := hi - 1;
    while i >= lo
      invariant hi < lo || lo - 1 <= i <= hi - 1
      invariant Rearranged(old(fmap[..]), fmap[..], lo, hi) && Indexes(fmap[..], eclass[..])
      invariant hi >= lo ==> SortedBy(eclass[..], fmap[..], i + 1, hi)
    {
      ghost var f := fmap[..];
      var p := Sink(fmap, eclass, i, hi, 1);
      SunkSorted(eclass[..], f, fmap[..], i, p, hi);
      i := i - 1;
    }
  }

  method Swap(fmap: array<nat>, i: nat, j: nat)
    requires i < fmap.Length && j < fmap.Length
    modifies fmap
    ensures fmap[..] == old(fmap[..][i := fmap[j]][j := fmap[i]])
    ensures Perm(old(fmap[..]), fmap[..])
  {
    PermSwap(fmap[..], i, j);
    fmap[i], fmap[j] := fmap[j], fmap[i];
  }

  ghost predicate VSwapped(f: seq<nat>, g: seq<nat>, p: nat, q: nat, n: nat)
    requires p + n <= q && q + n <= |f|
  {
    && |g| == |f| && Perm(f, g)
    && (forall k {:trigger g[k]} :: p <= k < p + n ==> g[k] == f[k - p + q])
    && (forall k {:trigger g[k]} :: q <= k < q + n ==> g[k] == f[k - q + p])
    && (forall k {:trigger g[k]} :: 0 <= k < |f| && !(p <= k < p + n) && !(q <= k < q + n) ==> g[k] == f[k])
  }

  /** `fvswap`: exchanges two stretches of `n` entries. */
  method VSwap(fmap: array<nat>, p: nat, q: nat, n: nat)
    requires p + n <= q && q + n <= fmap.Length
    modifies fmap
    ensures VSwapped(old(fmap[..]), fmap[..], p, q, n)
  {
    var yyn := n;
    var yyp1, yyp2 := p, q;
    while yyn > 0
      invariant 0 <= yyn <= n && yyp1 == p + (n - yyn) && yyp2 == q + (n - yyn)
      invariant VSwapped(old(fmap[..]), fmap[..], p, q, n - yyn)
    {
      Swap(fmap, yyp1, yyp2);
      yyp1, yyp2, yyn := yyp1 + 1, yyp2 + 1, yyn - 1;
    }
  }

  /** Progress of the partitioning loop: `= < ? > =` around the pivot class `med`. */
  ghost predicate Split(e: seq<nat>, f: seq<nat>, med: nat,
                        lo: int, ltLo: int, unLo: int, unHi: int, gtHi: int, hi: int) {
    && Indexes(f, e) && 0 <= lo <= ltLo <= unLo <= unHi + 1 && unHi <= gtHi <= hi < |f|
    && (forall k :: lo <= k < ltLo ==> e[f[k]] == med)
    && (forall k :: ltLo <= k < unLo ==> e[f[k]] < med)
    && (forall k :: unHi < k <= gtHi ==> e[f[k]] > med)
    && (forall k :: gtHi < k <= hi ==> e[f[k]] == med)
  }

  /** The first inner loop: skips smaller classes and collects equal ones on the left. */
  method ScanUp(fmap: array<nat>, eclass: array<nat>, med: nat,
                lo: int, ltLo0: int, unLo0: int, unHi: int, gtHi: int, hi: int)
    returns (ltLo: int, unLo: int)
    requires fmap != eclass && Split(eclass[..], fmap[..], med, lo, ltLo0, unLo0, unHi, gtHi, hi)
    modifies fmap
    ensures Split(eclass[..], fmap[..], med, lo, ltLo, unLo, unHi, gtHi, hi)
    ensures Rearranged(old(fmap[..]), fmap[..], lo, hi)
    ensures unLo0 <= unLo && (unLo <= unHi ==> eclass[fmap[unLo]] > med)
  {
    ltLo, unLo := ltLo0, unLo0;
    while unLo <= unHi
      invariant Split(eclass[..], fmap[..], med, lo, ltLo, unLo, unHi, gtHi, hi)
      invariant Rearranged(old(fmap[..]), fmap[..], lo, hi)
      invariant unLo0 <= unLo
      decreases unHi - unLo
    {
      var n := eclass[fmap[unLo]] - med;
      if n == 0 {
        Swap(fmap, unLo, ltLo);
        ltLo, unLo := ltLo + 1, unLo + 1;
      } else if n > 0 {
        break;
      } else {
        unLo := unLo + 1;
      }
    }
  }

  /** The second inner loop, its mirror image. */
  method ScanDown(fmap: array<nat>, eclass: array<nat>, med: nat,
                  lo: int, ltLo: int, unLo: int, unHi0: int, gtHi0: int, hi: int)
    returns (unHi: int, gtHi: int)
    requires fmap != eclass && Split(eclass[..], fmap[..], med, lo, ltLo, unLo, unHi0, gtHi0, hi)
    requires unLo <= unHi0 ==> eclass[fmap[unLo]] > med
    modifies fmap
    ensures Split(eclass[..], fmap[..], med, lo, ltLo, unLo, unHi, gtHi, hi)
    ensures Rearranged(old(fmap[..]), fmap[..], lo, hi)
    ensures unHi <= unHi0
    ensures unLo <= unHi ==> unLo < unHi && eclass[fmap[unLo]] > med && eclass[fmap[unHi]] < med
  {
    unHi, gtHi := unHi0, gtHi0;
    while unLo <= unHi
      invariant Split(eclass[..], fmap[..], med, lo, ltLo, unLo, unHi, gtHi, hi)
      invariant Rearranged(old(fmap[..]), fmap[..], lo, hi)
      invariant unHi <= unHi0
      invariant unLo <= unHi ==> eclass[fmap[unLo]] > med
      decreases unHi - unLo
    {
      var n := eclass[fmap[unHi]] - med;
      if n == 0 {
        Swap(fmap, unHi, gtHi);
        gtHi, unHi := gtHi - 1, unHi - 1;
      } else if n < 0 {
        break;
      } else {
        unHi := unHi - 1;
      }
    }
  }

  /** The partitioning loop. */
  method Partition(fmap: array<nat>, eclass: array<nat>, med: nat, lo: int, hi: int)
    returns (ltLo: int, unLo: int, unHi: int, gtHi: int)
    requires fmap != eclass && 0 <= lo <= hi < fmap.Length && Indexes(fmap[..], eclass[..])
    modifies fmap
    ensures Split(eclass[..], fmap[..], med, lo, ltLo, unLo, unHi, gtHi, hi) && unHi == unLo - 1
    ensures Rearranged(old(fmap[..]), fmap[..], lo, hi)
  {
    unLo, ltLo, unHi, gtHi := lo, lo, hi, hi;
    while true
      invariant Split(eclass[..], fmap[..], med, lo, ltLo, unLo, unHi, gtHi, hi)
      invariant Rearranged(old(fmap[..]), fmap[..], lo, hi)
      decreases unHi - unLo + 1
    {
      ltLo, unLo := ScanUp(fmap, eclass, med, lo, ltLo, unLo, unHi, gtHi, hi);
      unHi, gtHi := ScanDown(fmap, eclass, med, lo, ltLo, unLo, unHi, gtHi, hi);
      if unLo > unHi { break; }
      Swap(fmap, unLo, unHi);
      unLo, unHi := unLo + 1, unHi - 1;
    }
  }

  /** `f[lo..n]` below the pivot, `f[m..hi]` above it, equality between. */
  ghost predicate ThreeWay(e: seq<nat>, f: seq<nat>, med: nat, lo: int, n: int, m: int, hi: int) {
    && Indexes(f, e) && 0 <= lo <= n + 1 <= m <= hi + 1 <= |f|
    && (forall k :: lo <= k <= n ==> e[f[k]] < med)
    && (forall k :: n < k < m ==> e[f[k]] == med)
    && (forall k :: m <= k <= hi ==> e[f[k]] > med)
  }

  function Min(a: int, b: int): int {
    if a < b then a else b
  }

  lemma LeftGathered(e: seq<nat>, f: seq<nat>, g: seq<nat>, med: nat, lo: nat, ltLo: nat, unLo: nat)
    requires lo <= ltLo <= unLo <= |f| && Indexes(f, e) && Indexes(g, e)
    requires var n := Min(ltLo - lo, unLo - ltLo); VSwapped(f, g, lo, unLo - n, n)
    requires forall k :: lo <= k < ltLo ==> e[f[k]] == med
    requires forall k :: ltLo <= k < unLo ==> e[f[k]] < med
    ensures forall k :: lo <= k < lo + unLo - ltLo ==> e[g[k]] < med
    ensures forall k :: lo + unLo - ltLo <= k < unLo ==> e[g[k]] == med
  {
  }

  lemma RightGathered(e: seq<nat>, f: seq<nat>, g: seq<nat>, med: nat, unLo: nat, gtHi: int, hi: int)
    requires unLo - 1 <= gtHi <= hi < |f| && Indexes(f, e) && Indexes(g, e)
    requires var m := Min(hi - gtHi, gtHi - (unLo - 1)); VSwapped(f, g, unLo, hi - m + 1, m)
    requires forall k :: unLo <= k <= gtHi ==> e[f[k]] > med
    requires forall k :: gtHi < k <= hi ==> e[f[k]] == med
    ensures forall k :: unLo <= k < hi - (gtHi - (unLo - 1)) + 1 ==> e[g[k]] == med
    ensures forall k :: hi - (gtHi - (unLo - 1)) + 1 <= k <= hi ==> e[g[k]] > med
  {
  }

  /** The first `fvswap`: the equal classes on the left move behind the smaller ones. */
  method GatherLeft(fmap: array<nat>, eclass: array<nat>, ghost med: nat,
                    lo: int, ltLo: int, unLo: int, unHi: int, gtHi: int, hi: int)
    requires fmap != eclass && Split(eclass[..], fmap[..], med, lo, ltLo, unLo, unHi, gtHi, hi)
    requires unHi == unLo - 1
    modifies fmap
    ensures Halfway(eclass[..], fmap[..], med, lo, lo + unLo - ltLo - 1, unLo, gtHi, hi)
    ensures Rearranged(old(fmap[..]), fmap[..], lo, hi)
  {
    ghost var e, f := eclass[..], fmap[..];
    var n := Min(ltLo - lo, unLo - ltLo);
    VSwap(fmap, lo, unLo - n, n);
    RearrangedIndexes(f, fmap[..], e);
    LeftGathered(e, f, fmap[..], med, lo, ltLo, unLo);
  }

  ghost predicate Halfway(e: seq<nat>, f: seq<nat>, med: nat, lo: int, n: int, unLo: int, gtHi: int, hi: int) {
    && Indexes(f, e) && 0 <= lo <= n + 1 <= unLo && unLo - 1 <= gtHi <= hi < |f|
    && (forall k :: lo <= k <= n ==> e[f[k]] < med)
    && (forall k :: n < k < unLo ==> e[f[k]] == med)
    && (forall k :: unLo <= k <= gtHi ==> e[f[k]] > med)
    && (forall k :: gtHi < k <= hi ==> e[f[k]] == med)
  }

  /** The second `fvswap`, its mirror image. */
  method GatherRight(fmap: array<nat>, eclass: array<nat>, ghost med: nat,
                     lo: int, n: int, unLo: int, unHi: int, gtHi: int, hi: int)
    requires fmap != eclass && Halfway(eclass[..], fmap[..], med, lo, n, unLo, gtHi, hi) && unHi == unLo - 1
    modifies fmap
    ensures ThreeWay(eclass[..], fmap[..], med, lo, n, hi - (gtHi - unHi) + 1, hi)
    ensures Rearranged(old(fmap[..]), fmap[..], lo, hi)
  {
    ghost var e, f := eclass[..], fmap[..];
    var m := Min(hi - gtHi, gtHi - unHi);
    VSwap(fmap, unLo, hi - m + 1, m);
    RearrangedIndexes(f, fmap[..], e);
    RightGathered(e, f, fmap[..], med, unLo, gtHi, hi);
  }

  /** A whole partitioning step: `allEqual` when every class was the pivot's. */
  method PartitionStep(fmap: array<nat>, eclass: array<nat>, med: nat, lo: int, hi: int)
    returns (allEqual: bool, n: int, m: int)
    requires fmap != eclass && 0 <= lo <= hi < fmap.Length && Indexes(fmap[..], eclass[..])
    requires exists k :: lo <= k <= hi && eclass[fmap[k]] == med
    modifies fmap
    ensures Rearranged(old(fmap[..]), fmap[..], lo, hi) && Indexes(fmap[..], eclass[..])
    ensures allEqual ==> SortedBy(eclass[..], fmap[..], lo, hi)
    ensures !allEqual ==> ThreeWay(eclass[..], fmap[..], med, lo, n, m, hi) && n + 1 < m
  {
    ghost var f := fmap[..];
    ghost var k :| lo <= k <= hi && eclass[f[k]] == med;
    var ltLo, unLo, unHi, gtHi := Partition(fmap, eclass, med, lo, hi);
    if gtHi < ltLo { return true, 0, 0; }
    n := lo + unLo - ltLo - 1;
    GatherLeft(fmap, eclass, med, lo, ltLo, unLo, unHi, gtHi, hi);
    m := hi - (gtHi - unHi) + 1;
    GatherRight(fmap, eclass, med, lo, n, unLo, unHi, gtHi, hi);
    ghost var k' := FromStretch(fmap[..], f, lo, hi, k);
    allEqual := false;
  }

  type Range = (int, int)

  function Size(r: Range): nat {
    if r.1 < r.0 then 0 else r.1 - r.0 + 1
  }

  /** Which pending range a position belongs to; -1 for none. */
  ghost function Tag(st: seq<Range>, x: int): (t: int)
    ensures -1 <= t < |st|
  {
    if st == [] then -1
    else if st[|st| - 1].0 <= x <= st[|st| - 1].1 then |st| - 1
    else Tag(st[..|st| - 1], x)
  }

  /** Any two positions are in order already, unless both wait in the same pending range. */
  ghost predicate Pending(e: seq<nat>, f: seq<nat>, st: seq<Range>, loSt: int, hiSt: int) {
    && Indexes(f, e) && 0 <= loSt && hiSt < |f|
    && (forall k :: 0 <= k < |st| ==> loSt <= st[k].0 && st[k].1 <= hiSt)
    && (forall x, y :: loSt <= x < y <= hiSt ==> e[f[x]] <= e[f[y]] || (Tag(st, x) == Tag(st, y) && Tag(st, x) >= 0))
  }

  /** A position inside the popped range and one outside it stay in order. */
  lemma AcrossRange(e: seq<nat>, f: seq<nat>, g: seq<nat>, rest: seq<Range>, r: Range,
                    loSt: int, hiSt: int, x: int, y: int)
    requires Pending(e, f, rest + [r], loSt, hiSt) && Rearranged(f, g, r.0, r.1) && Indexes(g, e)
    requires loSt <= x < y <= hiSt && (r.0 <= x <= r.1) != (r.0 <= y <= r.1)
    ensures e[g[x]] <= e[g[y]]
  {
    var st := rest + [r];
    assert st[|st| - 1] == r && st[..|st| - 1] == rest;
    assert loSt <= r.0 && r.1 <= hiSt;
    if r.0 <= x <= r.1 {
      var x' := FromStretch(f, g, r.0, r.1, x);
      assert Tag(st, x') == |rest| && Tag(st, y) < |rest|;
    } else {
      var y' := FromStretch(f, g, r.0, r.1, y);
      assert Tag(st, y') == |rest| && Tag(st, x) < |rest|;
    }
  }

  lemma SortedRangePopped(e: seq<nat>, f: seq<nat>, g: seq<nat>, rest: seq<Range>, r: Range, loSt: int, hiSt: int)
    requires Pending(e, f, rest + [r], loSt, hiSt) && Rearranged(f, g, r.0, r.1) && Indexes(g, e)
    requires 0 <= r.0 && r.1 < |g| && SortedBy(e, g, r.0, r.1)
    ensures Pending(e, g, rest, loSt, hiSt)
  {
    var st := rest + [r];
    assert st[|st| - 1] == r && st[..|st| - 1] == rest;
    forall k | 0 <= k < |rest| ensures loSt <= rest[k].0 && rest[k].1 <= hiSt {
      assert rest[k] == st[k];
    }
    forall x, y | loSt <= x < y <= hiSt
      ensures e[g[x]] <= e[g[y]] || (Tag(rest, x) == Tag(rest, y) && Tag(rest, x) >= 0)
    {
      if (r.0 <= x <= r.1) != (r.0 <= y <= r.1) {
        AcrossRange(e, f, g, rest, r, loSt, hiSt, x, y);
      } else if !(r.0 <= x <= r.1) {
        assert Tag(st, x) == Tag(rest, x) && Tag(st, y) == Tag(rest, y);
      }
    }
  }

  lemma TagPushed(rest: seq<Range>, a: Range, b: Range, x: int)
    ensures Tag(rest + [a, b], x)
         == if b.0 <= x <= b.1 then |rest| + 1 else if a.0 <= x <= a.1 then |rest| else Tag(rest, x)
  {
    var st := rest + [a, b];
    assert st[..|st| - 1] == rest + [a];
    assert (rest + [a])[..|rest|] == rest;
  }

  lemma ThreeWayPushed(e: seq<nat>, f: seq<nat>, g: seq<nat>, rest: seq<Range>, r: Range, a: Range, b: Range,
                       med: nat, n: int, m: int, loSt: int, hiSt: int)
    requires Pending(e, f, rest + [r], loSt, hiSt) && Rearranged(f, g, r.0, r.1)
    requires ThreeWay(e, g, med, r.0, n, m, r.1)
    requires (a == (r.0, n) && b == (m, r.1)) || (a == (m, r.1) && b == (r.0, n))
    ensures Pending(e, g, rest + [a, b], loSt, hiSt)
  {
    var st, st' := rest + [r], rest + [a, b];
    assert st[|st| - 1] == r && st[..|st| - 1] == rest;
    forall k | 0 <= k < |st'| ensures loSt <= st'[k].0 && st'[k].1 <= hiSt {
      assert k < |rest| ==> st'[k] == st[k];
    }
    forall x, y | loSt <= x < y <= hiSt
      ensures e[g[x]] <= e[g[y]] || (Tag(st', x) == Tag(st', y) && Tag(st', x) >= 0)
    {
      TagPushed(rest, a, b, x);
      TagPushed(rest, a, b, y);
      if (r.0 <= x <= r.1) != (r.0 <= y <= r.1) {
        AcrossRange(e, f, g, rest, r, loSt, hiSt, x, y);
      } else if !(r.0 <= x <= r.1) {
        assert Tag(st, x) == Tag(rest, x) && Tag(st, y) == Tag(rest, y);
      }
    }
  }

  /** The range at depth `k` holds at most the whole range over `2^k`. */
  ghost predicate Halving(st: seq<Range>, total: nat) {
    forall k :: 0 <= k < |st| ==> Shl(Size(st[k]), k) <= total
  }

  lemma {:induction false} ShlMono(a: nat, b: nat, k: nat)
    requires a <= b
    ensures Shl(a, k) <= Shl(b, k)
  {
    if k > 0 {
      ShlMono(a, b, k - 1);
    }
  }

  lemma {:induction false} ShlDouble(a: nat, k: nat)
    ensures Shl(a, k + 1) == Shl(2 * a, k)
  {
    if k > 0 {
      ShlDouble(a, k - 1);
    }
  }

  /** Pushing the larger part first keeps the halving, so the stack stays below its size. */
  lemma PushedHalving(rest: seq<Range>, r: Range, a: Range, b: Range, total: nat)
    requires Halving(rest + [r], total) && total < Pow2(31) && Size(r) > 0
    requires Size(a) <= Size(r) && 2 * Size(b) <= Size(r)
    ensures Halving(rest + [a, b], total) && |rest + [a, b]| < STACK_SIZE
  {
    var st, st', d := rest + [r], rest + [a, b], |rest|;
    assert st[d] == r;
    ShlMono(Size(a), Size(r), d);
    ShlMono(2 * Size(b), Size(r), d);
    ShlDouble(Size(b), d);
    forall k | 0 <= k < |st'| ensures Shl(Size(st'[k]), k) <= total {
      if k < d { assert st'[k] == st[k]; }
    }
    ShlMono(1, Size(r), d);
    ShlPow2(d);
    if d >= 31 { Pow2Mono(31, d); }
  }

  /** What is left to do: falls with every range taken from the stack. */
  ghost function Work(st: seq<Range>): nat {
    if st == [] then 0 else Work(st[..|st| - 1]) + 2 * Size(st[|st| - 1]) + 1
  }

  lemma WorkPopped(rest: seq<Range>, r: Range)
    ensures Work(rest + [r]) == Work(rest) + 2 * Size(r) + 1
  {
    assert (rest + [r])[..|rest|] == rest;
  }

  lemma WorkPushed(rest: seq<Range>, r: Range, a: Range, b: Range)
    requires Size(a) + Size(b) < Size(r)
    ensures Work(rest + [a, b]) < Work(rest + [r])
  {
    WorkPopped(rest, r);
    WorkPopped(rest, a);
    WorkPopped(rest + [a], b);
    assert rest + [a] + [b] == rest + [a, b];
  }

  /** The pivot: the class at the start, in the middle or at the end, by a small generator. */
  method ChoosePivot(fmap: array<nat>, eclass: array<nat>, lo: nat, hi: nat, r0: nat) returns (r: nat, med: nat)
    requires lo <= hi < fmap.Length && Indexes(fmap[..], eclass[..])
    ensures r == (r0 * 7621 + 1) % 32768 && exists k :: lo <= k <= hi && eclass[fmap[k]] == med
  {
    r := (r0 * 7621 + 1) % 32768;
    var at := if r % 3 == 0 then lo else if r % 3 == 1 then (lo + hi) / 2 else hi;
    med := eclass[fmap[at]];
  }

  /** `fallbackSimpleSort` on a small range taken from the stack. */
  method SortSmall(fmap: array<nat>, eclass: array<nat>, lo: int, hi: int,
                   ghost rest: seq<Range>, ghost loSt: nat, ghost hiSt: nat)
    requires fmap != eclass && Pending(eclass[..], fmap[..], rest + [(lo, hi)], loSt, hiSt)
    modifies fmap
    ensures Rearranged(old(fmap[..]), fmap[..], loSt, hiSt)
    ensures Pending(eclass[..], fmap[..], rest, loSt, hiSt)
  {
    ghost var f := fmap[..];
    assert (rest + [(lo, hi)])[|rest|] == (lo, hi);
    SimpleSort(fmap, eclass, lo, hi);
    SortedRangePopped(eclass[..], f, fmap[..], rest, (lo, hi), loSt, hiSt);
  }

  /** Splitting a large range: the parts below and above the pivot, the larger one first. */
  method SplitLarge(fmap: array<nat>, eclass: array<nat>, lo: int, hi: int, med: nat,
                    ghost rest: seq<Range>, ghost loSt: nat, ghost hiSt: nat) returns (parts: seq<Range>)
    requires fmap != eclass && Pending(eclass[..], fmap[..], rest + [(lo, hi)], loSt, hiSt)
    requires 0 <= lo <= hi < fmap.Length && exists k :: lo <= k <= hi && eclass[fmap[k]] == med
    modifies fmap
    ensures Rearranged(old(fmap[..]), fmap[..], loSt, hiSt)
    ensures Pending(eclass[..], fmap[..], rest + parts, loSt, hiSt)
    ensures parts == [] || (|parts| == 2 && Size(parts[0]) + Size(parts[1]) < hi - lo + 1
      && Size(parts[1]) <= Size(parts[0]))
  {
    ghost var f, e := fmap[..], eclass[..];
    assert (rest + [(lo, hi)])[|rest|] == (lo, hi);
    var allEqual, n, m := PartitionStep(fmap, eclass, med, lo, hi);
    if allEqual {
      SortedRangePopped(e, f, fmap[..], rest, (lo, hi), loSt, hiSt);
      assert rest + [] == rest;
      return [];
    }
    parts := if n - lo > hi - m then [(lo, n), (m, hi)] else [(m, hi), (lo, n)];
    ThreeWayPushed(e, f, fmap[..], rest, (lo, hi), parts[0], parts[1], med, n, m, loSt, hiSt);
    assert rest + parts == rest + [parts[0], parts[1]];
  }

  lemma StackAfter(rest: seq<Range>, r: Range, parts: seq<Range>, total: nat)
    requires Halving(rest + [r], total) && total < Pow2(31) && |rest| < STACK_SIZE - 1
    requires parts == [] || (|parts| == 2 && Size(parts[0]) + Size(parts[1]) < Size(r)
      && Size(parts[1]) <= Size(parts[0]))
    ensures |rest + parts| < STACK_SIZE && Halving(rest + parts, total)
    ensures Work(rest + parts) < Work(rest + [r])
  {
    WorkPopped(rest, r);
    if parts == [] {
      assert rest + parts == rest;
      assert forall k :: 0 <= k < |rest| ==> (rest + [r])[k] == rest[k];
    } else {
      assert parts == [parts[0], parts[1]];
      PushedHalving(rest, r, parts[0], parts[1], total);
      WorkPushed(rest, r, parts[0], parts[1]);
    }
  }

  /** One round of the main loop: takes the top range, sorts or splits it. */
  method SortRound(fmap: array<nat>, eclass: array<nat>, stack: seq<Range>, r0: nat,
                   ghost loSt: nat, ghost hiSt: nat, ghost total: nat) returns (stack': seq<Range>, r: nat)
    requires fmap != eclass && stack != [] && Pending(eclass[..], fmap[..], stack, loSt, hiSt)
    requires |stack| < STACK_SIZE && Halving(stack, total) && total < Pow2(31)
    modifies fmap
    ensures Rearranged(old(fmap[..]), fmap[..], loSt, hiSt)
    ensures Pending(eclass[..], fmap[..], stack', loSt, hiSt)
    ensures |stack'| < STACK_SIZE && Halving(stack', total) && Work(stack') < Work(stack)
  {
    var rest, range := stack[..|stack| - 1], stack[|stack| - 1];
    var (lo, hi) := range;
    assert stack == rest + [range];
    var parts := [];
    r := r0;
    if hi - lo < SMALL_THRESH {
      SortSmall(fmap, eclass, lo, hi, rest, loSt, hiSt);
      assert rest + parts == rest;
    } else {
      var med;
      r, med := ChoosePivot(fmap, eclass, lo, hi, r);
      parts := SplitLarge(fmap, eclass, lo, hi, med, rest, loSt, hiSt);
    }
    stack' := rest + parts;
    StackAfter(rest, range, parts, total);
  }

  lemma WholeRangePending(e: seq<nat>, f: seq<nat>, loSt: nat, hiSt: nat)
    requires Indexes(f, e) && loSt <= hiSt < |f| < Pow2(31)
    ensures Pending(e, f, [(loSt, hiSt)], loSt, hiSt)
    ensures Halving([(loSt, hiSt)], hiSt - loSt + 1) && hiSt - loSt + 1 < Pow2(31)
  {
  }

  lemma NothingPending(e: seq<nat>, f: seq<nat>, loSt: nat, hiSt: nat)
    requires Pending(e, f, [], loSt, hiSt)
    ensures Indexes(f, e) && SortedBy(e, f, loSt, hiSt)
  {
  }

  /** `fallbackQSort3`: sorts `fmap[loSt..hiSt]` by class; its assertion 1004 never fires. */
  method QSort3(fmap: array<nat>, eclass: array<nat>, loSt: nat, hiSt: nat)
    requires fmap != eclass && loSt <= hiSt < fmap.Length < Pow2(31) && Indexes(fmap[..], eclass[..])
    modifies fmap
    ensures Rearranged(old(fmap[..]), fmap[..], loSt, hiSt) && Indexes(fmap[..], eclass[..])
    ensures SortedBy(eclass[..], fmap[..], loSt, hiSt)
  {
    var r := 0;
    var stack: seq<Range> := [(loSt, hiSt)];
    ghost var total := hiSt - loSt + 1;
    WholeRangePending(eclass[..], fmap[..], loSt, hiSt);
    while stack != []
      invariant |stack| < STACK_SIZE  // assertion 1004
      invariant Halving(stack, total)
      invariant Pending(eclass[..], fmap[..], stack, loSt, hiSt)
      invariant Rearranged(old(fmap[..]), fmap[..], loSt, hiSt)
      decreases Work(stack)
    {
      stack, r := SortRound(fmap, eclass, stack, r, loSt, hiSt, total);
    }
    NothingPending(eclass[..], fmap[..], loSt, hiSt);
  }
}
