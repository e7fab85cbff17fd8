/** Permutations of 0..n-1, and the slot each element takes in a stable counting sort. */
module Counting {

  function Iota(n: nat): (s: seq<int>)
    ensures |s| == n && forall i :: 0 <= i < n ==> s[i] == i
  {
    seq(n, i => i)
  }

  ghost predicate InRange(s: seq<int>, n: nat) {
    forall i :: 0 <= i < |s| ==> 0 <= s[i] < n
  }

  ghost predicate Distinct<T>(s: seq<T>) {
    forall i, j :: 0 <= i < j < |s| ==> s[i] != s[j]
  }

  /** `s` lists 0..n-1, each once. */
  ghost predicate IsPerm(s: seq<int>, n: nat) {
    |s| == n && InRange(s, n) && Distinct(s)
  }

  function ToSet<T>(s: seq<T>): (r: set<T>) {
    set x | x in s
  }

  lemma {:induction false} DistinctCard<T>(s: seq<T>)
    requires Distinct(s)
    ensures |ToSet(s)| == |s|
  {
    if s != [] {
      var s', x := s[..|s| - 1], s[|s| - 1];
      DistinctCard(s');
      assert ToSet(s) == ToSet(s') + {x};
    }
  }

  lemma {:induction false} IotaSet(n: nat)
    ensures forall x :: x in ToSet(Iota(n)) <==> 0 <= x < n
    ensures |ToSet(Iota(n))| == n
  {
    assert Distinct(Iota(n));
    DistinctCard(Iota(n));
    forall x | 0 <= x < n ensures x in ToSet(Iota(n)) {
      assert Iota(n)[x] == x;
    }
  }

  lemma SubsetSameCard<T>(a: set<T>, b: set<T>)
    requires a <= b && |a| == |b|
    ensures a == b
  {
    if x :| x in b && x !in a {
      assert a <= b - {x};
      SubsetCard(a, b - {x});
    }
  }

  lemma {:induction false} SubsetCard<T>(a: set<T>, b: set<T>)
    requires a <= b
    ensures |a| <= |b|
  {
    if x :| x in a {
      SubsetCard(a - {x}, b - {x});
    }
  }

  /** Pigeonhole: a permutation reaches every value. */
  lemma PermReaches(s: seq<int>, n: nat, v: int)
    requires IsPerm(s, n) && 0 <= v < n
    ensures v in s
  {
    DistinctCard(s);
    IotaSet(n);
    SubsetSameCard(ToSet(s), ToSet(Iota(n)));
    assert v in ToSet(s);
  }

  /** How often `c` occurs. */
  function Count(s: seq<int>, c: int): (k: nat)
    ensures k <= |s|
  {
    if s == [] then 0 else Count(s[..|s| - 1], c) + (if s[|s| - 1] == c then 1 else 0)
  }

  lemma {:induction false} CountUpdate(s: seq<int>, i: nat, v: int, c: int)
    requires i < |s|
    ensures Count(s[i := v], c) == Count(s, c) - (if s[i] == c then 1 else 0) + (if v == c then 1 else 0)
  {
    var n := |s| - 1;
    if i < n {
      CountUpdate(s[..n], i, v, c);
      assert s[i := v][..n] == s[..n][i := v];
    } else {
      assert s[i := v][..n] == s[..n];
    }
  }

  lemma {:induction false} CountConcat(s: seq<int>, t: seq<int>, c: int)
    ensures Count(s + t, c) == Count(s, c) + Count(t, c)
  {
    if t == [] {
      assert s + t == s;
    } else {
      CountConcat(s, t[..|t| - 1], c);
      assert (s + t)[..|s + t| - 1] == s + t[..|t| - 1];
    }
  }

  lemma {:induction false} CountPositive(s: seq<int>, c: int)
    ensures Count(s, c) > 0 <==> c in s
  {
    if s != [] {
      CountPositive(s[..|s| - 1], c);
      assert s == s[..|s| - 1] + [s[|s| - 1]];
    }
  }

  /** The same elements, each as often. */
  ghost predicate Perm(s: seq<int>, t: seq<int>) {
    |s| == |t| && forall c {:trigger Count(t, c)} :: Count(s, c) == Count(t, c)
  }

  lemma PermSwap(s: seq<int>, i: nat, j: nat)
    requires i < |s| && j < |s|
    ensures Perm(s, s[i := s[j]][j := s[i]])
  {
    forall c ensures Count(s, c) == Count(s[i := s[j]][j := s[i]], c) {
      CountUpdate(s, i, s[j], c);
      CountUpdate(s[i := s[j]], j, s[i], c);
    }
  }

  lemma {:induction false} OnceInDistinct(s: seq<int>, c: int)
    requires Distinct(s)
    ensures Count(s, c) <= 1
  {
    if s != [] {
      OnceInDistinct(s[..|s| - 1], c);
      CountPositive(s[..|s| - 1], c);
    }
  }

  /** Rearranging a permutation keeps it one. */
  lemma PermOfPerm(s: seq<int>, t: seq<int>, n: nat)
    requires IsPerm(s, n) && Perm(s, t)
    ensures IsPerm(t, n)
  {
    forall i | 0 <= i < |t| ensures 0 <= t[i] < n {
      CountPositive(t, t[i]);
      CountPositive(s, t[i]);
    }
    forall i, j | 0 <= i < j < |t| ensures t[i] != t[j] {
      if t[i] == t[j] {
        assert t == t[..j] + t[j..];
        CountConcat(t[..j], t[j..], t[i]);
        assert t[..j][i] == t[i] && t[j..][0] == t[i];
        CountPositive(t[..j], t[i]);
        CountPositive(t[j..], t[i]);
        OnceInDistinct(s, t[i]);
      }
    }
  }

  /** How many elements are smaller than `c`. */
  function Below(s: seq<int>, c: int): (k: nat)
    ensures k <= |s|
  {
    if s == [] then 0 else Below(s[..|s| - 1], c) + (if s[|s| - 1] < c then 1 else 0)
  }

  lemma {:induction false} BelowStep(s: seq<int>, c: int)
    ensures Below(s, c + 1) == Below(s, c) + Count(s, c)
  {
    if s != [] {
      BelowStep(s[..|s| - 1], c);
    }
  }

  lemma {:induction false} BelowMono(s: seq<int>, c: int, d: int)
    requires c <= d
    ensures Below(s, c) <= Below(s, d)
  {
    if s != [] {
      BelowMono(s[..|s| - 1], c, d);
    }
  }

  lemma {:induction false} BelowBounds(s: seq<int>, lo: int, hi: int)
    requires forall i :: 0 <= i < |s| ==> lo <= s[i] < hi
    ensures Below(s, lo) == 0 && Below(s, hi) == |s|
  {
    if s != [] {
      BelowBounds(s[..|s| - 1], lo, hi);
    }
  }

  lemma {:induction false} CountPrefix(s: seq<int>, i: nat, j: nat, c: int)
    requires i <= j <= |s|
    ensures Count(s[..i], c) <= Count(s[..j], c)
    ensures i < j && s[i] == c ==> Count(s[..i], c) < Count(s[..j], c)
  {
    if i < j {
      CountPrefix(s, i, j - 1, c);
      assert s[..j][..j - 1] == s[..j - 1];
    }
  }

  lemma CountBefore(s: seq<int>, i: nat)
    requires i < |s|
    ensures Count(s[..i], s[i]) < Count(s, s[i])
  {
    CountPrefix(s, i, |s|, s[i]);
    assert s[..|s|] == s;
  }

  /** The slot of element `i` when `s` is sorted stably. */
  function LF(s: seq<int>, i: nat): nat
    requires i < |s|
  {
    Below(s, s[i]) + Count(s[..i], s[i])
  }

  lemma LFRange(s: seq<int>, i: nat)
    requires i < |s|
    ensures LF(s, i) < |s|
    ensures Below(s, s[i]) <= LF(s, i) < Below(s, s[i] + 1)
  {
    CountBefore(s, i);
    BelowStep(s, s[i]);
  }

  lemma LFOrder(s: seq<int>, i: nat, j: nat)
    requires i < |s| && j < |s|
    requires s[i] < s[j] || (s[i] == s[j] && i < j)
    ensures LF(s, i) < LF(s, j)
  {
    if s[i] < s[j] {
      LFRange(s, i);
      BelowMono(s, s[i] + 1, s[j]);
    } else {
      CountPrefix(s, i, j, s[i]);
    }
  }

  lemma LFInjective(s: seq<int>, i: nat, j: nat)
    requires i < |s| && j < |s| && i != j
    ensures LF(s, i) != LF(s, j)
  {
    if s[i] < s[j] || (s[i] == s[j] && i < j) {
      LFOrder(s, i, j);
    } else {
      LFOrder(s, j, i);
    }
  }

  /** `LF` as a vector. */
  ghost function LFs(s: seq<int>): (t: seq<int>)
    ensures |t| == |s| && forall i :: 0 <= i < |s| ==> t[i] == LF(s, i)
  {
    seq(|s|, i requires 0 <= i < |s| => LF(s, i))
  }

  lemma LFPerm(s: seq<int>)
    ensures IsPerm(LFs(s), |s|)
  {
    forall i | 0 <= i < |s| ensures LF(s, i) < |s| {
      LFRange(s, i);
    }
    forall i, j | 0 <= i < j < |s| ensures LF(s, i) != LF(s, j) {
      LFInjective(s, i, j);
    }
  }
}
