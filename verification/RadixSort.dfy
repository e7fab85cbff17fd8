/** The first phase of `fallbackSort`: bucket sort on one byte, and the matching restoration of the block. */
module RadixSort {
  import opened Counting
  import opened Rotations
  import opened Bits
  import opened FallbackQSort
  import opened Buckets

  ghost predicate AllBytes(b: seq<int>) {
    forall i :: 0 <= i < |b| ==> 0 <= b[i] < 256
  }

  /** Where the first phase puts rotation `i`: its byte's bucket is filled from the end. */
  function Slot(b: seq<int>, i: nat): int
    requires i < |b|
  {
    Below(b, b[i] + 1) - Count(b[..i], b[i]) - 1
  }

  lemma SlotRange(b: seq<int>, i: nat)
    requires i < |b|
    ensures Below(b, b[i]) <= Slot(b, i) < Below(b, b[i] + 1) <= |b|
  {
    BelowStep(b, b[i]);
    CountBefore(b, i);
  }

  lemma SlotByByte(b: seq<int>, i: nat, j: nat)
    requires i < |b| && j < |b| && b[i] < b[j]
    ensures Slot(b, i) < Slot(b, j)
  {
    SlotRange(b, i);
    SlotRange(b, j);
    BelowMono(b, b[i] + 1, b[j]);
  }

  lemma SlotInjective(b: seq<int>, i: nat, j: nat)
    requires i < j < |b|
    ensures Slot(b, i) != Slot(b, j)
  {
    if b[i] < b[j] {
      SlotByByte(b, i, j);
    } else if b[j] < b[i] {
      SlotByByte(b, j, i);
    } else {
      CountPrefix(b, i, j, b[i]);
    }
  }

  ghost function Slots(b: seq<int>): (t: seq<int>)
    ensures |t| == |b| && forall i :: 0 <= i < |b| ==> t[i] == Slot(b, i)
  {
    seq(|b|, i requires 0 <= i < |b| => Slot(b, i))
  }

  ghost predicate Placed(b: seq<int>, f: seq<nat>, k: nat)
    requires k <= |b|
  {
    forall i :: 0 <= i < k ==> 0 <= Slot(b, i) < |f| && f[Slot(b, i)] == i
  }

  lemma SlotsPerm(b: seq<int>)
    ensures IsPerm(Slots(b), |b|)
  {
    forall i | 0 <= i < |b| ensures 0 <= Slot(b, i) < |b| {
      SlotRange(b, i);
    }
    forall i, j | 0 <= i < j < |b| ensures Slot(b, i) != Slot(b, j) {
      SlotInjective(b, i, j);
    }
  }

  lemma PlacedAt(b: seq<int>, f: seq<nat>, x: nat)
    requires |f| == |b| && Placed(b, f, |b|) && x < |b|
    ensures f[x] < |b| && Slot(b, f[x]) == x
  {
    SlotsPerm(b);
    PermReaches(Slots(b), |b|, x);
    var i :| 0 <= i < |b| && Slots(b)[i] == x;
  }

  lemma PlacedPerm(b: seq<int>, f: seq<nat>)
    requires |f| == |b| && Placed(b, f, |b|)
    ensures IsPerm(f, |b|)
  {
    forall x | 0 <= x < |b| ensures f[x] < |b| && Slot(b, f[x]) == x {
      PlacedAt(b, f, x);
    }
  }

  lemma CmpOne(b: seq<int>, i: nat, j: nat)
    requires i < |b| && j < |b|
    ensures Cmp(b, i, j, 1) == if b[i] < b[j] then -1 else if b[i] > b[j] then 1 else 0
  {
    assert Cmp(b, i + 1, j + 1, 0) == 0;
  }

  lemma PlacedSorted(b: seq<int>, f: seq<nat>)
    requires b != [] && |f| == |b| && Placed(b, f, |b|)
    ensures Sorted(b, f, 1)
  {
    PlacedPerm(b, f);
    forall x, y | 0 <= x < y < |f| ensures Cmp(b, f[x], f[y], 1) <= 0 {
      PlacedAt(b, f, x);
      PlacedAt(b, f, y);
      CmpOne(b, f[x], f[y]);
      if b[f[y]] < b[f[x]] { SlotByByte(b, f[y], f[x]); }
    }
  }

  /** A position starts a one-byte bucket exactly when it is the number of bytes below some byte value. */
  lemma PlacedStart(b: seq<int>, f: seq<nat>, x: nat)
    requires b != [] && AllBytes(b) && |f| == |b| && Placed(b, f, |b|) && x < |b|
    ensures f[x] < |b| && (x > 0 ==> f[x - 1] < |b|)
    ensures forall c :: 0 <= c < 256 && Below(b, c) == x ==> x == 0 || Cmp(b, f[x - 1], f[x], 1) < 0
    ensures x == 0 ==> Below(b, 0) == x
    ensures x > 0 && Cmp(b, f[x - 1], f[x], 1) < 0 ==> Below(b, b[f[x]]) == x
  {
    PlacedAt(b, f, x);
    var c := b[f[x]];
    SlotRange(b, f[x]);
    BelowBounds(b, 0, 256);
    if x > 0 {
      PlacedAt(b, f, x - 1);
      SlotRange(b, f[x - 1]);
      CmpOne(b, f[x - 1], f[x]);
      var d := b[f[x - 1]];
      if d < c {
        BelowMono(b, d + 1, c);
      } else {
        forall e | 0 <= e < 256 ensures Below(b, e) != x {
          if e <= d { BelowMono(b, e, d); } else { BelowMono(b, c + 1, e); }
        }
      }
    }
  }

  /** Reading the bytes of a block in sorted order. */
  function BytesOf(b: seq<int>, f: seq<int>): (c: seq<int>)
    requires InRange(f, |b|)
    ensures |c| == |f| && forall x :: 0 <= x < |f| ==> c[x] == b[f[x]]
  {
    seq(|f|, x requires 0 <= x < |f| => b[f[x]])
  }

  lemma {:induction false} BelowConcat(s: seq<int>, t: seq<int>, c: int)
    ensures Below(s + t, c) == Below(s, c) + Below(t, c)
  {
    if t == [] {
      assert s + t == s;
    } else {
      BelowConcat(s, t[..|t| - 1], c);
      assert (s + t)[..|s + t| - 1] == s + t[..|t| - 1];
    }
  }

  lemma BelowMiddle(l: seq<int>, v: int, r: seq<int>, c: int)
    ensures Below(l + [v] + r, c) == Below(l + r, c) + (if v < c then 1 else 0)
  {
    BelowConcat(l, r, c);
    BelowConcat(l + [v], r, c);
    assert (l + [v])[..|l|] == l;
  }

  /** Rearranging a block does not change how many bytes are below one. */
  lemma {:induction false} BelowPermuted(b: seq<int>, f: seq<int>, c: int)
    requires IsPerm(f, |b|)
    ensures Below(BytesOf(b, f), c) == Below(b, c)
    decreases |b|
  {
    if b != [] {
      var n := |b| - 1;
      PermReaches(f, |b|, n);
      var j :| 0 <= j < |f| && f[j] == n;
      var f', b' := f[..j] + f[j + 1..], b[..n];
      WithoutLast(f, j, n);
      BelowPermuted(b', f', c);
      var s := BytesOf(b, f);
      BytesWithoutLast(b, f, j);
      BelowMiddle(s[..j], b[n], s[j + 1..], c);
    }
  }

  lemma BytesWithoutLast(b: seq<int>, f: seq<int>, j: nat)
    requires b != [] && IsPerm(f, |b|) && j < |f| && f[j] == |b| - 1
    requires IsPerm(f[..j] + f[j + 1..], |b| - 1)
    ensures var s := BytesOf(b, f);
      && s == s[..j] + [b[|b| - 1]] + s[j + 1..]
      && BytesOf(b[..|b| - 1], f[..j] + f[j + 1..]) == s[..j] + s[j + 1..]
  {
    var n := |b| - 1;
    var f', b', s := f[..j] + f[j + 1..], b[..n], BytesOf(b, f);
    var t := BytesOf(b', f');
    forall x | 0 <= x < n ensures t[x] == (s[..j] + s[j + 1..])[x] {
      assert t[x] == b'[f'[x]];
      if x < j { assert f'[x] == f[x]; } else { assert f'[x] == f[x + 1]; }
    }
  }

  lemma WithoutLast(f: seq<int>, j: nat, n: nat)
    requires IsPerm(f, n + 1) && j < |f| && f[j] == n
    ensures IsPerm(f[..j] + f[j + 1..], n)
  {
    var g := f[..j] + f[j + 1..];
    assert forall x {:trigger g[x]} :: 0 <= x < n ==> g[x] == (if x < j then f[x] else f[x + 1]);
  }

  lemma BelowSorted(s: seq<int>, x: nat)
    requires x < |s| && forall i, j :: 0 <= i < j < |s| ==> s[i] <= s[j]
    ensures Below(s, s[x]) <= x < Below(s, s[x] + 1)
  {
    hide Below;
    var c, l, r := s[x], s[..x], s[x + 1..];
    NoneBelow(r, c);
    AllBelow(l, c + 1);
    BelowMiddle(l, c, r, c);
    BelowMiddle(l, c, r, c + 1);
    BelowConcat(l, r, c);
    BelowConcat(l, r, c + 1);
    assert s == l + [c] + r;
  }

  lemma {:induction false} NoneBelow(s: seq<int>, c: int)
    requires forall i :: 0 <= i < |s| ==> s[i] >= c
    ensures Below(s, c) == 0
  {
    if s != [] { NoneBelow(s[..|s| - 1], c); }
  }

  lemma {:induction false} AllBelow(s: seq<int>, c: int)
    requires forall i :: 0 <= i < |s| ==> s[i] < c
    ensures Below(s, c) == |s|
  {
    if s != [] { AllBelow(s[..|s| - 1], c); }
  }

  /** In any sorted listing, position `x` lies in the bucket of its own byte. */
  lemma RankOfByte(b: seq<int>, f: seq<int>, x: nat)
    requires b != [] && IsPerm(f, |b|) && Sorted(b, f, 1) && x < |b|
    ensures Below(b, b[f[x]]) <= x < Below(b, b[f[x]] + 1)
  {
    hide Below;
    var s := BytesOf(b, f);
    forall i, j | 0 <= i < j < |s| ensures s[i] <= s[j] {
      assert Cmp(b, f[i], f[j], 1) <= 0;
      CmpOne(b, f[i], f[j]);
    }
    BelowSorted(s, x);
    BelowPermuted(b, f, s[x]);
    BelowPermuted(b, f, s[x] + 1);
  }
}
