/** `fallbackSort` and the `origPtr` search of `BZ2_blockSort`. */
module FallbackSort {
  import opened Counting
  import opened Rotations
  import opened Bits
  import opened FallbackQSort
  import opened Buckets
  import opened RadixSort

  /** Byte `k` of a little-endian word. */
  function ByteOf(w: nat, k: nat): (v: int)
    ensures 0 <= v < 256
  {
    if k == 0 then w % 256 else ByteOf(w / 256, k - 1)
  }

  /** The word with byte `k` overwritten. */
  function WithByte(w: nat, k: nat, v: byte): (w': nat) {
    if k == 0 then w / 256 * 256 + v else WithByte(w / 256, k - 1, v) * 256 + w % 256
  }

  lemma {:induction false} ByteOfWithByte(w: nat, k: nat, v: byte, m: nat)
    ensures ByteOf(WithByte(w, k, v), m) == if m == k then v else ByteOf(w, m)
  {
    if k > 0 {
      var hi, lo := WithByte(w / 256, k - 1, v), w % 256;
      var w' := hi * 256 + lo;
      assert w' / 256 == hi && w' % 256 == lo;
      if m > 0 {
        ByteOfWithByte(w / 256, k - 1, v, m - 1);
      }
    }
  }

  /** `(UChar*)eclass`: the block shares the memory of the class words. */
  function Eclass8(e: seq<nat>, n: nat): (b: seq<int>)
    requires n <= |e|
    ensures |b| == n && AllBytes(b) && forall i {:trigger b[i]} :: 0 <= i < n ==> b[i] == ByteOf(e[i / 4], i % 4)
  {
    seq(n, i requires 0 <= i < n => ByteOf(e[i / 4], i % 4))
  }

  method PutByte(eclass: array<nat>, i: nat, v: byte)
    requires i < eclass.Length
    modifies eclass
    ensures Eclass8(eclass[..], eclass.Length) == old(Eclass8(eclass[..], eclass.Length))[i := v]
  {
    ghost var e := eclass[..];
    eclass[i / 4] := WithByte(eclass[i / 4], i % 4, v);
    forall j | 0 <= j < eclass.Length
      ensures Eclass8(eclass[..], eclass.Length)[j] == Eclass8(e, eclass.Length)[i := v][j]
    {
      ByteOfWithByte(e[i / 4], i % 4, v, j % 4);
      if j / 4 == i / 4 && j % 4 == i % 4 { assert j == i; }
    }
  }

  /** Byte frequencies of the block. */
  method CountBytes(eclass: array<nat>) returns (ftab: array<nat>)
    ensures fresh(ftab) && ftab.Length == 257 && ftab[256] == 0
    ensures forall c :: 0 <= c < 256 ==> ftab[c] == Count(Eclass8(eclass[..], eclass.Length), c)
  {
    ghost var b := Eclass8(eclass[..], eclass.Length);
    ftab := new nat[257](_ => 0);
    for i := 0 to eclass.Length
      invariant ftab[256] == 0 && eclass[..] == old(eclass[..])
      invariant forall c :: 0 <= c < 256 ==> ftab[c] == Count(b[..i], c)
    {
      var c := ByteOf(eclass[i / 4], i % 4);
      assert b[..i + 1][..i] == b[..i] && b[i] == c;
      ftab[c] := ftab[c] + 1;
    }
    assert b[..eclass.Length] == b;
  }

  /** Running totals: how many bytes are at most `c`. */
  method Accumulate(ftab: array<nat>, ghost b: seq<int>)
    requires AllBytes(b) && ftab.Length == 257 && ftab[256] == 0
    requires forall c :: 0 <= c < 256 ==> ftab[c] == Count(b, c)
    modifies ftab
    ensures Tops(b, ftab[..], 0)
  {
    BelowBounds(b, 0, 256);
    BelowStep(b, 0);
    for i := 1 to 257
      invariant forall c {:trigger ftab[c]} :: 0 <= c < i && c < 256 ==> ftab[c] == Below(b, c + 1)
      invariant forall c :: i <= c < 256 ==> ftab[c] == Count(b, c)
    {
      BelowStep(b, i);
      ftab[i] := ftab[i] + ftab[i - 1];
    }
    assert b[..0] == [];
  }

  lemma PlaceOne(b: seq<int>, f: seq<nat>, i: nat)
    requires |f| == |b| && i < |b| && Placed(b, f, i)
    ensures 0 <= Slot(b, i) < |b| && Placed(b, f[Slot(b, i) := i], i + 1)
  {
    SlotRange(b, i);
    forall j | 0 <= j < i + 1 ensures 0 <= Slot(b, j) < |f| && f[Slot(b, i) := i][Slot(b, j)] == j {
      if j < i { SlotInjective(b, j, i); }
    }
  }

  lemma CountNext(b: seq<int>, i: nat, c: int)
    requires i < |b|
    ensures Count(b[..i + 1], c) == Count(b[..i], c) + (if b[i] == c then 1 else 0)
  {
    assert b[..i + 1][..i] == b[..i];
  }

  /** `ftab` while the first `i` positions are scattered: the top of what is free in each bucket. */
  ghost predicate Tops(b: seq<int>, t: seq<nat>, i: nat)
    requires i <= |b|
  {
    |t| == 257 && forall c {:trigger t[c]} :: 0 <= c < 256 ==> t[c] == Below(b, c + 1) - Count(b[..i], c)
  }

  lemma TopsNext(b: seq<int>, t: seq<nat>, i: nat)
    requires AllBytes(b) && i < |b| && Tops(b, t, i)
    ensures 0 <= Slot(b, i) == t[b[i]] - 1
    ensures Tops(b, t[b[i] := Slot(b, i)], i + 1)
  {
    SlotRange(b, i);
    var t' := t[b[i] := Slot(b, i)];
    forall c {:trigger t'[c]} | 0 <= c < 256 ensures t'[c] == Below(b, c + 1) - Count(b[..i + 1], c) {
      CountNext(b, i, c);
    }
  }

  lemma TopsDone(b: seq<int>, t: seq<nat>)
    requires Tops(b, t, |b|)
    ensures forall c :: 0 <= c < 256 ==> t[c] == Below(b, c)
  {
    assert b[..|b|] == b;
    forall c | 0 <= c < 256 ensures t[c] == Below(b, c) {
      BelowStep(b, c);
    }
  }

  /** Scatters the positions into their byte's bucket, from its end. */
  method Place(eclass: array<nat>, ftab: array<nat>, fmap: array<nat>)
    requires eclass != ftab && eclass != fmap && ftab != fmap && fmap.Length == eclass.Length
    requires Tops(Eclass8(eclass[..], eclass.Length), ftab[..], 0)
    modifies ftab, fmap
    ensures Placed(Eclass8(eclass[..], eclass.Length), fmap[..], eclass.Length)
    ensures forall c :: 0 <= c < 256 ==> ftab[c] == Below(Eclass8(eclass[..], eclass.Length), c)
  {
    ghost var e, n := eclass[..], eclass.Length;
    ghost var b := Eclass8(e, n);
    ghost var f, t := fmap[..], ftab[..];
    for i := 0 to eclass.Length
      invariant eclass[..] == e && fmap[..] == f && ftab[..] == t
      invariant Tops(b, t, i) && Placed(b, f, i)
    {
      TopsNext(b, t, i);
      PlaceOne(b, f, i);
      var j := ByteOf(eclass[i / 4], i % 4);
      assert b[i] == j;
      var k := ftab[j] - 1;
      ftab[j] := k;
      fmap[k] := i;
      t, f := t[j := k], f[k := i];
    }
    TopsDone(b, t);
  }

  /** Bits of `bhtab`, which has one word more than `nBhtab` so that the sentinels fit. */
  function BhBits(n: nat): nat {
    32 * (3 + n / 32)
  }

  /** Header bits of the one-byte buckets, and the alternating sentinels after the block. */
  method SetHeaderBits(bhtab: array<bool>, ftab: array<nat>, nblock: nat)
    requires bhtab.Length == BhBits(nblock) && ftab.Length == 257
    requires forall c :: 0 <= c < 256 ==> ftab[c] <= nblock
    modifies bhtab
    ensures forall x :: 0 <= x < nblock ==> (bhtab[x] <==> exists c :: 0 <= c < 256 && ftab[c] == x)
    ensures bhtab[nblock] && !bhtab[nblock + 1]
  {
    var nBits := 32 * (2 + nblock / 32);
    for i := 0 to nBits
      invariant forall x :: 0 <= x < i ==> !bhtab[x]
    {
      bhtab[i] := false;
    }
    for i := 0 to 256
      invariant forall x :: 0 <= x < nblock ==> (bhtab[x] <==> exists c :: 0 <= c < i && ftab[c] == x)
    {
      bhtab[ftab[i]] := true;
    }
    ghost var starts := bhtab[..nblock];
    for i := 0 to 32
      invariant bhtab[..nblock] == starts
      invariant i > 0 ==> bhtab[nblock] && !bhtab[nblock + 1]
    {
      bhtab[nblock + 2 * i] := true;
      bhtab[nblock + 2 * i + 1] := false;
    }
    forall x | 0 <= x < nblock ensures bhtab[x] <==> exists c :: 0 <= c < 256 && ftab[c] == x {
      assert starts[x] == bhtab[x];
    }
  }

  /** The whole first phase. */
  method BucketSort(fmap: array<nat>, eclass: array<nat>, bhtab: array<bool>) returns (ftabCopy: array<nat>)
    requires fmap != eclass && 0 < fmap.Length == eclass.Length && bhtab.Length == BhBits(fmap.Length)
    modifies fmap, bhtab
    ensures Depth(Eclass8(eclass[..], eclass.Length), fmap[..], bhtab[..], 1)
    ensures fresh(ftabCopy) && ftabCopy.Length == 256
    ensures forall c :: 0 <= c < 256 ==> ftabCopy[c] == Count(Eclass8(eclass[..], eclass.Length), c)
  {
    ghost var b := Eclass8(eclass[..], eclass.Length);
    var ftab := CountBytes(eclass);
    ftabCopy := new nat[256](i requires 0 <= i < 256 reads ftab requires ftab.Length == 257 => ftab[i]);
    Accumulate(ftab, b);
    Place(eclass, ftab, fmap);
    SetHeaderBits(bhtab, ftab, fmap.Length);
    StartsDepth(b, fmap[..], ftab[..], bhtab[..]);
  }

  lemma StartsDepth(b: seq<int>, f: seq<nat>, t: seq<nat>, bh: seq<bool>)
    requires b != [] && AllBytes(b) && |f| == |b| && Placed(b, f, |b|) && |t| == 257 && |b| + 1 < |bh|
    requires forall c :: 0 <= c < 256 ==> t[c] == Below(b, c)
    requires forall x :: 0 <= x < |b| ==> (bh[x] <==> exists c :: 0 <= c < 256 && t[c] == x)
    requires bh[|b|] && !bh[|b| + 1]
    ensures Depth(b, f, bh, 1)
  {
    PlacedPerm(b, f);
    PlacedSorted(b, f);
    forall x | 0 <= x < |b| ensures BitAt(b, f, bh, x, 1) {
      StartsBit(b, f, t, bh, x);
    }
  }

  lemma StartsBit(b: seq<int>, f: seq<nat>, t: seq<nat>, bh: seq<bool>, x: nat)
    requires b != [] && AllBytes(b) && |f| == |b| && Placed(b, f, |b|) && |t| == 257 && |b| + 1 < |bh| && x < |b|
    requires forall c :: 0 <= c < 256 ==> t[c] == Below(b, c)
    requires bh[x] <==> exists c :: 0 <= c < 256 && t[c] == x
    ensures f[x] < |b| && (x > 0 ==> f[x - 1] < |b|) && BitAt(b, f, bh, x, 1)
  {
    PlacedStart(b, f, x);
    if bh[x] {
      var c :| 0 <= c < 256 && t[c] == x;
      assert Below(b, c) == x;
    } else {
      assert t[0] != x && t[b[f[x]]] != x;
    }
  }

  /** The first `k` positions have given their bucket start to the rotation `h` before theirs. */
  ghost predicate Assigned(f: seq<nat>, e: seq<nat>, bh: seq<bool>, h: nat, k: nat) {
    && k <= |f| == |e| && |f| <= |bh| && h <= |f| && IsPerm(f, |f|)
    && (forall x {:trigger f[x]} :: 0 <= x < k ==> e[Back(|f|, f[x], h)] == StartOf(bh, x))
  }

  /** The first loop of a pass: each rotation's class is the bucket start of the rotation `H` later. */
  method AssignClasses(fmap: array<nat>, eclass: array<nat>, bhtab: array<bool>, H: nat)
    requires fmap != eclass && fmap.Length == eclass.Length < bhtab.Length && H <= fmap.Length
    requires IsPerm(fmap[..], fmap.Length)
    modifies eclass
    ensures Assigned(fmap[..], eclass[..], bhtab[..], H, fmap.Length)
  {
    ghost var f, bh, n := fmap[..], bhtab[..], fmap.Length;
    var j := 0;
    for i := 0 to fmap.Length
      invariant fmap[..] == f && bhtab[..] == bh
      invariant i > 0 ==> j == StartOf(bh, i - 1)
      invariant i == 0 ==> j == 0
      invariant Assigned(f, eclass[..], bh, H, i)
    {
      if bhtab[i] { j := i; }
      assert j == StartOf(bh, i);
      var k := fmap[i] - H;
      if k < 0 { k := k + fmap.Length; }
      assert k == Back(n, f[i], H);
      forall x | 0 <= x < i ensures Back(n, f[x], H) != k {
        assert f[x] != f[i];
      }
      eclass[k] := j;
    }
  }

  predicate WordIs(bhtab: array<bool>, k: nat, v: bool)
    reads bhtab
    requires k + 32 <= bhtab.Length
  {
    forall i :: k <= i < k + 32 ==> bhtab[i] == v
  }

  /** The scans for the next clear, or set, bit: singly to a word boundary, then by words, then singly. */
  method SkipBits(bhtab: array<bool>, nblock: nat, k0: nat, v: bool, ghost stop: nat) returns (k: nat)
    requires bhtab.Length == BhBits(nblock) && k0 <= stop <= nblock + 1 && bhtab[stop] != v
    ensures k0 <= k <= stop && bhtab[k] != v && forall i :: k0 <= i < k ==> bhtab[i] == v
  {
    k := k0;
    while bhtab[k] == v && k % 32 != 0
      invariant k0 <= k <= stop && forall i :: k0 <= i < k ==> bhtab[i] == v
      decreases stop - k
    {
      k := k + 1;
    }
    if bhtab[k] == v {
      while WordIs(bhtab, k, v)
        invariant k0 <= k <= stop && k % 32 == 0 && forall i :: k0 <= i < k ==> bhtab[i] == v
        decreases stop - k
      {
        assert stop >= k + 32;
        k := k + 32;
      }
      while bhtab[k] == v
        invariant k0 <= k <= stop && forall i :: k0 <= i < k ==> bhtab[i] == v
        decreases stop - k
      {
        k := k + 1;
      }
    }
  }

  /** The header bits of a sorted bucket: one wherever the class changes. */
  method MarkBucket(fmap: array<nat>, eclass: array<nat>, bhtab: array<bool>, l: nat, r: nat)
    requires fmap != eclass && l <= r < fmap.Length <= bhtab.Length && Indexes(fmap[..], eclass[..])
    requires bhtab[l] && forall x :: l < x <= r ==> !bhtab[x]
    modifies bhtab
    ensures Marked(eclass[..], fmap[..], old(bhtab[..]), bhtab[..], l, r)
  {
    ghost var e, f, bh := eclass[..], fmap[..], bhtab[..];
    var cc: int := -1;
    for i := l to r + 1
      invariant e == eclass[..] && f == fmap[..] && |bh| == bhtab.Length
      invariant i == l ==> cc == -1 && bhtab[..] == bh
      invariant i > l ==> cc == e[f[i - 1]]
      invariant forall x {:trigger bhtab[x]} :: 0 <= x < |bh| && !(l < x < i) ==> bhtab[x] == bh[x]
      invariant forall x {:trigger bhtab[x]} :: l < x < i ==> (bhtab[x] <==> e[f[x - 1]] != e[f[x]])
    {
      var cc1 := eclass[fmap[i]];
      if cc != cc1 {
        bhtab[i] := true;
        cc := cc1;
      }
    }
  }

  /** Finds the next bucket of two or more, or reports that the block is done. */
  method NextBucket(bhtab: array<bool>, nblock: nat, p: nat) returns (l: nat, r: nat)
    requires bhtab.Length == BhBits(nblock) && p <= nblock && bhtab[p]
    requires bhtab[nblock] && !bhtab[nblock + 1]
    ensures p <= l <= nblock && forall x :: p <= x <= l ==> bhtab[x]
    ensures l < nblock ==> r < nblock && Bucket(bhtab[..], l, r)
  {
    var k := SkipBits(bhtab, nblock, p, true, nblock + 1);
    l := k - 1;
    r := l;
    if l >= nblock { return; }
    k := SkipBits(bhtab, nblock, k, false, nblock);
    r := k - 1;
  }

  /** Sorts one bucket by class and marks its parts. */
  method RefineBucket(fmap: array<nat>, eclass: array<nat>, bhtab: array<bool>,
                      ghost b: seq<int>, H: nat, l: nat, r: nat)
    requires fmap != eclass && |b| == fmap.Length == eclass.Length < Pow2(31) && r < |b|
    requires Refining(b, fmap[..], bhtab[..], H, l) && Bucket(bhtab[..], l, r) && Classes(b, eclass[..], H)
    modifies fmap, bhtab
    ensures Refining(b, fmap[..], bhtab[..], H, r + 1)
  {
    ghost var f, bh := fmap[..], bhtab[..];
    QSort3(fmap, eclass, l, r);
    assert bhtab[l] == bh[l];
    MarkBucket(fmap, eclass, bhtab, l, r);
    BucketRefined(b, f, fmap[..], eclass[..], bh, bhtab[..], H, l, r);
  }

  /** One pass: from depth `H` to depth `2H`; `nNotDone` counts the rotations that were still tied. */
  method RefinePass(fmap: array<nat>, eclass: array<nat>, bhtab: array<bool>, ghost b: seq<int>, H: nat)
    returns (nNotDone: nat)
    requires fmap != eclass && |b| == fmap.Length == eclass.Length < Pow2(31)
    requires bhtab.Length == BhBits(|b|) && H <= |b| && Depth(b, fmap[..], bhtab[..], H)
    modifies fmap, eclass, bhtab
    ensures Depth(b, fmap[..], bhtab[..], Twice(H))
    ensures nNotDone == 0 ==> forall g :: H <= g ==> Sorted(b, fmap[..], g)
  {
    AssignClasses(fmap, eclass, bhtab, H);
    AssignedClasses(b, fmap[..], bhtab[..], eclass[..], H);
    ghost var e, f0, bh0 := eclass[..], fmap[..], bhtab[..];
    RefiningStarts(b, f0, bh0, H);
    nNotDone := 0;
    var r: int := -1;
    while true
      invariant -1 <= r < fmap.Length && eclass[..] == e
      invariant Refining(b, fmap[..], bhtab[..], H, r + 1)
      invariant nNotDone == 0 ==> fmap[..] == f0 && bhtab[..] == bh0 && forall x :: 0 <= x <= r + 1 ==> bh0[x]
      decreases fmap.Length - r
    {
      ghost var p := r + 1;
      var l, r' := NextBucket(bhtab, fmap.Length, r + 1);
      SkipSingletons(b, fmap[..], bhtab[..], H, p, l);
      if l >= fmap.Length { break; }
      r := r';
      if r > l {
        nNotDone := nNotDone + (r - l + 1);
        RefineBucket(fmap, eclass, bhtab, b, H, l, r);
      }
    }
    RefiningEnds(b, fmap[..], bhtab[..], H);
    if nNotDone == 0 {
      UnchangedPass(b, f0, bh0, H);
    }
  }

  lemma UnchangedPass(b: seq<int>, f: seq<nat>, bh: seq<bool>, h: nat)
    requires Depth(b, f, bh, h) && forall x :: 0 <= x < |b| ==> bh[x]
    ensures forall g :: h <= g ==> Sorted(b, f, g)
  {
    forall x | 0 < x < |b| ensures Cmp(b, f[x - 1], f[x], h) < 0 {
      assert BitAt(b, f, bh, x, h);
    }
    forall g | h <= g ensures Sorted(b, f, g) {
      AllSingletons(b, f, h, g);
    }
  }

  /** The doubling loop. */
  method DoublingLoop(fmap: array<nat>, eclass: array<nat>, bhtab: array<bool>, ghost b: seq<int>)
    requires fmap != eclass && 0 < |b| == fmap.Length == eclass.Length < Pow2(31)
    requires bhtab.Length == BhBits(|b|) && Depth(b, fmap[..], bhtab[..], 1)
    modifies fmap, eclass, bhtab
    ensures SortsRotations(b, fmap[..])
  {
    var H := 1;
    while true
      invariant 1 <= H <= |b| && Depth(b, fmap[..], bhtab[..], H)
      decreases |b| - H
    {
      var nNotDone := RefinePass(fmap, eclass, bhtab, b, H);
      H := H * 2;
      if H > fmap.Length || nNotDone == 0 {
        if H > fmap.Length {
          SortedShorter(b, fmap[..], |b|, H);
        }
        break;
      }
    }
  }

  /** The last loop: puts the block back where the classes overwrote it. */
  method RestoreBlock(fmap: array<nat>, eclass: array<nat>, ftabCopy: array<nat>, ghost b: seq<int>)
    requires fmap != eclass && fmap != ftabCopy && eclass != ftabCopy
    requires 0 < |b| == fmap.Length == eclass.Length && AllBytes(b)
    requires IsPerm(fmap[..], |b|) && Sorted(b, fmap[..], 1) && ftabCopy.Length == 256
    requires forall c :: 0 <= c < 256 ==> ftabCopy[c] == Count(b, c)
    modifies eclass, ftabCopy
    ensures Eclass8(eclass[..], |b|) == b
  {
    ghost var f, n := fmap[..], |b|;
    var j := 0;
    BelowBounds(b, 0, 256);
    BelowStep(b, 0);
    for i := 0 to fmap.Length
      invariant fmap[..] == f && 0 <= j < 256
      invariant Below(b, j) <= i && ftabCopy[j] == Below(b, j + 1) - i
      invariant forall c :: j < c < 256 ==> ftabCopy[c] == Count(b, c)
      invariant forall x {:trigger f[x]} :: 0 <= x < i ==> Eclass8(eclass[..], n)[f[x]] == b[f[x]]
    {
      j := NextByte(ftabCopy, j, b, f, i);
      ftabCopy[j] := ftabCopy[j] - 1;
      PutByte(eclass, fmap[i], j);
    }
    forall q | 0 <= q < n ensures Eclass8(eclass[..], n)[q] == b[q] {
      PermReaches(f, n, q);
      var x :| 0 <= x < |f| && f[x] == q;
    }
  }

  /** `while (ftabCopy[j] == 0) j++;` stops at the byte of sorted position `i`. */
  method NextByte(ftabCopy: array<nat>, j0: nat, ghost b: seq<int>, ghost f: seq<nat>, ghost i: nat) returns (j: nat)
    requires b != [] && AllBytes(b) && IsPerm(f, |b|) && Sorted(b, f, 1) && i < |b|
    requires ftabCopy.Length == 256 && j0 < 256 && Below(b, j0) <= i && ftabCopy[j0] == Below(b, j0 + 1) - i
    requires forall c :: j0 < c < 256 ==> ftabCopy[c] == Count(b, c)
    ensures j0 <= j < 256 && j == b[f[i]] && ftabCopy[j] == Below(b, j + 1) - i > 0
    ensures Below(b, j) <= i
  {
    ghost var t := b[f[i]];
    RankOfByte(b, f, i);
    j := j0;
    if t < j { BelowMono(b, t + 1, j); }
    while ftabCopy[j] == 0
      invariant j0 <= j <= t && Below(b, j) <= i && ftabCopy[j] == Below(b, j + 1) - i
      decreases 256 - j
    {
      BelowStep(b, j + 1);
      j := j + 1;
    }
    if j < t { BelowMono(b, j + 1, t); }
  }

  /** `fallbackSort`: sorts the rotations of the block held in the bytes of `eclass`, and leaves it there. */
  method FallbackSort(fmap: array<nat>, eclass: array<nat>, bhtab: array<bool>)
    requires fmap != eclass && 0 < fmap.Length == eclass.Length < Pow2(31) && bhtab.Length == BhBits(fmap.Length)
    modifies fmap, eclass, bhtab
    ensures Eclass8(eclass[..], eclass.Length) == old(Eclass8(eclass[..], eclass.Length))
    ensures SortsRotations(Eclass8(eclass[..], eclass.Length), fmap[..])
  {
    ghost var b := Eclass8(eclass[..], eclass.Length);
    var ftabCopy := BucketSort(fmap, eclass, bhtab);
    DoublingLoop(fmap, eclass, bhtab, b);
    SortedShorter(b, fmap[..], 1, |b|);
    RestoreBlock(fmap, eclass, ftabCopy, b);
  }

  /** The end of `BZ2_blockSort`: the row of the unrotated block. Assertion 1003 cannot fire. */
  method FindOrigPtr(ptr: array<nat>) returns (origPtr: nat)
    requires ptr.Length > 0 && IsPerm(ptr[..], ptr.Length)
    ensures origPtr < ptr.Length && ptr[origPtr] == 0
  {
    ghost var p := ptr[..];
    PermReaches(p, ptr.Length, 0);
    ghost var z :| 0 <= z < |p| && p[z] == 0;
    origPtr := 0;
    while ptr[origPtr] != 0
      invariant origPtr <= z
      decreases z - origPtr
    {
      origPtr := origPtr + 1;
    }
  }
}
