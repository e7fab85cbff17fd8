/** Move-to-front coding with zero runs as RUNA/RUNB digits: the codec on values and its round trip. */
module Mtf {
  import opened Bits
  import opened RunLength

  const RUNA := 0
  const RUNB := 1

  ghost predicate Indices(v: seq<nat>, n: nat) {
    forall i :: 0 <= i < |v| ==> v[i] < n
  }

  /** The list with its `n`-th entry moved to the front. */
  function Front<T>(list: seq<T>, n: nat): (r: seq<T>)
    requires n < |list|
    ensures |r| == |list| && r[0] == list[n]
    ensures forall k {:trigger r[k]} :: 1 <= k <= n ==> r[k] == list[k - 1]
    ensures forall k {:trigger r[k]} :: n < k < |list| ==> r[k] == list[k]
  {
    [list[n]] + list[..n] + list[n + 1..]
  }

  function Position<T(==)>(list: seq<T>, c: T): (n: nat)
    requires c in list
    ensures n < |list| && list[n] == c && forall k :: 0 <= k < n ==> list[k] != c
  {
    if list[0] == c then 0 else 1 + Position(list[1..], c)
  }

  lemma FrontMembers<T>(list: seq<T>, n: nat, x: T)
    requires n < |list| && x in list
    ensures x in Front(list, n)
  {
    var k :| 0 <= k < |list| && list[k] == x;
    var r := Front(list, n);
    if k < n { assert r[k + 1] == x; } else if k == n { assert r[0] == x; } else { assert r[k] == x; }
  }

  /** `w + 1` zeros as digits, least significant first: the loop that writes RUNA and RUNB. */
  function Digits(w: nat): (ds: seq<nat>)
    ensures 1 <= |ds| <= w + 1 && forall i :: 0 <= i < |ds| ==> ds[i] <= RUNB
  {
    if w < 2 then [w % 2] else [w % 2] + Digits((w - 2) / 2)
  }

  function ZeroRun(z: nat): (ds: seq<nat>)
    ensures |ds| <= z && (z > 0 ==> |ds| > 0) && forall i :: 0 <= i < |ds| ==> ds[i] <= RUNB
  {
    if z == 0 then [] else Digits(z - 1)
  }

  /** `generateMTFValues` between two elements. */
  datatype Mtfing = Mtfing(yy: seq<nat>, zPend: nat, out: seq<nat>)

  /** The symbols that an element adds. */
  function Added(s: Mtfing, c: nat): (syms: seq<nat>)
    requires c in s.yy
    ensures |syms| <= s.zPend + 1 && Indices(syms, |s.yy| + 1)
    ensures s.yy[0] == c ==> syms == []
  {
    if s.yy[0] == c then [] else ZeroRun(s.zPend) + [Position(s.yy, c) + 1]
  }

  function Encode(s: Mtfing, c: nat): (t: Mtfing)
    requires c in s.yy
    ensures |t.yy| == |s.yy| && t.out == s.out + Added(s, c)
  {
    if s.yy[0] == c then Mtfing(s.yy, s.zPend + 1, s.out)
    else Mtfing(Front(s.yy, Position(s.yy, c)), 0, s.out + Added(s, c))
  }

  function Identity(n: nat): (s: seq<nat>)
    ensures |s| == n && forall i :: 0 <= i < n ==> s[i] == i
  {
    seq(n, i => i)
  }

  ghost predicate Complete(yy: seq<nat>) {
    forall x {:trigger x in yy} :: 0 <= x < |yy| ==> x in yy
  }

  lemma CompleteStart(n: nat)
    ensures Complete(Identity(n))
  {
    forall x | 0 <= x < n ensures x in Identity(n) { assert Identity(n)[x] == x; }
  }

  lemma CompleteFront(yy: seq<nat>, n: nat)
    requires Complete(yy) && n < |yy|
    ensures Complete(Front(yy, n))
  {
    forall x | 0 <= x < |yy| ensures x in Front(yy, n) { FrontMembers(yy, n, x); }
  }

  /** After the elements `v`. */
  function EncodeAll(v: seq<nat>, nInUse: nat): (s: Mtfing)
    requires Indices(v, nInUse)
    ensures |s.yy| == nInUse && Complete(s.yy)
    ensures |s.out| + s.zPend <= |v| && Indices(s.out, nInUse + 1)
  {
    if v == [] then
      CompleteStart(nInUse);
      Mtfing(Identity(nInUse), 0, [])
    else
      var s := EncodeAll(v[..|v| - 1], nInUse);
      CompleteFront(s.yy, Position(s.yy, v[|v| - 1]));
      Encode(s, v[|v| - 1])
  }

  /** The symbols written for `v`: the end-of-block symbol last. */
  function Symbols(v: seq<nat>, nInUse: nat): (syms: seq<nat>)
    requires Indices(v, nInUse)
    ensures 1 <= |syms| <= |v| + 1 && syms[|syms| - 1] == nInUse + 1
    ensures Indices(syms[..|syms| - 1], nInUse + 1)
  {
    var s := EncodeAll(v, nInUse);
    var body := s.out + ZeroRun(s.zPend);
    assert (body + [nInUse + 1])[..|body|] == body;
    body + [nInUse + 1]
  }

  /** The decoder between two symbols; `N` is 0 outside a zero run. */
  datatype Unmtfing = Unmtfing(list: seq<nat>, out: seq<nat>, es: int, N: nat) {
    predicate Valid() {
      list != [] && es >= -1
    }
  }

  function Copies(c: nat, n: nat): (s: seq<nat>)
    ensures |s| == n && forall i :: 0 <= i < n ==> s[i] == c
  {
    seq(n, i => c)
  }

  /** The end of a zero run: `es + 1` copies of the first list entry. */
  function EndRun(d: Unmtfing): (e: Unmtfing)
    requires d.Valid()
    ensures e.Valid() && e.N == 0 && |e.list| == |d.list|
  {
    if d.N == 0 then d else Unmtfing(d.list, d.out + Copies(d.list[0], d.es + 1), 0, 0)
  }

  /** One digit of a zero run. */
  function Digit(d: Unmtfing, sym: nat): (e: Unmtfing)
    requires d.Valid()
    ensures e.Valid() && e.list == d.list
  {
    var b := if d.N == 0 then d.(es := -1, N := 1) else d;
    b.(es := if sym == RUNA then b.es + b.N else b.es + b.N + b.N, N := b.N + b.N)
  }

  /** A list position. */
  function Access(b: Unmtfing, n: nat): (e: Unmtfing)
    requires b.Valid() && n < |b.list|
    ensures e.Valid() && |e.list| == |b.list|
  {
    Unmtfing(Front(b.list, n), b.out + [b.list[n]], 0, 0)
  }

  /** One symbol other than end-of-block. Symbols past the list do not occur: codes exist only up to it. */
  function Decode(d: Unmtfing, sym: nat): (e: Unmtfing)
    requires d.Valid()
    ensures e.Valid() && |e.list| == |d.list|
  {
    if sym <= RUNB then Digit(d, sym)
    else if sym <= |d.list| then Access(EndRun(d), sym - 1)
    else d
  }

  function DecodeAll(d: Unmtfing, syms: seq<nat>): (e: Unmtfing)
    requires d.Valid()
    ensures e.Valid() && |e.list| == |d.list|
  {
    if syms == [] then d else Decode(DecodeAll(d, syms[..|syms| - 1]), syms[|syms| - 1])
  }

  lemma {:induction false} DecodeConcat(d: Unmtfing, a: seq<nat>, b: seq<nat>)
    requires d.Valid()
    ensures DecodeAll(d, a + b) == DecodeAll(DecodeAll(d, a), b)
  {
    if b == [] {
      assert a + b == a;
    } else {
      DecodeConcat(d, a, b[..|b| - 1]);
      assert (a + b)[..|a + b| - 1] == a + b[..|b| - 1];
    }
  }

  /** The number a digit string stands for. */
  function RunValue(ds: seq<nat>): nat {
    if ds == [] then 0 else (if ds[0] == RUNA then 1 else 2) + 2 * RunValue(ds[1..])
  }

  lemma {:induction false} DigitsValue(w: nat)
    ensures RunValue(Digits(w)) == w + 1
  {
    if w >= 2 {
      DigitsValue((w - 2) / 2);
      assert Digits(w)[1..] == Digits((w - 2) / 2);
    }
  }

  lemma {:induction false} RunValueAppend(ds: seq<nat>, d: nat)
    ensures RunValue(ds + [d]) == RunValue(ds) + Shl(if d == RUNA then 1 else 2, |ds|)
  {
    if ds == [] {
      assert (ds + [d])[1..] == [];
    } else {
      RunValueAppend(ds[1..], d);
      assert (ds + [d])[1..] == ds[1..] + [d];
    }
  }

  lemma {:induction false} ShlTwo(n: nat)
    ensures Shl(2, n) == 2 * Shl(1, n) == Shl(1, n + 1)
  {
    if n > 0 { ShlTwo(n - 1); }
  }

  /** Reading digits accumulates their value. */
  lemma {:induction false} DecodeDigits(d: Unmtfing, ds: seq<nat>)
    requires d.Valid() && d.N == 0 && ds != [] && Indices(ds, RUNB + 1)
    ensures DecodeAll(d, ds) == d.(es := RunValue(ds) - 1, N := Shl(1, |ds|))
  {
    var a, last := ds[..|ds| - 1], ds[|ds| - 1];
    assert ds == a + [last];
    RunValueAppend(a, last);
    ShlTwo(|a|);
    if a != [] {
      DecodeDigits(d, a);
      ShlPow2(|a|);
    } else {
      assert RunValue(a) == 0;
    }
  }

  /** A zero run, then its end, is that many copies. */
  lemma DecodeZeroRun(d: Unmtfing, z: nat)
    requires d.Valid() && d.N == 0 && d.es == 0
    ensures EndRun(DecodeAll(d, ZeroRun(z))) == d.(out := d.out + Copies(d.list[0], z))
  {
    if z > 0 {
      DigitsValue(z - 1);
      DecodeDigits(d, Digits(z - 1));
      ShlPow2(|Digits(z - 1)|);
    } else {
      assert d.out + Copies(d.list[0], 0) == d.out;
    }
  }

  function Start(size: nat): (d: Unmtfing)
    ensures size > 0 ==> d.Valid()
  {
    Unmtfing(Identity(size), [], 0, 0)
  }

  /** The decoder has read what the encoder wrote; the encoder's pending zeros are still missing. */
  ghost predicate Paired(s: Mtfing, d: Unmtfing, v: seq<nat>, nInUse: nat) {
    && d.Valid() && d.N == 0 && d.es == 0 && 0 < nInUse <= |d.list|
    && s.yy == d.list[..nInUse] && v == d.out + Copies(d.list[0], s.zPend)
  }

  lemma PairedStep(s: Mtfing, d: Unmtfing, v: seq<nat>, c: nat, nInUse: nat)
    requires Paired(s, d, v, nInUse) && c in s.yy
    ensures Paired(Encode(s, c), DecodeAll(d, Added(s, c)), v + [c], nInUse)
  {
    if s.yy[0] == c {
      assert Copies(c, s.zPend + 1) == Copies(c, s.zPend) + [c];
    } else {
      DecodeZeroRun(d, s.zPend);
      var j := Position(s.yy, c);
      assert d.list[j] == c;
      assert Added(s, c)[..|Added(s, c)| - 1] == ZeroRun(s.zPend);
      var e := DecodeAll(d, Added(s, c));
      assert e.out == v + [c];
      assert e.out + Copies(e.list[0], 0) == e.out;
      assert Front(s.yy, j) == e.list[..nInUse];
    }
  }

  lemma {:induction false} EncodeDecode(v: seq<nat>, nInUse: nat, size: nat)
    requires Indices(v, nInUse) && 1 <= nInUse <= size
    ensures Paired(EncodeAll(v, nInUse), DecodeAll(Start(size), EncodeAll(v, nInUse).out), v, nInUse)
  {
    if v == [] {
      assert Copies(0, 0) == [];
      assert Identity(nInUse) == Identity(size)[..nInUse];
    } else {
      var w, c := v[..|v| - 1], v[|v| - 1];
      assert w + [c] == v;
      EncodeDecode(w, nInUse, size);
      var s := EncodeAll(w, nInUse);
      PairedStep(s, DecodeAll(Start(size), s.out), w, c, nInUse);
      DecodeConcat(Start(size), s.out, Added(s, c));
    }
  }

  /** Reading the symbols of `v` up to end-of-block gives back `v`; only the last one is end-of-block. */
  lemma SymbolsDecode(v: seq<nat>, nInUse: nat, size: nat)
    requires Indices(v, nInUse) && 1 <= nInUse <= size
    ensures var syms := Symbols(v, nInUse);
      EndRun(DecodeAll(Start(size), syms[..|syms| - 1])).out == v
    ensures var syms := Symbols(v, nInUse);
      syms[|syms| - 1] == nInUse + 1 && forall i :: 0 <= i < |syms| - 1 ==> syms[i] < nInUse + 1
  {
    EncodeDecode(v, nInUse, size);
    var s := EncodeAll(v, nInUse);
    var d := DecodeAll(Start(size), s.out);
    DecodeConcat(Start(size), s.out, ZeroRun(s.zPend));
    DecodeZeroRun(d, s.zPend);
    var syms := Symbols(v, nInUse);
    assert syms[..|syms| - 1] == s.out + ZeroRun(s.zPend);
  }
}
