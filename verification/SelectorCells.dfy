/** The number of selectors is read from the stream, but the arrays for them have a fixed number of cells. */
module SelectorCells {
  import opened Bits
  import opened Resumable
  import opened Decoder
  import opened Format
  import opened FormatReads
  import opened TableReads
  import Crc
  import HuffmanCodes
  import Mtf

  /** All of `vs` are read as bits of selectors, and the last of them leads out of the array. */
  predicate Overruns(d: Dec, vs: seq<nat>)
    decreases |vs|
  {
    if vs == [] then d.Overrun? else d.Selector? && Overruns(Step(d, vs[0]), vs[1..])
  }

  /** With as many selectors as there are cells, no position is ever written past the last cell. */
  lemma {:induction false} NoOverrun(d: Dec, vs: seq<nat>)
    requires d.Selector? && |d.mtfs| < d.n <= MAX_SELECTORS
    ensures !Overruns(d, vs)
    decreases |vs|
  {
    hide UndoSelectors;
    if vs != [] {
      var e := Step(d, vs[0]);
      if e.Selector? { NoOverrun(e, vs[1..]); } else { assert !Overruns(e, vs[1..]); }
    }
  }

  /** With more, zeros alone lead there: each is a position. */
  lemma {:induction false} ZerosOverrun(d: Dec, vs: seq<nat>)
    requires d.Selector? && |d.mtfs| <= MAX_SELECTORS < d.n && |vs| == MAX_SELECTORS + 1 - |d.mtfs|
    requires forall i :: 0 <= i < |vs| ==> vs[i] == 0
    ensures Overruns(d, vs)
    decreases |vs|
  {
    hide UndoSelectors;
    if |d.mtfs| < MAX_SELECTORS { ZerosOverrun(Step(d, vs[0]), vs[1..]); } else { assert vs[1..] == []; }
  }

  /**
   * No sequence of bits makes the decoder write past its cells, if and only if no more selectors are claimed than there
   * are cells.
   */
  lemma WritesInside(st: Stream, hd: Head, g: nat, n: nat)
    requires n >= 1
    ensures (forall vs: seq<nat> :: !Overruns(Selector(st, hd, g, n, [], 0), vs)) <==> n <= MAX_SELECTORS
  {
    var d := Selector(st, hd, g, n, [], 0);
    if n <= MAX_SELECTORS {
      forall vs: seq<nat> ensures !Overruns(d, vs) { NoOverrun(d, vs); }
    } else {
      ZerosOverrun(d, seq(MAX_SELECTORS + 1, i => 0));
    }
  }

  /** The bits that do so: 18003 selectors or more are claimed, and 18003 positions follow, each 0. */
  lemma TooMany(dec: Machine<Dec>, st: Stream, hd: Head, g: nat, n: nat)
    requires IsDecoder(dec) && 1 <= g && MAX_SELECTORS < n < 0x8000
    ensures Goes(dec, NumSelectors(st, hd, g), NatBits(SELECTORS_WIDTH, n) + Nones(MAX_SELECTORS + 1), Overrun)
  {
    var d, c, k := NumSelectors(st, hd, g), NatBits(SELECTORS_WIDTH, n), MAX_SELECTORS;
    SelectorFits(n);
    Field(dec, d, SELECTORS_WIDTH, n, Selector(st, hd, g, n, [], 0));
    NonesRead(dec, st, hd, g, n, k);
    LastZero(dec, st, hd, g, n);
    hide Goes, IsDecoder, Nones, Firsts;
    FieldAndNones(dec, d, c, Selector(st, hd, g, n, [], 0), k, Selector(st, hd, g, n, Firsts(k), 0), Overrun);
  }

  lemma FieldAndNones(dec: Machine<Dec>, d: Dec, c: bits, e: Dec, k: nat, f: Dec, last: Dec)
    requires IsDecoder(dec) && Goes(dec, d, c, e) && Goes(dec, e, Nones(k), f) && Goes(dec, f, [false], last)
    ensures Goes(dec, d, c + Nones(k + 1), last)
  {
    hide Reads, IsDecoder;
    Then(dec, d, c, e, Nones(k), f);
    Then(dec, d, c + Nones(k), f, [false], last);
    assert c + Nones(k) + [false] == c + Nones(k + 1);
  }

  lemma LastZero(dec: Machine<Dec>, st: Stream, hd: Head, g: nat, n: nat)
    requires IsDecoder(dec) && 1 <= g
    ensures Goes(dec, Selector(st, hd, g, n, Firsts(MAX_SELECTORS), 0), [false], Overrun)
  {
    var d := Selector(st, hd, g, n, Firsts(MAX_SELECTORS), 0);
    GoesNothing(dec, d);
    OneBit();
    ThenBit(dec, d, [], d, false, Overrun);
    assert [] + [false] == [false];
  }

  function Nones(k: nat): (b: bits)
    ensures |b| == k
  {
    seq(k, i => false)
  }

  function Firsts(k: nat): (s: seq<nat>)
    ensures |s| == k
  {
    seq(k, i => 0)
  }

  lemma {:induction false} NonesRead(dec: Machine<Dec>, st: Stream, hd: Head, g: nat, n: nat, k: nat)
    requires IsDecoder(dec) && 1 <= g && k <= MAX_SELECTORS < n
    ensures Goes(dec, Selector(st, hd, g, n, [], 0), Nones(k), Selector(st, hd, g, n, Firsts(k), 0))
  {
    var d := Selector(st, hd, g, n, [], 0);
    if k == 0 {
      GoesNothing(dec, d);
    } else {
      NonesRead(dec, st, hd, g, n, k - 1);
      OneBit();
      assert Firsts(k) == Firsts(k - 1) + [0] && Nones(k) == Nones(k - 1) + [false];
      ThenBit(dec, d, Nones(k - 1), Selector(st, hd, g, n, Firsts(k - 1), 0), false,
        Selector(st, hd, g, n, Firsts(k), 0));
    }
  }

  // Whole streams.

  /** Some block that the decoder comes to claims more selectors than there are cells. */
  predicate Overclaims(d: Dec, b: bits)
    decreases |b|, if d.Emitting? then 1 else 0
  {
    if d.Emitting? then Overclaims(EmitAll(d).1, b)
    else if Need(d) == 0 || |b| < Need(d) then false
    else
      var v := BitsNat(b[..Need(d)]);
      (d.NumSelectors? && v > MAX_SELECTORS) || Overclaims(Step(d, v), b[Need(d)..])
  }

  /** What the decoder has claimed so far fits. */
  predicate Claimed(d: Dec) {
    !d.Overrun? && (d.Selector? ==> |d.mtfs| < d.n <= MAX_SELECTORS)
  }

  lemma {:induction false} MapClaims(st: Stream, hd: Head, used16: seq<bool>, inUse: seq<bool>)
    ensures Claimed(NextInUse(st, hd, used16, inUse))
    decreases 256 - |inUse|
  {
    if |inUse| < 256 && |used16| >= 16 && |inUse| % 16 == 0 && !used16[|inUse| / 16] {
      MapClaims(st, hd, used16, inUse + seq(16, i => false));
    }
  }

  lemma ProbeClaims(st: Stream, hd: Head, cd: Coding, um: Mtf.Unmtfing, k: nat, zn: nat, zvec: nat)
    ensures Claimed(ProbeSymbol(st, hd, cd, um, k, zn, zvec))
  {
    hide BlockOutputOf, HuffmanCodes.Check, Unmapped;
  }

  lemma StepClaims(d: Dec, v: nat)
    requires Claimed(d) && !(d.NumSelectors? && v > MAX_SELECTORS)
    ensures Claimed(Step(d, v))
  {
    hide UndoSelectors, ProbeSymbol, NextInUse, KeepLength, Append8;
    match d
    case LengthBit(st, hd, nGroups, cd, row, curr) => KeepClaims(st, hd, nGroups, cd, row, curr);
    case Used16(st, hd, used16) =>
      if |used16 + [v == 1]| >= 16 { MapClaims(st, hd, used16 + [v == 1], []); }
    case InUse(st, hd, used16, inUse) => MapClaims(st, hd, used16, inUse + [v == 1]);
    case Symbol(st, hd, cd, um, k) => ProbeClaims(st, hd, cd, um, k, MinLength(cd, k), v);
    case SymbolBit(st, hd, cd, um, k, zn, zvec) => ProbeClaims(st, hd, cd, um, k, zn + 1, 2 * zvec + v);
    case _ =>
  }

  lemma KeepClaims(st: Stream, hd: Head, nGroups: nat, cd: Coding, row: seq<nat>, curr: nat)
    ensures Claimed(KeepLength(st, hd, nGroups, cd, row, curr))
  {
  }

  lemma OutputClaims(d: Dec)
    ensures d.Emitting? ==> Claimed(EmitAll(d).1)
  {
    hide Crc.Updates;
  }

  /** A stream of which no block claims too many selectors never makes the decoder write outside its arrays. */
  lemma {:induction false} StreamInside(d: Dec, b: bits)
    requires Claimed(d) && !Overclaims(d, b)
    ensures !Result(TheDecoder(), d, b).1.Overrun?
    decreases |b|, if d.Emitting? then 1 else 0
  {
    hide Step, Need, FinishBlock, Crc.Updates;
    if d.Emitting? {
      OutputClaims(d);
      StreamInside(EmitAll(d).1, b);
    } else if Need(d) != 0 && |b| >= Need(d) {
      StepClaims(d, BitsNat(b[..Need(d)]));
      StreamInside(Step(d, BitsNat(b[..Need(d)])), b[Need(d)..]);
    }
  }

  /** After too many are claimed, reading ends among the selectors, in an error, or outside the array. */
  lemma {:induction false} NeverBeyond(d: Dec, b: bits)
    requires d.Selector? && |d.mtfs| <= MAX_SELECTORS < d.n
    ensures var e := Result(TheDecoder(), d, b).1; e.Selector? || e.Failed? || e.Overrun?
    decreases |b|
  {
    hide UndoSelectors;
    if |b| >= 1 {
      var e := Step(d, BitsNat(b[..1]));
      if e.Selector? { NeverBeyond(e, b[1..]); } else { EndsThere(e, b[1..]); }
    }
  }

  lemma EndsThere(d: Dec, b: bits)
    requires d.Terminal()
    ensures Result(TheDecoder(), d, b) == ([], d, b)
  {
  }

  /** A stream that the decoder accepts claims too many nowhere. */
  lemma {:induction false} AcceptedInside(d: Dec, b: bits)
    requires Result(TheDecoder(), d, b).1.Done?
    ensures !Overclaims(d, b)
    decreases |b|, if d.Emitting? then 1 else 0
  {
    hide Step, Need, FinishBlock, Crc.Updates;
    if d.Emitting? {
      AcceptedInside(EmitAll(d).1, b);
    } else if Need(d) != 0 && |b| >= Need(d) {
      var v := BitsNat(b[..Need(d)]);
      if d.NumSelectors? && v > MAX_SELECTORS {
        ClaimedTooMany(d, v);
        NeverBeyond(Step(d, v), b[Need(d)..]);
      } else {
        AcceptedInside(Step(d, v), b[Need(d)..]);
      }
    }
  }

  lemma ClaimedTooMany(d: Dec, v: nat)
    requires d.NumSelectors? && v > MAX_SELECTORS
    ensures Step(d, v) == Selector(d.st, d.hd, d.nGroups, v, [], 0)
  {
  }
}
