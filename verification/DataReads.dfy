/** The symbols of a block, and the block as a whole. */
module DataReads {
  import opened Bits
  import opened Crc
  import opened RunLength
  import opened Mtf
  import opened HuffmanCodes
  import opened Resumable
  import opened Decoder
  import opened Format
  import opened FormatReads

  /** The table for symbol `k` is there and has a code for `s`. */
  ghost predicate Coded(cd: Coding, k: nat, s: nat) {
    var lens := TableOf(cd, k);
    lens != [] && Lengths(lens, 1, LONGEST) && Fits(lens, MaxOf(lens)) && s < |lens|
  }

  lemma CodedBounds(cd: Coding, k: nat, s: nat)
    requires Coded(cd, k, s)
    ensures var lens := TableOf(cd, k);
      Bounds(lens, MinOf(lens), MaxOf(lens)) && MinLength(cd, k) == MinOf(lens) && MinOf(lens) <= lens[s] <= LONGEST
  {
  }

  /** The state after `m` bits of the code of `s`, at least the shortest length and not all of them. */
  function PartAt(st: Stream, hd: Head, cd: Coding, um: Unmtfing, k: nat, s: nat, m: nat): Dec
    requires s < |TableOf(cd, k)|
  {
    var lens := TableOf(cd, k);
    SymbolBit(st, hd, cd, um, k, m, if m <= lens[s] then Shr(Code(lens, s), lens[s] - m) else 0)
  }

  /** The probe after `m` bits of a code. */
  lemma ProbeIs(st: Stream, hd: Head, cd: Coding, um: Unmtfing, k: nat, s: nat, m: nat)
    requires Coded(cd, k, s) && MinOf(TableOf(cd, k)) <= m <= TableOf(cd, k)[s]
    ensures var lens := TableOf(cd, k);
      ProbeSymbol(st, hd, cd, um, k, m, Shr(Code(lens, s), lens[s] - m))
      == if m < lens[s] then PartAt(st, hd, cd, um, k, s, m) else Accept(st, hd, cd, um, k, s)
  {
    CodedBounds(cd, k, s);
    CheckCode(TableOf(cd, k), MinOf(TableOf(cd, k)), MaxOf(TableOf(cd, k)), s, m);
  }

  lemma StepSymbol(st: Stream, hd: Head, cd: Coding, um: Unmtfing, k: nat, v: nat)
    ensures Need(Symbol(st, hd, cd, um, k)) == MinLength(cd, k)
    ensures Step(Symbol(st, hd, cd, um, k), v) == ProbeSymbol(st, hd, cd, um, k, MinLength(cd, k), v)
  {
    hide ProbeSymbol, MinLength;
  }

  /** The shortest length is read at once. */
  lemma FirstStep(st: Stream, hd: Head, cd: Coding, um: Unmtfing, k: nat, s: nat) returns (v: nat)
    requires Coded(cd, k, s) && MinOf(TableOf(cd, k)) < TableOf(cd, k)[s]
    ensures var m := MinOf(TableOf(cd, k));
      && Steps(Symbol(st, hd, cd, um, k), m, v, PartAt(st, hd, cd, um, k, s, m))
      && NatBits(m, v) == CodeBits(TableOf(cd, k), s)[..m]
  {
    var lens := TableOf(cd, k);
    hide Step, Need, ProbeSymbol, Code, Shr, NatBits, MinLength, Pow2, Used, Accept;
    var m, n, c := MinOf(lens), lens[s], Code(lens, s);
    CodedBounds(cd, k, s);
    CodeFits(lens, MaxOf(lens), s);
    ShrBits(n, c, n - m);
    ShrBound(c, n - m, m);
    v := Shr(c, n - m);
    StepSymbol(st, hd, cd, um, k, v);
    ProbeIs(st, hd, cd, um, k, s, m);
  }

  lemma FirstPart(dec: Machine<Dec>, st: Stream, hd: Head, cd: Coding, um: Unmtfing, k: nat, s: nat)
    requires IsDecoder(dec)
    requires Coded(cd, k, s) && MinOf(TableOf(cd, k)) < TableOf(cd, k)[s]
    ensures var lens := TableOf(cd, k);
      Goes(dec, Symbol(st, hd, cd, um, k), CodeBits(lens, s)[..MinOf(lens)], PartAt(st, hd, cd, um, k, s, MinOf(lens)))
  {
    var v := FirstStep(st, hd, cd, um, k, s);
    hide Coded, Steps, Reads, CodeBits, PartAt, NatBits;
    Field(dec, Symbol(st, hd, cd, um, k), MinOf(TableOf(cd, k)), v,
      PartAt(st, hd, cd, um, k, s, MinOf(TableOf(cd, k))));
  }

  lemma {:induction false} PartReads(dec: Machine<Dec>, st: Stream, hd: Head, cd: Coding, um: Unmtfing, k: nat, s: nat,
        m: nat)
    requires IsDecoder(dec)
    requires Coded(cd, k, s) && MinOf(TableOf(cd, k)) <= m < TableOf(cd, k)[s]
    ensures var lens := TableOf(cd, k);
      Goes(dec, Symbol(st, hd, cd, um, k), CodeBits(lens, s)[..m], PartAt(st, hd, cd, um, k, s, m))
  {
    hide Accept, Check, Code, Step, Reads;
    var lens := TableOf(cd, k);
    if m == MinOf(lens) {
      FirstPart(dec, st, hd, cd, um, k, s);
    } else {
      var b := CodeBits(lens, s);
      PartReads(dec, st, hd, cd, um, k, s, m - 1);
      PartStep(st, hd, cd, um, k, s, m);
      assert b[..m] == b[..m - 1] + [b[m - 1]];
      ThenBit(dec, Symbol(st, hd, cd, um, k), b[..m - 1], PartAt(st, hd, cd, um, k, s, m - 1), b[m - 1],
        PartAt(st, hd, cd, um, k, s, m));
    }
  }

  /** The value of the first `m` bits of a code from that of one bit less. */
  lemma PartBit(lens: seq<nat>, s: nat, m: nat) returns (v: nat, x: nat, y: nat)
    requires s < |lens| && 0 < m <= lens[s]
    ensures v == (if CodeBits(lens, s)[m - 1] then 1 else 0) && y == 2 * x + v && v < Pow2(1)
    ensures x == Shr(Code(lens, s), lens[s] - (m - 1)) && y == Shr(Code(lens, s), lens[s] - m)
  {
    v := if CodeBits(lens, s)[m - 1] then 1 else 0;
    x, y := Shr(Code(lens, s), lens[s] - (m - 1)), Shr(Code(lens, s), lens[s] - m);
    ShrSplit(lens[s], Code(lens, s), m - 1);
    OneBit();
  }

  lemma PartStep(st: Stream, hd: Head, cd: Coding, um: Unmtfing, k: nat, s: nat, m: nat)
    requires Coded(cd, k, s) && MinOf(TableOf(cd, k)) < m <= TableOf(cd, k)[s]
    ensures var lens := TableOf(cd, k); var v := if CodeBits(lens, s)[m - 1] then 1 else 0;
      && Need(PartAt(st, hd, cd, um, k, s, m - 1)) == 1 && v < Pow2(1)
      && Step(PartAt(st, hd, cd, um, k, s, m - 1), v)
         == if m < lens[s] then PartAt(st, hd, cd, um, k, s, m) else Accept(st, hd, cd, um, k, s)
  {
    hide Accept, Check, Code, ProbeSymbol;
    ProbeIs(st, hd, cd, um, k, s, m);
    var v, x, y := PartBit(TableOf(cd, k), s, m);
    var d := SymbolBit(st, hd, cd, um, k, m - 1, x);
    assert PartAt(st, hd, cd, um, k, s, m - 1) == d;
    assert Step(d, v) == ProbeSymbol(st, hd, cd, um, k, m, y);
  }

  lemma ShortestField(st: Stream, hd: Head, cd: Coding, um: Unmtfing, k: nat, s: nat)
    requires Coded(cd, k, s) && MinOf(TableOf(cd, k)) == TableOf(cd, k)[s]
    ensures var lens := TableOf(cd, k); var e := Symbol(st, hd, cd, um, k);
      && Need(e) == lens[s] > 0 && Code(lens, s) < Pow2(lens[s])
      && Step(e, Code(lens, s)) == Accept(st, hd, cd, um, k, s)
  {
    var lens := TableOf(cd, k);
    CodedBounds(cd, k, s);
    CheckCode(lens, MinOf(lens), MaxOf(lens), s, lens[s]);
    CodeFits(lens, MaxOf(lens), s);
  }

  /** The last field of a code, and the state before it. */
  lemma LastField(dec: Machine<Dec>, st: Stream, hd: Head, cd: Coding, um: Unmtfing, k: nat, s: nat)
    returns (a: bits, e: Dec, w: nat, v: nat)
    requires IsDecoder(dec)
    requires Coded(cd, k, s)
    ensures Goes(dec, Symbol(st, hd, cd, um, k), a, e) && !e.Emitting? && Need(e) == w > 0 && v < Pow2(w)
    ensures Step(e, v) == Accept(st, hd, cd, um, k, s) && a + NatBits(w, v) == CodeBits(TableOf(cd, k), s)
  {
    hide Accept, Check, Code, ProbeSymbol, Step, Reads;
    var lens := TableOf(cd, k);
    var n, b := lens[s], CodeBits(lens, s);
    CodedBounds(cd, k, s);
    if MinOf(lens) == n {
      ShortestField(st, hd, cd, um, k, s);
      a, e, w, v := [], Symbol(st, hd, cd, um, k), n, Code(lens, s);
      GoesNothing(dec, e);
      assert a + b == b;
    } else {
      PartReads(dec, st, hd, cd, um, k, s, n - 1);
      PartStep(st, hd, cd, um, k, s, n);
      hide Goes, Need, TableOf;
      a, e, w, v := b[..n - 1], PartAt(st, hd, cd, um, k, s, n - 1), 1, if b[n - 1] then 1 else 0;
      OneBit();
      assert a + [b[n - 1]] == b;
    }
  }

  /** A symbol other than end-of-block. */
  lemma SymbolReads(dec: Machine<Dec>, st: Stream, hd: Head, cd: Coding, um: Unmtfing, k: nat, s: nat)
    requires IsDecoder(dec)
    requires Coded(cd, k, s) && !Accept(st, hd, cd, um, k, s).Emitting?
    ensures Goes(dec, Symbol(st, hd, cd, um, k), CodeBits(TableOf(cd, k), s), Accept(st, hd, cd, um, k, s))
  {
    var a, e, w, v := LastField(dec, st, hd, cd, um, k, s);
    ThenField(dec, Symbol(st, hd, cd, um, k), a, e, w, v, Accept(st, hd, cd, um, k, s));
  }

  /** The symbol that ends the block: its whole output follows. */
  lemma EndReads(dec: Machine<Dec>, st: Stream, hd: Head, cd: Coding, um: Unmtfing, k: nat, s: nat)
    requires IsDecoder(dec)
    requires Coded(cd, k, s) && Accept(st, hd, cd, um, k, s).Emitting?
    ensures var d := Accept(st, hd, cd, um, k, s);
      Reads(dec, Symbol(st, hd, cd, um, k), CodeBits(TableOf(cd, k), s), EmitAll(d).0, EmitAll(d).1)
  {
    var a, e, w, v := LastField(dec, st, hd, cd, um, k, s);
    var d := Accept(st, hd, cd, um, k, s);
    assert dec.step(e, v) == d && dec.need(e) == w;
    assert dec.emitAll(d) == EmitAll(d) && !EmitAll(d).1.Emitting?;
    ReadsFieldEmitting(dec, e, w, v);
    ReadsThen(dec, Symbol(st, hd, cd, um, k), a, [], e, NatBits(w, v), EmitAll(d).0, EmitAll(d).1);
    assert [] + EmitAll(d).0 == EmitAll(d).0;
  }

  /** Decoding only ever adds to what was decoded. */
  lemma {:induction false} OutGrows(d: Unmtfing, a: seq<nat>, k: nat)
    requires d.Valid() && k <= |a|
    ensures |DecodeAll(d, a[..k]).out| <= |DecodeAll(d, a).out| <= |EndRun(DecodeAll(d, a)).out|
    decreases |a|
  {
    if k < |a| {
      OutGrows(d, a[..|a| - 1], k);
      assert a[..|a| - 1][..k] == a[..k];
    } else {
      assert a[..k] == a;
    }
  }

  /** What a block's symbols must satisfy: they decode to `v`, which is no longer than a block may be. */
  ghost predicate Decodable(hd: Head, syms: seq<nat>, v: seq<nat>, max: nat) {
    && syms != [] && syms[|syms| - 1] == |hd.unseq| + 1 && |hd.unseq| <= 256
    && Indices(syms[..|syms| - 1], |hd.unseq| + 1)
    && EndRun(DecodeAll(Start(256), syms[..|syms| - 1])).out == v && |v| <= max
  }

  /** Every symbol has a code in the table of its group. */
  ghost predicate AllCoded(cd: Coding, syms: seq<nat>) {
    |syms| <= GROUP_SIZE * |cd.selectors| && forall k :: 0 <= k < |syms| ==> Coded(cd, k, syms[k])
  }

  function SymbolAt(st: Stream, hd: Head, cd: Coding, syms: seq<nat>, k: nat): Dec
    requires k <= |syms|
  {
    Symbol(st, hd, cd, DecodeAll(Start(256), syms[..k]), k)
  }

  lemma PrefixDecodes(hd: Head, syms: seq<nat>, v: seq<nat>, max: nat, k: nat)
    requires Decodable(hd, syms, v, max) && k + 1 < |syms|
    ensures syms[k] <= |hd.unseq| && |DecodeAll(Start(256), syms[..k + 1]).out| <= max
    ensures DecodeAll(Start(256), syms[..k + 1]) == Mtf.Decode(DecodeAll(Start(256), syms[..k]), syms[k])
  {
    var body := syms[..|syms| - 1];
    assert syms[..k + 1][..k] == syms[..k];
    assert body[..k + 1] == syms[..k + 1];
    assert body[k] == syms[k];
    OutGrows(Start(256), body, k + 1);
  }

  lemma AcceptInside(st: Stream, hd: Head, cd: Coding, um: Unmtfing, k: nat, s: nat)
    requires um.Valid() && s <= |hd.unseq| && |Mtf.Decode(um, s).out| <= 100000 * st.level
    requires k + 1 < GROUP_SIZE * |cd.selectors|
    ensures Accept(st, hd, cd, um, k, s) == Symbol(st, hd, cd, Mtf.Decode(um, s), k + 1)
  {
  }

  lemma SymbolRead(dec: Machine<Dec>, st: Stream, hd: Head, cd: Coding, syms: seq<nat>, v: seq<nat>, k: nat)
    requires IsDecoder(dec)
    requires Decodable(hd, syms, v, 100000 * st.level) && AllCoded(cd, syms) && k + 1 < |syms|
    ensures Goes(dec, SymbolAt(st, hd, cd, syms, k), SymbolBits(cd, k, syms[k]), SymbolAt(st, hd, cd, syms, k + 1))
  {
    PrefixDecodes(hd, syms, v, 100000 * st.level, k);
    AcceptInside(st, hd, cd, DecodeAll(Start(256), syms[..k]), k, syms[k]);
    SymbolReads(dec, st, hd, cd, DecodeAll(Start(256), syms[..k]), k, syms[k]);
  }

  function SymbolStates(st: Stream, hd: Head, cd: Coding, syms: seq<nat>, n: nat): (at: seq<Dec>)
    requires n <= |syms|
    ensures |at| == n + 1 && at[0] == Symbol(st, hd, cd, Start(256), 0)
    ensures forall k {:trigger at[k]} :: 0 <= k <= n ==> at[k] == SymbolAt(st, hd, cd, syms, k)
  {
    assert syms[..0] == [];
    seq(n + 1, k requires 0 <= k <= n => SymbolAt(st, hd, cd, syms, k))
  }

  lemma SymbolsRead(dec: Machine<Dec>, st: Stream, hd: Head, cd: Coding, syms: seq<nat>, v: seq<nat>, n: nat)
    requires IsDecoder(dec)
    requires Decodable(hd, syms, v, 100000 * st.level) && AllCoded(cd, syms) && n < |syms|
    ensures Goes(dec, Symbol(st, hd, cd, Start(256), 0), Joined(Pieces(cd, syms), 0, n), SymbolAt(st, hd, cd, syms, n))
  {
    var at, ps := SymbolStates(st, hd, cd, syms, n), Pieces(cd, syms);
    forall k {:trigger ps[k]} | 0 <= k < n ensures Goes(dec, at[k], ps[k], at[k + 1]) {
      SymbolRead(dec, st, hd, cd, syms, v, k);
    }
    PiecesGo(dec, at, ps, n, n);
  }

  /** The last symbol ends the block. */
  lemma LastAccepted(st: Stream, hd: Head, cd: Coding, syms: seq<nat>, v: seq<nat>)
    requires Decodable(hd, syms, v, 100000 * st.level) && hd.orig < |v|
    ensures var k := |syms| - 1;
      Accept(st, hd, cd, DecodeAll(Start(256), syms[..k]), k, syms[k]) == EndBlock(st, hd, v)
    ensures EndBlock(st, hd, v).Emitting?
  {
    hide Unmapped, BlockOutputOf;
  }

  /** All the data of a block. */
  lemma DataRead(dec: Machine<Dec>, st: Stream, hd: Head, cd: Coding, syms: seq<nat>, v: seq<nat>)
    requires IsDecoder(dec)
    requires Decodable(hd, syms, v, 100000 * st.level) && AllCoded(cd, syms) && hd.orig < |v|
    ensures var d := EndBlock(st, hd, v);
      d.Emitting? && Reads(dec, Symbol(st, hd, cd, Start(256), 0), DataBits(cd, syms), EmitAll(d).0, EmitAll(d).1)
  {
    hide Reads, Lengths, Fits, TableOf, EmitAll, CodeBits, DecodeAll, EndRun, Unmapped, Unmtfing.Valid, IsDecoder;
    var k := |syms| - 1;
    var um, d := DecodeAll(Start(256), syms[..k]), EndBlock(st, hd, v);
    SymbolsRead(dec, st, hd, cd, syms, v, k);
    LastAccepted(st, hd, cd, syms, v);
    EndReads(dec, st, hd, cd, um, k, syms[k]);
    ReadsThen(dec, Symbol(st, hd, cd, Start(256), 0), Joined(Pieces(cd, syms), 0, k), [], SymbolAt(st, hd, cd, syms, k),
              SymbolBits(cd, k, syms[k]), EmitAll(d).0, EmitAll(d).1);
    assert [] + EmitAll(d).0 == EmitAll(d).0;
  }
}
