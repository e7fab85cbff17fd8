/** Compressor and decompressor together, on their arrays: what goes in comes out again. */
module EndToEnd {
  import opened Bits
  import opened Resumable
  import opened Decoder
  import opened Fragments
  import SelectorCells
  import opened FormatReads
  import opened Compressor
  import opened Decompressor

  lemma TheDecoderOutputs()
    ensures Outputs(TheDecoder())
  {
    TheDecoderIsOne();
  }

  /** Calls as the machine on values sees them: the bits of each piece and the space. */
  function BitCalls(calls: seq<(seq<byte>, nat)>): (c: seq<(bits, nat)>)
    ensures |c| == |calls| && forall i {:trigger c[i]} :: 0 <= i < |c| ==> c[i] == (ByteBits(calls[i].0), calls[i].1)
  {
    seq(|calls|, i requires 0 <= i < |calls| => (ByteBits(calls[i].0), calls[i].1))
  }

  /** The space that the last call of a session leaves. */
  function LeftOver(m: Machine<Dec>, d: Dec, b: bits, calls: seq<(bits, nat)>): (n: int)
    decreases |calls|
  {
    if calls == [] then 0
    else
      var r := Call(m, d, b + calls[0].0, calls[0].1);
      if |calls| == 1 then calls[0].1 - |r.0| else LeftOver(m, r.1, r.2, calls[1..])
  }

  /**
   * `BZ2_bzDecompressInit` and any number of calls of `BZ2_bzDecompress`, in the FAST or the SMALL build, up to the
   * first error; `left` is the space that the last of them leaves.
   */
  method DecompressAll(small: bool, calls: seq<(seq<byte>, nat)>) returns (out: seq<byte>, s: DState, left: int)
    ensures s.Valid() && (out, s.d, s.reader.Remaining()) == Session(TheDecoder(), Magic(small, 0), [], BitCalls(calls))
    ensures left == LeftOver(TheDecoder(), Magic(small, 0), [], BitCalls(calls))
  {
    hide Call, DState.Tied, Sane, Outputs;
    ghost var dec, bc := TheDecoder(), BitCalls(calls);
    TheDecoderOutputs();
    s := new DState(small);
    out, left := [], 0;
    ghost var goal, last := Session(dec, Magic(small, 0), [], bc), LeftOver(dec, Magic(small, 0), [], bc);
    PutNone(goal);
    assert bc[0..] == bc;
    for i := 0 to |calls|
      invariant s.Valid() && fresh(s) && fresh(s.reader) && fresh(s.head) && fresh(s.head.repr) && fresh(s.part)
      invariant goal == Put(out, Session(dec, s.d, s.reader.Remaining(), bc[i..]))
      invariant last == if i < |calls| then LeftOver(dec, s.d, s.reader.Remaining(), bc[i..]) else left
    {
      ghost var d, rest := s.d, s.reader.Remaining();
      assert bc[i..][0] == bc[i] && bc[i..][1..] == bc[i + 1..];
      var o := s.Decompress(calls[i].0, calls[i].1, dec);
      PutPut(out, o, Session(dec, s.d, s.reader.Remaining(), bc[i + 1..]));
      out, left := out + o, calls[i].1 - |o|;
    }
    assert out + [] == out;
  }

  /** All the bytes that calls bring. */
  function Given(calls: seq<(seq<byte>, nat)>): seq<byte> {
    if calls == [] then [] else calls[0].0 + Given(calls[1..])
  }

  lemma {:induction false} GivenBits(calls: seq<(seq<byte>, nat)>)
    ensures Resumable.Input(BitCalls(calls)) == ByteBits(Given(calls))
  {
    if calls != [] {
      GivenBits(calls[1..]);
      assert BitCalls(calls)[1..] == BitCalls(calls[1..]);
      ByteBitsConcat(calls[0].0, Given(calls[1..]));
    }
  }

  /**
   * A session whose last call leaves space has nothing left to do, and its last call reported no more than all of them.
   */
  lemma {:induction false} LeftOverRests(m: Machine<Dec>, d: Dec, b: bits, calls: seq<(bits, nat)>)
    requires Lawful(m)
    ensures LeftOver(m, d, b, calls) > 0 ==> Stuck(m, Session(m, d, b, calls).1, Session(m, d, b, calls).2)
    ensures calls != [] ==> LeftOver(m, d, b, calls) >= calls[|calls| - 1].1 - |Session(m, d, b, calls).0|
    decreases |calls|
  {
    hide Call, Stuck, Lawful;
    if calls != [] {
      var r := Call(m, d, b + calls[0].0, calls[0].1);
      SpaceLeft(m, d, b + calls[0].0, calls[0].1);
      LeftOverRests(m, r.1, r.2, calls[1..]);
    }
  }

  /**
   * However the arrays' session of calls divides input and space: at rest it has done what one call does, if and only
   * if no call ended inside a block that breaks off and reported bytes of it; and that cannot happen in SMALL, nor in a
   * stream whose blocks all expand completely.
   */
  method DecompressFragments(small: bool, calls: seq<(seq<byte>, nat)>) returns (out: seq<byte>, s: DState, left: int)
    ensures s.Valid() && (left > 0 ==> Stuck(TheDecoder(), s.d, s.reader.Remaining()))
    ensures Stuck(TheDecoder(), s.d, s.reader.Remaining()) ==>
      ((out, s.d, s.reader.Remaining()) == Result(TheDecoder(), Magic(small, 0), ByteBits(Given(calls)))
       <==> !EndsInside(TheDecoder(), Magic(small, 0), [], BitCalls(calls)))
    ensures
      Stuck(TheDecoder(), s.d, s.reader.Remaining())
      && (small || !Breaks(TheDecoder(), Magic(small, 0), ByteBits(Given(calls)))) ==>
      (out, s.d, s.reader.Remaining()) == Result(TheDecoder(), Magic(small, 0), ByteBits(Given(calls)))
  {
    hide DState.Tied, Sane, Session, Need, EndsInside, Breaks, Result, LeftOver;
    out, s, left := DecompressAll(small, calls);
    GivenBits(calls);
    DecoderLawful();
    LeftOverRests(TheDecoder(), Magic(small, 0), [], BitCalls(calls));
    FragmentsAgree(small, ByteBits(Given(calls)));
    if Stuck(TheDecoder(), s.d, s.reader.Remaining()) { DecodingFragments(Magic(small, 0), BitCalls(calls)); }
  }

  /**
   * However the compressed bytes and the space for output are cut up: a session whose last call leaves space, and so
   * any whose last call has more space than there is data, gave the data back and accepted the stream.
   */
  method DecompressSession(small: bool, calls: seq<(seq<byte>, nat)>, ghost data: seq<byte>)
    returns (out: seq<byte>, s: DState, left: int)
    requires Decodes(Given(calls), data, small)
    ensures s.Valid() && (Stuck(TheDecoder(), s.d, s.reader.Remaining()) ==> out == data && s.d == Done)
    ensures left > 0 ==> out == data && s.d == Done
    ensures calls != [] && |data| < calls[|calls| - 1].1 ==> left > 0
  {
    hide DState.Tied, Sane, Session, Need, LeftOver, Put;
    out, s, left := DecompressAll(small, calls);
    GivenBits(calls);
    DecoderLawful();
    LeftOverRests(TheDecoder(), Magic(small, 0), [], BitCalls(calls));
    if Stuck(TheDecoder(), s.d, s.reader.Remaining()) {
      SessionsDecode(Given(calls), data, small, BitCalls(calls));
    }
    NoMoreThan(Given(calls), data, small, BitCalls(calls));
  }

  /** At no time has more been reported than the data. */
  lemma NoMoreThan(z: seq<byte>, data: seq<byte>, small: bool, calls: seq<(bits, nat)>)
    requires Decodes(z, data, small) && Resumable.Input(calls) == ByteBits(z)
    ensures |Session(TheDecoder(), Magic(small, 0), [], calls).0| <= |data|
  {
    hide Session, Result, Breaks;
    DecoderLawful();
    if Breaks(TheDecoder(), Magic(small, 0), ByteBits(z)) { BreakingFails(Magic(small, 0), ByteBits(z)); }
    assert [] + Resumable.Input(calls) == Resumable.Input(calls);
    SessionPreserves(TheDecoder(), Magic(small, 0), [], calls);
  }

  lemma OneCall(z: seq<byte>, data: seq<byte>, small: bool, avail: nat)
    requires Decodes(z, data, small) && |data| < avail
    ensures var (out, d, rest) := Session(TheDecoder(), Magic(small, 0), [], [(ByteBits(z), avail)]);
      out == data && d == Done && |rest| < 8 && rest == Zeros(|rest|)
  {
    hide Call, Result, Breaks;
    var m, b := TheDecoder(), ByteBits(z);
    DecoderLawful();
    if Breaks(m, Magic(small, 0), b) { BreakingFails(Magic(small, 0), b); }
    RoomEnough(m, Magic(small, 0), b, avail);
    assert [] + b == b;
    assert data + [] == data;
  }

  /**
   * Whatever the bytes and however they are cut into chunks: compressed, and decompressed by either build, they come
   * out as they went in; the stream is accepted to its end, and only padding is left over.
   */
  method CompressDecompress(level: nat, chunks: seq<seq<byte>>, last: seq<byte>, small: bool)
    returns (z: seq<byte>, out: seq<byte>, s: DState)
    requires 1 <= level <= 9
    ensures out == Together(chunks) + last && s.Valid() && s.d == Done
    ensures var rest := s.reader.Remaining(); |rest| < 8 && rest == Zeros(|rest|)
  {
    hide DState.Tied, DState.Valid, Sane, Session, Decodes, StreamFor, Codes, BlocksOf, EndsFull;
    ghost var ms;
    z, ms := Compress(level, chunks, last);
    var avail := |Together(chunks) + last| + 1;
    StreamDecodesTo(small, level, ms, z, Together(chunks) + last);
    OneCall(z, Together(chunks) + last, small, avail);
    assert BitCalls([(z, avail)]) == [(ByteBits(z), avail)];
    var left;
    out, s, left := DecompressAll(small, [(z, avail)]);
  }

  /** The compressor's streams make the decoder claim no more selectors than it has cells for, in any block. */
  lemma CompressedInside(z: seq<byte>, data: seq<byte>, small: bool)
    requires Decodes(z, data, small)
    ensures !SelectorCells.Overclaims(Magic(small, 0), ByteBits(z))
  {
    SelectorCells.AcceptedInside(Magic(small, 0), ByteBits(z));
  }
}
