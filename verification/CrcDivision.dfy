/** The checksum is a remainder: the table-driven step divides by the polynomial eight bits at a time. */
module CrcDivision {
  import opened Bits
  import opened Crc

  /** Whether the generator has the term that the register's bit `i` stands for, the first bit being that of x^31. */
  predicate Term(i: nat) {
    i in {5, 8, 9, 15, 19, 20, 21, 23, 24, 26, 27, 29, 30, 31}
  }

  /** One bit of a message: the register moves up, and the generator is taken away if the bits moved out differ. */
  function Feed(reg: bits, bit: bool): (next: bits)
    requires |reg| == WIDTH
    ensures |next| == WIDTH
  {
    seq(WIDTH, i requires 0 <= i < WIDTH => (i < WIDTH - 1 && reg[i + 1]) != (reg[0] != bit && Term(i)))
  }

  /** A message, bit by bit. */
  function FeedAll(reg: bits, msg: bits): (next: bits)
    requires |reg| == WIDTH
    ensures |next| == WIDTH
    decreases |msg|
  {
    if msg == [] then reg else FeedAll(Feed(reg, msg[0]), msg[1..])
  }

  // The generator.

  /** The four bits of a hexadecimal digit. */
  function Digit(d: nat): (b: bits)
    ensures |b| == 4
  {
    [d / 8 % 2 == 1, d / 4 % 2 == 1, d / 2 % 2 == 1, d % 2 == 1]
  }

  lemma DigitBits(n: nat, v: nat, d: nat)
    requires d < 16
    ensures NatBits(n + 4, 16 * v + d) == NatBits(n, v) + Digit(d)
  {
    var x := 16 * v + d;
    assert x / 2 == 8 * v + d / 2 && x / 2 / 2 == 4 * v + d / 4 && x / 2 / 2 / 2 == 2 * v + d / 8;
    assert NatBits(n + 1, x / 2 / 2 / 2) == NatBits(n, v) + [d / 8 % 2 == 1];
    assert NatBits(n + 2, x / 2 / 2) == NatBits(n + 1, x / 2 / 2 / 2) + [d / 4 % 2 == 1];
    assert NatBits(n + 3, x / 2) == NatBits(n + 2, x / 2 / 2) + [d / 2 % 2 == 1];
  }

  lemma PolyDigits()
    ensures NatBits(WIDTH, POLY)
      == Digit(0) + Digit(4) + Digit(12) + Digit(1) + Digit(1) + Digit(13) + Digit(11) + Digit(7)
  {
    hide NatBits, Digit;
    NoBits();
    assert [] + Digit(0) == Digit(0);
    DigitBits(0, 0, 0);
    DigitBits(4, 0, 4);
    DigitBits(8, 0x04, 12);
    DigitBits(12, 0x04c, 1);
    DigitBits(16, 0x04c1, 1);
    DigitBits(20, 0x0_4c11, 13);
    DigitBits(24, 0x4_c11d, 11);
    DigitBits(28, 0x4c_11db, 7);
  }

  lemma NoBits()
    ensures NatBits(0, 0) == []
  {
  }

  lemma PolyTerms(i: nat)
    requires i < WIDTH
    ensures NatBits(WIDTH, POLY)[i] <==> Term(i)
  {
    hide NatBits;
    PolyDigits();
  }

  // Feeding is linear.

  /** Bit by bit "differs". */
  function Diff(a: bits, b: bits): (c: bits)
    requires |a| == |b|
    ensures |c| == |a|
  {
    seq(|a|, i requires 0 <= i < |a| => a[i] != b[i])
  }

  lemma FeedLinear(r: bits, s: bits, x: bool, y: bool)
    requires |r| == |s| == WIDTH
    ensures Feed(Diff(r, s), x != y) == Diff(Feed(r, x), Feed(s, y))
  {
    hide Term;
  }

  lemma {:induction false} FeedAllLinear(r: bits, s: bits, m: bits, n: bits)
    requires |r| == |s| == WIDTH && |m| == |n|
    ensures FeedAll(Diff(r, s), Diff(m, n)) == Diff(FeedAll(r, m), FeedAll(s, n))
    decreases |m|
  {
    hide Feed;
    if m != [] {
      FeedLinear(r, s, m[0], n[0]);
      assert Diff(m, n)[1..] == Diff(m[1..], n[1..]);
      FeedAllLinear(Feed(r, m[0]), Feed(s, n[0]), m[1..], n[1..]);
    }
  }

  /** A register that starts with zeros only moves up. */
  lemma {:induction false} FeedZeros(k: nat, low: bits)
    requires k + |low| == WIDTH
    ensures FeedAll(Zeros(k) + low, Zeros(k)) == low + Zeros(k)
    decreases k
  {
    if k == 0 {
      assert Zeros(0) + low == low == low + Zeros(0);
    } else {
      var reg, up := Zeros(k) + low, low + [false];
      assert Feed(reg, false) == Zeros(k - 1) + up;
      assert Zeros(k)[1..] == Zeros(k - 1);
      FeedZeros(k - 1, up);
      assert up + Zeros(k - 1) == low + Zeros(k);
    }
  }

  /** Feeding a message into an empty register is feeding zeros into a register that starts with the message. */
  lemma {:induction false} MessageFirst(msg: bits, n: nat)
    requires |msg| + n == WIDTH
    ensures FeedAll(Zeros(WIDTH), msg) == FeedAll(msg + Zeros(n), Zeros(|msg|))
    decreases |msg|
  {
    hide Term;
    if msg == [] {
      assert msg + Zeros(n) == Zeros(WIDTH);
    } else {
      var m, k := msg[1..], |msg| - 1;
      var t, up := Feed(Zeros(WIDTH), msg[0]), m + Zeros(n + 1);
      assert Zeros(|msg|)[1..] == Zeros(k);
      assert Feed(msg + Zeros(n), false) == Diff(up, t);
      assert Diff(Zeros(WIDTH), t) == t && Diff(m, Zeros(k)) == m && Diff(Zeros(k), Zeros(k)) == Zeros(k);
      FeedAllLinear(Zeros(WIDTH), t, m, Zeros(k));
      FeedAllLinear(up, t, Zeros(k), Zeros(k));
      MessageFirst(m, n + 1);
    }
  }

  /** Feeding a message is feeding zeros into a register that differs from it at the start. */
  lemma FedAhead(reg: bits, msg: bits, n: nat)
    requires |reg| == WIDTH == |msg| + n
    ensures FeedAll(reg, msg) == FeedAll(Diff(reg, msg + Zeros(n)), Zeros(|msg|))
  {
    hide Feed, FeedAll;
    var z := Zeros(|msg|);
    assert Diff(reg, Zeros(WIDTH)) == reg && Diff(z, msg) == msg && Diff(z, z) == z;
    FeedAllLinear(reg, Zeros(WIDTH), z, msg);
    MessageFirst(msg, n);
    FeedAllLinear(reg, msg + Zeros(n), z, z);
  }

  lemma {:induction false} FeedAllConcat(reg: bits, m: bits, n: bits)
    requires |reg| == WIDTH
    ensures FeedAll(reg, m + n) == FeedAll(FeedAll(reg, m), n)
    decreases |m|
  {
    hide Feed;
    if m == [] {
      assert m + n == n;
    } else {
      assert (m + n)[1..] == m[1..] + n;
      FeedAllConcat(Feed(reg, m[0]), m[1..], n);
    }
  }

  // The functions on words.

  lemma LeftBits(w: word, n: nat)
    requires n <= WIDTH
    ensures NatBits(WIDTH, Left(w, n)) == NatBits(WIDTH, w)[n..] + Zeros(n)
  {
    hide NatBits, Low, Shl;
    LowBits(WIDTH, Shl(w, n));
    ShlBits(WIDTH - n, w, n);
    NarrowBits(WIDTH, WIDTH - n, w);
  }

  lemma WordDiff(a: word, b: word)
    ensures NatBits(WIDTH, XorWord(a, b)) == Diff(NatBits(WIDTH, a), NatBits(WIDTH, b))
  {
    hide NatBits, Xor;
    forall i | 0 <= i < WIDTH ensures NatBits(WIDTH, XorWord(a, b))[i] <==>
      NatBits(WIDTH, a)[i] != NatBits(WIDTH, b)[i] {
      XorBits(WIDTH, a, b, i);
    }
  }

  /** One round of the division. */
  function Round(w: word): word {
    if w >= WORD / 2 then XorWord(Left(w, 1), POLY) else Left(w, 1)
  }

  lemma RoundFeeds(w: word)
    ensures NatBits(WIDTH, Round(w)) == Feed(NatBits(WIDTH, w), false)
  {
    hide NatBits, Left, XorWord, Term;
    Pow2Consts();
    assert Pow2(WIDTH - 1) == WORD / 2;
    TopBit(WIDTH, w);
    LeftBits(w, 1);
    WordDiff(Left(w, 1), POLY);
    forall i | 0 <= i < WIDTH ensures NatBits(WIDTH, Round(w))[i] <==> Feed(NatBits(WIDTH, w), false)[i] {
      PolyTerms(i);
    }
  }

  lemma {:induction false} DivideFeeds(w: word, k: nat)
    ensures NatBits(WIDTH, Divide(w, k)) == FeedAll(NatBits(WIDTH, w), Zeros(k))
    decreases k
  {
    hide NatBits, Feed, Left, XorWord;
    if k > 0 {
      RoundFeeds(w);
      DivideFeeds(Round(w), k - 1);
      assert Zeros(k)[1..] == Zeros(k - 1);
    }
  }

  /** The index into the table: `(crc >> 24) ^ c` */
  function Index(crc: word, c: byte): nat {
    Low(Xor(Shr(crc, WIDTH - BYTE_WIDTH), c), BYTE_WIDTH)
  }

  lemma IndexBits(crc: word, c: byte)
    ensures Index(crc, c) < WORD
    ensures NatBits(WIDTH, Left(Index(crc, c), WIDTH - BYTE_WIDTH))
      == Diff(NatBits(WIDTH, crc)[..BYTE_WIDTH], NatBits(BYTE_WIDTH, c)) + Zeros(WIDTH - BYTE_WIDTH)
  {
    hide NatBits, Xor, Shr, Low;
    var n := WIDTH - BYTE_WIDTH;
    var x := Xor(Shr(crc, n), c);
    var i := Index(crc, c);
    Pow2Consts();
    LeftBits(i, n);
    NarrowBits(WIDTH, BYTE_WIDTH, i);
    LowBits(BYTE_WIDTH, x);
    ShrBits(WIDTH, crc, n);
    forall k | 0 <= k < BYTE_WIDTH
      ensures NatBits(BYTE_WIDTH, x)[k] <==> NatBits(WIDTH, crc)[..BYTE_WIDTH][k] != NatBits(BYTE_WIDTH, c)[k]
    {
      XorBits(BYTE_WIDTH, Shr(crc, n), c, k);
    }
  }

  /** `BZ_UPDATE_CRC` feeds the eight bits of a byte. */
  lemma UpdateFeeds(crc: word, c: byte)
    ensures NatBits(WIDTH, Update(crc, c)) == FeedAll(NatBits(WIDTH, crc), NatBits(BYTE_WIDTH, c))
  {
    hide NatBits, Xor, Shr, Low, Left, Divide, XorWord, Feed, FeedAll;
    var n, reg, msg := WIDTH - BYTE_WIDTH, NatBits(WIDTH, crc), NatBits(BYTE_WIDTH, c);
    var head, low, z := Diff(reg[..BYTE_WIDTH], msg) + Zeros(n), Zeros(BYTE_WIDTH) + reg[BYTE_WIDTH..],
      Zeros(BYTE_WIDTH);
    var i := Index(crc, c);
    IndexBits(crc, c);
    DivideFeeds(Left(i, n), BYTE_WIDTH);
    LeftBits(crc, BYTE_WIDTH);
    FeedZeros(BYTE_WIDTH, reg[BYTE_WIDTH..]);
    WordDiff(Left(crc, BYTE_WIDTH), Divide(Left(i, n), BYTE_WIDTH));
    FeedAllLinear(low, head, z, z);
    assert Diff(z, z) == z && Diff(low, head) == Diff(reg, msg + Zeros(n));
    FedAhead(reg, msg, n);
  }

  lemma {:induction false} UpdatesFeed(crc: word, s: seq<byte>)
    ensures NatBits(WIDTH, Updates(crc, s)) == FeedAll(NatBits(WIDTH, crc), ByteBits(s))
  {
    hide NatBits, Update, FeedAll;
    if s == [] {
      FeedNothing(NatBits(WIDTH, crc));
    } else {
      var init, c := s[..|s| - 1], s[|s| - 1];
      UpdatesFeed(crc, init);
      UpdateFeeds(Updates(crc, init), c);
      FeedAllConcat(NatBits(WIDTH, crc), ByteBits(init), NatBits(BYTE_WIDTH, c));
    }
  }

  lemma FeedNothing(reg: bits)
    requires |reg| == WIDTH
    ensures FeedAll(reg, []) == reg
  {
  }

  lemma {:induction false} Complement(n: nat, v: nat, i: nat)
    requires v < Pow2(n) && i < n
    ensures NatBits(n, Pow2(n) - 1 - v)[i] <==> !NatBits(n, v)[i]
  {
    var w := Pow2(n) - 1 - v;
    assert w / 2 == Pow2(n - 1) - 1 - v / 2 && w % 2 == 1 - v % 2;
    if i < n - 1 { Complement(n - 1, v / 2, i); }
  }

  /** A register of ones. */
  function Full(): (reg: bits)
    ensures |reg| == WIDTH
  {
    seq(WIDTH, i => true)
  }

  lemma InitialFull()
    ensures NatBits(WIDTH, INITIAL) == Full()
  {
    hide NatBits;
    Pow2Consts();
    NatBitsZero(WIDTH);
    forall i | 0 <= i < WIDTH ensures NatBits(WIDTH, INITIAL)[i] { Complement(WIDTH, 0, i); }
  }

  /**
   * The checksum of a block is, complemented, what is left in a register of ones when the bits of all its bytes have
   * been fed in.
   */
  lemma BlockCrcDivides(s: seq<byte>, i: nat)
    requires i < WIDTH
    ensures NatBits(WIDTH, BlockCrc(s))[i] <==> !FeedAll(Full(), ByteBits(s))[i]
  {
    hide NatBits, FeedAll, Updates;
    Pow2Consts();
    InitialFull();
    UpdatesFeed(INITIAL, s);
    Complement(WIDTH, Updates(INITIAL, s), i);
  }
}
