/** The front end of the compressor: collecting input bytes into runs and runs into a block, on values. */
module Collecting {
  import opened Bits
  import opened Crc
  import opened RunLength

  const NO_CHAR := 256

  /** The input half of `EState`: the block so far and the run being collected. */
  datatype Input = Input(block: seq<byte>, inUse: seq<bool>, crc: word, ch: nat, len: nat) {
    ghost predicate Valid() {
      |inUse| == 256 && ch <= NO_CHAR && (ch < NO_CHAR ==> 1 <= len <= 255) && (ch == NO_CHAR ==> len == 0)
    }
  }

  function Unused(): (u: seq<bool>)
    ensures |u| == 256 && forall c :: 0 <= c < 256 ==> !u[c]
  {
    seq(256, i => false)
  }

  /** `prepare_new_block`: the run being collected carries over. */
  function NewBlock(s: Input): Input {
    Input([], Unused(), INITIAL, s.ch, s.len)
  }

  function Fresh(): Input {
    Input([], Unused(), INITIAL, NO_CHAR, 0)
  }

  function Marked(inUse: seq<bool>, r: Run): (u: seq<bool>)
    requires |inUse| == 256 && GoodRun(r)
    ensures |u| == 256
  {
    if r.len < 4 then inUse[r.ch := true] else inUse[r.ch := true][r.len - 4 := true]
  }

  /** `add_pair_to_block` */
  function AddPair(s: Input): (t: Input)
    requires s.Valid() && s.ch < NO_CHAR
    ensures t.Valid() && t.ch == s.ch && t.len == s.len && |t.block| <= |s.block| + 5
  {
    var r := Run(s.ch, s.len);
    Input(s.block + Coded(r), Marked(s.inUse, r), Updates(s.crc, Repeat(s.ch, s.len)), s.ch, s.len)
  }

  lemma SinglePair(s: Input)
    requires s.Valid() && s.len == 1
    ensures s.ch < NO_CHAR
    ensures AddPair(s) == Input(s.block + [s.ch], s.inUse[s.ch := true], Update(s.crc, s.ch), s.ch, s.len)
  {
    UpdatesOne(s.crc, s.ch);
    assert Repeat(s.ch, 1) == [s.ch];
    assert Coded(Run(s.ch, 1)) == [s.ch];
  }

  /** `flush_RL` */
  function Flush(s: Input): (t: Input)
    requires s.Valid()
    ensures t.Valid() && t.ch == NO_CHAR && |t.block| <= |s.block| + 5
  {
    (if s.ch < NO_CHAR then AddPair(s) else s).(ch := NO_CHAR, len := 0)
  }

  /** `ADD_CHAR_TO_BLOCK` */
  function AddChar(s: Input, c: byte): (t: Input)
    requires s.Valid()
    ensures t.Valid() && t.ch < NO_CHAR && |t.block| <= |s.block| + 5
  {
    if c != s.ch || s.len == 255 then (if s.ch < NO_CHAR then AddPair(s) else s).(ch := c, len := 1)
    else s.(len := s.len + 1)
  }

  /** `copy_input_until_stop`: the state once the block is full or the input used up, and how much was used. */
  function Fill(s: Input, input: seq<byte>, max: nat): (r: (Input, nat))
    requires s.Valid()
    ensures r.0.Valid() && r.1 <= |input| && (|r.0.block| >= max || r.1 == |input|)
    ensures |s.block| < max ==> |r.0.block| <= max + 4
    ensures |s.block| < max && input != [] ==> r.1 > 0
    ensures s.ch < NO_CHAR || r.1 > 0 ==> r.0.ch < NO_CHAR
    decreases |input|
  {
    if |s.block| >= max || input == [] then (s, 0)
    else var r := Fill(AddChar(s, input[0]), input[1..], max); (r.0, r.1 + 1)
  }

  /** The bytes that occur in a block are exactly those marked in use. */
  ghost predicate Marks(inUse: seq<bool>, b: seq<byte>) {
    |inUse| == 256 && forall c {:trigger inUse[c]} :: 0 <= c < 256 ==> (inUse[c] <==> c in b)
  }

  lemma MarksRun(inUse: seq<bool>, b: seq<byte>, r: Run)
    requires Marks(inUse, b) && GoodRun(r)
    ensures Marks(Marked(inUse, r), b + Coded(r))
  {
    assert forall c :: c in b + Coded(r) <==> c in b || c in Coded(r);
    assert Coded(r)[0] == r.ch;
    if r.len >= 4 { assert Coded(r)[4] == r.len - 4; }
  }

  /** The run being collected can follow those in the block. */
  ghost predicate Follows(runs: seq<Run>, ch: nat, len: nat) {
    runs != [] && ch < NO_CHAR ==> Apart(runs[|runs| - 1], Run(ch, len))
  }

  /** The state holds `runs` in the block, and one more being collected. */
  ghost predicate Represents(s: Input, runs: seq<Run>) {
    && s.Valid() && Follows(runs, s.ch, s.len) && GoodRuns(runs)
    && s.block == Flatten(runs) && Marks(s.inUse, s.block) && s.crc == Updates(INITIAL, Unrolled(runs))
  }

  /** Everything taken in for a block: its runs and the one being collected. */
  ghost function Taken(s: Input, runs: seq<Run>): seq<byte>
    requires s.Valid()
  {
    Unrolled(runs) + PendingBytes(s.ch, s.len)
  }

  /** The runs of the block once the one being collected joins them. */
  ghost function Closed(s: Input, runs: seq<Run>): seq<Run> {
    if s.ch < NO_CHAR then runs + [Run(s.ch, s.len)] else runs
  }

  lemma GoodClosed(runs: seq<Run>, r: Run)
    requires GoodRuns(runs) && GoodRun(r) && (runs != [] ==> Apart(runs[|runs| - 1], r))
    ensures GoodRuns(runs + [r])
  {
    var rs := runs + [r];
    forall i, j {:trigger rs[i], rs[j]} | 0 <= i < j < |rs| && j == i + 1 ensures Apart(rs[i], rs[j]) {
      if j < |runs| { assert Apart(runs[i], runs[j]); }
    }
  }

  lemma PairKept(s: Input, runs: seq<Run>)
    requires Represents(s, runs) && s.ch < NO_CHAR
    ensures var t, rs := AddPair(s), Closed(s, runs);
      && GoodRuns(rs) && t.block == Flatten(rs) && Marks(t.inUse, t.block)
      && t.crc == Updates(INITIAL, Unrolled(rs)) && Unrolled(rs) == Taken(s, runs)
  {
    var r := Run(s.ch, s.len);
    GoodClosed(runs, r);
    FlattenAppend(runs, r);
    UnrolledAppend(runs, r);
    UpdatesConcat(INITIAL, Unrolled(runs), Repeat(r.ch, r.len));
    MarksRun(s.inUse, s.block, r);
  }

  /** Flushing keeps every byte and leaves no run open. */
  lemma FlushKept(s: Input, runs: seq<Run>)
    requires Represents(s, runs)
    ensures Represents(Flush(s), Closed(s, runs)) && Unrolled(Closed(s, runs)) == Taken(s, runs)
  {
    if s.ch < NO_CHAR { PairKept(s, runs); }
    assert Unrolled(runs) + [] == Unrolled(runs);
  }

  /** The runs of the block after one more byte. */
  ghost function RunsAfter(s: Input, runs: seq<Run>, c: byte): seq<Run> {
    if c != s.ch || s.len == 255 then Closed(s, runs) else runs
  }

  /** Nothing of the block is closed off before its first run is. */
  ghost predicate Open(s: Input, runs: seq<Run>) {
    Represents(s, runs) && (s.ch == NO_CHAR ==> runs == [])
  }

  lemma CharStarts(s: Input, runs: seq<Run>, c: byte)
    requires Open(s, runs) && (c != s.ch || s.len == 255)
    ensures Open(AddChar(s, c), Closed(s, runs))
    ensures Taken(AddChar(s, c), Closed(s, runs)) == Taken(s, runs) + [c]
  {
    assert Repeat(c, 1) == [c];
    if s.ch < NO_CHAR { PairKept(s, runs); } else { assert Taken(s, runs) == Unrolled(runs); }
  }

  lemma CharExtends(s: Input, runs: seq<Run>, c: byte)
    requires Open(s, runs) && c == s.ch && s.len < 255
    ensures Open(AddChar(s, c), runs)
    ensures Taken(AddChar(s, c), runs) == Taken(s, runs) + [c]
  {
    assert Repeat(c, s.len + 1) == Repeat(c, s.len) + [c];
  }

  lemma CharKept(s: Input, runs: seq<Run>, c: byte)
    requires Open(s, runs)
    ensures Open(AddChar(s, c), RunsAfter(s, runs, c))
    ensures Taken(AddChar(s, c), RunsAfter(s, runs, c)) == Taken(s, runs) + [c]
  {
    if c != s.ch || s.len == 255 { CharStarts(s, runs, c); } else { CharExtends(s, runs, c); }
  }

  function Plus(r: (Input, nat), k: nat): (Input, nat) {
    (r.0, r.1 + k)
  }

  lemma FillStep(s: Input, input: seq<byte>, next: nat, max: nat)
    requires s.Valid() && |s.block| < max && next < |input|
    ensures Fill(s, input[next..], max) == Plus(Fill(AddChar(s, input[next]), input[next + 1..], max), 1)
  {
    assert input[next..][1..] == input[next + 1..];
  }

  /** Filling from `s` at `next0` has come to state `st` at `next`. */
  ghost predicate Filling(s: Input, st: Input, input: seq<byte>, next0: nat, next: nat, max: nat)
    requires s.Valid() && st.Valid()
  {
    next0 <= next <= |input| && Fill(s, input[next0..], max) == Plus(Fill(st, input[next..], max), next - next0)
  }

  lemma FillingStarts(s: Input, input: seq<byte>, next0: nat, max: nat)
    requires s.Valid() && next0 <= |input|
    ensures Filling(s, s, input, next0, next0, max)
  {
    hide Fill;
  }

  lemma FillingNext(s: Input, st: Input, input: seq<byte>, next0: nat, next: nat, max: nat)
    requires s.Valid() && st.Valid() && Filling(s, st, input, next0, next, max) && |st.block| < max && next < |input|
    ensures Filling(s, AddChar(st, input[next]), input, next0, next + 1, max)
  {
    hide Fill, AddChar;
    FillStep(st, input, next, max);
    PlusPlus(Fill(AddChar(st, input[next]), input[next + 1..], max), next - next0);
  }

  lemma PlusPlus(r: (Input, nat), k: nat)
    ensures Plus(Plus(r, 1), k) == Plus(r, k + 1)
  {
  }

  lemma FillingEnd(s: Input, st: Input, input: seq<byte>, next0: nat, next: nat, max: nat)
    requires s.Valid() && st.Valid() && Filling(s, st, input, next0, next, max)
    ensures |st.block| >= max || next == |input| ==> Fill(s, input[next0..], max) == (st, next - next0)
  {
  }

  lemma Regroup(t: seq<byte>, input: seq<byte>, k: nat)
    requires 0 < k <= |input|
    ensures t + [input[0]] + input[1..][..k - 1] == t + input[..k]
  {
  }

  /** Filling a block loses nothing and adds nothing. */
  lemma {:induction false} FillKept(s: Input, runs: seq<Run>, input: seq<byte>, max: nat) returns (rs: seq<Run>)
    requires Open(s, runs)
    ensures var r := Fill(s, input, max);
      Open(r.0, rs) && Taken(r.0, rs) == Taken(s, runs) + input[..r.1]
    decreases |input|
  {
    if |s.block| >= max || input == [] {
      rs := runs;
      assert Taken(s, runs) + input[..0] == Taken(s, runs);
    } else {
      var c := input[0];
      CharKept(s, runs, c);
      rs := FillKept(AddChar(s, c), RunsAfter(s, runs, c), input[1..], max);
      Regroup(Taken(s, runs), input, Fill(s, input, max).1);
    }
  }

  /** A new block starts from the run carried over. */
  lemma NewBlockOpen(s: Input)
    requires s.Valid()
    ensures Open(NewBlock(s), []) && Taken(NewBlock(s), []) == PendingBytes(s.ch, s.len)
  {
  }
}

/** The same in place. */
module BlockInput {
  import opened Bits
  import opened Crc
  import opened RunLength
  import opened FallbackSort
  import opened Collecting

  /** The input half of `EState`. */
  class EStateInput {
    const arr2: array<nat>
    const inUse: array<bool>
    const nblockMAX: nat
    var nblock: nat
    var stateInCh: nat
    var stateInLen: nat
    var blockCRC: word

    ghost predicate Valid()
      reads this, arr2, inUse
    {
      && inUse.Length == 256 && nblock <= nblockMAX + 9 <= arr2.Length && stateInCh <= NO_CHAR
      && (stateInCh < NO_CHAR ==> 1 <= stateInLen <= 255) && (stateInCh == NO_CHAR ==> stateInLen == 0)
    }

    /** The value that the fields hold. */
    ghost function State(): (s: Input)
      requires Valid()
      reads this, arr2, inUse
      ensures s.Valid() && |s.block| == nblock
    {
      Input(Eclass8(arr2[..], nblock), inUse[..], blockCRC, stateInCh, stateInLen)
    }

    /** `BZ2_bzCompressInit` as far as it concerns input. */
    constructor (level: nat)
      requires 1 <= level <= 9
      ensures Valid() && nblockMAX == 100000 * level - 19 && State() == Fresh()
      ensures fresh(arr2) && fresh(inUse)
    {
      arr2 := new nat[100000 * level + 34](i => 0);
      inUse := new bool[256](i => false);
      nblockMAX := 100000 * level - 19;
      nblock, stateInCh, stateInLen, blockCRC := 0, NO_CHAR, 0, INITIAL;
      new;
      assert inUse[..] == Unused();
    }

    /** `prepare_new_block` */
    method PrepareNewBlock()
      requires Valid()
      modifies this, inUse
      ensures Valid() && State() == NewBlock(old(State()))
    {
      nblock, blockCRC := 0, INITIAL;
      for i := 0 to 256
        modifies inUse
        invariant forall c :: 0 <= c < i ==> !inUse[c]
      {
        inUse[i] := false;
      }
      assert inUse[..] == Unused();
    }

    /** `block[nblock] = c; nblock++;` */
    method PutBlock(c: byte)
      requires Valid() && nblock < nblockMAX + 9
      modifies this`nblock, arr2
      ensures Valid() && State() == old(State()).(block := old(State()).block + [c])
    {
      ghost var b := State().block;
      ghost var whole := Eclass8(arr2[..], arr2.Length);
      PutByte(arr2, nblock, c);
      assert Eclass8(arr2[..], arr2.Length) == whole[nblock := c];
      forall i | 0 <= i < nblock ensures Eclass8(arr2[..], nblock + 1)[i] == b[i] {
        assert Eclass8(arr2[..], arr2.Length)[i] == whole[i];
      }
      assert Eclass8(arr2[..], nblock + 1)[nblock] == Eclass8(arr2[..], arr2.Length)[nblock];
      nblock := nblock + 1;
      assert State().block == b + [c];
    }

    /** The loop that counts a run into the checksum. */
    method UpdateCRC(ch: byte, len: nat)
      modifies this`blockCRC
      ensures blockCRC == Updates(old(blockCRC), Repeat(ch, len))
    {
      for i := 0 to len
        invariant blockCRC == Updates(old(blockCRC), Repeat(ch, i))
      {
        assert Repeat(ch, i + 1)[..i] == Repeat(ch, i);
        blockCRC := Update(blockCRC, ch);
      }
    }

    /** The switch of `add_pair_to_block`. */
    method PutRun(ch: byte, len: nat)
      requires Valid() && nblock + 5 <= nblockMAX + 9 && GoodRun(Run(ch, len))
      modifies this`nblock, arr2
      ensures Valid() && State() == old(State()).(block := old(State()).block + Coded(Run(ch, len)))
    {
      ghost var s := State();
      PutBlock(ch);
      if len >= 2 { PutBlock(ch); }
      if len >= 3 { PutBlock(ch); }
      if len >= 4 {
        PutBlock(ch);
        PutBlock(len - 4);
      }
      assert State().block == s.block + Coded(Run(ch, len));
    }

    /** `add_pair_to_block` */
    method AddPairToBlock()
      requires Valid() && stateInCh < NO_CHAR && nblock + 5 <= nblockMAX + 9
      modifies this`nblock, this`blockCRC, arr2, inUse
      ensures Valid() && State() == AddPair(old(State()))
    {
      UpdateCRC(stateInCh, stateInLen);
      inUse[stateInCh] := true;
      if stateInLen >= 4 { inUse[stateInLen - 4] := true; }
      assert inUse[..] == Marked(old(inUse[..]), Run(stateInCh, stateInLen));
      PutRun(stateInCh, stateInLen);
    }

    /** `flush_RL` */
    method FlushRL()
      requires Valid() && nblock + 5 <= nblockMAX + 9
      modifies this, arr2, inUse
      ensures Valid() && State() == Flush(old(State()))
    {
      if stateInCh < NO_CHAR { AddPairToBlock(); }
      stateInCh, stateInLen := NO_CHAR, 0;
    }

    /** The fast track of `ADD_CHAR_TO_BLOCK`: a run of one ends. */
    method AddSingle()
      requires Valid() && stateInLen == 1 && nblock + 5 <= nblockMAX + 9
      modifies this`nblock, this`blockCRC, arr2, inUse
      ensures Valid() && State() == AddPair(old(State()))
    {
      ghost var s := State();
      SinglePair(s);
      blockCRC := Update(blockCRC, stateInCh);
      inUse[stateInCh] := true;
      PutBlock(stateInCh);
      assert State() == Input(s.block + [s.ch], s.inUse[s.ch := true], Update(s.crc, s.ch), s.ch, s.len);
    }

    /** `ADD_CHAR_TO_BLOCK` */
    method AddCharToBlock(c: byte)
      requires Valid() && nblock + 5 <= nblockMAX + 9
      modifies this, arr2, inUse
      ensures Valid() && State() == AddChar(old(State()), c)
    {
      if c != stateInCh && stateInLen == 1 {
        AddSingle();
        stateInCh := c;
      } else if c != stateInCh || stateInLen == 255 {
        if stateInCh < NO_CHAR { AddPairToBlock(); }
        stateInCh, stateInLen := c, 1;
      } else {
        stateInLen := stateInLen + 1;
      }
    }

    /** `copy_input_until_stop` */
    method CopyInput(input: seq<byte>, next0: nat) returns (next: nat)
      requires Valid() && next0 <= |input| && nblock <= nblockMAX + 4
      modifies this, arr2, inUse
      ensures Valid() && next0 <= next <= |input|
      ensures (State(), next - next0) == Fill(old(State()), input[next0..], nblockMAX)
    {
      hide Fill, Filling, AddChar;
      ghost var s, st := State(), State();
      FillingStarts(s, input, next0, nblockMAX);
      next := next0;
      while true
        invariant Valid() && State() == st && next0 <= next <= |input| && nblock <= nblockMAX + 4
        invariant st.Valid() && Filling(s, st, input, next0, next, nblockMAX)
        decreases |input| - next
      {
        FillingEnd(s, st, input, next0, next, nblockMAX);
        if nblock >= nblockMAX { break; }
        if next == |input| { break; }
        FillingNext(s, st, input, next0, next, nblockMAX);
        AddCharToBlock(input[next]);
        st := AddChar(st, input[next]);
        next := next + 1;
      }
    }
  }
}
