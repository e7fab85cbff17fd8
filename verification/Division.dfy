/** How the input falls into blocks: a block ends as soon as it is full, and the run being collected carries over. */
module Division {
  import opened Bits
  import opened Collecting

  /** The full blocks, and the one begun when the input ends. */
  function Cut(s: Input, input: seq<byte>, max: nat): (r: (seq<Input>, Input))
    requires s.Valid() && |s.block| < max
    ensures r.1.Valid() && |r.1.block| < max
    decreases |input|
  {
    var (t, n) := Fill(s, input, max);
    if |t.block| < max then ([], t)
    else var r := Cut(NewBlock(t), input[n..], max); ([t] + r.0, r.1)
  }

  lemma {:induction false} FillInParts(s: Input, a: seq<byte>, b: seq<byte>, max: nat)
    requires s.Valid()
    ensures var (t, n) := Fill(s, a, max);
      Fill(s, a + b, max) == if |t.block| >= max then (t, n) else Plus(Fill(t, b, max), |a|)
    decreases |a|
  {
    hide AddChar;
    if |s.block| >= max {
    } else if a == [] {
      assert a + b == b;
    } else {
      assert (a + b)[1..] == a[1..] + b;
      FillInParts(AddChar(s, a[0]), a[1..], b, max);
    }
  }

  lemma FullTakes(s: Input, input: seq<byte>, max: nat)
    requires s.Valid() && |s.block| < max && |Fill(s, input, max).0.block| >= max
    ensures Fill(s, input, max).1 > 0
  {
  }

  /** Dividing goes on from where it stood. */
  lemma {:induction false} CutMore(s: Input, a: seq<byte>, b: seq<byte>, max: nat)
    requires s.Valid() && |s.block| < max
    ensures var (ins, t) := Cut(s, a, max); var (more, u) := Cut(t, b, max);
      Cut(s, a + b, max) == (ins + more, u)
    decreases |a|
  {
    hide Fill;
    var (t, n) := Fill(s, a, max);
    FillInParts(s, a, b, max);
    if |t.block| < max {
      var (u, m) := Fill(t, b, max);
      assert (a + b)[|a| + m..] == b[m..];
      assert [] + Cut(t, b, max).0 == Cut(t, b, max).0;
    } else {
      assert (a + b)[n..] == a[n..] + b;
      FullTakes(s, a, max);
      CutMore(NewBlock(t), a[n..], b, max);
      var (ins, v) := Cut(NewBlock(t), a[n..], max);
      var (more, u) := Cut(v, b, max);
      assert ([t] + ins) + more == [t] + (ins + more);
    }
  }

  /** Once enough is taken in, what follows does not matter. */
  lemma {:induction false} FillUses(s: Input, input: seq<byte>, max: nat)
    requires s.Valid()
    ensures var n := Fill(s, input, max).1; Fill(s, input[..n], max) == Fill(s, input, max)
    decreases |input|
  {
    if |s.block| < max && input != [] {
      var n := Fill(s, input, max).1;
      FillUses(AddChar(s, input[0]), input[1..], max);
      assert input[..n][1..] == input[1..][..n - 1];
    }
  }

  /** A block that fills up on the last byte. */
  lemma CutFull(s: Input, input: seq<byte>, max: nat)
    requires s.Valid() && |s.block| < max && |Fill(s, input, max).0.block| >= max
    ensures var (t, n) := Fill(s, input, max); Cut(s, input[..n], max) == ([t], NewBlock(t))
  {
    FillUses(s, input, max);
    var (t, n) := Fill(s, input, max);
    assert input[..n][n..] == [];
    assert Cut(NewBlock(t), [], max) == ([], NewBlock(t));
    assert [t] + [] == [t];
  }

  /** Every byte moves the state on. */
  lemma {:induction false} FillMoves(s: Input, input: seq<byte>, max: nat)
    requires s.Valid() && |s.block| < max && input != []
    ensures var t := Fill(s, input, max).0; |t.block| > |s.block| || (|t.block| == |s.block| && t.len > s.len)
    decreases |input|
  {
    var u := AddChar(s, input[0]);
    assert |u.block| > |s.block| || (|u.block| == |s.block| && u.len > s.len);
    if |u.block| < max && input[1..] != [] { FillMoves(u, input[1..], max); }
  }

  /** The block begun has come at least as far as the run that was carried over to it. */
  ghost predicate Past(s: Input, last: Input) {
    s.block != [] || s.len >= last.len
  }

  lemma {:induction false} CutPast(s: Input, input: seq<byte>, max: nat)
    requires s.Valid() && |s.block| < max
    ensures var (ins, t) := Cut(s, input, max); ins != [] ==> Past(t, ins[|ins| - 1])
    decreases |input|
  {
    var (t, n) := Fill(s, input, max);
    if |t.block| >= max {
      var (ins, u) := Cut(NewBlock(t), input[n..], max);
      CutPast(NewBlock(t), input[n..], max);
      if ins == [] && input[n..] != [] { FillMoves(NewBlock(t), input[n..], max); }
    }
  }
}
