/** The last step of decompression: undoing the initial run-length coding while output space lasts. */
module Output {
  import opened Bits
  import opened Crc
  import opened RunLength
  import opened InverseBwt
  import opened UndoBwt

  /** The scalar half of the output state in `DState`: an open run, the bytes of the block read, the last one read. */
  datatype OutState = OutState(ch: byte, len: nat, used: nat, k0: byte) {
    ghost predicate Valid(tape: seq<byte>, n: nat) {
      |tape| == n + 2 && 1 <= used <= n + 2 && (used <= n ==> k0 == tape[used - 1])
    }

    /** All output still to come. */
    ghost function Pending(tape: seq<byte>, n: nat): Expanded
      requires Valid(tape, n)
    {
      Prepend(Repeat(ch, len), Rest(tape, n, used))
    }
  }

  /** The state after fetching the next run of the block `tape[..n]`. */
  function NextRun(tape: seq<byte>, n: nat, u: nat): (d: OutState)
    requires |tape| == n + 2 && 1 <= u <= n
    ensures d.Valid(tape, n) && d.len >= 1 && d.used > u
  {
    var k0 := tape[u - 1];
    if tape[u] != k0 || u + 1 == n + 1 then OutState(k0, 1, u + 1, tape[u])
    else if u + 2 == n + 1 || tape[u + 1] != k0 then OutState(k0, 2, u + 2, if u + 2 == n + 1 then k0 else tape[u + 1])
    else if u + 3 == n + 1 || tape[u + 2] != k0 then OutState(k0, 3, u + 3, if u + 3 == n + 1 then k0 else tape[u + 2])
    else OutState(k0, FullRun(tape[u + 3]), u + 5, tape[u + 4])
  }

  /** What `tape[..n]` still has to produce once `used` bytes of it are read. */
  function Rest(tape: seq<byte>, n: nat, used: nat): Expanded
    requires |tape| == n + 2 && 1 <= used <= n + 2
    decreases n + 2 - used
  {
    if used > n then Expanded([], used == n + 1)
    else var d := NextRun(tape, n, used); Prepend(Repeat(d.ch, d.len), Rest(tape, n, d.used))
  }

  /** A block that breaks off does so after four equal bytes, and so there is output of it. */
  lemma {:induction false} BrokenLong(tape: seq<byte>, n: nat, used: nat)
    requires |tape| == n + 2 && 1 <= used <= n + 1 && !Rest(tape, n, used).ok
    ensures |Rest(tape, n, used).out| >= 4
    decreases n + 2 - used
  {
    var d := NextRun(tape, n, used);
    if d.used <= n + 1 { BrokenLong(tape, n, d.used); }
  }

  /** That is the expansion of the remaining bytes, the one before included. */
  lemma {:induction false} RestExpands(tape: seq<byte>, n: nat, used: nat)
    requires |tape| == n + 2 && 1 <= used <= n + 1
    ensures Rest(tape, n, used) == Expand(tape[..n][used - 1..], tape[n])
    decreases n + 2 - used
  {
    if used <= n {
      var b, d := tape[..n][used - 1..], NextRun(tape, n, used);
      assert forall i {:trigger b[i]} :: 0 <= i < |b| ==> b[i] == tape[used - 1 + i];
      if d.used <= n + 1 {
        RestExpands(tape, n, d.used);
        assert b[d.used - used..] == tape[..n][d.used - 1..];
      }
      LeadIs(tape, n, used, b);
      if Lead(b) == 4 && |b| == 4 {
        assert d.used == n + 2 && Repeat(d.ch, d.len) + [] == Repeat(d.ch, d.len);
      }
    }
  }

  lemma LeadIs(tape: seq<byte>, n: nat, u: nat, b: seq<byte>)
    requires |tape| == n + 2 && 1 <= u <= n && |b| == n + 1 - u
    requires forall i {:trigger b[i]} :: 0 <= i < |b| ==> b[i] == tape[u - 1 + i]
    ensures NextRun(tape, n, u).ch == b[0]
    ensures var k, d := Lead(b), NextRun(tape, n, u);
      if k < 4 then d.len == k && d.used == u + k else d.len == FullRun(tape[u + 3]) && d.used == u + 5
  {
  }

  /** Output is exhausted exactly when no run is open and every byte of the block has been read. */
  lemma PendingEmpty(s: OutState, tape: seq<byte>, n: nat)
    requires s.Valid(tape, n)
    ensures s.Pending(tape, n).out == [] <==> s.len == 0 && s.used >= n + 1
    ensures s.used >= n + 1 ==> s.Pending(tape, n) == Expanded(Repeat(s.ch, s.len), s.used == n + 1)
  {
    if s.used > n {
      assert Repeat(s.ch, s.len) + [] == Repeat(s.ch, s.len);
    }
  }

  /** The bytes that reading on from `row` gives: the block, then two more as the walk goes round. */
  function Tape(l: seq<int>, row: nat): (w: seq<byte>)
    requires Bytes(l) && row < |l|
    ensures |w| == |l| + 2 && w[..|l|] == Inverse(l, row)
  {
    forall y | 0 <= y < |l| ensures TInv(l)[y] < |l| { TInvInverse(l, y); }
    var w := Walk(TInv(l), l, row, |l| + 2);
    WalkPrefix(TInv(l), l, row, |l|, |l| + 2);
    forall i | 0 <= i < |w| ensures 0 <= w[i] < 256 {
      WalkMembers(TInv(l), l, row, |l| + 2, i);
    }
    seq(|w|, i requires 0 <= i < |w| => w[i])
  }

  /** After `used` bytes the reader stands at `row`. */
  ghost predicate Reading(l: seq<int>, row: nat, tape: seq<byte>, used: nat) {
    && Bytes(l) && row < |l| && |tape| == |l| + 2 && used <= |tape|
    && (forall y :: 0 <= y < |l| ==> TInv(l)[y] < |l|)
    && Walk(TInv(l), l, row, |tape| - used) == tape[used..]
  }

  lemma ReadingStarts(l: seq<int>, row: nat)
    requires Bytes(l) && row < |l|
    ensures Reading(l, row, Tape(l, row), 0)
  {
    forall y | 0 <= y < |l| ensures TInv(l)[y] < |l| { TInvInverse(l, y); }
    assert Tape(l, row)[0..] == Walk(TInv(l), l, row, |l| + 2);
  }

  lemma ReadingNext(l: seq<int>, row: nat, tape: seq<byte>, used: nat)
    requires Reading(l, row, tape, used) && used < |tape|
    ensures TInv(l)[row] < |l| && tape[used] == l[TInv(l)[row]]
    ensures Reading(l, TInv(l)[row], tape, used + 1)
  {
    assert tape[used..][1..] == tape[used + 1..];
  }

  /** Either form of the inverse transform; `smallDecompress` selects. */
  datatype Rows = Fast(fast: FastRows) | Small(small: SmallRows) {
    ghost function Repr(): set<object> {
      if Fast? then {fast, fast.tt} else {small, small.ll16, small.ll4, small.cftab}
    }

    ghost predicate Valid()
      reads Repr()
    {
      if Fast? then fast.Valid() else small.Valid() && small.tPos < |small.l|
    }

    ghost function Column(): seq<int> {
      if Fast? then fast.l else small.l
    }

    ghost function Row(): nat
      reads if Fast? then {fast} else {small}
    {
      if Fast? then fast.row else small.tPos
    }

    ghost function Cursor(): set<object> {
      if Fast? then {fast} else {small}
    }

    /** `BZ_GET_FAST` or `BZ_GET_SMALL` */
    method Get() returns (c: nat)
      requires Valid()
      modifies Cursor()
      ensures Valid() && Row() == TInv(Column())[old(Row())] < |Column()| && c == Column()[Row()]
    {
      match this {
        case Fast(f) => c := f.Get();
        case Small(m) =>
          TInvInverse(m.l, m.tPos);
          c := m.Get();
      }
    }
  }

  /** What one call may emit of `p` into `avail` bytes of space. */
  function Emitted(p: Expanded, avail: nat): seq<byte> {
    if |p.out| <= avail then p.out else p.out[..avail]
  }

  /** `out` has been emitted of `p`; `c` says what remains. */
  ghost predicate Serving(tape: seq<byte>, n: nat, p: Expanded, out: seq<byte>, c: OutState) {
    c.Valid(tape, n) && Prepend(out, c.Pending(tape, n)) == p
  }

  /** The effect of one call on the output pending before it. */
  ghost predicate Served(tape: seq<byte>, n: nat, p: Expanded, avail: nat, out: seq<byte>, c: OutState) {
    && Serving(tape, n, p, out, c) && out == Emitted(p, avail)
    && (c.len == 0 && c.used == n + 1 <==> p.ok && |p.out| <= avail)
  }

  /** Emitting one byte of the open run. */
  lemma EmitOne(tape: seq<byte>, n: nat, p: Expanded, out: seq<byte>, c: OutState, crc: word)
    requires Serving(tape, n, p, out, c) && c.len > 0
    ensures Serving(tape, n, p, out + [c.ch], c.(len := c.len - 1))
    ensures Updates(crc, out + [c.ch]) == Update(Updates(crc, out), c.ch)
  {
    var r := Rest(tape, n, c.used).out;
    assert (out + [c.ch])[..|out|] == out;
    assert Repeat(c.ch, c.len) == [c.ch] + Repeat(c.ch, c.len - 1);
    assert out + (([c.ch] + Repeat(c.ch, c.len - 1)) + r) == (out + [c.ch]) + (Repeat(c.ch, c.len - 1) + r);
  }

  lemma ServeStart(tape: seq<byte>, n: nat, c: OutState)
    requires c.Valid(tape, n)
    ensures Serving(tape, n, c.Pending(tape, n), [], c)
  {
    assert [] + c.Pending(tape, n).out == c.Pending(tape, n).out;
  }

  lemma ServeFull(tape: seq<byte>, n: nat, p: Expanded, avail: nat, out: seq<byte>, c: OutState)
    requires Serving(tape, n, p, out, c) && |out| == avail
    ensures Served(tape, n, p, avail, out, c) && |p.out| >= avail && (c.len > 0 ==> |p.out| > avail)
  {
    PendingEmpty(c, tape, n);
    assert p.out == out + c.Pending(tape, n).out;
    assert p.out[..avail] == out;
  }

  lemma ServeEnd(tape: seq<byte>, n: nat, p: Expanded, avail: nat, out: seq<byte>, c: OutState)
    requires Serving(tape, n, p, out, c) && |out| <= avail && c.len == 0
    ensures c.used >= n + 1 ==> Served(tape, n, p, avail, out, c) && p == Expanded(out, c.used == n + 1)
  {
    if c.used >= n + 1 {
      PendingEmpty(c, tape, n);
      assert out + [] == out;
    }
  }

  lemma ServeMore(tape: seq<byte>, n: nat, p: Expanded, out: seq<byte>, c: OutState, d: OutState)
    requires Serving(tape, n, p, out, c) && c.len == 0 && c.used <= n && d == NextRun(tape, n, c.used)
    ensures Serving(tape, n, p, out, d)
  {
    assert Repeat(c.ch, 0) + Rest(tape, n, c.used).out == Rest(tape, n, c.used).out;
  }

  /** Two calls with little space do what one call with the space of both does. */
  lemma ServedTwice(tape: seq<byte>, n: nat, p: Expanded, i: nat, a: seq<byte>, c: OutState, j: nat, b: seq<byte>,
        d: OutState)
    requires Served(tape, n, p, i, a, c) && Served(tape, n, c.Pending(tape, n), j, b, d)
    ensures Served(tape, n, p, i + j, a + b, d)
    ensures c.Pending(tape, n).ok == p.ok
    ensures |c.Pending(tape, n).out| <= j <==> |p.out| <= i || |p.out| <= i + j
  {
    var q, r := c.Pending(tape, n), d.Pending(tape, n);
    assert p.out == a + q.out && q.out == b + r.out;
    assert a + (b + r.out) == (a + b) + r.out;
    if |p.out| > i + j {
      assert p.out[..i + j] == a + b;
    }
  }

  /** `DState` in state BZ_X_OUTPUT; each call copies the scalars (`OutState` and checksum) in and out. */
  class BlockOutput {
    const rows: Rows
    const n: nat   // save_nblock
    ghost const tape: seq<byte>
    ghost const repr: set<object>
    ghost var taken: nat

    /** The cursor is where it should be after `k` bytes of the block have been read. */
    ghost predicate At(k: nat)
      reads this`taken, repr
    {
      && rows.Repr() <= repr && rows.Valid() && |rows.Column()| == n
      && Reading(rows.Column(), rows.Row(), tape, taken) && taken == k
    }

    /** Nothing is read yet. */
    constructor (rows: Rows, n: nat)
      requires rows.Valid() && n == |rows.Column()|
      ensures this.rows == rows && this.n == n && tape == Tape(rows.Column(), rows.Row()) && repr == rows.Repr()
      ensures At(0)
    {
      ReadingStarts(rows.Column(), rows.Row());
      this.rows, this.n, tape, repr, taken := rows, n, Tape(rows.Column(), rows.Row()), rows.Repr(), 0;
    }

    /** `BZ_GET_FAST` or `BZ_GET_SMALL`, and `nblock_used++` */
    method Get(ghost k: nat) returns (k1: byte)
      requires At(k) && k < n + 2 == |tape|
      modifies this`taken, rows.Cursor()
      ensures At(k + 1) && k1 == tape[k]
    {
      ReadingNext(rows.Column(), rows.Row(), tape, taken);
      k1 := rows.Get();
      taken := taken + 1;
    }

    /** Starts a new run. */
    method FetchRun(c: OutState) returns (d: OutState)
      requires c.Valid(tape, n) && At(c.used) && c.used <= n
      modifies this`taken, rows.Cursor()
      ensures At(d.used) && d == NextRun(tape, n, c.used)
    {
      hide BlockOutput.At;
      var k1 := Get(c.used);
      if k1 != c.k0 || c.used + 1 == n + 1 { return OutState(c.k0, 1, c.used + 1, k1); }
      k1 := Get(c.used + 1);
      if c.used + 2 == n + 1 { return OutState(c.k0, 2, c.used + 2, c.k0); }
      if k1 != c.k0 { return OutState(c.k0, 2, c.used + 2, k1); }
      k1 := Get(c.used + 2);
      if c.used + 3 == n + 1 { return OutState(c.k0, 3, c.used + 3, c.k0); }
      if k1 != c.k0 { return OutState(c.k0, 3, c.used + 3, k1); }
      k1 := Get(c.used + 3);
      var k2 := Get(c.used + 4);
      d := OutState(c.k0, FullRun(k1), c.used + 5, k2);
    }

    /** The registers are not saved: the block stands where it stood before the call. */
    method Restore(tPos: nat, ghost row: nat, ghost used: nat)
      requires rows.Fast? && At(taken) && Reading(rows.Column(), row, tape, used)
        && tPos == TInv(rows.Column())[row]
      modifies this`taken, rows.Cursor()
      ensures At(used)
    {
      rows.fast.Restore(tPos, row);
      taken := used;
    }

    /**
     * `unRLE_obuf_to_output_FAST` works on copies of the registers, of the position in `tt` and of the place in the
     * output. When the block breaks off it returns without saving them, and so reports nothing of what it wrote.
     */
    method OutputFast(s: OutState, crc: word, avail: nat)
      returns (corrupt: bool, out: seq<byte>, c: OutState, c_crc: word)
      requires s.Valid(tape, n) && At(s.used) && rows.Fast?
      modifies this`taken, rows.Cursor()
      ensures corrupt <==> !s.Pending(tape, n).ok && |s.Pending(tape, n).out| <= avail
      ensures At(c.used) && c_crc == Updates(crc, out)
      ensures if corrupt then out == [] && c == s else Served(tape, n, s.Pending(tape, n), avail, out, c)
    {
      var tPos := rows.fast.tPos;
      ghost var row := rows.fast.row;
      corrupt, out, c, c_crc := RunFast(s, crc, avail);
      if corrupt {
        Restore(tPos, row, s.used);
        out, c, c_crc := [], s, crc;
      }
    }

    /** Its loop on the copies. */
    method RunFast(s: OutState, crc: word, avail: nat) returns (corrupt: bool, out: seq<byte>, c: OutState, c_crc: word)
      requires s.Valid(tape, n) && At(s.used)
      modifies this`taken, rows.Cursor()
      ensures Served(tape, n, s.Pending(tape, n), avail, out, c) && At(c.used)
      ensures c_crc == Updates(crc, out)
      ensures corrupt <==> !s.Pending(tape, n).ok && |s.Pending(tape, n).out| <= avail
    {
      hide BlockOutput.At;
      ghost var p := s.Pending(tape, n);
      out := [];
      c, c_crc := s, crc;
      ServeStart(tape, n, c);
      while true
        invariant At(c.used) && Serving(tape, n, p, out, c) && |out| <= avail
        invariant c_crc == Updates(crc, out)
        decreases n + 2 - c.used, c.len
      {
        if c.len > 0 {
          ghost var used := c.used;
          while true
            invariant c.len >= 1 && c.used == used && At(used)
            invariant Serving(tape, n, p, out, c) && |out| <= avail && c_crc == Updates(crc, out)
            decreases c.len
          {
            if |out| == avail {
              ServeFull(tape, n, p, avail, out, c);
              corrupt := false;
              return;
            }
            if c.len == 1 { break; }
            EmitOne(tape, n, p, out, c, crc);
            c_crc, out := Update(c_crc, c.ch), out + [c.ch];
            c := c.(len := c.len - 1);
          }
          EmitOne(tape, n, p, out, c, crc);
          c_crc, out := Update(c_crc, c.ch), out + [c.ch];
          c := c.(len := 0);
        }
        ServeEnd(tape, n, p, avail, out, c);
        if c.used > n + 1 {
          corrupt := true;
          return;
        }
        if c.used == n + 1 {
          corrupt := false;
          return;
        }
        var d := FetchRun(c);
        ServeMore(tape, n, p, out, c, d);
        c := d;
      }
    }

    /** `unRLE_obuf_to_output_SMALL`: a corrupt end is noticed only while there is space. */
    method OutputSmall(s: OutState, crc: word, avail: nat)
      returns (corrupt: bool, out: seq<byte>, c: OutState, c_crc: word)
      requires s.Valid(tape, n) && At(s.used)
      modifies this`taken, rows.Cursor()
      ensures Served(tape, n, s.Pending(tape, n), avail, out, c) && At(c.used)
      ensures c_crc == Updates(crc, out)
      ensures corrupt <==> !s.Pending(tape, n).ok && |s.Pending(tape, n).out| < avail
    {
      hide BlockOutput.At;
      ghost var p := s.Pending(tape, n);
      out := [];
      c, c_crc := s, crc;
      ServeStart(tape, n, c);
      while true
        invariant At(c.used) && Serving(tape, n, p, out, c) && |out| <= avail
        invariant c_crc == Updates(crc, out)
        decreases n + 2 - c.used, c.len
      {
        ghost var used := c.used;
        while true
          invariant c.used == used && At(used)
          invariant Serving(tape, n, p, out, c) && |out| <= avail && c_crc == Updates(crc, out)
          decreases c.len
        {
          if |out| == avail {
            ServeFull(tape, n, p, avail, out, c);
            corrupt := false;
            return;
          }
          if c.len == 0 { break; }
          EmitOne(tape, n, p, out, c, crc);
          c_crc, out := Update(c_crc, c.ch), out + [c.ch];
          c := c.(len := c.len - 1);
        }
        ServeEnd(tape, n, p, avail, out, c);
        if c.used == n + 1 {
          corrupt := false;
          return;
        }
        if c.used > n + 1 {
          corrupt := true;
          return;
        }
        var d := FetchRun(c);
        ServeMore(tape, n, p, out, c, d);
        c := d;
      }
    }
  }
}
