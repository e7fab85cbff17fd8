/** The initial run-length coding: runs, their five-byte form, and its expansion. */
module RunLength {
  import opened Bits

  datatype Run = Run(ch: byte, len: nat)

  ghost predicate GoodRun(r: Run) {
    1 <= r.len <= 255
  }

  function Repeat(c: byte, n: nat): (s: seq<byte>)
    ensures |s| == n && forall i :: 0 <= i < n ==> s[i] == c
  {
    seq(n, i => c)
  }

  /** `add_pair_to_block`: a run as it appears in the block. */
  function Coded(r: Run): (s: seq<byte>)
    requires GoodRun(r)
    ensures 1 <= |s| <= 5
  {
    if r.len < 4 then Repeat(r.ch, r.len) else Repeat(r.ch, 4) + [r.len - 4]
  }

  ghost predicate GoodRuns(rs: seq<Run>) {
    && (forall i :: 0 <= i < |rs| ==> GoodRun(rs[i]))
    && (forall i, j {:trigger rs[i], rs[j]} :: 0 <= i < j < |rs| && j == i + 1 ==> Apart(rs[i], rs[j]))
  }

  /** Neighbouring runs of the same byte arise only when the first is full. */
  ghost predicate Apart(r: Run, s: Run) {
    r.ch != s.ch || r.len == 255
  }

  ghost function Flatten(rs: seq<Run>): (s: seq<byte>)
    requires forall i :: 0 <= i < |rs| ==> GoodRun(rs[i])
  {
    if rs == [] then [] else Coded(rs[0]) + Flatten(rs[1..])
  }

  ghost function Unrolled(rs: seq<Run>): (s: seq<byte>) {
    if rs == [] then [] else Repeat(rs[0].ch, rs[0].len) + Unrolled(rs[1..])
  }

  lemma {:induction false} FlattenAppend(rs: seq<Run>, r: Run)
    requires GoodRun(r) && forall i :: 0 <= i < |rs| ==> GoodRun(rs[i])
    ensures Flatten(rs + [r]) == Flatten(rs) + Coded(r)
  {
    if rs == [] {
      assert (rs + [r])[1..] == [];
    } else {
      FlattenAppend(rs[1..], r);
      assert (rs + [r])[1..] == rs[1..] + [r];
    }
  }

  lemma {:induction false} UnrolledAppend(rs: seq<Run>, r: Run)
    ensures Unrolled(rs + [r]) == Unrolled(rs) + Repeat(r.ch, r.len)
  {
    if rs == [] {
      assert (rs + [r])[1..] == [];
    } else {
      UnrolledAppend(rs[1..], r);
      assert (rs + [r])[1..] == rs[1..] + [r];
    }
  }

  datatype Expanded = Expanded(out: seq<byte>, ok: bool)

  /** How many of the first bytes are equal, counting to four. */
  function Lead(b: seq<byte>): (k: nat)
    requires b != []
    ensures 1 <= k <= 4 && k <= |b| && forall i :: 0 <= i < k ==> b[i] == b[0]
    ensures k < 4 && k < |b| ==> b[k] != b[0]
  {
    if |b| < 2 || b[1] != b[0] then 1
    else if |b| < 3 || b[2] != b[0] then 2
    else if |b| < 4 || b[3] != b[0] then 3
    else 4
  }

  /** `((Int32)k1) + 4` */
  function FullRun(count: int): int {
    count + 4
  }

  /**
   * The decoder's output for a block. Four equal bytes at the very end lack their count; the decoder
   * then uses the byte it reads next (`extra`) and reports corruption.
   */
  function Expand(b: seq<byte>, extra: byte): (e: Expanded) {
    if b == [] then Expanded([], true)
    else
      var k := Lead(b);
      if k < 4 then Prepend(Repeat(b[0], k), Expand(b[k..], extra))
      else if |b| == 4 then Expanded(Repeat(b[0], FullRun(extra)), false)
      else Prepend(Repeat(b[0], FullRun(b[4])), Expand(b[5..], extra))
  }

  function Prepend(s: seq<byte>, e: Expanded): Expanded {
    Expanded(s + e.out, e.ok)
  }

  lemma LeadOfCoded(r: Run, rest: seq<byte>)
    requires GoodRun(r) && (r.len < 4 && rest != [] ==> rest[0] != r.ch)
    ensures Lead(Coded(r) + rest) == if r.len < 4 then r.len else 4
  {
  }

  lemma ExpandOne(r: Run, rest: seq<byte>, extra: byte)
    requires GoodRun(r) && (r.len < 4 && rest != [] ==> rest[0] != r.ch)
    ensures Expand(Coded(r) + rest, extra) == Prepend(Repeat(r.ch, r.len), Expand(rest, extra))
  {
    LeadOfCoded(r, rest);
    var b := Coded(r) + rest;
    if r.len < 4 {
      assert b[r.len..] == rest;
    } else {
      assert b[4] == r.len - 4 && b[5..] == rest;
    }
  }

  lemma FlattenHead(rs: seq<Run>)
    requires rs != [] && forall i :: 0 <= i < |rs| ==> GoodRun(rs[i])
    ensures Flatten(rs) != [] && Flatten(rs)[0] == rs[0].ch
  {
  }

  /** A block of runs expands to exactly the bytes they stand for. */
  lemma {:induction false} ExpandFlatten(rs: seq<Run>, extra: byte)
    requires GoodRuns(rs)
    ensures Expand(Flatten(rs), extra) == Expanded(Unrolled(rs), true)
  {
    if rs != [] {
      var t := rs[1..];
      ExpandFlatten(t, extra);
      if t != [] {
        FlattenHead(t);
        assert Apart(rs[0], rs[1]);
      }
      ExpandOne(rs[0], Flatten(t), extra);
    }
  }

  /** The run being collected: `state_in_ch` (256 for none) and `state_in_len`. */
  function PendingBytes(ch: nat, len: nat): seq<byte>
    requires ch <= 256
  {
    if ch < 256 then Repeat(ch, len) else []
  }
}
