/** Machines that read bits and write bytes, and can stop for lack of either and go on later. */
module Resumable {
  import opened Bits

  /**
   * `need` says how many bits the next step reads, 0 for a state that reads no more; a state that is `emitting`
   * has output to place before it can read on. A state that `drops` ends the run, and of its output only those calls
   * report anything that end before all of it is placed.
   */
  datatype Machine<!S> = Machine(
    need: S -> nat,
    step: (S, nat) -> S,
    emitting: S -> bool,
    drops: S -> bool,
    emit: (S, nat) -> (seq<byte>, S),
    emitAll: S -> (seq<byte>, S))

  /** Emitting in two goes comes to the same as emitting in one, unless the state drops its output. */
  ghost predicate EmitsEvenly<S>(m: Machine<S>, d: S, avail: nat) {
    var (o, e) := m.emit(d, avail);
    var (p, f) := m.emitAll(d);
    && |o| <= avail && !m.emitting(f) && (m.emitting(e) ==> |o| == avail && (m.drops(e) <==> m.drops(d)))
    && (m.drops(d) ==> p == [] && m.need(f) == 0)
    && if !m.emitting(e) then o == p && e == f
       else m.emitAll(e).1 == f && (!m.drops(d) ==> o + m.emitAll(e).0 == p)
  }

  ghost predicate Lawful<S(!new)>(m: Machine<S>) {
    forall d: S, avail: nat {:trigger m.emit(d, avail)} :: m.emitting(d) ==> EmitsEvenly(m, d, avail)
  }

  /** What was output, where the machine stopped, and the bits left. */
  type Outcome<S> = (seq<byte>, S, bits)

  function Put<S>(out: seq<byte>, r: Outcome<S>): Outcome<S> {
    (out + r.0, r.1, r.2)
  }

  lemma PutPut<S>(a: seq<byte>, b: seq<byte>, r: Outcome<S>)
    ensures Put(a, Put(b, r)) == Put(a + b, r)
  {
    assert a + (b + r.0) == (a + b) + r.0;
  }

  lemma PutNone<S>(r: Outcome<S>)
    ensures Put([], r) == r
  {
    assert [] + r.0 == r.0;
  }

  /** All of `b` at once and unlimited space. */
  function Result<S>(m: Machine<S>, d: S, b: bits): Outcome<S>
    decreases |b|, if m.emitting(d) then 1 else 0
  {
    if m.emitting(d) then
      var (out, e) := m.emitAll(d);
      if m.emitting(e) then (out, e, b) else Put(out, Result(m, e, b))
    else if m.need(d) == 0 || |b| < m.need(d) then ([], d, b)
    else Result(m, m.step(d, BitsNat(b[..m.need(d)])), b[m.need(d)..])
  }

  /** One call with the bits `b` and `avail` bytes of space. */
  function Call<S>(m: Machine<S>, d: S, b: bits, avail: nat): Outcome<S>
    decreases |b|, if m.emitting(d) then 1 else 0
  {
    if m.emitting(d) then
      var (out, e) := m.emit(d, avail);
      if m.emitting(e) || |out| > avail then (out, e, b) else Put(out, Call(m, e, b, avail - |out|))
    else if m.need(d) == 0 || |b| < m.need(d) then ([], d, b)
    else Call(m, m.step(d, BitsNat(b[..m.need(d)])), b[m.need(d)..], avail)
  }

  /** How many of the bytes that a call reports belong to output that the machine then drops. */
  function Stray<S>(m: Machine<S>, d: S, b: bits, avail: nat): (n: nat)
    decreases |b|, if m.emitting(d) then 1 else 0
  {
    if m.emitting(d) then
      var (out, e) := m.emit(d, avail);
      if m.emitting(e) || |out| > avail then (if m.drops(e) then |out| else 0) else Stray(m, e, b, avail - |out|)
    else if m.need(d) == 0 || |b| < m.need(d) then 0
    else Stray(m, m.step(d, BitsNat(b[..m.need(d)])), b[m.need(d)..], avail)
  }

  /** The run with all of `b` and unlimited space comes to output that is dropped. */
  predicate Breaks<S>(m: Machine<S>, d: S, b: bits)
    decreases |b|, if m.emitting(d) then 1 else 0
  {
    if m.emitting(d) then
      var e := m.emitAll(d).1;
      m.drops(d) || (!m.emitting(e) && Breaks(m, e, b))
    else m.need(d) != 0 && |b| >= m.need(d) && Breaks(m, m.step(d, BitsNat(b[..m.need(d)])), b[m.need(d)..])
  }

  lemma TakeMore(b: bits, more: bits, n: nat)
    requires n <= |b|
    ensures (b + more)[..n] == b[..n] && (b + more)[n..] == b[n..] + more
  {
  }

  /**
   * A call takes nothing away: the rest of the input still leads to the same end, and to the output but for stray
   * bytes.
   */
  lemma {:induction false} CallPreserves<S(!new)>(m: Machine<S>, d: S, b: bits, avail: nat, more: bits)
    requires Lawful(m)
    ensures var (out, e, rest) := Call(m, d, b, avail); var n := Stray(m, d, b, avail);
      && n <= |out| <= avail && (m.emitting(e) ==> |out| == avail)
      && Result(m, d, b + more) == Put(out[..|out| - n], Result(m, e, rest + more))
      && (Breaks(m, e, rest + more) ==> Breaks(m, d, b + more)) && (n > 0 ==> m.emitting(e) && m.drops(e))
    decreases |b|, if m.emitting(d) then 1 else 0
  {
    hide Call, Stray, Result, Breaks, EmitsEvenly;
    if m.emitting(d) {
      var (out, e) := m.emit(d, avail);
      assert EmitsEvenly(m, d, avail);
      if m.emitting(e) {
        StopEmitting(m, d, b, avail, more);
      } else {
        EmitWithin(m, d, avail);
        CallPreserves(m, e, b, avail - |out|, more);
        AfterOutput(m, d, b, avail, more);
      }
    } else if m.need(d) == 0 || |b| < m.need(d) {
      CallWaits(m, d, b, avail, more);
      PutNone(Result(m, d, b + more));
    } else {
      OneField(m, d, b, avail, more);
      CallPreserves(m, m.step(d, BitsNat(b[..m.need(d)])), b[m.need(d)..], avail, more);
    }
  }

  lemma EmitWithin<S>(m: Machine<S>, d: S, avail: nat)
    requires EmitsEvenly(m, d, avail)
    ensures |m.emit(d, avail).0| <= avail
  {
  }

  lemma CallWaits<S>(m: Machine<S>, d: S, b: bits, avail: nat, more: bits)
    requires !m.emitting(d) && (m.need(d) == 0 || |b| < m.need(d))
    ensures Call(m, d, b, avail) == ([], d, b) && Stray(m, d, b, avail) == 0
  {
  }

  lemma OneField<S>(m: Machine<S>, d: S, b: bits, avail: nat, more: bits)
    requires !m.emitting(d) && 0 < m.need(d) <= |b|
    ensures var n := m.need(d); var e := m.step(d, BitsNat(b[..n]));
      && Call(m, d, b, avail) == Call(m, e, b[n..], avail) && Stray(m, d, b, avail) == Stray(m, e, b[n..], avail)
      && Result(m, d, b + more) == Result(m, e, b[n..] + more)
      && (Breaks(m, d, b + more) <==> Breaks(m, e, b[n..] + more))
  {
    TakeMore(b, more, m.need(d));
  }

  /** The call ends in the middle of the output. */
  lemma StopEmitting<S(!new)>(m: Machine<S>, d: S, b: bits, avail: nat, more: bits)
    requires m.emitting(d) && EmitsEvenly(m, d, avail) && m.emitting(m.emit(d, avail).1)
    requires EmitsEvenly(m, m.emit(d, avail).1, avail)
    ensures var (out, e) := m.emit(d, avail); var n := if m.drops(e) then |out| else 0;
      && Call(m, d, b, avail) == (out, e, b) && Stray(m, d, b, avail) == n && |out| == avail
      && Result(m, d, b + more) == Put(out[..|out| - n], Result(m, e, b + more))
      && (Breaks(m, e, b + more) ==> Breaks(m, d, b + more))
  {
    var (out, e) := m.emit(d, avail);
    var r := Result(m, m.emitAll(d).1, b + more);
    if m.drops(e) {
      PutNone(Result(m, e, b + more));
      assert out[..0] == [];
    } else {
      assert out[..|out|] == out;
      PutPut(out, m.emitAll(e).0, r);
    }
  }

  /** The call goes on after the output. */
  lemma AfterOutput<S(!new)>(m: Machine<S>, d: S, b: bits, avail: nat, more: bits)
    requires m.emitting(d) && EmitsEvenly(m, d, avail) && !m.emitting(m.emit(d, avail).1)
    requires var (out, e) := m.emit(d, avail); var r, n := Call(m, e, b, avail - |out|), Stray(m, e, b, avail - |out|);
      n <= |r.0| && Result(m, e, b + more) == Put(r.0[..|r.0| - n], Result(m, r.1, r.2 + more))
    ensures var (out, e) := m.emit(d, avail); var r, n := Call(m, e, b, avail - |out|), Stray(m, e, b, avail - |out|);
      && Call(m, d, b, avail) == Put(out, r) && Stray(m, d, b, avail) == n
      && (Breaks(m, e, b + more) ==> Breaks(m, d, b + more))
      && Result(m, d, b + more) == Put((out + r.0)[..|out + r.0| - n], Result(m, r.1, r.2 + more))
  {
    var (out, e) := m.emit(d, avail);
    var r, n := Call(m, e, b, avail - |out|), Stray(m, e, b, avail - |out|);
    PutPut(out, r.0[..|r.0| - n], Result(m, r.1, r.2 + more));
    Heads(out, r.0, n);
  }

  lemma Heads(a: seq<byte>, b: seq<byte>, n: nat)
    requires n <= |b|
    ensures (a + b)[..|a + b| - n] == a + b[..|b| - n]
  {
  }

  /** With more space than there is output, a call does all there is to do. */
  lemma {:induction false} RoomEnough<S(!new)>(m: Machine<S>, d: S, b: bits, avail: nat)
    requires Lawful(m) && |Result(m, d, b).0| < avail && !Breaks(m, d, b)
    ensures Call(m, d, b, avail) == Result(m, d, b)
    decreases |b|, if m.emitting(d) then 1 else 0
  {
    if m.emitting(d) {
      var (out, e) := m.emit(d, avail);
      assert EmitsEvenly(m, d, avail);
      var (p, f) := m.emitAll(d);
      assert Result(m, d, b).0 == p + Result(m, f, b).0;
      if !m.emitting(e) { RoomEnough(m, e, b, avail - |out|); }
    } else if m.need(d) != 0 && |b| >= m.need(d) {
      RoomEnough(m, m.step(d, BitsNat(b[..m.need(d)])), b[m.need(d)..], avail);
    }
  }

  /** Calls one after another, each bringing more bits and its own space. */
  function Session<S>(m: Machine<S>, d: S, left: bits, calls: seq<(bits, nat)>): Outcome<S>
    decreases |calls|
  {
    if calls == [] then ([], d, left)
    else
      var r := Call(m, d, left + calls[0].0, calls[0].1);
      Put(r.0, Session(m, r.1, r.2, calls[1..]))
  }

  function Input(calls: seq<(bits, nat)>): bits {
    if calls == [] then [] else calls[0].0 + Input(calls[1..])
  }

  /** A state that can neither write nor read on. */
  ghost predicate Stuck<S>(m: Machine<S>, d: S, rest: bits) {
    !m.emitting(d) && (m.need(d) == 0 || |rest| < m.need(d))
  }

  lemma StuckResult<S>(m: Machine<S>, d: S, b: bits)
    requires Stuck(m, d, b)
    ensures Result(m, d, b) == ([], d, b)
  {
  }

  /** A call that leaves space has nothing left to do. */
  lemma {:induction false} SpaceLeft<S(!new)>(m: Machine<S>, d: S, b: bits, avail: nat)
    requires Lawful(m)
    ensures var (out, e, rest) := Call(m, d, b, avail); |out| <= avail && (|out| < avail ==> Stuck(m, e, rest))
    decreases |b|, if m.emitting(d) then 1 else 0
  {
    if m.emitting(d) {
      var (out, e) := m.emit(d, avail);
      assert EmitsEvenly(m, d, avail);
      if !m.emitting(e) { SpaceLeft(m, e, b, avail - |out|); }
    } else if m.need(d) != 0 && |b| >= m.need(d) {
      SpaceLeft(m, m.step(d, BitsNat(b[..m.need(d)])), b[m.need(d)..], avail);
    }
  }

  /** All stray bytes of a session. */
  function Strays<S>(m: Machine<S>, d: S, left: bits, calls: seq<(bits, nat)>): seq<byte>
    decreases |calls|
  {
    if calls == [] then []
    else
      var b := left + calls[0].0;
      var (r, n) := (Call(m, d, b, calls[0].1), Stray(m, d, b, calls[0].1));
      (if n <= |r.0| then r.0[|r.0| - n..] else []) + Strays(m, r.1, r.2, calls[1..])
  }

  /** Some call of the session ended inside output that is dropped, and reported bytes of it. */
  predicate EndsInside<S>(m: Machine<S>, d: S, left: bits, calls: seq<(bits, nat)>)
    decreases |calls|
  {
    calls != []
    && var b := left + calls[0].0;
       (Stray(m, d, b, calls[0].1) > 0
        || var r := Call(m, d, b, calls[0].1); EndsInside(m, r.1, r.2, calls[1..]))
  }

  lemma OneCallMore<S>(m: Machine<S>, d: S, left: bits, calls: seq<(bits, nat)>)
    requires calls != []
    ensures var b := left + calls[0].0; var r, n := Call(m, d, b, calls[0].1), Stray(m, d, b, calls[0].1);
      && Session(m, d, left, calls) == Put(r.0, Session(m, r.1, r.2, calls[1..]))
      && (n <= |r.0| ==> Strays(m, d, left, calls) == r.0[|r.0| - n..] + Strays(m, r.1, r.2, calls[1..]))
      && (EndsInside(m, d, left, calls) <==> n > 0 || EndsInside(m, r.1, r.2, calls[1..]))
  {
    hide Call, Stray;
  }

  /** Stray bytes come last, after everything that counts. */
  lemma StraysLast<S>(r: seq<byte>, k: nat, a: Outcome<S>, s: seq<byte>)
    requires k == |r| || (k < |r| && a.0 == [])
    ensures Put(r, With(a, s)) == With(Put(r[..k], a), r[k..] + s) && (r[k..] + s != [] <==> k < |r| || s != [])
  {
    assert r + (a.0 + s) == (r[..k] + a.0) + (r[k..] + s);
  }

  /** Stray bytes are reported too. */
  function With<S>(r: Outcome<S>, s: seq<byte>): Outcome<S> {
    (r.0 + s, r.1, r.2)
  }

  /**
   * However input and space are divided over calls: once nothing is left to do, the session has reported what one call
   * reports and the stray bytes.
   */
  lemma {:induction false} SessionStrays<S(!new)>(m: Machine<S>, d: S, left: bits, calls: seq<(bits, nat)>)
    requires Lawful(m) && Stuck(m, Session(m, d, left, calls).1, Session(m, d, left, calls).2)
    ensures Session(m, d, left, calls) == With(Result(m, d, left + Input(calls)), Strays(m, d, left, calls))
    ensures Strays(m, d, left, calls) != [] <==> EndsInside(m, d, left, calls)
    decreases |calls|
  {
    hide Call, Stray, Result, Breaks, Lawful, With, Stuck;
    if calls == [] {
      assert left + [] == left;
      StuckResult(m, d, left);
      WithNone(Result(m, d, left));
    } else {
      OneCallMore(m, d, left, calls);
      var b := left + calls[0].0;
      var r := Call(m, d, b, calls[0].1);
      assert left + Input(calls) == b + Input(calls[1..]);
      hide Session, Strays, EndsInside, Input;
      SessionStrays(m, r.1, r.2, calls[1..]);
      StraysMore(m, d, b, calls[0].1, calls[1..]);
    }
  }

  lemma WithNone<S>(r: Outcome<S>)
    ensures With(r, []) == r
  {
    assert r.0 + [] == r.0;
  }

  /** One call, and then the rest of a session for which this is so. */
  lemma StraysMore<S(!new)>(m: Machine<S>, d: S, b: bits, avail: nat, calls: seq<(bits, nat)>)
    requires Lawful(m)
    requires var r := Call(m, d, b, avail);
      && Session(m, r.1, r.2, calls) == With(Result(m, r.1, r.2 + Input(calls)), Strays(m, r.1, r.2, calls))
      && (Strays(m, r.1, r.2, calls) != [] <==> EndsInside(m, r.1, r.2, calls))
    ensures var r, n := Call(m, d, b, avail), Stray(m, d, b, avail); n <= |r.0|
    ensures var r, n := Call(m, d, b, avail), Stray(m, d, b, avail);
      var s := r.0[|r.0| - n..] + Strays(m, r.1, r.2, calls);
      && Put(r.0, Session(m, r.1, r.2, calls)) == With(Result(m, d, b + Input(calls)), s)
      && (s != [] <==> n > 0 || EndsInside(m, r.1, r.2, calls))
  {
    hide Call, Stray, Result, Breaks, Lawful, Input, Session, Strays, EndsInside, With;
    var r, n, more := Call(m, d, b, avail), Stray(m, d, b, avail), Input(calls);
    CallPreserves(m, d, b, avail, more);
    if n > 0 { DroppedEnds(m, r.1, r.2 + more); }
    StraysLast(r.0, |r.0| - n, Result(m, r.1, r.2 + more), Strays(m, r.1, r.2, calls));
  }

  /** Output that is dropped is the end of the run. */
  lemma DroppedEnds<S(!new)>(m: Machine<S>, d: S, b: bits)
    requires Lawful(m) && m.emitting(d) && m.drops(d)
    ensures Result(m, d, b).0 == [] && Breaks(m, d, b)
  {
    assert EmitsEvenly(m, d, |m.emit(d, 0).0|);
  }

  /** If no output is dropped, nothing of the result of one big call is lost at any time. */
  lemma {:induction false} SessionPreserves<S(!new)>(m: Machine<S>, d: S, left: bits, calls: seq<(bits, nat)>)
    requires Lawful(m) && !Breaks(m, d, left + Input(calls))
    ensures var (out, e, rest) := Session(m, d, left, calls);
      Result(m, d, left + Input(calls)) == Put(out, Result(m, e, rest))
    ensures !EndsInside(m, d, left, calls)
    decreases |calls|
  {
    if calls == [] {
      assert left + [] == left;
      PutNone(Result(m, d, left));
    } else {
      var b, more := left + calls[0].0, Input(calls[1..]);
      assert left + (calls[0].0 + more) == b + more;
      CallPreserves(m, d, b, calls[0].1, more);
      var r := Call(m, d, b, calls[0].1);
      if Stray(m, d, b, calls[0].1) > 0 { DroppedEnds(m, r.1, r.2 + more); }
      assert r.0[..|r.0|] == r.0;
      SessionPreserves(m, r.1, r.2, calls[1..]);
      var t := Session(m, r.1, r.2, calls[1..]);
      PutPut(r.0, t.0, Result(m, t.1, t.2));
    }
  }

  /**
   * Once a session has nothing left to do, it has done what one call does, if and only if no call ended inside output
   * that is dropped.
   */
  lemma SessionIsOneCall<S(!new)>(m: Machine<S>, d: S, calls: seq<(bits, nat)>)
    requires Lawful(m)
    requires Stuck(m, Session(m, d, [], calls).1, Session(m, d, [], calls).2)
    ensures Session(m, d, [], calls) == Result(m, d, Input(calls)) <==> !EndsInside(m, d, [], calls)
    ensures !Breaks(m, d, Input(calls)) ==> !EndsInside(m, d, [], calls)
  {
    SessionStrays(m, d, [], calls);
    assert [] + Input(calls) == Input(calls);
    var r, s := Result(m, d, Input(calls)), Strays(m, d, [], calls);
    if s == [] { assert r.0 + s == r.0; } else { assert |r.0 + s| > |r.0|; }
    if !Breaks(m, d, Input(calls)) { SessionPreserves(m, d, [], calls); }
  }

  /** Reading `a` takes `d` to `e` and outputs `o`, with no bits left. */
  ghost predicate Reads<S>(m: Machine<S>, d: S, a: bits, o: seq<byte>, e: S) {
    !m.emitting(e) && Result(m, d, a) == (o, e, [])
  }

  lemma {:induction false} ResultAppend<S>(m: Machine<S>, d: S, a: bits, b: bits)
    requires !m.emitting(Result(m, d, a).1)
    ensures var (o, e, rest) := Result(m, d, a); Result(m, d, a + b) == Put(o, Result(m, e, rest + b))
    decreases |a|, if m.emitting(d) then 1 else 0
  {
    if m.emitting(d) {
      var (out, e) := m.emitAll(d);
      ResultAppend(m, e, a, b);
      var r := Result(m, e, a);
      PutPut(out, r.0, Result(m, r.1, r.2 + b));
    } else if m.need(d) == 0 || |a| < m.need(d) {
      PutNone(Result(m, d, a + b));
    } else {
      var n := m.need(d);
      TakeMore(a, b, n);
      ResultAppend(m, m.step(d, BitsNat(a[..n])), a[n..], b);
    }
  }

  /** Reading is compositional. */
  lemma ReadsThen<S>(m: Machine<S>, d: S, a: bits, o: seq<byte>, e: S, b: bits, p: seq<byte>, f: S)
    requires Reads(m, d, a, o, e) && Reads(m, e, b, p, f)
    ensures Reads(m, d, a + b, o + p, f)
  {
    ResultAppend(m, d, a, b);
    assert [] + b == b;
  }

  lemma ReadsNothing<S>(m: Machine<S>, d: S)
    requires !m.emitting(d)
    ensures Reads(m, d, [], [], d)
  {
  }

  /** One field of `n` bits. */
  lemma ReadsField<S>(m: Machine<S>, d: S, n: nat, v: nat)
    requires !m.emitting(d) && m.need(d) == n > 0 && v < Pow2(n) && !m.emitting(m.step(d, v))
    ensures Reads(m, d, NatBits(n, v), [], m.step(d, v))
  {
    var b := NatBits(n, v);
    NatOfNatBits(n, v);
    assert b[..n] == b && b[n..] == [];
    assert Result(m, m.step(d, v), []) == ([], m.step(d, v), []);
  }

  /** A last field that leads to output. */
  lemma ReadsFieldEmitting<S>(m: Machine<S>, d: S, n: nat, v: nat)
    requires !m.emitting(d) && m.need(d) == n > 0 && v < Pow2(n) && m.emitting(m.step(d, v))
    requires !m.emitting(m.emitAll(m.step(d, v)).1)
    ensures Reads(m, d, NatBits(n, v), m.emitAll(m.step(d, v)).0, m.emitAll(m.step(d, v)).1)
  {
    var b, e := NatBits(n, v), m.step(d, v);
    NatOfNatBits(n, v);
    assert b[..n] == b && b[n..] == [];
    var (out, f) := m.emitAll(e);
    assert Result(m, f, []) == ([], f, []);
    assert out + [] == out;
  }
}
