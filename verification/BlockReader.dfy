/** Reading the data of a block: symbols out of codes, the column out of symbols, and the set-up of its inverse. */
module BlockReader {
  import opened Bits
  import opened Crc
  import opened RunLength
  import opened Mtf
  import opened HuffmanCodes
  import opened InverseBwt
  import opened UndoBwt
  import opened MtfLines
  import opened Output
  import opened Decoder
  import opened BlockColumn
  import opened SymbolTables

  /** The inverse transform is set up, or `origPtr` is no row of the block. */
  datatype Finished = Ready(o: BlockOutput, s: OutState) | Corrupt

  /** The state when the inverse of the column `v` is ready for output. */
  lemma EndBlockIs(st: Stream, hd: Head, v: seq<nat>, l: seq<byte>)
    requires l == Unmapped(hd.unseq, v) && |v| <= 100000 * st.level
    ensures EndBlock(st, hd, v)
         == if hd.orig >= |v| then Failed else Emitting(st, hd.crc, BlockOutputOf(l, hd.orig), INITIAL)
  {
    hide BlockOutputOf;
  }

  /** Nothing is output yet and the first byte is at hand. */
  lemma PendingFirst(l: seq<byte>, orig: nat)
    requires orig < |l|
    ensures var w := Tape(l, orig);
      OutState(0, 0, 1, w[0]).Valid(w, |l|) && OutState(0, 0, 1, w[0]).Pending(w, |l|) == BlockOutputOf(l, orig)
  {
    var r := BlockOutputOf(l, orig).out;
    assert Repeat(0, 0) + r == r;
  }

  /** What follows a field: more of the block, its end, or a corrupt stream. */
  datatype Next = On | Ends | Fails

  /** All tables have lengths for the bytes in use and the three other symbols. */
  ghost predicate Sized(cd: Coding, n: nat) {
    forall t {:trigger cd.lens[t]} :: 0 <= t < |cd.lens| ==> |cd.lens[t]| == n + 2
  }

  /** What the head of a block has to give before its data can be read. */
  ghost predicate Suited(st: Stream, hd: Head, cd: Coding) {
    && 1 <= |hd.unseq| <= 256 && 1 <= st.level <= 9 && cd.selectors != [] && Sized(cd, |hd.unseq|)
    && (forall i {:trigger cd.selectors[i]} :: 0 <= i < |cd.selectors| ==> cd.selectors[i] < |cd.lens|)
    && (forall t {:trigger cd.lens[t]} :: 0 <= t < |cd.lens| ==> Lengths(cd.lens[t], 1, LONGEST))
  }

  /** The loop over `BZ2_hbCreateDecodeTables`. */
  method BuildTables(lens: seq<seq<nat>>) returns (tables: seq<Table>, ghost fixed: set<object>)
    requires forall t {:trigger lens[t]} :: 0 <= t < |lens| ==> Lengths(lens[t], 1, LONGEST) && |lens[t]| <= 258
    ensures fresh(fixed) && |tables| == |lens|
    ensures forall t {:trigger tables[t]} :: 0 <= t < |tables| ==>
      {tables[t].limit as object, tables[t].base as object, tables[t].perm as object} <= fixed
      && tables[t].Valid() && tables[t].lens == lens[t]
  {
    tables, fixed := [], {};
    for i := 0 to |lens|
      invariant fresh(fixed) && |tables| == i
      invariant forall t {:trigger tables[t]} :: 0 <= t < i ==>
        {tables[t].limit as object, tables[t].base as object, tables[t].perm as object} <= fixed
        && tables[t].Valid() && tables[t].lens == lens[t]
    {
      var t := new Table(lens[i]);
      tables := tables + [t];
      fixed := fixed + {t.limit as object, t.base as object, t.perm as object};
    }
  }

  /** `BZALLOC`; the arrays hold anything. */
  method Allocate(small: bool, max: nat) returns (store: Store)
    ensures store.Ll? == small && store.Holds(max) && fresh(store.Cells()) && fresh(store.Other())
  {
    if small {
      var ll16 := new nat[max];
      var ll4 := new nat[(max + 1) / 2];
      store := Ll(ll16, ll4);
    } else {
      var tt := new nat[max];
      store := Tt(tt);
    }
  }

  /** How far the reading of a block has got: before a symbol, or inside its code. */
  datatype Spot = Before(um: Unmtfing, k: nat) | Inside(um: Unmtfing, k: nat, zn: nat, zvec: nat)

  /** The state of the decoder on values. */
  function StateAt(st: Stream, hd: Head, cd: Coding, p: Spot): Dec {
    match p
    case Before(um, k) => Symbol(st, hd, cd, um, k)
    case Inside(um, k, zn, zvec) => SymbolBit(st, hd, cd, um, k, zn, zvec)
  }

  /** The code read after one more field `v`: how many bits and their value. */
  function CodeRead(cd: Coding, p: Spot, v: nat): (nat, nat)
  {
    if p.Inside? then (p.zn + 1, 2 * p.zvec + v) else (MinLength(cd, p.k), v)
  }

  lemma StepBefore(st: Stream, hd: Head, cd: Coding, um: Unmtfing, k: nat, v: nat)
    ensures Step(Symbol(st, hd, cd, um, k), v) == ProbeSymbol(st, hd, cd, um, k, MinLength(cd, k), v)
  {
    hide ProbeSymbol;
  }

  lemma StepInside(st: Stream, hd: Head, cd: Coding, um: Unmtfing, k: nat, zn: nat, zvec: nat, v: nat)
    ensures Step(SymbolBit(st, hd, cd, um, k, zn, zvec), v) == ProbeSymbol(st, hd, cd, um, k, zn + 1, 2 * zvec + v)
  {
    hide ProbeSymbol;
  }

  /** What a field does to the decoder on values. */
  lemma StepIs(st: Stream, hd: Head, cd: Coding, p: Spot, v: nat)
    ensures Step(StateAt(st, hd, cd, p), v)
         == ProbeSymbol(st, hd, cd, p.um, p.k, CodeRead(cd, p, v).0, CodeRead(cd, p, v).1)
  {
    hide Step, ProbeSymbol;
    if p.Before? { StepBefore(st, hd, cd, p.um, p.k, v); } else { StepInside(st, hd, cd, p.um, p.k, p.zn, p.zvec, v); }
  }

  /** The same by the outcome of the probe. */
  lemma ProbeIs(st: Stream, hd: Head, cd: Coding, um: Unmtfing, k: nat, zn: nat, zvec: nat)
    requires TableOf(cd, k) != []
    ensures var lens := TableOf(cd, k);
      ProbeSymbol(st, hd, cd, um, k, zn, zvec) == match Check(lens, MinOf(lens), MaxOf(lens), zn, zvec)
        case Bad => Failed
        case More => StateAt(st, hd, cd, Inside(um, k, zn, zvec))
        case Found(sym) => Accept(st, hd, cd, um, k, sym)
  {
    hide Accept, Check;
  }

  lemma AcceptIs(st: Stream, hd: Head, cd: Coding, um: Unmtfing, k: nat, sym: nat)
    requires um.Valid()
    ensures Accept(st, hd, cd, um, k, sym) ==
      if sym == |hd.unseq| + 1 then EndBlock(st, hd, EndRun(um).out)
      else if |Mtf.Decode(um, sym).out| > 100000 * st.level || !Selects(cd, k + 1) then Failed
      else StateAt(st, hd, cd, Before(Mtf.Decode(um, sym), k + 1))
  {
    hide EndBlock, Mtf.Decode;
  }

  lemma TooLong(st: Stream, hd: Head, v: seq<nat>)
    requires |v| > 100000 * st.level
    ensures EndBlock(st, hd, v) == Failed
  {
  }

  /** The selectors suffice for symbol `k`. */
  predicate Selects(cd: Coding, k: nat) {
    k % GROUP_SIZE != 0 || k / GROUP_SIZE < |cd.selectors|
  }

  /** `selector`, the decoding tables and the state of `GET_MTF_VAL`. */
  method MakeSymbols(st: Stream, hd: Head, cd: Coding) returns (g: SymbolReader)
    requires Suited(st, hd, cd)
    ensures g.Built() && g.At(0) && !g.inCode && g.cd == cd && fresh(g) && fresh(g.fixed) && g !in g.fixed
  {
    var tables;
    ghost var fixed;
    tables, fixed := BuildTables(cd.lens);
    g := new SymbolReader(tables, cd.selectors, cd, fixed);
  }

  method MakeColumn(st: Stream, hd: Head) returns (c: Column)
    requires 1 <= |hd.unseq| <= 256
    ensures c.Valid() && c.um == Start(256) && c.unseq == hd.unseq && c.nblockMAX == 100000 * st.level
      && c.store.Ll? == st.small
    ensures fresh(c) && fresh(c.unzftab) && fresh(c.lines.mtfa) && fresh(c.lines.mtfbase)
    ensures fresh(c.store.Cells()) && fresh(c.store.Other())
  {
    var store := Allocate(st.small, 100000 * st.level);
    c := new Column(hd.unseq, 100000 * st.level, store);
  }

  /** How many parts the validity of a reader has. */
  const PARTS := 4

  class Reader {
    const st: Stream
    const hd: Head
    const column: Column
    const symbols: SymbolReader
    ghost const repr: set<object>
    ghost var k: nat   // how many symbols were read

    /** What reading changes, what it leaves alone, and that the parts belong together. */
    ghost predicate Apart() {
      && column in repr && symbols in repr && column.unzftab in repr && column.lines.mtfa in repr
      && column.lines.mtfbase in repr
      && column.store.Cells() in repr && column.store.Other() in repr
      && (forall o {:trigger o in symbols.fixed} :: o in symbols.fixed ==> o !in repr)
      && this !in repr && this !in symbols.fixed
      && column.store.Ll? == st.small && st.level <= 9
      && column.unseq == hd.unseq && column.nblockMAX == 100000 * st.level && Sized(symbols.cd, |hd.unseq|)
    }

    /** The parts of validity. */
    ghost predicate Part(i: nat)
      reads this, repr, symbols.fixed
    {
      Apart() && match i
        case 0 => column.Valid()
        case 1 => symbols.Built()
        case 2 => symbols.inCode ==> symbols.Inside(symbols.Lens(k))
        case _ => symbols.At(k)
    }

    /** The first `n` parts hold; recursive so that proofs about several calls see only the last part. */
    ghost predicate Sound(n: nat)
      reads this, repr, symbols.fixed
    {
      n == 0 || (Sound(n - 1) && Part(n - 1))
    }

    ghost predicate Valid()
      reads this, repr, symbols.fixed
    {
      Sound(PARTS)
    }

    lemma Opened()
      requires Valid()
      ensures Apart() && column.Valid() && symbols.Built() && symbols.At(k)
        && (symbols.inCode ==> symbols.Inside(symbols.Lens(k)))
    {
      assert Part(3) && Sound(3);
      assert Part(2) && Sound(2);
      assert Part(1) && Sound(1);
      assert Part(0);
    }

    lemma Closed()
      requires Apart() && column.Valid() && symbols.Built() && symbols.At(k)
      requires symbols.inCode ==> symbols.Inside(symbols.Lens(k))
      ensures Valid()
    {
      assert Sound(0) && Part(0);
      assert Sound(1) && Part(1);
      assert Sound(2) && Part(2);
      assert Sound(3) && Part(3);
    }

    /** The parts fit together. */
    ghost predicate Stands()
      reads this, repr, symbols.fixed
    {
      Valid() && Apart() && column.um.Valid()
    }

    /** Where reading stands. */
    ghost function Now(): (p: Spot)
      requires Stands()
      reads this, repr, symbols.fixed
      ensures p.um == column.um && p.k == k && p.um.Valid() && if symbols.inCode then p.Inside? else p.Before?
    {
      if symbols.inCode then Inside(column.um, k, symbols.zn, symbols.zvec) else Before(column.um, k)
    }

    /** Once the last code length is known. */
    constructor (st: Stream, hd: Head, cd: Coding)
      requires Suited(st, hd, cd)
      ensures Stands() && Now() == Before(Start(256), 0) && this.st == st && this.hd == hd && symbols.cd == cd
      ensures column.store.Ll? == st.small && fresh(repr) && fresh(symbols.fixed)
    {
      var g := MakeSymbols(st, hd, cd);
      var c := MakeColumn(st, hd);
      this.st, this.hd, column, symbols, k := st, hd, c, g, 0;
      repr := {c as object, g, c.unzftab, c.lines.mtfa, c.lines.mtfbase, c.store.Cells(), c.store.Other()};
      new;
      Closed();
    }

    /** How many bits to ask for next. */
    method Width() returns (n: nat)
      requires Stands()
      ensures n == if Now().Inside? then 1 else MinLength(symbols.cd, k)
    {
      Opened();
      n := symbols.Width(k);
    }

    /** The head of the next `GET_MTF_VAL`. */
    method Advance() returns (ok: bool)
      requires Stands() && Now().Before?
      modifies this`k, symbols
      ensures ok == Selects(symbols.cd, old(k) + 1)
      ensures ok ==> Stands() && Now() == Before(old(Now().um), old(Now().k) + 1)
    {
      Opened();
      k := k + 1;
      ok := symbols.Select(k);
      if ok { Closed(); }
    }

    /** The effect of a symbol on the column. */
    method Append(sym: nat) returns (ok: bool)
      requires Stands() && Now().Before? && sym <= |hd.unseq|
      modifies this, repr
      ensures ok == (|Mtf.Decode(old(Now().um), sym).out| <= 100000 * st.level)
      ensures ok ==> Stands() && Now() == Before(Mtf.Decode(old(Now().um), sym), old(Now().k))
    {
      Opened();
      ok := column.Take(sym);
      if ok { Closed(); }
    }

    /** A symbol that does not end the block. */
    method Continue(sym: nat) returns (ok: bool)
      requires Stands() && Now().Before? && sym <= |hd.unseq|
      modifies this, repr
      ensures ok == (|Mtf.Decode(old(Now().um), sym).out| <= 100000 * st.level && Selects(symbols.cd, old(Now().k) + 1))
      ensures ok ==> Stands() && Now() == Before(Mtf.Decode(old(Now().um), sym), old(Now().k) + 1)
    {
      ok := Append(sym);
      if ok { ok := Advance(); }
    }

    /** The symbol that ends the block. */
    method Close() returns (ok: bool)
      requires Stands() && Now().Before?
      modifies this, repr
      ensures ok ==> column.Valid() && Apart() && column.um == EndRun(old(Now().um))
      ensures ok == (|EndRun(old(Now().um)).out| <= 100000 * st.level)
    {
      Opened();
      ok := true;
      if column.inRun { ok := column.FlushRun(); }
    }

    /** The state of the decoder on values. */
    ghost function State(): Dec
      requires Stands()
      reads this, repr, symbols.fixed
    {
      StateAt(st, hd, symbols.cd, Now())
    }

    lemma SymbolFits(lens: seq<nat>, c: HuffmanCodes.Probe)
      requires Apart() && lens == TableOf(symbols.cd, k) != [] && (c.Found? ==> c.sym < |lens|)
      ensures c.Found? ==> c.sym < |hd.unseq| + 2
    {
      assert lens in symbols.cd.lens;
    }

    /** One more field of a code. */
    method Probe(v: nat, ghost p: Spot) returns (c: HuffmanCodes.Probe)
      requires Stands() && p == Now()
      modifies this, symbols
      ensures (symbols.zn, symbols.zvec) == CodeRead(symbols.cd, p, v)
      ensures var lens := TableOf(symbols.cd, p.k);
        lens != [] && c == Check(lens, MinOf(lens), MaxOf(lens), symbols.zn, symbols.zvec)
      ensures Stands() && Now() == if c.More? then Inside(p.um, p.k, symbols.zn, symbols.zvec) else Before(p.um, p.k)
      ensures c.Found? ==> c.sym < |hd.unseq| + 2
    {
      hide Check, Limit, MinLength, TableOf, Apart;
      Opened();
      c := symbols.Read(v, k);
      SymbolFits(symbols.Lens(k), c);
      Closed();
    }

    /** One `GET_BITS` and what follows up to the next. */
    method Take(v: nat) returns (r: Next)
      requires Stands()
      modifies this, repr
      ensures r == On ==> Stands() && State() == Step(old(State()), v)
      ensures r == Fails ==> Step(old(State()), v) == Failed
      ensures r == Ends ==> column.Valid() && Apart() && Step(old(State()), v) == EndBlock(st, hd, column.um.out)
    {
      hide Step, ProbeSymbol, Accept, EndBlock, Check, CodeRead, MinLength, TableOf, Mtf.Decode, EndRun, Selects;
      ghost var p := Now();
      var c := Probe(v, p);
      StepIs(st, hd, symbols.cd, p, v);
      ProbeIs(st, hd, symbols.cd, p.um, p.k, CodeRead(symbols.cd, p, v).0, CodeRead(symbols.cd, p, v).1);
      match c {
        case Bad => r := Fails;
        case More => r := On;
        case Found(sym) =>
          AcceptIs(st, hd, symbols.cd, p.um, p.k, sym);
          if sym == |hd.unseq| + 1 {
            var ok := Close();
            if !ok { TooLong(st, hd, EndRun(p.um).out); }
            r := if ok then Ends else Fails;
          } else {
            var ok := Continue(sym);
            r := if ok then On else Fails;
          }
      }
    }

    /** Builds the inverse vector in the arrays of the store. */
    method Invert() returns (rows: Rows)
      requires column.Valid() && Apart() && hd.orig < column.nblock
      modifies repr
      ensures rows.Valid() && rows.Row() == hd.orig && rows.Column() == Unmapped(hd.unseq, old(column.um.out))
      ensures rows.Small? == st.small && forall x :: x in rows.Repr() ==> x in repr || fresh(x)
      ensures column.um == old(column.um) && column.nblock == old(column.nblock)
    {
      var n := column.nblock;
      ghost var l := column.store.Cells()[..n];
      match column.store {
        case Tt(tt) =>
          var f := new FastRows(tt, n, column.unzftab, hd.orig, l);
          rows := Fast(f);
        case Ll(ll16, ll4) =>
          var m := new SmallRows(ll16, ll4, n, column.unzftab, hd.orig, l);
          rows := Small(m);
      }
    }

    /** The inverse transform is set up and the first byte read. */
    method Prepare(ghost l: seq<byte>) returns (r: Finished)
      requires column.Valid() && Apart() && hd.orig < column.nblock == |l| && l == Unmapped(hd.unseq, column.um.out)
      modifies repr
      ensures r.Ready? && r.s.Valid(r.o.tape, r.o.n) && r.o.At(r.s.used) && r.o.rows.Small? == st.small
      ensures |l| == r.o.n && hd.orig < |l| && r.s.Pending(r.o.tape, r.o.n) == BlockOutputOf(l, hd.orig)
      ensures fresh(r.o) && r.o !in r.o.repr && forall x :: x in r.o.repr ==> x in repr || fresh(x)
    {
      hide OutState.Pending, BlockOutputOf, Tape, Column.Valid, Unmapped, Rows.Valid;
      var rows := Invert();
      var o := new BlockOutput(rows, column.nblock);
      PendingFirst(l, hd.orig);
      var k0 := o.Get(0);
      r := Ready(o, OutState(0, 0, 1, k0));
    }

    /** The end of `BZ2_decompress` for a block. */
    method Finish() returns (r: Finished)
      requires column.Valid() && Apart()
      modifies repr
      ensures r.Corrupt? ==> EndBlock(st, hd, old(column.um.out)) == Failed
      ensures r.Ready? ==> r.s.Valid(r.o.tape, r.o.n) && r.o.At(r.s.used) && r.o.rows.Small? == st.small
      ensures r.Ready? ==>
        EndBlock(st, hd, old(column.um.out)) == Emitting(st, hd.crc, r.s.Pending(r.o.tape, r.o.n), INITIAL)
      ensures r.Ready? ==> fresh(r.o) && r.o !in r.o.repr && forall x :: x in r.o.repr ==> x in repr || fresh(x)
    {
      hide EndBlock, OutState.Pending, BlockOutputOf, OutState.Valid, BlockOutput.At;
      ghost var l := column.store.Cells()[..column.nblock];
      EndBlockIs(st, hd, column.um.out, l);
      r := Corrupt;
      if hd.orig < column.nblock { r := Prepare(l); }
    }
  }
}
