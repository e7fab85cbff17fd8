/** The part of `BZ2_decompress` that turns symbols into the last column of a block, in the arrays of `DState`. */
module BlockColumn {
  import opened Bits
  import opened Counting
  import opened Mtf
  import opened Decoder
  import opened UndoBwt
  import opened MtfLines

  /** Where the column is kept: `tt` in the FAST build, `ll16` (with `ll4` for later) in the SMALL one. */
  datatype Store = Tt(tt: array<nat>) | Ll(ll16: array<nat>, ll4: array<nat>) {
    function Cells(): array<nat> {
      if Tt? then tt else ll16
    }

    /** `BZALLOC` for blocks of up to `max` bytes. */
    ghost predicate Holds(max: nat) {
      Cells().Length == max && (Ll? ==> ll4.Length == (max + 1) / 2 && ll4 != ll16)
    }

    ghost function Other(): array<nat> {
      if Tt? then tt else ll4
    }
  }

  /** `unzftab` counts the bytes of the column. */
  ghost predicate Tallied(freq: seq<nat>, col: seq<int>) {
    |freq| == 256 && forall c {:trigger freq[c]} :: 0 <= c < 256 ==> freq[c] == Count(col, c)
  }

  /** The entries that symbols can name stay below the number of bytes in use. */
  ghost predicate Within(list: seq<nat>, n: nat) {
    |list| == 256 && n <= 256 && forall i {:trigger list[i]} :: 0 <= i < n ==> list[i] < n
  }

  /** The arrays hold what was decoded: `col` the bytes, `freq` their counts, `list` the move-to-front list. */
  ghost predicate Tied(unseq: seq<byte>, um: Unmtfing, list: seq<nat>, col: seq<nat>, freq: seq<nat>) {
    && um.Valid() && um.list == list && Within(um.list, |unseq|) && unseq != []
    && col == Unmapped(unseq, um.out) && Tallied(freq, col)
  }

  lemma {:induction false} CountCopies(c: nat, n: nat, x: nat)
    ensures Count(Copies(c, n), x) == if x == c then n else 0
  {
    if n > 0 {
      assert Copies(c, n)[..n - 1] == Copies(c, n - 1);
      CountCopies(c, n - 1, x);
    }
  }

  lemma TalliedMore(freq: seq<nat>, col: seq<nat>, c: nat, n: nat)
    requires Tallied(freq, col) && c < 256
    ensures Tallied(freq[c := freq[c] + n], col + Copies(c, n))
  {
    var f := freq[c := freq[c] + n];
    forall x | 0 <= x < 256 ensures f[x] == Count(col + Copies(c, n), x) {
      CountConcat(col, Copies(c, n), x);
      CountCopies(c, n, x);
      assert freq[x] == Count(col, x);
    }
  }

  /** The end of a zero run in the arrays. */
  lemma TiedRun(unseq: seq<byte>, um: Unmtfing, list: seq<nat>, col: seq<nat>, freq: seq<nat>)
    requires Tied(unseq, um, list, col, freq) && um.N > 0
    ensures list[0] < |unseq| && |freq| == 256
    ensures var c := unseq[list[0]];
      Tied(unseq, EndRun(um), list, col + Copies(c, um.es + 1), freq[c := freq[c] + (um.es + 1)])
    ensures |EndRun(um).out| == |col| + um.es + 1
  {
    assert list[0] < |unseq|;
    TalliedMore(freq, col, unseq[list[0]], um.es + 1);
    assert col + Copies(unseq[list[0]], um.es + 1) == Unmapped(unseq, um.out + Copies(list[0], um.es + 1));
  }

  lemma TiedDigit(unseq: seq<byte>, um: Unmtfing, list: seq<nat>, col: seq<nat>, freq: seq<nat>, sym: nat)
    requires Tied(unseq, um, list, col, freq)
    ensures Tied(unseq, Digit(um, sym), list, col, freq)
  {
  }

  lemma TiedSizes(unseq: seq<byte>, um: Unmtfing, list: seq<nat>, col: seq<nat>, freq: seq<nat>)
    requires Tied(unseq, um, list, col, freq)
    ensures |list| == 256 && |unseq| <= 256
  {
  }

  lemma TiedAccess(unseq: seq<byte>, um: Unmtfing, list: seq<nat>, col: seq<nat>, freq: seq<nat>, n: nat)
    requires Tied(unseq, um, list, col, freq) && n < |unseq|
    ensures list[n] < |unseq| && |freq| == 256 && um.Valid() && um.list == list
    ensures var c := unseq[list[n]];
      Tied(unseq, Access(um, n), Front(list, n), col + [c], freq[c := freq[c] + 1])
  {
    assert list[n] < |unseq|;
    var c := unseq[list[n]];
    assert Copies(c, 1) == [c];
    TalliedMore(freq, col, c, 1);
    assert col + [c] == Unmapped(unseq, um.out + [list[n]]);
    var f := Front(list, n);
    forall i | 0 <= i < |unseq| ensures f[i] < |unseq| {
      assert f[i] == if i == 0 then list[n] else if i <= n then list[i - 1] else list[i];
    }
  }

  class Column {
    const unseq: seq<byte>   // seqToUnseq[..nInUse]
    const nblockMAX: nat
    const lines: Lines
    const unzftab: array<nat>
    const store: Store
    var nblock: nat
    var inRun: bool          // resuming at BZ_X_MTF_3 or 4, not at 1, 2, 5 or 6
    var es: int
    var N: nat
    ghost var um: Unmtfing

    ghost predicate Apart()
    {
      && unzftab != lines.mtfa && unzftab != lines.mtfbase
      && store.Cells() != lines.mtfa && store.Cells() != lines.mtfbase && store.Cells() != unzftab
      && store.Other() != unzftab
      && unzftab.Length == 256 && store.Holds(nblockMAX)
    }

    ghost predicate Valid()
      reads this, lines.mtfa, lines.mtfbase, unzftab, store.Cells()
    {
      && Apart() && lines.Valid() && nblock <= nblockMAX
      && Tied(unseq, um, lines.List(), store.Cells()[..nblock], unzftab[..])
      && inRun == (um.N > 0) && (inRun ==> es == um.es && N == um.N)
    }

    /** Frequencies zero, the list in order, nothing in the column. */
    constructor (unseq: seq<byte>, nblockMAX: nat, store: Store)
      requires unseq != [] && |unseq| <= 256 && store.Holds(nblockMAX)
      ensures Valid() && um == Start(256) && this.unseq == unseq && this.nblockMAX == nblockMAX && this.store == store
      ensures fresh(lines) && fresh(lines.mtfa) && fresh(lines.mtfbase) && fresh(unzftab)
    {
      this.unseq, this.nblockMAX, this.store := unseq, nblockMAX, store;
      unzftab := new nat[256](i => 0);
      lines := new Lines();
      nblock, inRun, es, N, um := 0, false, 0, 0, Start(256);
      new;
      assert store.Cells()[..0] == Unmapped(unseq, []);
    }

    /** Writes `n` copies of `uc`, unless the block is full. */
    method Fill(uc: nat, n: int) returns (ok: bool)
      requires n >= 0 && nblock <= nblockMAX <= store.Cells().Length
      modifies this`nblock, store.Cells()
      ensures ok == (old(nblock) + n <= nblockMAX)
      ensures ok ==>
        nblock == old(nblock) + n && store.Cells()[..nblock] == old(store.Cells()[..nblock]) + Copies(uc, n)
    {
      var k := n;
      ghost var col := store.Cells()[..nblock];
      assert col + Copies(uc, 0) == col;
      while k > 0
        invariant 0 <= k <= n && nblock == old(nblock) + n - k <= nblockMAX
        invariant store.Cells()[..nblock] == col + Copies(uc, n - k)
      {
        if nblock >= nblockMAX { return false; }
        store.Cells()[nblock] := uc;
        nblock := nblock + 1;
        k := k - 1;
        assert Copies(uc, n - k) == Copies(uc, n - k - 1) + [uc];
      }
      ok := true;
    }

    /** After the last digit of a zero run. */
    method FlushRun() returns (ok: bool)
      requires Valid() && inRun
      modifies this, unzftab, store.Cells()
      ensures ok == (|EndRun(old(um)).out| <= nblockMAX)
      ensures ok ==> Valid() && um == EndRun(old(um))
    {
      ghost var col, freq := store.Cells()[..nblock], unzftab[..];
      TiedRun(unseq, um, lines.List(), col, freq);
      es := es + 1;
      var first := lines.First();
      var uc := unseq[first];
      unzftab[uc] := unzftab[uc] + es;
      assert unzftab[..] == freq[uc := freq[uc] + es];
      um, inRun := EndRun(um), false;
      ok := Fill(uc, es);
    }

    /** RUNA or RUNB. */
    method TakeDigit(sym: nat)
      requires Valid() && sym <= RUNB
      modifies this
      ensures Valid() && um == Digit(old(um), sym)
    {
      if !inRun {
        es, N, inRun := -1, 1, true;
      }
      TiedDigit(unseq, um, lines.List(), store.Cells()[..nblock], unzftab[..], sym);
      es := if sym == RUNA then es + N else es + N + N;
      N := N + N;
      um := Digit(um, sym);
    }

    method Record(uc: nat)
      requires Apart() && nblock < nblockMAX && uc < 256
      modifies this`nblock, unzftab, store.Cells()
      ensures nblock == old(nblock) + 1 && store.Cells()[..nblock] == old(store.Cells()[..nblock]) + [uc]
      ensures unzftab[..] == old(unzftab[..])[uc := old(unzftab[uc]) + 1]
    {
      unzftab[uc] := unzftab[uc] + 1;
      store.Cells()[nblock] := uc;
      nblock := nblock + 1;
    }

    /** Any other symbol but the end of the block, while there is room. */
    method PutPosition(sym: nat)
      requires Valid() && !inRun && RUNB < sym <= |unseq| && nblock < nblockMAX
      modifies this, unzftab, store.Cells(), lines.mtfa, lines.mtfbase
      ensures Valid() && um == Access(old(um), sym - 1)
    {
      hide Tied, Front;
      ghost var col, freq, list := store.Cells()[..nblock], unzftab[..], lines.List();
      TiedSizes(unseq, um, list, col, freq);
      TiedAccess(unseq, um, list, col, freq, sym - 1);
      um := Access(um, sym - 1);
      var first := lines.Access(sym - 1);
      Record(unseq[first]);
    }

    method TakePosition(sym: nat) returns (ok: bool)
      requires Valid() && !inRun && RUNB < sym <= |unseq|
      modifies this, unzftab, store.Cells(), lines.mtfa, lines.mtfbase
      ensures ok == (|Access(old(um), sym - 1).out| <= nblockMAX)
      ensures ok ==> Valid() && um == Access(old(um), sym - 1)
    {
      ok := nblock < nblockMAX;
      if ok { PutPosition(sym); }
    }

    /** A symbol that does not end the block; false when the block would get too long. */
    method Take(sym: nat) returns (ok: bool)
      requires Valid() && sym <= |unseq|
      modifies this, unzftab, store.Cells(), lines.mtfa, lines.mtfbase
      ensures ok == (|Mtf.Decode(old(um), sym).out| <= nblockMAX)
      ensures ok ==> Valid() && um == Mtf.Decode(old(um), sym)
    {
      if sym <= RUNB {
        TakeDigit(sym);
        return true;
      }
      ok := true;
      if inRun { ok := FlushRun(); }
      if ok { ok := TakePosition(sym); }
    }
  }
}
