/** `GET_MTF_VAL`: the selected decoding tables and the code being read. */
module SymbolTables {
  import opened Bits
  import opened InverseBwt
  import opened HuffmanCodes
  import opened Decoder

  /** The shortest and the longest of the lengths. */
  method Extent(len: seq<nat>) returns (minLen: nat, maxLen: nat)
    requires Lengths(len, 1, LONGEST)
    ensures minLen == MinOf(len) && maxLen == MaxOf(len)
  {
    minLen, maxLen := 32, 0;
    for i := 0 to |len|
      invariant forall j :: 0 <= j < i ==> minLen <= len[j] <= maxLen
      invariant i > 0 ==> minLen in len && maxLen in len
      invariant i == 0 ==> minLen == 32 && maxLen == 0
    {
      if len[i] > maxLen { maxLen := len[i]; }
      if len[i] < minLen { minLen := len[i]; }
    }
  }

  /** `limit[t]`, `base[t]`, `perm[t]` and `minLens[t]` of one table. */
  class Table {
    const limit: array<int>
    const base: array<int>
    const perm: array<nat>
    const minLen: nat
    ghost const lens: seq<nat>

    ghost predicate Valid()
      reads limit, base, perm
    {
      && minLen == MinLen() && Bounds(lens, minLen, MaxLen())
      && Tables(lens, minLen, MaxLen(), limit[..], base[..], perm[..])
    }

    ghost function MinLen(): nat {
      if lens == [] then 0 else MinOf(lens)
    }

    ghost function MaxLen(): nat {
      if lens == [] then 0 else MaxOf(lens)
    }

    /** `BZ2_hbCreateDecodeTables` over arrays that hold anything before. */
    constructor (len: seq<nat>)
      requires Lengths(len, 1, LONGEST) && |len| <= 258
      ensures Valid() && lens == len && fresh(limit) && fresh(base) && fresh(perm)
    {
      var lo, hi := Extent(len);
      limit, base, perm := new int[MAX_CODE_LEN], new int[MAX_CODE_LEN], new nat[258];
      minLen, lens := lo, len;
      new;
      var length := new nat[|len|](i requires 0 <= i < |len| => len[i]);
      assert length[..] == len;
      CreateDecodeTables(limit, base, perm, length, lo, hi, |len|);
    }

    /** A probe of the arrays with `zn` bits read. */
    method Probe(zn: nat, zvec: nat) returns (p: HuffmanCodes.Probe)
      requires Valid() && Reached(lens, minLen, MaxLen(), zn, zvec) && (MaxLen() < zn ==> zvec > 0) && zn <= LONGEST + 1
      ensures p == Check(lens, minLen, MaxLen(), zn, zvec)
    {
      p := Probing(limit, base, perm, zn, zvec, lens, minLen, MaxLen());
    }
  }

  /** Which table is in use and how much of a code was read. */
  class SymbolReader {
    const tables: seq<Table>
    const selector: seq<nat>
    ghost const cd: Coding
    ghost const fixed: set<object>
    var groupNo: int
    var groupPos: nat
    var gSel: nat
    var zn: nat
    var zvec: nat
    var inCode: bool       // resuming at the second label of GET_MTF_VAL

    /** The tables are those of the lengths, in arrays that no one writes any more. */
    ghost predicate Built()
      reads fixed
    {
      && |tables| == |cd.lens| && selector == cd.selectors
      && (forall i {:trigger selector[i]} :: 0 <= i < |selector| ==> selector[i] < |tables|)
      && (forall t {:trigger tables[t]} :: 0 <= t < |tables| ==>
            {tables[t].limit as object, tables[t].base as object, tables[t].perm as object} <= fixed
            && tables[t].Valid() && tables[t].lens == cd.lens[t])
    }

    /** Between symbols: `k` of them were read. */
    ghost predicate Between(k: nat)
      reads this
    {
      && groupNo == (k + GROUP_SIZE - 1) / GROUP_SIZE - 1 && groupPos == (GROUP_SIZE - k % GROUP_SIZE) % GROUP_SIZE
      && (k % GROUP_SIZE != 0 ==> groupNo < |selector| && gSel == selector[groupNo])
    }

    /** Reading symbol `k`. */
    ghost predicate At(k: nat)
      reads this
    {
      && groupNo == k / GROUP_SIZE && groupPos == GROUP_SIZE - 1 - k % GROUP_SIZE
      && groupNo < |selector| && gSel == selector[groupNo]
    }

    /** The last probe asked for more bits. */
    ghost predicate Inside(lens: seq<nat>)
      reads this
    {
      lens != [] && MinOf(lens) <= zn <= LONGEST && zvec > Limit(lens, MinOf(lens), MaxOf(lens), zn)
    }

    /** Before the first symbol. */
    constructor (tables: seq<Table>, selector: seq<nat>, ghost cd: Coding, ghost fixed: set<object>)
      requires |tables| == |cd.lens| && selector == cd.selectors && selector != []
      requires forall i {:trigger selector[i]} :: 0 <= i < |selector| ==> selector[i] < |tables|
      requires forall t {:trigger tables[t]} :: 0 <= t < |tables| ==>
        {tables[t].limit as object, tables[t].base as object, tables[t].perm as object} <= fixed
        && tables[t].Valid() && tables[t].lens == cd.lens[t]
      ensures this.cd == cd && this.fixed == fixed && Built() && At(0) && !inCode
    {
      this.tables, this.selector, this.cd, this.fixed := tables, selector, cd, fixed;
      groupNo, groupPos, gSel, zn, zvec, inCode := -1, 0, 0, 0, 0, false;
      new;
      var ok := Select(0);
    }

    /** The head of `GET_MTF_VAL`. */
    method Select(ghost k: nat) returns (ok: bool)
      requires Between(k)
      modifies this`groupNo, this`groupPos, this`gSel
      ensures ok == !(k % GROUP_SIZE == 0 && k / GROUP_SIZE >= |selector|)
      ensures ok ==> At(k)
    {
      if groupPos == 0 {
        groupNo := groupNo + 1;
        if groupNo >= |selector| { return false; }
        groupPos := GROUP_SIZE;
        gSel := selector[groupNo];
      }
      groupPos := groupPos - 1;
      ok := true;
    }

    /** The table that symbol `k` is coded with. */
    ghost function Lens(k: nat): seq<nat> {
      TableOf(cd, k)
    }

    lemma Selected(k: nat)
      requires Built() && At(k)
      ensures gSel < |tables| && tables[gSel].Valid() && tables[gSel].lens == Lens(k) != []
      ensures tables[gSel].minLen == MinOf(Lens(k)) == MinLength(cd, k) && tables[gSel].MaxLen() == MaxOf(Lens(k))
    {
      assert selector[groupNo] < |tables|;
    }

    /** How many bits to ask for. */
    method Width(ghost k: nat) returns (n: nat)
      requires Built() && At(k)
      ensures n == if inCode then 1 else MinLength(cd, k)
    {
      Selected(k);
      n := if inCode then 1 else tables[gSel].minLen;
    }

    /** Takes the bits in and probes. */
    method Read(v: nat, ghost k: nat) returns (p: Probe)
      requires Built() && At(k) && (inCode ==> Inside(Lens(k)))
      modifies this`zn, this`zvec, this`inCode
      ensures zn == (if old(inCode) then old(zn) + 1 else MinLength(cd, k))
        && zvec == if old(inCode) then 2 * old(zvec) + v else v
      ensures Lens(k) != [] && p == Check(Lens(k), MinOf(Lens(k)), MaxOf(Lens(k)), zn, zvec)
      ensures inCode == (p == More) && (inCode ==> Inside(Lens(k))) && (p.Found? ==> p.sym < |Lens(k)|)
    {
      Selected(k);
      ghost var lens := Lens(k);
      if inCode {
        PastEnd(lens, MinOf(lens), MaxOf(lens), zn, zvec, v);
        zn, zvec := zn + 1, 2 * zvec + v;
      } else {
        zn, zvec := tables[gSel].minLen, v;
      }
      p := tables[gSel].Probe(zn, zvec);
      FoundBelow(lens, MinOf(lens), MaxOf(lens), zn, zvec);
      inCode := p.More?;
    }
  }
}
