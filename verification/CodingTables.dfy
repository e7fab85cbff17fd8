/** `sendMTFValues_compute`: choosing coding tables, and for every fifty symbols the cheapest of them. */
module CodingTables {
  import opened Bits
  import opened Counting
  import opened Mtf
  import opened HuffmanHeap
  import opened HuffmanForest
  import opened HuffmanOptimal
  import opened HuffmanLengths
  import opened HuffmanCodes
  import opened Decoder
  import opened Format

  const N_ITERS := 4
  const LESSER_ICOST := 0
  const GREATER_ICOST := 15
  const MAX_MTF := 900001

  /** How many tables a block of `nMTF` symbols gets. */
  function Groups(nMTF: nat): (g: nat)
    ensures 2 <= g <= 6
  {
    if nMTF < 200 then 2 else if nMTF < 600 then 3 else if nMTF < 1200 then 4 else if nMTF < 2400 then 5 else 6
  }

  function RowSum(row: seq<nat>, n: nat): nat
    requires n <= |row|
  {
    if n == 0 then 0 else RowSum(row, n - 1) + row[n - 1]
  }

  lemma {:induction false} RowSumMono(row: seq<nat>, a: nat, b: nat)
    requires a <= b <= |row|
    ensures RowSum(row, a) <= RowSum(row, b)
  {
    if a < b { RowSumMono(row, a, b - 1); }
  }

  lemma {:induction false} RowSumUpdate(row: seq<nat>, i: nat, n: nat)
    requires i < |row| && n <= |row|
    ensures RowSum(row[i := row[i] + 1], n) == RowSum(row, n) + (if i < n then 1 else 0)
  {
    if n > 0 { RowSumUpdate(row, i, n - 1); }
  }

  /** Raising zero counts to one adds at most one each. */
  lemma {:induction false} RaisedSum(row: seq<nat>, n: nat)
    requires n <= |row|
    ensures FreqSum(row, n) <= RowSum(row, n) + n
  {
    if n > 0 { RaisedSum(row, n - 1); }
  }

  /** What it costs to code the symbols `lo..hi` with a table. */
  function Cost(lens: seq<nat>, syms: seq<nat>, lo: nat, hi: nat): nat
    requires lo <= hi <= |syms| && forall i :: 0 <= i < |syms| ==> syms[i] < |lens|
  {
    if hi == lo then 0 else Cost(lens, syms, lo, hi - 1) + lens[syms[hi - 1]]
  }

  lemma {:induction false} CostBound(lens: seq<nat>, syms: seq<nat>, lo: nat, hi: nat)
    requires lo <= hi <= |syms| && (forall i :: 0 <= i < |syms| ==> syms[i] < |lens|)
    requires forall v :: 0 <= v < |lens| ==> lens[v] <= LONGEST
    ensures Cost(lens, syms, lo, hi) <= LONGEST * (hi - lo)
  {
    if lo < hi { CostBound(lens, syms, lo, hi - 1); }
  }

  /** A table for every group, of small entries. */
  ghost predicate CostTables(lens: seq<seq<nat>>, nGroups: nat, alphaSize: nat) {
    && |lens| == nGroups
    && forall t {:trigger lens[t]} :: 0 <= t < nGroups ==> |lens[t]| == alphaSize && forall v :: 0 <= v < alphaSize ==>
      lens[t][v] <= LONGEST
  }

  ghost predicate Costs(cost: seq<nat>, lens: seq<seq<nat>>, nGroups: nat, alphaSize: nat, syms: seq<nat>, lo: nat,
        hi: nat)
    requires CostTables(lens, nGroups, alphaSize) && lo <= hi <= |syms| && Indices(syms, alphaSize)
  {
    |cost| == nGroups && forall t {:trigger cost[t]} :: 0 <= t < nGroups ==> cost[t] == Cost(lens[t], syms, lo, hi)
  }

  /** The slow version: every table in turn for every symbol. */
  method SlowCosts(mtfv: array<nat>, lens: seq<seq<nat>>, nGroups: nat, alphaSize: nat, gs: nat, ge: nat,
        ghost syms: seq<nat>)
    returns (cost: array<nat>)
    requires CostTables(lens, nGroups, alphaSize) && Indices(syms, alphaSize)
    requires gs <= ge + 1 <= |syms| <= mtfv.Length && mtfv[..|syms|] == syms
    ensures fresh(cost) && Costs(cost[..], lens, nGroups, alphaSize, syms, gs, ge + 1)
  {
    cost := new nat[nGroups](t => 0);
    for i := gs to ge + 1
      invariant Costs(cost[..], lens, nGroups, alphaSize, syms, gs, i)
    {
      var icv := mtfv[i];
      assert icv == syms[i];
      for t := 0 to nGroups
        invariant forall x {:trigger cost[x]} :: 0 <= x < nGroups ==>
          cost[x] == Cost(lens[x], syms, gs, if x < t then i + 1 else i)
      {
        cost[t] := cost[t] + lens[t][icv];
      }
    }
  }

  /** Two costs in one word: no carry from the lower to the upper. */
  function Packed(hi: nat, lo: nat): nat {
    hi * 0x1_0000 + lo
  }

  /** The packed costs of two tables. */
  function PairCost(one: seq<nat>, two: seq<nat>, syms: seq<nat>, lo: nat, hi: nat): nat
    requires lo <= hi <= |syms| && forall i :: 0 <= i < |syms| ==> syms[i] < |one| && syms[i] < |two|
  {
    Packed(Cost(two, syms, lo, hi), Cost(one, syms, lo, hi))
  }

  lemma PairNext(one: seq<nat>, two: seq<nat>, syms: seq<nat>, lo: nat, hi: nat)
    requires lo <= hi < |syms| && forall i :: 0 <= i < |syms| ==> syms[i] < |one| && syms[i] < |two|
    ensures PairCost(one, two, syms, lo, hi + 1)
      == PairCost(one, two, syms, lo, hi) + Packed(two[syms[hi]], one[syms[hi]])
  {
  }

  lemma PairApart(one: seq<nat>, two: seq<nat>, syms: seq<nat>, lo: nat, hi: nat)
    requires lo <= hi <= |syms| && hi - lo <= 50 && |one| == |two| && forall i :: 0 <= i < |syms| ==> syms[i] < |one|
    requires forall v :: 0 <= v < |one| ==> one[v] <= LONGEST && two[v] <= LONGEST
    ensures PairCost(one, two, syms, lo, hi) % 0x1_0000 == Cost(one, syms, lo, hi)
    ensures PairCost(one, two, syms, lo, hi) / 0x1_0000 == Cost(two, syms, lo, hi)
    ensures PairCost(one, two, syms, lo, hi) < WORD
  {
    CostBound(one, syms, lo, hi);
    CostBound(two, syms, lo, hi);
  }

  /** The fast version for six tables and full groups: costs in pairs, packed in 32-bit words. */
  method FastCosts(mtfv: array<nat>, lens: seq<seq<nat>>, alphaSize: nat, gs: nat, ghost syms: seq<nat>)
    returns (cost: array<nat>)
    requires CostTables(lens, 6, alphaSize) && Indices(syms, alphaSize)
    requires gs + 50 <= |syms| <= mtfv.Length && mtfv[..|syms|] == syms
    ensures fresh(cost) && Costs(cost[..], lens, 6, alphaSize, syms, gs, gs + 50)
  {
    var cost01, cost23, cost45 := 0, 0, 0;
    var ge := gs;
    while ge < gs + 50
      invariant gs <= ge <= gs + 50
      invariant cost01 == PairCost(lens[0], lens[1], syms, gs, ge)
      invariant cost23 == PairCost(lens[2], lens[3], syms, gs, ge)
      invariant cost45 == PairCost(lens[4], lens[5], syms, gs, ge)
    {
      var icv := mtfv[ge];
      assert icv == syms[ge];
      PairNext(lens[0], lens[1], syms, gs, ge);
      PairNext(lens[2], lens[3], syms, gs, ge);
      PairNext(lens[4], lens[5], syms, gs, ge);
      cost01 := cost01 + Packed(lens[1][icv], lens[0][icv]);
      cost23 := cost23 + Packed(lens[3][icv], lens[2][icv]);
      cost45 := cost45 + Packed(lens[5][icv], lens[4][icv]);
      ge := ge + 1;
    }
    PairApart(lens[0], lens[1], syms, gs, ge);
    PairApart(lens[2], lens[3], syms, gs, ge);
    PairApart(lens[4], lens[5], syms, gs, ge);
    cost := new nat[6](t => 0);
    cost[0], cost[1] := cost01 % 0x1_0000, cost01 / 0x1_0000;
    cost[2], cost[3] := cost23 % 0x1_0000, cost23 / 0x1_0000;
    cost[4], cost[5] := cost45 % 0x1_0000, cost45 / 0x1_0000;
  }

  /** `bt` is the first of the cheapest tables for the symbols `lo..hi`. */
  ghost predicate Cheapest(bt: nat, lens: seq<seq<nat>>, nGroups: nat, alphaSize: nat, syms: seq<nat>, lo: nat, hi: nat)
    requires CostTables(lens, nGroups, alphaSize) && lo <= hi <= |syms| && Indices(syms, alphaSize)
  {
    && bt < nGroups
    && (forall t :: 0 <= t < nGroups ==> Cost(lens[bt], syms, lo, hi) <= Cost(lens[t], syms, lo, hi))
    && (forall t :: 0 <= t < bt ==> Cost(lens[bt], syms, lo, hi) < Cost(lens[t], syms, lo, hi))
  }

  /** The search for the best table of a group. */
  method PickTable(cost: array<nat>, nGroups: nat) returns (bt: nat)
    requires cost.Length == nGroups > 0 && forall t :: 0 <= t < nGroups ==> cost[t] < 999999999
    ensures bt < nGroups && forall t :: 0 <= t < nGroups ==> cost[bt] <= cost[t]
    ensures forall t :: 0 <= t < bt ==> cost[bt] < cost[t]
  {
    var bc := 999999999;
    bt := 0;
    for t := 0 to nGroups
      invariant bt < nGroups && (t > 0 ==> bt < t && bc == cost[bt])
      invariant t == 0 ==> bc == 999999999 && bt == 0
      invariant forall x :: 0 <= x < t ==> bc <= cost[x]
      invariant forall x :: 0 <= x < bt ==> bc < cost[x]
    {
      if cost[t] < bc { bc, bt := cost[t], t; }
    }
  }

  /** The cheapest table for one group, with the fast version where it applies. */
  method BestTable(mtfv: array<nat>, lens: seq<seq<nat>>, nGroups: nat, alphaSize: nat, gs: nat, ge: nat,
        ghost syms: seq<nat>)
    returns (bt: nat)
    requires CostTables(lens, nGroups, alphaSize) && Indices(syms, alphaSize) && nGroups > 0
    requires gs <= ge < |syms| <= mtfv.Length && ge < gs + 50 && mtfv[..|syms|] == syms
    ensures Cheapest(bt, lens, nGroups, alphaSize, syms, gs, ge + 1)
  {
    var cost;
    if nGroups == 6 && 50 == ge - gs + 1 {
      cost := FastCosts(mtfv, lens, alphaSize, gs, syms);
    } else {
      cost := SlowCosts(mtfv, lens, nGroups, alphaSize, gs, ge, syms);
    }
    ghost var c := cost[..];
    forall t | 0 <= t < nGroups ensures c[t] == Cost(lens[t], syms, gs, ge + 1) <= 1000 {
      CostBound(lens[t], syms, gs, ge + 1);
    }
    bt := PickTable(cost, nGroups);
    assert c[bt] == Cost(lens[bt], syms, gs, ge + 1);
    forall t | 0 <= t < nGroups
      ensures Cost(lens[bt], syms, gs, ge + 1) <= Cost(lens[t], syms, gs, ge + 1)
      ensures t < bt ==> Cost(lens[bt], syms, gs, ge + 1) < Cost(lens[t], syms, gs, ge + 1)
    {
      assert c[t] == Cost(lens[t], syms, gs, ge + 1);
    }
  }

  /** The first `n` selectors are each the cheapest for their fifty symbols. */
  ghost predicate Selected(sels: seq<nat>, lens: seq<seq<nat>>, nGroups: nat, alphaSize: nat, syms: seq<nat>, gs: nat)
    requires CostTables(lens, nGroups, alphaSize) && Indices(syms, alphaSize)
  {
    && gs <= |syms| && (gs == 50 * |sels| || (gs == |syms| && 50 * |sels| - 50 < gs < 50 * |sels|))
    && forall i {:trigger sels[i]} :: 0 <= i < |sels| ==>
         50 * i < |syms| && Cheapest(sels[i], lens, nGroups, alphaSize, syms, 50 * i, if 50 * i + 50 < |syms|
           then 50 * i + 50 else |syms|)
  }

  /** The frequency rows of the tables, which together count at most `n` symbols. */
  ghost predicate Rows(rfreq: seq<seq<nat>>, nGroups: nat, alphaSize: nat, n: nat) {
    |rfreq| == nGroups && forall t {:trigger rfreq[t]} :: 0 <= t < nGroups ==>
      |rfreq[t]| == alphaSize && RowSum(rfreq[t], alphaSize) <= n
  }

  /** How many of the first `n` symbols are `v` and belong to a group that selects table `t`. */
  function Uses(syms: seq<nat>, sels: seq<nat>, t: nat, v: nat, n: nat): nat
    requires n <= |syms| && n <= GROUP_SIZE * |sels|
  {
    if n == 0 then 0
    else Uses(syms, sels, t, v, n - 1) + if syms[n - 1] == v && sels[(n - 1) / GROUP_SIZE] == t then 1 else 0
  }

  /** The rows count the first `n` symbols, each in the row of the table that its group selects. */
  ghost predicate Tallied(rfreq: seq<seq<nat>>, nGroups: nat, alphaSize: nat, syms: seq<nat>, sels: seq<nat>, n: nat) {
    && |rfreq| == nGroups && n <= |syms| && n <= GROUP_SIZE * |sels|
    && forall t {:trigger rfreq[t]} :: 0 <= t < nGroups ==>
         |rfreq[t]| == alphaSize
         && forall v {:trigger rfreq[t][v]} :: 0 <= v < alphaSize ==> rfreq[t][v] == Uses(syms, sels, t, v, n)
  }

  lemma TallyNext(rfreq: seq<seq<nat>>, nGroups: nat, alphaSize: nat, syms: seq<nat>, sels: seq<nat>, n: nat)
    requires Tallied(rfreq, nGroups, alphaSize, syms, sels, n) && n < |syms| && n < GROUP_SIZE * |sels|
    requires syms[n] < alphaSize && sels[n / GROUP_SIZE] < nGroups
    ensures var bt, v := sels[n / GROUP_SIZE], syms[n];
      Tallied(rfreq[bt := rfreq[bt][v := rfreq[bt][v] + 1]], nGroups, alphaSize, syms, sels, n + 1)
  {
    var bt, s := sels[n / GROUP_SIZE], syms[n];
    var now, m := rfreq[bt := rfreq[bt][s := rfreq[bt][s] + 1]], n + 1;
    forall t {:trigger now[t]} | 0 <= t < nGroups
      ensures |now[t]| == alphaSize
      ensures forall v {:trigger now[t][v]} :: 0 <= v < alphaSize ==> now[t][v] == Uses(syms, sels, t, v, m)
    {
      assert |rfreq[t]| == alphaSize;
      forall v {:trigger now[t][v]} | 0 <= v < alphaSize ensures now[t][v] == Uses(syms, sels, t, v, m) {
        assert rfreq[t][v] == Uses(syms, sels, t, v, n);
      }
    }
  }

  /** A further selector does not matter to the groups before it. */
  lemma {:induction false} UsesKept(syms: seq<nat>, sels: seq<nat>, bt: nat, t: nat, v: nat, n: nat)
    requires n <= |syms| && n <= GROUP_SIZE * |sels|
    ensures Uses(syms, sels + [bt], t, v, n) == Uses(syms, sels, t, v, n)
  {
    if n > 0 { UsesKept(syms, sels, bt, t, v, n - 1); }
  }

  lemma TallyKept(rfreq: seq<seq<nat>>, nGroups: nat, alphaSize: nat, syms: seq<nat>, sels: seq<nat>, bt: nat, n: nat)
    requires Tallied(rfreq, nGroups, alphaSize, syms, sels, n)
    ensures Tallied(rfreq, nGroups, alphaSize, syms, sels + [bt], n)
  {
    hide Uses;
    forall t {:trigger rfreq[t]} | 0 <= t < nGroups
      ensures |rfreq[t]| == alphaSize
      ensures forall v {:trigger rfreq[t][v]} :: 0 <= v < alphaSize ==> rfreq[t][v] == Uses(syms, sels + [bt], t, v, n)
    {
      forall v {:trigger rfreq[t][v]} | 0 <= v < alphaSize ensures rfreq[t][v] == Uses(syms, sels + [bt], t, v, n) {
        UsesKept(syms, sels, bt, t, v, n);
      }
    }
  }

  lemma RowsNext(rfreq: seq<seq<nat>>, nGroups: nat, alphaSize: nat, n: nat, bt: nat, v: nat)
    requires Rows(rfreq, nGroups, alphaSize, n) && bt < nGroups && v < alphaSize
    ensures Rows(rfreq[bt := rfreq[bt][v := rfreq[bt][v] + 1]], nGroups, alphaSize, n + 1)
  {
    RowSumUpdate(rfreq[bt], v, alphaSize);
  }

  /** Counts the symbols of a group in the row of its table. */
  method CountGroup(mtfv: array<nat>, rfreq0: seq<seq<nat>>, bt: nat, gs: nat, ge: nat, ghost nGroups: nat,
        ghost alphaSize: nat, ghost syms: seq<nat>, ghost sels: seq<nat>)
    returns (rfreq: seq<seq<nat>>)
    requires Rows(rfreq0, nGroups, alphaSize, gs) && Tallied(rfreq0, nGroups, alphaSize, syms, sels, gs)
    requires gs <= ge < |syms| <= mtfv.Length && mtfv[..|syms|] == syms && Indices(syms, alphaSize)
    requires gs == GROUP_SIZE * (|sels| - 1) && ge < gs + GROUP_SIZE && bt == sels[|sels| - 1] < nGroups
    ensures Rows(rfreq, nGroups, alphaSize, ge + 1) && Tallied(rfreq, nGroups, alphaSize, syms, sels, ge + 1)
  {
    hide Uses, RowSum;
    rfreq := rfreq0;
    for i := gs to ge + 1
      invariant Rows(rfreq, nGroups, alphaSize, i) && Tallied(rfreq, nGroups, alphaSize, syms, sels, i)
    {
      assert mtfv[i] == syms[i] < alphaSize && i / GROUP_SIZE == |sels| - 1;
      RowsNext(rfreq, nGroups, alphaSize, i, bt, mtfv[i]);
      TallyNext(rfreq, nGroups, alphaSize, syms, sels, i);
      rfreq := rfreq[bt := rfreq[bt][mtfv[i] := rfreq[bt][mtfv[i]] + 1]];
    }
  }

  lemma SelectedNext(sels: seq<nat>, lens: seq<seq<nat>>, nGroups: nat, alphaSize: nat, syms: seq<nat>, gs: nat,
        bt: nat)
    requires CostTables(lens, nGroups, alphaSize) && Indices(syms, alphaSize)
    requires Selected(sels, lens, nGroups, alphaSize, syms, gs) && gs < |syms|
    requires Cheapest(bt, lens, nGroups, alphaSize, syms, gs, if gs + 50 < |syms| then gs + 50 else |syms|)
    ensures Selected(sels + [bt], lens, nGroups, alphaSize, syms, if gs + 50 < |syms| then gs + 50 else |syms|)
  {
  }

  /** The main loop of one iteration: selectors and the symbol counts per table. */
  method SelectTables(mtfv: array<nat>, nMTF: nat, lens: seq<seq<nat>>, nGroups: nat, alphaSize: nat,
        ghost syms: seq<nat>)
    returns (sels: seq<nat>, rfreq: seq<seq<nat>>)
    requires CostTables(lens, nGroups, alphaSize) && Indices(syms, alphaSize) && nGroups > 0
    requires nMTF == |syms| <= mtfv.Length && mtfv[..nMTF] == syms
    ensures Selected(sels, lens, nGroups, alphaSize, syms, nMTF) && Rows(rfreq, nGroups, alphaSize, nMTF)
    ensures Tallied(rfreq, nGroups, alphaSize, syms, sels, nMTF)
  {
    sels := [];
    rfreq := seq(nGroups, t => seq(alphaSize, v => 0));
    RowsStart(nGroups, alphaSize, syms);
    var gs := 0;
    while true
      invariant Selected(sels, lens, nGroups, alphaSize, syms, gs) && Rows(rfreq, nGroups, alphaSize, gs)
      invariant Tallied(rfreq, nGroups, alphaSize, syms, sels, gs)
      decreases nMTF - gs
    {
      if gs >= nMTF { break; }
      var ge := gs + 50 - 1;
      if ge >= nMTF { ge := nMTF - 1; }
      var bt := BestTable(mtfv, lens, nGroups, alphaSize, gs, ge, syms);
      SelectedNext(sels, lens, nGroups, alphaSize, syms, gs, bt);
      TallyKept(rfreq, nGroups, alphaSize, syms, sels, bt, gs);
      sels := sels + [bt];
      rfreq := CountGroup(mtfv, rfreq, bt, gs, ge, nGroups, alphaSize, syms, sels);
      gs := ge + 1;
    }
  }

  lemma {:induction false} ZeroRow(n: nat, k: nat)
    requires k <= n
    ensures RowSum(seq(n, v => 0), k) == 0
  {
    if k > 0 { ZeroRow(n, k - 1); }
  }

  lemma RowsStart(nGroups: nat, alphaSize: nat, syms: seq<nat>)
    ensures Rows(seq(nGroups, t => seq(alphaSize, v => 0)), nGroups, alphaSize, 0)
    ensures Tallied(seq(nGroups, t => seq(alphaSize, v => 0)), nGroups, alphaSize, syms, [], 0)
  {
    ZeroRow(alphaSize, alphaSize);
  }

  /** The longest code the compressor makes. */
  const LONGEST_MADE := 17

  /** Both ways of summing up code space agree. */
  lemma {:induction false} KraftIsUsed(lens: seq<nat>, L: nat)
    requires forall i :: 0 <= i < |lens| ==> lens[i] <= L
    ensures Kraft(lens, L) == Used(lens, L)
  {
    if lens != [] { KraftIsUsed(lens[..|lens| - 1], L); }
  }

  lemma CompleteIsGood(lens: seq<nat>, alphaSize: nat)
    requires |lens| == alphaSize > 0 && CompleteCode(lens, LONGEST_MADE)
    ensures GoodTable(lens, alphaSize)
  {
    KraftIsUsed(lens, LONGEST_MADE);
    FitsBelow(lens, MaxOf(lens), LONGEST_MADE);
  }

  /** Complete codes for all tables. */
  ghost predicate Complete(lens: seq<seq<nat>>, nGroups: nat, alphaSize: nat) {
    && |lens| == nGroups
    && forall t {:trigger lens[t]} :: 0 <= t < nGroups ==> |lens[t]| == alphaSize && CompleteCode(lens[t], LONGEST_MADE)
  }

  /**
   * Table `t` is the best code for the symbols that use it: for how often each is used, scaled down as often as the
   * best code was too long.
   */
  ghost predicate BestForUse(lens: seq<seq<nat>>, tried: seq<seq<seq<nat>>>, rfreq: seq<seq<nat>>, n: nat) {
    && |lens| == |tried| == n <= |rfreq|
    && forall t {:trigger lens[t]} {:trigger tried[t]} :: 0 <= t < n ==>
         Optimal(lens[t], ScaledAll(rfreq[t], |tried[t]|)) && Tried(tried[t], rfreq[t], LONGEST_MADE)
  }

  /** Recomputes the tables from the counts of the symbols that chose them. */
  method Recompute(rfreq: seq<seq<nat>>, nGroups: nat, alphaSize: nat, ghost n: nat)
    returns (lens: seq<seq<nat>>, ghost tried: seq<seq<seq<nat>>>)
    requires Rows(rfreq, nGroups, alphaSize, n) && n <= MAX_MTF && 2 <= alphaSize <= MAX_ALPHA
    ensures Complete(lens, nGroups, alphaSize) && BestForUse(lens, tried, rfreq, nGroups)
  {
    hide Optimal, ScaledAll, Tried, CompleteCode, FreqSum, RowSum, Fib;
    lens, tried := [], [];
    for t := 0 to nGroups
      invariant Complete(lens, t, alphaSize) && BestForUse(lens, tried, rfreq, t)
    {
      var freq := new nat[alphaSize](v requires 0 <= v < alphaSize => rfreq[t][v]);
      assert freq[..] == rfreq[t] && freq[..alphaSize] == rfreq[t];
      RaisedSum(rfreq[t], alphaSize);
      var len;
      ghost var rounds;
      len, rounds := MakeCodeLengths(freq, alphaSize, LONGEST_MADE);
      lens, tried := lens + [len[..]], tried + [rounds];
    }
  }

  lemma CompleteCosts(lens: seq<seq<nat>>, nGroups: nat, alphaSize: nat)
    requires Complete(lens, nGroups, alphaSize)
    ensures CostTables(lens, nGroups, alphaSize)
  {
  }

  /** One row of the initial tables: cheap from `gs` up to `end`. */
  function InitialRow(alphaSize: nat, gs: nat, end: nat): (row: seq<nat>)
    ensures |row| == alphaSize && forall v :: 0 <= v < alphaSize ==>
      row[v] == if gs <= v < end then LESSER_ICOST else GREATER_ICOST
  {
    seq(alphaSize, v => if gs <= v < end then LESSER_ICOST else GREATER_ICOST)
  }

  /** Tables `lo..` are cheap on consecutive stretches of symbols: table `t` from `starts[t + 1]` up to `starts[t]`. */
  ghost predicate Stretches(lens: seq<seq<nat>>, starts: seq<nat>, nGroups: nat, alphaSize: nat, lo: nat) {
    && |lens| == nGroups && |starts| == nGroups + 1 && starts[nGroups] == 0
    && (forall i, j {:trigger starts[i], starts[j]} :: lo <= i <= j <= nGroups ==> starts[j] <= starts[i] <= alphaSize)
    && (forall t {:trigger lens[t]} :: lo <= t < nGroups ==> lens[t] == InitialRow(alphaSize, starts[t + 1], starts[t]))
  }

  /** The stretch from `gs` to `e` is the shortest to reach the frequency `want`, or goes up to the last symbol. */
  ghost predicate Share(freq: seq<nat>, gs: nat, alphaSize: nat, want: nat, e: int) {
    && gs <= alphaSize <= |freq| && gs - 1 <= e < alphaSize
    && (RowSum(freq, e + 1) - RowSum(freq, gs) >= want || e >= alphaSize - 1)
    && (e >= gs ==> RowSum(freq, e) - RowSum(freq, gs) < want)
  }

  /**
   * Where the stretch from `gs` on ends: once its share of the frequency is reached, every other one gives a symbol
   * back.
   */
  method Stretch(mtfFreq: array<nat>, gs: nat, alphaSize: nat, nGroups: nat, nPart: nat, remF: nat)
    returns (ge: int, aFreq: int, ghost end: int)
    requires gs <= alphaSize <= mtfFreq.Length && 0 < nPart <= nGroups
    requires remF == RowSum(mtfFreq[..], alphaSize) - RowSum(mtfFreq[..], gs)
    ensures gs - 1 <= ge < alphaSize && aFreq == RowSum(mtfFreq[..], ge + 1) - RowSum(mtfFreq[..], gs)
    ensures nPart == 1 ==> aFreq == remF
    ensures Share(mtfFreq[..], gs, alphaSize, remF / nPart, end)
    ensures ge == if end > gs && nPart != nGroups && nPart != 1 && (nGroups - nPart) % 2 == 1 then end - 1 else end
  {
    var tFreq := remF / nPart;
    ge, aFreq := gs - 1, 0;
    while aFreq < tFreq && ge < alphaSize - 1
      invariant gs - 1 <= ge <= alphaSize - 1 && aFreq == RowSum(mtfFreq[..], ge + 1) - RowSum(mtfFreq[..], gs)
      invariant ge >= gs ==> RowSum(mtfFreq[..], ge) - RowSum(mtfFreq[..], gs) < tFreq
      decreases alphaSize - ge
    {
      ge := ge + 1;
      aFreq := aFreq + mtfFreq[ge];
    }
    RowSumMono(mtfFreq[..], ge + 1, alphaSize);
    end := ge;
    if ge > gs && nPart != nGroups && nPart != 1 && (nGroups - nPart) % 2 == 1 {
      aFreq := aFreq - mtfFreq[ge];
      ge := ge - 1;
    }
  }

  lemma StretchesMore(lens: seq<seq<nat>>, starts: seq<nat>, nGroups: nat, alphaSize: nat, lo: nat, end: nat,
        row: seq<nat>)
    requires 0 < lo && lo <= nGroups && CostTables(lens, nGroups, alphaSize)
      && Stretches(lens, starts, nGroups, alphaSize, lo)
    requires starts[lo] <= end <= alphaSize && row == InitialRow(alphaSize, starts[lo], end)
    ensures CostTables(lens[lo - 1 := row], nGroups, alphaSize)
    ensures Stretches(lens[lo - 1 := row], starts[lo - 1 := end], nGroups, alphaSize, lo - 1)
  {
    var now, at := lens[lo - 1 := row], starts[lo - 1 := end];
    forall t {:trigger now[t]} | lo - 1 <= t < nGroups ensures now[t] == InitialRow(alphaSize, at[t + 1], at[t]) {
      if t >= lo { assert now[t] == lens[t]; }
    }
  }

  /**
   * Generates the initial tables: consecutive symbols, about the same total frequency for each table. Every symbol that
   * occurs falls to some table.
   */
  method InitialTables(mtfFreq: array<nat>, nMTF: nat, nGroups: nat, alphaSize: nat)
    returns (lens: seq<seq<nat>>, ghost starts: seq<nat>)
    requires 0 < nGroups && 0 < alphaSize <= mtfFreq.Length && RowSum(mtfFreq[..], alphaSize) == nMTF
    ensures CostTables(lens, nGroups, alphaSize) && Stretches(lens, starts, nGroups, alphaSize, 0)
    ensures starts[0] <= alphaSize && RowSum(mtfFreq[..], starts[0]) == nMTF
  {
    lens := seq(nGroups, t => InitialRow(alphaSize, 0, 0));
    starts := seq(nGroups + 1, t => 0);
    var nPart, remF, gs := nGroups, nMTF, 0;
    while nPart > 0
      invariant 0 <= nPart <= nGroups && 0 <= gs <= alphaSize
      invariant remF == nMTF - RowSum(mtfFreq[..], gs) && CostTables(lens, nGroups, alphaSize)
      invariant Stretches(lens, starts, nGroups, alphaSize, nPart) && starts[nPart] == gs && (nPart == 0 ==> remF == 0)
    {
      RowSumMono(mtfFreq[..], gs, alphaSize);
      var ge, aFreq;
      ghost var end;
      ge, aFreq, end := Stretch(mtfFreq, gs, alphaSize, nGroups, nPart, remF);
      RowSumMono(mtfFreq[..], ge + 1, alphaSize);
      StretchesMore(lens, starts, nGroups, alphaSize, nPart, ge + 1, InitialRow(alphaSize, gs, ge + 1));
      lens := lens[nPart - 1 := InitialRow(alphaSize, gs, ge + 1)];
      starts := starts[nPart - 1 := ge + 1];
      nPart := nPart - 1;
      gs := ge + 1;
      remF := remF - aFreq;
    }
  }

  /** The number of selectors is the number of groups of fifty. */
  lemma SelectorCount(sels: seq<nat>, lens: seq<seq<nat>>, nGroups: nat, alphaSize: nat, syms: seq<nat>)
    requires CostTables(lens, nGroups, alphaSize) && Indices(syms, alphaSize) && syms != []
    requires Selected(sels, lens, nGroups, alphaSize, syms, |syms|)
    ensures |sels| == (|syms| + 49) / 50 && forall i :: 0 <= i < |sels| ==> sels[i] < nGroups
  {
  }

  /**
   * A round: the tables that the groups chose from, their choices, how often the symbols of the groups that chose a
   * table occur, and the codes that were too long for these counts.
   */
  datatype Round = Round(lens: seq<seq<nat>>, sels: seq<nat>, rfreq: seq<seq<nat>>, tried: seq<seq<seq<nat>>>)

  /**
   * What the rounds make of the initial tables: in each, every group chooses the cheapest table, and every table is
   * made anew as the best code for the symbols of the groups that chose it.
   */
  ghost predicate Refined(rounds: seq<Round>, lens: seq<seq<nat>>, starts: seq<nat>, nGroups: nat, alphaSize: nat,
        syms: seq<nat>)
  {
    if rounds == [] then Stretches(lens, starts, nGroups, alphaSize, 0)
    else
      var r := rounds[|rounds| - 1];
      && CostTables(r.lens, nGroups, alphaSize) && Indices(syms, alphaSize)
      && Selected(r.sels, r.lens, nGroups, alphaSize, syms, |syms|)
      && Tallied(r.rfreq, nGroups, alphaSize, syms, r.sels, |syms|)
      && BestForUse(lens, r.tried, r.rfreq, nGroups)
      && Refined(rounds[..|rounds| - 1], r.lens, starts, nGroups, alphaSize, syms)
  }

  lemma RefinedMore(rounds: seq<Round>, r: Round, lens: seq<seq<nat>>, starts: seq<nat>, nGroups: nat, alphaSize: nat,
        syms: seq<nat>)
    requires Refined(rounds, r.lens, starts, nGroups, alphaSize, syms)
    requires CostTables(r.lens, nGroups, alphaSize) && Indices(syms, alphaSize)
    requires Selected(r.sels, r.lens, nGroups, alphaSize, syms, |syms|)
    requires Tallied(r.rfreq, nGroups, alphaSize, syms, r.sels, |syms|) && BestForUse(lens, r.tried, r.rfreq, nGroups)
    ensures Refined(rounds + [r], lens, starts, nGroups, alphaSize, syms)
  {
    hide CostTables, Selected, Tallied, BestForUse, Stretches;
    assert (rounds + [r])[..|rounds|] == rounds;
  }

  /**
   * `sendMTFValues_compute`: the tables and selectors written are good for decoding, and they are what four rounds
   * make of the initial tables.
   */
  method ComputeTables(mtfv: array<nat>, nMTF: nat, mtfFreq: array<nat>, alphaSize: nat, ghost syms: seq<nat>)
    returns (cd: Coding, ghost rounds: seq<Round>, ghost starts: seq<nat>)
    requires 2 <= alphaSize <= MAX_ALPHA && alphaSize <= mtfFreq.Length && RowSum(mtfFreq[..], alphaSize) == nMTF
    requires 0 < nMTF == |syms| <= mtfv.Length && nMTF <= MAX_MTF && mtfv[..nMTF] == syms && Indices(syms, alphaSize)
    ensures GoodCoding(cd, alphaSize, nMTF) && Complete(cd.lens, Groups(nMTF), alphaSize)
    ensures |cd.selectors| == (nMTF + 49) / 50 < MAX_SELECTORS
    ensures |rounds| == N_ITERS && cd.selectors == rounds[N_ITERS - 1].sels
    ensures Refined(rounds, cd.lens, starts, Groups(nMTF), alphaSize, syms)
  {
    hide CostTables, Complete, Selected, Tallied, BestForUse, Groups, RowSum, Rows, Stretches, Refined;
    var nGroups := Groups(nMTF);
    var lens;
    lens, starts := InitialTables(mtfFreq, nMTF, nGroups, alphaSize);
    var sels: seq<nat> := [];
    rounds := [];
    InitialRefined(lens, starts, nGroups, alphaSize, syms);
    for iter := 0 to N_ITERS
      invariant CostTables(lens, nGroups, alphaSize) && |rounds| == iter
      invariant Refined(rounds, lens, starts, nGroups, alphaSize, syms)
      invariant iter > 0 ==> Complete(lens, nGroups, alphaSize) && rounds[iter - 1].sels == sels
      invariant iter > 0 ==> Chosen(rounds[iter - 1], nGroups, alphaSize, syms)
    {
      var rfreq;
      ghost var last, tried := lens, [];
      sels, rfreq := SelectTables(mtfv, nMTF, lens, nGroups, alphaSize, syms);
      lens, tried := Recompute(rfreq, nGroups, alphaSize, nMTF);
      RefinedMore(rounds, Round(last, sels, rfreq, tried), lens, starts, nGroups, alphaSize, syms);
      rounds := rounds + [Round(last, sels, rfreq, tried)];
      CompleteCosts(lens, nGroups, alphaSize);
    }
    SelectorCount(sels, rounds[N_ITERS - 1].lens, nGroups, alphaSize, syms);
    CompletesGood(lens, nGroups, alphaSize);
    cd := Coding(lens, sels);
  }

  ghost predicate Chosen(r: Round, nGroups: nat, alphaSize: nat, syms: seq<nat>) {
    && CostTables(r.lens, nGroups, alphaSize) && Indices(syms, alphaSize)
    && Selected(r.sels, r.lens, nGroups, alphaSize, syms, |syms|)
  }

  lemma InitialRefined(lens: seq<seq<nat>>, starts: seq<nat>, nGroups: nat, alphaSize: nat, syms: seq<nat>)
    requires Stretches(lens, starts, nGroups, alphaSize, 0)
    ensures Refined([], lens, starts, nGroups, alphaSize, syms)
  {
  }

  lemma CompletesGood(lens: seq<seq<nat>>, nGroups: nat, alphaSize: nat)
    requires Complete(lens, nGroups, alphaSize) && alphaSize > 0
    ensures |lens| == nGroups && forall t :: 0 <= t < nGroups ==> GoodTable(lens[t], alphaSize)
  {
    forall t | 0 <= t < nGroups ensures GoodTable(lens[t], alphaSize) { CompleteIsGood(lens[t], alphaSize); }
  }
}
