/** memcached's hash table, which grows one bucket at a time while it is used. */
module Assoc {
  import opened Bits

  const NULL := -1

  /** The power of two that the table starts with. */
  const INITIAL_POWER := 16

  /**
   * Items are numbered; `next[it]` is the field h_next of item `it`. The buckets of both tables are numbered together:
   * those of the primary table first, then, during an expansion, those of the old one.
   */

  /** What the link field of the item at `i` must hold. */
  function After(chain: seq<nat>, i: nat): int
    requires i < |chain|
  {
    if i + 1 < |chain| then chain[i + 1] else NULL
  }

  /** The list from `head` over the link fields is `chain`. */
  ghost predicate Linked(next: seq<int>, head: int, chain: seq<nat>) {
    && head == (if chain == [] then NULL else chain[0])
    && (forall i {:trigger chain[i]} :: 0 <= i < |chain| ==> chain[i] < |next|)
    && forall i {:trigger After(chain, i)} :: 0 <= i < |chain| ==> next[chain[i]] == After(chain, i)
  }

  ghost predicate Bonds(next: seq<int>, heads: seq<int>, chains: seq<seq<nat>>) {
    |heads| == |chains| && forall b {:trigger chains[b]} :: 0 <= b < |chains| ==> Linked(next, heads[b], chains[b])
  }

  /** Where the table stands: its size as a power of two, and how far an expansion has come. */
  datatype Phase = Phase(power: nat, expanding: bool, bucket: nat) {
    function Buckets(): nat {
      Pow2(power) + if expanding && power > 0 then Pow2(power - 1) else 0
    }

    /** `assoc_find`'s choice of bucket for a hash value. */
    function Home(hv: nat): (b: nat)
      ensures b < Buckets()
    {
      if expanding && power > 0 && Low(hv, power - 1) >= bucket then Pow2(power) + Low(hv, power - 1)
        else Low(hv, power)
    }

    predicate Valid() {
      expanding ==> power > 0 && bucket < Pow2(power - 1)
    }
  }

  /** The chains hold exactly the items of `table`, each where a search for its key looks. */
  ghost predicate Homes<K>(keys: seq<K>, hash: K -> nat, ph: Phase, chains: seq<seq<nat>>, table: map<K, nat>) {
    && |chains| == ph.Buckets()
    && (forall b, i {:trigger chains[b][i]} :: 0 <= b < |chains| && 0 <= i < |chains[b]| ==>
      InTable(keys, table, chains[b][i]) && ph.Home(hash(keys[chains[b][i]])) == b)
    && (forall k {:trigger table[k]} :: k in table ==>
      table[k] < |keys| && keys[table[k]] == k && table[k] in chains[ph.Home(hash(k))])
    && (forall b {:trigger chains[b]} :: 0 <= b < |chains| ==> NoRepeats(chains[b]))
  }

  ghost predicate InTable<K>(keys: seq<K>, table: map<K, nat>, it: nat) {
    it < |keys| && keys[it] in table && table[keys[it]] == it
  }

  ghost predicate NoRepeats(s: seq<nat>) {
    forall i, j {:trigger s[i], s[j]} :: 0 <= i < j < |s| ==> s[i] != s[j]
  }

  // Putting an item at the front of a chain.

  lemma InsertBonds(next: seq<int>, heads: seq<int>, chains: seq<seq<nat>>, b: nat, it: nat)
    requires Bonds(next, heads, chains) && b < |chains| && it < |next|
    requires forall c {:trigger chains[c]} :: 0 <= c < |chains| ==> it !in chains[c]
    ensures Bonds(next[it := heads[b]], heads[b := it], chains[b := [it] + chains[b]])
  {
    var next', heads', chains' := next[it := heads[b]], heads[b := it], chains[b := [it] + chains[b]];
    forall c {:trigger chains'[c]} | 0 <= c < |chains'| ensures Linked(next', heads'[c], chains'[c]) {
      assert it !in chains[c];
      if c == b { PushLinked(next, heads[b], chains[b], it); }
      else { OtherLinked(next, heads[c], chains[c], it, heads[b]); }
    }
  }

  lemma PushLinked(next: seq<int>, head: int, chain: seq<nat>, it: nat)
    requires Linked(next, head, chain) && it < |next| && it !in chain
    ensures Linked(next[it := head], it, [it] + chain)
  {
    var s, n := [it] + chain, next[it := head];
    forall i {:trigger s[i]} | 0 <= i < |s| ensures s[i] < |n| {
      if i > 0 { assert s[i] == chain[i - 1]; }
    }
    forall i {:trigger After(s, i)} | 0 <= i < |s| ensures n[s[i]] == After(s, i) {
      if i > 0 { assert s[i] == chain[i - 1] && next[chain[i - 1]] == After(chain, i - 1); }
    }
  }

  /** A link field outside a chain does not matter to it. */
  lemma OtherLinked(next: seq<int>, head: int, chain: seq<nat>, it: nat, v: int)
    requires Linked(next, head, chain) && it < |next| && it !in chain
    ensures Linked(next[it := v], head, chain)
  {
    forall i {:trigger After(chain, i)} | 0 <= i < |chain| ensures next[it := v][chain[i]] == After(chain, i) {
      assert chain[i] != it;
    }
  }

  lemma InsertHomes<K>(keys: seq<K>, hash: K -> nat, ph: Phase, chains: seq<seq<nat>>, table: map<K, nat>, it: nat)
    requires Homes(keys, hash, ph, chains, table) && it < |keys| && keys[it] !in table
    ensures var b := ph.Home(hash(keys[it]));
      Homes(keys, hash, ph, chains[b := [it] + chains[b]], table[keys[it] := it])
    ensures forall c {:trigger chains[c]} :: 0 <= c < |chains| ==> it !in chains[c]
  {
    var b, t := ph.Home(hash(keys[it])), table[keys[it] := it];
    var chains' := chains[b := [it] + chains[b]];
    forall c {:trigger chains[c]} | 0 <= c < |chains| ensures it !in chains[c] {}
    forall k {:trigger t[k]} | k in t ensures t[k] < |keys| && keys[t[k]] == k && t[k] in chains'[ph.Home(hash(k))] {
      if k == keys[it] { assert chains'[b][0] == it; } else { assert table[k] in chains[ph.Home(hash(k))]; }
    }
    forall c, i {:trigger chains'[c][i]} | 0 <= c < |chains'| && 0 <= i < |chains'[c]|
      ensures InTable(keys, t, chains'[c][i]) && ph.Home(hash(keys[chains'[c][i]])) == c
    {
      if c == b {
        if i > 0 { assert chains'[c][i] == chains[c][i - 1]; }
      } else { assert chains'[c][i] == chains[c][i]; }
    }
    forall c {:trigger chains'[c]} | 0 <= c < |chains'| ensures NoRepeats(chains'[c]) {
      assert NoRepeats(chains[c]);
      assert it !in chains[c];
    }
  }

  // Taking an item out of a chain.

  function Without(chain: seq<nat>, i: nat): seq<nat>
    requires i < |chain|
  {
    chain[..i] + chain[i + 1..]
  }

  /** The first item is passed over by the head. */
  lemma RemoveFirst(next: seq<int>, head: int, chain: seq<nat>)
    requires Linked(next, head, chain) && NoRepeats(chain) && chain != []
    ensures Linked(next[chain[0] := NULL], next[chain[0]], Without(chain, 0))
  {
    var s, it := Without(chain, 0), chain[0];
    assert next[it] == After(chain, 0);
    forall j {:trigger s[j]} | 0 <= j < |s| ensures s[j] < |next| { assert s[j] == chain[j + 1]; }
    forall j {:trigger After(s, j)} | 0 <= j < |s| ensures next[it := NULL][s[j]] == After(s, j) {
      assert s[j] == chain[j + 1] && next[chain[j + 1]] == After(chain, j + 1);
    }
  }

  /** The item at `i` is passed over by the link field of the one before it. */
  lemma RemoveLinked(next: seq<int>, head: int, chain: seq<nat>, i: nat)
    requires Linked(next, head, chain) && NoRepeats(chain) && 0 < i < |chain|
    ensures chain[i] < |next| && chain[i - 1] < |next|
    ensures Linked(next[chain[i] := NULL][chain[i - 1] := next[chain[i]]], head, Without(chain, i))
  {
    var s, n := Without(chain, i), next[chain[i] := NULL][chain[i - 1] := next[chain[i]]];
    assert next[chain[i]] == After(chain, i);
    forall j {:trigger s[j]} | 0 <= j < |s| ensures s[j] < |next| { assert s[j] == chain[if j < i then j else j + 1]; }
    forall j {:trigger After(s, j)} | 0 <= j < |s| ensures n[s[j]] == After(s, j) {
      var x := if j < i then j else j + 1;
      assert s[j] == chain[x] && next[chain[x]] == After(chain, x);
    }
  }

  lemma RemoveHomes<K>(keys: seq<K>, hash: K -> nat, ph: Phase, chains: seq<seq<nat>>, table: map<K, nat>, b: nat,
        i: nat)
    requires Homes(keys, hash, ph, chains, table) && b < |chains| && i < |chains[b]|
    ensures InTable(keys, table, chains[b][i])
    ensures Homes(keys, hash, ph, chains[b := Without(chains[b], i)], table - {keys[chains[b][i]]})
    ensures forall c {:trigger chains[c]} :: 0 <= c < |chains| && c != b ==> forall x {:trigger chains[b][x]} ::
      0 <= x < |chains[b]| ==> chains[b][x] !in chains[c]
  {
    var it, s := chains[b][i], Without(chains[b], i);
    var t, chains' := table - {keys[it]}, chains[b := s];
    assert NoRepeats(chains[b]);
    forall c {:trigger chains[c]} | 0 <= c < |chains| && c != b
      ensures forall x {:trigger chains[b][x]} :: 0 <= x < |chains[b]| ==> chains[b][x] !in chains[c] {}
    forall c, x {:trigger chains'[c][x]} | 0 <= c < |chains'| && 0 <= x < |chains'[c]|
      ensures InTable(keys, t, chains'[c][x]) && ph.Home(hash(keys[chains'[c][x]])) == c
    {
      if c == b { assert s[x] == chains[b][if x < i then x else x + 1]; } else { assert chains'[c][x] == chains[c][x]; }
    }
    forall k {:trigger t[k]} | k in t ensures t[k] < |keys| && keys[t[k]] == k && t[k] in chains'[ph.Home(hash(k))] {
      var h := ph.Home(hash(k));
      assert table[k] in chains[h];
      if h == b { StillIn(chains[b], i, table[k]); }
    }
    forall c {:trigger chains'[c]} | 0 <= c < |chains'| ensures NoRepeats(chains'[c]) {
      assert NoRepeats(chains[c]);
    }
  }

  lemma StillIn(s: seq<nat>, i: nat, v: nat)
    requires i < |s| && v in s && v != s[i]
    ensures v in Without(s, i)
  {
    var j :| 0 <= j < |s| && s[j] == v;
    assert Without(s, i)[if j < i then j else j - 1] == v;
  }

  // Growing.

  function Nulls(n: nat): (s: seq<int>)
    ensures |s| == n && forall i :: 0 <= i < n ==> s[i] == NULL
  {
    seq(n, i => NULL)
  }

  function Empties(n: nat): (s: seq<seq<nat>>)
    ensures |s| == n && forall i :: 0 <= i < n ==> s[i] == []
  {
    seq(n, i => [])
  }

  /** The primary table becomes the old one behind an empty table of twice the size. */
  lemma ExpandHomes<K>(keys: seq<K>, hash: K -> nat, ph: Phase, chains: seq<seq<nat>>, table: map<K, nat>)
    requires Homes(keys, hash, ph, chains, table) && !ph.expanding
    ensures Homes(keys, hash, Phase(ph.power + 1, true, 0), Empties(Pow2(ph.power + 1)) + chains, table)
  {
    var q, n := Phase(ph.power + 1, true, 0), Pow2(ph.power + 1);
    var chains' := Empties(n) + chains;
    forall b, i {:trigger chains'[b][i]} | 0 <= b < |chains'| && 0 <= i < |chains'[b]|
      ensures InTable(keys, table, chains'[b][i]) && q.Home(hash(keys[chains'[b][i]])) == b
    {
      assert b >= n && chains'[b][i] == chains[b - n][i];
    }
    forall k {:trigger table[k]} | k in table
      ensures table[k] < |keys| && keys[table[k]] == k && table[k] in chains'[q.Home(hash(k))] {
      assert chains'[q.Home(hash(k))] == chains[ph.Home(hash(k))];
    }
    forall b {:trigger chains'[b]} | 0 <= b < |chains'| ensures NoRepeats(chains'[b]) {
      if b >= n { assert chains'[b] == chains[b - n]; }
    }
  }

  lemma ExpandBonds(next: seq<int>, heads: seq<int>, chains: seq<seq<nat>>, n: nat)
    requires Bonds(next, heads, chains)
    ensures Bonds(next, Nulls(n) + heads, Empties(n) + chains)
  {
    var heads', chains' := Nulls(n) + heads, Empties(n) + chains;
    forall b {:trigger chains'[b]} | 0 <= b < |chains'| ensures Linked(next, heads'[b], chains'[b]) {
      if b >= n { assert chains'[b] == chains[b - n] && heads'[b] == heads[b - n]; }
    }
  }

  /** The table without the items of `rest`. */
  function Apart<K>(table: map<K, nat>, rest: seq<nat>): map<K, nat> {
    map k | k in table && table[k] !in rest :: table[k]
  }

  lemma NoneRepeated()
    ensures NoRepeats([])
  {
  }

  /** The old bucket next in line is taken out: what remains is placed as if the bucket were already moved. */
  lemma MoveStarts<K>(keys: seq<K>, hash: K -> nat, ph: Phase, chains: seq<seq<nat>>, table: map<K, nat>)
    requires Homes(keys, hash, ph, chains, table) && ph.expanding && ph.Valid()
    ensures var src := Pow2(ph.power) + ph.bucket;
      src < |chains| && Homes(keys, hash, ph.(bucket := ph.bucket + 1), chains[src := []], Apart(table, chains[src]))
  {
    hide NoRepeats, Pow2;
    var src, q := Pow2(ph.power) + ph.bucket, ph.(bucket := ph.bucket + 1);
    var rest := chains[src];
    var chains', t := chains[src := []], Apart(table, rest);
    forall b, i {:trigger chains'[b][i]} | 0 <= b < |chains'| && 0 <= i < |chains'[b]|
      ensures InTable(keys, t, chains'[b][i]) && q.Home(hash(keys[chains'[b][i]])) == b
    {
      assert chains'[b][i] == chains[b][i];
    }
    forall k {:trigger t[k]} | k in t ensures t[k] < |keys| && keys[t[k]] == k && t[k] in chains'[q.Home(hash(k))] {
      assert table[k] in chains[ph.Home(hash(k))];
    }
    forall b {:trigger chains'[b]} | 0 <= b < |chains'| ensures NoRepeats(chains'[b]) {
      NoneRepeated();
      assert NoRepeats(chains[b]);
    }
  }

  /** One item of it more. */
  lemma ApartNext<K>(keys: seq<K>, table: map<K, nat>, rest: seq<nat>)
    requires rest != [] && NoRepeats(rest) && InTable(keys, table, rest[0])
    requires forall k {:trigger table[k]} :: k in table ==> table[k] < |keys| && keys[table[k]] == k
    ensures keys[rest[0]] !in Apart(table, rest)
    ensures Apart(table, rest[1..]) == Apart(table, rest)[keys[rest[0]] := rest[0]]
  {
    var it := rest[0];
    assert rest == [it] + rest[1..];
    assert it !in rest[1..];
  }

  lemma NotEmptyHome<K>(keys: seq<K>, hash: K -> nat, ph: Phase, chains: seq<seq<nat>>, table: map<K, nat>, b: nat)
    requires Homes(keys, hash, ph, chains, table) && b < |chains|
    ensures chains[b] != [] ==> exists hv: nat :: ph.Home(hv) == b
  {
    if chains[b] != [] { assert ph.Home(hash(keys[chains[b][0]])) == b; }
  }

  /** Once every old bucket is moved, the old table is empty. */
  lemma FinishHomes<K>(keys: seq<K>, hash: K -> nat, ph: Phase, chains: seq<seq<nat>>, table: map<K, nat>)
    requires Homes(keys, hash, ph, chains, table) && ph.expanding && ph.power > 0 && ph.bucket == Pow2(ph.power - 1)
    ensures Pow2(ph.power) <= |chains|
    ensures forall b :: Pow2(ph.power) <= b < |chains| ==> chains[b] == []
    ensures Homes(keys, hash, Phase(ph.power, false, 0), chains[..Pow2(ph.power)], table)
  {
    forall b | Pow2(ph.power) <= b < |chains| ensures chains[b] == [] {
      NotEmptyHome(keys, hash, ph, chains, table, b);
    }
  }

  lemma FinishBonds(next: seq<int>, heads: seq<int>, chains: seq<seq<nat>>, n: nat)
    requires Bonds(next, heads, chains) && n <= |chains|
    ensures Bonds(next, heads[..n], chains[..n])
  {
  }

  // All of it together, part by part so that it can be passed along unopened.

  ghost predicate Holds<K>(keys: seq<K>, hash: K -> nat, ph: Phase, next: seq<int>, heads: seq<int>,
        chains: seq<seq<nat>>, table: map<K, nat>, i: nat)
  {
    if i == 0 then Bonds(next, heads, chains) else if i == 1 then Homes(keys, hash, ph, chains, table)
      else |heads| == ph.Buckets()
  }

  const REQUIREMENTS := 3

  /** The first `n` requirements hold. */
  ghost predicate HoldFirst<K>(keys: seq<K>, hash: K -> nat, ph: Phase, next: seq<int>, heads: seq<int>,
        chains: seq<seq<nat>>, table: map<K, nat>, n: nat)
  {
    n == 0 || (HoldFirst(keys, hash, ph, next, heads, chains, table, n - 1)
      && Holds(keys, hash, ph, next, heads, chains, table, n - 1))
  }

  /** The links form the chains and the chains hold the table. */
  ghost predicate Sound<K>(keys: seq<K>, hash: K -> nat, ph: Phase, next: seq<int>, heads: seq<int>,
        chains: seq<seq<nat>>, table: map<K, nat>)
  {
    HoldFirst(keys, hash, ph, next, heads, chains, table, REQUIREMENTS)
  }

  lemma Right<K>(keys: seq<K>, hash: K -> nat, ph: Phase, next: seq<int>, heads: seq<int>, chains: seq<seq<nat>>,
        table: map<K, nat>)
    ensures Sound(keys, hash, ph, next, heads, chains, table)
            <==> Bonds(next, heads, chains) && Homes(keys, hash, ph, chains, table) && |heads| == ph.Buckets()
  {
    assert HoldFirst(keys, hash, ph, next, heads, chains, table, 0);
    assert HoldFirst(keys, hash, ph, next, heads, chains, table, 1) <==>
      Holds(keys, hash, ph, next, heads, chains, table, 0);
    assert HoldFirst(keys, hash, ph, next, heads, chains, table, 2) <==>
      HoldFirst(keys, hash, ph, next, heads, chains, table, 1) && Holds(keys, hash, ph, next, heads, chains, table, 1);
  }

  lemma LinkKeeps<K>(keys: seq<K>, hash: K -> nat, ph: Phase, next: seq<int>, heads: seq<int>, chains: seq<seq<nat>>,
        table: map<K, nat>, it: nat)
    requires Sound(keys, hash, ph, next, heads, chains, table) && it < |keys| == |next| && keys[it] !in table
    ensures var b := ph.Home(hash(keys[it]));
      b < |heads| == |chains| && Sound(keys, hash, ph, next[it := heads[b]], heads[b := it],
        chains[b := [it] + chains[b]], table[keys[it] := it])
  {
    var b := ph.Home(hash(keys[it]));
    Right(keys, hash, ph, next, heads, chains, table);
    InsertHomes(keys, hash, ph, chains, table, it);
    InsertBonds(next, heads, chains, b, it);
    Right(keys, hash, ph, next[it := heads[b]], heads[b := it], chains[b := [it] + chains[b]], table[keys[it] := it]);
  }

  lemma ExpandKeeps<K>(keys: seq<K>, hash: K -> nat, ph: Phase, next: seq<int>, heads: seq<int>, chains: seq<seq<nat>>,
        table: map<K, nat>)
    requires Sound(keys, hash, ph, next, heads, chains, table) && !ph.expanding
    ensures var n := Pow2(ph.power + 1);
      Sound(keys, hash, Phase(ph.power + 1, true, 0), next, Nulls(n) + heads, Empties(n) + chains, table)
  {
    var n := Pow2(ph.power + 1);
    Right(keys, hash, ph, next, heads, chains, table);
    ExpandHomes(keys, hash, ph, chains, table);
    ExpandBonds(next, heads, chains, n);
    Right(keys, hash, Phase(ph.power + 1, true, 0), next, Nulls(n) + heads, Empties(n) + chains, table);
  }

  lemma RemoveKeeps<K>(keys: seq<K>, hash: K -> nat, ph: Phase, next: seq<int>, heads: seq<int>, chains: seq<seq<nat>>,
        table: map<K, nat>, k: K, i: nat)
    requires Sound(keys, hash, ph, next, heads, chains, table) && ph.Home(hash(k)) < |chains|
    requires var chain := chains[ph.Home(hash(k))]; i < |chain| && chain[i] < |keys| && keys[chain[i]] == k
    ensures var b := ph.Home(hash(k)); var chain := chains[b]; var it := chain[i];
      b < |heads| && it < |next| && (i > 0 ==> chain[i - 1] < |next| && chain[i - 1] != it)
    ensures var b := ph.Home(hash(k)); var chain := chains[b]; var it := chain[i];
      if i == 0
      then Sound(keys, hash, ph, next[it := NULL], heads[b := next[it]], chains[b := Without(chain, i)], table - {k})
      else Sound(keys, hash, ph, next[it := NULL][chain[i - 1] := next[it]], heads, chains[b := Without(chain, i)],
        table - {k})
  {
    var b := ph.Home(hash(k));
    var chain := chains[b];
    var it, s := chain[i], Without(chain, i);
    Right(keys, hash, ph, next, heads, chains, table);
    assert NoRepeats(chain) && Linked(next, heads[b], chain);
    RemoveHomes(keys, hash, ph, chains, table, b, i);
    if i == 0 {
      RemoveFirst(next, heads[b], chain);
      OthersLinked(next, heads, chains, b, it, NULL);
      Right(keys, hash, ph, next[it := NULL], heads[b := next[it]], chains[b := s], table - {k});
    } else {
      RemoveLinked(next, heads[b], chain, i);
      OthersLinked(next, heads, chains, b, it, NULL);
      OthersLinked(next[it := NULL], heads, chains[b := s], b, chain[i - 1], next[it]);
      Right(keys, hash, ph, next[it := NULL][chain[i - 1] := next[it]], heads, chains[b := s], table - {k});
    }
  }

  /** A link field of an item in one chain does not matter to the others. */
  lemma OthersLinked(next: seq<int>, heads: seq<int>, chains: seq<seq<nat>>, b: nat, it: nat, v: int)
    requires |heads| == |chains| && b < |chains| && it < |next|
    requires forall c {:trigger chains[c]} :: 0 <= c < |chains| && c != b ==>
      it !in chains[c] && Linked(next, heads[c], chains[c])
    ensures forall c {:trigger chains[c]} :: 0 <= c < |chains| && c != b ==> Linked(next[it := v], heads[c], chains[c])
  {
    forall c {:trigger chains[c]} | 0 <= c < |chains| && c != b ensures Linked(next[it := v], heads[c], chains[c]) {
      OtherLinked(next, heads[c], chains[c], it, v);
    }
  }

  // Moving a bucket.

  /** `rest`, linked from `it`, is what remains of the old bucket being moved. */
  ghost predicate Remains<K>(keys: seq<K>, hash: K -> nat, ph: Phase, next: seq<int>, it: int, rest: seq<nat>,
        table: map<K, nat>)
  {
    && ph.power > 0 && Linked(next, it, rest) && NoRepeats(rest)
    && (forall x {:trigger rest[x]} :: 0 <= x < |rest| ==>
      InTable(keys, table, rest[x]) && Low(hash(keys[rest[x]]), ph.power - 1) == ph.bucket)
    && (forall k {:trigger table[k]} :: k in table ==> table[k] < |keys| && keys[table[k]] == k)
  }

  /**
   * The first `n` parts of: `rest` remains of the bucket and everything else is placed as if the whole bucket were
   * moved.
   */
  ghost predicate Moving<K>(keys: seq<K>, hash: K -> nat, ph: Phase, next: seq<int>, heads: seq<int>,
        chains: seq<seq<nat>>, table: map<K, nat>,
        it: int, rest: seq<nat>, n: nat)
  {
    n == 0 || (Moving(keys, hash, ph, next, heads, chains, table, it, rest, n - 1)
      && MovingHolds(keys, hash, ph, next, heads, chains, table, it, rest, n - 1))
  }

  ghost predicate MovingHolds<K>(keys: seq<K>, hash: K -> nat, ph: Phase, next: seq<int>, heads: seq<int>,
        chains: seq<seq<nat>>, table: map<K, nat>,
        it: int, rest: seq<nat>, i: nat)
  {
    if i == 0 then Remains(keys, hash, ph, next, it, rest, table)
    else if i == 1 then Sound(keys, hash, ph.(bucket := ph.bucket + 1), next, heads, chains, Apart(table, rest))
    else (rest == [] <==> it == NULL)
  }

  lemma MovingIs<K>(keys: seq<K>, hash: K -> nat, ph: Phase, next: seq<int>, heads: seq<int>, chains: seq<seq<nat>>,
        table: map<K, nat>,
        it: int, rest: seq<nat>)
    ensures Moving(keys, hash, ph, next, heads, chains, table, it, rest, REQUIREMENTS)
            <==> Remains(keys, hash, ph, next, it, rest, table)
                 && Sound(keys, hash, ph.(bucket := ph.bucket + 1), next, heads, chains, Apart(table, rest))
  {
    assert Moving(keys, hash, ph, next, heads, chains, table, it, rest, 0);
    assert Moving(keys, hash, ph, next, heads, chains, table, it, rest, 1)
        <==> MovingHolds(keys, hash, ph, next, heads, chains, table, it, rest, 0);
    assert Moving(keys, hash, ph, next, heads, chains, table, it, rest, 2)
        <==> Moving(keys, hash, ph, next, heads, chains, table, it, rest, 1)
             && MovingHolds(keys, hash, ph, next, heads, chains, table, it, rest, 1);
  }

  lemma MovingStarts<K>(keys: seq<K>, hash: K -> nat, ph: Phase, next: seq<int>, heads: seq<int>, chains: seq<seq<nat>>,
        table: map<K, nat>)
    requires Sound(keys, hash, ph, next, heads, chains, table) && ph.expanding && ph.Valid()
    ensures var src := Pow2(ph.power) + ph.bucket; src < |heads| == |chains|
    ensures var src := Pow2(ph.power) + ph.bucket;
      Moving(keys, hash, ph, next, heads[src := NULL], chains[src := []], table, heads[src], chains[src],
        REQUIREMENTS)
  {
    var src := Pow2(ph.power) + ph.bucket;
    Right(keys, hash, ph, next, heads, chains, table);
    MoveStarts(keys, hash, ph, chains, table);
    assert Linked(next, heads[src], chains[src]) && NoRepeats(chains[src]);
    Right(keys, hash, ph.(bucket := ph.bucket + 1), next, heads[src := NULL], chains[src := []],
      Apart(table, chains[src]));
    MovingIs(keys, hash, ph, next, heads[src := NULL], chains[src := []], table, heads[src], chains[src]);
  }

  /** One item goes to the front of its bucket in the primary table. */
  lemma MovingNext<K>(keys: seq<K>, hash: K -> nat, ph: Phase, next: seq<int>, heads: seq<int>, chains: seq<seq<nat>>,
        table: map<K, nat>,
        it: int, rest: seq<nat>)
    requires Moving(keys, hash, ph, next, heads, chains, table, it, rest, REQUIREMENTS) && |next| == |keys|
      && ph.expanding
    requires it != NULL
    ensures 0 <= it < |next| && rest != [] && it == rest[0]
    ensures var b := Low(hash(keys[it]), ph.power);
      b < |heads| == |chains|
      && Moving(keys, hash, ph, next[it := heads[b]], heads[b := it], chains[b := [it] + chains[b]], table, next[it],
        rest[1..], REQUIREMENTS)
  {
    var q := ph.(bucket := ph.bucket + 1);
    MovingIs(keys, hash, ph, next, heads, chains, table, it, rest);
    var b := Low(hash(keys[it]), ph.power);
    assert InTable(keys, table, rest[0]) && q.Home(hash(keys[it])) == b;
    ApartNext(keys, table, rest);
    LinkKeeps(keys, hash, q, next, heads, chains, Apart(table, rest), it);
    RestLinked(next, rest, heads[b]);
    RestRemains(keys, hash, ph, next, rest, table, heads[b]);
    MovingIs(keys, hash, ph, next[it := heads[b]], heads[b := it], chains[b := [it] + chains[b]], table, next[it],
      rest[1..]);
  }

  lemma RestLinked(next: seq<int>, rest: seq<nat>, v: int)
    requires rest != [] && Linked(next, rest[0], rest) && NoRepeats(rest)
    ensures Linked(next[rest[0] := v], next[rest[0]], rest[1..])
  {
    var s := rest[1..];
    assert next[rest[0]] == After(rest, 0);
    forall j {:trigger After(s, j)} | 0 <= j < |s| ensures next[rest[0] := v][s[j]] == After(s, j) {
      assert s[j] == rest[j + 1] && next[rest[j + 1]] == After(rest, j + 1);
    }
  }

  lemma RestRemains<K>(keys: seq<K>, hash: K -> nat, ph: Phase, next: seq<int>, rest: seq<nat>, table: map<K, nat>,
        v: int)
    requires rest != [] && Remains(keys, hash, ph, next, rest[0], rest, table)
    ensures Remains(keys, hash, ph, next[rest[0] := v], next[rest[0]], rest[1..], table)
  {
    RestLinked(next, rest, v);
  }

  /** The whole bucket is moved. */
  lemma MovingEnds<K>(keys: seq<K>, hash: K -> nat, ph: Phase, next: seq<int>, heads: seq<int>, chains: seq<seq<nat>>,
        table: map<K, nat>,
        rest: seq<nat>)
    requires Moving(keys, hash, ph, next, heads, chains, table, NULL, rest, REQUIREMENTS)
    ensures Sound(keys, hash, ph.(bucket := ph.bucket + 1), next, heads, chains, table)
  {
    MovingIs(keys, hash, ph, next, heads, chains, table, NULL, rest);
    assert Apart(table, []) == table;
  }

  lemma FinishKeeps<K>(keys: seq<K>, hash: K -> nat, ph: Phase, next: seq<int>, heads: seq<int>, chains: seq<seq<nat>>,
        table: map<K, nat>)
    requires Sound(keys, hash, ph, next, heads, chains, table) && ph.expanding && ph.power > 0
      && ph.bucket == Pow2(ph.power - 1)
    ensures var n := Pow2(ph.power);
      n <= |heads| == |chains| && Sound(keys, hash, Phase(ph.power, false, 0), next, heads[..n], chains[..n], table)
  {
    var n := Pow2(ph.power);
    Right(keys, hash, ph, next, heads, chains, table);
    FinishHomes(keys, hash, ph, chains, table);
    FinishBonds(next, heads, chains, n);
    Right(keys, hash, Phase(ph.power, false, 0), next, heads[..n], chains[..n], table);
  }

  // Looking along a chain.

  function Link(chain: seq<nat>, i: nat): int {
    if i < |chain| then chain[i] else NULL
  }

  /** Following the links of the chain for `k`. */
  lemma Follow<K>(keys: seq<K>, hash: K -> nat, ph: Phase, next: seq<int>, heads: seq<int>, chains: seq<seq<nat>>,
        table: map<K, nat>, k: K, i: nat)
    requires Sound(keys, hash, ph, next, heads, chains, table)
    ensures var b := ph.Home(hash(k)); b < |heads| == |chains| && heads[b] == Link(chains[b], 0)
    ensures var chain := chains[ph.Home(hash(k))];
      i < |chain| ==> chain[i] < |next| && chain[i] < |keys| && next[chain[i]] == Link(chain, i + 1)
  {
    Right(keys, hash, ph, next, heads, chains, table);
    var chain := chains[ph.Home(hash(k))];
    assert Linked(next, heads[ph.Home(hash(k))], chain);
    if i < |chain| { assert next[chain[i]] == After(chain, i); }
  }

  lemma Found<K>(keys: seq<K>, hash: K -> nat, ph: Phase, next: seq<int>, heads: seq<int>, chains: seq<seq<nat>>,
        table: map<K, nat>, k: K, i: nat)
    requires Sound(keys, hash, ph, next, heads, chains, table) && ph.Home(hash(k)) < |chains|
    requires var chain := chains[ph.Home(hash(k))]; i < |chain| && chain[i] < |keys| && keys[chain[i]] == k
    ensures k in table && table[k] == chains[ph.Home(hash(k))][i]
  {
    Right(keys, hash, ph, next, heads, chains, table);
  }

  /** A key that is there is somewhere in its chain. */
  lemma Somewhere<K>(keys: seq<K>, hash: K -> nat, ph: Phase, next: seq<int>, heads: seq<int>, chains: seq<seq<nat>>,
        table: map<K, nat>, k: K) returns (i: nat)
    requires Sound(keys, hash, ph, next, heads, chains, table) && k in table
    ensures ph.Home(hash(k)) < |chains|
    ensures var chain := chains[ph.Home(hash(k))]; i < |chain| && chain[i] == table[k] < |keys| && keys[chain[i]] == k
  {
    Right(keys, hash, ph, next, heads, chains, table);
    var chain := chains[ph.Home(hash(k))];
    i :| 0 <= i < |chain| && chain[i] == table[k];
  }

  /** A table in which nothing is stored. */
  lemma EmptySound<K>(keys: seq<K>, hash: K -> nat, next: seq<int>)
    ensures Sound(keys, hash, Phase(16, false, 0), next, Nulls(Pow2(INITIAL_POWER)), Empties(Pow2(INITIAL_POWER)),
      map[])
  {
    Right(keys, hash, Phase(16, false, 0), next, Nulls(Pow2(INITIAL_POWER)), Empties(Pow2(INITIAL_POWER)), map[]);
    hide Pow2;
  }

  /** What `_hashitem_before` returns: the address of a bucket's head or of an item's link field. */
  datatype Position = InBucket | InField(it: nat)

  class HashTable<K(==)> {
    const keys: seq<K>
    const hash: K -> nat
    const next: array<int>
    var primary: array<int>
    var previous: array<int>
    var hashpower: nat
    var expanding: bool
    var expandBucket: nat
    var hashItems: nat
    ghost var chains: seq<seq<nat>>
    ghost var table: map<K, nat>  // what clients see: which item is under a key

    ghost function Ph(): Phase
      reads this
    {
      Phase(hashpower, expanding, if expanding then expandBucket else 0)
    }

    /** The heads of all buckets. */
    ghost function Heads(): seq<int>
      reads this, primary, previous
    {
      primary[..] + if expanding then previous[..] else []
    }

    ghost predicate Shape()
      reads this
    {
      && next.Length == |keys| && primary.Length == Pow2(hashpower) && Ph().Valid()
      && (expanding ==> previous.Length == Pow2(hashpower - 1)) && next != primary && next != previous
      && primary != previous
    }

    /** The fields hold the table. */
    ghost predicate Stored()
      reads this, next, primary, previous
    {
      Sound(keys, hash, Ph(), next[..], Heads(), chains, table)
    }

    ghost predicate Valid()
      reads this, next, primary, previous
    {
      Shape() && Stored() && hashItems == |table|
    }

    /** `assoc_init` */
    constructor (keys: seq<K>, hash: K -> nat)
      ensures Valid() && table == map[] && this.keys == keys && fresh(next) && fresh(primary) && fresh(previous)
      ensures hashpower == INITIAL_POWER && !expanding
    {
      this.keys, this.hash := keys, hash;
      next := new int[|keys|](i => NULL);
      primary := new int[Pow2(INITIAL_POWER)](i => NULL);
      previous := new int[0];
      hashpower, expanding, expandBucket, hashItems := INITIAL_POWER, false, 0, 0;
      chains, table := Empties(Pow2(INITIAL_POWER)), map[];
      new;
      hide Sound, Pow2, Empties;
      assert primary[..] + [] == primary[..] && primary[..] == Nulls(Pow2(INITIAL_POWER));
      EmptySound(keys, hash, next[..]);
    }

    /** `hv & hashmask(hashpower - 1)` against expand_bucket, and the head of the bucket so chosen. */
    method Head(k: K) returns (it: int)
      requires Shape()
      ensures Ph().Home(hash(k)) < |Heads()| && it == Heads()[Ph().Home(hash(k))]
    {
      var hv := hash(k);
      if expanding && Low(hv, hashpower - 1) >= expandBucket {
        it := previous[Low(hv, hashpower - 1)];
      } else {
        it := primary[Low(hv, hashpower)];
      }
    }

    method SetHead(k: K, it: int)
      requires Shape()
      modifies primary, previous
      ensures Ph().Home(hash(k)) < |old(Heads())| && Heads() == old(Heads())[Ph().Home(hash(k)) := it]
    {
      var hv := hash(k);
      if expanding && Low(hv, hashpower - 1) >= expandBucket {
        previous[Low(hv, hashpower - 1)] := it;
      } else {
        primary[Low(hv, hashpower)] := it;
      }
    }

    /** The chain that a search for `k` goes along. */
    ghost function Chain(k: K): seq<nat>
      reads this
    {
      if Ph().Home(hash(k)) < |chains| then chains[Ph().Home(hash(k))] else []
    }

    lemma Along(k: K, i: nat)
      requires Valid()
      ensures var b := Ph().Home(hash(k)); b < |Heads()| == |chains| && Heads()[b] == Link(Chain(k), 0)
      ensures i < |Chain(k)| ==> Chain(k)[i] < next.Length && next[Chain(k)[i]] == Link(Chain(k), i + 1)
    {
      Follow(keys, hash, Ph(), next[..], Heads(), chains, table, k, i);
    }

    /** Looking for `k` has come past the first `i` of its chain. */
    ghost predicate Passed(k: K, i: nat)
      reads this
    {
      i <= |Chain(k)| && forall j {:trigger Chain(k)[j]} :: 0 <= j < i ==>
        Chain(k)[j] < |keys| && keys[Chain(k)[j]] != k
    }

    lemma AllPassed(k: K)
      requires Valid() && Passed(k, |Chain(k)|)
      ensures k !in table
    {
      if k in table { var i := Somewhere(keys, hash, Ph(), next[..], Heads(), chains, table, k); }
    }

    lemma FoundAt(k: K, i: nat)
      requires Valid() && i < |Chain(k)| && Chain(k)[i] < |keys| && keys[Chain(k)[i]] == k
      ensures k in table && table[k] == Chain(k)[i]
    {
      Found(keys, hash, Ph(), next[..], Heads(), chains, table, k, i);
    }

    /** `assoc_find` */
    method Find(k: K) returns (ret: int)
      requires Valid()
      ensures ret == if k in table then table[k] else NULL
    {
      ghost var i := 0;
      var it := Head(k);
      Along(k, 0);
      while it != NULL
        invariant Passed(k, i) && it == Link(Chain(k), i)
        decreases |Chain(k)| - i
      {
        Along(k, i);
        if keys[it] == k {
          FoundAt(k, i);
          return it;
        }
        it := next[it];
        i := i + 1;
      }
      AllPassed(k);
      return NULL;
    }

    /** `_hashitem_before`: where the link to the item of `k` is, or the end of its chain; and what that link holds. */
    method Before(k: K) returns (pos: Position, it: int, ghost i: nat)
      requires Valid()
      ensures i <= |Chain(k)| && it == Link(Chain(k), i) == (if k in table then table[k] else NULL)
      ensures k in table ==> i < |Chain(k)| && it < |keys| && keys[it] == k
      ensures pos == if i == 0 then InBucket else InField(Chain(k)[i - 1])
    {
      hide Low, Pow2, Sound, Phase.Home, HashTable.Heads, HashTable.Stored, Phase.Valid;
      it := Head(k);
      i, pos := 0, InBucket;
      Along(k, 0);
      while it != NULL && keys[it] != k
        invariant Passed(k, i) && it == Link(Chain(k), i) && (it != NULL ==> 0 <= it < |keys|)
        invariant pos == if i == 0 then InBucket else InField(Chain(k)[i - 1])
        decreases |Chain(k)| - i
      {
        Along(k, i);
        pos := InField(it);
        it := next[it];
        i := i + 1;
        Along(k, i);
      }
      if it != NULL { FoundAt(k, i); } else { AllPassed(k); }
    }

    /** `assoc_expand`; `ok` tells whether memory was to be had. */
    method Expand(ok: bool)
      requires Valid() && !expanding
      modifies this
      ensures Valid() && table == old(table) && expanding == ok && (ok ==> fresh(primary))
        && (!ok ==> primary == old(primary))
      ensures previous == (if ok then old(primary) else old(previous)) && hashItems == old(hashItems)
      ensures hashpower == old(hashpower) + (if ok then 1 else 0) && (ok ==> expandBucket == 0)
    {
      if ok {
        ghost var h := Heads();
        ExpandKeeps(keys, hash, Ph(), next[..], h, chains, table);
        var n := Pow2(hashpower + 1);
        var bigger := new int[n](i => NULL);
        assert bigger[..] == Nulls(n) && primary[..] == h;
        chains := Empties(n) + chains;
        previous, primary := primary, bigger;
        hashpower, expanding, expandBucket := hashpower + 1, true, 0;
        assert Heads() == Nulls(n) + h;
      }
    }

    /** The first half of `assoc_insert`. */
    method LinkItem(it: nat)
      requires Valid() && it < |keys| && keys[it] !in table
      modifies this`chains, this`table, this`hashItems, next, primary, previous
      ensures Valid() && table == old(table)[keys[it] := it]
    {
      ghost var b := Ph().Home(hash(keys[it]));
      LinkKeeps(keys, hash, Ph(), next[..], Heads(), chains, table, it);
      next[it] := Head(keys[it]);
      SetHead(keys[it], it);
      chains, table := chains[b := [it] + chains[b]], table[keys[it] := it];
      hashItems := hashItems + 1;
    }

    /** `assoc_insert`: the new key is there and nothing else changed, whether or not the table starts to grow. */
    method Insert(it: nat, ok: bool)
      requires Valid() && it < |keys| && keys[it] !in table
      modifies this, next, primary, previous
      ensures Valid() && table == old(table)[keys[it] := it]
      ensures expanding == (old(expanding) || (|table| > 3 * Pow2(old(hashpower)) / 2 && ok))
      ensures hashpower == old(hashpower) + (if expanding && !old(expanding) then 1 else 0)
      ensures old(expanding) ==> expandBucket == old(expandBucket)
    {
      LinkItem(it);
      if !expanding && hashItems > 3 * Pow2(hashpower) / 2 { Expand(ok); }
    }
  
    /** `assoc_delete`: the key is gone, its item's link cleared, and nothing else changed. */
    method Delete(k: K)
      requires Valid() && k in table
      modifies this`chains, this`table, this`hashItems, next, primary, previous
      ensures Valid() && table == old(table) - {k} && old(table[k]) < next.Length && next[old(table[k])] == NULL
    {
      hide Low, Pow2;
      var pos, it;
      ghost var i;
      pos, it, i := Before(k);
      ghost var b := Ph().Home(hash(k));
      Along(k, i);
      RemoveKeeps(keys, hash, Ph(), next[..], Heads(), chains, table, k, i);
      hashItems := hashItems - 1;
      var nxt := next[it];
      next[it] := NULL;
      match pos {
        case InBucket => SetHead(k, nxt);
        case InField(p) => next[p] := nxt;
      }
      chains, table := chains[b := Without(chains[b], i)], table - {k};
    }
  
    /** The inner loop of the maintenance thread: every item of the bucket goes to its place in the primary table. */
    method MoveItems(ghost src: nat)
      requires Valid() && expanding && src == Pow2(hashpower) + expandBucket
      modifies this`chains, next, primary
      ensures src < |Heads()| && Sound(keys, hash, Ph().(bucket := expandBucket + 1), next[..], Heads()[src := NULL],
        chains, table)
    {
      MovingStarts(keys, hash, Ph(), next[..], Heads(), chains, table);
      ghost var rest := chains[src];
      chains := chains[src := []];
      var it := previous[expandBucket];
      while it != NULL
        invariant Moving(keys, hash, Ph(), next[..], Heads()[src := NULL], chains, table, it, rest, REQUIREMENTS)
        decreases |rest|
      {
        MovingNext(keys, hash, Ph(), next[..], Heads()[src := NULL], chains, table, it, rest);
        ghost var h := Heads()[src := NULL];
        var nxt, bucket := next[it], Low(hash(keys[it]), hashpower);
        next[it] := primary[bucket];
        primary[bucket] := it;
        assert Heads()[src := NULL] == h[bucket := it];
        chains := chains[bucket := [it] + chains[bucket]];
        it, rest := nxt, rest[1..];
      }
      MovingEnds(keys, hash, Ph(), next[..], Heads()[src := NULL], chains, table, rest);
    }

    /**
     * One round of the maintenance thread: a bucket is moved, nothing is lost, and after the last the expansion ends.
     */
    method MoveBucket()
      requires Valid() && expanding
      modifies this`chains, this`expanding, this`expandBucket, next, primary, previous
      ensures Valid() && table == old(table)
      ensures expanding == (old(expandBucket) + 1 != Pow2(hashpower - 1)) && expandBucket == old(expandBucket) + 1
      ensures hashpower > 0 && old(expandBucket) < Pow2(hashpower - 1)
    {
      ghost var src := Pow2(hashpower) + expandBucket;
      MoveItems(src);
      ghost var h := Heads()[src := NULL];
      previous[expandBucket] := NULL;
      assert Heads() == h;
      expandBucket := expandBucket + 1;
      if expandBucket == Pow2(hashpower - 1) { EndExpansion(); }
    }

    /** Every bucket is moved: the old table goes. */
    method EndExpansion()
      requires EndingShape() && hashItems == |table| && expandBucket == Pow2(hashpower - 1)
      requires Sound(keys, hash, Phase(hashpower, true, expandBucket), next[..], primary[..] + previous[..], chains,
        table)
      modifies this`chains, this`expanding
      ensures Valid() && !expanding
    {
      FinishKeeps(keys, hash, Phase(hashpower, true, expandBucket), next[..], primary[..] + previous[..], chains,
        table);
      expanding := false;
      chains := chains[..Pow2(hashpower)];
      assert Heads() == (primary[..] + previous[..])[..Pow2(hashpower)];
    }

    /** The shape while an expansion ends. */
    ghost predicate EndingShape()
      reads this
    {
      && next.Length == |keys| && primary.Length == Pow2(hashpower) && expanding && hashpower > 0
      && next != primary && next != previous && primary != previous
    }

    /** How many buckets of the old table are still to be moved. */
    ghost function ToMove(): nat
      reads this
      requires expanding ==> Ph().Valid()
    {
      if expanding then Pow2(hashpower - 1) - expandBucket else 0
    }

    /**
     * One turn of the maintenance thread, with the lock held: it moves `bulk` buckets, or all there are to move, in
     * which case the expansion is over.
     */
    method Maintain(bulk: nat)
      requires Valid()
      modifies this`chains, this`expanding, this`expandBucket, next, primary, previous
      ensures Valid() && table == old(table)
      ensures ToMove() == if bulk < old(ToMove()) then old(ToMove()) - bulk else 0
      ensures expanding <==> bulk < old(ToMove())
      ensures expandBucket == old(expandBucket) + if bulk < old(ToMove()) then bulk else old(ToMove())
    {
      hide Low, Pow2, Sound;
      var ii := 0;
      while ii < bulk && expanding
        invariant Valid() && table == old(table) && ii <= bulk && ii <= old(ToMove())
        invariant expandBucket == old(expandBucket) + ii && (expanding <==> ii < old(ToMove()))
        invariant expanding ==> ToMove() == old(ToMove()) - ii
      {
        MoveBucket();
        ii := ii + 1;
      }
    }

    /** The maintenance thread: as many turns as there are buckets to move end the expansion, at the least bulk. */
    method Maintenance(bulk: nat, turns: nat)
      requires Valid() && bulk >= 1
      modifies this`chains, this`expanding, this`expandBucket, next, primary, previous
      ensures Valid() && table == old(table)
      ensures turns >= old(ToMove()) ==> !expanding
    {
      hide Low, Pow2, Sound;
      for n := 0 to turns
        invariant Valid() && table == old(table) && (!expanding || ToMove() + n <= old(ToMove()))
      {
        Maintain(bulk);
      }
    }
  }
}
