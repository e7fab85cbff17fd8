/** What every step of pbzip2's compress path keeps. */
module PbzipSafety {
  import opened Rings
  import opened PbzipPipeline

  /** The block that a consumer works on. */
  predicate Holds<T, U>(c: Consumer<T, U>, k: nat) {
    (c.Compressing? && c.b.num == k) || ((c.Storing? || c.WaitRoom?) && c.c.num == k)
  }

  predicate Busy<T, U>(c: Consumer<T, U>) {
    c.Compressing? || c.Storing? || c.WaitRoom?
  }

  function NumOf<T, U>(c: Consumer<T, U>): nat
    requires Busy(c)
  {
    if c.Compressing? then c.b.num else c.c.num
  }

  ghost predicate Counts<T, U>(p: Plant<T, U>, s: State<T, U>) {
    && Sized(p, s) && s.curr == s.nextToWrite + (if s.writer.Update? then 1 else 0)
    && s.curr <= |s.holder| == s.numBlocks - |s.fifo|
    && |s.fifo| <= p.size && s.numBlocks <= |p.chunks|
    && (s.producer.Adding? || s.producer.WaitNotFull? ==> s.numBlocks < |p.chunks|)
    && s.posToWrite == Rings.Slot(s.nextToWrite, p.max) && s.pos == Rings.Slot(s.curr, p.max)
  }

  /** The queue holds the blocks from `lo` on, in order. */
  ghost predicate InOrder<T, U>(p: Plant<T, U>, fifo: seq<Block<T>>, lo: nat) {
    lo + |fifo| <= |p.chunks| && forall j {:trigger fifo[j]} :: 0 <= j < |fifo| ==>
      fifo[j] == Block(lo + j, p.chunks[lo + j])
  }

  /** A consumer's block is what the file has there, compressed or not. */
  ghost predicate Genuine<T, U>(p: Plant<T, U>, c: Consumer<T, U>) {
    && (c.Compressing? ==> c.b.num < |p.chunks| && c.b.data == p.chunks[c.b.num])
    && (c.Storing? || c.WaitRoom? ==> c.c.num < |p.chunks| && c.c.data == p.compress(p.chunks[c.c.num]))
  }

  /**
   * Blocks `lo..|holder|` are taken and not yet written: each is with its consumer or in its slot, and nothing else is
   * in the buffer; no slot is used beyond `end`.
   */
  ghost predicate Slots<T, U>(p: Plant<T, U>, buffer: seq<PbzipPipeline.Slot<U>>, holder: seq<nat>,
        cs: seq<Consumer<T, U>>, lo: nat, end: nat)
  {
    && 0 < p.max == |buffer| && lo <= |holder| && lo <= end <= lo + p.max
    && (forall i {:trigger cs[i]} :: 0 <= i < |cs| && Busy(cs[i]) ==>
      Genuine(p, cs[i]) && HasBlock(p, buffer, holder, lo, i, NumOf(cs[i])))
    && (forall k {:trigger holder[k]} :: lo <= k < |holder| ==> Kept(p, buffer, cs, holder[k], k))
    && (forall x {:trigger buffer[x]} :: 0 <= x < p.max && buffer[x].Full? ==>
      Stored(p, |holder|, lo, end, x, buffer[x].b))
  }

  ghost predicate HasBlock<T, U>(p: Plant<T, U>, buffer: seq<PbzipPipeline.Slot<U>>, holder: seq<nat>, lo: nat, i: nat,
        k: nat)
    requires 0 < p.max == |buffer|
  {
    lo <= k < |holder| && holder[k] == i
      && !(buffer[Rings.Slot(k, p.max)].Full? && buffer[Rings.Slot(k, p.max)].b.num == k)
  }

  ghost predicate Kept<T, U>(p: Plant<T, U>, buffer: seq<PbzipPipeline.Slot<U>>, cs: seq<Consumer<T, U>>, i: nat,
        k: nat)
    requires 0 < p.max == |buffer|
  {
    (buffer[Rings.Slot(k, p.max)].Full? && buffer[Rings.Slot(k, p.max)].b.num == k)
      || (i < |cs| && Busy(cs[i]) && NumOf(cs[i]) == k)
  }

  ghost predicate Stored<T, U>(p: Plant<T, U>, n: nat, lo: nat, end: nat, x: nat, b: Block<U>)
    requires 0 < p.max
  {
    lo <= b.num < n && b.num < end && x == Rings.Slot(b.num, p.max) && b.num < |p.chunks|
      && b.data == p.compress(p.chunks[b.num])
  }

  /** What is written so far. */
  ghost predicate InSequence<T, U>(p: Plant<T, U>, written: seq<U>, n: nat) {
    |written| == n <= |p.chunks| && forall k {:trigger written[k]} :: 0 <= k < n ==>
      written[k] == p.compress(p.chunks[k])
  }

  /** Nobody waits without a reason, and nobody leaves early. */
  ghost predicate Waits<T, U>(p: Plant<T, U>, s: State<T, U>) {
    && (s.producer.WaitNotFull? ==> |s.fifo| == p.size)
    && (s.done <==> s.producer.Broadcasting? || s.producer.Exited?)
    && (s.done || s.producer.SettingDone? ==> s.numBlocks == |p.chunks|)
    && (s.writer.Finished? ==> s.done && s.curr == |p.chunks|)
    && (s.writer.Write? ==> 0 < p.max == |s.buffer| && s.buffer[Rings.Slot(s.curr, p.max)].Full?)
    && (forall i {:trigger s.consumers[i]} :: 0 <= i < |s.consumers| ==>
          && (s.consumers[i].WaitRoom? ==> s.consumers[i].c.num >= s.nextToWrite + p.max)
          && (s.consumers[i].WaitNotEmpty? ==> !s.producer.Exited?)
          && (s.consumers[i].Gone? ==> s.done && s.fifo == []))
    && (s.fifo != [] ==> Attended(s.consumers))
  }

  /** Some consumer does not wait for a block. */
  ghost predicate Attended<T, U>(cs: seq<Consumer<T, U>>) {
    exists i :: 0 <= i < |cs| && !cs[i].WaitNotEmpty?
  }

  ghost predicate Inv<T, U>(p: Plant<T, U>, s: State<T, U>) {
    && Counts(p, s) && Waits(p, s) && InOrder(p, s.fifo, |s.holder|) && InSequence(p, s.written, s.curr)
    && Slots(p, s.buffer, s.holder, s.consumers, s.curr, s.nextToWrite + p.max)
  }

  lemma InitInv<T, U>(p: Plant<T, U>, s: State<T, U>)
    requires Init(p, s)
    ensures Inv(p, s)
  {
  }

  /** The slot computed for a block in the window is the one it belongs to. */
  lemma {:induction false} PosIsSlot(max: nat, next: nat, num: nat)
    requires 0 < max && next <= num < next + max
    ensures OutputPos(max, Rings.Slot(next, max), next, num) == Rings.Slot(num, max)
    decreases num
  {
    if num > next {
      PosIsSlot(max, next, num - 1);
      SlotNext(num - 1, max);
      if num == next + max - 1 && max > 1 { SlotRound(next, max); SlotsApart(next, max); }
    }
  }

  // The buffer and the consumers under each change.

  /** The consumer has the same block as before, or none as before. */
  ghost predicate Like<T, U>(p: Plant<T, U>, c: Consumer<T, U>, d: Consumer<T, U>) {
    c == d || (!Busy(c) && !Busy(d)) || (Busy(c) && Busy(d) && NumOf(c) == NumOf(d) && Genuine(p, d))
  }

  lemma SlotsLike<T, U>(p: Plant<T, U>, buffer: seq<PbzipPipeline.Slot<U>>, holder: seq<nat>, cs: seq<Consumer<T, U>>,
        ds: seq<Consumer<T, U>>, lo: nat, end: nat)
    requires Slots(p, buffer, holder, cs, lo, end) && |ds| == |cs| && forall i {:trigger ds[i]} :: 0 <= i < |cs| ==>
      Like(p, cs[i], ds[i])
    ensures Slots(p, buffer, holder, ds, lo, end)
  {
    forall i {:trigger ds[i]} | 0 <= i < |ds| && Busy(ds[i])
      ensures Genuine(p, ds[i]) && HasBlock(p, buffer, holder, lo, i, NumOf(ds[i])) {
      assert Busy(cs[i]);
    }
    forall k {:trigger holder[k]} | lo <= k < |holder| ensures Kept(p, buffer, ds, holder[k], k) {
      assert Kept(p, buffer, cs, holder[k], k);
      if holder[k] < |cs| { assert Like(p, cs[holder[k]], ds[holder[k]]); }
    }
  }

  lemma SlotsPlace<T, U>(p: Plant<T, U>, buffer: seq<PbzipPipeline.Slot<U>>, holder: seq<nat>, cs: seq<Consumer<T, U>>,
        i: nat, d: Consumer<T, U>, lo: nat, end: nat)
    requires Slots(p, buffer, holder, cs, lo, end) && i < |cs| && Like(p, cs[i], d)
    ensures Slots(p, buffer, holder, cs[i := d], lo, end)
  {
    SlotsLike(p, buffer, holder, cs, cs[i := d], lo, end);
  }

  lemma SlotsTake<T, U>(p: Plant<T, U>, buffer: seq<PbzipPipeline.Slot<U>>, holder: seq<nat>, cs: seq<Consumer<T, U>>,
        i: nat, b: Block<T>, lo: nat, end: nat)
    requires Slots(p, buffer, holder, cs, lo, end) && i < |cs| && !Busy(cs[i])
    requires b.num == |holder| < |p.chunks| && b.data == p.chunks[b.num]
    ensures Slots(p, buffer, holder + [i], cs[i := Compressing(b)], lo, end)
  {
    var n, hs, ds := |holder|, holder + [i], cs[i := Compressing(b)];
    forall j {:trigger ds[j]} | 0 <= j < |ds| && Busy(ds[j])
      ensures Genuine(p, ds[j]) && HasBlock(p, buffer, hs, lo, j, NumOf(ds[j])) {
      if j != i { assert HasBlock(p, buffer, holder, lo, j, NumOf(cs[j])); }
    }
    forall k {:trigger hs[k]} | lo <= k < |hs| ensures Kept(p, buffer, ds, hs[k], k) {
      if k < n { assert hs[k] == holder[k]; assert Kept(p, buffer, cs, holder[k], k); }
    }
  }

  /** A block goes to its own slot, and finds it empty. */
  lemma SlotsStore<T, U>(p: Plant<T, U>, buffer: seq<PbzipPipeline.Slot<U>>, holder: seq<nat>, cs: seq<Consumer<T, U>>,
        i: nat, c: Block<U>, lo: nat, end: nat)
    requires Slots(p, buffer, holder, cs, lo, end) && i < |cs| && cs[i] == Storing(c) && c.num < end
    ensures var x := Rings.Slot(c.num, p.max);
      buffer[x].Empty? && Slots(p, buffer[x := Full(c)], holder, cs[i := Taking], lo, end)
  {
    var x := Rings.Slot(c.num, p.max);
    var bs, ds := buffer[x := Full(c)], cs[i := Taking];
    assert HasBlock(p, buffer, holder, lo, i, c.num) && Genuine(p, cs[i]);
    SlotsApart(lo, p.max);
    forall j {:trigger ds[j]} | 0 <= j < |ds| && Busy(ds[j])
      ensures Genuine(p, ds[j]) && HasBlock(p, bs, holder, lo, j, NumOf(ds[j])) {
      assert HasBlock(p, buffer, holder, lo, j, NumOf(cs[j]));
    }
    forall k {:trigger holder[k]} | lo <= k < |holder| ensures Kept(p, bs, ds, holder[k], k) {
      assert Kept(p, buffer, cs, holder[k], k);
      StoreKept(p, buffer, holder, cs, i, c, lo, end, k);
    }
    forall y {:trigger bs[y]} | 0 <= y < p.max && bs[y].Full? ensures Stored(p, |holder|, lo, end, y, bs[y].b) {
      if y != x { assert bs[y] == buffer[y]; }
    }
  }

  lemma StoreKept<T, U>(p: Plant<T, U>, buffer: seq<PbzipPipeline.Slot<U>>, holder: seq<nat>, cs: seq<Consumer<T, U>>,
        i: nat, c: Block<U>, lo: nat, end: nat, k: nat)
    requires Slots(p, buffer, holder, cs, lo, end) && i < |cs| && cs[i] == Storing(c) && c.num < end
      && lo <= k < |holder|
    ensures var x := Rings.Slot(c.num, p.max); Kept(p, buffer[x := Full(c)], cs[i := Taking], holder[k], k)
  {
    var x := Rings.Slot(c.num, p.max);
    assert HasBlock(p, buffer, holder, lo, i, c.num);
    assert Kept(p, buffer, cs, holder[k], k);
    SlotsApart(lo, p.max);
    assert buffer[x].Full? ==> Stored(p, |holder|, lo, end, x, buffer[x].b);
  }

  /** The oldest block is written and its slot emptied. */
  lemma SlotsWrite<T, U>(p: Plant<T, U>, buffer: seq<PbzipPipeline.Slot<U>>, holder: seq<nat>, cs: seq<Consumer<T, U>>,
        lo: nat, end: nat)
    requires Slots(p, buffer, holder, cs, lo, end) && lo < end && buffer[Rings.Slot(lo, p.max)].Full?
    ensures buffer[Rings.Slot(lo, p.max)].b.num == lo < |holder|
      && Slots(p, buffer[Rings.Slot(lo, p.max) := Empty], holder, cs, lo + 1, end)
  {
    var x, next := Rings.Slot(lo, p.max), lo + 1;
    var bs := buffer[x := Empty];
    SlotsApart(lo, p.max);
    assert Stored(p, |holder|, lo, end, x, buffer[x].b);
    forall j {:trigger cs[j]} | 0 <= j < |cs| && Busy(cs[j])
      ensures Genuine(p, cs[j]) && HasBlock(p, bs, holder, next, j, NumOf(cs[j])) {
      assert HasBlock(p, buffer, holder, lo, j, NumOf(cs[j]));
    }
    forall k {:trigger holder[k]} | next <= k < |holder| ensures Kept(p, bs, cs, holder[k], k) {
      assert Kept(p, buffer, cs, holder[k], k);
      if buffer[Rings.Slot(k, p.max)].Full? { assert Stored(p, |holder|, lo, end, Rings.Slot(k, p.max),
        buffer[Rings.Slot(k, p.max)].b); }
    }
    forall y {:trigger bs[y]} | 0 <= y < p.max && bs[y].Full? ensures Stored(p, |holder|, next, end, y, bs[y].b) {
      assert bs[y] == buffer[y];
    }
  }

  lemma SlotsMore<T, U>(p: Plant<T, U>, buffer: seq<PbzipPipeline.Slot<U>>, holder: seq<nat>, cs: seq<Consumer<T, U>>,
        lo: nat, end: nat)
    requires Slots(p, buffer, holder, cs, lo, end) && end < lo + p.max
    ensures Slots(p, buffer, holder, cs, lo, end + 1)
  {
    forall x {:trigger buffer[x]} | 0 <= x < p.max && buffer[x].Full?
      ensures Stored(p, |holder|, lo, end + 1, x, buffer[x].b) {}
  }

  // Signals.

  lemma {:induction false} WakeFirstIs<T, U>(cs: seq<Consumer<T, U>>)
    ensures var ds := WakeFirst(cs);
      |ds| == |cs| && (forall i {:trigger ds[i]} :: 0 <= i < |cs| ==> ds[i] == cs[i] || ds[i] == Wake(cs[i]))
        && (cs != [] ==> Attended(ds))
  {
    var ds := WakeFirst(cs);
    if cs != [] {
      if cs[0].WaitNotEmpty? {
        assert !ds[0].WaitNotEmpty?;
      } else {
        WakeFirstIs(cs[1..]);
        forall i {:trigger ds[i]} | 0 <= i < |cs| ensures ds[i] == cs[i] || ds[i] == Wake(cs[i]) {
          if i > 0 { assert ds[i] == WakeFirst(cs[1..])[i - 1] && cs[i] == cs[1..][i - 1]; }
        }
        assert !ds[0].WaitNotEmpty?;
      }
    }
  }

  /** Whoever is signalled, afterwards some consumer does not wait. */
  lemma SignalOneIs<T, U>(cs: seq<Consumer<T, U>>, w: nat)
    ensures var ds := SignalOne(cs, w);
      |ds| == |cs| && (forall i {:trigger ds[i]} :: 0 <= i < |cs| ==> ds[i] == cs[i] || ds[i] == Wake(cs[i]))
        && (cs != [] ==> Attended(ds))
  {
    WakeFirstIs(cs);
    if w < |cs| && cs[w].WaitNotEmpty? { assert !SignalOne(cs, w)[w].WaitNotEmpty?; }
  }

  // The producer.

  lemma AddInv<T, U>(p: Plant<T, U>, s: State<T, U>, wake: nat)
    requires Inv(p, s) && s.producer.Adding? && |s.fifo| < p.size
    ensures ProducerStep(p, s, wake).Goes? && Inv(p, ProducerStep(p, s, wake).s)
  {
    SignalOneIs(s.consumers, wake);
    SlotsLike(p, s.buffer, s.holder, s.consumers, SignalOne(s.consumers, wake), s.curr, s.nextToWrite + p.max);
  }

  lemma BroadcastInv<T, U>(p: Plant<T, U>, s: State<T, U>)
    requires Inv(p, s) && s.producer.Broadcasting?
    ensures Inv(p, ProducerStep(p, s, 0).s)
  {
    var ds := WakeAll(s.consumers);
    SlotsLike(p, s.buffer, s.holder, s.consumers, ds, s.curr, s.nextToWrite + p.max);
    assert !ds[0].WaitNotEmpty?;
  }

  lemma ProducerKeeps<T, U>(p: Plant<T, U>, s: State<T, U>, wake: nat)
    requires Inv(p, s)
    ensures !ProducerStep(p, s, wake).Crash? && (ProducerStep(p, s, wake).Goes? ==> Inv(p, ProducerStep(p, s, wake).s))
  {
    if s.producer.Adding? && |s.fifo| < p.size { AddInv(p, s, wake); }
    if s.producer.Broadcasting? { BroadcastInv(p, s); }
  }

  // The consumers.

  lemma TakeInv<T, U>(p: Plant<T, U>, s: State<T, U>, i: nat)
    requires Inv(p, s) && i < |s.consumers| && s.consumers[i].Taking? && s.fifo != []
    ensures Inv(p, Take(s, i))
  {
    SlotsTake(p, s.buffer, s.holder, s.consumers, i, s.fifo[0], s.curr, s.nextToWrite + p.max);
    assert !Take(s, i).consumers[i].WaitNotEmpty?;
  }

  lemma TurnAwayInv<T, U>(p: Plant<T, U>, s: State<T, U>, i: nat)
    requires Inv(p, s) && i < |s.consumers| && s.consumers[i].Taking? && s.fifo == []
    ensures Inv(p, Place(s, i, if s.done then Gone else WaitNotEmpty))
  {
    SlotsPlace(p, s.buffer, s.holder, s.consumers, i, if s.done then Gone
      else WaitNotEmpty, s.curr, s.nextToWrite + p.max);
  }

  /** A consumer goes on with the block that it has. */
  lemma WorkInv<T, U>(p: Plant<T, U>, s: State<T, U>, i: nat, d: Consumer<T, U>)
    requires Inv(p, s) && i < |s.consumers| && Busy(s.consumers[i]) && Busy(d) && Like(p, s.consumers[i], d)
    requires d.WaitRoom? ==> d.c.num >= s.nextToWrite + p.max
    ensures Inv(p, Place(s, i, d))
  {
    SlotsPlace(p, s.buffer, s.holder, s.consumers, i, d, s.curr, s.nextToWrite + p.max);
    assert !Place(s, i, d).consumers[i].WaitNotEmpty?;
  }

  lemma StoreInv<T, U>(p: Plant<T, U>, s: State<T, U>, i: nat)
    requires Inv(p, s) && i < |s.consumers| && s.consumers[i].Storing? && s.consumers[i].c.num < s.nextToWrite + p.max
    ensures var c := s.consumers[i].c; var x := Rings.Slot(c.num, p.max);
      && OutputPos(p.max, s.posToWrite, s.nextToWrite, c.num) == x && s.buffer[x].Empty?
      && Store(p, s, i, c) == Goes(Place(s, i, Taking).(buffer := s.buffer[x := Full(c)]))
      && Inv(p, Store(p, s, i, c).s)
  {
    var c := s.consumers[i].c;
    assert HasBlock(p, s.buffer, s.holder, s.curr, i, c.num);
    PosIsSlot(p.max, s.nextToWrite, c.num);
    SlotsStore(p, s.buffer, s.holder, s.consumers, i, c, s.curr, s.nextToWrite + p.max);
    assert !s.consumers[i := Taking][i].WaitNotEmpty?;
  }

  lemma ConsumerKeeps<T, U>(p: Plant<T, U>, s: State<T, U>, i: nat)
    requires Inv(p, s) && i < |s.consumers|
    ensures !ConsumerStep(p, s, i).Crash? && (ConsumerStep(p, s, i).Goes? ==> Inv(p, ConsumerStep(p, s, i).s))
  {
    match s.consumers[i]
    case Taking => if s.fifo != [] { TakeInv(p, s, i); } else { TurnAwayInv(p, s, i); }
    case Compressing(b) => WorkInv(p, s, i, Storing(Block(b.num, p.compress(b.data))));
    case Storing(c) => if c.num - p.max >= s.nextToWrite { WorkInv(p, s, i, WaitRoom(c)); } else { StoreInv(p, s, i); }
    case _ =>
  }

  // The writer.

  lemma WriteInv<T, U>(p: Plant<T, U>, s: State<T, U>)
    requires Inv(p, s) && s.writer.Write?
    ensures WriterStep(p, s).Goes? && Inv(p, WriterStep(p, s).s)
  {
    SlotsWrite(p, s.buffer, s.holder, s.consumers, s.curr, s.nextToWrite + p.max);
    SlotNext(s.curr, p.max);
    assert Stored(p, |s.holder|, s.curr, s.nextToWrite + p.max, s.pos, s.buffer[s.pos].b);
  }

  lemma UpdateInv<T, U>(p: Plant<T, U>, s: State<T, U>)
    requires Inv(p, s) && s.writer.Update?
    ensures Inv(p, WriterStep(p, s).s)
  {
    var ds := RoomForAll(s.consumers);
    SlotsLike(p, s.buffer, s.holder, s.consumers, ds, s.curr, s.nextToWrite + p.max);
    SlotsMore(p, s.buffer, s.holder, ds, s.curr, s.nextToWrite + p.max);
    UpdateAttended(s.consumers);
  }

  lemma UpdateAttended<T, U>(cs: seq<Consumer<T, U>>)
    ensures Attended(cs) ==> Attended(RoomForAll(cs))
  {
    if Attended(cs) {
      var i :| 0 <= i < |cs| && !cs[i].WaitNotEmpty?;
      assert !RoomForAll(cs)[i].WaitNotEmpty?;
    }
  }

  lemma LookInv<T, U>(p: Plant<T, U>, s: State<T, U>)
    requires Inv(p, s) && (s.writer.Check? || s.writer.Look?)
    ensures Inv(p, WriterStep(p, s).s)
  {
  }

  lemma WriterKeeps<T, U>(p: Plant<T, U>, s: State<T, U>)
    requires Inv(p, s)
    ensures !WriterStep(p, s).Crash? && (WriterStep(p, s).Goes? ==> Inv(p, WriterStep(p, s).s))
  {
    match s.writer
    case Check => LookInv(p, s);
    case Look => LookInv(p, s);
    case Write => WriteInv(p, s);
    case Update => UpdateInv(p, s);
    case Finished =>
  }
}
