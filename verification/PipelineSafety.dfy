/** What every step of the pipeline keeps. */
module PipelineSafety {
  import opened Rings
  import opened Pipeline

  /** The worker holds a stream that it has taken but not yet sorted. */
  predicate Busy(w: Worker) {
    w.Got? || w.WaitOut? || w.WokenOut? || w.Sorting?
  }

  function BusyCount(ws: seq<Worker>): nat {
    if ws == [] then 0 else BusyCount(ws[..|ws| - 1]) + if Busy(ws[|ws| - 1]) then 1 else 0
  }

  /** The worker is between taking the allocation mutex and giving it back. */
  predicate Locking(w: Worker) {
    w.WaitIn? || w.WokenIn? || w.Got? || w.WaitOut? || w.WokenOut?
  }

  /** The worker has an output slot to fill. */
  predicate Slotted(w: Worker) {
    w.Sorting? || w.Storing?
  }

  /** How many streams the writer has written, also before it moves the tail. */
  function Written<T, L, W>(s: State<T, L, W>): nat {
    s.flushed + if s.writer.Advancing? then 1 else 0
  }

  /** Counters and ring positions. */
  ghost predicate Counts<T, L, W>(p: Plant<T, L, W>, s: State<T, L, W>) {
    && Sized(p, s) && Written(s) <= s.allotted <= s.taken <= s.presented && s.taken <= s.allotted + 1
    && s.allotted <= s.flushed + p.outCount
    && s.inHead == Slot(s.presented, p.inCount) && s.inTail == Tail(s.taken, s.presented, p.inCount)
    && s.outHead == Slot(s.allotted, p.outCount) && s.outTail == Tail(s.flushed, s.allotted, p.outCount)
    && 0 <= s.inFree == p.inCount - (s.presented - s.taken) - BusyCount(s.workers)
  }

  /** The input ring holds streams `lo..hi`. */
  ghost predicate InRing(c: nat, ring: seq<nat>, lo: nat, hi: nat) {
    0 < c == |ring| && forall k {:trigger Slot(k, c)} :: lo <= k < hi ==> ring[Slot(k, c)] == k
  }

  /** The newest stream whose slot of the input ring is in use. */
  function Newest<T, L, W>(s: State<T, L, W>): nat {
    s.presented + if s.reader.Filling? || s.reader.Present? then 1 else 0
  }

  /** The allocation mutex: who holds it, and where that worker is. */
  ghost predicate Locks(c: nat, lock: Option, ws: seq<Worker>, presented: nat, taken: nat, allotted: nat,
        flushed: nat)
  {
    && (forall i {:trigger ws[i]} :: 0 <= i < |ws| ==> (Locking(ws[i]) <==> lock == Some(i)))
    && (lock == None ==> taken == allotted)
    && (lock.Some? ==> lock.k < |ws| && LockPlace(c, ws[lock.k], presented, taken, allotted, flushed))
  }

  predicate LockPlace(c: nat, w: Worker, presented: nat, taken: nat, allotted: nat, flushed: nat) {
    match w
    case WaitIn => taken == allotted && taken == presented
    case WokenIn => taken == allotted && taken < presented
    case Got(k) => taken == allotted + 1 && k == allotted
    case WaitOut(k) => taken == allotted + 1 && k == allotted && allotted == flushed + c
    case WokenOut(k) => taken == allotted + 1 && k == allotted && allotted < flushed + c
    case _ => false
  }

  /** The output ring: every stream in `lo..hi` is in its slot or with its worker, and the other slots are empty. */
  ghost predicate Slots(c: nat, ring: seq<Option>, holder: seq<nat>, ws: seq<Worker>, lo: nat) {
    && 0 < c == |ring| && lo <= |holder| <= lo + c
    && (forall i {:trigger ws[i]} :: 0 <= i < |ws| && Slotted(ws[i]) ==>
      HasSlot(c, ring, holder, lo, i, ws[i].k, ws[i].slot))
    && (forall k {:trigger holder[k]} :: lo <= k < |holder| ==> Placed(c, ring, ws, holder[k], k))
    && (forall k {:trigger Slot(k, c)} :: |holder| <= k < lo + c ==> ring[Slot(k, c)] == None)
  }

  ghost predicate HasSlot(c: nat, ring: seq<Option>, holder: seq<nat>, lo: nat, i: nat, k: nat, slot: nat)
    requires 0 < c == |ring|
  {
    lo <= k < |holder| && slot == Slot(k, c) && holder[k] == i && ring[slot] == None
  }

  ghost predicate Placed(c: nat, ring: seq<Option>, ws: seq<Worker>, i: nat, k: nat)
    requires 0 < c == |ring|
  {
    ring[Slot(k, c)] == Some(k) || (ring[Slot(k, c)] == None && i < |ws| && Slotted(ws[i]) && ws[i].k == k)
  }

  /** Streams not yet sorted are as the reader made them, and those beyond are computed. */
  ghost predicate Contents<T, L, W>(p: Plant<T, L, W>, streams: seq<T>, ws: seq<Worker>, ring: seq<Option>,
        allotted: nat)
  {
    && (forall k {:trigger streams[k]} :: allotted <= k < |streams| ==> streams[k] == Job(p, k))
    && (forall i {:trigger ws[i]} :: 0 <= i < |ws| && Slotted(ws[i]) ==>
          ws[i].k < |streams| && streams[ws[i].k] == if ws[i].Sorting? then Job(p, ws[i].k)
            else p.compute(Job(p, ws[i].k)))
    && (forall x {:trigger ring[x]} :: 0 <= x < |ring| && ring[x].Some? ==>
          ring[x].k < |streams| && streams[ring[x].k] == p.compute(Job(p, ring[x].k)))
  }

  /** Where the reader and the writer are with their own data. */
  ghost predicate Locals<T, L, W>(p: Plant<T, L, W>, s: State<T, L, W>) {
    && |s.streams| == s.presented + (if s.reader.Present? then 1 else 0) && s.local == LocalAt(p, |s.streams|)
    && s.out == OutAt(p, Written(s)) && |s.holder| == s.allotted
  }

  predicate Drained(r: Reader) {
    r.AwaitFreed? || r.WaitFreed? || r.AwaitWritten? || r.WaitWritten? || r.Exited?
  }

  /** No stream but the newest is the last, and once that is the last the reader makes no more. */
  ghost predicate Lasts<T, L, W>(p: Plant<T, L, W>, presented: nat, drained: bool) {
    && (forall k {:trigger Job(p, k)} :: 0 <= k < presented - 1 ==> !p.last(Job(p, k)))
    && (if presented > 0 then p.last(Job(p, presented - 1)) <==> drained else !drained)
  }

  /** Nobody waits without a reason, and nobody goes on without one. */
  ghost predicate Waits<T, L, W>(p: Plant<T, L, W>, s: State<T, L, W>) {
    && (s.reader.WaitFree? ==> s.inFree == 0)
    && (s.reader.WokenFree? || s.reader.Filling? || s.reader.Present? ==> s.inFree >= 1)
    && (s.reader.WaitFreed? ==> s.inFree != p.inCount)
    && (s.reader.AwaitWritten? || s.reader.WaitWritten? || s.reader.Exited? ==> s.inFree == p.inCount)
    && (s.reader.WaitWritten? ==> s.flushed < s.allotted) && (s.reader.Exited? ==> s.flushed == s.allotted)
    && 0 < p.outCount == |s.outRing|
    && (s.writer.WaitFlush? ==> s.flushed == s.allotted || s.outRing[Slot(s.flushed, p.outCount)] == None)
    && (s.writer.Have? ==> s.flushed < s.allotted && s.outRing[Slot(s.flushed, p.outCount)] == Some(s.flushed))
  }

  ghost predicate Inv<T, L, W>(p: Plant<T, L, W>, s: State<T, L, W>) {
    && Counts(p, s) && Locals(p, s) && Waits(p, s) && Lasts(p, s.presented, Drained(s.reader))
    && InRing(p.inCount, s.inRing, s.taken, Newest(s))
    && Locks(p.outCount, s.lock, s.workers, s.presented, s.taken, s.allotted, s.flushed)
    && Slots(p.outCount, s.outRing, s.holder, s.workers, Written(s))
    && Contents(p, s.streams, s.workers, s.outRing, s.allotted)
  }

  lemma {:induction false} NoneBusy(ws: seq<Worker>)
    requires forall i {:trigger ws[i]} :: 0 <= i < |ws| ==> !Busy(ws[i])
    ensures BusyCount(ws) == 0
  {
    if ws != [] { NoneBusy(ws[..|ws| - 1]); }
  }

  lemma {:induction false} SomeBusy(ws: seq<Worker>, i: nat)
    requires i < |ws| && Busy(ws[i])
    ensures BusyCount(ws) > 0
  {
    if i < |ws| - 1 { SomeBusy(ws[..|ws| - 1], i); }
  }

  lemma {:induction false} BusyChange(ws: seq<Worker>, i: nat, w: Worker)
    requires i < |ws|
    ensures BusyCount(ws[i := w]) == BusyCount(ws) - (if Busy(ws[i]) then 1 else 0) + (if Busy(w) then 1 else 0)
  {
    if i < |ws| - 1 {
      assert ws[i := w][..|ws| - 1] == ws[..|ws| - 1][i := w];
      BusyChange(ws[..|ws| - 1], i, w);
    } else {
      assert ws[i := w][..|ws| - 1] == ws[..|ws| - 1];
    }
  }

  // The output ring and the streams under each change.

  /** A worker moves that has no slot before or after. */
  lemma SlotsPlace<T, L, W>(p: Plant<T, L, W>, c: nat, ring: seq<Option>, holder: seq<nat>, ws: seq<Worker>, lo: nat,
        streams: seq<T>, i: nat, w: Worker)
    requires Slots(c, ring, holder, ws, lo) && Contents(p, streams, ws, ring, |holder|) && i < |ws| && !Slotted(ws[i])
      && !Slotted(w)
    ensures Slots(c, ring, holder, ws[i := w], lo) && Contents(p, streams, ws[i := w], ring, |holder|)
  {
    var vs := ws[i := w];
    forall k {:trigger holder[k]} | lo <= k < |holder| ensures Placed(c, ring, vs, holder[k], k) {
      assert Placed(c, ring, ws, holder[k], k);
    }
  }

  lemma SlotsAllot<T, L, W>(p: Plant<T, L, W>, c: nat, ring: seq<Option>, holder: seq<nat>, ws: seq<Worker>, lo: nat,
        streams: seq<T>, i: nat)
    requires Slots(c, ring, holder, ws, lo) && Contents(p, streams, ws, ring, |holder|) && i < |ws| && !Slotted(ws[i])
    requires |holder| < lo + c && |holder| < |streams|
    ensures var w := Sorting(|holder|, Slot(|holder|, c));
      Slots(c, ring, holder + [i], ws[i := w], lo) && Contents(p, streams, ws[i := w], ring, |holder| + 1)
  {
    var n := |holder|;
    var vs, hs := ws[i := Sorting(n, Slot(n, c))], holder + [i];
    assert ring[Slot(n, c)] == None;
    forall k {:trigger hs[k]} | lo <= k < |hs| ensures Placed(c, ring, vs, hs[k], k) {
      if k < n { assert hs[k] == holder[k]; assert Placed(c, ring, ws, holder[k], k); }
    }
    assert streams[n] == Job(p, n);
  }

  lemma SlotsSort<T, L, W>(p: Plant<T, L, W>, c: nat, ring: seq<Option>, holder: seq<nat>, ws: seq<Worker>, lo: nat,
        streams: seq<T>, i: nat)
    requires Slots(c, ring, holder, ws, lo) && Contents(p, streams, ws, ring, |holder|) && i < |ws| && ws[i].Sorting?
    ensures var k := ws[i].k; var vs := ws[i := Storing(k, ws[i].slot)];
      k < |streams| && Slots(c, ring, holder, vs, lo)
        && Contents(p, streams[k := p.compute(streams[k])], vs, ring, |holder|)
  {
    var n, slot := ws[i].k, ws[i].slot;
    var vs, ts := ws[i := Storing(n, slot)], streams[n := p.compute(streams[n])];
    assert HasSlot(c, ring, holder, lo, i, n, slot);
    forall k {:trigger holder[k]} | lo <= k < |holder| ensures Placed(c, ring, vs, holder[k], k) {
      assert Placed(c, ring, ws, holder[k], k);
    }
    SlotsApart(lo, c);
    forall x {:trigger ring[x]} | 0 <= x < |ring| && ring[x].Some?
      ensures ring[x].k < |ts| && ts[ring[x].k] == p.compute(Job(p, ring[x].k))
    {
      RingHolds(c, ring, holder, ws, lo, x);
    }
  }

  /** Only streams in `lo..` are in the ring, each in its own slot. */
  lemma RingHolds(c: nat, ring: seq<Option>, holder: seq<nat>, ws: seq<Worker>, lo: nat, x: nat)
    requires Slots(c, ring, holder, ws, lo) && x < c && ring[x].Some?
    ensures lo <= ring[x].k < |holder| && x == Slot(ring[x].k, c)
  {
    var k := SlotTaken(lo, c, x);
    if k < |holder| { assert Placed(c, ring, ws, holder[k], k); }
  }

  /** Every slot belongs to one of any `c` items in a row. */
  lemma {:induction false} SlotTaken(lo: nat, c: nat, x: nat) returns (k: nat)
    requires x < c
    ensures lo <= k < lo + c && Slot(k, c) == x
  {
    if lo == 0 { k := x; } else {
      k := SlotTaken(lo - 1, c, x);
      if k == lo - 1 {
        SlotRound(k, c);
        k := k + c;
      }
    }
  }

  lemma SlotsStore<T, L, W>(p: Plant<T, L, W>, c: nat, ring: seq<Option>, holder: seq<nat>, ws: seq<Worker>, lo: nat,
        streams: seq<T>, i: nat)
    requires Slots(c, ring, holder, ws, lo) && Contents(p, streams, ws, ring, |holder|) && i < |ws| && ws[i].Storing?
    ensures var k, slot, vs := ws[i].k, ws[i].slot, ws[i := Idle];
      slot < c && Slots(c, ring[slot := Some(k)], holder, vs, lo)
        && Contents(p, streams, vs, ring[slot := Some(k)], |holder|)
  {
    var n, slot, vs := ws[i].k, ws[i].slot, ws[i := Idle];
    var rs := ring[slot := Some(n)];
    assert HasSlot(c, ring, holder, lo, i, n, slot);
    SlotsApart(lo, c);
    forall k {:trigger holder[k]} | lo <= k < |holder| ensures Placed(c, rs, vs, holder[k], k) {
      assert Placed(c, ring, ws, holder[k], k);
    }
    forall j {:trigger vs[j]} | 0 <= j < |vs| && Slotted(vs[j])
      ensures HasSlot(c, rs, holder, lo, j, vs[j].k, vs[j].slot) {
      assert HasSlot(c, ring, holder, lo, j, ws[j].k, ws[j].slot);
    }
  }

  lemma SlotsWrite<T, L, W>(p: Plant<T, L, W>, c: nat, ring: seq<Option>, holder: seq<nat>, ws: seq<Worker>, lo: nat,
        streams: seq<T>)
    requires Slots(c, ring, holder, ws, lo) && Contents(p, streams, ws, ring, |holder|) && lo < |holder|
      && ring[Slot(lo, c)] == Some(lo)
    ensures var rs := ring[Slot(lo, c) := None];
      Slots(c, rs, holder, ws, lo + 1) && Contents(p, streams, ws, rs, |holder|)
  {
    var rs, next := ring[Slot(lo, c) := None], lo + 1;
    SlotsApart(lo, c);
    SlotRound(lo, c);
    forall k {:trigger holder[k]} | next <= k < |holder| ensures Placed(c, rs, ws, holder[k], k) {
      assert Placed(c, ring, ws, holder[k], k);
    }
    forall j {:trigger ws[j]} | 0 <= j < |ws| && Slotted(ws[j])
      ensures HasSlot(c, rs, holder, next, j, ws[j].k, ws[j].slot) {
      assert HasSlot(c, ring, holder, lo, j, ws[j].k, ws[j].slot);
    }
    forall k {:trigger Slot(k, c)} | |holder| <= k < next + c ensures rs[Slot(k, c)] == None {}
  }

  /** One more stream is presented, and the waiter for it, if there is one, is woken. */
  lemma LocksShow(c: nat, lock: Option, ws: seq<Worker>, presented: nat, taken: nat, allotted: nat, flushed: nat)
    requires Locks(c, lock, ws, presented, taken, allotted, flushed) && taken <= presented
    ensures lock.Some? && ws[lock.k].WaitIn?
            ==> taken == presented && Locks(c, lock, ws[lock.k := WokenIn], presented + 1, taken, allotted, flushed)
    ensures !(lock.Some? && ws[lock.k].WaitIn?) ==> Locks(c, lock, ws, presented + 1, taken, allotted, flushed)
  {
  }

  /** One more stream is written, and the waiter for its slot, if there is one, is woken. */
  lemma LocksFlush(c: nat, lock: Option, ws: seq<Worker>, presented: nat, taken: nat, allotted: nat, flushed: nat)
    requires Locks(c, lock, ws, presented, taken, allotted, flushed) && allotted <= flushed + c
    ensures lock.Some? && ws[lock.k].WaitOut?
            ==> Locks(c, lock, ws[lock.k := WokenOut(ws[lock.k].k)], presented, taken, allotted, flushed + 1)
    ensures !(lock.Some? && ws[lock.k].WaitOut?) ==> Locks(c, lock, ws, presented, taken, allotted, flushed + 1)
  {
  }

  lemma LastsShow<T, L, W>(p: Plant<T, L, W>, presented: nat, t: T)
    requires Lasts(p, presented, false) && t == Job(p, presented)
    ensures Lasts(p, presented + 1, p.last(t))
  {
    var n := presented + 1;
    forall k {:trigger Job(p, k)} | 0 <= k < n - 1 ensures !p.last(Job(p, k)) {}
  }

  lemma InitInv<T, L, W>(p: Plant<T, L, W>, s: State<T, L, W>)
    requires Init(p, s)
    ensures Inv(p, s)
  {
    NoneBusy(s.workers);
  }

  lemma MakeNext<T, L, W>(p: Plant<T, L, W>, k: nat)
    ensures p.make(LocalAt(p, k)) == (Job(p, k), LocalAt(p, k + 1))
  {
  }

  lemma OutNext<T, L, W>(p: Plant<T, L, W>, k: nat)
    ensures OutAt(p, k + 1) == p.emit(OutAt(p, k), p.compute(Job(p, k)))
  {
  }

  // The allocation mutex under each change.

  /** Where the holder of the mutex is. */
  lemma LocksHeld(c: nat, lock: Option, ws: seq<Worker>, presented: nat, taken: nat, allotted: nat, flushed: nat)
    requires Locks(c, lock, ws, presented, taken, allotted, flushed)
    ensures lock.Some? ==>
      && lock.k < |ws| && Locking(ws[lock.k])
      && LockPlace(c, ws[lock.k], presented, taken, allotted, flushed)
    ensures lock == None ==> taken == allotted
  {
  }

  /** A worker in the middle of its allocation holds the mutex. */
  lemma LocksOwn(c: nat, lock: Option, ws: seq<Worker>, presented: nat, taken: nat, allotted: nat, flushed: nat, i: nat)
    requires Locks(c, lock, ws, presented, taken, allotted, flushed) && i < |ws| && Locking(ws[i])
    ensures lock == Some(i) && LockPlace(c, ws[i], presented, taken, allotted, flushed)
  {
  }

  /** A worker moves that has nothing to do with the mutex. */
  lemma LocksAside(c: nat, lock: Option, ws: seq<Worker>, presented: nat, taken: nat, allotted: nat, flushed: nat,
        i: nat, w: Worker)
    requires Locks(c, lock, ws, presented, taken, allotted, flushed) && i < |ws| && !Locking(ws[i]) && !Locking(w)
    ensures Locks(c, lock, ws[i := w], presented, taken, allotted, flushed)
  {
  }

  /** The holder, or a worker that takes the free mutex, moves to another place in its allocation. */
  lemma LocksMove(c: nat, lock: Option, ws: seq<Worker>, presented: nat, taken: nat, allotted: nat, flushed: nat,
        i: nat, w: Worker, taken': nat)
    requires Locks(c, lock, ws, presented, taken, allotted, flushed) && i < |ws| && (lock == None || lock == Some(i))
      && Locking(w)
    requires LockPlace(c, w, presented, taken', allotted, flushed)
    ensures Locks(c, Some(i), ws[i := w], presented, taken', allotted, flushed)
  {
  }

  /** The holder gives the mutex back with a slot allotted. */
  lemma LocksFree(c: nat, lock: Option, ws: seq<Worker>, presented: nat, taken: nat, allotted: nat, flushed: nat,
        i: nat, w: Worker)
    requires Locks(c, lock, ws, presented, taken, allotted, flushed) && i < |ws| && Locking(ws[i]) && !Locking(w)
      && taken == allotted + 1
    ensures Locks(c, None, ws[i := w], presented, taken, allotted + 1, flushed)
  {
  }

  // The input ring under each change.

  lemma RingMore(c: nat, ring: seq<nat>, lo: nat, hi: nat)
    requires InRing(c, ring, lo, hi) && lo <= hi < lo + c
    ensures InRing(c, ring[Slot(hi, c) := hi], lo, hi + 1)
  {
    SlotsApart(lo, c);
  }

  lemma RingLess(c: nat, ring: seq<nat>, lo: nat, hi: nat)
    requires InRing(c, ring, lo, hi) && lo < hi
    ensures InRing(c, ring, lo + 1, hi) && ring[Slot(lo, c)] == lo
  {
  }

  /** The newest stream is as the reader made it. */
  lemma ContentsNewest<T, L, W>(p: Plant<T, L, W>, streams: seq<T>, ws: seq<Worker>, ring: seq<Option>, allotted: nat,
        k: nat)
    requires Contents(p, streams, ws, ring, allotted) && allotted <= k < |streams|
    ensures streams[k] == Job(p, k)
  {
  }

  /** One more stream is made. */
  lemma ContentsMore<T, L, W>(p: Plant<T, L, W>, streams: seq<T>, ws: seq<Worker>, ring: seq<Option>, allotted: nat,
        t: T)
    requires Contents(p, streams, ws, ring, allotted) && t == Job(p, |streams|)
    ensures Contents(p, streams + [t], ws, ring, allotted)
  {
    hide Job;
    var ts := streams + [t];
    forall i {:trigger ws[i]} | 0 <= i < |ws| && Slotted(ws[i])
      ensures ws[i].k < |ts| && ts[ws[i].k] == if ws[i].Sorting? then Job(p, ws[i].k) else p.compute(Job(p, ws[i].k)) {}
    forall x {:trigger ring[x]} | 0 <= x < |ring| && ring[x].Some?
      ensures ring[x].k < |ts| && ts[ring[x].k] == p.compute(Job(p, ring[x].k)) {}
  }

  // The reader.

  lemma TakeSlotInv<T, L, W>(p: Plant<T, L, W>, s: State<T, L, W>)
    requires Inv(p, s) && (s.reader.Start? || s.reader.WokenFree?) && s.inFree >= 1
    ensures Inv(p, TakeSlot(s))
  {
    hide Slots, Contents, InRing, Lasts, Locks, BusyCount, Slot, LocalAt, OutAt, Job;
    RingMore(p.inCount, s.inRing, s.taken, s.presented);
  }

  lemma FillInv<T, L, W>(p: Plant<T, L, W>, s: State<T, L, W>)
    requires Inv(p, s) && s.reader.Filling?
    ensures Inv(p, ReaderStep(p, s).s)
  {
    hide Slots, Contents, InRing, Lasts, Locks, BusyCount, Slot, LocalAt, OutAt, Job;
    MakeNext(p, |s.streams|);
    ContentsMore(p, s.streams, s.workers, s.outRing, s.allotted, Job(p, |s.streams|));
  }

  lemma ShowInv<T, L, W>(p: Plant<T, L, W>, s: State<T, L, W>)
    requires Inv(p, s) && s.reader.Present?
    ensures s.presented < |s.streams| && Inv(p, ShowStream(p, s))
  {
    hide Slots, Contents, InRing, Lasts, Locks, BusyCount, Slot, LocalAt, OutAt, Job;
    SlotNext(s.presented, p.inCount);
    ContentsNewest(p, s.streams, s.workers, s.outRing, s.allotted, s.presented);
    LastsShow(p, s.presented, s.streams[s.presented]);
    LocksHeld(p.outCount, s.lock, s.workers, s.presented, s.taken, s.allotted, s.flushed);
    LocksShow(p.outCount, s.lock, s.workers, s.presented, s.taken, s.allotted, s.flushed);
    if s.lock.Some? && s.workers[s.lock.k].WaitIn? {
      BusyChange(s.workers, s.lock.k, WokenIn);
      SlotsPlace(p, p.outCount, s.outRing, s.holder, s.workers, Written(s), s.streams, s.lock.k, WokenIn);
    }
  }

  lemma AwaitInv<T, L, W>(p: Plant<T, L, W>, s: State<T, L, W>)
    requires Inv(p, s) && (s.reader.AwaitFreed? || s.reader.AwaitWritten?)
    ensures Inv(p, ReaderStep(p, s).s)
  {
    hide Slots, Contents, InRing, Lasts, Locks, BusyCount, Slot, LocalAt, OutAt, Job;
    NothingLeft(p, s);
  }

  /** The output ring is empty when its tail says so. */
  lemma NothingLeft<T, L, W>(p: Plant<T, L, W>, s: State<T, L, W>)
    requires Inv(p, s)
    ensures s.outTail == -1 <==> s.flushed == s.allotted
  {
    hide Slots, Contents, InRing, Lasts, Locks, BusyCount, LocalAt, OutAt, Job;
  }

  // The workers.

  lemma WaitInInv<T, L, W>(p: Plant<T, L, W>, s: State<T, L, W>, i: nat)
    requires Inv(p, s) && i < |s.workers| && s.workers[i].Idle? && s.lock == None && s.inTail == -1
    ensures Inv(p, Place(s, i, WaitIn).(lock := Some(i)))
  {
    hide Slots, Contents, InRing, Lasts, Locks, BusyCount, Slot, LocalAt, OutAt, Job;
    LocksHeld(p.outCount, s.lock, s.workers, s.presented, s.taken, s.allotted, s.flushed);
    LocksMove(p.outCount, s.lock, s.workers, s.presented, s.taken, s.allotted, s.flushed, i, WaitIn, s.taken);
    BusyChange(s.workers, i, WaitIn);
    SlotsPlace(p, p.outCount, s.outRing, s.holder, s.workers, Written(s), s.streams, i, WaitIn);
  }

  lemma TakeInv<T, L, W>(p: Plant<T, L, W>, s: State<T, L, W>, i: nat)
    requires Inv(p, s) && i < |s.workers| && s.inTail != -1
    requires s.workers[i].WokenIn? || (s.workers[i].Idle? && s.lock == None)
    ensures Inv(p, TakeStream(p, s.(lock := Some(i)), i).s)
  {
    hide Slots, Contents, InRing, Lasts, Locks, BusyCount, Slot, LocalAt, OutAt, Job;
    LocksHeld(p.outCount, s.lock, s.workers, s.presented, s.taken, s.allotted, s.flushed);
    if s.workers[i].WokenIn? { LocksOwn(p.outCount, s.lock, s.workers, s.presented, s.taken, s.allotted, s.flushed, i);
      }
    LocksMove(p.outCount, s.lock, s.workers, s.presented, s.taken, s.allotted, s.flushed, i, Got(s.taken), s.taken + 1);
    SlotNext(s.taken, p.inCount);
    SlotsSame(s.taken + 1, s.presented, p.inCount);
    RingLess(p.inCount, s.inRing, s.taken, Newest(s));
    BusyChange(s.workers, i, Got(s.taken));
    SlotsPlace(p, p.outCount, s.outRing, s.holder, s.workers, Written(s), s.streams, i, Got(s.taken));
  }

  /** Head and tail meet exactly when the ring is empty or full. */
  lemma SlotsSame(lo: nat, hi: nat, c: nat)
    requires 0 < c && lo <= hi <= lo + c
    ensures Slot(lo, c) == Slot(hi, c) <==> lo == hi || hi == lo + c
  {
    if hi == lo + c { SlotRound(lo, c); } else { SlotsApart(lo, c); }
  }

  lemma WaitOutInv<T, L, W>(p: Plant<T, L, W>, s: State<T, L, W>, i: nat)
    requires Inv(p, s) && i < |s.workers| && s.workers[i].Got? && s.outHead == s.outTail
    ensures Inv(p, Place(s, i, WaitOut(s.workers[i].k)))
  {
    hide Slots, Contents, InRing, Lasts, Locks, BusyCount, Slot, LocalAt, OutAt, Job;
    LocksOwn(p.outCount, s.lock, s.workers, s.presented, s.taken, s.allotted, s.flushed, i);
    SlotsSame(s.flushed, s.allotted, p.outCount);
    LocksMove(p.outCount, s.lock, s.workers, s.presented, s.taken, s.allotted, s.flushed, i, WaitOut(s.workers[i].k),
      s.taken);
    BusyChange(s.workers, i, WaitOut(s.workers[i].k));
    SlotsPlace(p, p.outCount, s.outRing, s.holder, s.workers, Written(s), s.streams, i, WaitOut(s.workers[i].k));
  }

  lemma AllotInv<T, L, W>(p: Plant<T, L, W>, s: State<T, L, W>, i: nat)
    requires Inv(p, s) && i < |s.workers| && ((s.workers[i].Got? && s.outHead != s.outTail) || s.workers[i].WokenOut?)
    ensures Inv(p, AllotSlot(p, s, i, s.workers[i].k))
  {
    hide Slots, Contents, InRing, Lasts, Locks, BusyCount, Slot, LocalAt, OutAt, Job;
    LocksOwn(p.outCount, s.lock, s.workers, s.presented, s.taken, s.allotted, s.flushed, i);
    LocksFree(p.outCount, s.lock, s.workers, s.presented, s.taken, s.allotted, s.flushed, i,
      Sorting(s.allotted, s.outHead));
    SlotNext(s.allotted, p.outCount);
    SlotsSame(s.flushed, s.allotted, p.outCount);
    FreeSlot(p.outCount, s.outRing, s.holder, s.workers, Written(s));
    SomeBusy(s.workers, i);
    BusyChange(s.workers, i, Sorting(s.allotted, s.outHead));
    SlotsAllot(p, p.outCount, s.outRing, s.holder, s.workers, Written(s), s.streams, i);
  }

  lemma SortInv<T, L, W>(p: Plant<T, L, W>, s: State<T, L, W>, i: nat)
    requires Inv(p, s) && i < |s.workers| && s.workers[i].Sorting?
    ensures s.workers[i].k < |s.streams| && Inv(p, SortStream(p, s, i, s.workers[i].k, s.workers[i].slot))
  {
    hide Slots, Contents, InRing, Lasts, Locks, BusyCount, Slot, LocalAt, OutAt, Job;
    LocksAside(p.outCount, s.lock, s.workers, s.presented, s.taken, s.allotted, s.flushed, i,
      Storing(s.workers[i].k, s.workers[i].slot));
    SomeBusy(s.workers, i);
    BusyChange(s.workers, i, Storing(s.workers[i].k, s.workers[i].slot));
    SlotsSort(p, p.outCount, s.outRing, s.holder, s.workers, Written(s), s.streams, i);
  }

  lemma StoreInv<T, L, W>(p: Plant<T, L, W>, s: State<T, L, W>, i: nat)
    requires Inv(p, s) && i < |s.workers| && s.workers[i].Storing?
    ensures s.workers[i].slot < p.outCount && Inv(p, StoreStream(s, i, s.workers[i].k, s.workers[i].slot))
  {
    hide Slots, Contents, InRing, Lasts, Locks, BusyCount, Slot, LocalAt, OutAt, Job;
    LocksAside(p.outCount, s.lock, s.workers, s.presented, s.taken, s.allotted, s.flushed, i, Idle);
    BusyChange(s.workers, i, Idle);
    SlotsStore(p, p.outCount, s.outRing, s.holder, s.workers, Written(s), s.streams, i);
    StoreSlot(p.outCount, s.outRing, s.holder, s.workers, Written(s), i);
    SlotsSame(s.flushed, s.workers[i].k, p.outCount);
  }

  /** The slot to be allotted next is empty. */
  lemma FreeSlot(c: nat, ring: seq<Option>, holder: seq<nat>, ws: seq<Worker>, lo: nat)
    requires Slots(c, ring, holder, ws, lo) && |holder| < lo + c
    ensures ring[Slot(|holder|, c)] == None
  {
  }

  /** The slot that a worker fills is its own and still empty. */
  lemma StoreSlot(c: nat, ring: seq<Option>, holder: seq<nat>, ws: seq<Worker>, lo: nat, i: nat)
    requires Slots(c, ring, holder, ws, lo) && i < |ws| && Slotted(ws[i])
    ensures lo <= ws[i].k < |holder| && ws[i].slot == Slot(ws[i].k, c) && ring[ws[i].slot] == None
  {
    assert HasSlot(c, ring, holder, lo, i, ws[i].k, ws[i].slot);
  }

  // The writer.

  lemma CheckInv<T, L, W>(p: Plant<T, L, W>, s: State<T, L, W>)
    requires Inv(p, s) && s.writer.Check?
    ensures Inv(p, Recheck(s))
  {
    hide Slots, Contents, InRing, Lasts, Locks, BusyCount, Slot, LocalAt, OutAt, Job;
    TailPlaced(p, s);
  }

  /** The oldest stream not yet written is with its worker or in its slot. */
  lemma TailPlaced<T, L, W>(p: Plant<T, L, W>, s: State<T, L, W>)
    requires Inv(p, s)
    ensures Written(s) < s.allotted ==>
      var x := s.outRing[Slot(Written(s), p.outCount)]; x == None || x == Some(Written(s))
  {
    if Written(s) < s.allotted {
      assert Placed(p.outCount, s.outRing, s.workers, s.holder[Written(s)], Written(s));
    }
  }

  lemma WriteInv<T, L, W>(p: Plant<T, L, W>, s: State<T, L, W>)
    requires Inv(p, s) && s.writer.Have?
    ensures WriterStep(p, s, false).Goes? && Inv(p, WriterStep(p, s, false).s)
  {
    hide Slots, Contents, InRing, Lasts, Locks, BusyCount, Slot, LocalAt, OutAt, Job;
    OutNext(p, s.flushed);
    RingComputed(p, s.streams, s.workers, s.outRing, s.allotted, Slot(s.flushed, p.outCount));
    SlotsWrite(p, p.outCount, s.outRing, s.holder, s.workers, s.flushed, s.streams);
  }

  /** What lies in the ring is computed. */
  lemma RingComputed<T, L, W>(p: Plant<T, L, W>, streams: seq<T>, ws: seq<Worker>, ring: seq<Option>, allotted: nat,
        x: nat)
    requires Contents(p, streams, ws, ring, allotted) && x < |ring| && ring[x].Some?
    ensures ring[x].k < |streams| && streams[ring[x].k] == p.compute(Job(p, ring[x].k))
  {
  }

  lemma AdvanceInv<T, L, W>(p: Plant<T, L, W>, s: State<T, L, W>, toReader: bool)
    requires Inv(p, s) && s.writer.Advancing?
    ensures s.outTail != -1 && Inv(p, AdvanceTail(p, s, toReader))
  {
    hide Slots, Contents, InRing, Lasts, Locks, BusyCount, Slot, LocalAt, OutAt, Job;
    SlotNext(s.flushed, p.outCount);
    SlotsSame(s.flushed + 1, s.allotted, p.outCount);
    TailPlaced(p, s);
    LocksHeld(p.outCount, s.lock, s.workers, s.presented, s.taken, s.allotted, s.flushed);
    LocksFlush(p.outCount, s.lock, s.workers, s.presented, s.taken, s.allotted, s.flushed);
    if s.lock.Some? && s.workers[s.lock.k].WaitOut? {
      SomeBusy(s.workers, s.lock.k);
      BusyChange(s.workers, s.lock.k, WokenOut(s.allotted));
      SlotsPlace(p, p.outCount, s.outRing, s.holder, s.workers, Written(s), s.streams, s.lock.k, WokenOut(s.allotted));
    }
  }
}
