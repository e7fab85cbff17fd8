/** bzip2smp: one reader, any number of workers and one writer over two rings, as atomic steps. */
module Pipeline {
  import opened Rings

  datatype Option = None | Some(k: nat)

  /**
   * What the threads do with their data: the reader makes one stream after another from its local state, a worker
   * computes, the writer adds to what is written.
   */
  datatype Plant<!T, !L, !W> = Plant(inCount: nat, outCount: nat, make: L -> (T, L), last: T -> bool, compute: T -> T,
        emit: (W, T) -> W,
                                     local0: L, out0: W)

  datatype Reader =
    | Start | WaitFree | WokenFree | Filling | Present | AwaitFreed | WaitFreed | AwaitWritten | WaitWritten | Exited

  datatype Worker = Idle | WaitIn | WokenIn | Got(k: nat) | WaitOut(k: nat) | WokenOut(k: nat)
    | Sorting(k: nat, slot: nat) | Storing(k: nat, slot: nat)

  datatype Writer = Check | WaitFlush | Have | Advancing

  /**
   * The shared variables, the streams that the rings point to, and each thread's place; a waiting thread goes on only
   * once signalled. The last line is history: how many streams were presented, taken, given an output slot and
   * written, and which worker took each.
   */
  datatype State<T, L, W> = State(
    inRing: seq<nat>, inHead: nat, inTail: int, inFree: int,
    outRing: seq<Option>, outHead: nat, outTail: int,
    lock: Option, reader: Reader, workers: seq<Worker>, writer: Writer,
    streams: seq<T>, local: L, out: W,
    presented: nat, taken: nat, allotted: nat, flushed: nat, holder: seq<nat>)

  /** A thread cannot go on, would use slot -1 or an empty slot, or goes to the next state. */
  datatype Move<S> = Blocked | Crash | Goes(s: S)

  predicate Sized<T, L, W>(p: Plant<T, L, W>, s: State<T, L, W>) {
    && 0 < p.inCount == |s.inRing| && 0 < p.outCount == |s.outRing| && 0 < |s.workers|
    && s.inHead < p.inCount && -1 <= s.inTail < p.inCount && s.outHead < p.outCount && -1 <= s.outTail < p.outCount
  }

  // Signals: at most one thread waits on each condition.

  /** `inChunksAvailableCondition`: the waiter holds the allocation mutex. */
  function SignalIn<T, L, W>(s: State<T, L, W>): State<T, L, W> {
    if s.lock.Some? && s.lock.k < |s.workers| && s.workers[s.lock.k].WaitIn?
    then s.(workers := s.workers[s.lock.k := WokenIn]) else s
  }

  /** `inChunksFreeCondition` */
  function SignalFree<T, L, W>(s: State<T, L, W>): State<T, L, W> {
    if s.reader.WaitFree? then s.(reader := WokenFree) else if s.reader.WaitFreed? then s.(reader := AwaitFreed) else s
  }

  /** `outChunksAvailableCondition`: a worker may wait for a slot, the reader for the end. */
  function SignalOut<T, L, W>(s: State<T, L, W>, toReader: bool): State<T, L, W> {
    if s.reader.WaitWritten? && (toReader || !(s.lock.Some? && s.lock.k < |s.workers| && s.workers[s.lock.k].WaitOut?))
    then s.(reader := AwaitWritten)
    else if s.lock.Some? && s.lock.k < |s.workers| && s.workers[s.lock.k].WaitOut?
    then s.(workers := s.workers[s.lock.k := WokenOut(s.workers[s.lock.k].k)])
    else s
  }

  /** `outChunksFlushCondition` */
  function SignalFlush<T, L, W>(s: State<T, L, W>): State<T, L, W> {
    if s.writer.WaitFlush? then s.(writer := Have) else s
  }

  // The reader.

  function TakeSlot<T, L, W>(s: State<T, L, W>): State<T, L, W>
    requires s.inHead < |s.inRing|
  {
    s.(inRing := s.inRing[s.inHead := |s.streams|], reader := Filling)
  }

  function ShowStream<T, L, W>(p: Plant<T, L, W>, s: State<T, L, W>): State<T, L, W>
    requires Sized(p, s) && s.presented < |s.streams|
  {
    var r := if s.inTail == -1 then SignalIn(s.(inTail := s.inHead)) else s;
    r.(inHead := Advance(s.inHead, p.inCount), inFree := s.inFree - 1, presented := s.presented + 1,
       reader := if p.last(s.streams[s.presented]) then AwaitFreed else Start)
  }

  function ReaderStep<T, L, W>(p: Plant<T, L, W>, s: State<T, L, W>): Move<State<T, L, W>>
    requires Sized(p, s)
  {
    match s.reader
    case Start => Goes(if s.inFree == 0 then s.(reader := WaitFree) else TakeSlot(s))
    case WokenFree => Goes(TakeSlot(s))
    case Filling => var (t, l) := p.make(s.local); Goes(s.(streams := s.streams + [t], local := l, reader := Present))
    case Present => if s.presented < |s.streams| then Goes(ShowStream(p, s)) else Crash
    case AwaitFreed => Goes(s.(reader := if s.inFree != p.inCount then WaitFreed else AwaitWritten))
    case AwaitWritten => Goes(s.(reader := if s.outTail != -1 then WaitWritten else Exited))
    case _ => Blocked
  }

  // The workers.

  function Place<T, L, W>(s: State<T, L, W>, i: nat, w: Worker): State<T, L, W>
    requires i < |s.workers|
  {
    s.(workers := s.workers[i := w])
  }

  function TakeStream<T, L, W>(p: Plant<T, L, W>, s: State<T, L, W>, i: nat): Move<State<T, L, W>>
    requires Sized(p, s) && i < |s.workers|
  {
    if s.inTail == -1 then Crash
    else
      var tail := Advance(s.inTail, p.inCount);
      Goes(Place(s, i, Got(s.inRing[s.inTail])).(inTail := if tail == s.inHead then -1 else tail, taken := s.taken + 1))
  }

  function AllotSlot<T, L, W>(p: Plant<T, L, W>, s: State<T, L, W>, i: nat, k: nat): State<T, L, W>
    requires Sized(p, s) && i < |s.workers|
  {
    Place(s, i, Sorting(k, s.outHead)).(
      outTail := if s.outTail == -1 then s.outHead else s.outTail, outHead := Advance(s.outHead, p.outCount),
      lock := None, allotted := s.allotted + 1, holder := s.holder + [i])
  }

  function SortStream<T, L, W>(p: Plant<T, L, W>, s: State<T, L, W>, i: nat, k: nat, slot: nat): State<T, L, W>
    requires i < |s.workers| && k < |s.streams|
  {
    SignalFree(Place(s, i, Storing(k, slot)).(streams := s.streams[k := p.compute(s.streams[k])], inFree :=
      s.inFree + 1))
  }

  function StoreStream<T, L, W>(s: State<T, L, W>, i: nat, k: nat, slot: nat): State<T, L, W>
    requires i < |s.workers| && slot < |s.outRing|
  {
    var r := Place(s, i, Idle).(outRing := s.outRing[slot := Some(k)]);
    if slot == s.outTail then SignalFlush(r) else r
  }

  function WorkerStep<T, L, W>(p: Plant<T, L, W>, s: State<T, L, W>, i: nat): Move<State<T, L, W>>
    requires Sized(p, s) && i < |s.workers|
  {
    match s.workers[i]
    case Idle =>
      if s.lock.Some? then Blocked
      else if s.inTail == -1 then Goes(Place(s, i, WaitIn).(lock := Some(i)))
      else TakeStream(p, s.(lock := Some(i)), i)
    case WokenIn => TakeStream(p, s, i)
    case Got(k) => Goes(if s.outHead == s.outTail then Place(s, i, WaitOut(k)) else AllotSlot(p, s, i, k))
    case WokenOut(k) => Goes(AllotSlot(p, s, i, k))
    case Sorting(k, slot) => if k < |s.streams| then Goes(SortStream(p, s, i, k, slot)) else Crash
    case Storing(k, slot) => if slot < p.outCount then Goes(StoreStream(s, i, k, slot)) else Crash
    case _ => Blocked
  }

  // The writer.

  function Recheck<T, L, W>(s: State<T, L, W>): State<T, L, W>
    requires -1 <= s.outTail < |s.outRing|
  {
    s.(writer := if s.outTail == -1 || s.outRing[s.outTail].None? then WaitFlush else Have)
  }

  function AdvanceTail<T, L, W>(p: Plant<T, L, W>, s: State<T, L, W>, toReader: bool): State<T, L, W>
    requires Sized(p, s) && s.outTail != -1
  {
    var tail := Advance(s.outTail, p.outCount);
    Recheck(SignalOut(s, toReader).(outTail := if tail == s.outHead then -1 else tail, flushed := s.flushed + 1))
  }

  function WriterStep<T, L, W>(p: Plant<T, L, W>, s: State<T, L, W>, toReader: bool): Move<State<T, L, W>>
    requires Sized(p, s)
  {
    match s.writer
    case Check => Goes(Recheck(s))
    case Have =>
      if s.outTail == -1 || s.outRing[s.outTail].None? || s.outRing[s.outTail].k >= |s.streams| then Crash
      else Goes(s.(out := p.emit(s.out, s.streams[s.outRing[s.outTail].k]), outRing :=
        s.outRing[s.outTail := None], writer := Advancing))
    case Advancing => if s.outTail == -1 then Crash else Goes(AdvanceTail(p, s, toReader))
    case WaitFlush => Blocked
  }

  /** Before the threads start. */
  ghost predicate Init<T, L, W>(p: Plant<T, L, W>, s: State<T, L, W>) {
    && Sized(p, s) && s.inHead == 0 && s.inTail == -1 && s.inFree == p.inCount && s.outHead == 0 && s.outTail == -1
    && (forall x :: 0 <= x < p.outCount ==> s.outRing[x] == None) && s.lock == None && s.reader == Start
    && (forall i :: 0 <= i < |s.workers| ==> s.workers[i] == Idle) && s.writer == Check
    && s.streams == [] && s.local == p.local0 && s.out == p.out0
    && s.presented == s.taken == s.allotted == s.flushed == 0 && s.holder == []
  }

  // What one thread alone would do, one stream after another.

  function LocalAt<T, L, W>(p: Plant<T, L, W>, k: nat): L {
    if k == 0 then p.local0 else p.make(LocalAt(p, k - 1)).1
  }

  function Job<T, L, W>(p: Plant<T, L, W>, k: nat): T {
    p.make(LocalAt(p, k)).0
  }

  function OutAt<T, L, W>(p: Plant<T, L, W>, k: nat): W {
    if k == 0 then p.out0 else p.emit(OutAt(p, k - 1), p.compute(Job(p, k - 1)))
  }
}
