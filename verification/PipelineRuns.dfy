/** Whole runs of the pipeline: safe, never stuck, and at the end everything is written in order. */
module PipelineRuns {
  import opened Rings
  import opened Pipeline
  import opened PipelineSafety

  /** Whose turn it is; for the writer, whom its signal wakes if two could be woken. */
  datatype Turn = ReaderTurn | WorkerTurn(i: nat) | WriterTurn(toReader: bool)

  function Step<T, L, W>(p: Plant<T, L, W>, s: State<T, L, W>, t: Turn): Move<State<T, L, W>>
    requires Sized(p, s)
  {
    match t
    case ReaderTurn => ReaderStep(p, s)
    case WorkerTurn(i) => if i < |s.workers| then WorkerStep(p, s, i) else Blocked
    case WriterTurn(toReader) => WriterStep(p, s, toReader)
  }

  lemma ReaderKeeps<T, L, W>(p: Plant<T, L, W>, s: State<T, L, W>)
    requires Inv(p, s)
    ensures !ReaderStep(p, s).Crash? && (ReaderStep(p, s).Goes? ==> Inv(p, ReaderStep(p, s).s))
  {
    hide Slots, Contents, InRing, Lasts, Locks, BusyCount, Slot, LocalAt, OutAt, Job;
    match s.reader
    case Start => if s.inFree != 0 { TakeSlotInv(p, s); }
    case WokenFree => TakeSlotInv(p, s);
    case Filling => FillInv(p, s);
    case Present => ShowInv(p, s);
    case AwaitFreed => AwaitInv(p, s);
    case AwaitWritten => AwaitInv(p, s);
    case _ =>
  }

  lemma WorkerKeeps<T, L, W>(p: Plant<T, L, W>, s: State<T, L, W>, i: nat)
    requires Inv(p, s) && i < |s.workers|
    ensures !WorkerStep(p, s, i).Crash? && (WorkerStep(p, s, i).Goes? ==> Inv(p, WorkerStep(p, s, i).s))
  {
    hide Slots, Contents, InRing, Lasts, Locks, Locals, BusyCount, Slot, LocalAt, OutAt, Job;
    match s.workers[i]
    case Idle => if s.lock == None { if s.inTail == -1 { WaitInInv(p, s, i); } else { TakeInv(p, s, i); } }
    case WokenIn => WokenTakes(p, s, i);
    case Got(k) => if s.outHead == s.outTail { WaitOutInv(p, s, i); } else { AllotInv(p, s, i); }
    case WokenOut(k) => AllotInv(p, s, i);
    case Sorting(k, slot) => SortInv(p, s, i);
    case Storing(k, slot) => StoreInv(p, s, i);
    case _ =>
  }

  /** A worker woken on the input ring finds it filled: one check before the wait is enough. */
  lemma WokenTakes<T, L, W>(p: Plant<T, L, W>, s: State<T, L, W>, i: nat)
    requires Inv(p, s) && i < |s.workers| && s.workers[i].WokenIn?
    ensures s.inTail != -1 && s.lock == Some(i) && Inv(p, TakeStream(p, s, i).s)
  {
    assert Locking(s.workers[i]);
    assert s.(lock := Some(i)) == s;
    TakeInv(p, s, i);
  }

  /** That rests on waits that end only by a signal: a worker waking up without one would always use slot -1. */
  lemma SpuriousWake<T, L, W>(p: Plant<T, L, W>, s: State<T, L, W>, i: nat)
    requires Inv(p, s) && i < |s.workers| && s.workers[i].WaitIn?
    ensures WorkerStep(p, Place(s, i, WokenIn), i).Crash?
  {
    assert Locking(s.workers[i]);
  }

  lemma WriterKeeps<T, L, W>(p: Plant<T, L, W>, s: State<T, L, W>, toReader: bool)
    requires Inv(p, s)
    ensures !WriterStep(p, s, toReader).Crash?
      && (WriterStep(p, s, toReader).Goes? ==> Inv(p, WriterStep(p, s, toReader).s))
  {
    hide Slots, Contents, InRing, Lasts, Locks, Locals, BusyCount, Slot, LocalAt, OutAt, Job;
    match s.writer
    case Check => CheckInv(p, s);
    case Have => WriteInv(p, s);
    case Advancing => AdvanceInv(p, s, toReader);
    case WaitFlush =>
  }

  /** No thread ever uses slot -1 or an empty slot, and every step keeps the invariant. */
  lemma StepKeeps<T, L, W>(p: Plant<T, L, W>, s: State<T, L, W>, t: Turn)
    requires Inv(p, s)
    ensures !Step(p, s, t).Crash? && (Step(p, s, t).Goes? ==> Inv(p, Step(p, s, t).s))
  {
    match t
    case ReaderTurn => ReaderKeeps(p, s);
    case WorkerTurn(i) => if i < |s.workers| { WorkerKeeps(p, s, i); }
    case WriterTurn(toReader) => WriterKeeps(p, s, toReader);
  }

  /** `run` starts at the beginning and takes one step after another, under the schedule `turns`. */
  ghost predicate Runs<T, L, W>(p: Plant<T, L, W>, run: seq<State<T, L, W>>, turns: seq<Turn>) {
    && |run| == |turns| + 1 && Init(p, run[0])
    && forall n {:trigger turns[n]} :: 0 <= n < |turns| ==>
      Sized(p, run[n]) && Step(p, run[n], turns[n]) == Goes(run[n + 1])
  }

  lemma {:induction false} RunInv<T, L, W>(p: Plant<T, L, W>, run: seq<State<T, L, W>>, turns: seq<Turn>, n: nat)
    requires Runs(p, run, turns) && n < |run|
    ensures Inv(p, run[n])
  {
    if n == 0 { InitInv(p, run[0]); } else {
      var k := n - 1;
      RunInv(p, run, turns, k);
      assert Step(p, run[k], turns[k]) == Goes(run[k + 1]);
      StepKeeps(p, run[k], turns[k]);
    }
  }

  /** In every state of every run, under every schedule, no thread crashes. */
  lemma RunSafe<T, L, W>(p: Plant<T, L, W>, run: seq<State<T, L, W>>, turns: seq<Turn>, n: nat, t: Turn)
    requires Runs(p, run, turns) && n < |run|
    ensures Sized(p, run[n]) && !Step(p, run[n], t).Crash?
  {
    RunInv(p, run, turns, n);
    StepKeeps(p, run[n], t);
  }

  /** What is written is always what one thread alone would have written first. */
  lemma RunInOrder<T, L, W>(p: Plant<T, L, W>, run: seq<State<T, L, W>>, turns: seq<Turn>, n: nat)
    requires Runs(p, run, turns) && n < |run|
    ensures run[n].out == OutAt(p, PipelineSafety.Written(run[n]))
  {
    RunInv(p, run, turns, n);
  }

  /** When the program ends, every stream up to the last is written, and nothing else. */
  lemma RunComplete<T, L, W>(p: Plant<T, L, W>, run: seq<State<T, L, W>>, turns: seq<Turn>)
    requires Runs(p, run, turns) && run[|turns|].reader.Exited?
    ensures var n := run[|turns|].presented;
      && n > 0 && run[|turns|].out == OutAt(p, n) && p.last(Job(p, n - 1)) && forall k {:trigger Job(p, k)} ::
        0 <= k < n - 1 ==> !p.last(Job(p, k))
  {
    RunInv(p, run, turns, |turns|);
    AllWritten(p, run[|turns|]);
  }

  lemma AllWritten<T, L, W>(p: Plant<T, L, W>, s: State<T, L, W>)
    requires Inv(p, s) && s.reader.Exited?
    ensures s.flushed == s.presented && !s.writer.Advancing?
  {
    NothingBusy(p, s);
  }

  /** With every input slot free, nothing is left between the rings. */
  lemma NothingBusy<T, L, W>(p: Plant<T, L, W>, s: State<T, L, W>)
    requires Inv(p, s) && s.inFree == p.inCount
    ensures s.presented == s.taken == s.allotted
  {
    hide Slots, Contents, InRing, Lasts, Locks, Locals, BusyCount, Slot, LocalAt, OutAt, Job;
    LocksHeld(p.outCount, s.lock, s.workers, s.presented, s.taken, s.allotted, s.flushed);
    if s.lock.Some? && s.taken == s.allotted + 1 { SomeBusy(s.workers, s.lock.k); }
  }

  // Nobody is ever stuck.

  ghost predicate CanGo<T, L, W>(p: Plant<T, L, W>, s: State<T, L, W>)
    requires Sized(p, s)
  {
    exists t :: Step(p, s, t).Goes?
  }

  ghost predicate WorkersBlocked<T, L, W>(p: Plant<T, L, W>, s: State<T, L, W>)
    requires Sized(p, s)
  {
    forall i {:trigger WorkerStep(p, s, i)} :: 0 <= i < |s.workers| ==> WorkerStep(p, s, i).Blocked?
  }

  /** A free mutex can be taken. */
  lemma FreeLockTaken<T, L, W>(p: Plant<T, L, W>, s: State<T, L, W>)
    requires Inv(p, s)
    ensures s.lock == None && s.workers[0].Idle? ==> !WorkerStep(p, s, 0).Blocked?
  {
  }

  /** If no worker can go on, one of them holds the allocation mutex and waits, and none holds a stream to sort. */
  lemma WorkersStuck<T, L, W>(p: Plant<T, L, W>, s: State<T, L, W>)
    requires Inv(p, s) && WorkersBlocked(p, s)
    ensures s.lock.Some? && s.lock.k < |s.workers| && (s.workers[s.lock.k].WaitIn? || s.workers[s.lock.k].WaitOut?)
    ensures forall i {:trigger s.workers[i]} :: 0 <= i < |s.workers| ==> !Slotted(s.workers[i])
    ensures s.workers[s.lock.k].WaitIn? ==> BusyCount(s.workers) == 0
  {
    hide Slots, Contents, InRing, Lasts, Locks, Locals, BusyCount, Slot, LocalAt, OutAt, Job;
    LocksHeld(p.outCount, s.lock, s.workers, s.presented, s.taken, s.allotted, s.flushed);
    forall i {:trigger s.workers[i]} | 0 <= i < |s.workers|
      ensures s.workers[i].Idle? || s.workers[i].WaitIn? || s.workers[i].WaitOut?
    {
      assert WorkerStep(p, s, i).Blocked?;
      if s.workers[i].WokenIn? { WokenTakes(p, s, i); }
      if s.workers[i].Sorting? { SortInv(p, s, i); }
      if s.workers[i].Storing? { StoreInv(p, s, i); }
    }
    FreeLockTaken(p, s);
    assert WorkerStep(p, s, 0).Blocked?;
    if Locking(s.workers[0]) { LocksOwn(p.outCount, s.lock, s.workers, s.presented, s.taken, s.allotted, s.flushed, 0);
      }
    if s.workers[s.lock.k].WaitIn? {
      forall i {:trigger s.workers[i]} | 0 <= i < |s.workers| ensures !Busy(s.workers[i]) {
        if Locking(s.workers[i]) { LocksOwn(p.outCount, s.lock, s.workers, s.presented, s.taken, s.allotted, s.flushed,
          i); }
      }
      NoneBusy(s.workers);
    }
  }

  /** If no worker has a slot to fill, the oldest stream not yet written lies in its slot, and the writer can go on. */
  lemma WriterFree<T, L, W>(p: Plant<T, L, W>, s: State<T, L, W>)
    requires Inv(p, s) && s.flushed < s.allotted && forall i {:trigger s.workers[i]} :: 0 <= i < |s.workers| ==>
      !Slotted(s.workers[i])
    ensures !s.writer.WaitFlush?
  {
    hide Contents, InRing, Lasts, Locks, BusyCount, LocalAt, OutAt, Job;
    if !s.writer.Advancing? {
      assert Placed(p.outCount, s.outRing, s.workers, s.holder[s.flushed], s.flushed);
    }
  }

  lemma NotStuck<T, L, W>(p: Plant<T, L, W>, s: State<T, L, W>)
    requires Inv(p, s) && !s.reader.Exited?
    ensures CanGo(p, s)
  {
    hide Slots, Contents, InRing, Lasts, Locks, Locals, BusyCount, Slot, LocalAt, OutAt, Job;
    LocksHeld(p.outCount, s.lock, s.workers, s.presented, s.taken, s.allotted, s.flushed);
    if WorkersBlocked(p, s) {
      WorkersStuck(p, s);
      NothingLeft(p, s);
      ReaderKeeps(p, s);
      if s.reader.WaitFree? || s.reader.WaitFreed? || s.reader.WaitWritten? {
        if s.workers[s.lock.k].WaitIn? { NothingBusy(p, s); }
        WriterFree(p, s);
        WriterKeeps(p, s, false);
        assert Step(p, s, WriterTurn(false)).Goes?;
      } else {
        assert Step(p, s, ReaderTurn).Goes?;
      }
    } else {
      var i :| 0 <= i < |s.workers| && !WorkerStep(p, s, i).Blocked?;
      WorkerKeeps(p, s, i);
      assert Step(p, s, WorkerTurn(i)).Goes?;
    }
  }

  /** In every state of every run short of the end, some thread can go on. */
  lemma RunNotStuck<T, L, W>(p: Plant<T, L, W>, run: seq<State<T, L, W>>, turns: seq<Turn>, n: nat)
    requires Runs(p, run, turns) && n < |run| && !run[n].reader.Exited?
    ensures Sized(p, run[n]) && CanGo(p, run[n])
  {
    RunInv(p, run, turns, n);
    NotStuck(p, run[n]);
  }
}
