/** Every run of the pipeline comes to its end: each step, whoever takes it, leaves less to be done. */
module PipelineEnds {
  import opened Rings
  import opened Pipeline
  import opened PipelineSafety
  import opened PipelineRuns

  /** How many steps of its own a reader has left before it presents a stream, or after the last one. */
  function ReaderRank(r: Reader): nat {
    match r
    case Start => 5
    case WaitFree => 4
    case WokenFree => 3
    case Filling => 2
    case Present => 1
    case AwaitFreed => 4
    case WaitFreed => 3
    case AwaitWritten => 2
    case WaitWritten => 1
    case Exited => 0
  }

  /** The same for a worker with the stream it has, and for what its signals make others do. */
  function WorkerRank(w: Worker): nat {
    match w
    case Idle => 1
    case WaitIn => 0
    case WokenIn => 1
    case Got(_) => 7
    case WaitOut(_) => 6
    case WokenOut(_) => 7
    case Sorting(_, _) => 6
    case Storing(_, _) => 4
  }

  function WriterRank(w: Writer): nat {
    match w
    case Check => 3
    case Have => 2
    case Advancing => 1
    case WaitFlush => 0
  }

  function WorkSum(ws: seq<Worker>): nat {
    if ws == [] then 0 else WorkSum(ws[..|ws| - 1]) + WorkerRank(ws[|ws| - 1])
  }

  lemma {:induction false} WorkChange(ws: seq<Worker>, i: nat, w: Worker)
    requires i < |ws|
    ensures WorkSum(ws[i := w]) == WorkSum(ws) - WorkerRank(ws[i]) + WorkerRank(w)
  {
    if i < |ws| - 1 {
      assert ws[i := w][..|ws| - 1] == ws[..|ws| - 1][i := w];
      WorkChange(ws[..|ws| - 1], i, w);
    } else {
      assert ws[i := w][..|ws| - 1] == ws[..|ws| - 1];
    }
  }

  /** Stream `n - 1` is the first that is the last. */
  ghost predicate Ends<T, L, W>(p: Plant<T, L, W>, n: nat) {
    0 < n && p.last(Job(p, n - 1)) && forall k {:trigger Job(p, k)} :: 0 <= k < n - 1 ==> !p.last(Job(p, k))
  }

  /** What is left to do while `n` streams are to be written. */
  function Left<T, L, W>(s: State<T, L, W>, n: nat): int {
    6 * (n - s.presented) + ReaderRank(s.reader) + 7 * (n - s.taken) + WorkSum(s.workers) + 4 * (n - s.flushed)
      + WriterRank(s.writer)
  }

  /** No more streams are presented than there are, and the reader goes on until they are. */
  lemma PresentedMost<T, L, W>(p: Plant<T, L, W>, s: State<T, L, W>, n: nat)
    requires Inv(p, s) && Ends(p, n)
    ensures s.flushed <= s.taken <= s.presented <= n && (s.presented == n <==> Drained(s.reader)) && Left(s, n) >= 0
  {
    hide Slots, Contents, InRing, Locks, Locals, BusyCount, Slot, LocalAt, OutAt, Job;
    if 0 < s.presented < n { assert !p.last(Job(p, s.presented - 1)); }
  }

  lemma InvSized<T, L, W>(p: Plant<T, L, W>, s: State<T, L, W>)
    requires Inv(p, s)
    ensures Sized(p, s)
  {
    hide Slots, Contents, InRing, Locks, Locals, Lasts, Waits;
  }

  /** A worker moves, and perhaps its signals make others move. */
  lemma PlaceLess<T, L, W>(s: State<T, L, W>, r: State<T, L, W>, i: nat, w: Worker, n: nat)
    requires i < |s.workers| && r.workers == s.workers[i := w] && r.presented == s.presented && r.flushed == s.flushed
    requires ReaderRank(r.reader) + WriterRank(r.writer) + WorkerRank(w) - 7 * r.taken
           < ReaderRank(s.reader) + WriterRank(s.writer) + WorkerRank(s.workers[i]) - 7 * s.taken
    ensures Left(r, n) < Left(s, n)
  {
    hide ReaderRank, WriterRank, WorkerRank, WorkSum;
    WorkChange(s.workers, i, w);
  }

  lemma IdleLess<T, L, W>(p: Plant<T, L, W>, s: State<T, L, W>, i: nat, n: nat)
    requires Sized(p, s) && i < |s.workers| && s.workers[i].Idle? && WorkerStep(p, s, i).Goes?
    ensures Left(WorkerStep(p, s, i).s, n) < Left(s, n)
  {
    hide Left;
    PlaceLess(s, WorkerStep(p, s, i).s, i, if s.inTail == -1 then WaitIn else Got(s.inRing[s.inTail]), n);
  }

  lemma TakeLess<T, L, W>(p: Plant<T, L, W>, s: State<T, L, W>, i: nat, n: nat)
    requires Sized(p, s) && i < |s.workers| && s.workers[i].WokenIn? && WorkerStep(p, s, i).Goes?
    ensures Left(WorkerStep(p, s, i).s, n) < Left(s, n)
  {
    hide Left;
    PlaceLess(s, WorkerStep(p, s, i).s, i, Got(s.inRing[s.inTail]), n);
  }

  lemma AllotLess<T, L, W>(p: Plant<T, L, W>, s: State<T, L, W>, i: nat, n: nat)
    requires Sized(p, s) && i < |s.workers| && (s.workers[i].Got? || s.workers[i].WokenOut?)
      && WorkerStep(p, s, i).Goes?
    ensures Left(WorkerStep(p, s, i).s, n) < Left(s, n)
  {
    hide Left;
    PlaceLess(s, WorkerStep(p, s, i).s, i, if s.workers[i].Got? && s.outHead == s.outTail then WaitOut(s.workers[i].k)
      else Sorting(s.workers[i].k, s.outHead), n);
  }

  lemma SortLess<T, L, W>(p: Plant<T, L, W>, s: State<T, L, W>, i: nat, n: nat)
    requires Sized(p, s) && i < |s.workers| && s.workers[i].Sorting? && WorkerStep(p, s, i).Goes?
    ensures Left(WorkerStep(p, s, i).s, n) < Left(s, n)
  {
    hide Left;
    PlaceLess(s, WorkerStep(p, s, i).s, i, Storing(s.workers[i].k, s.workers[i].slot), n);
  }

  lemma StoreLess<T, L, W>(p: Plant<T, L, W>, s: State<T, L, W>, i: nat, n: nat)
    requires Sized(p, s) && i < |s.workers| && s.workers[i].Storing? && WorkerStep(p, s, i).Goes?
    ensures Left(WorkerStep(p, s, i).s, n) < Left(s, n)
  {
    hide Left;
    PlaceLess(s, WorkerStep(p, s, i).s, i, Idle, n);
  }

  lemma WorkerLess<T, L, W>(p: Plant<T, L, W>, s: State<T, L, W>, i: nat, n: nat)
    requires Inv(p, s) && i < |s.workers| && WorkerStep(p, s, i).Goes?
    ensures Left(WorkerStep(p, s, i).s, n) < Left(s, n)
  {
    InvSized(p, s);
    WorkerGoing(p, s, i);
    hide Inv, Left, WorkerStep;
    match s.workers[i]
    case Idle => IdleLess(p, s, i, n);
    case WokenIn => TakeLess(p, s, i, n);
    case Got(k) => AllotLess(p, s, i, n);
    case WokenOut(k) => AllotLess(p, s, i, n);
    case Sorting(k, slot) => SortLess(p, s, i, n);
    case Storing(k, slot) => StoreLess(p, s, i, n);
  }

  lemma WorkerGoing<T, L, W>(p: Plant<T, L, W>, s: State<T, L, W>, i: nat)
    requires Sized(p, s) && i < |s.workers| && WorkerStep(p, s, i).Goes?
    ensures !s.workers[i].WaitIn? && !s.workers[i].WaitOut?
  {
  }

  /** A signal wakes at most one thread. */
  lemma SignalOutMore<T, L, W>(s: State<T, L, W>, toReader: bool, n: nat)
    ensures var r := SignalOut(s, toReader);
      Left(r, n) <= Left(s, n) + 1 && r.writer == s.writer && r.flushed == s.flushed
  {
    hide WorkSum;
    if s.lock.Some? && s.lock.k < |s.workers| && s.workers[s.lock.k].WaitOut? {
      WorkChange(s.workers, s.lock.k, WokenOut(s.workers[s.lock.k].k));
    }
  }

  lemma SignalInMore<T, L, W>(s: State<T, L, W>, n: nat)
    ensures var r := SignalIn(s); Left(r, n) <= Left(s, n) + 1 && r.reader == s.reader && r.presented == s.presented
  {
    hide WorkSum;
    if s.lock.Some? && s.lock.k < |s.workers| && s.workers[s.lock.k].WaitIn? {
      WorkChange(s.workers, s.lock.k, WokenIn);
    }
  }

  lemma AdvanceLess<T, L, W>(p: Plant<T, L, W>, s: State<T, L, W>, toReader: bool, n: nat)
    requires Sized(p, s) && s.writer.Advancing? && s.outTail != -1
    ensures Left(AdvanceTail(p, s, toReader), n) < Left(s, n)
  {
    hide WorkSum, ReaderRank, SignalOut, Advance;
    SignalOutMore(s, toReader, n);
  }

  lemma WriterLess<T, L, W>(p: Plant<T, L, W>, s: State<T, L, W>, toReader: bool, n: nat)
    requires Inv(p, s) && WriterStep(p, s, toReader).Goes?
    ensures Left(WriterStep(p, s, toReader).s, n) < Left(s, n)
  {
    InvSized(p, s);
    hide Inv, WorkSum, AdvanceTail, ReaderRank;
    if s.writer.Advancing? { AdvanceLess(p, s, toReader, n); }
  }

  lemma ShowLess<T, L, W>(p: Plant<T, L, W>, s: State<T, L, W>, n: nat)
    requires Sized(p, s) && s.reader.Present? && s.presented < |s.streams|
    ensures Left(ShowStream(p, s), n) < Left(s, n)
  {
    hide WorkSum, SignalIn, Advance;
    SignalInMore(s.(inTail := s.inHead), n);
  }

  lemma OtherLess<T, L, W>(p: Plant<T, L, W>, s: State<T, L, W>, n: nat)
    requires Sized(p, s) && !s.reader.Present? && ReaderStep(p, s).Goes?
    ensures Left(ReaderStep(p, s).s, n) < Left(s, n)
  {
    hide WorkSum, ShowStream, Advance, WorkerRank, WriterRank;
  }

  lemma ReaderLess<T, L, W>(p: Plant<T, L, W>, s: State<T, L, W>, n: nat)
    requires Inv(p, s) && ReaderStep(p, s).Goes?
    ensures Left(ReaderStep(p, s).s, n) < Left(s, n)
  {
    hide WorkSum, ShowStream, Advance, WorkerRank, WriterRank;
    InvSized(p, s);
    hide Inv, TakeSlot;
    if s.reader.Present? { ShowLess(p, s, n); } else { OtherLess(p, s, n); }
  }

  /** Every step leaves less to do. */
  lemma StepLess<T, L, W>(p: Plant<T, L, W>, s: State<T, L, W>, t: Turn, n: nat)
    requires Inv(p, s) && Step(p, s, t).Goes?
    ensures Left(Step(p, s, t).s, n) < Left(s, n)
  {
    hide Inv, Left;
    match t
    case ReaderTurn => ReaderLess(p, s, n);
    case WorkerTurn(i) => if i < |s.workers| { WorkerLess(p, s, i, n); }
    case WriterTurn(toReader) => WriterLess(p, s, toReader, n);
  }

  lemma {:induction false} IdleSum(ws: seq<Worker>)
    requires forall i :: 0 <= i < |ws| ==> ws[i] == Idle
    ensures WorkSum(ws) == |ws|
  {
    if ws != [] { IdleSum(ws[..|ws| - 1]); }
  }

  lemma {:induction false} LeftAfter<T, L,
        W>(p: Plant<T, L, W>, run: seq<State<T, L, W>>, turns: seq<Turn>, n: nat, k: nat)
    requires Runs(p, run, turns) && k < |run|
    ensures Left(run[k], n) + k <= Left(run[0], n)
  {
    if k > 0 {
      var l := k - 1;
      LeftAfter(p, run, turns, n, l);
      RunInv(p, run, turns, l);
      assert Step(p, run[l], turns[l]) == Goes(run[l + 1]);
      StepLess(p, run[l], turns[l], n);
    }
  }

  /** However the threads are scheduled, `n` streams take no more than this many steps. */
  lemma RunShort<T, L, W>(p: Plant<T, L, W>, run: seq<State<T, L, W>>, turns: seq<Turn>, n: nat)
    requires Runs(p, run, turns) && Ends(p, n)
    ensures |turns| <= 17 * n + |run[0].workers| + 8
  {
    var k := |turns|;
    LeftAfter(p, run, turns, n, k);
    RunInv(p, run, turns, k);
    PresentedMost(p, run[k], n);
    IdleSum(run[0].workers);
  }

  /** A run that no thread can prolong has written everything. */
  lemma RunEnds<T, L, W>(p: Plant<T, L, W>, run: seq<State<T, L, W>>, turns: seq<Turn>, n: nat)
    requires Runs(p, run, turns) && Ends(p, n)
    ensures Sized(p, run[|turns|]) && (CanGo(p, run[|turns|])
      || (run[|turns|].reader.Exited? && run[|turns|].out == OutAt(p, n)))
  {
    var s := run[|turns|];
    RunInv(p, run, turns, |turns|);
    InvSized(p, s);
    if s.reader.Exited? {
      RunComplete(p, run, turns);
      PresentedMost(p, s, n);
    } else {
      NotStuck(p, s);
    }
  }
}
