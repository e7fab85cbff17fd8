/** Whole runs of pbzip2's compress path: safe, never stuck, and at the end everything is written in order. */
module PbzipRuns {
  import opened Rings
  import opened PbzipPipeline
  import opened PbzipSafety

  /** Whose turn it is; for the producer, whom its signal wakes. */
  datatype Turn = ProducerTurn(wake: nat) | ConsumerTurn(i: nat) | WriterTurn

  function Step<T, U>(p: Plant<T, U>, s: State<T, U>, t: Turn): Move<State<T, U>>
    requires Sized(p, s)
  {
    match t
    case ProducerTurn(wake) => ProducerStep(p, s, wake)
    case ConsumerTurn(i) => if i < |s.consumers| then ConsumerStep(p, s, i) else Blocked
    case WriterTurn => WriterStep(p, s)
  }

  /**
   * No step uses a slot outside the buffer, stores into a full one or writes an empty one, and each keeps the
   * invariant.
   */
  lemma StepKeeps<T, U>(p: Plant<T, U>, s: State<T, U>, t: Turn)
    requires Inv(p, s)
    ensures !Step(p, s, t).Crash? && (Step(p, s, t).Goes? ==> Inv(p, Step(p, s, t).s))
  {
    match t
    case ProducerTurn(wake) => ProducerKeeps(p, s, wake);
    case ConsumerTurn(i) => if i < |s.consumers| { ConsumerKeeps(p, s, i); }
    case WriterTurn => WriterKeeps(p, s);
  }

  ghost predicate Runs<T, U>(p: Plant<T, U>, run: seq<State<T, U>>, turns: seq<Turn>) {
    && |run| == |turns| + 1 && Init(p, run[0])
    && forall n {:trigger turns[n]} :: 0 <= n < |turns| ==>
      Sized(p, run[n]) && Step(p, run[n], turns[n]) == Goes(run[n + 1])
  }

  lemma {:induction false} RunInv<T, U>(p: Plant<T, U>, run: seq<State<T, U>>, turns: seq<Turn>, n: nat)
    requires Runs(p, run, turns) && n < |run|
    ensures Inv(p, run[n])
  {
    if n == 0 { InitInv(p, run[0]); } else {
      var k := n - 1;
      RunInv(p, run, turns, k);
      assert Step(p, run[k], turns[k]) == Goes(run[k + 1]);
      StepKeeps(p, run[k], turns[k]);
    }
  }

  /** In every state of every run, whoever's turn it is, no slot is misused. */
  lemma RunSafe<T, U>(p: Plant<T, U>, run: seq<State<T, U>>, turns: seq<Turn>, n: nat, t: Turn)
    requires Runs(p, run, turns) && n < |run|
    ensures Sized(p, run[n]) && !Step(p, run[n], t).Crash?
  {
    RunInv(p, run, turns, n);
    StepKeeps(p, run[n], t);
  }

  /** A block that may be stored goes to the slot of its number, which is empty. */
  lemma RunStores<T, U>(p: Plant<T, U>, run: seq<State<T, U>>, turns: seq<Turn>, n: nat, i: nat)
    requires Runs(p, run, turns) && n < |run| && i < |run[n].consumers| && run[n].consumers[i].Storing?
    requires run[n].consumers[i].c.num < run[n].nextToWrite + p.max
    ensures Sized(p, run[n])
    ensures var s := run[n]; var c := s.consumers[i].c; var x := Rings.Slot(c.num, p.max);
      s.buffer[x].Empty? && ConsumerStep(p, s, i) == Goes(Place(s, i, Taking).(buffer := s.buffer[x := Full(c)]))
  {
    RunInv(p, run, turns, n);
    StoreInv(p, run[n], i);
  }

  /** At any time the file holds the first blocks, compressed, in order, each once. */
  lemma RunInOrder<T, U>(p: Plant<T, U>, run: seq<State<T, U>>, turns: seq<Turn>, n: nat)
    requires Runs(p, run, turns) && n < |run|
    ensures |run[n].written| == run[n].curr <= |p.chunks|
    ensures forall k {:trigger run[n].written[k]} :: 0 <= k < run[n].curr ==>
      run[n].written[k] == p.compress(p.chunks[k])
  {
    RunInv(p, run, turns, n);
  }

  /** When the writer ends, every block is written. */
  lemma RunComplete<T, U>(p: Plant<T, U>, run: seq<State<T, U>>, turns: seq<Turn>, n: nat)
    requires Runs(p, run, turns) && n < |run| && run[n].writer.Finished?
    ensures |run[n].written| == |p.chunks|
    ensures forall k {:trigger run[n].written[k]} :: 0 <= k < |p.chunks| ==>
      run[n].written[k] == p.compress(p.chunks[k])
  {
    RunInv(p, run, turns, n);
  }

  // Nobody is ever stuck.

  /** The writer has something to do other than to look again: a block to write, a tail to move, or the end to find. */
  predicate WriterHasWork<T, U>(p: Plant<T, U>, s: State<T, U>)
    requires Sized(p, s)
  {
    s.writer.Update? || s.buffer[s.pos].Full? || (s.done && s.curr >= s.numBlocks && !s.writer.Finished?)
  }

  ghost predicate ConsumersBlocked<T, U>(p: Plant<T, U>, s: State<T, U>)
    requires Sized(p, s)
  {
    forall i {:trigger ConsumerStep(p, s, i)} :: 0 <= i < |s.consumers| ==> ConsumerStep(p, s, i).Blocked?
  }

  lemma BlockedWhere<T, U>(p: Plant<T, U>, s: State<T, U>)
    requires Inv(p, s) && ConsumersBlocked(p, s)
    ensures forall i {:trigger s.consumers[i]} :: 0 <= i < |s.consumers| ==>
      s.consumers[i].WaitNotEmpty? || s.consumers[i].WaitRoom? || s.consumers[i].Gone?
  {
    forall i {:trigger s.consumers[i]} | 0 <= i < |s.consumers|
      ensures s.consumers[i].WaitNotEmpty? || s.consumers[i].WaitRoom? || s.consumers[i].Gone?
    {
      assert ConsumerStep(p, s, i).Blocked?;
      ConsumerKeeps(p, s, i);
    }
  }

  /** The next block to write is never with a consumer that waits for room: blocks leave the queue in order. */
  lemma NextIsThere<T, U>(p: Plant<T, U>, s: State<T, U>)
    requires Inv(p, s) && !s.writer.Update? && s.curr < |s.holder|
    requires forall i {:trigger s.consumers[i]} :: 0 <= i < |s.consumers| ==> Busy(s.consumers[i]) ==>
      s.consumers[i].WaitRoom?
    ensures s.buffer[s.pos].Full?
  {
    assert Kept(p, s.buffer, s.consumers, s.holder[s.curr], s.curr);
  }

  /** Short of the end, the producer or a consumer can go on or the writer has work: its polling does not count. */
  lemma NotStuck<T, U>(p: Plant<T, U>, s: State<T, U>)
    requires Inv(p, s) && !s.writer.Finished?
    ensures ProducerStep(p, s, 0).Goes? || !ConsumersBlocked(p, s) || WriterHasWork(p, s)
  {
    ProducerKeeps(p, s, 0);
    if ConsumersBlocked(p, s) && ProducerStep(p, s, 0).Blocked? {
      BlockedWhere(p, s);
      if !s.writer.Update? && s.curr < |s.holder| { NextIsThere(p, s); }
      if s.curr == |s.holder| { NobodyWaitsForRoom(p, s); }
    }
  }

  /** With every block taken written, no consumer has one. */
  lemma NobodyWaitsForRoom<T, U>(p: Plant<T, U>, s: State<T, U>)
    requires Inv(p, s) && s.curr == |s.holder|
    ensures forall i {:trigger s.consumers[i]} :: 0 <= i < |s.consumers| ==> !Busy(s.consumers[i])
  {
    forall i {:trigger s.consumers[i]} | 0 <= i < |s.consumers| ensures !Busy(s.consumers[i]) {
      assert Busy(s.consumers[i]) ==> HasBlock(p, s.buffer, s.holder, s.curr, i, NumOf(s.consumers[i]));
    }
  }

  /** So it is in every state of every run. */
  lemma RunNotStuck<T, U>(p: Plant<T, U>, run: seq<State<T, U>>, turns: seq<Turn>, n: nat)
    requires Runs(p, run, turns) && n < |run| && !run[n].writer.Finished?
    ensures Sized(p, run[n]) && (ProducerStep(p, run[n], 0).Goes? || !ConsumersBlocked(p, run[n])
      || WriterHasWork(p, run[n]))
  {
    RunInv(p, run, turns, n);
    NotStuck(p, run[n]);
  }

  /** The writer alone, for `k` steps or until it ends. */
  function Alone<T, U>(p: Plant<T, U>, s: State<T, U>, k: nat): (r: State<T, U>)
    requires Inv(p, s)
    ensures Inv(p, r)
    decreases k
  {
    WriterKeeps(p, s);
    if k == 0 || !WriterStep(p, s).Goes? then s else Alone(p, WriterStep(p, s).s, k - 1)
  }

  /** The writer alone gets somewhere in `k` steps: it writes a block, makes room or ends. */
  predicate Advances<T, U>(p: Plant<T, U>, s: State<T, U>, k: nat)
    requires Inv(p, s)
  {
    var r := Alone(p, s, k);
    r.curr > s.curr || r.nextToWrite > s.nextToWrite || r.writer.Finished?
  }

  lemma AdvancesNow<T, U>(p: Plant<T, U>, s: State<T, U>, k: nat)
    requires Inv(p, s) && k > 0
    requires s.writer.Write? || s.writer.Update? || (s.writer.Check? && s.done && s.curr >= s.numBlocks)
    ensures Advances(p, s, k)
  {
    WriterKeeps(p, s);
    AloneGrows(p, WriterStep(p, s).s, k - 1);
  }

  lemma AdvancesLater<T, U>(p: Plant<T, U>, s: State<T, U>, k: nat)
    requires Inv(p, s) && (s.writer.Check? || s.writer.Look?) && Inv(p, WriterStep(p, s).s)
      && Advances(p, WriterStep(p, s).s, k)
    ensures Advances(p, s, k + 1)
  {
  }

  /** With work to do, the writer alone does it within three steps. */
  lemma WriterWorks<T, U>(p: Plant<T, U>, s: State<T, U>)
    requires Inv(p, s) && WriterHasWork(p, s) && !s.writer.Finished?
    ensures Advances(p, s, 3)
  {
    if s.writer.Write? || s.writer.Update? || (s.writer.Check? && s.done && s.curr >= s.numBlocks) {
      AdvancesNow(p, s, 3);
    } else {
      WriterKeeps(p, s);
      var s1 := WriterStep(p, s).s;
      if s.writer.Look? {
        AdvancesNow(p, s1, 2);
      } else {
        WriterKeeps(p, s1);
        AdvancesNow(p, WriterStep(p, s1).s, 1);
        AdvancesLater(p, s1, 1);
      }
      AdvancesLater(p, s, 2);
    }
  }

  lemma {:induction false} AloneGrows<T, U>(p: Plant<T, U>, s: State<T, U>, k: nat)
    requires Inv(p, s)
    ensures var r := Alone(p, s, k);
      && r.curr >= s.curr && r.nextToWrite >= s.nextToWrite
      && (s.writer.Finished? ==> r == s)
    decreases k
  {
    WriterKeeps(p, s);
    if k > 0 && WriterStep(p, s).Goes? { AloneGrows(p, WriterStep(p, s).s, k - 1); }
  }
}
