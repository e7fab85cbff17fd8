/**
 * pbzip2's compress path comes to its end: only the writer's looking again costs nothing, and every other step leaves
 * less to do.
 */
module PbzipEnds {
  import opened Rings
  import opened PbzipPipeline
  import opened PbzipSafety
  import opened PbzipRuns

  /** What the producer has still to do besides adding blocks; the last broadcast may wake all `w` consumers. */
  function ProducerRank(r: Producer, w: nat): nat {
    match r
    case Reading => w + 5
    case Adding => w + 4
    case WaitNotFull => w + 3
    case SettingDone => w + 2
    case Broadcasting => w + 1
    case Exited => 0
  }

  function ConsumerRank<T, U>(c: Consumer<T, U>): nat {
    match c
    case Compressing(_) => 5
    case Storing(_) => 4
    case WaitRoom(_) => 3
    case Taking => 2
    case WaitNotEmpty => 1
    case Gone => 0
  }

  function WriterRank(w: Writer): nat {
    match w
    case Check => 3
    case Look => 3
    case Write => 2
    case Update => 1
    case Finished => 0
  }

  function RankSum<T, U>(cs: seq<Consumer<T, U>>): nat {
    if cs == [] then 0 else RankSum(cs[..|cs| - 1]) + ConsumerRank(cs[|cs| - 1])
  }

  lemma {:induction false} RankChange<T, U>(cs: seq<Consumer<T, U>>, i: nat, c: Consumer<T, U>)
    requires i < |cs|
    ensures RankSum(cs[i := c]) == RankSum(cs) - ConsumerRank(cs[i]) + ConsumerRank(c)
  {
    if i < |cs| - 1 {
      assert cs[i := c][..|cs| - 1] == cs[..|cs| - 1][i := c];
      RankChange(cs[..|cs| - 1], i, c);
    } else {
      assert cs[i := c][..|cs| - 1] == cs[..|cs| - 1];
    }
  }

  /** A broadcast moves each consumer up by one at most. */
  lemma {:induction false} RankBroadcast<T, U>(cs: seq<Consumer<T, U>>, ds: seq<Consumer<T, U>>)
    requires |ds| == |cs| && forall i {:trigger ds[i]} :: 0 <= i < |cs| ==>
      ConsumerRank(ds[i]) <= ConsumerRank(cs[i]) + 1
    ensures RankSum(ds) <= RankSum(cs) + |cs|
  {
    if cs != [] { RankBroadcast(cs[..|cs| - 1], ds[..|ds| - 1]); }
  }

  /** The first that waits is woken, if any does. */
  lemma {:induction false} WakeFirstOne<T, U>(cs: seq<Consumer<T, U>>) returns (i: nat)
    ensures if i < |cs| then cs[i].WaitNotEmpty? && WakeFirst(cs) == cs[i := Taking] else WakeFirst(cs) == cs
    decreases |cs|
  {
    if cs == [] || cs[0].WaitNotEmpty? {
      i := 0;
    } else {
      var j := WakeFirstOne(cs[1..]);
      i := j + 1;
      assert cs == [cs[0]] + cs[1..];
      if j < |cs[1..]| { assert cs[i := Taking] == [cs[0]] + cs[1..][j := Taking]; }
    }
  }

  lemma RankSignal<T, U>(cs: seq<Consumer<T, U>>, w: nat)
    ensures RankSum(SignalOne(cs, w)) <= RankSum(cs) + 1
  {
    hide RankSum, WakeFirst;
    if w < |cs| && cs[w].WaitNotEmpty? {
      RankChange(cs, w, Taking);
    } else {
      var i := WakeFirstOne(cs);
      if i < |cs| { RankChange(cs, i, Taking); }
    }
  }

  /** A step of the window costs as much as it may wake consumers. */
  function WindowCost(w: nat, k: nat): nat {
    if k == 0 then 0 else WindowCost(w, k - 1) + w + 3
  }

  /** What is left to do. */
  function Left<T, U>(p: Plant<T, U>, s: State<T, U>): int {
    var n, w := |p.chunks|, |s.consumers|;
    3 * (n - s.numBlocks) + ProducerRank(s.producer, w) + 5 * (n - |s.holder|) + RankSum(s.consumers)
    + (if s.nextToWrite <= n then WindowCost(w, n - s.nextToWrite) else 0) + WriterRank(s.writer)
  }

  lemma LeftAtLeastNone<T, U>(p: Plant<T, U>, s: State<T, U>)
    requires Inv(p, s)
    ensures Left(p, s) >= 0 && s.nextToWrite <= |p.chunks|
  {
    hide Slots, Waits, InOrder, InSequence;
  }

  /** The writer looks again: nothing is there to write, and it is not the end. */
  predicate Polls<T, U>(p: Plant<T, U>, s: State<T, U>, t: Turn)
    requires Sized(p, s)
  {
    t.WriterTurn? && ((s.writer.Check? && !(s.done && s.curr >= s.numBlocks))
      || (s.writer.Look? && s.buffer[s.pos].Empty?))
  }

  lemma ProducerLess<T, U>(p: Plant<T, U>, s: State<T, U>, wake: nat)
    requires Sized(p, s) && ProducerStep(p, s, wake).Goes?
    ensures Left(p, ProducerStep(p, s, wake).s) < Left(p, s)
  {
    hide RankSum, WindowCost, SignalOne, ConsumerRank;
    if s.producer.Adding? { RankSignal(s.consumers, wake); SignalKeeps(s.consumers, wake); }
    if s.producer.Broadcasting? { RankAwake(s.consumers); }
  }

  lemma RankAwake<T, U>(cs: seq<Consumer<T, U>>)
    ensures RankSum(WakeAll(cs)) <= RankSum(cs) + |cs| && RankSum(RoomForAll(cs)) <= RankSum(cs) + |cs|
  {
    RankBroadcast(cs, WakeAll(cs));
    RankBroadcast(cs, RoomForAll(cs));
  }

  lemma SignalKeeps<T, U>(cs: seq<Consumer<T, U>>, w: nat)
    ensures |SignalOne(cs, w)| == |cs|
  {
    var i := WakeFirstOne(cs);
  }

  /** A consumer moves; what it took is one more block taken, and may make the producer go on. */
  lemma ConsumerPlaced<T, U>(p: Plant<T, U>, s: State<T, U>, i: nat)
    requires Sized(p, s) && i < |s.consumers| && ConsumerStep(p, s, i).Goes?
    ensures var r := ConsumerStep(p, s, i).s;
      && |r.consumers| == |s.consumers| && r.consumers == s.consumers[i := r.consumers[i]]
      && r.numBlocks == s.numBlocks && r.nextToWrite == s.nextToWrite && r.writer == s.writer
      && if |r.holder| == |s.holder| then r.producer == s.producer
      && ConsumerRank(r.consumers[i]) < ConsumerRank(s.consumers[i])
         else |r.holder| == |s.holder| + 1 && ConsumerRank(r.consumers[i]) <= ConsumerRank(s.consumers[i]) + 3
              && ProducerRank(r.producer, |s.consumers|) <= ProducerRank(s.producer, |s.consumers|) + 1
  {
  }

  lemma ConsumerLess<T, U>(p: Plant<T, U>, s: State<T, U>, i: nat)
    requires Sized(p, s) && i < |s.consumers| && ConsumerStep(p, s, i).Goes?
    ensures Left(p, ConsumerStep(p, s, i).s) < Left(p, s)
  {
    var r := ConsumerStep(p, s, i).s;
    ConsumerPlaced(p, s, i);
    hide RankSum, WindowCost, ConsumerStep;
    RankChange(s.consumers, i, r.consumers[i]);
  }

  lemma WriterLess<T, U>(p: Plant<T, U>, s: State<T, U>)
    requires Sized(p, s) && s.nextToWrite <= |p.chunks| && WriterStep(p, s).Goes?
    requires s.writer.Update? ==> s.nextToWrite < |p.chunks|
    ensures var r := WriterStep(p, s).s;
      if Polls(p, s, WriterTurn) then Left(p, r) == Left(p, s) else Left(p, r) < Left(p, s)
  {
    hide RankSum;
    if s.writer.Update? { RankAwake(s.consumers); }
  }

  /** Every step but the writer's looking again leaves less to do. */
  lemma StepLess<T, U>(p: Plant<T, U>, s: State<T, U>, t: Turn)
    requires Inv(p, s) && Step(p, s, t).Goes?
    ensures Inv(p, Step(p, s, t).s)
    ensures if Polls(p, s, t) then Left(p, Step(p, s, t).s) == Left(p, s) else Left(p, Step(p, s, t).s) < Left(p, s)
  {
    StepKeeps(p, s, t);
    LeftAtLeastNone(p, s);
    Updating(p, s);
    hide Inv, Left;
    match t
    case ProducerTurn(wake) => ProducerLess(p, s, wake);
    case ConsumerTurn(i) => if i < |s.consumers| { ConsumerLess(p, s, i); }
    case WriterTurn => WriterLess(p, s);
  }

  lemma Updating<T, U>(p: Plant<T, U>, s: State<T, U>)
    requires Inv(p, s)
    ensures Sized(p, s) && (s.writer.Update? ==> s.nextToWrite < |p.chunks|)
  {
    hide Slots, Waits, InOrder;
  }

  // Runs: a bound on the steps that are not polling.

  /** How many of the first `k` steps are not polling. */
  ghost function Works<T, U>(p: Plant<T, U>, run: seq<State<T, U>>, turns: seq<Turn>, k: nat): nat {
    if k == 0 || k > |turns| || k > |run| then 0
    else Works(p, run, turns, k - 1) + if Sized(p, run[k - 1]) && Polls(p, run[k - 1], turns[k - 1]) then 0 else 1
  }

  lemma {:induction false} LeftAfter<T, U>(p: Plant<T, U>, run: seq<State<T, U>>, turns: seq<Turn>, k: nat)
    requires Runs(p, run, turns) && k <= |turns|
    ensures Left(p, run[k]) + Works(p, run, turns, k) <= Left(p, run[0])
  {
    hide Left, Polls;
    if k > 0 {
      var l := k - 1;
      LeftAfter(p, run, turns, l);
      RunInv(p, run, turns, l);
      assert Step(p, run[l], turns[l]) == Goes(run[l + 1]);
      StepLess(p, run[l], turns[l]);
    }
  }

  lemma {:induction false} TakingSum<T, U>(cs: seq<Consumer<T, U>>)
    requires forall i {:trigger cs[i]} :: 0 <= i < |cs| ==> cs[i].Taking?
    ensures RankSum(cs) == 2 * |cs|
  {
    if cs != [] { TakingSum(cs[..|cs| - 1]); }
  }

  lemma {:induction false} WindowSum(w: nat, k: nat)
    ensures WindowCost(w, k) == k * (w + 3)
  {
    if k > 0 { WindowSum(w, k - 1); }
  }

  lemma LeftAtFirst<T, U>(p: Plant<T, U>, s: State<T, U>)
    requires Init(p, s)
    ensures Left(p, s) == |p.chunks| * (|s.consumers| + 11) + 3 * |s.consumers| + 8
  {
    TakingSum(s.consumers);
    WindowSum(|s.consumers|, |p.chunks|);
  }

  /** However the threads are scheduled, all steps but the writer's looking again are no more than this many. */
  lemma RunShort<T, U>(p: Plant<T, U>, run: seq<State<T, U>>, turns: seq<Turn>)
    requires Runs(p, run, turns)
    ensures Works(p, run, turns, |turns|) <= |p.chunks| * (|run[0].consumers| + 11) + 3 * |run[0].consumers| + 8
  {
    var k := |turns|;
    LeftAfter(p, run, turns, k);
    RunInv(p, run, turns, k);
    LeftAtLeastNone(p, run[k]);
    LeftAtFirst(p, run[0]);
  }

  // Schedules in which every thread has its turn again and again.

  /** A turn of a thread that cannot go on passes. */
  function Next<T, U>(p: Plant<T, U>, s: State<T, U>, t: Turn): (r: State<T, U>)
    requires Inv(p, s)
    ensures Inv(p, r)
  {
    StepKeeps(p, s, t);
    if Step(p, s, t).Goes? then Step(p, s, t).s else s
  }

  function After<T, U>(p: Plant<T, U>, s: State<T, U>, turns: seq<Turn>): (r: State<T, U>)
    requires Inv(p, s)
    ensures Inv(p, r)
    decreases |turns|
  {
    if turns == [] then s else After(p, Next(p, s, turns[0]), turns[1..])
  }

  function WriterTurns(turns: seq<Turn>): nat {
    if turns == [] then 0 else (if turns[0].WriterTurn? then 1 else 0) + WriterTurns(turns[1..])
  }

  /** Producer and consumers have a turn, and the writer two. */
  predicate Serves(turns: seq<Turn>, w: nat) {
    && (exists t :: t in turns && t.ProducerTurn?)
    && (forall i {:trigger ConsumerTurn(i)} :: 0 <= i < w ==> ConsumerTurn(i) in turns)
    && WriterTurns(turns) >= 2
  }

  /** The writer's next step is not polling. */
  predicate WorksNow<T, U>(p: Plant<T, U>, s: State<T, U>)
    requires Sized(p, s)
  {
    !s.writer.Finished? && !Polls(p, s, WriterTurn)
  }

  /** Nobody has moved but the writer, polling. */
  ghost predicate Still<T, U>(p: Plant<T, U>, s: State<T, U>, turns: seq<Turn>)
    requires Sized(p, s)
  {
    && (forall t :: t in turns && t.ProducerTurn? ==> !ProducerStep(p, s, 0).Goes?)
    && (forall i: nat {:trigger ConsumerTurn(i)} :: ConsumerTurn(i) in turns && i < |s.consumers| ==>
      !ConsumerStep(p, s, i).Goes?)
    && (WriterTurns(turns) >= 1 ==> !WorksNow(p, s))
    && (WriterTurns(turns) >= 2 && WriterHasWork(p, s) ==> s.writer.Finished?)
  }

  /** A turn leaves less to do, or changes nothing but where the writer polls. */
  lemma NextLess<T, U>(p: Plant<T, U>, s: State<T, U>, t: Turn)
    requires Inv(p, s)
    ensures var r := Next(p, s, t);
      && Left(p, r) <= Left(p, s)
      && (Left(p, r) == Left(p, s) && Step(p, s, t).Goes? ==> Polls(p, s, t))
  {
    hide Left, Polls;
    if Step(p, s, t).Goes? { StepLess(p, s, t); }
  }

  lemma {:induction false} StillOrLess<T, U>(p: Plant<T, U>, s: State<T, U>, turns: seq<Turn>)
    requires Inv(p, s)
    ensures Left(p, After(p, s, turns)) <= Left(p, s)
    ensures Left(p, After(p, s, turns)) == Left(p, s) ==> Still(p, s, turns)
    decreases |turns|
  {
    if turns != [] {
      var r := Next(p, s, turns[0]);
      NextLess(p, s, turns[0]);
      StillOrLess(p, r, turns[1..]);
      if Left(p, After(p, s, turns)) == Left(p, s) { StillMore(p, s, turns); }
    }
  }

  lemma StillMore<T, U>(p: Plant<T, U>, s: State<T, U>, turns: seq<Turn>)
    requires Inv(p, s) && turns != []
    requires Step(p, s, turns[0]).Goes? ==> Polls(p, s, turns[0])
    requires Still(p, Next(p, s, turns[0]), turns[1..])
    ensures Still(p, s, turns)
  {
    Updating(p, s);
    hide Inv;
    assert turns == [turns[0]] + turns[1..];
    if Step(p, s, turns[0]).Goes? { StillPolling(p, s, turns); }
  }

  /** After a turn of polling. */
  lemma StillPolling<T, U>(p: Plant<T, U>, s: State<T, U>, turns: seq<Turn>)
    requires Sized(p, s) && turns != [] && Polls(p, s, turns[0]) && Still(p, WriterStep(p, s).s, turns[1..])
    ensures Still(p, s, turns)
  {
    var r := WriterStep(p, s).s;
    assert r == s.(writer := r.writer);
    assert turns == [turns[0]] + turns[1..];
    forall i: nat {:trigger ConsumerTurn(i)} | ConsumerTurn(i) in turns && i < |s.consumers|
      ensures !ConsumerStep(p, s, i).Goes? {
      assert ConsumerTurn(i) in turns[1..];
    }
  }

  /** When every thread has had its turn, there is less to do or all is done. */
  lemma ServedLess<T, U>(p: Plant<T, U>, s: State<T, U>, turns: seq<Turn>)
    requires Inv(p, s) && !s.writer.Finished? && Serves(turns, |s.consumers|)
    ensures Left(p, After(p, s, turns)) < Left(p, s)
  {
    StillOrLess(p, s, turns);
    if Left(p, After(p, s, turns)) == Left(p, s) { NotStill(p, s, turns); }
  }

  lemma NotStill<T, U>(p: Plant<T, U>, s: State<T, U>, turns: seq<Turn>)
    requires Inv(p, s) && !s.writer.Finished? && Serves(turns, |s.consumers|)
    ensures !Still(p, s, turns)
  {
    NotStuck(p, s);
    Updating(p, s);
    if !ConsumersBlocked(p, s) {
      var i: nat :| i < |s.consumers| && !ConsumerStep(p, s, i).Blocked?;
      ConsumerKeeps(p, s, i);
      hide Inv, ConsumerStep;
      assert ConsumerTurn(i) in turns;
    }
  }

  /** Turns in pieces, one after another. */
  function AfterAll<T, U>(p: Plant<T, U>, s: State<T, U>, pieces: seq<seq<Turn>>): (r: State<T, U>)
    requires Inv(p, s)
    ensures Inv(p, r)
    decreases |pieces|
  {
    if pieces == [] then s else AfterAll(p, After(p, s, pieces[0]), pieces[1..])
  }

  lemma NextKeeps<T, U>(p: Plant<T, U>, s: State<T, U>, t: Turn)
    requires Inv(p, s)
    ensures |Next(p, s, t).consumers| == |s.consumers| && (s.writer.Finished? ==> Next(p, s, t).writer.Finished?)
  {
    Updating(p, s);
    hide Inv;
    if Step(p, s, t).Goes? { StepCount(p, s, t); }
    hide Step;
  }

  lemma StepCount<T, U>(p: Plant<T, U>, s: State<T, U>, t: Turn)
    requires Sized(p, s) && Step(p, s, t).Goes?
    ensures |Step(p, s, t).s.consumers| == |s.consumers| && (s.writer.Finished? ==> Step(p, s, t).s.writer.Finished?)
  {
    match t
    case ProducerTurn(wake) => SignalKeeps(s.consumers, wake); hide SignalOne;
    case ConsumerTurn(i) => ConsumerPlaced(p, s, i); hide ConsumerStep;
    case WriterTurn =>
  }

  lemma {:induction false} AfterKeeps<T, U>(p: Plant<T, U>, s: State<T, U>, turns: seq<Turn>)
    requires Inv(p, s)
    ensures |After(p, s, turns).consumers| == |s.consumers|
      && (s.writer.Finished? ==> After(p, s, turns).writer.Finished?)
    decreases |turns|
  {
    hide Inv, Next;
    if turns != [] {
      NextKeeps(p, s, turns[0]);
      AfterKeeps(p, Next(p, s, turns[0]), turns[1..]);
    }
  }

  /** Once every thread has had its turns more often than there is work left, the writer has ended. */
  lemma {:induction false} ServedFinishes<T, U>(p: Plant<T, U>, s: State<T, U>, pieces: seq<seq<Turn>>)
    requires Inv(p, s) && (s.writer.Finished? || |pieces| > Left(p, s))
    requires forall k {:trigger pieces[k]} :: 0 <= k < |pieces| ==> Serves(pieces[k], |s.consumers|)
    ensures AfterAll(p, s, pieces).writer.Finished?
    decreases |pieces|
  {
    LeftAtLeastNone(p, s);
    hide Inv, Left, After, Serves;
    if pieces != [] {
      AfterKeeps(p, s, pieces[0]);
      if !s.writer.Finished? { ServedLess(p, s, pieces[0]); }
      ServedFinishes(p, After(p, s, pieces[0]), pieces[1..]);
    }
  }

  /**
   * Whatever the schedule, if it gives every thread its turns this often, pbzip2 ends with every block written,
   * compressed, in order, each once.
   */
  lemma Terminates<T, U>(p: Plant<T, U>, s: State<T, U>, pieces: seq<seq<Turn>>)
    requires Init(p, s) && |pieces| > |p.chunks| * (|s.consumers| + 11) + 3 * |s.consumers| + 8
    requires forall k {:trigger pieces[k]} :: 0 <= k < |pieces| ==> Serves(pieces[k], |s.consumers|)
    ensures Inv(p, s)
    ensures var r := AfterAll(p, s, pieces);
      && r.writer.Finished? && |r.written| == |p.chunks|
      && forall k {:trigger r.written[k]} :: 0 <= k < |p.chunks| ==> r.written[k] == p.compress(p.chunks[k])
  {
    InitInv(p, s);
    LeftAtFirst(p, s);
    hide Left, AfterAll, Serves;
    ServedFinishes(p, s, pieces);
  }
}
