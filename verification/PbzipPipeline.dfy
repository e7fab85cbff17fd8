/** pbzip2's compress path: a producer, any number of consumers and a file writer, as atomic steps. */
module PbzipPipeline {
  import opened Rings

  /** The queue of blocks between producer and consumers, first in first out, of at most `size` blocks. */
  datatype Plant<!T, !U> = Plant(size: nat, max: nat, chunks: seq<T>, compress: T -> U)

  /** `outBuff`: a block and its number. */
  datatype Block<T> = Block(num: nat, data: T)

  datatype Slot<U> = Empty | Full(b: Block<U>)

  datatype Producer = Reading | Adding | WaitNotFull | SettingDone | Broadcasting | Exited

  datatype Consumer<T, U> =
    | Taking | WaitNotEmpty | Compressing(b: Block<T>) | Storing(c: Block<U>) | WaitRoom(c: Block<U>) | Gone

  datatype Writer = Check | Look | Write | Update | Finished

  /**
   * The shared variables and each thread's place; `pos` and `curr` are the writer's own. `holder` is history: which
   * consumer took each block.
   */
  datatype State<T, U> = State(
    fifo: seq<Block<T>>, numBlocks: nat, done: bool,
    buffer: seq<Slot<U>>, nextToWrite: nat, posToWrite: nat,
    producer: Producer, consumers: seq<Consumer<T, U>>,
    writer: Writer, pos: nat, curr: nat, written: seq<U>, holder: seq<nat>)

  /** A thread cannot go on, would use a wrong slot, or goes to the next state. */
  datatype Move<S> = Blocked | Crash | Goes(s: S)

  predicate Sized<T, U>(p: Plant<T, U>, s: State<T, U>) {
    0 < p.size && 0 < p.max == |s.buffer| && s.pos < p.max && s.posToWrite < p.max && 0 < |s.consumers|
  }

  /** `getOutputBufferPos` */
  function OutputPos(max: nat, posToWrite: nat, nextToWrite: nat, num: nat): int {
    var x := posToWrite + num - nextToWrite;
    if x >= max then x - max else x
  }

  // The producer.

  function Wake<T, U>(c: Consumer<T, U>): Consumer<T, U> {
    if c.WaitNotEmpty? then Taking else c
  }

  function WakeAll<T, U>(cs: seq<Consumer<T, U>>): (ds: seq<Consumer<T, U>>)
    ensures |ds| == |cs| && forall i {:trigger ds[i]} :: 0 <= i < |cs| ==> ds[i] == Wake(cs[i])
  {
    seq(|cs|, i requires 0 <= i < |cs| => Wake(cs[i]))
  }

  /** Signals one consumer that waits for a block, if any does: `i` if it is one of them, else the first. */
  function SignalOne<T, U>(cs: seq<Consumer<T, U>>, i: nat): seq<Consumer<T, U>> {
    if i < |cs| && cs[i].WaitNotEmpty? then cs[i := Taking] else WakeFirst(cs)
  }

  function WakeFirst<T, U>(cs: seq<Consumer<T, U>>): seq<Consumer<T, U>> {
    if cs == [] then [] else if cs[0].WaitNotEmpty? then cs[0 := Taking] else [cs[0]] + WakeFirst(cs[1..])
  }

  function ProducerStep<T, U>(p: Plant<T, U>, s: State<T, U>, wake: nat): Move<State<T, U>> {
    match s.producer
    case Reading => Goes(s.(producer := if s.numBlocks < |p.chunks| then Adding else SettingDone))
    case Adding =>
      if |s.fifo| >= p.size then Goes(s.(producer := WaitNotFull))
      else if s.numBlocks < |p.chunks| then
        Goes(s.(fifo := s.fifo + [Block(s.numBlocks, p.chunks[s.numBlocks])], numBlocks := s.numBlocks + 1, producer :=
          Reading,
                consumers := SignalOne(s.consumers, wake)))
      else Crash
    case SettingDone => Goes(s.(done := true, producer := Broadcasting))
    case Broadcasting => Goes(s.(consumers := WakeAll(s.consumers), producer := Exited))
    case _ => Blocked
  }

  // The consumers.

  function Place<T, U>(s: State<T, U>, i: nat, c: Consumer<T, U>): State<T, U>
    requires i < |s.consumers|
  {
    s.(consumers := s.consumers[i := c])
  }

  /** A block is taken, and a producer that waits for room is signalled. */
  function Take<T, U>(s: State<T, U>, i: nat): State<T, U>
    requires i < |s.consumers| && s.fifo != []
  {
    Place(s, i, Compressing(s.fifo[0])).(
      fifo := s.fifo[1..], holder := s.holder + [i], producer := if s.producer.WaitNotFull? then Adding else s.producer)
  }

  /** `outputBufferAdd`: outside the window it waits; a slot outside the buffer or still in use must never come up. */
  function Store<T, U>(p: Plant<T, U>, s: State<T, U>, i: nat, c: Block<U>): Move<State<T, U>>
    requires Sized(p, s) && i < |s.consumers|
  {
    var x := OutputPos(p.max, s.posToWrite, s.nextToWrite, c.num);
    if c.num - p.max >= s.nextToWrite then Goes(Place(s, i, WaitRoom(c)))
    else if 0 <= x < p.max && s.buffer[x].Empty? then Goes(Place(s, i, Taking).(buffer := s.buffer[x := Full(c)]))
    else Crash
  }

  function ConsumerStep<T, U>(p: Plant<T, U>, s: State<T, U>, i: nat): Move<State<T, U>>
    requires Sized(p, s) && i < |s.consumers|
  {
    match s.consumers[i]
    case Taking =>
      if s.fifo != [] then Goes(Take(s, i)) else Goes(Place(s, i, if s.done then Gone else WaitNotEmpty))
    case Compressing(b) => Goes(Place(s, i, Storing(Block(b.num, p.compress(b.data)))))
    case Storing(c) => Store(p, s, i, c)
    case _ => Blocked
  }

  // The writer.

  function Room<T, U>(c: Consumer<T, U>): Consumer<T, U> {
    if c.WaitRoom? then Storing(c.c) else c
  }

  function RoomForAll<T, U>(cs: seq<Consumer<T, U>>): (ds: seq<Consumer<T, U>>)
    ensures |ds| == |cs| && forall i {:trigger ds[i]} :: 0 <= i < |cs| ==> ds[i] == Room(cs[i])
  {
    seq(|cs|, i requires 0 <= i < |cs| => Room(cs[i]))
  }

  /** The wait of the writer is timed: it looks again, signalled or not. */
  function WriterStep<T, U>(p: Plant<T, U>, s: State<T, U>): Move<State<T, U>>
    requires Sized(p, s)
  {
    match s.writer
    case Check => Goes(s.(writer := if s.done && s.curr >= s.numBlocks then Finished else Look))
    case Look => Goes(s.(writer := if s.buffer[s.pos].Empty? then Check else Write))
    case Write =>
      if s.buffer[s.pos].Empty? then Crash
      else Goes(s.(written := s.written + [s.buffer[s.pos].b.data], buffer := s.buffer[s.pos := Empty],
                   pos := Advance(s.pos, p.max), curr := s.curr + 1, writer := Update))
    case Update =>
      Goes(s.(nextToWrite := s.nextToWrite + 1, posToWrite := s.pos, consumers := RoomForAll(s.consumers), writer :=
        Check))
    case Finished => Blocked
  }

  ghost predicate Init<T, U>(p: Plant<T, U>, s: State<T, U>) {
    && Sized(p, s) && s.fifo == [] && s.numBlocks == 0 && !s.done
    && s.nextToWrite == s.posToWrite == s.pos == s.curr == 0
    && (forall x {:trigger s.buffer[x]} :: 0 <= x < p.max ==> s.buffer[x].Empty?) && s.producer.Reading?
    && (forall i {:trigger s.consumers[i]} :: 0 <= i < |s.consumers| ==> s.consumers[i].Taking?) && s.writer.Check?
    && s.written == [] && s.holder == []
  }
}
