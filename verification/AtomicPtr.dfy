/** canneal's lock-free swap of two pointer cells by compare-and-set, as steps of any number of threads. */
module AtomicPtr {

  /** A cell holds a pointer, or the null that marks it as checked out. */
  datatype Cell<T> = Null | Ptr(v: T)

  /**
   * Where a thread is in Swap: about to load or to compare-and-set the first cell or the last, or to check in the
   * first again. `x` and `v` are what it has read or holds. In Get it is about to load the cell.
   */
  datatype Thread<T> =
    | Idle
    | LoadFirst(a: nat, b: nat)
    | CasFirst(a: nat, b: nat, v: T)
    | LoadLast(a: nat, b: nat, x: T)
    | CasLast(a: nat, b: nat, x: T, v: T)
    | Checkin(a: nat, x: T)
    | Getting(c: nat)

  /** What an idle thread calls: X.Swap(Y) or X.Get(), cells being numbered by address. */
  datatype Call = Swap(i: nat, j: nat) | Get(c: nat)

  /** The value `v` that a Get of cell `c` by thread `t` returned after the first `at` swaps. */
  datatype Reading<T> = Reading(t: nat, c: nat, v: T, at: nat)

  /** A Swap of cells `a` and `b` by thread `t` that took effect. */
  datatype Event = Event(t: nat, a: nat, b: nat)

  /**
   * The rest is history: the swaps in the order in which they take effect, how often each thread has called Swap, and
   * what every Get returned.
   */
  datatype State<T> = State(cells: seq<Cell<T>>, threads: seq<Thread<T>>, log: seq<Event>, calls: seq<nat>,
        readings: seq<Reading<T>>)

  /** `this < &X`: cells are always taken from lower to higher addresses. */
  function Start<T>(i: nat, j: nat): Thread<T> {
    if i < j then LoadFirst(i, j) else LoadFirst(j, i)
  }

  /** Swap is called on two different cells. */
  predicate Allowed(call: Call, n: nat) {
    match call
    case Swap(i, j) => i != j && i < n && j < n
    case Get(c) => c < n
  }

  function Begin<T>(s: State<T>, t: nat, call: Call): State<T>
    requires Sized(s) && t < |s.threads|
  {
    match call
    case Swap(i, j) => Goto(s, t, Start(i, j)).(calls := s.calls[t := s.calls[t] + 1])
    case Get(c) => Goto(s, t, Getting(c))
  }

  /** The next atomic step of thread `t`; if it is idle, it makes the call. */
  function Step<T(==)>(s: State<T>, t: nat, call: Call): State<T>
    requires Sized(s) && t < |s.threads| && Allowed(call, |s.cells|)
  {
    match s.threads[t]
    case Idle => Begin(s, t, call)
    case Getting(c) =>
      if s.cells[c].Null? then s else Goto(s, t, Idle).(readings := s.readings + [Reading(t, c, s.cells[c].v, |s.log|)])
    case LoadFirst(a, b) => if s.cells[a].Null? then s else Goto(s, t, CasFirst(a, b, s.cells[a].v))
    case CasFirst(a, b, v) =>
      if s.cells[a] == Ptr(v) then Goto(s, t, LoadLast(a, b, v)).(cells := s.cells[a := Null])
        else Goto(s, t, LoadFirst(a, b))
    case LoadLast(a, b, x) => if s.cells[b].Null? then s else Goto(s, t, CasLast(a, b, x, s.cells[b].v))
    case CasLast(a, b, x, v) =>
      if s.cells[b] == Ptr(v)
      then Goto(s, t, Checkin(a, v)).(cells := s.cells[b := Ptr(x)], log := s.log + [Event(t, a, b)])
      else Goto(s, t, LoadLast(a, b, x))
    case Checkin(a, x) => Goto(s, t, Idle).(cells := s.cells[a := Ptr(x)])
  }

  function Goto<T>(s: State<T>, t: nat, pc: Thread<T>): State<T>
    requires t < |s.threads|
  {
    s.(threads := s.threads[t := pc])
  }

  /** Every thread works on two different cells, the first below the last. */
  ghost predicate Sized<T>(s: State<T>) {
    |s.calls| == |s.threads| && forall t {:trigger s.threads[t]} :: 0 <= t < |s.threads| ==>
      Placed(s.threads[t], |s.cells|)
  }

  predicate Placed<T>(pc: Thread<T>, n: nat) {
    match pc
    case Idle => true
    case LoadFirst(a, b) => a < b < n
    case CasFirst(a, b, _) => a < b < n
    case LoadLast(a, b, _) => a < b < n
    case CasLast(a, b, _, _) => a < b < n
    case Checkin(a, _) => a < n
    case Getting(c) => c < n
  }

  /** The thread has checked out cell `c`. */
  predicate Holds<T>(pc: Thread<T>, c: nat) {
    (pc.LoadLast? || pc.CasLast? || pc.Checkin?) && pc.a == c
  }

  /** What some thread holds for cell `c`; Null if none does. */
  function InHand<T>(threads: seq<Thread<T>>, c: nat): Cell<T> {
    if threads == [] then Null
    else
      var n := |threads| - 1;
      if Holds(threads[n], c) then Ptr(threads[n].x) else InHand(threads[..n], c)
  }

  /** A cell's pointer, wherever it is. */
  function Value<T>(s: State<T>, c: nat): Cell<T>
    requires c < |s.cells|
  {
    if s.cells[c].Ptr? then s.cells[c] else InHand(s.threads, c)
  }

  /** The abstract array of pointers that clients think of. */
  function Values<T>(s: State<T>): (vs: seq<Cell<T>>)
    ensures |vs| == |s.cells|
  {
    seq(|s.cells|, c requires 0 <= c < |s.cells| => Value(s, c))
  }

  predicate Holding<T>(pc: Thread<T>) {
    pc.LoadLast? || pc.CasLast? || pc.Checkin?
  }

  /** A cell is null exactly while one thread holds it, and no two threads hold the same. */
  ghost predicate Owned<T>(cells: seq<Cell<T>>, threads: seq<Thread<T>>) {
    && (forall t {:trigger threads[t]} :: 0 <= t < |threads| && Holding(threads[t]) ==>
      threads[t].a < |cells| && cells[threads[t].a].Null?)
    && (forall t, u {:trigger threads[t], threads[u]} :: 0 <= t < |threads| && 0 <= u < |threads| ==>
          Holding(threads[t]) && Holding(threads[u]) && threads[t].a == threads[u].a ==> t == u)
    && (forall c {:trigger cells[c]} :: 0 <= c < |cells| && cells[c].Null? ==> InHand(threads, c).Ptr?)
  }

  /** Thread `t`'s swaps, in the order in which they took effect. */
  function EventsOf(log: seq<Event>, t: nat): seq<Event> {
    if log == [] then []
    else EventsOf(log[..|log| - 1], t) + if log[|log| - 1].t == t then [log[|log| - 1]] else []
  }

  /** Thread `t`'s readings, in the order in which they were taken. */
  function ReadingsOf<T>(readings: seq<Reading<T>>, t: nat): seq<Reading<T>> {
    if readings == [] then []
    else
      var last := readings[|readings| - 1];
      ReadingsOf(readings[..|readings| - 1], t) + if last.t == t then [last] else []
  }

  /** A call has not yet taken effect. */
  predicate Pending<T>(pc: Thread<T>) {
    pc.LoadFirst? || pc.CasFirst? || pc.LoadLast? || pc.CasLast?
  }

  /** Every call takes effect once, before it returns. */
  ghost predicate Once<T>(threads: seq<Thread<T>>, log: seq<Event>, calls: seq<nat>) {
    && |calls| == |threads|
    && forall t {:trigger threads[t]} :: 0 <= t < |threads| ==>
      |EventsOf(log, t)| + (if Pending(threads[t]) then 1 else 0) == calls[t]
  }

  ghost predicate Inv<T>(s: State<T>) {
    Sized(s) && Owned(s.cells, s.threads) && Once(s.threads, s.log, s.calls)
  }

  /** Cells full, threads idle, no history. */
  ghost predicate Init<T>(s: State<T>) {
    && (forall c {:trigger s.cells[c]} :: 0 <= c < |s.cells| ==> s.cells[c].Ptr?)
    && (forall t {:trigger s.threads[t]} :: 0 <= t < |s.threads| ==> s.threads[t].Idle?)
    && s.log == [] && s.readings == [] && |s.calls| == |s.threads| && forall t {:trigger s.calls[t]} ::
      0 <= t < |s.calls| ==> s.calls[t] == 0
  }

  function Swapped<X>(vs: seq<X>, a: nat, b: nat): seq<X>
    requires a < |vs| && b < |vs|
  {
    vs[a := vs[b]][b := vs[a]]
  }

  /** The abstract array after the swaps in `log`. */
  function Replay<X>(vs: seq<X>, log: seq<Event>): (ws: seq<X>)
    ensures |ws| == |vs|
  {
    if log == [] then vs
    else
      var ws, e := Replay(vs, log[..|log| - 1]), log[|log| - 1];
      if e.a < |vs| && e.b < |vs| then Swapped(ws, e.a, e.b) else ws
  }

  // Hands under a step.

  lemma {:induction false} HandOf<T>(threads: seq<Thread<T>>, c: nat, t: nat)
    requires t < |threads| && Holds(threads[t], c)
    requires forall u {:trigger threads[u]} :: 0 <= u < |threads| && Holds(threads[u], c) ==> u == t
    ensures InHand(threads, c) == Ptr(threads[t].x)
  {
    var n := |threads| - 1;
    if t < n {
      assert !Holds(threads[n], c);
      HandOf(threads[..n], c, t);
    }
  }

  lemma {:induction false} HandFound<T>(threads: seq<Thread<T>>, c: nat) returns (t: nat)
    requires InHand(threads, c).Ptr?
    ensures t < |threads| && Holds(threads[t], c)
  {
    var n := |threads| - 1;
    if Holds(threads[n], c) { t := n; } else { t := HandFound(threads[..n], c); }
  }

  /** A thread's move does not change what is held for cells that it holds neither before nor after. */
  lemma {:induction false} HandKept<T>(threads: seq<Thread<T>>, c: nat, t: nat, pc: Thread<T>)
    requires t < |threads| && !Holds(threads[t], c) && !Holds(pc, c)
    ensures InHand(threads[t := pc], c) == InHand(threads, c)
  {
    var n := |threads| - 1;
    if t < n {
      assert threads[t := pc][..n] == threads[..n][t := pc];
      HandKept(threads[..n], c, t, pc);
    } else {
      assert threads[t := pc][..n] == threads[..n];
    }
  }

  /** A thread that goes on holding the same pointer for a cell keeps everything else about hands. */
  lemma {:induction false} HandMoved<T>(threads: seq<Thread<T>>, c: nat, t: nat, pc: Thread<T>)
    requires t < |threads| && Holds(threads[t], c) && Holds(pc, c) && pc.x == threads[t].x
    ensures InHand(threads[t := pc], c) == InHand(threads, c)
  {
    var n := |threads| - 1;
    if t < n {
      assert threads[t := pc][..n] == threads[..n][t := pc];
      HandMoved(threads[..n], c, t, pc);
    }
  }

  // What each step does to the values.

  /** Nothing visible happens. */
  ghost predicate Silent<T>(s: State<T>, s': State<T>) {
    Inv(s') && s'.log == s.log && s'.readings == s.readings && Values(s') == Values(s)
  }

  /** The thread holds no cell before or after. */
  lemma StayKeeps<T>(s: State<T>, t: nat, pc: Thread<T>)
    requires Inv(s) && t < |s.threads| && Placed(pc, |s.cells|) && !Holding(s.threads[t]) && !Holding(pc)
    requires Pending(s.threads[t]) && Pending(pc)
    ensures Silent(s, Goto(s, t, pc))
  {
    forall c | 0 <= c < |s.cells| ensures Value(Goto(s, t, pc), c) == Value(s, c)
      && InHand(s.threads[t := pc], c) == InHand(s.threads, c) {
      HandKept(s.threads, c, t, pc);
    }
  }

  lemma BeginKeeps<T>(s: State<T>, t: nat, call: Call)
    requires Inv(s) && t < |s.threads| && s.threads[t].Idle? && Allowed(call, |s.cells|)
    ensures Silent(s, Begin(s, t, call))
  {
    var pc := Begin(s, t, call).threads[t];
    forall c | 0 <= c < |s.cells| ensures InHand(s.threads[t := pc], c) == InHand(s.threads, c) {
      HandKept(s.threads, c, t, pc);
    }
  }

  /** Get finds the cell full: what it returns is the cell's value in the abstract array. */
  lemma GetKeeps<T>(s: State<T>, t: nat)
    requires Inv(s) && t < |s.threads| && s.threads[t].Getting? && s.cells[s.threads[t].c].Ptr?
    ensures var c := s.threads[t].c; var s' :=
      Goto(s, t, Idle).(readings := s.readings + [Reading(t, c, s.cells[c].v, |s.log|)]);
      Inv(s') && Values(s') == Values(s) && Values(s)[c] == Ptr(s.cells[c].v)
  {
    forall c | 0 <= c < |s.cells| ensures InHand(s.threads[t := Idle], c) == InHand(s.threads, c) {
      HandKept(s.threads, c, t, Idle);
    }
  }

  /** The thread goes on holding the same pointer for the same cell. */
  lemma HoldKeeps<T>(s: State<T>, t: nat, pc: Thread<T>)
    requires Inv(s) && t < |s.threads| && Placed(pc, |s.cells|) && Holding(s.threads[t]) && Holding(pc)
    requires pc.a == s.threads[t].a && pc.x == s.threads[t].x && Pending(s.threads[t]) && Pending(pc)
    ensures Silent(s, Goto(s, t, pc))
  {
    forall c | 0 <= c < |s.cells| ensures InHand(s.threads[t := pc], c) == InHand(s.threads, c) {
      if c == pc.a { HandMoved(s.threads, c, t, pc); } else { HandKept(s.threads, c, t, pc); }
    }
  }

  /** Checkout of the first cell. */
  lemma CheckoutKeeps<T>(s: State<T>, t: nat)
    requires Inv(s) && t < |s.threads| && s.threads[t].CasFirst? && s.cells[s.threads[t].a] == Ptr(s.threads[t].v)
    ensures var pc := s.threads[t];
      Silent(s, Goto(s, t, LoadLast(pc.a, pc.b, pc.v)).(cells := s.cells[pc.a := Null]))
  {
    var a, b, v := s.threads[t].a, s.threads[t].b, s.threads[t].v;
    var pc: Thread<T> := LoadLast(a, b, v);
    var threads := s.threads[t := pc];
    HandOf(threads, a, t);
    forall c | 0 <= c < |s.cells| && c != a ensures InHand(threads, c) == InHand(s.threads, c) {
      HandKept(s.threads, c, t, pc);
    }
  }

  /** The store to the last cell: this is where the swap takes effect. */
  function Effect<T>(s: State<T>, t: nat): State<T>
    requires t < |s.threads| && s.threads[t].CasLast? && s.threads[t].b < |s.cells|
  {
    var pc := s.threads[t];
    Goto(s, t, Checkin(pc.a, pc.v)).(cells := s.cells[pc.b := Ptr(pc.x)], log := s.log + [Event(t, pc.a, pc.b)])
  }

  lemma EffectKeeps<T>(s: State<T>, t: nat)
    requires Inv(s) && t < |s.threads| && s.threads[t].CasLast? && s.cells[s.threads[t].b] == Ptr(s.threads[t].v)
    ensures Inv(Effect(s, t))
  {
    var a, v := s.threads[t].a, s.threads[t].v;
    var threads := s.threads[t := Checkin(a, v)];
    assert Effect(s, t).log[..|s.log|] == s.log;
    HandOf(threads, a, t);
    forall c | 0 <= c < |s.cells| && c != a ensures InHand(threads, c) == InHand(s.threads, c) {
      HandKept(s.threads, c, t, Checkin(a, v));
    }
  }

  lemma EffectSwaps<T>(s: State<T>, t: nat)
    requires Inv(s) && t < |s.threads| && s.threads[t].CasLast? && s.cells[s.threads[t].b] == Ptr(s.threads[t].v)
    ensures Values(Effect(s, t)) == Swapped(Values(s), s.threads[t].a, s.threads[t].b)
  {
    var a, b, v := s.threads[t].a, s.threads[t].b, s.threads[t].v;
    var threads := s.threads[t := Checkin(a, v)];
    HandOf(s.threads, a, t);
    HandOf(threads, a, t);
    forall c | 0 <= c < |s.cells| ensures Value(Effect(s, t), c) == Swapped(Values(s), a, b)[c] {
      if c != a { HandKept(s.threads, c, t, Checkin(a, v)); }
    }
  }

  lemma CheckinKeeps<T>(s: State<T>, t: nat)
    requires Inv(s) && t < |s.threads| && s.threads[t].Checkin?
    ensures Silent(s, Goto(s, t, Idle).(cells := s.cells[s.threads[t].a := Ptr(s.threads[t].x)]))
  {
    var a := s.threads[t].a;
    HandOf(s.threads, a, t);
    forall c | 0 <= c < |s.cells| && c != a ensures InHand(s.threads[t := Idle], c) == InHand(s.threads, c) {
      HandKept(s.threads, c, t, Idle);
    }
  }

  /** Every step either changes no value, or is one transposition, logged with the cells that the thread swaps. */
  lemma StepRefines<T>(s: State<T>, t: nat, call: Call)
    requires Inv(s) && t < |s.threads| && Allowed(call, |s.cells|)
    ensures var s', pc := Step(s, t, call), s.threads[t];
      Inv(s') && if pc.CasLast? && s.cells[pc.b] == Ptr(pc.v)
                 then s'.log == s.log + [Event(t, pc.a, pc.b)] && Values(s') == Swapped(Values(s), pc.a, pc.b)
                 else s'.log == s.log && Values(s') == Values(s)
    ensures var s', pc := Step(s, t, call), s.threads[t];
      if pc.Getting? && s.cells[pc.c].Ptr?
      then s'.readings == s.readings + [Reading(t, pc.c, s.cells[pc.c].v, |s.log|)]
        && Values(s)[pc.c] == Ptr(s.cells[pc.c].v)
      else s'.readings == s.readings
  {
    match s.threads[t]
    case Idle => BeginKeeps(s, t, call);
    case Getting(c) => if s.cells[c].Ptr? { GetKeeps(s, t); }
    case LoadFirst(a, b) => if s.cells[a].Ptr? { StayKeeps(s, t, CasFirst(a, b, s.cells[a].v)); }
    case CasFirst(a, b, v) => if s.cells[a] == Ptr(v) { CheckoutKeeps(s, t); }
      else { StayKeeps(s, t, LoadFirst(a, b)); }
    case LoadLast(a, b, x) => if s.cells[b].Ptr? { HoldKeeps(s, t, CasLast(a, b, x, s.cells[b].v)); }
    case CasLast(a, b, x, v) => if s.cells[b] == Ptr(v) { EffectKeeps(s, t); EffectSwaps(s, t); }
      else { HoldKeeps(s, t, LoadLast(a, b, x)); }
    case Checkin(a, x) => CheckinKeeps(s, t);
  }

  // Whole runs.

  /** Whose turn it is, and what it calls if it is idle. */
  datatype Turn = Turn(t: nat, call: Call)

  ghost predicate Run<T>(run: seq<State<T>>, turns: seq<Turn>) {
    && |run| == |turns| + 1 && Init(run[0])
    && forall n {:trigger turns[n]} :: 0 <= n < |turns| ==>
         var s, u := run[n], turns[n];
         Sized(s) && u.t < |s.threads| && Allowed(u.call, |s.cells|) && run[n + 1] == Step(s, u.t, u.call)
  }

  lemma InitInv<T>(s: State<T>)
    requires Init(s)
    ensures Inv(s)
  {
  }

  /** Every run is, for its clients, a sequence of atomic transpositions, each call's taking effect once. */
  lemma {:induction false} RunRefines<T>(run: seq<State<T>>, turns: seq<Turn>, n: nat)
    requires Run(run, turns) && n < |run|
    ensures Inv(run[n]) && Values(run[n]) == Replay(Values(run[0]), run[n].log)
    ensures |run[n].cells| == |run[0].cells|
  {
    if n == 0 { InitInv(run[0]); } else {
      var k := n - 1;
      RunRefines(run, turns, k);
      var s, u := run[k], turns[k];
      assert run[k + 1] == Step(s, u.t, u.call);
      StepRefines(s, u.t, u.call);
      var pc := s.threads[u.t];
      if pc.CasLast? && s.cells[pc.b] == Ptr(pc.v) {
        assert run[n].log[..|s.log|] == s.log;
      }
    }
  }

  /** Every Get returned what the swaps before its load left in its cell. */
  ghost predicate Read<T>(vs: seq<Cell<T>>, log: seq<Event>, readings: seq<Reading<T>>) {
    forall n {:trigger readings[n]} :: 0 <= n < |readings| ==>
      readings[n].at <= |log| && readings[n].c < |vs|
        && Replay(vs, log[..readings[n].at])[readings[n].c] == Ptr(readings[n].v)
  }

  lemma ReadMore<T>(vs: seq<Cell<T>>, log: seq<Event>, readings: seq<Reading<T>>, e: Event)
    requires Read(vs, log, readings)
    ensures Read(vs, log + [e], readings)
  {
    var l := log + [e];
    forall n {:trigger readings[n]} | 0 <= n < |readings|
      ensures readings[n].at <= |l| && readings[n].c < |vs|
        && Replay(vs, l[..readings[n].at])[readings[n].c] == Ptr(readings[n].v)
    {
      assert l[..readings[n].at] == log[..readings[n].at];
    }
  }

  lemma ReadOne<T>(vs: seq<Cell<T>>, log: seq<Event>, readings: seq<Reading<T>>, t: nat, c: nat, v: T)
    requires Read(vs, log, readings) && c < |vs| && Replay(vs, log)[c] == Ptr(v)
    ensures Read(vs, log, readings + [Reading(t, c, v, |log|)])
  {
    assert log[..|log|] == log;
  }

  /** In every run, every Get is linearizable with the swaps: it returns the abstract value at its load. */
  lemma {:induction false} RunReads<T>(run: seq<State<T>>, turns: seq<Turn>, n: nat)
    requires Run(run, turns) && n < |run|
    ensures Read(Values(run[0]), run[n].log, run[n].readings)
  {
    if n > 0 {
      var k := n - 1;
      RunReads(run, turns, k);
      RunRefines(run, turns, k);
      var s, u := run[k], turns[k];
      assert run[k + 1] == Step(s, u.t, u.call);
      StepRefines(s, u.t, u.call);
      var pc := s.threads[u.t];
      if pc.CasLast? && s.cells[pc.b] == Ptr(pc.v) { ReadMore(Values(run[0]), s.log, s.readings,
        Event(u.t, pc.a, pc.b)); }
      if pc.Getting? && s.cells[pc.c].Ptr? { ReadOne(Values(run[0]), s.log, s.readings, u.t, pc.c,
        s.cells[pc.c].v); }
    }
  }

  // What a call comes to.

  /** `e` is the swap that was called for, whichever of its cells is taken first. */
  predicate Between(e: Event, i: nat, j: nat) {
    (e.a == i && e.b == j) || (e.a == j && e.b == i)
  }

  /** `now` has one more swap than `was`, of cells `i` and `j`. */
  predicate OneSwap(was: seq<Event>, now: seq<Event>, i: nat, j: nat) {
    |now| == |was| + 1 && now[..|was|] == was && Between(now[|was|], i, j)
  }

  /** `now` has one more reading than `was`, of cell `c`. */
  predicate OneReading<T(==)>(was: seq<Reading<T>>, now: seq<Reading<T>>, c: nat) {
    |now| == |was| + 1 && now[..|was|] == was && now[|was|].c == c
  }

  /** What thread `t` has swapped and read in state `s` since state `was`, in answer to `call`. */
  ghost predicate Answered<T>(was: State<T>, s: State<T>, t: nat, call: Call) {
    match call
    case Swap(i, j) =>
      && OneSwap(EventsOf(was.log, t), EventsOf(s.log, t), i, j)
      && ReadingsOf(s.readings, t) == ReadingsOf(was.readings, t)
    case Get(c) =>
      && EventsOf(s.log, t) == EventsOf(was.log, t)
      && OneReading(ReadingsOf(was.readings, t), ReadingsOf(s.readings, t), c)
  }

  /** Thread `t` is on its way through `call`, which it made in state `was`. */
  ghost predicate Serving<T>(was: State<T>, s: State<T>, t: nat, call: Call)
    requires t < |s.threads|
  {
    var pc := s.threads[t];
    if pc.Checkin? then call.Swap? && Answered(was, s, t, call)
    else
      && !pc.Idle? && EventsOf(s.log, t) == EventsOf(was.log, t)
      && ReadingsOf(s.readings, t) == ReadingsOf(was.readings, t)
      && match call
         case Swap(i, j) => Pending(pc) && Between(Event(t, pc.a, pc.b), i, j)
         case Get(c) => pc.Getting? && pc.c == c
  }

  lemma LogMore(log: seq<Event>, es: seq<Event>, u: nat, t: nat)
    requires |es| <= 1 && forall e :: e in es ==> e.t == u
    ensures EventsOf(log + es, t) == EventsOf(log, t) + if u == t then es else []
  {
    if es == [] { assert log + es == log; } else { assert (log + es)[..|log|] == log && es == [es[0]]; }
  }

  lemma ReadingsMore<T>(readings: seq<Reading<T>>, rs: seq<Reading<T>>, u: nat, t: nat)
    requires |rs| <= 1 && forall r :: r in rs ==> r.t == u
    ensures ReadingsOf(readings + rs, t) == ReadingsOf(readings, t) + if u == t then rs else []
  {
    if rs == [] { assert readings + rs == readings; } else {
      assert (readings + rs)[..|readings|] == readings && rs == [rs[0]];
    }
  }

  /** A step's swap, if it stores to the last cell. */
  function Swaps<T(==)>(s: State<T>, u: nat): (es: seq<Event>)
    requires Sized(s) && u < |s.threads|
    ensures |es| <= 1 && forall e :: e in es ==> e.t == u
  {
    var pc := s.threads[u];
    if pc.CasLast? && s.cells[pc.b] == Ptr(pc.v) then [Event(u, pc.a, pc.b)] else []
  }

  /** A step's reading, if it loads for a Get. */
  function Loads<T(==)>(s: State<T>, u: nat): (rs: seq<Reading<T>>)
    requires Sized(s) && u < |s.threads|
    ensures |rs| <= 1 && forall r :: r in rs ==> r.t == u
  {
    var pc := s.threads[u];
    if pc.Getting? && s.cells[pc.c].Ptr? then [Reading(u, pc.c, s.cells[pc.c].v, |s.log|)] else []
  }

  lemma StepAdds<T>(s: State<T>, u: nat, call: Call)
    requires Sized(s) && u < |s.threads| && Allowed(call, |s.cells|)
    ensures Step(s, u, call).log == s.log + Swaps(s, u)
    ensures Step(s, u, call).readings == s.readings + Loads(s, u)
  {
    assert Placed(s.threads[u], |s.cells|);
    assert s.log + [] == s.log;
    assert s.readings + [] == s.readings;
  }

  /** What a step adds to the history of thread `t`. */
  lemma StepHistory<T>(s: State<T>, u: nat, call: Call, t: nat)
    requires Sized(s) && u < |s.threads| && Allowed(call, |s.cells|)
    ensures var s' := Step(s, u, call);
      && EventsOf(s'.log, t) == EventsOf(s.log, t) + (if u == t then Swaps(s, u) else [])
      && ReadingsOf(s'.readings, t) == ReadingsOf(s.readings, t) + (if u == t then Loads(s, u) else [])
  {
    StepAdds(s, u, call);
    hide Step, Sized, Allowed, Swaps, Loads;
    LogMore(s.log, Swaps(s, u), u, t);
    ReadingsMore(s.readings, Loads(s, u), u, t);
  }

  /** One more step of any thread: `t` goes on with its call or returns from it. */
  lemma ServingStep<T>(was: State<T>, s: State<T>, t: nat, call: Call, u: Turn)
    requires Sized(s) && t < |s.threads| && Serving(was, s, t, call)
    requires u.t < |s.threads| && Allowed(u.call, |s.cells|)
    ensures var s' := Step(s, u.t, u.call);
      |s'.threads| == |s.threads| && if s'.threads[t].Idle? then Answered(was, s', t, call)
        else Serving(was, s', t, call)
  {
    hide EventsOf, ReadingsOf;
    StepHistory(s, u.t, u.call, t);
  }

  /** The call is made. */
  lemma ServingStarts<T>(s: State<T>, t: nat, call: Call)
    requires Sized(s) && t < |s.threads| && s.threads[t].Idle? && Allowed(call, |s.cells|)
    ensures var s' := Step(s, t, call); |s'.threads| == |s.threads| && Serving(s, s', t, call)
  {
  }

  lemma {:induction false} RunServes<T>(run: seq<State<T>>, turns: seq<Turn>, n: nat, m: nat, t: nat)
    requires Run(run, turns) && n < m < |run| && turns[n].t == t < |run[n].threads| && run[n].threads[t].Idle?
    requires forall k {:trigger run[k]} :: n < k < m && t < |run[k].threads| ==> !run[k].threads[t].Idle?
    ensures t < |run[m].threads|
    ensures if run[m].threads[t].Idle? then Answered(run[n], run[m], t, turns[n].call)
      else Serving(run[n], run[m], t, turns[n].call)
  {
    hide Serving, Answered, Step, Sized, Allowed, Init;
    var k := m - 1;
    var s, u := run[k], turns[k];
    assert run[k + 1] == Step(s, u.t, u.call);
    if k == n {
      ServingStarts(s, t, u.call);
      NotIdle(s, run[m], t, u.call);
    } else {
      RunServes(run, turns, n, k, t);
      ServingStep(run[n], s, t, turns[n].call, u);
    }
  }

  lemma NotIdle<T>(was: State<T>, s: State<T>, t: nat, call: Call)
    requires t < |s.threads| && Serving(was, s, t, call)
    ensures !s.threads[t].Idle?
  {
  }

  /**
   * A call does what it is called for: when the thread is idle again, a Swap of two cells has taken effect once, on
   * those cells, and a Get has taken one reading, of its cell; and the thread did nothing else.
   */
  lemma CallAnswered<T>(run: seq<State<T>>, turns: seq<Turn>, n: nat, m: nat, t: nat)
    requires Run(run, turns) && n < m < |run| && turns[n].t == t < |run[n].threads| && run[n].threads[t].Idle?
    requires t < |run[m].threads| && run[m].threads[t].Idle?
    requires forall k {:trigger run[k]} :: n < k < m && t < |run[k].threads| ==> !run[k].threads[t].Idle?
    ensures match turns[n].call
      case Swap(i, j) =>
        && OneSwap(EventsOf(run[n].log, t), EventsOf(run[m].log, t), i, j)
        && ReadingsOf(run[m].readings, t) == ReadingsOf(run[n].readings, t)
      case Get(c) =>
        && EventsOf(run[m].log, t) == EventsOf(run[n].log, t)
        && OneReading(ReadingsOf(run[n].readings, t), ReadingsOf(run[m].readings, t), c)
  {
    RunServes(run, turns, n, m, t);
  }

  /** When every thread is idle, the cells themselves are the abstract array. */
  lemma Quiescent<T>(s: State<T>)
    requires Inv(s) && forall t {:trigger s.threads[t]} :: 0 <= t < |s.threads| ==> s.threads[t].Idle?
    ensures s.cells == Values(s)
  {
    forall c | 0 <= c < |s.cells| ensures s.cells[c].Ptr? {
      if s.cells[c].Null? { var t := HandFound(s.threads, c); }
    }
  }

  // Conservation.

  function Occurs<X(==)>(vs: seq<X>, v: X): nat {
    if vs == [] then 0 else Occurs(vs[..|vs| - 1], v) + if vs[|vs| - 1] == v then 1 else 0
  }

  lemma {:induction false} OccursUpdate<X>(vs: seq<X>, i: nat, w: X, v: X)
    requires i < |vs|
    ensures Occurs(vs[i := w], v) + (if vs[i] == v then 1 else 0) == Occurs(vs, v) + if w == v then 1 else 0
  {
    var n := |vs| - 1;
    if i < n {
      assert vs[i := w][..n] == vs[..n][i := w];
      OccursUpdate(vs[..n], i, w, v);
    } else {
      assert vs[i := w][..n] == vs[..n];
    }
  }

  lemma SwapConserves<X>(vs: seq<X>, a: nat, b: nat, v: X)
    requires a < |vs| && b < |vs|
    ensures Occurs(Swapped(vs, a, b), v) == Occurs(vs, v)
  {
    OccursUpdate(vs, a, vs[b], v);
    OccursUpdate(vs[a := vs[b]], b, vs[a], v);
  }

  lemma {:induction false} ReplayConserves<X>(vs: seq<X>, log: seq<Event>, v: X)
    ensures Occurs(Replay(vs, log), v) == Occurs(vs, v)
  {
    if log != [] {
      var init, e := log[..|log| - 1], log[|log| - 1];
      ReplayConserves(vs, init, v);
      if e.a < |vs| && e.b < |vs| { SwapConserves(Replay(vs, init), e.a, e.b, v); }
    }
  }

  /** Pointers in cells and hands are neither lost nor duplicated. */
  lemma RunConserves<T>(run: seq<State<T>>, turns: seq<Turn>, n: nat, v: Cell<T>)
    requires Run(run, turns) && n < |run|
    ensures Occurs(Values(run[n]), v) == Occurs(run[0].cells, v)
  {
    RunRefines(run, turns, n);
    ReplayConserves(Values(run[0]), run[n].log, v);
    InitInv(run[0]);
    Quiescent(run[0]);
  }

  // Progress.

  lemma StepInv<T>(s: State<T>, t: nat)
    requires Inv(s) && t < |s.threads| && 2 <= |s.cells|
    ensures var s1 := Step(s, t, Swap(0, 1)); Inv(s1) && |s1.threads| == |s.threads| && |s1.cells| == |s.cells|
  {
    StepRefines(s, t, Swap(0, 1));
    hide Inv, Values, Owned, Once;
  }

  /** The thread alone, for `k` steps or until it is idle. */
  function Solo<T(==)>(s: State<T>, t: nat, k: nat): State<T>
    requires Inv(s) && t < |s.threads| && 2 <= |s.cells|
    ensures Inv(Solo(s, t, k)) && |Solo(s, t, k).threads| == |s.threads| && |Solo(s, t, k).cells| == |s.cells|
    decreases k
  {
    StepInv(s, t);
    if k == 0 || s.threads[t].Idle? then s else Solo(Step(s, t, Swap(0, 1)), t, k - 1)
  }

  /** The highest cell below `n` that is checked out. */
  lemma {:induction false} HighestNull<T>(cells: seq<Cell<T>>, n: nat) returns (c: nat)
    requires n <= |cells| && exists i :: 0 <= i < n && cells[i].Null?
    ensures c < n && cells[c].Null? && forall i {:trigger cells[i]} :: c < i < n ==> cells[i].Ptr?
  {
    c := n - 1;
    if !cells[c].Null? { c := HighestNull(cells, c); }
  }

  /** One step of it. */
  lemma SoloStep<T>(s: State<T>, t: nat, k: nat) returns (s1: State<T>)
    requires Inv(s) && t < |s.threads| && 2 <= |s.cells| && k > 0 && !s.threads[t].Idle?
    ensures s1 == Step(s, t, Swap(0, 1)) && Inv(s1) && |s1.threads| == |s.threads| && |s1.cells| == |s.cells|
    ensures Solo(s, t, k) == Solo(s1, t, k - 1)
  {
    StepInv(s, t);
    hide Inv, Step;
    s1 := Step(s, t, Swap(0, 1));
  }

  // A thread that finds its cells full finishes alone.

  lemma CheckinFinishes<T>(s: State<T>, t: nat)
    requires Inv(s) && t < |s.threads| && 2 <= |s.cells| && s.threads[t].Checkin?
    ensures Solo(s, t, 1).threads[t].Idle?
  {
    hide Inv;
    var s1 := SoloStep(s, t, 1);
  }

  lemma GetFinishes<T>(s: State<T>, t: nat)
    requires Inv(s) && t < |s.threads| && 2 <= |s.cells| && s.threads[t].Getting? && s.cells[s.threads[t].c].Ptr?
    ensures Solo(s, t, 1).threads[t].Idle?
  {
    hide Inv;
    var s1 := SoloStep(s, t, 1);
  }

  lemma LoadLastFinishes<T>(s: State<T>, t: nat)
    requires Inv(s) && t < |s.threads| && 2 <= |s.cells| && s.threads[t].LoadLast? && s.cells[s.threads[t].b].Ptr?
    ensures Solo(s, t, 3).threads[t].Idle?
  {
    hide Inv, Solo;
    var s1 := SoloStep(s, t, 3);
    var s2 := SoloStep(s1, t, 2);
    CheckinFinishes(s2, t);
  }

  lemma CasLastFinishes<T>(s: State<T>, t: nat)
    requires Inv(s) && t < |s.threads| && 2 <= |s.cells| && s.threads[t].CasLast? && s.cells[s.threads[t].b].Ptr?
    ensures Solo(s, t, 4).threads[t].Idle?
  {
    hide Inv, Solo;
    var s1 := SoloStep(s, t, 4);
    if s1.threads[t].Checkin? {
      CheckinFinishes(s1, t);
      SoloMore(s1, t, 1, 3);
    } else {
      LoadLastFinishes(s1, t);
    }
  }

  lemma LoadFirstFinishes<T>(s: State<T>, t: nat)
    requires Inv(s) && t < |s.threads| && 2 <= |s.cells| && s.threads[t].LoadFirst?
    requires s.cells[s.threads[t].a].Ptr? && s.cells[s.threads[t].b].Ptr?
    ensures Solo(s, t, 5).threads[t].Idle?
  {
    FirstBeforeLast(s, t);
    hide Inv, Solo;
    var s1 := SoloStep(s, t, 5);
    var s2 := SoloStep(s1, t, 4);
    LoadLastFinishes(s2, t);
  }

  lemma FirstBeforeLast<T>(s: State<T>, t: nat)
    requires Inv(s) && t < |s.threads| && (s.threads[t].LoadFirst? || s.threads[t].CasFirst?)
    ensures s.threads[t].a < s.threads[t].b < |s.cells|
  {
  }

  lemma CasFirstFinishes<T>(s: State<T>, t: nat)
    requires Inv(s) && t < |s.threads| && 2 <= |s.cells| && s.threads[t].CasFirst?
    requires s.cells[s.threads[t].a].Ptr? && s.cells[s.threads[t].b].Ptr?
    ensures Solo(s, t, 6).threads[t].Idle?
  {
    FirstBeforeLast(s, t);
    hide Inv, Solo;
    var s1 := SoloStep(s, t, 6);
    if s1.threads[t].LoadLast? {
      LoadLastFinishes(s1, t);
      SoloMore(s1, t, 3, 5);
    } else {
      LoadFirstFinishes(s1, t);
    }
  }

  lemma {:induction false} SoloMore<T>(s: State<T>, t: nat, k: nat, m: nat)
    requires Inv(s) && t < |s.threads| && 2 <= |s.cells| && k <= m && Solo(s, t, k).threads[t].Idle?
    ensures Solo(s, t, m).threads[t].Idle?
    decreases k
  {
    hide Inv;
    if k > 0 && !s.threads[t].Idle? {
      var s1 := SoloStep(s, t, m);
      var s2 := SoloStep(s, t, k);
      SoloMore(s1, t, k - 1, m - 1);
    }
  }

  /** While calls are pending, one of them can finish in six steps of its own, whatever the others have checked out. */
  lemma SomeoneFinishes<T>(s: State<T>, w: nat) returns (t: nat)
    requires Inv(s) && w < |s.threads| && !s.threads[w].Idle? && 2 <= |s.cells|
    ensures t < |s.threads| && !s.threads[t].Idle? && Solo(s, t, 6).threads[t].Idle?
  {
    if exists c :: 0 <= c < |s.cells| && s.cells[c].Null? {
      // the holder of the highest such cell needs only a higher one
      var c := HighestNull(s.cells, |s.cells|);
      t := HandFound(s.threads, c);
      match s.threads[t] {
        case LoadLast(a, b, x) => LoadLastFinishes(s, t); SoloMore(s, t, 3, 6);
        case CasLast(a, b, x, v) => CasLastFinishes(s, t); SoloMore(s, t, 4, 6);
        case Checkin(a, x) => CheckinFinishes(s, t); SoloMore(s, t, 1, 6);
      }
    } else {
      assert !Holding(s.threads[w]);
      t := w;
      if s.threads[t].Getting? {
        GetFinishes(s, t);
        SoloMore(s, t, 1, 6);
      } else if s.threads[t].LoadFirst? {
        LoadFirstFinishes(s, t);
        SoloMore(s, t, 5, 6);
      } else {
        CasFirstFinishes(s, t);
      }
    }
  }
}
