/** The batcher: items collect until there are enough of them or a timer fires
    (internal/ingest/batcher.go). A timer that has fired cannot be stopped; its
    callback may still be waiting for the lock when later batches form. */
module Batcher {
  import opened Sql

  /** What the lock protects, with the timers the runtime keeps: `armed` will
      fire, `firing` have fired and their callbacks wait for the lock.
      `batches` were handed to their own goroutines, in this order. */
  datatype Core<T> = Core(
    items: seq<T>, stopped: bool, timer: Option<nat>,
    nextTimer: nat, armed: set<nat>, firing: set<nat>, batches: seq<seq<T>>)

  function Disarmed<T>(c: Core<T>): set<nat> {
    if c.timer.Some? then c.armed - {c.timer.value} else c.armed
  }

  function Flushed<T>(c: Core<T>): Core<T> {
    c.(items := [], timer := None, armed := Disarmed(c), batches := c.batches + [c.items])
  }

  function FlushedIfAny<T>(c: Core<T>): Core<T> {
    if c.items != [] then Flushed(c) else c
  }

  function Added<T>(c: Core<T>, x: T, maxSize: int): Core<T> {
    if c.stopped then c
    else
      var n := c.(items := c.items + [x]);
      if |n.items| >= maxSize then Flushed(n)
      else if |n.items| == 1
      then n.(timer := Some(n.nextTimer), nextTimer := n.nextTimer + 1, armed := n.armed + {n.nextTimer})
      else n
  }

  function Stopped<T>(c: Core<T>): Core<T> {
    FlushedIfAny(c.(stopped := true, armed := Disarmed(c)))
  }

  /** A timer fires: its callback starts and asks for the lock. */
  function Fired<T>(c: Core<T>, t: nat): Core<T> {
    c.(armed := c.armed - {t}, firing := c.firing + {t})
  }

  /** A callback gets the lock; it does not know which items its timer was for. */
  function CalledBack<T>(c: Core<T>, t: nat): Core<T> {
    var n := c.(firing := c.firing - {t});
    if n.stopped then n else FlushedIfAny(n)
  }

  // --------------------------------------------------------------------- class

  class Batcher<T> {
    var items: seq<T>
    const maxSize: int
    var stopped: bool
    var timer: Option<nat>
    var nextTimer: nat
    var armed: set<nat>
    var firing: set<nat>
    var batches: seq<seq<T>>

    ghost function View(): Core<T>
      reads this
    {
      Core(items, stopped, timer, nextTimer, armed, firing, batches)
    }

    constructor (maxSize: int)
      ensures this.maxSize == maxSize
      ensures View() == Core([], false, None, 0, {}, {}, [])
    {
      this.maxSize := maxSize;
      items, stopped, timer, nextTimer, armed, firing, batches := [], false, None, 0, {}, {}, [];
    }

    method StopTimer()
      requires timer.Some?
      modifies this`armed
      ensures armed == Disarmed(old(View()))
    {
      armed := armed - {timer.value};
    }

    method FlushLocked()
      modifies this
      ensures View() == Flushed(old(View()))
    {
      if timer.Some? {
        StopTimer();
        timer := None;
      }
      var batch := items;
      items := [];
      batches := batches + [batch];
    }

    method Add(x: T)
      modifies this
      ensures View() == Added(old(View()), x, maxSize)
    {
      if stopped {
        return;
      }
      items := items + [x];
      if |items| >= maxSize {
        FlushLocked();
        return;
      }
      if |items| == 1 {
        timer := Some(nextTimer);
        armed := armed + {nextTimer};
        nextTimer := nextTimer + 1;
      }
    }

    method Flush()
      modifies this
      ensures View() == FlushedIfAny(old(View()))
    {
      if |items| > 0 {
        FlushLocked();
      }
    }

    /** Stop, up to the wait for the batches in flight. */
    method Stop()
      modifies this
      ensures View() == Stopped(old(View()))
    {
      stopped := true;
      if timer.Some? {
        StopTimer();
      }
      if |items| > 0 {
        FlushLocked();
      }
    }

    method Callback(t: nat)
      modifies this
      ensures View() == CalledBack(old(View()), t)
    {
      firing := firing - {t};
      if !stopped && |items| > 0 {
        FlushLocked();
      }
    }
  }

  // ---------------------------------------------------------------------- runs

  /** `accepted` are the items Add took; `running` are the indices of batches
      whose flush function has not returned; `waiting` is whether a Stop waits
      for them, `returned` whether one has come back. */
  datatype State<T> = State(c: Core<T>, accepted: seq<T>, running: set<nat>, waiting: bool, returned: bool)

  datatype Step<T> =
    | AddItem(x: T)
    | FlushNow
    | StopNow
    | Fire(t: nat)
    | Callback(t: nat)
    | Deliver(i: nat)
    | StopReturns

  ghost predicate Init<T>(s: State<T>) {
    s == State(Core([], false, None, 0, {}, {}, []), [], {}, false, false)
  }

  predicate Enabled<T>(s: State<T>, step: Step<T>) {
    match step
    case AddItem(_) => true
    case FlushNow => true
    case StopNow => true
    case Fire(t) => t in s.c.armed
    case Callback(t) => t in s.c.firing
    case Deliver(i) => i in s.running
    case StopReturns => s.waiting && s.running == {}
  }

  /** Under the lock: a batch handed off starts running. */
  function Locked<T>(s: State<T>, c: Core<T>): State<T> {
    s.(c := c, running := if |c.batches| > |s.c.batches| then s.running + {|s.c.batches|} else s.running)
  }

  function Next<T>(s: State<T>, step: Step<T>, maxSize: int): State<T>
    requires Enabled(s, step)
  {
    match step
    case AddItem(x) =>
      Locked(s, Added(s.c, x, maxSize)).(accepted := if s.c.stopped then s.accepted else s.accepted + [x])
    case FlushNow => Locked(s, FlushedIfAny(s.c))
    case StopNow => Locked(s, Stopped(s.c)).(waiting := true)
    case Fire(t) => s.(c := Fired(s.c, t))
    case Callback(t) => Locked(s, CalledBack(s.c, t))
    case Deliver(i) => s.(running := s.running - {i})
    case StopReturns => s.(waiting := false, returned := true)
  }

  ghost predicate Runs<T>(s: State<T>, steps: seq<Step<T>>, maxSize: int)
    decreases |steps|, 0
  {
    steps == [] ||
    (Runs(s, steps[..|steps| - 1], maxSize) && Enabled(After(s, steps[..|steps| - 1], maxSize), steps[|steps| - 1]))
  }

  ghost function After<T>(s: State<T>, steps: seq<Step<T>>, maxSize: int): State<T>
    requires Runs(s, steps, maxSize)
    decreases |steps|, 1
  {
    if steps == [] then s else Next(After(s, steps[..|steps| - 1], maxSize), steps[|steps| - 1], maxSize)
  }

  // ----------------------------------------------------------------- invariant

  function Concat<T>(batches: seq<seq<T>>): seq<T> {
    if batches == [] then [] else Concat(batches[..|batches| - 1]) + batches[|batches| - 1]
  }

  function Limit(maxSize: int): nat {
    if maxSize >= 1 then maxSize else 1
  }

  ghost predicate SizesInv<T>(c: Core<T>, maxSize: int) {
    && |c.items| < Limit(maxSize)
    && forall b <- c.batches :: 1 <= |b| <= Limit(maxSize)
  }

  /** The current timer will fire, or has and its callback is coming. */
  predicate Live<T>(c: Core<T>) {
    c.timer.Some? && (c.timer.value in c.armed || c.timer.value in c.firing)
  }

  /** Timers fire at most once. */
  ghost predicate Issued<T>(c: Core<T>) {
    && (forall t <- c.armed :: t < c.nextTimer && t !in c.firing)
    && (forall t <- c.firing :: t < c.nextTimer)
  }

  /** Pending items have a live timer, and no other timer is armed. */
  ghost predicate TimerInv<T>(c: Core<T>) {
    && Issued(c)
    && (c.timer.Some? <==> c.items != [])
    && (c.timer.Some? ==> Live(c) && !c.stopped)
    && (forall t <- c.armed :: c.timer == Some(t))
  }

  ghost predicate RunningInv<T>(s: State<T>) {
    && (forall i <- s.running :: i < |s.c.batches|)
    && (s.waiting || s.returned ==> s.c.stopped)
    && (s.returned ==> s.running == {})
  }

  ghost predicate Inv<T>(s: State<T>, maxSize: int) {
    && Through(s.c) == s.accepted
    && SizesInv(s.c, maxSize)
    && TimerInv(s.c)
    && RunningInv(s)
  }

  /** The items that went through, handed off and pending. */
  function Through<T>(c: Core<T>): seq<T> {
    Concat(c.batches) + c.items
  }

  lemma FlushMeans<T>(c: Core<T>, maxSize: int)
    requires 1 <= |c.items| <= Limit(maxSize) && forall b <- c.batches :: 1 <= |b| <= Limit(maxSize)
    ensures Through(Flushed(c)) == Through(c) && SizesInv(Flushed(c), maxSize)
  {
    assert Flushed(c).batches[..|c.batches|] == c.batches;
  }

  /** A flush needs no live timer, and leaves none. */
  lemma FlushKeepsTimers<T>(c: Core<T>)
    requires Issued(c)
    requires forall t <- c.armed :: c.timer == Some(t)
    ensures TimerInv(Flushed(c))
  {
  }

  lemma AddKeepsSizes<T>(c: Core<T>, x: T, maxSize: int)
    requires SizesInv(c, maxSize) && !c.stopped
    ensures SizesInv(Added(c, x, maxSize), maxSize)
    ensures Through(Added(c, x, maxSize)) == Through(c) + [x]
  {
    var n := c.(items := c.items + [x]);
    assert Through(n) == Through(c) + [x];
    if |n.items| >= maxSize {
      FlushMeans(n, maxSize);
    }
  }

  lemma AddKeepsTimers<T>(c: Core<T>, x: T, maxSize: int)
    requires TimerInv(c) && !c.stopped
    ensures TimerInv(Added(c, x, maxSize))
  {
    var n := c.(items := c.items + [x]);
    if |n.items| >= maxSize {
      FlushKeepsTimers(n);
    }
  }

  lemma AddKeepsInv<T>(s: State<T>, x: T, maxSize: int)
    requires Inv(s, maxSize)
    ensures Inv(Next(s, AddItem(x), maxSize), maxSize)
  {
    if !s.c.stopped {
      AddKeepsSizes(s.c, x, maxSize);
      AddKeepsTimers(s.c, x, maxSize);
      assert Added(s.c, x, maxSize).stopped == s.c.stopped;
    }
  }

  lemma FlushKeepsInv<T>(c: Core<T>, maxSize: int)
    requires SizesInv(c, maxSize) && Issued(c)
    requires forall t <- c.armed :: c.timer == Some(t)
    requires c.items == [] ==> c.timer.None?
    ensures SizesInv(FlushedIfAny(c), maxSize) && TimerInv(FlushedIfAny(c))
    ensures FlushedIfAny(c).items == [] && Through(FlushedIfAny(c)) == Through(c)
  {
    if c.items != [] {
      FlushMeans(c, maxSize);
      FlushKeepsTimers(c);
    }
  }

  lemma StopKeepsInv<T>(s: State<T>, maxSize: int)
    requires Inv(s, maxSize)
    ensures Inv(Next(s, StopNow, maxSize), maxSize)
  {
    FlushKeepsInv(s.c.(stopped := true, armed := Disarmed(s.c)), maxSize);
  }

  lemma CallbackKeepsInv<T>(s: State<T>, t: nat, maxSize: int)
    requires Inv(s, maxSize) && t in s.c.firing
    ensures Inv(Next(s, Callback(t), maxSize), maxSize)
  {
    if !s.c.stopped {
      FlushKeepsInv(s.c.(firing := s.c.firing - {t}), maxSize);
    }
  }

  lemma StepKeepsInv<T>(s: State<T>, step: Step<T>, maxSize: int)
    requires Inv(s, maxSize) && Enabled(s, step)
    ensures Inv(Next(s, step, maxSize), maxSize)
  {
    if step.AddItem? {
      AddKeepsInv(s, step.x, maxSize);
    } else if step.FlushNow? {
      FlushKeepsInv(s.c, maxSize);
    } else if step.StopNow? {
      StopKeepsInv(s, maxSize);
    } else if step.Callback? {
      CallbackKeepsInv(s, step.t, maxSize);
    }
  }

  lemma {:induction false} RunKeepsInv<T>(s: State<T>, steps: seq<Step<T>>, maxSize: int)
    requires Init(s) && Runs(s, steps, maxSize)
    ensures Inv(After(s, steps, maxSize), maxSize)
    decreases |steps|
  {
    if steps != [] {
      RunKeepsInv(s, steps[..|steps| - 1], maxSize);
      StepKeepsInv(After(s, steps[..|steps| - 1], maxSize), steps[|steps| - 1], maxSize);
    }
  }

  // -------------------------------------------------------------- main results

  /** After any interleaving, with stale callbacks anywhere in it: the batches
      in order, then the pending items, are the accepted items; each batch has
      1 to maxSize items; pending items have a live timer; and nothing is
      pending after Stop. */
  lemma NothingIsLostOrDoubled<T>(s: State<T>, steps: seq<Step<T>>, maxSize: int)
    requires Init(s) && Runs(s, steps, maxSize)
    ensures var n := After(s, steps, maxSize);
            && Concat(n.c.batches) + n.c.items == n.accepted
            && (forall b <- n.c.batches :: 1 <= |b| <= if maxSize >= 1 then maxSize else 1)
            && (n.c.items != [] ==> Live(n.c))
            && (n.c.stopped ==> n.c.items == [])
  {
    RunKeepsInv(s, steps, maxSize);
  }

  /** The live timer's own steps hand off what is pending. */
  lemma TimerFlushes<T>(s: State<T>, steps: seq<Step<T>>, maxSize: int)
    requires Init(s) && Runs(s, steps, maxSize) && After(s, steps, maxSize).c.items != []
    ensures var n := After(s, steps, maxSize);
            && n.c.timer.Some?
            && var t := n.c.timer.value;
            && (t in n.c.firing || Enabled(n, Fire(t)))
            && var fired := if t in n.c.firing then n else Next(n, Fire(t), maxSize);
            && Enabled(fired, Callback(t))
            && Next(fired, Callback(t), maxSize).c.batches == n.c.batches + [n.c.items]
  {
    RunKeepsInv(s, steps, maxSize);
  }

  /** When a batch is handed off, and what is in it: an item that fills it, a flush
      or a stop with something pending, or a timer's callback with something
      pending, whichever timer it was. Nothing else hands off anything; other
      items wait, and the timer of the first of them keeps running. */
  lemma StepHandsOff<T(!new)>(s: State<T>, step: Step<T>, maxSize: int)
    requires Enabled(s, step)
    ensures var n := Next(s, step, maxSize);
            match step
            case AddItem(x) =>
              && (s.c.stopped ==> n.c == s.c)
              && (!s.c.stopped && |s.c.items| + 1 >= maxSize ==>
                    n.c.batches == s.c.batches + [s.c.items + [x]] && n.c.items == [] && n.c.timer.None?)
              && (!s.c.stopped && |s.c.items| + 1 < maxSize ==>
                    && n.c.batches == s.c.batches && n.c.items == s.c.items + [x]
                    && (s.c.items != [] ==> n.c.timer == s.c.timer && n.c.armed == s.c.armed)
                    && (s.c.items == [] ==> n.c.timer.Some? && n.c.armed == s.c.armed + {n.c.timer.value}))
            case FlushNow => HandsOffPending(s.c, n.c)
            case StopNow => HandsOffPending(s.c, n.c) && n.c.stopped
            case Callback(_) => if s.c.stopped then Untouched(s.c, n.c) else HandsOffPending(s.c, n.c)
            case _ => Untouched(s.c, n.c)
  {
  }

  predicate HandsOffPending<T(==)>(c: Core<T>, n: Core<T>) {
    && n.items == [] && n.batches == (if c.items == [] then c.batches else c.batches + [c.items])
  }

  predicate Untouched<T(==)>(c: Core<T>, n: Core<T>) {
    n.items == c.items && n.batches == c.batches
  }

  lemma {:induction false} StoppedStays<T>(m: State<T>, more: seq<Step<T>>, maxSize: int)
    requires Inv(m, maxSize) && m.c.stopped && Runs(m, more, maxSize)
    ensures var n := After(m, more, maxSize);
            && Inv(n, maxSize) && n.c.stopped && n.accepted == m.accepted && n.c.batches == m.c.batches
            && n.running <= m.running
    decreases |more|
  {
    if more != [] {
      StoppedStays(m, more[..|more| - 1], maxSize);
      StepKeepsInv(After(m, more[..|more| - 1], maxSize), more[|more| - 1], maxSize);
    }
  }

  /** Once a Stop has returned, every accepted item is in a batch whose flush
      function has returned, and stays so: later calls add nothing. */
  lemma StopDeliversAll<T>(s: State<T>, steps: seq<Step<T>>, more: seq<Step<T>>, maxSize: int)
    requires Init(s) && Runs(s, steps, maxSize) && After(s, steps, maxSize).returned
    requires Runs(After(s, steps, maxSize), more, maxSize)
    ensures var m, n := After(s, steps, maxSize), After(After(s, steps, maxSize), more, maxSize);
            && m.running == {} && Concat(m.c.batches) == m.accepted
            && n.running == {} && n.accepted == m.accepted && n.c.batches == m.c.batches
  {
    RunKeepsInv(s, steps, maxSize);
    StoppedStays(After(s, steps, maxSize), more, maxSize);
  }
}
