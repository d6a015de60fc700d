/** Playout over whole runs: how much input the outputs use up, and how large
    they get (web/audio-worklet.js:43-147). */
module PlayoutRuns {
  import opened Multiples
  import opened PlayoutRing

  /** The queue and the fraction, how many outputs had data since playout started,
      and how many samples they used up. */
  datatype Play = Play(queue: seq<real>, accum: real, data: nat, eaten: nat)

  datatype Event = Output | Arrive(samples: seq<Pcm>)

  function Start(queue: seq<real>): Play {
    Play(queue, 0.0, 0, 0)
  }

  function AfterOutput(p: Play, ratio: real): Play {
    if p.queue == [] then p
    else
      var (q, a) := Consumed(p.queue, p.accum + ratio);
      Play(q, a, p.data + 1, p.eaten + Dropped(p.queue, q))
  }

  function Dropped(queue: seq<real>, q: seq<real>): nat {
    if |q| <= |queue| then |queue| - |q| else 0
  }

  /** What an output sounds like. */
  function OutputOf(p: Play): real {
    if p.queue == [] then 0.0 else Interpolated(p.queue, p.accum)
  }

  function Next(p: Play, e: Event, ratio: real, rate: nat): Play {
    if e.Output? then AfterOutput(p, ratio) else p.(queue := Trimmed(p.queue + Levels(e.samples), rate))
  }

  function After(p: Play, events: seq<Event>, ratio: real, rate: nat): Play {
    if events == [] then p
    else Next(After(p, events[..|events| - 1], ratio, rate), events[|events| - 1], ratio, rate)
  }

  /** The outputs of a run, in order. */
  function Sound(p: Play, events: seq<Event>, ratio: real, rate: nat): seq<real> {
    if events == [] then []
    else
      var front := events[..|events| - 1];
      Sound(p, front, ratio, rate) +
      if events[|events| - 1].Output? then [OutputOf(After(p, front, ratio, rate))] else []
  }

  function Outputs(n: nat): seq<Event> {
    seq(n, i => Output)
  }

  lemma OutputsGrow(n: nat)
    requires n > 0
    ensures Outputs(n)[..n - 1] == Outputs(n - 1)
  {
  }

  /** A callback's outputs are that many single ones. */
  lemma {:induction false} RenderIsOutputs(p: Play, ratio: real, rate: nat, n: nat)
    ensures var q := After(p, Outputs(n), ratio, rate);
            Rendered(p.queue, p.accum, ratio, n) == (q.queue, q.accum, Sound(p, Outputs(n), ratio, rate))
  {
    if n > 0 {
      RenderIsOutputs(p, ratio, rate, n - 1);
      OutputsGrow(n);
    }
  }

  // --------------------------------------------------------------- consumption

  /** Whole samples go until the fraction is below one or the queue is empty. */
  lemma {:induction false} ConsumedMeans(queue: seq<real>, accum: real)
    requires accum >= 0.0
    ensures var (q, a) := Consumed(queue, accum);
            && |q| <= |queue| && q == queue[|queue| - |q|..]
            && a == accum - (|queue| - |q|) as real
            && a >= 0.0
            && (a < 1.0 || q == [])
            && (a < 1.0 <==> accum < |queue| as real + 1.0)
    decreases |queue|
  {
    if accum >= 1.0 && queue != [] {
      ConsumedMeans(queue[1..], accum - 1.0);
      assert queue[1..][|queue| - 1 - |Consumed(queue[1..], accum - 1.0).0|..] == Consumed(queue[1..], accum - 1.0).0;
    }
  }

  /** Input used up and the fraction account for every output that had data. */
  ghost predicate Accounted(p: Play, ratio: real) {
    p.accum >= 0.0 && p.eaten as real + p.accum == Times(p.data, ratio)
  }

  /** The input used up is the whole part of what the outputs called for. */
  ghost predicate Exact(p: Play, ratio: real) {
    p.eaten == Times(p.data, ratio).Floor
  }

  /** The next output finds all the whole samples it calls for. */
  predicate Suffices(p: Play, ratio: real) {
    p.queue == [] || p.accum + ratio < |p.queue| as real + 1.0
  }

  lemma OutputKeepsAccount(p: Play, ratio: real)
    requires ratio >= 0.0 && Accounted(p, ratio)
    ensures Accounted(AfterOutput(p, ratio), ratio)
    ensures p.accum < 1.0 ==> (AfterOutput(p, ratio).accum < 1.0 <==> Suffices(p, ratio))
  {
    if p.queue != [] {
      ConsumedMeans(p.queue, p.accum + ratio);
    }
  }

  lemma {:induction false} RunKeepsAccount(p: Play, events: seq<Event>, ratio: real, rate: nat)
    requires ratio >= 0.0 && Accounted(p, ratio)
    ensures Accounted(After(p, events, ratio, rate), ratio)
  {
    if events != [] {
      RunKeepsAccount(p, events[..|events| - 1], ratio, rate);
      OutputKeepsAccount(After(p, events[..|events| - 1], ratio, rate), ratio);
    }
  }

  lemma {:induction false} RunKeepsFraction(p: Play, events: seq<Event>, ratio: real, rate: nat)
    requires 0.0 <= ratio <= 1.0 && Accounted(p, ratio) && p.accum < 1.0
    ensures 0.0 <= After(p, events, ratio, rate).accum < 1.0
  {
    if events != [] {
      var front := events[..|events| - 1];
      RunKeepsFraction(p, front, ratio, rate);
      RunKeepsAccount(p, front, ratio, rate);
      OutputKeepsAccount(After(p, front, ratio, rate), ratio);
    }
  }

  lemma AccountIsFloor(p: Play, ratio: real)
    requires Accounted(p, ratio)
    ensures Exact(p, ratio) <==> p.accum < 1.0
  {
  }

  /** From the start of playout at a constant rate at most the output's, whatever
      arrives, is trimmed or runs dry in between: `data` outputs that had data
      used up exactly floor(data * ratio) samples. */
  lemma ConsumptionIsExact(queue: seq<real>, events: seq<Event>, ratio: real, rate: nat)
    requires 0.0 <= ratio <= 1.0
    ensures Exact(After(Start(queue), events, ratio, rate), ratio)
  {
    RunKeepsAccount(Start(queue), events, ratio, rate);
    RunKeepsFraction(Start(queue), events, ratio, rate);
    AccountIsFloor(After(Start(queue), events, ratio, rate), ratio);
  }

  /** At every output of the run. */
  ghost predicate SufficesThroughout(queue: seq<real>, events: seq<Event>, ratio: real, rate: nat) {
    events == [] ||
    (SufficesThroughout(queue, events[..|events| - 1], ratio, rate) &&
     (events[|events| - 1].Output? ==> Suffices(After(Start(queue), events[..|events| - 1], ratio, rate), ratio)))
  }

  /** At every moment of the run. */
  ghost predicate ExactThroughout(queue: seq<real>, events: seq<Event>, ratio: real, rate: nat) {
    && Exact(After(Start(queue), events, ratio, rate), ratio)
    && (events == [] || ExactThroughout(queue, events[..|events| - 1], ratio, rate))
  }

  /** At any ratio, consumption is exact all through a run if and only if every
      output in it finds the samples it calls for: otherwise that output leaves
      a whole sample owing. */
  lemma {:induction false} ExactThroughoutIff(queue: seq<real>, events: seq<Event>, ratio: real, rate: nat)
    requires ratio >= 0.0
    ensures ExactThroughout(queue, events, ratio, rate) <==> SufficesThroughout(queue, events, ratio, rate)
  {
    RunKeepsAccount(Start(queue), events, ratio, rate);
    AccountIsFloor(After(Start(queue), events, ratio, rate), ratio);
    if events != [] {
      var front := events[..|events| - 1];
      ExactThroughoutIff(queue, front, ratio, rate);
      RunKeepsAccount(Start(queue), front, ratio, rate);
      AccountIsFloor(After(Start(queue), front, ratio, rate), ratio);
      OutputKeepsAccount(After(Start(queue), front, ratio, rate), ratio);
    }
  }

  // ------------------------------------------------------------------ amplitude

  lemma ProductIsPositive(a: real, b: real)
    requires a >= 0.0 && b >= 0.0
    ensures a * b >= 0.0
  {
  }

  lemma Blend(x: real, y: real, lo: real, hi: real, frac: real)
    requires lo <= x <= hi && lo <= y <= hi && 0.0 <= frac <= 1.0
    ensures lo <= x * (1.0 - frac) + y * frac <= hi
  {
    ProductIsPositive(1.0 - frac, x - lo);
    ProductIsPositive(frac, y - lo);
    assert x * (1.0 - frac) + y * frac == lo + (1.0 - frac) * (x - lo) + frac * (y - lo);
    ProductIsPositive(1.0 - frac, hi - x);
    ProductIsPositive(frac, hi - y);
    assert x * (1.0 - frac) + y * frac == hi - (1.0 - frac) * (hi - x) - frac * (hi - y);
  }

  /** An output lies between the two samples it is made of. */
  lemma InterpolatedIsBetween(queue: seq<real>, frac: real)
    requires queue != [] && Bounded(queue) && 0.0 <= frac <= 1.0
    ensures var second := if |queue| > 1 then queue[1] else queue[0];
            var out := Interpolated(queue, frac);
            && (queue[0] <= out <= second || second <= out <= queue[0])
            && -1.0 <= out <= 1.0
  {
    var second := if |queue| > 1 then queue[1] else queue[0];
    if queue[0] <= second {
      Blend(queue[0], second, queue[0], second, frac);
    } else {
      Blend(queue[0], second, second, queue[0], frac);
    }
  }

  lemma ArrivalIsBounded(queue: seq<real>, samples: seq<Pcm>, rate: nat)
    requires Bounded(queue)
    ensures Bounded(Trimmed(queue + Levels(samples), rate))
  {
    forall i | 0 <= i < |samples|
      ensures -1.0 <= Levels(samples)[i] <= 1.0
    {
      assert Levels(samples)[i] == samples[i] as real / 32768.0;
    }
  }

  lemma OutputIsBounded(p: Play)
    requires Bounded(p.queue) && 0.0 <= p.accum < 1.0
    ensures -1.0 <= OutputOf(p) <= 1.0
  {
    if p.queue != [] {
      InterpolatedIsBetween(p.queue, p.accum);
    }
  }

  lemma {:induction false} QueueIsBounded(p: Play, events: seq<Event>, ratio: real, rate: nat)
    requires Bounded(p.queue) && ratio >= 0.0 && Accounted(p, ratio)
    ensures Bounded(After(p, events, ratio, rate).queue)
  {
    if events != [] {
      var front, e := events[..|events| - 1], events[|events| - 1];
      QueueIsBounded(p, front, ratio, rate);
      RunKeepsAccount(p, front, ratio, rate);
      var q := After(p, front, ratio, rate);
      if e.Output? {
        ConsumedMeans(q.queue, q.accum + ratio);
      } else {
        ArrivalIsBounded(q.queue, e.samples, rate);
      }
    }
  }

  /** With the input rate at most the output's, no output is ever louder than
      full scale. */
  lemma {:induction false} OutputsAreBounded(p: Play, events: seq<Event>, ratio: real, rate: nat)
    requires Bounded(p.queue) && 0.0 <= ratio <= 1.0 && Accounted(p, ratio) && p.accum < 1.0
    ensures Bounded(Sound(p, events, ratio, rate))
  {
    if events != [] {
      var front := events[..|events| - 1];
      OutputsAreBounded(p, front, ratio, rate);
      QueueIsBounded(p, front, ratio, rate);
      RunKeepsFraction(p, front, ratio, rate);
      OutputIsBounded(After(p, front, ratio, rate));
    }
  }

  // ----------------------------------------------------------------------- shape

  /** The samples lie on a line, `d` apart. */
  ghost predicate Line(queue: seq<real>, d: real) {
    forall i :: 0 <= i < |queue| - 1 ==> queue[i + 1] == queue[i] + d
  }

  lemma {:induction false} LineAt(queue: seq<real>, d: real, m: nat)
    requires Line(queue, d) && m < |queue|
    ensures queue[m] == queue[0] + Times(m, d)
  {
    if m > 0 {
      LineAt(queue, d, m - 1);
    }
  }

  lemma LineOutput(queue: seq<real>, d: real, frac: real)
    requires Line(queue, d) && |queue| >= 2
    ensures Interpolated(queue, frac) == queue[0] + d * frac
  {
    assert queue[0] * (1.0 - frac) + (queue[0] + d) * frac == queue[0] + d * frac;
  }

  lemma Shift(d: real, a: real, ratio: real, m: nat)
    ensures Times(m, d) + d * (a + ratio - m as real) == d * a + d * ratio
  {
    TimesIsProduct(m, d);
  }

  /** An output takes `m` samples off the front. */
  lemma OutputTakes(p: Play, ratio: real) returns (m: nat)
    requires p.accum >= 0.0 && ratio >= 0.0 && p.queue != []
    ensures var n := AfterOutput(p, ratio);
            m <= |p.queue| && n.queue == p.queue[m..] && n.accum == p.accum + ratio - m as real && n.accum >= 0.0
  {
    ConsumedMeans(p.queue, p.accum + ratio);
    m := |p.queue| - |AfterOutput(p, ratio).queue|;
  }

  /** From one output to the next the line is followed by `ratio` samples. */
  lemma NextOnLine(p: Play, d: real, ratio: real)
    requires Line(p.queue, d) && p.accum >= 0.0 && ratio >= 0.0
    requires |p.queue| >= 2 && |AfterOutput(p, ratio).queue| >= 2
    ensures Line(AfterOutput(p, ratio).queue, d) && AfterOutput(p, ratio).accum >= 0.0
    ensures OutputOf(AfterOutput(p, ratio)) == OutputOf(p) + d * ratio
  {
    var m := OutputTakes(p, ratio);
    var queue, accum := p.queue[m..], p.accum + ratio - m as real;
    LineAt(p.queue, d, m);
    LineOutput(p.queue, d, p.accum);
    LineOutput(queue, d, accum);
    Shift(d, p.accum, ratio, m);
    assert Interpolated(queue, accum) == Interpolated(p.queue, p.accum) + d * ratio;
  }

  /** Samples on a line are played as a line: however the outputs fall between the
      samples, each is `d * ratio` from the one before, as long as there are
      samples on both sides. */
  lemma {:induction false} LinesArePlayedAsLines(p: Play, d: real, ratio: real, rate: nat, n: nat)
    requires Line(p.queue, d) && p.accum >= 0.0 && ratio >= 0.0 && |p.queue| >= 2
    requires forall k: nat | k <= n :: |After(p, Outputs(k), ratio, rate).queue| >= 2
    ensures Line(After(p, Outputs(n), ratio, rate).queue, d) && After(p, Outputs(n), ratio, rate).accum >= 0.0
    ensures OutputOf(p) == p.queue[0] + d * p.accum
    ensures OutputOf(After(p, Outputs(n), ratio, rate)) == OutputOf(p) + Times(n, d * ratio)
  {
    LineOutput(p.queue, d, p.accum);
    if n > 0 {
      LinesArePlayedAsLines(p, d, ratio, rate, n - 1);
      OutputsGrow(n);
      NextOnLine(After(p, Outputs(n - 1), ratio, rate), d, ratio);
    } else {
      assert Outputs(0) == [];
    }
  }

  /** What one callback does: nothing before there is 0.4 s of samples; then it
      plays, from a fraction of 0 when it starts; and a playing callback without
      data is silent and counted, the 189th in a row stopping it. */
  lemma CallbackMeans(p: Player, ratio: real, n: nat)
    requires n > 0
    ensures var (q, out) := Processed(p, ratio, n);
            && |out| == n && q.rate == p.rate
            && (!p.playing && |p.queue| < 2 * p.rate / 5 ==> q == p && forall i :: 0 <= i < n ==> out[i] == 0.0)
            && (p.playing && p.queue == [] ==>
                  && q.queue == [] && (forall i :: 0 <= i < n ==> out[i] == 0.0)
                  && q.playing == (p.silent < 188) && q.silent == if p.silent < 188 then p.silent + 1 else 0)
            && (p.queue != [] && (p.playing || |p.queue| >= 2 * p.rate / 5) ==>
                  && q.playing && q.silent == 0
                  && (q.queue, q.accum, out) == Rendered(p.queue, if p.playing then p.accum else 0.0, ratio, n))
  {
    RenderedNothing(p.accum, ratio, n);
    RenderedSize(Started(p).queue, Started(p).accum, ratio, n);
  }

  lemma {:induction false} RenderedSize(queue: seq<real>, accum: real, ratio: real, n: nat)
    ensures |Rendered(queue, accum, ratio, n).2| == n
  {
    if n > 0 {
      RenderedSize(queue, accum, ratio, n - 1);
    }
  }

  /** What an enqueue leaves of a queue with room: all samples in order, less the
      oldest when there are more than 1.5 s of them, down to 0.5 s. */
  lemma EnqueueMeans(p: Player, samples: seq<Pcm>, sr: nat)
    ensures var q, all := Enqueued(p, samples, sr), p.queue + Levels(samples);
            && q.rate == (if sr == 0 then p.rate else sr)
            && q.playing == p.playing && q.accum == p.accum && q.silent == p.silent
            && (2 * |all| <= 3 * q.rate ==> q.queue == all)
            && (2 * |all| > 3 * q.rate + 1 ==> |q.queue| == q.rate / 2 && q.queue == all[|all| - q.rate / 2..])
            && forall i :: 0 <= i < |samples| ==> Levels(samples)[i] * 32768.0 == samples[i] as real
  {
  }

  // -------------------------------------------------------------------- silence

  lemma {:induction false} RenderedNothing(accum: real, ratio: real, n: nat)
    ensures Rendered([], accum, ratio, n) == ([], accum, Zeros(n))
  {
    if n > 0 {
      RenderedNothing(accum, ratio, n - 1);
      assert Zeros(n) == Zeros(n - 1) + [0.0];
    } else {
      assert Zeros(n) == [];
    }
  }

  /** `k` callbacks with nothing arriving. */
  function Idled(p: Player, ratio: real, n: nat, k: nat): Player {
    if k == 0 then p else Processed(Idled(p, ratio, n, k - 1), ratio, n).0
  }

  /** Playout rides through 188 empty callbacks and stops at the 189th. */
  lemma {:induction false} PlayoutStopsAfterSilence(p: Player, ratio: real, n: nat, k: nat)
    requires p.queue == [] && p.playing && p.silent == 0 && k <= MAX_SILENT + 1
    ensures Idled(p, ratio, n, k) == if k <= MAX_SILENT then p.(silent := k) else p.(playing := false)
  {
    if k > 0 {
      PlayoutStopsAfterSilence(p, ratio, n, k - 1);
      RenderedNothing(p.accum, ratio, n);
    }
  }
}
