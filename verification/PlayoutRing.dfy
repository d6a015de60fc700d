/** The browser's jitter buffer: a ring of samples, trimmed when it runs long,
    played out through a linear resampler (web/audio-worklet.js:9-147), in real
    arithmetic. */
module PlayoutRing {
  const CAPACITY: nat := 32768
  const MAX_SILENT: nat := 188

  type Pcm = x: int | -32768 <= x < 32768

  function Level(x: Pcm): real {
    x as real / 32768.0
  }

  function Levels(xs: seq<Pcm>): (r: seq<real>)
    ensures |r| == |xs|
  {
    seq(|xs|, i requires 0 <= i < |xs| => Level(xs[i]))
  }

  /** Within full scale. */
  ghost predicate Bounded(levels: seq<real>) {
    forall i :: 0 <= i < |levels| ==> -1.0 <= levels[i] <= 1.0
  }

  // ------------------------------------------------------------- specification

  /** The FIFO the ring stands for, and the playout state. */
  datatype Player = Player(queue: seq<real>, rate: nat, accum: real, playing: bool, silent: nat)

  function MaxSamples(rate: nat): nat {
    3 * rate / 2
  }

  function TargetSamples(rate: nat): nat {
    rate / 2
  }

  function StartThreshold(rate: nat): nat {
    2 * rate / 5
  }

  /** Over 1.5 s the oldest samples go, down to half a second. */
  function Trimmed(queue: seq<real>, rate: nat): (kept: seq<real>)
    ensures |kept| == if |queue| > MaxSamples(rate) then TargetSamples(rate) else |queue|
    ensures kept == queue[|queue| - |kept|..]
  {
    if |queue| > MaxSamples(rate) then queue[|queue| - TargetSamples(rate)..] else queue
  }

  function NewRate(rate: nat, sr: nat): nat {
    if sr != 0 then sr else rate
  }

  function Enqueued(p: Player, samples: seq<Pcm>, sr: nat): Player {
    var rate := NewRate(p.rate, sr);
    p.(queue := Trimmed(p.queue + Levels(samples), rate), rate := rate)
  }

  function Consumed(queue: seq<real>, accum: real): (seq<real>, real)
    decreases |queue|
  {
    if accum >= 1.0 && queue != [] then Consumed(queue[1..], accum - 1.0) else (queue, accum)
  }

  /** Between the first two samples, or on the only one. */
  function Interpolated(queue: seq<real>, frac: real): real
    requires queue != []
  {
    queue[0] * (1.0 - frac) + (if |queue| > 1 then queue[1] else queue[0]) * frac
  }

  /** The queue and the fraction after `n` outputs, and the outputs. */
  function Rendered(queue: seq<real>, accum: real, ratio: real, n: nat): (seq<real>, real, seq<real>) {
    if n == 0 then (queue, accum, [])
    else
      var (q, a, out) := Rendered(queue, accum, ratio, n - 1);
      if q == [] then (q, a, out + [0.0])
      else
        var (q', a') := Consumed(q, a + ratio);
        (q', a', out + [Interpolated(q, a)])
  }

  function Started(p: Player): Player {
    if !p.playing && |p.queue| >= StartThreshold(p.rate) then p.(playing := true, silent := 0, accum := 0.0) else p
  }

  function Silenced(p: Player): Player {
    if p.silent + 1 > MAX_SILENT then p.(playing := false, silent := 0) else p.(silent := p.silent + 1)
  }

  function Zeros(n: nat): seq<real> {
    seq(n, i => 0.0)
  }

  /** One process() call for `n` outputs at `ratio` input samples each. */
  function Processed(p: Player, ratio: real, n: nat): (Player, seq<real>) {
    var s := Started(p);
    if !s.playing then (s, Zeros(n))
    else
      var (q, a, out) := Rendered(s.queue, s.accum, ratio, n);
      var r := s.(queue := q, accum := a);
      (if n > 0 && s.queue != [] then r.(silent := 0) else Silenced(r), out)
  }

  // --------------------------------------------------------------------- ring

  /** The slot `i` places after `pos`. */
  function Wrap(pos: nat, i: nat): (slot: nat)
    requires pos < CAPACITY && i <= CAPACITY
    ensures slot < CAPACITY
  {
    if pos + i < CAPACITY then pos + i else pos + i - CAPACITY
  }

  lemma WrapIsMod(pos: nat, i: nat)
    requires pos < CAPACITY && i <= CAPACITY
    ensures (pos + i) % CAPACITY == Wrap(pos, i)
  {
  }

  function Bump(pos: nat): nat
    requires pos < CAPACITY
  {
    if pos + 1 < CAPACITY then pos + 1 else 0
  }

  /** `pos` after `n` single steps round the ring. */
  function Forward(pos: nat, n: nat): (slot: nat)
    requires pos < CAPACITY
    ensures slot < CAPACITY
  {
    if n == 0 then pos else Bump(Forward(pos, n - 1))
  }

  lemma {:induction false} ForwardIsMod(pos: nat, n: nat)
    requires pos < CAPACITY
    ensures Forward(pos, n) == (pos + n) % CAPACITY
  {
    if n > 0 {
      ForwardIsMod(pos, n - 1);
    }
  }

  /** `n` more samples fit behind `buffered`. */
  predicate Fits(buffered: nat, n: nat) {
    buffered + n <= CAPACITY
  }

  /** They do not, but end up where a reader of a full ring starts. */
  predicate FullCircle(buffered: nat, n: nat) {
    (buffered + n) % CAPACITY == 0
  }

  function Filled(buffered: nat, n: nat): nat {
    if Fits(buffered, n) then buffered + n else CAPACITY
  }

  lemma LevelsGrow(xs: seq<Pcm>, i: nat)
    requires i < |xs|
    ensures Levels(xs[..i + 1]) == Levels(xs[..i]) + [Level(xs[i])]
  {
  }

  lemma ShiftByMultiple(pos: nat, n: nat)
    requires pos < CAPACITY
    ensures (pos + n) % CAPACITY == pos <==> n % CAPACITY == 0
  {
  }

  class RadioAudioProcessor {
    const buffer: array<real>
    var writePos: nat
    var readPos: nat
    var buffered: nat
    var inputSampleRate: nat
    var playing: bool
    var resampleAccum: real
    var silentFrames: nat
    ghost var queue: seq<real>
    ghost var enqueuedTotal: nat
    ghost var consumedTotal: nat
    ghost var trimmedTotal: nat

    ghost predicate Valid()
      reads this, buffer
    {
      && buffer.Length == CAPACITY && readPos < CAPACITY && writePos < CAPACITY
      && buffered == |queue| <= CAPACITY
      && forall i :: 0 <= i < buffered ==> buffer[Wrap(readPos, i)] == queue[i]
    }

    /** Every slot is within full scale; only an enqueue writes to them. */
    ghost predicate InScale()
      reads buffer
    {
      Bounded(buffer[..])
    }

    /** New samples go right behind the queue. */
    ghost predicate Aligned()
      requires Valid()
      reads this, buffer
    {
      writePos == Wrap(readPos, buffered)
    }

    ghost predicate Conserved()
      reads this
    {
      enqueuedTotal == consumedTotal + trimmedTotal + buffered
    }

    ghost function View(): Player
      reads this
    {
      Player(queue, inputSampleRate, resampleAccum, playing, silentFrames)
    }

    constructor ()
      ensures Valid() && Aligned() && Conserved()
      ensures View() == Player([], 8000, 0.0, false, 0) && InScale()
    {
      buffer := new real[CAPACITY](_ => 0.0);
      writePos, readPos, buffered, inputSampleRate := 0, 0, 0, 8000;
      playing, resampleAccum, silentFrames := false, 0.0, 0;
      queue, enqueuedTotal, consumedTotal, trimmedTotal := [], 0, 0, 0;
    }

    method WriteSample(x: Pcm)
      requires Valid()
      modifies buffer, this`writePos, this`buffered, this`queue
      ensures Valid()
      ensures writePos == Bump(old(writePos)) && buffered == Filled(old(buffered), 1)
      ensures old(Aligned()) && old(buffered) < CAPACITY ==> Aligned() && queue == old(queue) + [Level(x)]
      ensures old(InScale()) ==> InScale()
    {
      ghost var fits := Aligned() && buffered < CAPACITY;
      buffer[writePos] := x as real / 32768.0;
      writePos := (writePos + 1) % CAPACITY;
      buffered := if buffered + 1 <= CAPACITY then buffered + 1 else CAPACITY;
      if fits {
        queue := queue + [Level(x)];
      } else {
        queue := seq(buffered, i requires 0 <= i < buffered <= CAPACITY
                                 requires readPos < CAPACITY && buffer.Length == CAPACITY
                                 reads this, buffer => buffer[Wrap(readPos, i)]);
      }
    }

    method WriteSamples(samples: seq<Pcm>)
      requires Valid()
      modifies buffer, this`writePos, this`buffered, this`queue
      ensures Valid()
      ensures buffered == Filled(old(buffered), |samples|)
      ensures old(InScale()) ==> InScale()
      ensures old(Aligned()) && Fits(old(buffered), |samples|) ==> queue == old(queue) + Levels(samples)
      ensures old(Aligned()) ==> (Aligned() <==> Fits(old(buffered), |samples|) || FullCircle(old(buffered), |samples|))
    {
      for i := 0 to |samples|
        invariant Valid() && writePos == Forward(old(writePos), i)
        invariant buffered == Filled(old(buffered), i)
        invariant old(InScale()) ==> InScale()
        invariant old(Aligned()) && Fits(old(buffered), i) ==> Aligned() && queue == old(queue) + Levels(samples[..i])
      {
        WriteSample(samples[i]);
        LevelsGrow(samples, i);
      }
      assert samples[..|samples|] == samples;
      if old(Aligned()) {
        AlignedWhen(readPos, old(buffered), old(writePos), |samples|);
      }
    }

    /** Samples queue up in order while they fit. Exactly when they do not, some
        are lost, and unless the ring came full circle the next ones will be
        written in the wrong place. */
    method EnqueueSamples(samples: seq<Pcm>, sr: nat)
      requires Valid()
      modifies buffer, this
      ensures Valid()
      ensures old(Aligned()) && Fits(old(buffered), |samples|) ==>
                queue == Enqueued(old(View()), samples, sr).queue
      ensures old(Aligned()) ==> (Aligned() <==> Fits(old(buffered), |samples|) || FullCircle(old(buffered), |samples|))
      ensures old(Conserved()) ==> (Conserved() <==> Fits(old(buffered), |samples|))
      ensures old(InScale()) ==> InScale() && Bounded(queue)
      ensures View() == old(View()).(queue := queue, rate := NewRate(old(inputSampleRate), sr))
      ensures consumedTotal == old(consumedTotal) && enqueuedTotal == old(enqueuedTotal) + |samples|
    {
      if sr != 0 && sr != inputSampleRate {
        inputSampleRate := sr;
      }
      WriteSamples(samples);
      enqueuedTotal := enqueuedTotal + |samples|;
      TrimOverflow();
      assert forall i :: 0 <= i < |queue| ==> queue[i] == buffer[..][Wrap(readPos, i)];
    }

    /** Take whole samples off the front. */
    method Consume()
      requires Valid()
      modifies this`readPos, this`buffered, this`queue, this`resampleAccum, this`consumedTotal
      ensures Valid() && (Aligned() <==> old(Aligned())) && (Conserved() <==> old(Conserved()))
      ensures (queue, resampleAccum) == Consumed(old(queue), old(resampleAccum))
    {
      while resampleAccum >= 1.0 && buffered > 0
        invariant Valid() && (Aligned() <==> old(Aligned())) && (Conserved() <==> old(Conserved()))
        invariant Consumed(queue, resampleAccum) == Consumed(old(queue), old(resampleAccum))
        decreases buffered
      {
        resampleAccum := resampleAccum - 1.0;
        WrapIsMod(readPos, 1);
        readPos := (readPos + 1) % CAPACITY;
        buffered := buffered - 1;
        queue := queue[1..];
        consumedTotal := consumedTotal + 1;
      }
    }

    /** The output between the first two samples. */
    method Interpolate() returns (level: real)
      requires Valid() && buffered > 0
      ensures level == Interpolated(queue, resampleAccum)
    {
      WrapIsMod(readPos, 1);
      var idx0, idx1 := readPos, (readPos + 1) % CAPACITY;
      assert buffer[Wrap(readPos, 0)] == queue[0];
      assert buffered > 1 ==> buffer[Wrap(readPos, 1)] == queue[1];
      var frac := resampleAccum;
      level := buffer[idx0] * (1.0 - frac) + (if buffered > 1 then buffer[idx1] else buffer[idx0]) * frac;
    }

    method Render(ratio: real, output: array<real>) returns (hadData: bool)
      requires Valid() && output != buffer
      modifies output, this`readPos, this`buffered, this`queue, this`resampleAccum, this`consumedTotal
      ensures Valid() && (Aligned() <==> old(Aligned())) && (Conserved() <==> old(Conserved()))
      ensures (queue, resampleAccum, output[..]) == Rendered(old(queue), old(resampleAccum), ratio, output.Length)
      ensures hadData <==> output.Length > 0 && old(queue) != []
    {
      hadData := false;
      for i := 0 to output.Length
        invariant Valid() && (Aligned() <==> old(Aligned())) && (Conserved() <==> old(Conserved()))
        invariant (queue, resampleAccum, output[..i]) == Rendered(old(queue), old(resampleAccum), ratio, i)
        invariant hadData <==> i > 0 && old(queue) != []
        invariant i == 0 ==> queue == old(queue)
        invariant old(queue) == [] ==> queue == []
      {
        if buffered > 0 {
          hadData := true;
          var level := Interpolate();
          output[i] := level;
          resampleAccum := resampleAccum + ratio;
          Consume();
        } else {
          output[i] := 0.0;
        }
        assert output[..i + 1] == output[..i] + [output[i]];
      }
      assert output[..output.Length] == output[..];
    }

    /** One callback: `output` is filled from the queue, or with silence. */
    method Process(outputRate: nat, output: array<real>)
      requires Valid() && output != buffer && outputRate > 0
      modifies this, output
      ensures Valid() && (Aligned() <==> old(Aligned())) && (Conserved() <==> old(Conserved()))
      ensures (View(), output[..]) ==
              Processed(old(View()), old(inputSampleRate) as real / outputRate as real, output.Length)
    {
      if !playing {
        var startThreshold := StartThreshold(inputSampleRate);
        if buffered >= startThreshold {
          playing, silentFrames, resampleAccum := true, 0, 0.0;
        } else {
          Silence(output);
          return;
        }
      }
      assert View() == Started(old(View()));
      var ratio := inputSampleRate as real / outputRate as real;
      var hadData := Render(ratio, output);
      CountSilence(hadData);
    }

    method Silence(output: array<real>)
      modifies output
      ensures output[..] == Zeros(output.Length)
    {
      for i := 0 to output.Length
        invariant forall k :: 0 <= k < i ==> output[k] == 0.0
      {
        output[i] := 0.0;
      }
    }

    /** Playout stops after 189 callbacks in a row without data. */
    method CountSilence(hadData: bool)
      modifies this`playing, this`silentFrames
      ensures View() == if hadData then old(View()).(silent := 0) else Silenced(old(View()))
    {
      if !hadData {
        silentFrames := silentFrames + 1;
        if silentFrames > MAX_SILENT {
          playing, silentFrames := false, 0;
        }
      } else {
        silentFrames := 0;
      }
    }

    /** Drop the oldest samples when there are more than 1.5 s of them. */
    method TrimOverflow()
      requires Valid()
      modifies this`readPos, this`buffered, this`queue, this`trimmedTotal
      ensures Valid() && (Aligned() <==> old(Aligned())) && (Conserved() <==> old(Conserved()))
      ensures queue == Trimmed(old(queue), inputSampleRate)
    {
      var maxSamples, targetSamples := MaxSamples(inputSampleRate), TargetSamples(inputSampleRate);
      if buffered > maxSamples {
        var skip := buffered - targetSamples;
        WrapIsMod(readPos, skip);
        readPos := (readPos + skip) % CAPACITY;
        buffered := buffered - skip;
        trimmedTotal := trimmedTotal + skip;
        queue := queue[skip..];
      }
    }
  }

  /** Where the ring's positions agree after `n` more samples. */
  lemma AlignedWhen(readPos: nat, buffered: nat, writePos: nat, n: nat)
    requires readPos < CAPACITY && buffered <= CAPACITY && writePos == Wrap(readPos, buffered)
    ensures Forward(writePos, n) == Wrap(readPos, Filled(buffered, n)) <==> Fits(buffered, n) || FullCircle(buffered, n)
  {
    ForwardIsMod(writePos, n);
    assert (writePos + n) % CAPACITY == (readPos + (buffered + n)) % CAPACITY;
    ShiftByMultiple(readPos, buffered + n);
    if Fits(buffered, n) {
      WrapIsMod(readPos, buffered + n);
    }
  }
}
