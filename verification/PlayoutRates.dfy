/** Loudness when the input's rate changes and chunks overfill the ring: whatever an
    enqueue leaves in the ring is within full scale
    (PlayoutRing.RadioAudioProcessor.EnqueueSamples), so only the rates matter
    (web/audio-worklet.js:43-159). */
module PlayoutRates {
  import opened PlayoutRing
  import opened PlayoutRuns
  import opened PlayoutSessions

  /** A callback for `n` outputs, or what an enqueue left. */
  datatype Change = Block(n: nat) | Left(queue: seq<real>, rate: nat)

  function ChangedBy(p: Player, c: Change, outputRate: nat): Player
    requires outputRate > 0
  {
    match c
    case Block(n) => Processed(p, p.rate as real / outputRate as real, n).0
    case Left(queue, rate) => p.(queue := queue, rate := rate)
  }

  function SoundOf(p: Player, c: Change, outputRate: nat): seq<real>
    requires outputRate > 0
  {
    match c
    case Block(n) => Processed(p, p.rate as real / outputRate as real, n).1
    case Left(_, _) => []
  }

  /** The player the worklet starts with. */
  const IDLE: Player := Player([], 8000, 0.0, false, 0)

  function PlayerAfter(changes: seq<Change>, outputRate: nat): Player
    requires outputRate > 0
  {
    if changes == [] then IDLE
    else ChangedBy(PlayerAfter(changes[..|changes| - 1], outputRate), changes[|changes| - 1], outputRate)
  }

  function AllSound(changes: seq<Change>, outputRate: nat): seq<real>
    requires outputRate > 0
  {
    if changes == [] then []
    else
      var front := changes[..|changes| - 1];
      AllSound(front, outputRate) + SoundOf(PlayerAfter(front, outputRate), changes[|changes| - 1], outputRate)
  }

  ghost predicate DrawnFrom(changes: seq<Change>, rates: set<nat>) {
    forall i :: 0 <= i < |changes| && changes[i].Left? ==> Bounded(changes[i].queue) && changes[i].rate in rates
  }

  // -------------------------------------------------------------- slower input

  lemma {:induction false} RenderedIsBounded(queue: seq<real>, accum: real, ratio: real, n: nat)
    requires Bounded(queue) && 0.0 <= accum < 1.0 && 0.0 <= ratio <= 1.0
    ensures var (q, a, out) := Rendered(queue, accum, ratio, n);
            Bounded(q) && 0.0 <= a < 1.0 && Bounded(out)
  {
    if n > 0 {
      RenderedIsBounded(queue, accum, ratio, n - 1);
      var (q, a, _) := Rendered(queue, accum, ratio, n - 1);
      if q != [] {
        ConsumedMeans(q, a + ratio);
        InterpolatedIsBetween(q, a);
      }
    }
  }

  /** It plays at a rate up to the output's, or has not heard anything yet. */
  ghost predicate Calm(p: Player, outputRate: nat) {
    && Bounded(p.queue) && 0.0 <= p.accum < 1.0
    && (p.rate <= outputRate || (p.queue == [] && !p.playing && p.rate == 8000))
  }

  lemma ChangeKeepsCalm(p: Player, c: Change, outputRate: nat)
    requires outputRate > 0 && Calm(p, outputRate)
    requires c.Left? ==> Bounded(c.queue) && c.rate <= outputRate
    ensures Calm(ChangedBy(p, c, outputRate), outputRate) && Bounded(SoundOf(p, c, outputRate))
  {
    if c.Block? && Started(p).playing {
      var ratio := p.rate as real / outputRate as real;
      RatioIs(Setting(p.rate, outputRate, ratio, 1));
      RenderedIsBounded(Started(p).queue, Started(p).accum, ratio, c.n);
    }
  }

  lemma {:induction false} SlowRatesAreBounded(changes: seq<Change>, rates: set<nat>, outputRate: nat)
    requires outputRate > 0 && DrawnFrom(changes, rates) && forall r <- rates :: r <= outputRate
    ensures Calm(PlayerAfter(changes, outputRate), outputRate) && Bounded(AllSound(changes, outputRate))
  {
    if changes != [] {
      var front := changes[..|changes| - 1];
      SlowRatesAreBounded(front, rates, outputRate);
      ChangeKeepsCalm(PlayerAfter(front, outputRate), changes[|changes| - 1], outputRate);
    }
  }

  // -------------------------------------------------------------- faster input

  /** A session at one rate, as changes; its first chunk sets the rate. */
  function ChangesOf(steps: seq<Step>, g: Setting): seq<Change> {
    if steps == [] then [Left([], g.rate)]
    else
      ChangesOf(steps[..|steps| - 1], g) +
      [if steps[|steps| - 1].Callback? then Block(g.block) else Left(Reached(steps, g).play.queue, g.rate)]
  }

  lemma {:induction false} ChangesMakeTheSession(steps: seq<Step>, g: Setting)
    requires Usable(g)
    ensures PlayerAfter(ChangesOf(steps, g), g.outputRate) == PlayerOf(Reached(steps, g), g)
    ensures AllSound(ChangesOf(steps, g), g.outputRate) == AllHeard(steps, g)
  {
    var all := ChangesOf(steps, g);
    if steps == [] {
      assert all[..|all| - 1] == [];
    } else {
      var front := steps[..|steps| - 1];
      ChangesMakeTheSession(front, g);
      assert all[..|all| - 1] == ChangesOf(front, g);
      CallbackIsProcess(Reached(front, g), g);
    }
  }

  lemma {:induction false} SessionQueuesAreBounded(steps: seq<Step>, g: Setting)
    requires g.ratio >= 0.0
    ensures Bounded(Reached(steps, g).play.queue) && DrawnFrom(ChangesOf(steps, g), {g.rate})
  {
    if steps != [] {
      var front, step := steps[..|steps| - 1], steps[|steps| - 1];
      SessionQueuesAreBounded(front, g);
      SessionsAreAccounted(front, g);
      var s := Reached(front, g);
      if step.Chunk? {
        ArrivalIsBounded(s.play.queue, step.samples, g.rate);
      } else {
        QueueIsBounded(Begun(s, g).play, Outputs(g.block), g.ratio, g.rate);
      }
    }
  }

  // --------------------------------------------------------------- main result

  /** For rates a frame can carry, changing at will, with any chunks and callbacks:
      no output is ever louder than full scale if and only if none of the rates is
      above the output's. */
  lemma RatesAreSoundIff(rates: set<nat>, outputRate: nat)
    requires outputRate > 0 && forall r <- rates :: r <= MAX_RATE
    ensures (forall changes | DrawnFrom(changes, rates) :: Bounded(AllSound(changes, outputRate))) <==>
            (forall r <- rates :: r <= outputRate)
  {
    if forall r <- rates :: r <= outputRate {
      forall changes | DrawnFrom(changes, rates)
        ensures Bounded(AllSound(changes, outputRate))
      {
        SlowRatesAreBounded(changes, rates, outputRate);
      }
    } else {
      var r :| r in rates && r > outputRate;
      var g := Setting(r, outputRate, r as real / outputRate as real, 128);
      PlayoutIsSoundIff(g);
      var steps :| AlwaysRoom(steps, g) && !Bounded(AllHeard(steps, g));
      RatioIs(g);
      ChangesMakeTheSession(steps, g);
      SessionQueuesAreBounded(steps, g);
      assert DrawnFrom(ChangesOf(steps, g), rates);
    }
  }
}
