/** Playout from the moment the worklet exists: chunks arrive between callbacks,
    each callback renders one block, and playout starts and stops by itself
    (web/audio-worklet.js:43-159). Which rates it can be trusted at. */
module PlayoutSessions {
  import opened Multiples
  import opened PlayoutRing
  import opened PlayoutRuns

  datatype Session = Session(play: Play, playing: bool, silent: nat)

  datatype Step = Callback | Chunk(samples: seq<Pcm>)

  /** The sample rates, their ratio, and the outputs of a callback. */
  datatype Setting = Setting(rate: nat, outputRate: nat, ratio: real, block: nat)

  ghost predicate Usable(g: Setting) {
    g.outputRate > 0 && g.block > 0 && g.ratio == g.rate as real / g.outputRate as real
  }

  const SILENT: Session := Session(Start([]), false, 0)

  function Begun(s: Session, g: Setting): Session {
    if !s.playing && |s.play.queue| >= StartThreshold(g.rate) then Session(Start(s.play.queue), true, 0) else s
  }

  /** After a callback of a session that plays. */
  function Counted(s: Session, p: Play): Session {
    if s.play.queue != [] then Session(p, true, 0)
    else if s.silent + 1 > MAX_SILENT then Session(p, false, 0)
    else Session(p, true, s.silent + 1)
  }

  function NextSession(s: Session, step: Step, g: Setting): Session {
    if step.Chunk? then s.(play := Next(s.play, Arrive(step.samples), g.ratio, g.rate))
    else
      var b := Begun(s, g);
      if !b.playing then b else Counted(b, After(b.play, Outputs(g.block), g.ratio, g.rate))
  }

  /** What a step sounds like. */
  function Heard(s: Session, step: Step, g: Setting): seq<real> {
    if step.Chunk? then []
    else
      var b := Begun(s, g);
      if !b.playing then Zeros(g.block) else Sound(b.play, Outputs(g.block), g.ratio, g.rate)
  }

  function PlayerOf(s: Session, g: Setting): Player {
    Player(s.play.queue, g.rate, s.play.accum, s.playing, s.silent)
  }

  /** A session's callback is the worklet's. */
  lemma CallbackIsProcess(s: Session, g: Setting)
    requires g.block > 0
    ensures (PlayerOf(NextSession(s, Callback, g), g), Heard(s, Callback, g)) ==
            Processed(PlayerOf(s, g), g.ratio, g.block)
  {
    RenderIsOutputs(Begun(s, g).play, g.ratio, g.rate, g.block);
  }

  function Reached(steps: seq<Step>, g: Setting): Session {
    if steps == [] then SILENT else NextSession(Reached(steps[..|steps| - 1], g), steps[|steps| - 1], g)
  }

  /** Everything a run put out. */
  function AllHeard(steps: seq<Step>, g: Setting): seq<real> {
    if steps == [] then []
    else
      var front := steps[..|steps| - 1];
      AllHeard(front, g) + Heard(Reached(front, g), steps[|steps| - 1], g)
  }

  /** The chunk fits behind what is queued, so that the ring is a queue. */
  predicate HasRoom(s: Session, step: Step) {
    step.Chunk? ==> Fits(|s.play.queue|, |step.samples|)
  }

  ghost predicate AlwaysRoom(steps: seq<Step>, g: Setting) {
    steps == [] ||
    (AlwaysRoom(steps[..|steps| - 1], g) && HasRoom(Reached(steps[..|steps| - 1], g), steps[|steps| - 1]))
  }

  ghost predicate AlwaysBounded(g: Setting) {
    forall steps | AlwaysRoom(steps, g) :: Bounded(AllHeard(steps, g))
  }

  ghost predicate AlwaysExact(g: Setting) {
    forall steps | AlwaysRoom(steps, g) :: Exact(Reached(steps, g).play, g.ratio)
  }

  /** The largest rate a frame's header carries. */
  const MAX_RATE: nat := 65535

  // ------------------------------------------------------------- slower input

  lemma RatioIs(g: Setting)
    requires Usable(g)
    ensures g.ratio >= 0.0
    ensures g.ratio <= 1.0 <==> g.rate <= g.outputRate
    ensures Times(g.outputRate, g.ratio - 1.0) == g.rate as real - g.outputRate as real
  {
    var r, m := g.ratio, g.outputRate as real;
    assert r * m == g.rate as real;
    assert (r - 1.0) * m == r * m - m;
    TimesIsProduct(g.outputRate, r - 1.0);
    assert r < 0.0 ==> r * m < 0.0;
    assert r > 1.0 ==> (r - 1.0) * m > 0.0;
    assert r <= 1.0 ==> (1.0 - r) * m >= 0.0;
  }

  ghost predicate SoundPlay(p: Play, ratio: real) {
    Bounded(p.queue) && Accounted(p, ratio) && p.accum < 1.0
  }

  lemma StepKeepsSoundPlay(s: Session, step: Step, g: Setting)
    requires SoundPlay(s.play, g.ratio) && 0.0 <= g.ratio <= 1.0
    ensures SoundPlay(NextSession(s, step, g).play, g.ratio) && Bounded(Heard(s, step, g))
  {
    if step.Chunk? {
      ArrivalIsBounded(s.play.queue, step.samples, g.rate);
    } else {
      var p := Begun(s, g).play;
      QueueIsBounded(p, Outputs(g.block), g.ratio, g.rate);
      RunKeepsAccount(p, Outputs(g.block), g.ratio, g.rate);
      RunKeepsFraction(p, Outputs(g.block), g.ratio, g.rate);
      OutputsAreBounded(p, Outputs(g.block), g.ratio, g.rate);
    }
  }

  lemma {:induction false} SlowerInputIsSound(steps: seq<Step>, g: Setting)
    requires 0.0 <= g.ratio <= 1.0
    ensures SoundPlay(Reached(steps, g).play, g.ratio) && Bounded(AllHeard(steps, g))
  {
    if steps != [] {
      SlowerInputIsSound(steps[..|steps| - 1], g);
      StepKeepsSoundPlay(Reached(steps[..|steps| - 1], g), steps[|steps| - 1], g);
    }
  }

  // ------------------------------------------------------------- faster input

  ghost predicate Reachable(s: Session, g: Setting) {
    exists steps :: AlwaysRoom(steps, g) && Reached(steps, g) == s
  }

  lemma Extends(s: Session, step: Step, g: Setting)
    requires Reachable(s, g) && HasRoom(s, step)
    ensures Reachable(NextSession(s, step, g), g)
  {
    var steps :| AlwaysRoom(steps, g) && Reached(steps, g) == s;
    var all := steps + [step];
    assert all[..|all| - 1] == steps;
    assert AlwaysRoom(all, g) && Reached(all, g) == NextSession(s, step, g);
  }

  /** What a reachable session puts out is put out in some run. */
  lemma HeardSomewhere(s: Session, step: Step, g: Setting, i: nat)
    requires Reachable(s, g) && HasRoom(s, step) && i < |Heard(s, step, g)| && Heard(s, step, g)[i] < -1.0
    ensures !AlwaysBounded(g)
  {
    var steps :| AlwaysRoom(steps, g) && Reached(steps, g) == s;
    var all := steps + [step];
    assert all[..|all| - 1] == steps;
    assert AlwaysRoom(all, g);
    assert AllHeard(all, g) == AllHeard(steps, g) + Heard(s, step, g);
    assert AllHeard(all, g)[|AllHeard(steps, g)| + i] < -1.0;
  }

  /** Above the output's rate every output takes a sample. */
  lemma {:induction false} OutputsDrain(p: Play, n: nat, ratio: real, rate: nat)
    requires ratio >= 1.0 && Accounted(p, ratio)
    ensures |After(p, Outputs(n), ratio, rate).queue| <= if n <= |p.queue| then |p.queue| - n else 0
  {
    if n > 0 {
      OutputsDrain(p, n - 1, ratio, rate);
      OutputsGrow(n);
      RunKeepsAccount(p, Outputs(n - 1), ratio, rate);
      var q := After(p, Outputs(n - 1), ratio, rate);
      if q.queue != [] {
        ConsumedMeans(q.queue, q.accum + ratio);
      }
    }
  }

  /** Playing, with nothing queued and no silence counted. */
  ghost predicate Dry(s: Session) {
    s.play.queue == [] && s.playing && s.silent == 0
  }

  lemma {:induction false} RunsDry(s: Session, g: Setting) returns (t: Session)
    requires g.block > 0 && g.ratio >= 1.0
    requires Reachable(s, g) && s.playing && s.silent == 0 && Accounted(s.play, g.ratio)
    ensures Reachable(t, g) && Dry(t) && Accounted(t.play, g.ratio)
    decreases |s.play.queue|
  {
    t := s;
    if s.play.queue != [] {
      OutputsDrain(s.play, g.block, g.ratio, g.rate);
      RunKeepsAccount(s.play, Outputs(g.block), g.ratio, g.rate);
      Extends(s, Callback, g);
      t := RunsDry(NextSession(s, Callback, g), g);
    }
  }

  lemma {:induction false} OutputsOnOne(p: Play, x: real, n: nat, ratio: real, rate: nat)
    requires p.queue == [x] && p.accum + ratio >= 1.0 && n > 0
    ensures After(p, Outputs(n), ratio, rate) == Play([], p.accum + ratio - 1.0, p.data + 1, p.eaten + 1)
  {
    OutputsGrow(n);
    if n == 1 {
      assert Outputs(0) == [] && [x][1..] == [];
      assert Consumed([x], p.accum + ratio) == ([], p.accum + ratio - 1.0);
    } else {
      OutputsOnOne(p, x, n - 1, ratio, rate);
    }
  }

  const TRICKLE: Step := Chunk([0])

  /** A few levels that arrive on an empty queue are not trimmed. */
  lemma FewArrive(levels: seq<real>, rate: nat)
    requires |levels| <= 2 && rate >= 2
    ensures Trimmed([] + levels, rate) == levels
  {
    assert [] + levels == levels;
  }

  lemma ZeroLevel()
    ensures Levels([0]) == [0.0]
  {
  }

  /** One sample arriving for a callback puts the fraction up by what the ratio
      has over 1. */
  lemma OneRound(s: Session, g: Setting) returns (t: Session)
    requires g.block > 0 && g.ratio >= 1.0 && g.rate >= 2 && Reachable(s, g) && Dry(s) && s.play.accum >= 0.0
    ensures Reachable(t, g) && Dry(t) && t.play.accum == s.play.accum + (g.ratio - 1.0)
  {
    Extends(s, TRICKLE, g);
    ZeroLevel();
    FewArrive([0.0], g.rate);
    var fed := NextSession(s, TRICKLE, g);
    assert fed.play.queue == [0.0];
    Extends(fed, Callback, g);
    OutputsOnOne(fed.play, 0.0, g.block, g.ratio, g.rate);
    t := NextSession(fed, Callback, g);
  }

  lemma {:induction false} RoundsOwe(s: Session, k: nat, g: Setting) returns (t: Session)
    requires g.block > 0 && g.ratio >= 1.0 && g.rate >= 2 && Reachable(s, g) && Dry(s) && s.play.accum >= 0.0
    ensures Reachable(t, g) && Dry(t) && t.play.accum == s.play.accum + Times(k, g.ratio - 1.0)
    decreases k
  {
    if k == 0 {
      t := s;
    } else {
      var u := OneRound(s, g);
      t := RoundsOwe(u, k - 1, g);
    }
  }

  function Silence(n: nat): seq<Pcm> {
    seq(n, i => 0)
  }

  /** A chunk of silence starts playout. */
  lemma PlayoutBegins(g: Setting) returns (s: Session)
    requires g.block > 0 && g.ratio >= 1.0 && 1 <= g.rate <= MAX_RATE
    ensures Reachable(s, g) && Dry(s) && Accounted(s.play, g.ratio)
  {
    assert AlwaysRoom([], g) && Reached([], g) == SILENT;
    var silence := Silence(StartThreshold(g.rate) + 1);
    Extends(SILENT, Chunk(silence), g);
    var fed := NextSession(SILENT, Chunk(silence), g);
    assert |fed.play.queue| == |silence|;
    RunKeepsAccount(Begun(fed, g).play, Outputs(g.block), g.ratio, g.rate);
    Extends(fed, Callback, g);
    s := RunsDry(NextSession(fed, Callback, g), g);
  }

  lemma {:induction false} FirstSound(p: Play, n: nat, ratio: real, rate: nat)
    requires n > 0
    ensures |Sound(p, Outputs(n), ratio, rate)| == n && Sound(p, Outputs(n), ratio, rate)[0] == OutputOf(p)
  {
    OutputsGrow(n);
    if n == 1 {
      assert Outputs(0) == [];
    } else {
      FirstSound(p, n - 1, ratio, rate);
    }
  }

  const SWING: seq<Pcm> := [16384, -32768]

  /** Owing more than one sample, the next output is extrapolated. */
  lemma OwingOvershoots(s: Session, g: Setting)
    requires g.block > 0 && g.rate >= 2 && Reachable(s, g) && Dry(s) && s.play.accum > 1.0
    ensures !AlwaysBounded(g)
  {
    Extends(s, Chunk(SWING), g);
    var fed := NextSession(s, Chunk(SWING), g);
    SwingArrives(s.play, g.ratio, g.rate);
    Extrapolated(s.play.accum);
    FirstSound(fed.play, g.block, g.ratio, g.rate);
    HeardSomewhere(fed, Callback, g, 0);
  }

  lemma SwingArrives(p: Play, ratio: real, rate: nat)
    requires p.queue == [] && rate >= 2
    ensures Next(p, Arrive(SWING), ratio, rate) == p.(queue := [0.5, -1.0])
  {
    assert Levels(SWING) == [0.5, -1.0];
    FewArrive(Levels(SWING), rate);
  }

  lemma Extrapolated(accum: real)
    requires accum > 1.0
    ensures Interpolated([0.5, -1.0], accum) < -1.0
  {
    assert Interpolated([0.5, -1.0], accum) == 0.5 - 1.5 * accum;
  }

  lemma FasterInputIsUnsound(g: Setting)
    requires Usable(g) && g.outputRate < g.rate <= MAX_RATE
    ensures !AlwaysBounded(g) && !AlwaysExact(g)
  {
    RatioIs(g);
    var s := PlayoutBegins(g);
    var t := RoundsOwe(s, g.outputRate + 1, g);
    OwingOvershoots(t, g);
    OwingIsInexact(t, g);
  }

  lemma {:induction false} SessionsAreAccounted(steps: seq<Step>, g: Setting)
    requires g.ratio >= 0.0
    ensures Accounted(Reached(steps, g).play, g.ratio)
  {
    if steps != [] {
      SessionsAreAccounted(steps[..|steps| - 1], g);
      var b := Begun(Reached(steps[..|steps| - 1], g), g);
      RunKeepsAccount(b.play, Outputs(g.block), g.ratio, g.rate);
    }
  }

  lemma OwingIsInexact(s: Session, g: Setting)
    requires Reachable(s, g) && s.play.accum >= 1.0 && g.ratio >= 0.0
    ensures !AlwaysExact(g)
  {
    var steps :| AlwaysRoom(steps, g) && Reached(steps, g) == s;
    SessionsAreAccounted(steps, g);
    AccountIsFloor(s.play, g.ratio);
  }

  // --------------------------------------------------------------- main result

  /** For every input rate a frame can carry, every output rate and every block
      size: every output of every session is within full scale, and every playout
      uses up its input exactly, if and only if the input rate is at most the
      output's. */
  lemma PlayoutIsSoundIff(g: Setting)
    requires Usable(g) && g.rate <= MAX_RATE
    ensures AlwaysBounded(g) <==> g.rate <= g.outputRate
    ensures AlwaysExact(g) <==> g.rate <= g.outputRate
  {
    RatioIs(g);
    if g.rate <= g.outputRate {
      forall steps: seq<Step>
        ensures Bounded(AllHeard(steps, g)) && Exact(Reached(steps, g).play, g.ratio)
      {
        SlowerInputIsSound(steps, g);
        AccountIsFloor(Reached(steps, g).play, g.ratio);
      }
    } else {
      FasterInputIsUnsound(g);
    }
  }
}
