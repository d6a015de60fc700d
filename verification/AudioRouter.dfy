/** The audio router: which site's audio a talkgroup carries, frame sequence
    numbers, and which instance a sender belongs to (internal/audio/router.go).
    Times are in nanoseconds. */
module AudioRouter {
  import opened Sql
  import J = Jitter

  const JITTER_BOUND: int := 10_000_000_000
  const MAX_SEQ: nat := 65535

  datatype Key = Key(system: int, tgid: int)

  datatype Chunk = Chunk(
    shortName: string, sourceAddr: string, system: int, site: int, tgid: int, unit: int,
    sampleRate: int, timestamp: int)

  datatype Stream = Stream(
    site: int, shortName: string, lastChunk: int, seqNo: nat, jitter: J.Stats, startedAt: int)

  /** A published frame, with the site it came from, when its chunk was received
      and when the router processed it, and whether it began a stream. */
  datatype Frame = Frame(
    key: Key, unit: int, sampleRate: int, seqNo: nat, site: int, received: int, processed: int, begins: bool)

  /** The router's streams and encoders (by their sample rate), all it has
      published, and the time of its last step. */
  datatype Routing = Routing(streams: map<Key, Stream>, encoders: map<Key, int>, log: seq<Frame>, clock: int)

  const EMPTY := Routing(map[], map[], [], 0)

  /** uint16 increment. */
  function Bump(seqNo: nat): nat {
    if seqNo >= MAX_SEQ then 0 else seqNo + 1
  }

  function NewStream(c: Chunk, site: int): Stream {
    Stream(site, c.shortName, c.timestamp, 0, J.EMPTY, c.timestamp)
  }

  predicate Idle(s: Stream, now: int, idleTimeout: int) {
    now - s.lastChunk > idleTimeout
  }

  /** The stream after a chunk; none if another site owns it. */
  function Owned(s: Stream, c: Chunk, site: int, now: int, idleTimeout: int): Option<Stream> {
    if s.site != site then
      if Idle(s, now, idleTimeout)
      then Some(s.(site := site, shortName := c.shortName, lastChunk := c.timestamp, seqNo := 0,
                   jitter := J.EMPTY, startedAt := c.timestamp))
      else None
    else
      var delta := c.timestamp - s.lastChunk;
      Some(s.(lastChunk := c.timestamp, seqNo := Bump(s.seqNo),
              jitter := if 0 < delta < JITTER_BOUND then J.Added(s.jitter, Millis(delta)) else s.jitter))
  }

  /** Whole microseconds, in milliseconds. */
  function Millis(ns: int): real {
    (ns / 1000) as real / 1000.0
  }

  /** In milliseconds, the time is right to less than a microsecond. */
  lemma MillisMeans(ns: int)
    ensures 0.0 <= ns as real - Millis(ns) * 1_000_000.0 < 1_000.0
  {
  }

  function StreamAfter(r: Routing, key: Key, c: Chunk, site: int, now: int, idleTimeout: int): Option<Stream> {
    if key in r.streams then Owned(r.streams[key], c, site, now, idleTimeout)
    else Some(NewStream(c, site))
  }

  /** A new stream, or one that another site takes over. */
  predicate Begins(r: Routing, key: Key, site: int) {
    key !in r.streams || r.streams[key].site != site
  }

  function RateOf(r: Routing, key: Key, c: Chunk): int {
    if key in r.encoders then r.encoders[key] else c.sampleRate
  }

  /** A chunk with a known system, site and talkgroup. */
  function Routed(r: Routing, key: Key, c: Chunk, site: int, now: int, idleTimeout: int): Routing {
    match StreamAfter(r, key, c, site, now, idleTimeout)
    case None => r.(clock := now)
    case Some(s) =>
      Routing(r.streams[key := s], r.encoders[key := RateOf(r, key, c)],
              r.log + [Frame(key, c.unit, RateOf(r, key, c), s.seqNo, site, c.timestamp, now, Begins(r, key, site))],
              now)
  }

  function Busy(streams: map<Key, Stream>, now: int, idleTimeout: int): map<Key, Stream> {
    map k <- streams | !Idle(streams[k], now, idleTimeout) :: streams[k]
  }

  function Cleaned(r: Routing, now: int, idleTimeout: int): Routing {
    var gone := r.streams.Keys - Busy(r.streams, now, idleTimeout).Keys;
    Routing(Busy(r.streams, now, idleTimeout), r.encoders - gone, r.log, now)
  }

  // ---------------------------------------------------------------- invariant

  /** The last frame published for `key`. */
  function LastOf(log: seq<Frame>, key: Key): Option<Frame> {
    if log == [] then None
    else if log[|log| - 1].key == key then Some(log[|log| - 1])
    else LastOf(log[..|log| - 1], key)
  }

  /** When the key's last stream began. */
  function StartOf(log: seq<Frame>, key: Key): Option<int> {
    if log == [] then None
    else
      var f := log[|log| - 1];
      if f.key == key && f.begins then Some(f.received) else StartOf(log[..|log| - 1], key)
  }

  /** The times between frames of the key's last stream, in milliseconds, leaving
      out those that are not positive or not below ten seconds. */
  function Deltas(log: seq<Frame>, key: Key): seq<real> {
    if log == [] then []
    else
      var front, f := log[..|log| - 1], log[|log| - 1];
      if f.key != key then Deltas(front, key)
      else if f.begins || LastOf(front, key).None? then []
      else
        var delta := f.received - LastOf(front, key).value.received;
        Deltas(front, key) + if 0 < delta < JITTER_BOUND then [Millis(delta)] else []
  }

  predicate Continues(a: Frame, b: Frame) {
    b.site == a.site && b.seqNo == Bump(a.seqNo)
  }

  predicate Restarts(a: Frame, b: Frame, idleTimeout: int) {
    b.seqNo == 0 && b.processed - a.received > idleTimeout
  }

  /** A key's next frame continues the last one's stream, or starts again from 0
      after the silence that ends an ownership. */
  predicate Follows(last: Option<Frame>, f: Frame, idleTimeout: int) {
    match last
    case None => f.seqNo == 0
    case Some(a) => Continues(a, f) || Restarts(a, f, idleTimeout)
  }

  ghost predicate Orderly(log: seq<Frame>, idleTimeout: int) {
    log == [] ||
    (Orderly(log[..|log| - 1], idleTimeout) &&
     Follows(LastOf(log[..|log| - 1], log[|log| - 1].key), log[|log| - 1], idleTimeout))
  }

  /** A stream remembers its key's last frame; a key that published and has no
      stream has been silent long enough. */
  ghost predicate Remembers(r: Routing, key: Key, idleTimeout: int) {
    var last := LastOf(r.log, key);
    if key in r.streams
    then && last.Some? && last.value.site == r.streams[key].site && last.value.seqNo == r.streams[key].seqNo
         && last.value.received == r.streams[key].lastChunk
         && (key in r.encoders ==> r.encoders[key] == last.value.sampleRate)
         && r.streams[key].jitter == J.After(Deltas(r.log, key))
         && StartOf(r.log, key) == Some(r.streams[key].startedAt)
    else last.Some? ==> r.clock - last.value.received > idleTimeout
  }

  ghost predicate Inv(r: Routing, idleTimeout: int) {
    && r.streams.Keys == r.encoders.Keys
    && Orderly(r.log, idleTimeout)
    && forall key: Key :: Remembers(r, key, idleTimeout)
  }

  lemma RoutedKeepsOrder(r: Routing, key: Key, c: Chunk, site: int, now: int, idleTimeout: int)
    requires Inv(r, idleTimeout) && r.clock <= now
    ensures Orderly(Routed(r, key, c, site, now, idleTimeout).log, idleTimeout)
  {
    assert Remembers(r, key, idleTimeout);
    var n := Routed(r, key, c, site, now, idleTimeout);
    if StreamAfter(r, key, c, site, now, idleTimeout).Some? {
      assert n.log[..|n.log| - 1] == r.log;
    }
  }

  lemma RoutedRemembers(r: Routing, key: Key, c: Chunk, site: int, now: int, idleTimeout: int, k: Key)
    requires Inv(r, idleTimeout) && r.clock <= now
    ensures Remembers(Routed(r, key, c, site, now, idleTimeout), k, idleTimeout)
  {
    var n := Routed(r, key, c, site, now, idleTimeout);
    assert Remembers(r, k, idleTimeout);
    if StreamAfter(r, key, c, site, now, idleTimeout).Some? {
      assert n.log[..|n.log| - 1] == r.log;
      if k == key {
        OneMore(Deltas(r.log, key), Millis(c.timestamp - LastReceived(r.log, key)));
      }
    }
  }

  function LastReceived(log: seq<Frame>, key: Key): int {
    if LastOf(log, key).Some? then LastOf(log, key).value.received else 0
  }

  lemma OneMore(xs: seq<real>, x: real)
    ensures J.After(xs + [x]) == J.Added(J.After(xs), x)
    ensures xs + [] == xs
  {
    assert (xs + [x])[..|xs|] == xs;
  }

  lemma RoutedKeepsInv(r: Routing, key: Key, c: Chunk, site: int, now: int, idleTimeout: int)
    requires Inv(r, idleTimeout) && r.clock <= now
    ensures Inv(Routed(r, key, c, site, now, idleTimeout), idleTimeout)
  {
    RoutedKeepsOrder(r, key, c, site, now, idleTimeout);
    var n := Routed(r, key, c, site, now, idleTimeout);
    forall k: Key
      ensures Remembers(n, k, idleTimeout)
    {
      RoutedRemembers(r, key, c, site, now, idleTimeout, k);
    }
  }

  lemma CleanedKeepsInv(r: Routing, now: int, idleTimeout: int)
    requires Inv(r, idleTimeout) && r.clock <= now
    ensures Inv(Cleaned(r, now, idleTimeout), idleTimeout)
  {
    var n := Cleaned(r, now, idleTimeout);
    forall k: Key
      ensures Remembers(n, k, idleTimeout)
    {
      assert Remembers(r, k, idleTimeout);
    }
  }

  // ---------------------------------------------------------------------- runs

  /** `time` is what passed since the step before. */
  datatype Step =
    | Route(key: Key, chunk: Chunk, site: int, time: nat)
    | CleanUp(time: nat)

  function Next(r: Routing, step: Step, idleTimeout: int): Routing {
    match step
    case Route(key, chunk, site, time) => Routed(r, key, chunk, site, r.clock + time, idleTimeout)
    case CleanUp(time) => Cleaned(r, r.clock + time, idleTimeout)
  }

  function After(steps: seq<Step>, idleTimeout: int): Routing {
    if steps == [] then EMPTY else Next(After(steps[..|steps| - 1], idleTimeout), steps[|steps| - 1], idleTimeout)
  }

  lemma StepKeepsInv(r: Routing, step: Step, idleTimeout: int)
    requires Inv(r, idleTimeout)
    ensures Inv(Next(r, step, idleTimeout), idleTimeout)
  {
    var now, n := r.clock + step.time, Next(r, step, idleTimeout);
    if step.Route? {
      assert n == Routed(r, step.key, step.chunk, step.site, now, idleTimeout);
      RoutedKeepsInv(r, step.key, step.chunk, step.site, now, idleTimeout);
    } else {
      assert n == Cleaned(r, now, idleTimeout);
      CleanedKeepsInv(r, now, idleTimeout);
    }
  }

  lemma {:induction false} RunKeepsInv(steps: seq<Step>, idleTimeout: int)
    ensures Inv(After(steps, idleTimeout), idleTimeout)
  {
    if steps != [] {
      RunKeepsInv(steps[..|steps| - 1], idleTimeout);
      StepKeepsInv(After(steps[..|steps| - 1], idleTimeout), steps[|steps| - 1], idleTimeout);
    }
  }

  /** Frame `j` is the next after frame `i` for the same key. */
  ghost predicate Consecutive(log: seq<Frame>, i: nat, j: nat) {
    && i < j < |log| && log[i].key == log[j].key
    && forall k :: i < k < j ==> log[k].key != log[j].key
  }

  lemma {:induction false} LastOfIs(log: seq<Frame>, i: nat)
    requires i < |log| && forall k :: i < k < |log| ==> log[k].key != log[i].key
    ensures LastOf(log, log[i].key) == Some(log[i])
  {
    if i < |log| - 1 {
      LastOfIs(log[..|log| - 1], i);
    }
  }

  lemma {:induction false} OrderlyMeans(log: seq<Frame>, i: nat, j: nat, idleTimeout: int)
    requires Orderly(log, idleTimeout) && Consecutive(log, i, j)
    ensures Continues(log[i], log[j]) || Restarts(log[i], log[j], idleTimeout)
  {
    var front := log[..|log| - 1];
    if j < |log| - 1 {
      OrderlyMeans(front, i, j, idleTimeout);
    } else {
      LastOfIs(front, i);
      assert front[i] == log[i];
    }
  }

  /** Over any run, however cleanups fall: two frames in a row for a talkgroup
      from different sites are more than the idle timeout apart, the second's
      processing from the first's receipt; otherwise the sequence number goes
      up by one, modulo 2^16, or starts again at 0 after such a silence; and
      every stream has its encoder, and no other is kept. */
  lemma OneSiteAtATime(steps: seq<Step>, idleTimeout: int, i: nat, j: nat)
    requires Consecutive(After(steps, idleTimeout).log, i, j)
    ensures var r := After(steps, idleTimeout);
            var a, b := r.log[i], r.log[j];
            && (a.site != b.site ==> b.processed - a.received > idleTimeout && b.seqNo == 0)
            && (b.processed - a.received <= idleTimeout ==> a.site == b.site && b.seqNo == (a.seqNo + 1) % 65536)
            && r.streams.Keys == r.encoders.Keys
  {
    RunKeepsInv(steps, idleTimeout);
    var log := After(steps, idleTimeout).log;
    OrderlyMeans(log, i, j, idleTimeout);
    SeqFits(log, idleTimeout, i);
    BumpIsModular(log[i].seqNo);
  }

  lemma BumpIsModular(seqNo: nat)
    requires seqNo <= MAX_SEQ
    ensures Bump(seqNo) == (seqNo + 1) % 65536
  {
  }

  /** Sequence numbers fit 16 bits. */
  lemma {:induction false} SeqFits(log: seq<Frame>, idleTimeout: int, i: nat)
    requires Orderly(log, idleTimeout) && i < |log|
    ensures log[i].seqNo <= MAX_SEQ
  {
    if i < |log| - 1 {
      SeqFits(log[..|log| - 1], idleTimeout, i);
    }
  }

  /** A key whose talkgroup another site was heard on, no longer ago than the idle
      timeout. */
  predicate HeldByOther(log: seq<Frame>, key: Key, site: int, now: int, idleTimeout: int) {
    var last := LastOf(log, key);
    last.Some? && last.value.site != site && now - last.value.received <= idleTimeout
  }

  /** The frame of a chunk: the next number if the stream goes on, 0 if it is new. */
  ghost predicate IsFrameOf(r: Routing, f: Frame, key: Key, c: Chunk, site: int, now: int) {
    && f.key == key && f.unit == c.unit && f.site == site && f.received == c.timestamp && f.processed == now
    && (if key in r.streams
        then var last := LastOf(r.log, key);
             && last.Some? && f.sampleRate == last.value.sampleRate
             && f.seqNo == if last.value.site == site then (last.value.seqNo + 1) % 65536 else 0
        else f.sampleRate == c.sampleRate && f.seqNo == 0)
  }

  /** What a chunk adds to the log: nothing while another site holds its key, and
      otherwise exactly its frame. */
  ghost predicate Publishes(r: Routing, n: Routing, key: Key, c: Chunk, site: int, now: int, idleTimeout: int) {
    if HeldByOther(r.log, key, site, now, idleTimeout) then n.log == r.log
    else |n.log| == |r.log| + 1 && n.log[..|r.log|] == r.log && IsFrameOf(r, n.log[|r.log|], key, c, site, now)
  }

  /** After any run: a chunk is dropped if and only if the last frame of its key is
      from another site and no older than the idle timeout. Otherwise exactly one
      frame is published, the chunk's. */
  lemma ChunkIsDroppedIff(steps: seq<Step>, key: Key, c: Chunk, site: int, time: nat, idleTimeout: int)
    ensures var r := After(steps, idleTimeout);
            Publishes(r, Next(r, Route(key, c, site, time), idleTimeout), key, c, site, r.clock + time, idleTimeout)
  {
    RunKeepsInv(steps, idleTimeout);
    RoutedPublishes(After(steps, idleTimeout), key, c, site, After(steps, idleTimeout).clock + time, idleTimeout);
  }

  lemma RoutedPublishes(r: Routing, key: Key, c: Chunk, site: int, now: int, idleTimeout: int)
    requires Inv(r, idleTimeout) && r.clock <= now
    ensures Publishes(r, Routed(r, key, c, site, now, idleTimeout), key, c, site, now, idleTimeout)
  {
    DroppedIff(r, key, c, site, now, idleTimeout);
    if StreamAfter(r, key, c, site, now, idleTimeout).Some? {
      PublishedIs(r, key, c, site, now, idleTimeout);
    }
  }

  lemma DroppedIff(r: Routing, key: Key, c: Chunk, site: int, now: int, idleTimeout: int)
    requires Inv(r, idleTimeout) && r.clock <= now
    ensures StreamAfter(r, key, c, site, now, idleTimeout).None? <==> HeldByOther(r.log, key, site, now, idleTimeout)
  {
    assert Remembers(r, key, idleTimeout);
  }

  lemma PublishedIs(r: Routing, key: Key, c: Chunk, site: int, now: int, idleTimeout: int)
    requires Inv(r, idleTimeout) && StreamAfter(r, key, c, site, now, idleTimeout).Some?
    ensures var log := Routed(r, key, c, site, now, idleTimeout).log;
            && |log| == |r.log| + 1 && log[..|r.log|] == r.log
            && IsFrameOf(r, log[|r.log|], key, c, site, now)
  {
    assert Remembers(r, key, idleTimeout);
    if key in r.streams {
      NextNumber(r, key, idleTimeout);
    }
  }

  lemma NextNumber(r: Routing, key: Key, idleTimeout: int)
    requires Inv(r, idleTimeout) && key in r.streams
    ensures Bump(r.streams[key].seqNo) == (r.streams[key].seqNo + 1) % 65536
  {
    assert Remembers(r, key, idleTimeout);
    LastIsIn(r.log, key);
    var i :| 0 <= i < |r.log| && LastOf(r.log, key) == Some(r.log[i]);
    SeqFits(r.log, idleTimeout, i);
    BumpIsModular(r.streams[key].seqNo);
  }

  lemma {:induction false} LastIsIn(log: seq<Frame>, key: Key)
    requires LastOf(log, key).Some?
    ensures exists i :: 0 <= i < |log| && LastOf(log, key) == Some(log[i])
  {
    if log[|log| - 1].key != key {
      LastIsIn(log[..|log| - 1], key);
      var i :| 0 <= i < |log| - 1 && LastOf(log, key) == Some(log[..|log| - 1][i]);
      assert log[i] == log[..|log| - 1][i];
    }
  }

  /** After any run a key has a stream if and only if its last frame came after the
      last cleanup less the idle timeout: a cleanup takes the streams that have
      been silent for longer than that, and no other. */
  lemma CleanupTakesTheIdle(steps: seq<Step>, time: nat, idleTimeout: int, key: Key)
    ensures var r := After(steps, idleTimeout);
            var n, now := Next(r, CleanUp(time), idleTimeout), r.clock + time;
            && n.log == r.log
            && (key in n.streams <==>
                  && key in r.streams && LastOf(r.log, key).Some?
                  && now - LastOf(r.log, key).value.received <= idleTimeout)
            && (key in n.streams ==> n.streams[key] == r.streams[key])
            && (key in n.encoders <==> key in n.streams)
  {
    RunKeepsInv(steps, idleTimeout);
    assert Remembers(After(steps, idleTimeout), key, idleTimeout);
  }

  /** A live stream's statistics are those of the times between its own frames. */
  lemma JitterIsOfTheStream(steps: seq<Step>, idleTimeout: int, key: Key)
    requires key in After(steps, idleTimeout).streams
    ensures var r := After(steps, idleTimeout);
            && r.streams[key].jitter == J.After(Deltas(r.log, key))
            && StartOf(r.log, key) == Some(r.streams[key].startedAt)
  {
    RunKeepsInv(steps, idleTimeout);
    assert Remembers(After(steps, idleTimeout), key, idleTimeout);
  }

  // ------------------------------------------------------------------ identity

  datatype SystemSite = SystemSite(system: int, site: int)

  datatype CacheKey = CacheKey(instanceId: string, shortName: string)

  type Cache = map<CacheKey, SystemSite>

  /** The instances that know `shortName` and that no sender has been given. */
  function Unclaimed(cache: Cache, shortName: string, sources: map<string, string>): set<string> {
    set k <- cache | k.shortName == shortName && k.instanceId !in sources.Values :: k.instanceId
  }

  /** No two senders share an instance. */
  ghost predicate Injective(sources: map<string, string>) {
    forall a <- sources, b <- sources :: sources[a] == sources[b] ==> a == b
  }

  /** Nothing learned is forgotten or changed. */
  ghost predicate Extends(sources: map<string, string>, before: map<string, string>) {
    forall a <- before :: a in sources && sources[a] == before[a]
  }

  method LookupByShortNameAny(cache: Cache, shortName: string, sources: map<string, string>)
    returns (instanceId: Option<string>)
    ensures instanceId.Some? <==> Unclaimed(cache, shortName, sources) != {}
    ensures instanceId.Some? ==> instanceId.value in Unclaimed(cache, shortName, sources)
  {
    var left := cache.Keys;
    while left != {}
      invariant left <= cache.Keys
      invariant forall k <- cache :: k in left || k.shortName != shortName || k.instanceId in sources.Values
    {
      var k :| k in left;
      left := left - {k};
      if k.shortName != shortName || k.instanceId in sources.Values {
        continue;
      }
      assert k.instanceId in Unclaimed(cache, shortName, sources);
      return Some(k.instanceId);
    }
    assert forall i :: i !in Unclaimed(cache, shortName, sources);
    return None;
  }

  method LookupByShortName(cache: Cache, instanceId: string, shortName: string) returns (r: Option<SystemSite>)
    ensures StandsFor(cache, instanceId, shortName, r)
  {
    if instanceId != "" {
      var k := CacheKey(instanceId, shortName);
      return if k in cache then Some(cache[k]) else None;
    }
    var left := cache.Keys;
    while left != {}
      invariant left <= cache.Keys
      invariant forall k <- cache :: k in left || k.shortName != shortName
    {
      var k :| k in left;
      left := left - {k};
      if k.shortName == shortName {
        return Some(cache[k]);
      }
    }
    return None;
  }

  /** The instance a chunk is given, and what was learned. */
  ghost predicate Resolves(
    c: Chunk, cache: Cache, fallback: string, before: map<string, string>, after: map<string, string>, instance: string)
  {
    if c.sourceAddr == "" || c.shortName == "" then instance == fallback && after == before
    else if c.sourceAddr in before then instance == before[c.sourceAddr] && after == before
    else if Unclaimed(cache, c.shortName, before) == {} then instance == fallback && after == before
    else instance in Unclaimed(cache, c.shortName, before) && after == before[c.sourceAddr := instance]
  }

  /** What a short name stands for on an instance, or on any if none is named. */
  ghost predicate StandsFor(cache: Cache, instance: string, shortName: string, to: Option<SystemSite>) {
    if instance != "" then
      to == if CacheKey(instance, shortName) in cache then Some(cache[CacheKey(instance, shortName)]) else None
    else if to.Some? then exists k <- cache :: k.shortName == shortName && cache[k] == to.value
    else forall k <- cache :: k.shortName != shortName
  }

  // --------------------------------------------------------------------- class

  class Router {
    const instanceId: string
    const idleTimeout: int
    var activeStreams: map<Key, Stream>
    var encoders: map<Key, int>
    var sourceMap: map<string, string>
    ghost var log: seq<Frame>
    ghost var clock: int

    ghost function View(): Routing
      reads this
    {
      Routing(activeStreams, encoders, log, clock)
    }

    ghost predicate Valid()
      reads this
    {
      Inv(View(), idleTimeout) && Injective(sourceMap)
    }

    constructor (instanceId: string, idleTimeout: int)
      ensures Valid() && View() == EMPTY && sourceMap == map[]
      ensures this.instanceId == instanceId && this.idleTimeout == idleTimeout
    {
      this.instanceId, this.idleTimeout := instanceId, idleTimeout;
      activeStreams, encoders, sourceMap, log, clock := map[], map[], map[], [], 0;
    }

    /** Which instance a chunk belongs to: the one its sender was given, else one
        that knows its short name and has no sender yet, else the default. */
    method ResolveInstanceId(c: Chunk, cache: Cache) returns (instance: string)
      requires Valid()
      modifies this`sourceMap
      ensures Valid() && Extends(sourceMap, old(sourceMap))
      ensures Resolves(c, cache, instanceId, old(sourceMap), sourceMap, instance)
    {
      if c.sourceAddr == "" || c.shortName == "" {
        return instanceId;
      }
      if c.sourceAddr in sourceMap {
        return sourceMap[c.sourceAddr];
      }
      var learned := LookupByShortNameAny(cache, c.shortName, sourceMap);
      if learned.Some? {
        assert forall a <- sourceMap :: sourceMap[a] in sourceMap.Values;
        sourceMap := sourceMap[c.sourceAddr := learned.value];
        return learned.value;
      }
      return instanceId;
    }

    /** A chunk is dropped if its system or talkgroup stays unknown, and routed
        by its system, site and talkgroup otherwise. */
    method ProcessChunk(c: Chunk, cache: Cache, now: int) returns (to: Option<SystemSite>, ghost instance: string)
      requires Valid() && clock <= now
      modifies this
      ensures Valid() && Extends(sourceMap, old(sourceMap))
      ensures c.system != 0 || c.shortName == "" ==>
                to == (if c.system != 0 then Some(SystemSite(c.system, c.site)) else None) &&
                  sourceMap == old(sourceMap)
      ensures c.system == 0 && c.shortName != "" ==>
                Resolves(c, cache, instanceId, old(sourceMap), sourceMap, instance) &&
                StandsFor(cache, instance, c.shortName, to)
      ensures View() ==
              if to.Some? && to.value.system != 0 && c.tgid != 0
              then Routed(old(View()), Key(to.value.system, c.tgid), c, to.value.site, now, idleTimeout)
              else old(View())
    {
      to, instance := if c.system != 0 then Some(SystemSite(c.system, c.site)) else None, instanceId;
      if c.system == 0 && c.shortName != "" {
        var found := ResolveInstanceId(c, cache);
        instance := found;
        to := LookupByShortName(cache, found, c.shortName);
      }
      if to.None? || to.value.system == 0 || c.tgid == 0 {
        return;
      }
      RoutedKeepsInv(View(), Key(to.value.system, c.tgid), c, to.value.site, now, idleTimeout);
      RouteChunk(Key(to.value.system, c.tgid), c, to.value.site, now);
    }

    /** The part under the lock, and the publishing. */
    method RouteChunk(key: Key, c: Chunk, site: int, now: int)
      modifies this`activeStreams, this`encoders, this`log, this`clock
      ensures View() == Routed(old(View()), key, c, site, now, idleTimeout)
    {
      ghost var begins := Begins(View(), key, site);
      clock := now;
      var stream;
      if key in activeStreams {
        stream := activeStreams[key];
        if stream.site != site {
          if now - stream.lastChunk > idleTimeout {
            stream := stream.(site := site, shortName := c.shortName, lastChunk := c.timestamp, seqNo := 0,
                              jitter := J.EMPTY, startedAt := c.timestamp);
          } else {
            return;
          }
        } else {
          var delta := c.timestamp - stream.lastChunk;
          stream := stream.(lastChunk := c.timestamp, seqNo := Bump(stream.seqNo));
          if 0 < delta < JITTER_BOUND {
            stream := stream.(jitter := J.Added(stream.jitter, Millis(delta)));
          }
        }
      } else {
        stream := NewStream(c, site);
      }
      activeStreams := activeStreams[key := stream];
      if key !in encoders {
        encoders := encoders[key := c.sampleRate];
      }
      assert encoders == old(encoders)[key := encoders[key]];
      log := log + [Frame(key, c.unit, encoders[key], stream.seqNo, site, c.timestamp, now, begins)];
    }

    /** Streams idle for too long go, with their encoders. */
    method CleanupIdle(now: int)
      requires Valid() && clock <= now
      modifies this
      ensures Valid() && View() == Cleaned(old(View()), now, idleTimeout) && sourceMap == old(sourceMap)
    {
      CleanedKeepsInv(View(), now, idleTimeout);
      ghost var before := View();
      var left := activeStreams.Keys;
      clock := now;
      while left != {}
        invariant left <= before.streams.Keys
        invariant SweptTo(before, View(), left, now, idleTimeout)
        invariant sourceMap == old(sourceMap)
      {
        var key :| key in left;
        left := left - {key};
        if now - activeStreams[key].lastChunk > idleTimeout {
          encoders := encoders - {key};
          activeStreams := activeStreams - {key};
        }
      }
      SweptIsCleaned(before, View(), now, idleTimeout);
    }
  }

  /** All but the keys in `left` have been looked at. */
  ghost predicate SweptTo(before: Routing, r: Routing, left: set<Key>, now: int, idleTimeout: int) {
    && (forall k <- before.streams :: k in r.streams <==> k in left || !Idle(before.streams[k], now, idleTimeout))
    && (forall k <- r.streams :: k in before.streams && r.streams[k] == before.streams[k])
    && (forall k <- before.encoders :: k in r.encoders <==> k in r.streams || k !in before.streams)
    && (forall k <- r.encoders :: k in before.encoders && r.encoders[k] == before.encoders[k])
    && r.log == before.log && r.clock == now
  }

  lemma SweptIsCleaned(before: Routing, r: Routing, now: int, idleTimeout: int)
    requires SweptTo(before, r, {}, now, idleTimeout)
    ensures r == Cleaned(before, now, idleTimeout)
  {
    assert r.streams == Busy(before.streams, now, idleTimeout);
    var gone := before.streams.Keys - r.streams.Keys;
    assert r.encoders == before.encoders - gone;
  }
}
