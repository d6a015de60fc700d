/** The binary audio frames between the server and the browser, and the gaps the
    browser counts in their sequence numbers (internal/api/audio_stream.go:105-177,
    web/audio-engine.js:416-495). */
module AudioFrames {
  import opened Sql

  type Byte = x: int | 0 <= x < 256

  const U16: nat := 65536
  const U32: nat := 4294967296
  const HEADER: nat := 14
  const DEFAULT_RATE: nat := 8000

  /** A frame from the audio bus; the fields are Go ints. */
  datatype AudioFrame = AudioFrame(system: int, tgid: int, sampleRate: int, data: seq<Byte>)

  /** What the browser reads out of a message. */
  datatype Message = Message(system: int, tgid: int, serverTs: int, seqNo: int, sampleRate: int, data: seq<Byte>)

  // -------------------------------------------------------------------- format

  function Be16(v: int): (b: seq<Byte>)
    ensures |b| == 2
  {
    [v / 256 % 256, v % 256]
  }

  function Be32(v: int): (b: seq<Byte>)
    ensures |b| == 4
  {
    Be16(v / 65536) + Be16(v)
  }

  function Get16(b: seq<Byte>, i: nat): int
    requires i + 2 <= |b|
  {
    b[i] as int * 256 + b[i + 1] as int
  }

  function Get32(b: seq<Byte>, i: nat): int
    requires i + 4 <= |b|
  {
    Get16(b, i) * 65536 + Get16(b, i + 2)
  }

  function RateSent(f: AudioFrame): int {
    if f.sampleRate == 0 then DEFAULT_RATE else f.sampleRate
  }

  function Encoded(f: AudioFrame, tsMs: int, seqNo: int): seq<Byte> {
    Be16(f.system) + Be32(f.tgid) + Be32(tsMs) + Be16(seqNo) + Be16(RateSent(f)) + f.data
  }

  /** None if the message is too short. */
  function Decoded(b: seq<Byte>): Option<Message> {
    if |b| < HEADER then None
    else
      var rate := Get16(b, 12);
      Some(Message(Get16(b, 0), Get32(b, 2), Get32(b, 6), Get16(b, 10),
                   if rate == 0 then DEFAULT_RATE else rate, b[HEADER..]))
  }

  lemma Be16RoundTrip(v: int)
    ensures Get16(Be16(v), 0) == v % U16
  {
    var high, low := v / 256, v % 256;
    assert v == high * 256 + low;
    assert high == high / 256 * 256 + high % 256;
    assert v == high / 256 * U16 + (high % 256 * 256 + low);
  }

  lemma Be32RoundTrip(v: int)
    ensures Get32(Be32(v), 0) == v % U32
  {
    var high := v / 65536;
    Be16RoundTrip(high);
    Be16RoundTrip(v);
    var b := Be32(v);
    assert Get16(b, 0) == Get16(Be16(high), 0) && Get16(b, 2) == Get16(Be16(v), 0);
    assert v == high * 65536 + v % 65536;
    assert high == high / 65536 * 65536 + high % 65536;
    assert v == high / 65536 * U32 + (high % 65536 * 65536 + v % 65536);
  }

  lemma Get16At(b: seq<Byte>, i: nat, v: int)
    requires i + 2 <= |b| && b[i..i + 2] == Be16(v)
    ensures Get16(b, i) == v % U16
  {
    Be16RoundTrip(v);
    assert b[i] == b[i..i + 2][0] && b[i + 1] == b[i..i + 2][1];
  }

  lemma Get32At(b: seq<Byte>, i: nat, v: int)
    requires i + 4 <= |b| && b[i..i + 4] == Be32(v)
    ensures Get32(b, i) == v % U32
  {
    Be32RoundTrip(v);
    var w := b[i..i + 4];
    assert b[i] == w[0] && b[i + 1] == w[1] && b[i + 2] == w[2] && b[i + 3] == w[3];
  }

  /** Whatever the fields are, the browser reads them modulo their widths. */
  lemma DecodedEncoded(f: AudioFrame, tsMs: int, seqNo: int)
    ensures Decoded(Encoded(f, tsMs, seqNo)) ==
            Some(Message(f.system % U16, f.tgid % U32, tsMs % U32, seqNo % U16,
                         if RateSent(f) % U16 == 0 then DEFAULT_RATE else RateSent(f) % U16, f.data))
  {
    var b := Encoded(f, tsMs, seqNo);
    assert b[0..2] == Be16(f.system);
    Get16At(b, 0, f.system);
    assert b[2..6] == Be32(f.tgid);
    Get32At(b, 2, f.tgid);
    assert b[6..10] == Be32(tsMs);
    Get32At(b, 6, tsMs);
    assert b[10..12] == Be16(seqNo);
    Get16At(b, 10, seqNo);
    assert b[12..14] == Be16(RateSent(f));
    Get16At(b, 12, RateSent(f));
    assert b[HEADER..] == f.data;
  }

  /** The number in bytes i, i + 1 and so on, the high byte first. */
  function Number(b: seq<Byte>, i: nat, width: nat): int
    requires i + width <= |b|
  {
    if width == 0 then 0 else Number(b, i, width - 1) * 256 + b[i + width - 1] as int
  }

  lemma NumberIs(b: seq<Byte>, i: nat)
    ensures i + 2 <= |b| ==> Number(b, i, 2) == Get16(b, i)
    ensures i + 4 <= |b| ==> Number(b, i, 4) == Get32(b, i)
  {
    if i + 4 <= |b| {
      assert Number(b, i, 3) == Number(b, i, 2) * 256 + b[i + 2] as int;
      assert Number(b, i, 4) == Number(b, i, 3) * 256 + b[i + 3] as int;
    }
    if i + 2 <= |b| {
      assert Number(b, i, 1) == Number(b, i, 0) * 256 + b[i] as int;
    }
  }

  /** The wire format: system, talkgroup, time, number and rate in 2, 4, 4, 2 and 2
      bytes, the high byte first, and then the data. */
  lemma FrameLayout(f: AudioFrame, tsMs: int, seqNo: int)
    ensures var b := Encoded(f, tsMs, seqNo);
            && |b| == 14 + |f.data| && b[14..] == f.data
            && Number(b, 0, 2) == f.system % 65536
            && Number(b, 2, 4) == f.tgid % 4294967296
            && Number(b, 6, 4) == tsMs % 4294967296
            && Number(b, 10, 2) == seqNo % 65536
            && Number(b, 12, 2) == (if f.sampleRate == 0 then 8000 else f.sampleRate) % 65536
  {
    var b := Encoded(f, tsMs, seqNo);
    NumberIs(b, 0);
    NumberIs(b, 2);
    NumberIs(b, 6);
    NumberIs(b, 10);
    NumberIs(b, 12);
    assert b[0..2] == Be16(f.system);
    Get16At(b, 0, f.system);
    assert b[2..6] == Be32(f.tgid);
    Get32At(b, 2, f.tgid);
    assert b[6..10] == Be32(tsMs);
    Get32At(b, 6, tsMs);
    assert b[10..12] == Be16(seqNo);
    Get16At(b, 10, seqNo);
    assert b[12..14] == Be16(RateSent(f));
    Get16At(b, 12, RateSent(f));
  }

  /** A message of at least 14 bytes is read the same way; a rate of 0 means 8000. */
  lemma DecodedReads(b: seq<Byte>)
    ensures Decoded(b).Some? <==> |b| >= 14
    ensures |b| >= 14 ==>
              var m := Decoded(b).value;
              && m.system == Number(b, 0, 2) && m.tgid == Number(b, 2, 4) && m.serverTs == Number(b, 6, 4)
              && m.seqNo == Number(b, 10, 2) && m.data == b[14..]
              && m.sampleRate == if Number(b, 12, 2) == 0 then 8000 else Number(b, 12, 2)
  {
    NumberIs(b, 0);
    NumberIs(b, 2);
    NumberIs(b, 6);
    NumberIs(b, 10);
    NumberIs(b, 12);
  }

  lemma FitsWidth(v: int)
    ensures v % U16 == v <==> 0 <= v < U16
    ensures v % U32 == v <==> 0 <= v < U32
  {
  }

  /** So a frame arrives as it was sent exactly when every field fits. */
  lemma RoundTripIffInRange(f: AudioFrame, tsMs: int, seqNo: int)
    ensures Decoded(Encoded(f, tsMs, seqNo)) == Some(Message(f.system, f.tgid, tsMs, seqNo, RateSent(f), f.data)) <==>
            0 <= f.system < U16 && 0 <= f.tgid < U32 && 0 <= tsMs < U32 && 0 <= seqNo < U16 && 0 < RateSent(f) < U16
  {
    DecodedEncoded(f, tsMs, seqNo);
    FitsWidth(f.system);
    FitsWidth(f.tgid);
    FitsWidth(tsMs);
    FitsWidth(seqNo);
    FitsWidth(RateSent(f));
  }

  // -------------------------------------------------------------------- server

  datatype Key = Key(system: int, tgid: int)

  /** uint64(system)<<32 | uint64(uint32(tgid)), as its two halves. */
  function ServerKey(f: AudioFrame): Key {
    Key(f.system % U32, f.tgid % U32)
  }

  function SeqOf(tgSeq: map<Key, int>, k: Key): int {
    if k in tgSeq then tgSeq[k] else 0
  }

  function NextSeq(tgSeq: map<Key, int>, k: Key): int {
    (SeqOf(tgSeq, k) + 1) % U16
  }

  class Connection {
    var tgSeq: map<Key, int>
    const frameBuf: array<Byte>

    constructor ()
      ensures tgSeq == map[] && frameBuf.Length == HEADER + 8192
    {
      tgSeq := map[];
      frameBuf := new Byte[HEADER + 8192](_ => 0);
    }

    static method PutUint16(buf: array<Byte>, i: nat, v: int)
      requires i + 2 <= buf.Length
      modifies buf
      ensures buf[..] == old(buf[..i]) + Be16(v) + old(buf[i + 2..])
    {
      buf[i] := v / 256 % 256;
      buf[i + 1] := v % 256;
    }

    static method PutUint32(buf: array<Byte>, i: nat, v: int)
      requires i + 4 <= buf.Length
      modifies buf
      ensures buf[..] == old(buf[..i]) + Be32(v) + old(buf[i + 4..])
    {
      PutUint16(buf, i, v / 65536);
      assert buf[..i + 2] == old(buf[..i]) + Be16(v / 65536);
      PutUint16(buf, i + 2, v);
    }

    static method CopyTo(buf: array<Byte>, i: nat, data: seq<Byte>)
      requires i + |data| <= buf.Length
      modifies buf
      ensures buf[..] == old(buf[..i]) + data + old(buf[i + |data|..])
    {
      for k := 0 to |data|
        invariant buf[..i] == old(buf[..i]) && buf[i..i + k] == data[..k] && buf[i + k..] == old(buf[i + k..])
      {
        buf[i + k] := data[k];
      }
    }

    /** Number the frame and lay it out in the connection's buffer, or in a new
        one if it is too long. */
    method WriteFrame(f: AudioFrame, tsMs: int) returns (message: seq<Byte>)
      requires frameBuf.Length == HEADER + 8192
      modifies this`tgSeq, frameBuf
      ensures tgSeq == old(tgSeq)[ServerKey(f) := NextSeq(old(tgSeq), ServerKey(f))]
      ensures message == Encoded(f, tsMs, NextSeq(old(tgSeq), ServerKey(f)))
    {
      var k := ServerKey(f);
      var seqNo := NextSeq(tgSeq, k);
      tgSeq := tgSeq[k := seqNo];
      var rate := f.sampleRate;
      if rate == 0 {
        rate := DEFAULT_RATE;
      }
      var total := HEADER + |f.data|;
      var buf := frameBuf;
      if total > frameBuf.Length {
        buf := new Byte[total](_ => 0);
      }
      PutUint16(buf, 0, f.system);
      assert buf[..2] == Be16(f.system);
      PutUint32(buf, 2, f.tgid);
      assert buf[..6] == Be16(f.system) + Be32(f.tgid);
      PutUint32(buf, 6, tsMs);
      assert buf[..10] == Be16(f.system) + Be32(f.tgid) + Be32(tsMs);
      PutUint16(buf, 10, seqNo);
      assert buf[..12] == Be16(f.system) + Be32(f.tgid) + Be32(tsMs) + Be16(seqNo);
      PutUint16(buf, 12, rate);
      assert buf[..14] == Be16(f.system) + Be32(f.tgid) + Be32(tsMs) + Be16(seqNo) + Be16(rate);
      CopyTo(buf, HEADER, f.data);
      message := buf[..total];
    }
  }

  // ------------------------------------------------------------------- browser

  /** Times are in milliseconds; `endTime` is 0 until the transmission ends. */
  datatype Transmission = Transmission(startTime: real, endTime: real, frameCount: nat, seqGaps: nat, lastSeq: int)

  /** What the browser keeps for a talkgroup once it has heard it. */
  datatype Entry = Entry(prevClientTime: real, transmission: Transmission)

  const GAP_MS: real := 500.0

  /** The last frame came too long ago, so that this one begins a transmission. */
  predicate IsOver(e: Option<Entry>, now: real) {
    e.Some? && e.value.prevClientTime > 0.0 && now - e.value.prevClientTime > GAP_MS
  }

  function Heard(e: Option<Entry>, seqNo: int, now: real): Entry {
    if e.None? || IsOver(e, now) then Entry(now, Transmission(now, 0.0, 1, 0, seqNo))
    else
      var t := e.value.transmission;
      var gap := t.frameCount > 0 && seqNo != (t.lastSeq + 1) % U16;
      Entry(now, t.(frameCount := t.frameCount + 1, seqGaps := t.seqGaps + if gap then 1 else 0, lastSeq := seqNo))
  }

  /** Every talkgroup's entry, and the transmissions reported as ended. */
  datatype Browser = Browser(entries: map<Key, Entry>, ended: seq<Transmission>)

  function Lookup(entries: map<Key, Entry>, k: Key): Option<Entry> {
    if k in entries then Some(entries[k]) else None
  }

  function Received(b: Browser, bytes: seq<Byte>, now: real): Browser {
    match Decoded(bytes)
    case None => b
    case Some(m) =>
      var k := Key(m.system, m.tgid);
      var e := Lookup(b.entries, k);
      Browser(b.entries[k := Heard(e, m.seqNo, now)],
              if IsOver(e, now) then b.ended + [e.value.transmission.(endTime := e.value.prevClientTime)] else b.ended)
  }

  class AudioEngine {
    var entries: map<Key, Entry>
    var ended: seq<Transmission>

    constructor ()
      ensures entries == map[] && ended == []
    {
      entries, ended := map[], [];
    }

    method HandleBinaryFrame(bytes: seq<Byte>, now: real)
      modifies this
      ensures Browser(entries, ended) == Received(old(Browser(entries, ended)), bytes, now)
    {
      var m := Decoded(bytes);
      if m.None? {
        return;
      }
      var k := Key(m.value.system, m.value.tgid);
      var prevClientTime := 0.0;
      var transmission: Option<Transmission> := None;
      if k in entries {
        prevClientTime, transmission := entries[k].prevClientTime, Some(entries[k].transmission);
      }
      if prevClientTime > 0.0 {
        var gap := now - prevClientTime;
        if gap > GAP_MS && transmission.Some? {
          ended := ended + [transmission.value.(endTime := prevClientTime)];
          transmission, prevClientTime := None, 0.0;
        }
      }
      if transmission.None? {
        transmission := Some(Transmission(now, 0.0, 0, 0, m.value.seqNo));
      }
      var t := transmission.value;
      t := t.(frameCount := t.frameCount + 1);
      if t.frameCount > 1 {
        var expectedSeq := (t.lastSeq + 1) % U16;
        if m.value.seqNo != expectedSeq {
          t := t.(seqGaps := t.seqGaps + 1);
        }
      }
      entries := entries[k := Entry(now, t.(lastSeq := m.value.seqNo))];
    }
  }

  // ---------------------------------------------------------------- connection

  /** A frame, when it was written and when it was heard. */
  datatype Sent = Sent(frame: AudioFrame, tsMs: int, now: real)

  datatype Link = Link(tgSeq: map<Key, int>, browser: Browser)

  function Delivered(l: Link, s: Sent): Link {
    var k := ServerKey(s.frame);
    Link(l.tgSeq[k := NextSeq(l.tgSeq, k)],
         Received(l.browser, Encoded(s.frame, s.tsMs, NextSeq(l.tgSeq, k)), s.now))
  }

  const QUIET: Link := Link(map[], Browser(map[], []))

  /** What a connection's frames, in order, leave behind. */
  function After(sent: seq<Sent>): Link {
    if sent == [] then QUIET else Delivered(After(sent[..|sent| - 1]), sent[|sent| - 1])
  }

  ghost predicate NoGaps(b: Browser) {
    && (forall k <- b.entries :: b.entries[k].transmission.seqGaps == 0)
    && (forall i :: 0 <= i < |b.ended| ==> b.ended[i].seqGaps == 0)
  }

  /** A system and talkgroup that frames come from. */
  datatype Source = Source(system: int, tgid: int)

  function SourceOf(f: AudioFrame): Source {
    Source(f.system, f.tgid)
  }

  function ServerKeyOf(src: Source): Key {
    Key(src.system % U32, src.tgid % U32)
  }

  /** What of a server key the header carries. */
  function HeaderOf(k: Key): Key {
    Key(k.system % U16, k.tgid % U32)
  }

  lemma HeaderOfServerKey(f: AudioFrame)
    ensures HeaderOf(ServerKey(f)) == Key(f.system % U16, f.tgid % U32)
    ensures ServerKey(f) == ServerKeyOf(SourceOf(f))
  {
    ShiftKeepsMod(f.system % U32, f.system / U32 * 65536);
    assert f.system == f.system / U32 * 65536 * 65536 + f.system % U32;
  }

  lemma ShiftKeepsMod(low: int, m: int)
    ensures (m * 65536 + low) % U16 == low % U16
  {
  }

  /** No two different server keys of the sources agree in the header. */
  ghost predicate Distinguishable(sources: set<Source>) {
    forall a <- sources, b <- sources ::
      HeaderOf(ServerKeyOf(a)) == HeaderOf(ServerKeyOf(b)) ==> ServerKeyOf(a) == ServerKeyOf(b)
  }

  ghost predicate DrawnFrom(sent: seq<Sent>, sources: set<Source>) {
    forall i :: 0 <= i < |sent| ==> SourceOf(sent[i].frame) in sources
  }

  /** The browser's entry has the server's last number. */
  ghost predicate InStep(l: Link, k: Key) {
    && k in l.tgSeq && 0 <= l.tgSeq[k] < U16 && HeaderOf(k) in l.browser.entries
    && l.browser.entries[HeaderOf(k)].transmission.frameCount >= 1
    && l.browser.entries[HeaderOf(k)].transmission.lastSeq == l.tgSeq[k]
  }

  ghost predicate Synced(l: Link, sources: set<Source>) {
    && NoGaps(l.browser)
    && (forall k <- l.tgSeq :: InStep(l, k) && exists src <- sources :: ServerKeyOf(src) == k)
    && (forall h <- l.browser.entries :: exists k <- l.tgSeq :: HeaderOf(k) == h)
  }

  /** The link after the next frame of a server key, heard at `now`. */
  function Numbered(l: Link, k: Key, now: real): Link {
    var h, n := HeaderOf(k), NextSeq(l.tgSeq, k);
    var e := Lookup(l.browser.entries, h);
    Link(l.tgSeq[k := n],
         Browser(l.browser.entries[h := Heard(e, n, now)],
                 if IsOver(e, now) then l.browser.ended + [e.value.transmission.(endTime := e.value.prevClientTime)]
                 else l.browser.ended))
  }

  /** What a frame does to the link, for all field values. */
  lemma DeliveryMeans(l: Link, s: Sent)
    ensures Delivered(l, s) == Numbered(l, ServerKey(s.frame), s.now)
  {
    var n := NextSeq(l.tgSeq, ServerKey(s.frame));
    HeaderOfServerKey(s.frame);
    DecodedEncoded(s.frame, s.tsMs, n);
    FitsWidth(n);
  }

  /** An entry under a source's header is that source's own. */
  lemma EntryIsOwn(l: Link, src: Source, sources: set<Source>)
    requires Synced(l, sources) && Distinguishable(sources) && src in sources
    requires HeaderOf(ServerKeyOf(src)) in l.browser.entries
    ensures InStep(l, ServerKeyOf(src))
  {
    var other :| other in l.tgSeq && HeaderOf(other) == HeaderOf(ServerKeyOf(src));
    assert InStep(l, other);
    var origin :| origin in sources && ServerKeyOf(origin) == other;
  }

  /** The next number in step shows no gap. */
  lemma InStepShowsNoGap(l: Link, k: Key, now: real)
    requires NoGaps(l.browser) && (HeaderOf(k) in l.browser.entries ==> InStep(l, k))
    ensures NoGaps(Numbered(l, k, now).browser) && InStep(Numbered(l, k, now), k)
  {
  }

  lemma NumberedKeepsSync(l: Link, src: Source, now: real, sources: set<Source>)
    requires Synced(l, sources) && Distinguishable(sources) && src in sources
    ensures Synced(Numbered(l, ServerKeyOf(src), now), sources)
  {
    var k := ServerKeyOf(src);
    var n := Numbered(l, k, now);
    if HeaderOf(k) in l.browser.entries {
      EntryIsOwn(l, src, sources);
    }
    InStepShowsNoGap(l, k, now);
    forall other <- n.tgSeq
      ensures InStep(n, other) && exists origin <- sources :: ServerKeyOf(origin) == other
    {
      if other != k {
        assert InStep(l, other);
        var origin :| origin in sources && ServerKeyOf(origin) == other;
        assert HeaderOf(other) != HeaderOf(k);
      }
    }
  }

  /** However long a connection lasts, past any number of wraparounds of the
      16-bit numbers and any pauses: frames of sources the header can tell apart
      never show a gap. */
  lemma {:induction false} NoGapIsEverCounted(sent: seq<Sent>, sources: set<Source>)
    requires Distinguishable(sources) && DrawnFrom(sent, sources)
    ensures Synced(After(sent), sources)
  {
    if sent != [] {
      NoGapIsEverCounted(sent[..|sent| - 1], sources);
      var l, last := After(sent[..|sent| - 1]), sent[|sent| - 1];
      DeliveryMeans(l, last);
      HeaderOfServerKey(last.frame);
      NumberedKeepsSync(l, SourceOf(last.frame), last.now, sources);
    }
  }

  /** One frame of a source, heard at time 1. */
  function OneFrame(src: Source): Sent {
    Sent(AudioFrame(src.system, src.tgid, 0, []), 0, 1.0)
  }

  lemma ConfusedNumbers(j: Key, k: Key)
    requires HeaderOf(j) == HeaderOf(k) && j != k
    ensures !NoGaps(Numbered(Numbered(QUIET, j, 1.0), k, 1.0).browser)
  {
    var one := Numbered(QUIET, j, 1.0);
    assert one.tgSeq == map[j := 1];
    assert one.browser.entries == map[HeaderOf(j) := Entry(1.0, Transmission(1.0, 0.0, 1, 0, 1))];
    var two := Numbered(one, k, 1.0);
    assert two.browser.entries[HeaderOf(k)].transmission.seqGaps == 1;
  }

  /** Two sources that the header confuses share the browser's entry, and their
      first frames, both number 1, show a gap though nothing was lost. */
  lemma ConfusedSourcesShowAGap(a: Source, b: Source)
    requires HeaderOf(ServerKeyOf(a)) == HeaderOf(ServerKeyOf(b)) && ServerKeyOf(a) != ServerKeyOf(b)
    ensures !NoGaps(After([OneFrame(a), OneFrame(b)]).browser)
  {
    assert [OneFrame(a), OneFrame(b)][..1] == [OneFrame(a)] && [OneFrame(a)][..0] == [];
    assert After([]) == QUIET;
    DeliveryMeans(QUIET, OneFrame(a));
    HeaderOfServerKey(OneFrame(a).frame);
    DeliveryMeans(After([OneFrame(a)]), OneFrame(b));
    HeaderOfServerKey(OneFrame(b).frame);
    ConfusedNumbers(ServerKeyOf(a), ServerKeyOf(b));
  }

  /** A set of sources never shows a gap, whatever frames are drawn from it, if
      and only if no two different server keys agree in the header's widths. */
  lemma SourcesNeverGapIff(sources: set<Source>)
    ensures (forall sent | DrawnFrom(sent, sources) :: NoGaps(After(sent).browser)) <==> Distinguishable(sources)
  {
    if Distinguishable(sources) {
      forall sent | DrawnFrom(sent, sources)
        ensures NoGaps(After(sent).browser)
      {
        NoGapIsEverCounted(sent, sources);
      }
    } else {
      var a, b :| a in sources && b in sources &&
                  HeaderOf(ServerKeyOf(a)) == HeaderOf(ServerKeyOf(b)) && ServerKeyOf(a) != ServerKeyOf(b);
      ConfusedSourcesShowAGap(a, b);
      assert SourceOf(OneFrame(a).frame) == a && SourceOf(OneFrame(b).frame) == b;
      assert DrawnFrom([OneFrame(a), OneFrame(b)], sources);
    }
  }
}
