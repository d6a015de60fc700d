/** What the browser counts when frames are lost between the server's numbering
    and the browser (internal/api/audio_stream.go:147-172,
    web/audio-engine.js:438-495): an account of each source's transmissions, kept
    without looking at any sequence number. */
module LossyFrames {
  import opened Sql
  import opened AudioFrames

  /** A numbered frame, and whether it arrives. */
  datatype Attempt = Attempt(sent: Sent, arrives: bool)

  function Attempted(l: Link, a: Attempt): Link {
    if a.arrives then Delivered(l, a.sent)
    else
      var k := ServerKey(a.sent.frame);
      l.(tgSeq := l.tgSeq[k := NextSeq(l.tgSeq, k)])
  }

  function AfterAll(tries: seq<Attempt>): Link {
    if tries == [] then QUIET else Attempted(AfterAll(tries[..|tries| - 1]), tries[|tries| - 1])
  }

  // -------------------------------------------------------------- the account

  /** How many frames of a server key were lost since the last that arrived. */
  function Missed(tries: seq<Attempt>, k: Key): nat {
    if tries == [] then 0
    else
      var front, last := tries[..|tries| - 1], tries[|tries| - 1];
      if ServerKey(last.sent.frame) != k then Missed(front, k)
      else if last.arrives then 0 else Missed(front, k) + 1
  }

  /** A transmission: when its first and last frames arrived, how many did, and at
      how many of them some had been missed. */
  datatype Account = Account(start: real, last: real, frames: nat, gaps: nat)

  /** A pause of more than half a second ends a transmission; the browser takes a
      time of 0 or less for none. */
  predicate Ends(a: Account, now: real) {
    a.last > 0.0 && now - a.last > 500.0
  }

  /** Losing a multiple of 65536 frames goes unnoticed. */
  function Continued(a: Account, now: real, missed: nat): Account {
    Account(a.start, now, a.frames + 1, a.gaps + if missed % 65536 == 0 then 0 else 1)
  }

  /** The transmission of a server key that is going on. */
  function Current(tries: seq<Attempt>, k: Key): Option<Account> {
    if tries == [] then None
    else
      var front, last := tries[..|tries| - 1], tries[|tries| - 1];
      if ServerKey(last.sent.frame) != k || !last.arrives then Current(front, k)
      else
        match Current(front, k)
        case None => Some(Account(last.sent.now, last.sent.now, 1, 0))
        case Some(a) =>
          if Ends(a, last.sent.now) then Some(Account(last.sent.now, last.sent.now, 1, 0))
          else Some(Continued(a, last.sent.now, Missed(front, k)))
  }

  /** Those that ended, in order. */
  function Ended(tries: seq<Attempt>): seq<Account> {
    if tries == [] then []
    else
      var front, last := tries[..|tries| - 1], tries[|tries| - 1];
      var current := Current(front, ServerKey(last.sent.frame));
      if last.arrives && current.Some? && Ends(current.value, last.sent.now)
      then Ended(front) + [current.value] else Ended(front)
  }

  // ---------------------------------------------------------------- agreement

  ghost predicate Comes(tries: seq<Attempt>, sources: set<Source>) {
    forall i :: 0 <= i < |tries| ==> SourceOf(tries[i].sent.frame) in sources
  }

  predicate Agrees(t: Transmission, a: Account) {
    t.startTime == a.start && t.frameCount == a.frames && t.seqGaps == a.gaps
  }

  /** The browser's entry for a source is its account, under the last number that
      arrived. */
  ghost predicate EntryAgrees(l: Link, k: Key, current: Option<Account>, missed: nat) {
    var h := HeaderOf(k);
    && (h in l.browser.entries <==> current.Some?)
    && (current.Some? ==>
          var e := l.browser.entries[h];
          && e.prevClientTime == current.value.last && e.transmission.endTime == 0.0
          && Agrees(e.transmission, current.value) && e.transmission.frameCount > 0
          && 0 <= e.transmission.lastSeq < U16
          && SeqOf(l.tgSeq, k) == (e.transmission.lastSeq + missed) % U16)
  }

  ghost predicate EndedAgree(ended: seq<Transmission>, accounts: seq<Account>) {
    && |ended| == |accounts|
    && forall i :: 0 <= i < |ended| ==> Agrees(ended[i], accounts[i]) && ended[i].endTime == accounts[i].last
  }

  ghost predicate Faithful(l: Link, tries: seq<Attempt>, sources: set<Source>) {
    && (forall src <- sources ::
        EntryAgrees(l, ServerKeyOf(src), Current(tries, ServerKeyOf(src)), Missed(tries, ServerKeyOf(src))))
    && EndedAgree(l.browser.ended, Ended(tries))
  }

  lemma NumbersMove(lastSeq: int, missed: nat)
    requires 0 <= lastSeq < U16
    ensures ((lastSeq + missed) % U16 + 1) % U16 == (lastSeq + (missed + 1)) % U16
    ensures ((lastSeq + missed) % U16 + 1) % U16 == (lastSeq + 1) % U16 <==> missed % 65536 == 0
  {
    var q, r := missed / 65536, missed % 65536;
    assert missed == q * 65536 + r;
    assert lastSeq + missed == q * 65536 + (lastSeq + r);
  }

  /** A frame that is lost. */
  lemma LossKeepsEntry(l: Link, k: Key, current: Option<Account>, missed: nat)
    requires EntryAgrees(l, k, current, missed)
    ensures EntryAgrees(l.(tgSeq := l.tgSeq[k := NextSeq(l.tgSeq, k)]), k, current, missed + 1)
  {
    if current.Some? {
      NumbersMove(l.browser.entries[HeaderOf(k)].transmission.lastSeq, missed);
    }
  }

  /** A frame that arrives. */
  lemma ArrivalKeepsEntry(l: Link, k: Key, now: real, current: Option<Account>, missed: nat)
    requires EntryAgrees(l, k, current, missed)
    ensures var next := if current.None? || Ends(current.value, now) then Account(now, now, 1, 0)
                        else Continued(current.value, now, missed);
            EntryAgrees(Numbered(l, k, now), k, Some(next), 0)
  {
    if current.Some? {
      NumbersMove(l.browser.entries[HeaderOf(k)].transmission.lastSeq, missed);
    }
  }

  /** Another source's frame does not touch the entry. */
  lemma OtherKeepsEntry(l: Link, n: Link, k: Key, other: Key, current: Option<Account>, missed: nat)
    requires EntryAgrees(l, k, current, missed) && HeaderOf(k) != HeaderOf(other)
    requires n.tgSeq == l.tgSeq[other := NextSeq(l.tgSeq, other)]
    requires Lookup(n.browser.entries, HeaderOf(k)) == Lookup(l.browser.entries, HeaderOf(k))
    ensures EntryAgrees(n, k, current, missed)
  {
    assert k != other;
  }

  lemma EntriesFollow(l: Link, tries: seq<Attempt>, a: Attempt, sources: set<Source>, src: Source)
    requires Distinguishable(sources) && SourceOf(a.sent.frame) in sources && src in sources
    requires Faithful(l, tries, sources)
    ensures EntryAgrees(Attempted(l, a), ServerKeyOf(src), Current(tries + [a], ServerKeyOf(src)),
                        Missed(tries + [a], ServerKeyOf(src)))
  {
    var k, other := ServerKeyOf(src), ServerKey(a.sent.frame);
    assert (tries + [a])[..|tries|] == tries;
    HeaderOfServerKey(a.sent.frame);
    DeliveryMeans(l, a.sent);
    assert EntryAgrees(l, k, Current(tries, k), Missed(tries, k));
    if k == other {
      if a.arrives {
        ArrivalKeepsEntry(l, k, a.sent.now, Current(tries, k), Missed(tries, k));
      } else {
        LossKeepsEntry(l, k, Current(tries, k), Missed(tries, k));
      }
    } else {
      OtherKeepsEntry(l, Attempted(l, a), k, other, Current(tries, k), Missed(tries, k));
    }
  }

  lemma EndedFollow(l: Link, tries: seq<Attempt>, a: Attempt, sources: set<Source>)
    requires SourceOf(a.sent.frame) in sources && Faithful(l, tries, sources)
    ensures EndedAgree(Attempted(l, a).browser.ended, Ended(tries + [a]))
  {
    var k := ServerKey(a.sent.frame);
    assert (tries + [a])[..|tries|] == tries;
    HeaderOfServerKey(a.sent.frame);
    DeliveryMeans(l, a.sent);
    assert EntryAgrees(l, ServerKeyOf(SourceOf(a.sent.frame)), Current(tries, k), Missed(tries, k));
  }

  // -------------------------------------------------------------- main results

  /** For sources the header tells apart, over any run and any losses: the browser
      keeps for each source exactly the account of its current transmission, and
      of all that ended, in order. Its gaps are the frames that arrived, not first
      in their transmission, after losses that are not a multiple of 65536. */
  lemma {:induction false} LossesAreCounted(tries: seq<Attempt>, sources: set<Source>)
    requires Distinguishable(sources) && Comes(tries, sources)
    ensures Faithful(AfterAll(tries), tries, sources)
  {
    if tries != [] {
      var front, last := tries[..|tries| - 1], tries[|tries| - 1];
      LossesAreCounted(front, sources);
      assert tries == front + [last];
      forall src <- sources
        ensures EntryAgrees(AfterAll(tries), ServerKeyOf(src), Current(tries, ServerKeyOf(src)),
                            Missed(tries, ServerKeyOf(src)))
      {
        EntriesFollow(AfterAll(front), front, last, sources, src);
      }
      EndedFollow(AfterAll(front), front, last, sources);
    }
  }

  /** The frame comes no more than half a second after the last of its header. */
  ghost predicate GoesOn(b: Browser, s: Sent) {
    var e := Lookup(b.entries, HeaderOf(ServerKey(s.frame)));
    e.Some? && (e.value.prevClientTime <= 0.0 || s.now - e.value.prevClientTime <= 500.0)
  }

  /** Its transmission has one frame more, and one gap more or not. */
  ghost predicate AddsOne(b: Browser, n: Browser, s: Sent, gap: bool) {
    var h := HeaderOf(ServerKey(s.frame));
    && h in b.entries && h in n.entries && n.ended == b.ended
    && var before, after := b.entries[h].transmission, n.entries[h].transmission;
    && after.frameCount == before.frameCount + 1 && after.startTime == before.startTime
    && after.seqGaps == before.seqGaps + if gap then 1 else 0
  }

  /** One frame: when it arrives within a transmission it adds a gap if and only if
      the number of frames of its source lost since the last that arrived is not a
      multiple of 65536. */
  lemma ArrivalAddsAGapIff(tries: seq<Attempt>, s: Sent, sources: set<Source>)
    requires Distinguishable(sources) && Comes(tries, sources) && SourceOf(s.frame) in sources
    ensures GoesOn(AfterAll(tries).browser, s) ==>
              AddsOne(AfterAll(tries).browser, AfterAll(tries + [Attempt(s, true)]).browser, s,
                      Missed(tries, ServerKey(s.frame)) % 65536 != 0)
  {
    var all, k := tries + [Attempt(s, true)], ServerKey(s.frame);
    assert all[..|tries|] == tries;
    LossesAreCounted(tries, sources);
    HeaderOfServerKey(s.frame);
    var l := AfterAll(tries);
    assert EntryAgrees(l, ServerKeyOf(SourceOf(s.frame)), Current(tries, k), Missed(tries, k));
    ArrivalKeepsEntry(l, k, s.now, Current(tries, k), Missed(tries, k));
    DeliveryMeans(l, s);
  }
}
