/** The event bus: a ring of recent events, replayed to clients that reconnect
    (internal/ingest/eventbus.go). */
module EventRing {
  import opened Sql

  /** "" for none, the bus's own "<ms>-<seq>", or anything else a client sends. */
  datatype EventId = Blank | Stamp(ms: int, seqNo: nat) | Foreign(text: string)

  /** An ID of 0 stands for none. */
  datatype Event = Event(
    id: EventId, kind: string, subKind: string,
    system: int, site: int, tgid: int, unit: int, emergency: bool, data: string)

  const NO_EVENT := Event(Blank, "", "", 0, 0, 0, 0, false, "")

  datatype Filter = Filter(
    types: seq<string>, systems: seq<int>, sites: seq<int>, tgids: seq<int>, units: seq<int>, emergencyOnly: bool)

  // -------------------------------------------------------------------- filter

  predicate IsSpace(c: char) {
    c == ' ' || c == '\t' || c == '\n' || c == '\r' || c == 11 as char || c == 12 as char
  }

  function TrimSpace(s: string): string {
    if s == "" then ""
    else if IsSpace(s[0]) then TrimSpace(s[1..])
    else if IsSpace(s[|s| - 1]) then TrimSpace(s[..|s| - 1])
    else s
  }

  /** The text before and after the first ':', if there is one. */
  function Cut(s: string): Option<(string, string)> {
    if s == "" then None
    else if s[0] == ':' then Some(("", s[1..]))
    else
      match Cut(s[1..])
      case None => None
      case Some((before, after)) => Some(([s[0]] + before, after))
  }

  predicate TypeMatches(t: string, e: Event) {
    match Cut(TrimSpace(t))
    case Some((base, sub)) => base == e.kind && sub == e.subKind
    case None => TrimSpace(t) == e.kind
  }

  lemma {:induction false} CutMeans(s: string)
    ensures Cut(s).None? <==> ':' !in s
    ensures Cut(s).Some? ==> s == Cut(s).value.0 + ":" + Cut(s).value.1 && ':' !in Cut(s).value.0
  {
    if s != "" && s[0] != ':' {
      CutMeans(s[1..]);
      assert s == [s[0]] + s[1..];
    }
  }

  lemma {:induction false} CutIsUnique(before: string, after: string)
    requires ':' !in before
    ensures Cut(before + ":" + after) == Some((before, after))
  {
    var s := before + ":" + after;
    if before == "" {
      assert s[1..] == after;
    } else {
      CutIsUnique(before[1..], after);
      assert s[1..] == before[1..] + ":" + after;
      assert before == [before[0]] + before[1..];
    }
  }

  /** A type filter selects a type, or a type and subtype joined by a colon. */
  lemma TypeMatchesMeans(t: string, e: Event)
    ensures TypeMatches(t, e) <==>
            ':' !in e.kind && (TrimSpace(t) == e.kind || TrimSpace(t) == e.kind + ":" + e.subKind)
  {
    CutMeans(TrimSpace(t));
    if ':' !in e.kind {
      CutIsUnique(e.kind, e.subKind);
    }
  }

  predicate Selected(wanted: seq<int>, id: int) {
    wanted == [] || id == 0 || id in wanted
  }

  predicate Matches(e: Event, f: Filter) {
    && (f.emergencyOnly ==> e.emergency)
    && (f.types == [] || exists t <- f.types :: TypeMatches(t, e))
    && Selected(f.systems, e.system)
    && Selected(f.sites, e.site)
    && Selected(f.tgids, e.tgid)
    && Selected(f.units, e.unit)
  }

  /** What keeps an event from a client: not being an emergency, its type, or an ID
      it has that is not on the client's list for that ID. */
  lemma RejectedIff(e: Event, f: Filter)
    ensures !Matches(e, f) <==>
            || (f.emergencyOnly && !e.emergency)
            || (f.types != [] && forall t <- f.types :: !TypeMatches(t, e))
            || (f.systems != [] && e.system != 0 && e.system !in f.systems)
            || (f.sites != [] && e.site != 0 && e.site !in f.sites)
            || (f.tgids != [] && e.tgid != 0 && e.tgid !in f.tgids)
            || (f.units != [] && e.unit != 0 && e.unit !in f.units)
  {
  }

  ghost predicate AllSpace(s: string) {
    forall i :: 0 <= i < |s| ==> IsSpace(s[i])
  }

  /** Trimming takes white space off both ends, and all of it. */
  lemma {:induction false} TrimMeans(s: string) returns (i: nat, j: nat)
    ensures i <= j <= |s| && TrimSpace(s) == s[i..j] && AllSpace(s[..i]) && AllSpace(s[j..])
    ensures i < j ==> !IsSpace(s[i]) && !IsSpace(s[j - 1])
    decreases |s|
  {
    i, j := 0, |s|;
    if s != "" && IsSpace(s[0]) {
      var tail := s[1..];
      var a, b := TrimMeans(tail);
      i, j := a + 1, b + 1;
      assert s[i..j] == tail[a..b] && s[j..] == tail[b..];
      assert forall k :: 0 < k < i ==> s[k] == tail[..a][k - 1];
    } else if s != "" && IsSpace(s[|s| - 1]) {
      var front := s[..|s| - 1];
      i, j := TrimMeans(front);
      assert s[i..j] == front[i..j] && s[..i] == front[..i];
      assert forall k :: 0 <= k < |front| - j ==> s[j..][k] == front[j..][k];
    }
  }

  method IsSelected(wanted: seq<int>, id: int) returns (selected: bool)
    ensures selected <==> Selected(wanted, id)
  {
    if |wanted| > 0 && id != 0 {
      for i := 0 to |wanted|
        invariant id !in wanted[..i]
      {
        if wanted[i] == id {
          return true;
        }
      }
      return false;
    }
    return true;
  }

  method MatchesFilter(e: Event, f: Filter) returns (matches: bool)
    ensures matches <==> Matches(e, f)
  {
    if f.emergencyOnly && !e.emergency {
      return false;
    }
    if |f.types| > 0 {
      var found := false;
      for i := 0 to |f.types|
        invariant !found && forall t <- f.types[..i] :: !TypeMatches(t, e)
      {
        var t := TrimSpace(f.types[i]);
        var parts := Cut(t);
        if parts.Some? {
          if parts.value.0 == e.kind && parts.value.1 == e.subKind {
            found := true;
            assert f.types[i] in f.types && TypeMatches(f.types[i], e);
            break;
          }
        } else if t == e.kind {
          found := true;
          assert f.types[i] in f.types && TypeMatches(f.types[i], e);
          break;
        }
      }
      assert !found ==> f.types[..|f.types|] == f.types;
      if !found {
        return false;
      }
    }
    var selected := IsSelected(f.systems, e.system);
    if !selected {
      return false;
    }
    selected := IsSelected(f.sites, e.site);
    if !selected {
      return false;
    }
    selected := IsSelected(f.tgids, e.tgid);
    if !selected {
      return false;
    }
    matches := IsSelected(f.units, e.unit);
  }

  // -------------------------------------------------------------------- replay

  function Filtered(events: seq<Event>, f: Filter): seq<Event> {
    if events == [] then []
    else
      var last := events[|events| - 1];
      Filtered(events[..|events| - 1], f) + if Matches(last, f) then [last] else []
  }

  predicate Has(events: seq<Event>, id: EventId) {
    exists e <- events :: e.id == id
  }

  /** The events after the one named, all of them if it is not there. */
  function Since(events: seq<Event>, id: EventId): seq<Event> {
    if id.Blank? || !Has(events, id) then events else AfterFirst(events, id)
  }

  function AfterFirst(events: seq<Event>, id: EventId): seq<Event> {
    if events == [] then []
    else if events[0].id == id then events[1..]
    else AfterFirst(events[1..], id)
  }

  function LastFew(log: seq<Event>, n: nat): seq<Event> {
    if |log| <= n then log else log[|log| - n..]
  }

  ghost predicate DistinctIds(log: seq<Event>) {
    forall i, j :: 0 <= i < j < |log| ==> log[i].id != log[j].id
  }

  lemma {:induction false} AfterFirstIs(events: seq<Event>, id: EventId, k: nat)
    requires k < |events| && events[k].id == id && forall i :: 0 <= i < k ==> events[i].id != id
    ensures AfterFirst(events, id) == events[k + 1..]
  {
    if k > 0 {
      AfterFirstIs(events[1..], id, k - 1);
    }
  }

  /** A client that saw event number `k` is replayed what came after it, or
      after the events the ring has lost. */
  lemma ReplayStartsAfterTheSeen(log: seq<Event>, size: nat, k: nat)
    requires DistinctIds(log) && k < |log| && !log[k].id.Blank?
    ensures Since(LastFew(log, size), log[k].id) == log[(if k + 1 >= |log| - size then k + 1 else |log| - size)..]
  {
    var kept := LastFew(log, size);
    var lost := |log| - |kept|;
    assert kept == log[lost..];
    if k >= lost {
      assert kept[k - lost] == log[k];
      AfterFirstIs(kept, log[k].id, k - lost);
    } else {
      assert forall i :: 0 <= i < |kept| ==> kept[i].id == log[lost + i].id;
      assert forall e <- kept :: e.id != log[k].id;
    }
  }

  // ---------------------------------------------------------------------- ring

  /** The slot `i` places after `head`. */
  function Wrap(head: nat, i: nat, size: nat): (slot: nat)
    requires head < size && i <= size
    ensures slot < size
  {
    if head + i < size then head + i else head + i - size
  }

  lemma WrapIsMod(head: nat, i: nat, size: nat)
    requires head < size && i <= size
    ensures (head + i) % size == Wrap(head, i, size)
  {
    var n := head + i;
    if n >= size {
      assert n == 1 * size + (n - size);
    }
  }

  /** IDs that were given out and are not in the log. */
  ghost predicate Pending(log: seq<Event>, issued: set<EventId>, seqNo: nat) {
    forall id {:trigger id in issued} | id in issued :: id.Stamp? && id.seqNo <= seqNo && !Has(log, id)
  }

  class EventBus {
    const ring: array<Event>
    var ringHead: nat
    var seqNo: nat
    ghost var log: seq<Event>
    /** IDs given out whose events are not inserted yet. */
    ghost var issued: set<EventId>

    /** The slots from the oldest on: unused ones, then the last events. */
    ghost predicate Valid()
      reads this, ring
    {
      && ringHead < ring.Length
      && (forall e <- log :: e.id.Stamp? && e.id.seqNo <= seqNo)
      && DistinctIds(log)
      && Pending(log, issued, seqNo)
      && (forall i :: 0 <= i < ring.Length ==> ring[Wrap(ringHead, i, ring.Length)] == SlotOf(log, ring.Length, i))
    }

    constructor (ringSize: nat)
      requires ringSize >= 1
      ensures Valid() && log == [] && issued == {} && ring.Length == ringSize
    {
      ring := new Event[ringSize](_ => NO_EVENT);
      ringHead, seqNo, log, issued := 0, 0, [], {};
    }

    /** Give an event the next sequence number. Its ID is new, and stays ready
        for `Insert` whatever other publishers number and insert meanwhile. */
    method NewEvent(e: Event, ms: int) returns (event: Event)
      requires Valid()
      modifies this`seqNo, this`issued
      ensures Valid() && log == old(log) && seqNo == old(seqNo) + 1
      ensures event == e.(id := Stamp(ms, seqNo))
      ensures event.id !in old(issued) && !Has(log, event.id)
      ensures issued == old(issued) + {event.id}
    {
      seqNo := seqNo + 1;
      event := e.(id := Stamp(ms, seqNo));
      issued := issued + {event.id};
    }

    method Insert(event: Event)
      requires Valid() && event.id in issued
      modifies ring, this`ringHead, this`log, this`issued
      ensures Valid() && log == old(log) + [event] && issued == old(issued) - {event.id}
    {
      ghost var head, size := ringHead, ring.Length;
      ring[ringHead] := event;
      WrapIsMod(ringHead, 1, ring.Length);
      ringHead := (ringHead + 1) % ring.Length;
      log, issued := log + [event], issued - {event.id};
      forall i | 0 <= i < size
        ensures ring[Wrap(ringHead, i, size)] == SlotOf(log, size, i)
      {
        if i < size - 1 {
          assert Wrap(ringHead, i, size) == Wrap(head, i + 1, size) != head;
          assert SlotOf(log, size, i) == SlotOf(old(log), size, i + 1);
        }
      }
    }

    /** The event `i` slots from the oldest; a slot without an ID is unused. */
    method Slot(i: nat) returns (e: Event)
      requires Valid() && i < ring.Length
      ensures e.id.Blank? <==> |log| + i < ring.Length
      ensures KeptOf(log, ring.Length, i + 1) == KeptOf(log, ring.Length, i) + if e.id.Blank? then [] else [e]
    {
      WrapIsMod(ringHead, i, ring.Length);
      e := ring[(ringHead + i) % ring.Length];
      assert e == SlotOf(log, ring.Length, i);
    }

    method ReplayAll(f: Filter) returns (events: seq<Event>)
      requires Valid()
      ensures events == Filtered(LastFew(log, ring.Length), f)
    {
      events := [];
      for i := 0 to ring.Length
        invariant events == Filtered(KeptOf(log, ring.Length, i), f)
      {
        var e := Slot(i);
        if !e.id.Blank? {
          FilteredGrows(KeptOf(log, ring.Length, i), e, f);
          var matches := MatchesFilter(e, f);
          if matches {
            events := events + [e];
          }
        }
      }
      assert KeptOf(log, ring.Length, ring.Length) == LastFew(log, ring.Length);
    }

    /** The events since the one named that pass the filter; if that one is no
        longer there, all that do. */
    method ReplaySince(lastEventId: EventId, f: Filter) returns (events: seq<Event>)
      requires Valid()
      ensures events == Filtered(Since(LastFew(log, ring.Length), lastEventId), f)
    {
      events := [];
      var found := lastEventId.Blank?;
      ghost var kept := [];
      for i := 0 to ring.Length
        invariant kept == KeptOf(log, ring.Length, i)
        invariant found <==> Found(kept, lastEventId)
        invariant events == Scanned(kept, lastEventId, f)
      {
        var e := Slot(i);
        if e.id.Blank? {
          continue;
        }
        ScannedGrows(kept, e, lastEventId, f);
        kept := kept + [e];
        if !found {
          if e.id == lastEventId {
            found := true;
          }
          continue;
        }
        var matches := MatchesFilter(e, f);
        if matches {
          events := events + [e];
        }
      }
      assert KeptOf(log, ring.Length, ring.Length) == LastFew(log, ring.Length);
      if !found && !lastEventId.Blank? {
        events := ReplayAll(f);
      }
    }
  }

  /** What slot `i`, counted from the oldest, holds after the events of `log`. */
  ghost function SlotOf(log: seq<Event>, size: nat, i: nat): Event
    requires i < size
  {
    if |log| + i < size then NO_EVENT else log[|log| + i - size]
  }

  /** The events in the first `i` slots. */
  ghost function KeptOf(log: seq<Event>, size: nat, i: nat): seq<Event>
    requires i <= size
  {
    var kept := LastFew(log, size);
    if i <= size - |kept| then [] else kept[..i - (size - |kept|)]
  }

  lemma FilteredGrows(events: seq<Event>, e: Event, f: Filter)
    ensures Filtered(events + [e], f) == Filtered(events, f) + if Matches(e, f) then [e] else []
  {
    assert (events + [e])[..|events|] == events;
  }

  lemma {:induction false} AfterFirstGrows(events: seq<Event>, e: Event, id: EventId)
    requires Has(events, id)
    ensures AfterFirst(events + [e], id) == AfterFirst(events, id) + [e]
  {
    assert (events + [e])[1..] == events[1..] + [e];
    if events[0].id != id {
      AfterFirstGrows(events[1..], e, id);
    }
  }

  predicate Found(events: seq<Event>, id: EventId) {
    id.Blank? || Has(events, id)
  }

  /** What a scan of `events` has collected. */
  function Scanned(events: seq<Event>, id: EventId, f: Filter): seq<Event> {
    if Found(events, id) then Filtered(Since(events, id), f) else []
  }

  lemma ScannedGrows(events: seq<Event>, e: Event, id: EventId, f: Filter)
    ensures Found(events + [e], id) <==> Found(events, id) || e.id == id
    ensures Scanned(events + [e], id, f) ==
            if Found(events, id) then Scanned(events, id, f) + if Matches(e, f) then [e] else [] else []
  {
    var all := events + [e];
    assert forall x :: x in all <==> x in events || x == e;
    if Found(events, id) {
      FilteredGrows(Since(events, id), e, f);
      if !id.Blank? {
        AfterFirstGrows(events, e, id);
      }
    } else if e.id == id {
      assert forall i :: 0 <= i < |events| ==> events[i] in events;
      AfterFirstIs(all, id, |events|);
    }
  }
}
