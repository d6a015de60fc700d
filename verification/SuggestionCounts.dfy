/** Exact counting: while a suggestion's call count is within the caps it is the
    number of distinct transmissions heard for the candidate, over every system
    merged into it. Ingest stores a call without its group and links it a moment
    later (internal/ingest/handler_calls.go:199-209); the count is exact as long
    as no call is sighted in between; LateGroups says what happens otherwise. */
module SuggestionCounts {
  import opened Sql
  import opened Evidence
  import opened SuggestionRows
  import opened SuggestionTables
  import opened SuggestionRuns

  /** The entry carries the group its call has now. */
  ghost predicate Recorded(calls: map<nat, Call>, e: Entry) {
    e.callId in calls && calls[e.callId].group == e.group
  }

  function CallTx(calls: map<nat, Call>, c: nat): Transmission
    requires c in calls
  {
    Tx(c, calls[c].group)
  }

  ghost predicate CoveredBy(calls: map<nat, Call>, c: nat, ev: seq<Entry>) {
    c in calls && exists e <- ev :: TxOf(e) == CallTx(calls, c)
  }

  /** The evidence holds calls that were heard; up to the limit, all counted
      ones, and between them every transmission heard. */
  ghost predicate RowExact(calls: map<nat, Call>, r: Suggestion, heard: set<nat>, limit: nat) {
    && (forall e <- r.evidence :: Recorded(calls, e) && e.callId in heard)
    && heard <= calls.Keys
    && Exact(r, limit)
    && (r.callCount <= limit ==> forall c <- heard :: CoveredBy(calls, c, r.evidence))
  }

  ghost predicate RowsExact(s: State, limit: nat) {
    && s.heard.Keys == s.t.suggestions.Keys
    && forall k <- s.t.suggestions :: RowExact(s.t.calls, s.t.suggestions[k], s.heard[k], limit)
  }

  ghost predicate FetchedExact(s: State) {
    forall j <- s.fetched, sg <- s.fetched[j].sightings ::
      Live(s.t, sg.key.system) ==> Recorded(s.t.calls, sg.entry)
  }

  ghost predicate ExactInv(s: State, limit: nat) {
    RowsExact(s, limit) && FetchedExact(s)
  }

  /** How far the count is exact: the smaller of the two caps. */
  function Limit(cap: int): nat {
    if EffectiveCap(cap) <= FOLD_CAP then EffectiveCap(cap) else FOLD_CAP
  }

  /** The distinct transmissions among the given calls. */
  ghost function Transmissions(calls: map<nat, Call>, heard: set<nat>): set<Transmission> {
    set c <- heard | c in calls :: CallTx(calls, c)
  }

  lemma CoverMeansEquality(calls: map<nat, Call>, ev: seq<Entry>, heard: set<nat>)
    requires forall e <- ev :: Recorded(calls, e) && e.callId in heard
    requires forall c <- heard :: CoveredBy(calls, c, ev)
    ensures TxSet(ev) == Transmissions(calls, heard)
  {
    forall e <- ev
      ensures TxOf(e) in Transmissions(calls, heard)
    {
      assert TxOf(e) == CallTx(calls, e.callId);
    }
    forall c <- heard
      ensures CallTx(calls, c) in TxSet(ev)
    {
      assert CoveredBy(calls, c, ev);
    }
  }

  /** What the invariant is for: one count for each transmission heard. */
  lemma ExactRowsCountTransmissions(calls: map<nat, Call>, r: Suggestion, heard: set<nat>, limit: nat)
    requires RowExact(calls, r, heard, limit) && Apart(r.evidence) && r.callCount <= limit
    ensures r.callCount == |Transmissions(calls, heard)|
  {
    ApartCountsTransmissions(r.evidence);
    CoverMeansEquality(calls, r.evidence, heard);
  }

  /** Entries recorded under the same calls table agree and clash only when
      they stand for one transmission. */
  lemma RecordedClash(calls: map<nat, Call>, x: Entry, y: Entry)
    requires Recorded(calls, x) && Recorded(calls, y)
    ensures Clash(x, y) <==> TxOf(x) == TxOf(y)
  {
  }

  // --------------------------------------------------------------- sightings

  lemma SightedKeepsExact(calls: map<nat, Call>, r: Suggestion, heard: set<nat>, sg: Sighting, cap: nat, limit: nat)
    requires RowExact(calls, r, heard, limit) && Apart(r.evidence)
    requires Recorded(calls, sg.entry) && limit <= cap
    ensures RowExact(calls, Sighted(r, sg, cap), heard + {sg.entry.callId}, limit)
  {
    var n := Sighted(r, sg, cap);
    SightedIsExact(r, sg, cap, limit);
    SightedEvidenceComesFrom(r, sg, cap);
    if n.callCount <= limit {
      forall c <- heard + {sg.entry.callId}
        ensures CoveredBy(calls, c, n.evidence)
      {
        if c in heard {
          assert CoveredBy(calls, c, r.evidence);
          var e :| e in r.evidence && TxOf(e) == CallTx(calls, c);
          assert e in n.evidence;
        } else if ClashesAny(sg.entry, r.evidence) {
          var y :| y in r.evidence && Clash(sg.entry, y);
          RecordedClash(calls, sg.entry, y);
        } else {
          assert sg.entry in n.evidence;
        }
      }
    }
  }

  ghost predicate AllExact(calls: map<nat, Call>, rows: Rows, heard: map<Key, set<nat>>, limit: nat) {
    && heard.Keys == rows.Keys
    && forall k <- rows :: RowExact(calls, rows[k], heard[k], limit) && Apart(rows[k].evidence)
  }

  lemma RecordKeepsExact(calls: map<nat, Call>, rows: Rows, heard: map<Key, set<nat>>, id: int, sg: Sighting, cap: nat,
                         limit: nat)
    requires AllExact(calls, rows, heard, limit) && Recorded(calls, sg.entry) && limit <= cap
    ensures AllExact(calls, Record(rows, id, sg, cap), Hear(heard, sg), limit)
  {
    var k := sg.key;
    if k in rows {
      SightedKeepsExact(calls, rows[k], heard[k], sg, cap, limit);
      if !ClashesAny(sg.entry, rows[k].evidence) {
        ApartCons(sg.entry, rows[k].evidence);
        NewestKeeps([sg.entry] + rows[k].evidence, cap);
      }
    } else {
      assert sg.entry in FirstSighting(sg, id).evidence;
      assert CoveredBy(calls, sg.entry.callId, FirstSighting(sg, id).evidence);
    }
  }

  lemma {:induction false} RecordAllKeepsExact(calls: map<nat, Call>, rows: Rows, heard: map<Key, set<nat>>, next: int,
                                               sgs: seq<Sighting>, cap: nat, limit: nat)
    requires AllExact(calls, rows, heard, limit) && limit <= cap
    requires forall sg <- sgs :: Recorded(calls, sg.entry)
    ensures AllExact(calls, RecordAll(rows, next, sgs, cap), HearAll(heard, sgs), limit)
  {
    if sgs != [] {
      var front, id := sgs[..|sgs| - 1], next + |sgs| - 1;
      RecordAllKeepsExact(calls, rows, heard, next, front, cap, limit);
      RecordKeepsExact(calls, RecordAll(rows, next, front, cap), HearAll(heard, front), id, sgs[|sgs| - 1], cap, limit);
    }
  }

  lemma ApplyKeepsExact(s: State, k: nat, cap: int)
    requires Inv(s, Bound(cap)) && ExactInv(s, Limit(cap)) && k in s.fetched
    ensures ExactInv(AfterApply(s, k, cap), Limit(cap))
  {
    var b := s.fetched[k];
    var n := AfterApply(s, k, cap);
    assert AllExact(s.t.calls, s.t.suggestions, s.heard, Limit(cap)) by {
      forall l <- s.t.suggestions
        ensures Apart(s.t.suggestions[l].evidence)
      {
        assert RowGood(s, l, s.t.suggestions[l], Bound(cap));
      }
    }
    if Apply(s.t, UnitTagSuggestions, b.fromId, b.toId, b.sightings, cap).1 == Applied {
      forall sg <- b.sightings
        ensures Recorded(s.t.calls, sg.entry)
      {
        assert SightingGood(s, sg);
      }
      RecordAllKeepsExact(s.t.calls, s.t.suggestions, s.heard, s.t.nextId, b.sightings, EffectiveCap(cap), Limit(cap));
    }
    assert forall j <- n.fetched :: j in s.fetched && n.fetched[j] == s.fetched[j];
  }

  // ------------------------------------------------------------------- merge

  /** A surviving system's row means the same under the merged calls table. */
  lemma MergeKeepsOwnRow(s: State, src: nat, dst: nat, k: Key, r: Suggestion, heard: set<nat>, limit: nat)
    requires GroupsInv(s) && src != dst && k.system != src
    requires forall e <- r.evidence :: GroupOk(s, k.system, e.group) && NoStray(s.t, src, k.system, e.group)
    requires RowExact(s.t.calls, r, heard, limit)
    ensures RowExact(MovedCalls(s.t.calls, src, dst, Conflicts(s.t.groups, src, dst)), r, heard, limit)
  {
    var moved := Conflicts(s.t.groups, src, dst);
    var calls' := MovedCalls(s.t.calls, src, dst, moved);
    ConflictsAreInjective(s.t.groups, src, dst);
    forall e <- r.evidence
      ensures Regrouped(e.group, moved) == e.group && Recorded(calls', e)
    {
      assert GroupOk(s, k.system, e.group) && Recorded(s.t.calls, e);
    }
    if r.callCount <= limit {
      forall c <- heard
        ensures CoveredBy(calls', c, r.evidence)
      {
        assert CoveredBy(s.t.calls, c, r.evidence);
        var e :| e in r.evidence && TxOf(e) == CallTx(s.t.calls, c);
        assert Regrouped(e.group, moved) == e.group;
      }
    }
  }

  /** A source row keeps its meaning when its evidence is pointed at the groups
      its calls now have. */
  lemma MergeKeepsSourceRow(calls: map<nat, Call>, src: nat, dst: nat, moved: map<nat, nat>, r: Suggestion,
                            heard: set<nat>, limit: nat)
    requires RowExact(calls, r, heard, limit)
    ensures RowExact(MovedCalls(calls, src, dst, moved), Remapped(r, moved), heard, limit)
  {
    var calls' := MovedCalls(calls, src, dst, moved);
    var f := Remapped(r, moved);
    forall e <- f.evidence
      ensures Recorded(calls', e) && e.callId in heard
    {
      var i :| 0 <= i < |f.evidence| && f.evidence[i] == e;
      assert r.evidence[i] in r.evidence && Recorded(calls, r.evidence[i]);
    }
    if r.callCount <= limit {
      forall c <- heard
        ensures CoveredBy(calls', c, f.evidence)
      {
        RemapKeepsCover(calls, src, dst, moved, r, c);
      }
    }
  }

  lemma RemapKeepsCover(calls: map<nat, Call>, src: nat, dst: nat, moved: map<nat, nat>, r: Suggestion, c: nat)
    requires CoveredBy(calls, c, r.evidence)
    ensures CoveredBy(MovedCalls(calls, src, dst, moved), c, Remapped(r, moved).evidence)
  {
    var f := Remapped(r, moved);
    var e :| e in r.evidence && TxOf(e) == CallTx(calls, c);
    var i :| 0 <= i < |r.evidence| && r.evidence[i] == e;
    assert f.evidence[i] in f.evidence;
    assert e.group == calls[c].group;
    assert TxOf(f.evidence[i]) == CallTx(MovedCalls(calls, src, dst, moved), c);
  }

  /** Folding two exact rows leaves an exact row for all calls heard by both. */
  lemma FoldKeepsExact(calls: map<nat, Call>, t: Suggestion, f: Suggestion, ht: set<nat>, hf: set<nat>, limit: nat)
    requires RowExact(calls, t, ht, limit) && RowExact(calls, f, hf, limit) && limit <= FOLD_CAP
    requires RowOk(t, |t.evidence|) && RowOk(f, |f.evidence|)
    ensures RowExact(calls, Folded(t, f), ht + hf, limit)
  {
    var n := Folded(t, f);
    forall x <- f.evidence, y <- t.evidence | x.callId == y.callId
      ensures x.group == y.group
    {
      assert Recorded(calls, x) && Recorded(calls, y);
    }
    FoldedIsExact(t, f, limit);
    FoldedEvidenceComesFrom(t, f);
    if n.callCount <= limit {
      forall c <- ht + hf
        ensures CoveredBy(calls, c, n.evidence)
      {
        if c in ht {
          assert CoveredBy(calls, c, t.evidence);
          var e :| e in t.evidence && TxOf(e) == CallTx(calls, c);
          assert e in n.evidence;
        } else {
          assert CoveredBy(calls, c, f.evidence);
          var e :| e in f.evidence && TxOf(e) == CallTx(calls, c);
          if ClashesAny(e, t.evidence) {
            var y :| y in t.evidence && Clash(e, y);
            RecordedClash(calls, e, y);
            assert y in n.evidence;
          } else {
            assert e in n.evidence;
          }
        }
      }
    }
  }

  lemma MergedHeardMeans(heard: map<Key, set<nat>>, src: nat, dst: nat, k: Key)
    requires src != dst
    ensures k in MergedHeard(heard, src, dst) <==>
            k.system != src && (k in heard || (k.system == dst && KeyOn(src, k) in heard))
    ensures k in MergedHeard(heard, src, dst) ==>
              MergedHeard(heard, src, dst)[k] ==
              HeardBy(heard, k) + if k.system == dst then HeardBy(heard, KeyOn(src, k)) else {}
  {
    if k.system == dst && KeyOn(src, k) in heard {
      assert KeyOn(dst, KeyOn(src, k)) == k;
      assert k in set l <- heard | l.system == src :: KeyOn(dst, l);
    }
    if l :| l in heard && l.system == src && KeyOn(dst, l) == k {
      assert KeyOn(src, k) == l;
    }
  }

  lemma MergeKeepsExactRow(s: State, src: nat, dst: nat, now: int, bound: nat, limit: nat, k: Key)
    requires Inv(s, bound) && bound >= FOLD_CAP >= limit && RowsExact(s, limit) && NoStrays(s, src)
    requires src != dst && Live(s.t, dst) && src in s.t.deleted
    ensures var n := AfterMerge(s, src, dst, now);
            k in n.t.suggestions ==>
              k in MergedHeard(s.heard, src, dst) &&
              RowExact(n.t.calls, n.t.suggestions[k], MergedHeard(s.heard, src, dst)[k], limit)
  {
    var rows := s.t.suggestions;
    var moved := Conflicts(s.t.groups, src, dst);
    MergedSuggestionsMean(rows, src, dst, moved, k);
    MergedHeardMeans(s.heard, src, dst, k);
    if k in rows && k.system != src {
      assert RowGood(s, k, rows[k], bound);
      MergeKeepsOwnRow(s, src, dst, k, rows[k], s.heard[k], limit);
    }
    var from := KeyOn(src, k);
    if k.system == dst && from in rows {
      assert RowGood(s, from, rows[from], bound);
      MergeKeepsSourceRow(s.t.calls, src, dst, moved, rows[from], s.heard[from], limit);
      if k in rows {
        RemappedKeepsRow(s, from, rows[from], dst, bound);
        FoldKeepsExact(MovedCalls(s.t.calls, src, dst, moved), rows[k], Remapped(rows[from], moved),
                       s.heard[k], s.heard[from], limit);
      }
    }
  }

  lemma MergeKeepsFetchedExact(s: State, src: nat, dst: nat, now: int, bound: nat)
    requires Inv(s, bound) && FetchedExact(s) && NoStrays(s, src)
    requires src != dst && Live(s.t, dst) && src in s.t.deleted
    ensures FetchedExact(AfterMerge(s, src, dst, now))
  {
    var n := AfterMerge(s, src, dst, now);
    forall j <- n.fetched, sg <- n.fetched[j].sightings | Live(n.t, sg.key.system)
      ensures Recorded(n.t.calls, sg.entry)
    {
      assert SightingGood(s, sg);
      MergeKeepsGroup(s, src, dst, now, sg.key.system, sg.entry.group);
    }
  }

  lemma MergeKeepsExact(s: State, src: nat, dst: nat, now: int, cap: int)
    requires Inv(s, Bound(cap)) && ExactInv(s, Limit(cap))
    requires Enabled(s, MergeTwo(src, dst, now))
    ensures ExactInv(AfterMerge(s, src, dst, now), Limit(cap))
  {
    if Live(s.t, src) {
      LiveHasNoStrays(s, src, Bound(cap));
    }
    if src in s.t.deleted {
      var n := AfterMerge(s, src, dst, now);
      var moved := Conflicts(s.t.groups, src, dst);
      forall k
        ensures k in n.heard <==> k in n.t.suggestions
        ensures k in n.t.suggestions ==> RowExact(n.t.calls, n.t.suggestions[k], n.heard[k], Limit(cap))
      {
        MergedSuggestionsMean(s.t.suggestions, src, dst, moved, k);
        MergedHeardMeans(s.heard, src, dst, k);
        if k in n.t.suggestions {
          MergeKeepsExactRow(s, src, dst, now, Bound(cap), Limit(cap), k);
        }
      }
      MergeKeepsFetchedExact(s, src, dst, now, Bound(cap));
    }
  }

  // -------------------------------------------------------------------- runs

  /** Steps that only add calls, decide rows or fetch. */
  lemma QuietKeepsExact(s: State, n: State, limit: nat)
    requires ExactInv(s, limit) && n.heard == s.heard
    requires forall c <- s.t.calls :: c in n.t.calls && n.t.calls[c] == s.t.calls[c]
    requires n.t.suggestions.Keys == s.t.suggestions.Keys
    requires forall k <- s.t.suggestions ::
               && n.t.suggestions[k].evidence == s.t.suggestions[k].evidence
               && n.t.suggestions[k].callCount == s.t.suggestions[k].callCount
    requires forall system :: Live(n.t, system) ==> Live(s.t, system) || system !in s.t.deleted
    requires forall j <- n.fetched, sg <- n.fetched[j].sightings ::
               SeenNow(s.t, sg) || (j in s.fetched && sg in s.fetched[j].sightings && sg.key.system in s.t.deleted)
    ensures ExactInv(n, limit)
  {
    forall k <- n.t.suggestions
      ensures RowExact(n.t.calls, n.t.suggestions[k], n.heard[k], limit)
    {
      MoreCallsKeepExact(s.t.calls, n.t.calls, s.t.suggestions[k], n.t.suggestions[k], s.heard[k], limit);
    }
    forall j <- n.fetched, sg <- n.fetched[j].sightings | Live(n.t, sg.key.system)
      ensures Recorded(n.t.calls, sg.entry)
    {
      assert Recorded(s.t.calls, sg.entry);
    }
  }

  lemma FetchKeepsExact(s: State, k: nat, b: Batch, limit: nat)
    requires FetchedInv(s) && ExactInv(s, limit) && Enabled(s, FetchBatch(k, b))
    ensures ExactInv(s.(fetched := s.fetched[k := b]), limit)
  {
    assert forall j <- s.fetched, sg <- s.fetched[j].sightings :: SightingGood(s, sg);
    QuietKeepsExact(s, s.(fetched := s.fetched[k := b]), limit);
  }

  lemma IngestKeepsExact(s: State, step: Step, limit: nat)
    requires FetchedInv(s) && ExactInv(s, limit) && Enabled(s, step) && Ingest(step) && !step.Regroup?
    ensures ExactInv(AfterIngest(s, step), limit)
  {
    assert forall j <- s.fetched, sg <- s.fetched[j].sightings :: SightingGood(s, sg);
    IngestKeepsRows(s.t, s.nextGroup, step);
    QuietKeepsExact(s, AfterIngest(s, step), limit);
  }

  /** Approvals and dismissals leave calls, systems and counts alone. */
  lemma DecidingKeepsExact(s: State, t: Tables, limit: nat)
    requires FetchedInv(s) && ExactInv(s, limit)
    requires t.calls == s.t.calls && t.deleted == s.t.deleted
    requires t.suggestions.Keys == s.t.suggestions.Keys
    requires forall k <- s.t.suggestions ::
               && t.suggestions[k].evidence == s.t.suggestions[k].evidence
               && t.suggestions[k].callCount == s.t.suggestions[k].callCount
    ensures ExactInv(s.(t := t), limit)
  {
    assert forall j <- s.fetched, sg <- s.fetched[j].sightings :: SightingGood(s, sg);
    QuietKeepsExact(s, s.(t := t), limit);
  }

  lemma ApproveKeepsExact(s: State, id: int, tag: string, decidedBy: string, now: int, limit: nat)
    requires FetchedInv(s) && ExactInv(s, limit)
    ensures ExactInv(s.(t := Approve(s.t, id, tag, decidedBy, now).0), limit)
  {
    DecidingKeepsExact(s, Approve(s.t, id, tag, decidedBy, now).0, limit);
  }

  lemma DismissKeepsExact(s: State, id: int, decidedBy: string, now: int, limit: nat)
    requires FetchedInv(s) && ExactInv(s, limit)
    ensures ExactInv(s.(t := Dismiss(s.t, id, decidedBy, now).0), limit)
  {
    DecidingKeepsExact(s, Dismiss(s.t, id, decidedBy, now).0, limit);
  }

  lemma MoreCallsKeepExact(calls: map<nat, Call>, calls': map<nat, Call>, r: Suggestion, r': Suggestion,
                           heard: set<nat>, limit: nat)
    requires RowExact(calls, r, heard, limit)
    requires r'.evidence == r.evidence && r'.callCount == r.callCount
    requires forall c <- calls :: c in calls' && calls'[c] == calls[c]
    ensures RowExact(calls', r', heard, limit)
  {
    assert forall c <- heard :: CoveredBy(calls, c, r.evidence) ==> CoveredBy(calls', c, r'.evidence);
  }

  /** No sighting of the call was recorded or is on its way. */
  ghost predicate Unsighted(s: State, c: nat) {
    && (forall k <- s.heard :: c !in s.heard[k])
    && (forall j <- s.fetched, sg <- s.fetched[j].sightings :: sg.entry.callId != c)
  }

  /** A call gets its group before it is sighted, or gets the one it has. */
  ghost predicate GroupedEarly(s: State, step: Step)
    requires Enabled(s, step)
  {
    step.Regroup? ==> Unsighted(s, step.callId) || s.t.calls[step.callId].group == Some(step.group)
  }

  ghost predicate GroupedEarlyRun(s: State, steps: seq<Step>, cap: int)
    requires Runs(s, steps, cap)
    decreases |steps|
  {
    steps == [] ||
    (GroupedEarlyRun(s, steps[..|steps| - 1], cap) &&
     GroupedEarly(After(s, steps[..|steps| - 1], cap), steps[|steps| - 1]))
  }

  lemma RegroupKeepsExactRow(calls: map<nat, Call>, c: nat, call: Call, r: Suggestion, heard: set<nat>, limit: nat)
    requires RowExact(calls, r, heard, limit) && c in calls && c !in heard
    ensures RowExact(calls[c := call], r, heard, limit)
  {
    assert forall d <- heard :: CoveredBy(calls, d, r.evidence) ==> CoveredBy(calls[c := call], d, r.evidence);
  }

  lemma RegroupKeepsExact(s: State, step: Step, limit: nat)
    requires ExactInv(s, limit) && Enabled(s, step) && step.Regroup? && GroupedEarly(s, step)
    ensures ExactInv(AfterIngest(s, step), limit)
  {
    var n, c := AfterIngest(s, step), step.callId;
    if s.t.calls[c].group == Some(step.group) {
      assert n.t.calls == s.t.calls;
    } else {
      forall k <- n.t.suggestions
        ensures RowExact(n.t.calls, n.t.suggestions[k], n.heard[k], limit)
      {
        RegroupKeepsExactRow(s.t.calls, c, n.t.calls[c], s.t.suggestions[k], s.heard[k], limit);
      }
    }
  }

  lemma StepKeepsExact(s: State, step: Step, cap: int)
    requires Inv(s, Bound(cap)) && ExactInv(s, Limit(cap)) && Enabled(s, step) && GroupedEarly(s, step)
    ensures ExactInv(Next(s, step, cap), Limit(cap))
  {
    if step.Regroup? {
      RegroupKeepsExact(s, step, Limit(cap));
    } else if step.ApplyBatch? {
      ApplyKeepsExact(s, step.scanner, cap);
    } else if step.MergeTwo? {
      MergeKeepsExact(s, step.src, step.dst, step.now, cap);
    } else if step.FetchBatch? {
      FetchKeepsExact(s, step.scanner, step.batch, Limit(cap));
    } else if step.ApproveOne? {
      ApproveKeepsExact(s, step.id, step.tag, step.decidedBy, step.now, Limit(cap));
    } else if step.DismissOne? {
      DismissKeepsExact(s, step.id, step.decidedBy, step.now, Limit(cap));
    } else {
      IngestKeepsExact(s, step, Limit(cap));
    }
  }

  lemma {:induction false} RunKeepsExact(s: State, steps: seq<Step>, cap: int)
    requires Init(s) && Runs(s, steps, cap) && GroupedEarlyRun(s, steps, cap)
    ensures Inv(After(s, steps, cap), Bound(cap)) && ExactInv(After(s, steps, cap), Limit(cap))
    decreases |steps|
  {
    if steps != [] {
      RunKeepsExact(s, steps[..|steps| - 1], cap);
      StepKeepsInv(After(s, steps[..|steps| - 1], cap), steps[|steps| - 1], cap);
      StepKeepsExact(After(s, steps[..|steps| - 1], cap), steps[|steps| - 1], cap);
    }
  }

  /** Up to the caps, a reachable suggestion's call count is the length of its
      evidence and the number of distinct transmissions heard for it. */
  lemma ReachableCountsAreExact(s: State, steps: seq<Step>, cap: int, k: Key)
    requires Init(s) && Runs(s, steps, cap) && GroupedEarlyRun(s, steps, cap)
    requires k in After(s, steps, cap).t.suggestions
    requires After(s, steps, cap).t.suggestions[k].callCount <= Limit(cap)
    ensures var n := After(s, steps, cap);
            var r := n.t.suggestions[k];
            && k in n.heard && n.heard[k] <= n.t.calls.Keys
            && r.callCount == |r.evidence|
            && r.callCount == |Transmissions(n.t.calls, n.heard[k])|
  {
    RunKeepsExact(s, steps, cap);
    var n := After(s, steps, cap);
    assert RowGood(n, k, n.t.suggestions[k], Bound(cap));
    ExactRowsCountTransmissions(n.t.calls, n.t.suggestions[k], n.heard[k], Limit(cap));
  }
}
