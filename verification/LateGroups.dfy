/** When a suggestion's count is right, whatever calls are linked to their groups
    too late: a call can be sighted between its insert and its link to the group
    (internal/ingest/handler_calls.go:199-209), and evidence that was cut off is
    no longer recognised. The count is right all through a run if and only if
    every link, sighting and merge of it meets a condition that can be checked
    before the step. */
module LateGroups {
  import opened Sql
  import opened Evidence
  import opened SuggestionRows
  import opened SuggestionTables
  import opened SuggestionRuns
  import opened SuggestionCounts

  ghost predicate CountExact(calls: map<nat, Call>, r: Suggestion, heard: set<nat>) {
    r.callCount == |Transmissions(calls, heard)|
  }

  /** A heard call stands for the transmission. */
  ghost predicate HeardFrom(calls: map<nat, Call>, heard: set<nat>, tx: Transmission) {
    tx in Transmissions(calls, heard)
  }

  // --------------------------------------------------- counting transmissions

  lemma TransmissionsSplit(calls: map<nat, Call>, heard: set<nat>, c: nat)
    requires c in heard && c in calls
    ensures Transmissions(calls, heard) == Transmissions(calls, heard - {c}) + {CallTx(calls, c)}
  {
  }

  lemma SameTransmissions(calls: map<nat, Call>, calls': map<nat, Call>, heard: set<nat>)
    requires forall c <- heard :: (c in calls <==> c in calls') && (c in calls ==> calls[c].group == calls'[c].group)
    ensures Transmissions(calls, heard) == Transmissions(calls', heard)
  {
  }

  lemma WithOne(txs: set<Transmission>, tx: Transmission)
    ensures |txs + {tx}| == |txs| + if tx in txs then 0 else 1
  {
    assert tx in txs ==> txs + {tx} == txs;
  }

  /** Both tables tell the same calls apart. */
  ghost predicate ShareAlike(calls: map<nat, Call>, calls': map<nat, Call>, heard: set<nat>) {
    && heard <= calls.Keys && heard <= calls'.Keys
    && forall c <- heard, d <- heard :: CallTx(calls, c) == CallTx(calls, d) <==> CallTx(calls', c) == CallTx(calls', d)
  }

  lemma {:induction false} SharingAlikeCountsAlike(calls: map<nat, Call>, calls': map<nat, Call>, heard: set<nat>)
    requires ShareAlike(calls, calls', heard)
    ensures |Transmissions(calls, heard)| == |Transmissions(calls', heard)|
  {
    if c :| c in heard {
      var rest := heard - {c};
      SharingAlikeCountsAlike(calls, calls', rest);
      TransmissionsSplit(calls, heard, c);
      TransmissionsSplit(calls', heard, c);
      WithOne(Transmissions(calls, rest), CallTx(calls, c));
      WithOne(Transmissions(calls', rest), CallTx(calls', c));
      assert HeardFrom(calls, rest, CallTx(calls, c)) <==> exists d <- rest :: CallTx(calls, d) == CallTx(calls, c);
      assert HeardFrom(calls', rest, CallTx(calls', c)) <==> exists d <- rest :: CallTx(calls', d) == CallTx(calls', c);
    }
  }

  // ------------------------------------------------------------------- a link

  /** What the calls are once `c` is linked to `g`. */
  function Linked(calls: map<nat, Call>, c: nat, g: nat): map<nat, Call>
    requires c in calls
  {
    calls[c := calls[c].(group := Some(g))]
  }

  /** The call was not heard, or leaves and joins company alike: it shared its old
      transmission with another heard call if and only if it shares its new one. */
  ghost predicate LinkFine(calls: map<nat, Call>, heard: set<nat>, c: nat, g: nat)
    requires c in calls
  {
    c in heard ==>
      (HeardFrom(calls, heard - {c}, CallTx(calls, c)) <==> HeardFrom(calls, heard - {c}, OfGroup(g)))
  }

  /** Linking a call leaves the number of transmissions heard as it is exactly
      then. */
  lemma LinkKeepsTransmissionsIff(calls: map<nat, Call>, heard: set<nat>, c: nat, g: nat)
    requires c in calls && heard <= calls.Keys
    ensures |Transmissions(Linked(calls, c, g), heard)| == |Transmissions(calls, heard)| <==>
            LinkFine(calls, heard, c, g)
  {
    var calls' := Linked(calls, c, g);
    SameTransmissions(calls, calls', heard - {c});
    if c in heard {
      var rest := Transmissions(calls, heard - {c});
      TransmissionsSplit(calls, heard, c);
      TransmissionsSplit(calls', heard, c);
      WithOne(rest, CallTx(calls, c));
      WithOne(rest, OfGroup(g));
    } else {
      assert heard - {c} == heard;
    }
  }

  // --------------------------------------------------------------- a sighting

  /** The sighting clashes with the evidence just when its call's transmission was
      heard before. */
  ghost predicate SightingFine(calls: map<nat, Call>, r: Suggestion, heard: set<nat>, sg: Sighting)
    requires sg.entry.callId in calls
  {
    ClashesAny(sg.entry, r.evidence) <==> HeardFrom(calls, heard, CallTx(calls, sg.entry.callId))
  }

  /** From an exact count, whatever became of the groups since the row and the
      sighting were recorded, a sighting leaves an exact count exactly then. */
  lemma SightingKeepsCountIff(calls: map<nat, Call>, r: Suggestion, heard: set<nat>, sg: Sighting, cap: nat)
    requires heard <= calls.Keys && sg.entry.callId in calls && CountExact(calls, r, heard)
    ensures CountExact(calls, Sighted(r, sg, cap), heard + {sg.entry.callId}) <==> SightingFine(calls, r, heard, sg)
  {
    var c := sg.entry.callId;
    var before := Transmissions(calls, heard);
    TransmissionsSplit(calls, heard + {c}, c);
    if c in heard {
      TransmissionsSplit(calls, heard, c);
    } else {
      assert heard + {c} - {c} == heard;
    }
    WithOne(before, CallTx(calls, c));
    assert Transmissions(calls, heard + {c}) == before + {CallTx(calls, c)} by {
      assert heard + {c} - {c} == heard - {c};
    }
  }

  /** In terms of the row alone, when its evidence speaks for all that was heard:
      the count breaks if and only if the call of some entry now stands for the
      sighting's transmission and no entry clashes by call or recorded group, or
      an entry clashes and no entry's call stands for it any more. */
  lemma SightingBreaksCountIff(calls: map<nat, Call>, r: Suggestion, heard: set<nat>, sg: Sighting, cap: nat)
    requires heard <= calls.Keys && sg.entry.callId in calls && CountExact(calls, r, heard)
    requires forall e <- r.evidence :: e.callId in heard
    requires forall c <- heard ::
               exists e <- r.evidence :: e.callId in calls && CallTx(calls, e.callId) == CallTx(calls, c)
    ensures var stands := exists e <- r.evidence :: CallTx(calls, e.callId) == CallTx(calls, sg.entry.callId);
            !CountExact(calls, Sighted(r, sg, cap), heard + {sg.entry.callId}) <==>
            (stands && !ClashesAny(sg.entry, r.evidence)) || (!stands && ClashesAny(sg.entry, r.evidence))
  {
    SightingKeepsCountIff(calls, r, heard, sg, cap);
  }

  // ------------------------------------------------------------------- a fold

  /** The fold takes off one call for each transmission heard for both rows. */
  ghost predicate FoldFine(calls: map<nat, Call>, t: Suggestion, f: Suggestion, ht: set<nat>, hf: set<nat>) {
    |Duplicates(f.evidence, t.evidence)| == |Transmissions(calls, ht) * Transmissions(calls, hf)|
  }

  /** Folding two exact rows leaves an exact row exactly then. */
  lemma FoldKeepsCountIff(calls: map<nat, Call>, t: Suggestion, f: Suggestion, ht: set<nat>, hf: set<nat>)
    requires CountExact(calls, t, ht) && CountExact(calls, f, hf)
    ensures CountExact(calls, Folded(t, f), ht + hf) <==> FoldFine(calls, t, f, ht, hf)
  {
    assert Transmissions(calls, ht + hf) == Transmissions(calls, ht) + Transmissions(calls, hf);
  }

  // ------------------------------------------------ which calls were heard

  ghost predicate HeardOn(calls: map<nat, Call>, heard: map<Key, set<nat>>) {
    forall k <- heard, c <- heard[k] :: c in calls && calls[c].system == k.system
  }

  ghost predicate SightingOn(t: Tables, sg: Sighting) {
    && sg.entry.callId in t.calls
    && (Live(t, sg.key.system) ==> t.calls[sg.entry.callId].system == sg.key.system)
  }

  ghost predicate FetchedOn(s: State) {
    forall j <- s.fetched, sg <- s.fetched[j].sightings :: SightingOn(s.t, sg)
  }

  /** Every row has its heard calls, and they are calls of its system. */
  ghost predicate HeardInv(s: State) {
    s.heard.Keys == s.t.suggestions.Keys && HeardOn(s.t.calls, s.heard) && FetchedOn(s)
  }

  lemma {:induction false} RecordAllKeepsHeard(calls: map<nat, Call>, rows: Rows, heard: map<Key, set<nat>>,
                                               next: int, sgs: seq<Sighting>, cap: nat)
    requires heard.Keys == rows.Keys && HeardOn(calls, heard)
    requires forall sg <- sgs :: sg.entry.callId in calls && calls[sg.entry.callId].system == sg.key.system
    ensures HearAll(heard, sgs).Keys == RecordAll(rows, next, sgs, cap).Keys && HeardOn(calls, HearAll(heard, sgs))
  {
    if sgs != [] {
      RecordAllKeepsHeard(calls, rows, heard, next, sgs[..|sgs| - 1], cap);
    }
  }

  lemma ApplyKeepsHeard(s: State, k: nat, cap: int)
    requires FetchedInv(s) && HeardInv(s) && k in s.fetched
    ensures HeardInv(AfterApply(s, k, cap))
  {
    var b := s.fetched[k];
    var n := AfterApply(s, k, cap);
    if Apply(s.t, UnitTagSuggestions, b.fromId, b.toId, b.sightings, cap).1 == Applied {
      assert forall sg <- b.sightings :: SightingGood(s, sg) && SightingOn(s.t, sg);
      RecordAllKeepsHeard(s.t.calls, s.t.suggestions, s.heard, s.t.nextId, b.sightings, EffectiveCap(cap));
    }
    assert forall j <- n.fetched :: j in s.fetched && n.fetched[j] == s.fetched[j];
    assert forall sg: Sighting :: SightingOn(n.t, sg) == SightingOn(s.t, sg);
  }

  lemma MergeKeepsHeard(s: State, src: nat, dst: nat, now: int)
    requires HeardInv(s) && src != dst && Live(s.t, dst)
    ensures HeardInv(AfterMerge(s, src, dst, now))
  {
    if src in s.t.deleted {
      var n := AfterMerge(s, src, dst, now);
      var moved := Conflicts(s.t.groups, src, dst);
      forall k
        ensures k in n.heard <==> k in n.t.suggestions
        ensures k in n.heard ==> forall c <- n.heard[k] :: c in n.t.calls && n.t.calls[c].system == k.system
      {
        MergedSuggestionsMean(s.t.suggestions, src, dst, moved, k);
        MergedHeardMeans(s.heard, src, dst, k);
      }
      forall j <- n.fetched, sg <- n.fetched[j].sightings
        ensures SightingOn(n.t, sg)
      {
        assert SightingOn(s.t, sg);
      }
    }
  }

  /** Steps that keep the calls there are on their systems, and the rows. */
  lemma QuietKeepsHeard(s: State, n: State)
    requires FetchedInv(s) && HeardInv(s) && n.heard == s.heard && n.t.suggestions.Keys == s.t.suggestions.Keys
    requires forall c <- s.t.calls :: c in n.t.calls && n.t.calls[c].system == s.t.calls[c].system
    requires forall system :: system in s.t.deleted && Live(n.t, system) ==> Live(s.t, system)
    requires forall j <- n.fetched, sg <- n.fetched[j].sightings ::
               SeenNow(s.t, sg) || (j in s.fetched && sg in s.fetched[j].sightings)
    ensures HeardInv(n)
  {
    forall j <- n.fetched, sg <- n.fetched[j].sightings
      ensures SightingOn(n.t, sg)
    {
      if !SeenNow(s.t, sg) {
        assert SightingGood(s, sg) && SightingOn(s.t, sg);
      }
    }
  }

  lemma IngestKeepsHeard(s: State, step: Step)
    requires FetchedInv(s) && HeardInv(s) && Enabled(s, step) && Ingest(step)
    ensures HeardInv(AfterIngest(s, step))
  {
    IngestKeepsRows(s.t, s.nextGroup, step);
    QuietKeepsHeard(s, AfterIngest(s, step));
  }

  lemma StepKeepsHeard(s: State, step: Step, cap: int)
    requires FetchedInv(s) && HeardInv(s) && Enabled(s, step)
    ensures HeardInv(Next(s, step, cap))
  {
    match step
    case ApplyBatch(j) => ApplyKeepsHeard(s, j, cap);
    case MergeTwo(src, dst, now) => MergeKeepsHeard(s, src, dst, now);
    case FetchBatch(_, _) => QuietKeepsHeard(s, Next(s, step, cap));
    case ApproveOne(id, tag, decidedBy, now) => QuietKeepsHeard(s, s.(t := Approve(s.t, id, tag, decidedBy, now).0));
    case DismissOne(id, decidedBy, now) => QuietKeepsHeard(s, s.(t := Dismiss(s.t, id, decidedBy, now).0));
    case _ => IngestKeepsHeard(s, step);
  }

  lemma {:induction false} RunKeepsHeard(s: State, steps: seq<Step>, cap: int)
    requires Init(s) && Runs(s, steps, cap)
    ensures Inv(After(s, steps, cap), Bound(cap)) && HeardInv(After(s, steps, cap))
    decreases |steps|
  {
    if steps != [] {
      RunKeepsHeard(s, steps[..|steps| - 1], cap);
      StepKeepsInv(After(s, steps[..|steps| - 1], cap), steps[|steps| - 1], cap);
      StepKeepsHeard(After(s, steps[..|steps| - 1], cap), steps[|steps| - 1], cap);
    }
  }

  // ------------------------------------------------------------------ a merge

  /** A merge tells the calls heard for one row apart as before: twins are
      distinct and were not used on the source. */
  lemma MergeSharesAlike(s: State, src: nat, dst: nat, bound: nat, k: Key)
    requires Inv(s, bound) && HeardInv(s) && NoStrays(s, src) && k in s.heard
    requires src != dst && Live(s.t, dst)
    ensures ShareAlike(s.t.calls, MovedCalls(s.t.calls, src, dst, Conflicts(s.t.groups, src, dst)), s.heard[k])
  {
    var moved := Conflicts(s.t.groups, src, dst);
    var calls' := MovedCalls(s.t.calls, src, dst, moved);
    ConflictsAreInjective(s.t.groups, src, dst);
    forall c <- s.heard[k], d <- s.heard[k]
      ensures CallTx(s.t.calls, c) == CallTx(s.t.calls, d) <==> CallTx(calls', c) == CallTx(calls', d)
    {
      var x, y := s.t.calls[c], s.t.calls[d];
      assert GroupOk(s, x.system, x.group) && GroupOk(s, y.system, y.group);
      assert NoStray(s.t, src, x.system, x.group) && NoStray(s.t, src, y.system, y.group);
      assert calls'[c].group == Regrouped(x.group, moved) && calls'[d].group == Regrouped(y.group, moved);
    }
  }

  /** The fold of candidate `k` of the target, if there is one. */
  ghost predicate MergeFine(s: State, src: nat, dst: nat, k: Key) {
    var moved := Conflicts(s.t.groups, src, dst);
    var from := KeyOn(src, k);
    src in s.t.deleted && k.system == dst && k in s.t.suggestions && from in s.t.suggestions ==>
      FoldFine(MovedCalls(s.t.calls, src, dst, moved), s.t.suggestions[k], Remapped(s.t.suggestions[from], moved),
               HeardBy(s.heard, k), HeardBy(s.heard, from))
  }

  ghost predicate CountRight(s: State, k: Key) {
    k in s.heard && k in s.t.suggestions && CountExact(s.t.calls, s.t.suggestions[k], s.heard[k])
  }

  ghost predicate CountsRight(s: State) {
    forall k <- s.t.suggestions :: CountRight(s, k)
  }

  /** A row that is moved, not folded, keeps its count, and the number of
      transmissions. */
  lemma MergeKeepsTransmissions(s: State, src: nat, dst: nat, bound: nat, k: Key)
    requires Inv(s, bound) && HeardInv(s) && NoStrays(s, src) && k in s.heard
    requires src != dst && Live(s.t, dst)
    ensures var calls' := MovedCalls(s.t.calls, src, dst, Conflicts(s.t.groups, src, dst));
            |Transmissions(calls', s.heard[k])| == |Transmissions(s.t.calls, s.heard[k])|
  {
    MergeSharesAlike(s, src, dst, bound, k);
    SharingAlikeCountsAlike(s.t.calls, MovedCalls(s.t.calls, src, dst, Conflicts(s.t.groups, src, dst)), s.heard[k]);
  }

  /** A row that stays on its system alone. */
  lemma MergeKeepsOwnCount(s: State, src: nat, dst: nat, now: int, bound: nat, k: Key)
    requires Inv(s, bound) && HeardInv(s) && NoStrays(s, src)
    requires src != dst && Live(s.t, dst) && src in s.t.deleted && k.system != src
    requires k.system == dst ==> KeyOn(src, k) !in s.t.suggestions
    requires CountRight(s, k)
    ensures CountRight(AfterMerge(s, src, dst, now), k)
  {
    MergedSuggestionsMean(s.t.suggestions, src, dst, Conflicts(s.t.groups, src, dst), k);
    MergedHeardMeans(s.heard, src, dst, k);
    MergeKeepsTransmissions(s, src, dst, bound, k);
    assert MergedHeard(s.heard, src, dst)[k] == s.heard[k];
  }

  /** A row that moves to the target alone. */
  lemma MergeKeepsMovedCount(s: State, src: nat, dst: nat, now: int, bound: nat, k: Key)
    requires Inv(s, bound) && HeardInv(s) && NoStrays(s, src)
    requires src != dst && Live(s.t, dst) && src in s.t.deleted
    requires k.system == dst && k !in s.t.suggestions && CountRight(s, KeyOn(src, k))
    ensures CountRight(AfterMerge(s, src, dst, now), k)
  {
    MergedSuggestionsMean(s.t.suggestions, src, dst, Conflicts(s.t.groups, src, dst), k);
    MergedHeardMeans(s.heard, src, dst, k);
    MergeKeepsTransmissions(s, src, dst, bound, KeyOn(src, k));
    assert MergedHeard(s.heard, src, dst)[k] == s.heard[KeyOn(src, k)];
  }

  /** The two rows that are folded. */
  lemma MergeKeepsFoldedCountIff(s: State, src: nat, dst: nat, now: int, bound: nat, k: Key)
    requires Inv(s, bound) && HeardInv(s) && NoStrays(s, src)
    requires src != dst && Live(s.t, dst) && src in s.t.deleted && k.system == dst
    requires CountRight(s, k) && CountRight(s, KeyOn(src, k))
    ensures CountRight(AfterMerge(s, src, dst, now), k) <==> MergeFine(s, src, dst, k)
  {
    var moved := Conflicts(s.t.groups, src, dst);
    var from := KeyOn(src, k);
    MergedSuggestionsMean(s.t.suggestions, src, dst, moved, k);
    MergedHeardMeans(s.heard, src, dst, k);
    MergeKeepsTransmissions(s, src, dst, bound, k);
    MergeKeepsTransmissions(s, src, dst, bound, from);
    FoldKeepsCountIff(MovedCalls(s.t.calls, src, dst, moved), s.t.suggestions[k],
                      Remapped(s.t.suggestions[from], moved), s.heard[k], s.heard[from]);
  }

  /** The counts of the rows a merge makes the candidate's row of are right. */
  ghost predicate SourcesRight(s: State, src: nat, dst: nat, k: Key) {
    && (k in s.t.suggestions ==> CountRight(s, k))
    && (k.system == dst && KeyOn(src, k) in s.t.suggestions ==> CountRight(s, KeyOn(src, k)))
  }

  /** A merge leaves a candidate's count exact if and only if the fold of its two
      rows, if it had two, takes off what both had heard. */
  lemma MergeKeepsCountIff(s: State, src: nat, dst: nat, now: int, cap: int, k: Key)
    requires Inv(s, Bound(cap)) && HeardInv(s) && Enabled(s, MergeTwo(src, dst, now))
    requires SourcesRight(s, src, dst, k)
    ensures k in AfterMerge(s, src, dst, now).t.suggestions ==>
              (CountRight(AfterMerge(s, src, dst, now), k) <==> MergeFine(s, src, dst, k))
  {
    if Live(s.t, src) {
      LiveHasNoStrays(s, src, Bound(cap));
    }
    if src in s.t.deleted && k in AfterMerge(s, src, dst, now).t.suggestions {
      MergedSuggestionsMean(s.t.suggestions, src, dst, Conflicts(s.t.groups, src, dst), k);
      if k.system == dst && KeyOn(src, k) in s.t.suggestions {
        if k in s.t.suggestions {
          MergeKeepsFoldedCountIff(s, src, dst, now, Bound(cap), k);
        } else {
          MergeKeepsMovedCount(s, src, dst, now, Bound(cap), k);
        }
      } else {
        MergeKeepsOwnCount(s, src, dst, now, Bound(cap), k);
      }
    }
  }

  // ------------------------------------------------------------------ a batch

  ghost predicate RowsRight(calls: map<nat, Call>, rows: Rows, heard: map<Key, set<nat>>) {
    heard.Keys == rows.Keys && forall k <- rows :: CountExact(calls, rows[k], heard[k])
  }

  /** After every sighting of the batch. */
  ghost predicate BatchRight(calls: map<nat, Call>, rows: Rows, heard: map<Key, set<nat>>,
                             next: int, sgs: seq<Sighting>, cap: nat) {
    && RowsRight(calls, RecordAll(rows, next, sgs, cap), HearAll(heard, sgs))
    && (sgs == [] || BatchRight(calls, rows, heard, next, sgs[..|sgs| - 1], cap))
  }

  /** Each sighting meets its condition when its turn comes. */
  ghost predicate BatchFine(calls: map<nat, Call>, rows: Rows, heard: map<Key, set<nat>>,
                            next: int, sgs: seq<Sighting>, cap: nat)
    requires forall sg <- sgs :: sg.entry.callId in calls
  {
    sgs == [] ||
    var front, sg := sgs[..|sgs| - 1], sgs[|sgs| - 1];
    && BatchFine(calls, rows, heard, next, front, cap)
    && (sg.key in RecordAll(rows, next, front, cap) ==>
          SightingFine(calls, RecordAll(rows, next, front, cap)[sg.key], HeardBy(HearAll(heard, front), sg.key), sg))
  }

  /** A new row's count is always right. */
  lemma FirstIsRight(calls: map<nat, Call>, sg: Sighting, id: int)
    requires sg.entry.callId in calls
    ensures CountExact(calls, FirstSighting(sg, id), {sg.entry.callId})
  {
    assert Transmissions(calls, {sg.entry.callId}) == {CallTx(calls, sg.entry.callId)};
  }

  /** One upsert touches one row. */
  lemma RecordTouchesOne(calls: map<nat, Call>, rows: Rows, heard: map<Key, set<nat>>, id: int, sg: Sighting, cap: nat)
    requires RowsRight(calls, rows, heard)
    ensures sg.key in Record(rows, id, sg, cap) && sg.key in Hear(heard, sg)
    ensures RowsRight(calls, Record(rows, id, sg, cap), Hear(heard, sg)) <==>
            CountExact(calls, Record(rows, id, sg, cap)[sg.key], Hear(heard, sg)[sg.key])
  {
    var n, h := Record(rows, id, sg, cap), Hear(heard, sg);
    assert h.Keys == n.Keys == rows.Keys + {sg.key};
    forall k <- n | k != sg.key
      ensures k in h && CountExact(calls, n[k], h[k])
    {
      assert CountExact(calls, rows[k], heard[k]);
    }
  }

  lemma RecordKeepsRightIff(calls: map<nat, Call>, rows: Rows, heard: map<Key, set<nat>>, id: int, sg: Sighting,
                            cap: nat)
    requires RowsRight(calls, rows, heard) && HeardOn(calls, heard) && sg.entry.callId in calls
    ensures RowsRight(calls, Record(rows, id, sg, cap), Hear(heard, sg)) <==>
            (sg.key in rows ==> SightingFine(calls, rows[sg.key], HeardBy(heard, sg.key), sg))
  {
    RecordTouchesOne(calls, rows, heard, id, sg, cap);
    if sg.key in rows {
      SightingKeepsCountIff(calls, rows[sg.key], heard[sg.key], sg, cap);
    } else {
      var none: set<nat> := {};
      assert none + {sg.entry.callId} == {sg.entry.callId};
      FirstIsRight(calls, sg, id);
    }
  }

  /** The last sighting of a batch that was right so far. */
  lemma LastKeepsRightIff(calls: map<nat, Call>, rows: Rows, heard: map<Key, set<nat>>,
                          next: int, front: seq<Sighting>, sg: Sighting, cap: nat)
    requires heard.Keys == rows.Keys && HeardOn(calls, heard)
    requires forall x <- front :: x.entry.callId in calls && calls[x.entry.callId].system == x.key.system
    requires sg.entry.callId in calls
    requires RowsRight(calls, RecordAll(rows, next, front, cap), HearAll(heard, front))
    ensures RowsRight(calls, RecordAll(rows, next, front + [sg], cap), HearAll(heard, front + [sg])) <==>
            (sg.key in RecordAll(rows, next, front, cap) ==>
               SightingFine(calls, RecordAll(rows, next, front, cap)[sg.key],
                            HeardBy(HearAll(heard, front), sg.key), sg))
  {
    var sgs := front + [sg];
    assert sgs[..|sgs| - 1] == front;
    RecordAllKeepsHeard(calls, rows, heard, next, front, cap);
    RecordKeepsRightIff(calls, RecordAll(rows, next, front, cap), HearAll(heard, front), next + |front|, sg, cap);
  }

  lemma {:induction false} BatchKeepsRightIff(calls: map<nat, Call>, rows: Rows, heard: map<Key, set<nat>>,
                                              next: int, sgs: seq<Sighting>, cap: nat)
    requires RowsRight(calls, rows, heard) && HeardOn(calls, heard)
    requires forall sg <- sgs :: sg.entry.callId in calls && calls[sg.entry.callId].system == sg.key.system
    ensures BatchRight(calls, rows, heard, next, sgs, cap) <==> BatchFine(calls, rows, heard, next, sgs, cap)
    ensures BatchRight(calls, rows, heard, next, sgs, cap) ==>
              RowsRight(calls, RecordAll(rows, next, sgs, cap), HearAll(heard, sgs))
  {
    if sgs != [] {
      var front, sg := sgs[..|sgs| - 1], sgs[|sgs| - 1];
      BatchKeepsRightIff(calls, rows, heard, next, front, cap);
      if BatchRight(calls, rows, heard, next, front, cap) {
        assert sgs == front + [sg];
        LastKeepsRightIff(calls, rows, heard, next, front, sg, cap);
      }
    }
  }

  // ---------------------------------------------------------------- every step

  ghost predicate Takes(s: State, j: nat, cap: int)
    requires j in s.fetched
  {
    var b := s.fetched[j];
    Apply(s.t, UnitTagSuggestions, b.fromId, b.toId, b.sightings, cap).1 == Applied
  }

  /** What can be checked before the step. */
  ghost predicate StepFine(s: State, step: Step, cap: int)
    requires Enabled(s, step) && FetchedOn(s)
  {
    match step
    case Regroup(c, g) => forall k <- s.heard :: LinkFine(s.t.calls, s.heard[k], c, g)
    case ApplyBatch(j) =>
      assert forall sg <- s.fetched[j].sightings :: SightingOn(s.t, sg);
      Takes(s, j, cap) ==>
        BatchFine(s.t.calls, s.t.suggestions, s.heard, s.t.nextId, s.fetched[j].sightings, EffectiveCap(cap))
    case MergeTwo(src, dst, _) => forall k <- s.t.suggestions :: MergeFine(s, src, dst, k)
    case _ => true
  }

  /** Every count is right after the step and, in a batch, after each sighting. */
  ghost predicate StepRight(s: State, step: Step, cap: int)
    requires Enabled(s, step)
  {
    && CountsRight(Next(s, step, cap))
    && (step.ApplyBatch? && Takes(s, step.scanner, cap) ==>
          BatchRight(s.t.calls, s.t.suggestions, s.heard, s.t.nextId, s.fetched[step.scanner].sightings,
                     EffectiveCap(cap)))
  }

  lemma LinkKeepsCountIff(s: State, c: nat, g: nat, k: Key)
    requires HeardInv(s) && CountRight(s, k) && Enabled(s, Regroup(c, g))
    ensures CountRight(AfterIngest(s, Regroup(c, g)), k) <==> LinkFine(s.t.calls, s.heard[k], c, g)
  {
    assert AfterIngest(s, Regroup(c, g)).t.calls == Linked(s.t.calls, c, g);
    LinkKeepsTransmissionsIff(s.t.calls, s.heard[k], c, g);
  }

  lemma LinkIsRightIff(s: State, c: nat, g: nat, cap: int)
    requires HeardInv(s) && CountsRight(s) && Enabled(s, Regroup(c, g))
    ensures StepRight(s, Regroup(c, g), cap) <==> StepFine(s, Regroup(c, g), cap)
  {
    var n := AfterIngest(s, Regroup(c, g));
    forall k <- s.heard
      ensures CountRight(n, k) <==> LinkFine(s.t.calls, s.heard[k], c, g)
    {
      LinkKeepsCountIff(s, c, g, k);
    }
  }

  lemma BatchIsRightIff(s: State, j: nat, cap: int)
    requires FetchedInv(s) && HeardInv(s) && CountsRight(s) && j in s.fetched
    ensures StepRight(s, ApplyBatch(j), cap) <==> StepFine(s, ApplyBatch(j), cap)
  {
    var b := s.fetched[j];
    var n := Next(s, ApplyBatch(j), cap);
    if Takes(s, j, cap) {
      assert forall k <- s.t.suggestions :: CountRight(s, k);
      assert forall sg <- b.sightings :: SightingGood(s, sg) && SightingOn(s.t, sg);
      BatchKeepsRightIff(s.t.calls, s.t.suggestions, s.heard, s.t.nextId, b.sightings, EffectiveCap(cap));
      assert RowsRight(n.t.calls, n.t.suggestions, n.heard) ==> CountsRight(n);
    } else {
      assert forall k <- n.t.suggestions :: CountRight(s, k) && CountRight(n, k);
    }
  }

  lemma MergeIsRightIff(s: State, src: nat, dst: nat, now: int, cap: int)
    requires Inv(s, Bound(cap)) && HeardInv(s) && CountsRight(s) && Enabled(s, MergeTwo(src, dst, now))
    ensures StepRight(s, MergeTwo(src, dst, now), cap) <==> StepFine(s, MergeTwo(src, dst, now), cap)
  {
    var n := AfterMerge(s, src, dst, now);
    forall k <- n.t.suggestions
      ensures CountRight(n, k) <==> MergeFine(s, src, dst, k)
    {
      MergeKeepsCountIff(s, src, dst, now, cap, k);
    }
    forall k <- s.t.suggestions | k !in n.t.suggestions
      ensures MergeFine(s, src, dst, k)
    {
      MergedSuggestionsMean(s.t.suggestions, src, dst, Conflicts(s.t.groups, src, dst), k);
    }
    forall k <- n.t.suggestions | k !in s.t.suggestions
      ensures MergeFine(s, src, dst, k)
    {
    }
  }

  lemma OtherStepsAreRight(s: State, step: Step, cap: int)
    requires HeardInv(s) && CountsRight(s) && Enabled(s, step)
    requires !step.Regroup? && !step.ApplyBatch? && !step.MergeTwo?
    ensures StepRight(s, step, cap)
  {
    if Ingest(step) {
      IngestKeepsRight(s, step);
    } else if step.FetchBatch? {
      QuietKeepsRight(s, s.(fetched := s.fetched[step.scanner := step.batch]));
    } else if step.ApproveOne? {
      QuietKeepsRight(s, s.(t := Approve(s.t, step.id, step.tag, step.decidedBy, step.now).0));
    } else {
      QuietKeepsRight(s, s.(t := Dismiss(s.t, step.id, step.decidedBy, step.now).0));
    }
  }

  lemma IngestKeepsRight(s: State, step: Step)
    requires HeardInv(s) && CountsRight(s) && Enabled(s, step) && Ingest(step) && !step.Regroup?
    ensures CountsRight(AfterIngest(s, step))
  {
    IngestKeepsRows(s.t, s.nextGroup, step);
    QuietKeepsRight(s, AfterIngest(s, step));
  }

  lemma QuietKeepsRight(s: State, n: State)
    requires HeardInv(s) && CountsRight(s) && n.heard == s.heard && n.t.suggestions.Keys == s.t.suggestions.Keys
    requires forall k <- s.t.suggestions :: n.t.suggestions[k].callCount == s.t.suggestions[k].callCount
    requires forall c <- s.t.calls :: c in n.t.calls && n.t.calls[c] == s.t.calls[c]
    ensures CountsRight(n)
  {
    forall k <- n.t.suggestions
      ensures CountRight(n, k)
    {
      assert CountRight(s, k);
      SameTransmissions(s.t.calls, n.t.calls, s.heard[k]);
    }
  }

  /** From exact counts a step leaves exact counts if and only if it meets its
      condition. */
  lemma StepIsRightIff(s: State, step: Step, cap: int)
    requires Inv(s, Bound(cap)) && HeardInv(s) && CountsRight(s) && Enabled(s, step)
    ensures StepRight(s, step, cap) <==> StepFine(s, step, cap)
  {
    match step
    case Regroup(c, g) => LinkIsRightIff(s, c, g, cap);
    case ApplyBatch(j) => BatchIsRightIff(s, j, cap);
    case MergeTwo(src, dst, now) => MergeIsRightIff(s, src, dst, now, cap);
    case _ => OtherStepsAreRight(s, step, cap);
  }

  // -------------------------------------------------------------- main results

  ghost predicate AlwaysRight(s: State, steps: seq<Step>, cap: int)
    requires Runs(s, steps, cap)
    decreases |steps|
  {
    steps == [] ||
    (AlwaysRight(s, steps[..|steps| - 1], cap) &&
     StepRight(After(s, steps[..|steps| - 1], cap), steps[|steps| - 1], cap))
  }

  ghost predicate AlwaysFine(s: State, steps: seq<Step>, cap: int)
    requires Init(s) && Runs(s, steps, cap)
    decreases |steps|
  {
    steps == [] ||
    var front := steps[..|steps| - 1];
    RunKeepsHeard(s, front, cap);
    AlwaysFine(s, front, cap) && StepFine(After(s, front, cap), steps[|steps| - 1], cap)
  }

  /** All through any run from the start every count is the number of distinct
      transmissions heard, if and only if every link, sighting and merge of the run
      meets its condition. */
  lemma {:induction false} CountsStayRightIff(s: State, steps: seq<Step>, cap: int)
    requires Init(s) && Runs(s, steps, cap)
    ensures AlwaysRight(s, steps, cap) <==> AlwaysFine(s, steps, cap)
    ensures AlwaysRight(s, steps, cap) ==> CountsRight(After(s, steps, cap))
    decreases |steps|
  {
    if steps != [] {
      var front := steps[..|steps| - 1];
      RunKeepsHeard(s, front, cap);
      CountsStayRightIff(s, front, cap);
      if CountsRight(After(s, front, cap)) {
        StepIsRightIff(After(s, front, cap), steps[|steps| - 1], cap);
      }
    }
  }

  /** In any reachable state, for any row whose count is right: one more link of a
      call, in time or not, leaves it right if and only if the call was not heard
      for it, or leaves and joins company alike. */
  lemma LateLinkKeepsCountIff(s: State, steps: seq<Step>, cap: int, k: Key, c: nat, g: nat)
    requires Init(s) && Runs(s, steps, cap) && CountRight(After(s, steps, cap), k)
    requires Enabled(After(s, steps, cap), Regroup(c, g))
    ensures var n := After(s, steps, cap);
            CountRight(Next(n, Regroup(c, g), cap), k) <==> LinkFine(n.t.calls, n.heard[k], c, g)
  {
    RunKeepsHeard(s, steps, cap);
    LinkKeepsCountIff(After(s, steps, cap), c, g, k);
  }

  /** And for the one or two rows a merge brings to the target: it leaves a right
      count if and only if their fold takes off as many calls as transmissions
      were heard for both. */
  lemma MergeLeavesCountRightIff(s: State, steps: seq<Step>, cap: int, src: nat, dst: nat, now: int, k: Key)
    requires Init(s) && Runs(s, steps, cap) && Enabled(After(s, steps, cap), MergeTwo(src, dst, now))
    requires SourcesRight(After(s, steps, cap), src, dst, k)
    ensures k in AfterMerge(After(s, steps, cap), src, dst, now).t.suggestions ==>
              (CountRight(AfterMerge(After(s, steps, cap), src, dst, now), k) <==>
               MergeFine(After(s, steps, cap), src, dst, k))
  {
    RunKeepsHeard(s, steps, cap);
    MergeKeepsCountIff(After(s, steps, cap), src, dst, now, cap, k);
  }
}
