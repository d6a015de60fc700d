/** The suggestion protocol as a state machine: scanners fetch batches that may
    be stale when they are applied, while systems are merged and suggestions are
    approved and dismissed (internal/database/unit_tag_suggestions.go:339-417
    and 550-659, systems.go:153-420). Every locked transaction is one step. */
module SuggestionRuns {
  import opened Sql
  import opened Evidence
  import opened SuggestionRows
  import opened SuggestionTables
  import opened ArchiveImport

  /** What a scanner holds between its fetch and its write. */
  datatype Batch = Batch(fromId: int, toId: int, sightings: seq<Sighting>)

  datatype Range = Range(fromId: int, toId: int)

  /** `applied` records the ranges of the batches applied so far and `heard`
      the calls whose sightings were recorded for each candidate. */
  datatype State = State(
    t: Tables, nextGroup: nat, fetched: map<nat, Batch>,
    applied: seq<Range>, heard: map<Key, set<nat>>)

  datatype Step =
    | NewSystem(system: nat)
    | NewGroup(callGroup: CallGroup)
    | NewCall(callId: nat, call: Call)
    | Regroup(callId: nat, group: nat)
    | PurgeGroup(group: nat)
    | WriteUnit(unit: RowKey, row: UnitRow)
    | FetchBatch(scanner: nat, batch: Batch)
    | ApplyBatch(scanner: nat)
    | ApproveOne(id: int, tag: string, decidedBy: string, now: int)
    | DismissOne(id: int, decidedBy: string, now: int)
    | MergeTwo(src: nat, dst: nat, now: int)

  ghost predicate Init(s: State) {
    s == State(Tables(map[], map[], map[], map[], map[], map[], 1, map[UnitTagSuggestions := 0]), 1, map[], [], map[])
  }

  /** A sighting as the scanner builds it from a row of its fetch. */
  ghost predicate SeenNow(t: Tables, sg: Sighting) {
    && sg.occurrences >= 1
    && Live(t, sg.key.system)
    && sg.entry.callId in t.calls
    && t.calls[sg.entry.callId] == Call(sg.key.system, sg.entry.group)
  }

  ghost predicate Gone(t: Tables, system: nat) {
    system in t.deleted && t.deleted[system]
  }

  /** Ingest stores a call and then links it to a group of the system it was
      stored on, which may have been merged away in between. */
  ghost predicate Linkable(t: Tables, system: nat, group: nat) {
    group in t.groups && (t.groups[group].system == system || Gone(t, t.groups[group].system))
  }

  /** Not a group of `src` referred to from another system. */
  ghost predicate NoStray(t: Tables, src: nat, system: nat, group: Option<nat>) {
    group.Some? && group.value in t.groups && t.groups[group.value].system == src ==> system == src
  }

  ghost predicate NoStrays(s: State, src: nat) {
    && (forall c <- s.t.calls :: NoStray(s.t, src, s.t.calls[c].system, s.t.calls[c].group))
    && (forall k <- s.t.suggestions, e <- s.t.suggestions[k].evidence :: NoStray(s.t, src, k.system, e.group))
    && (forall j <- s.fetched, sg <- s.fetched[j].sightings ::
          Live(s.t, sg.key.system) ==> NoStray(s.t, src, sg.key.system, sg.entry.group))
  }

  /** No two groups share (system, tgid, start_time); a merge's target is live; a
      source that was merged away before is merged again only when nothing moved
      away from it still refers to a group of it. */
  ghost predicate Enabled(s: State, step: Step) {
    match step
    case NewSystem(system) => system !in s.t.deleted
    case NewGroup(g) => g.system in s.t.deleted && g !in s.t.groups.Values
    case NewCall(c, call) =>
      && c !in s.t.calls && call.system in s.t.deleted
      && (call.group.Some? ==> Linkable(s.t, call.system, call.group.value))
    case Regroup(c, g) => c in s.t.calls && Linkable(s.t, s.t.calls[c].system, g)
    case PurgeGroup(g) => g in s.t.groups
    case WriteUnit(_, _) => true
    case FetchBatch(_, b) => b.fromId < b.toId && forall sg <- b.sightings :: SeenNow(s.t, sg)
    case ApplyBatch(k) => k in s.fetched
    case ApproveOne(_, _, _, _) => true
    case DismissOne(_, _, _) => true
    case MergeTwo(src, dst, _) => src != dst && Live(s.t, dst) && (Live(s.t, src) || NoStrays(s, src))
  }

  function Hear(heard: map<Key, set<nat>>, sg: Sighting): map<Key, set<nat>> {
    heard[sg.key := (if sg.key in heard then heard[sg.key] else {}) + {sg.entry.callId}]
  }

  function HearAll(heard: map<Key, set<nat>>, sgs: seq<Sighting>): map<Key, set<nat>> {
    if sgs == [] then heard else Hear(HearAll(heard, sgs[..|sgs| - 1]), sgs[|sgs| - 1])
  }

  function HeardBy(heard: map<Key, set<nat>>, k: Key): set<nat> {
    if k in heard then heard[k] else {}
  }

  function MergedHeard(heard: map<Key, set<nat>>, src: nat, dst: nat): map<Key, set<nat>> {
    map k | k in heard.Keys + (set l <- heard | l.system == src :: KeyOn(dst, l)) && k.system != src ::
      HeardBy(heard, k) + if k.system == dst then HeardBy(heard, KeyOn(src, k)) else {}
  }

  /** The batch is written if the cursor is still where it was fetched and no
      system it names was merged away; it is dropped otherwise. */
  function AfterApply(s: State, k: nat, cap: int): State
    requires k in s.fetched
  {
    var b := s.fetched[k];
    var (t, outcome) := Apply(s.t, UnitTagSuggestions, b.fromId, b.toId, b.sightings, cap);
    if outcome != Applied then s.(fetched := s.fetched - {k})
    else State(t, s.nextGroup, s.fetched - {k}, s.applied + [Range(b.fromId, b.toId)], HearAll(s.heard, b.sightings))
  }

  ghost function AfterMerge(s: State, src: nat, dst: nat, now: int): State {
    var (t, merged) := Merge(s.t, src, dst, now);
    if merged then s.(t := t, heard := MergedHeard(s.heard, src, dst)) else s
  }

  /** The steps of ingest and of unit edits. */
  ghost predicate Ingest(step: Step) {
    step.NewSystem? || step.NewGroup? || step.NewCall? || step.Regroup? || step.PurgeGroup? || step.WriteUnit?
  }

  ghost function IngestTables(t: Tables, nextGroup: nat, step: Step): Tables
    requires Ingest(step)
    requires step.Regroup? ==> step.callId in t.calls
  {
    match step
    case NewSystem(system) => t.(deleted := t.deleted[system := false])
    case NewGroup(g) => t.(groups := t.groups[nextGroup := g])
    case NewCall(c, call) => t.(calls := t.calls[c := call])
    case Regroup(c, g) => t.(calls := t.calls[c := t.calls[c].(group := Some(g))])
    case PurgeGroup(g) => t.(groups := t.groups - {g})
    case WriteUnit(u, row) => t.(units := t.units[u := row])
  }

  ghost function AfterIngest(s: State, step: Step): State
    requires Enabled(s, step) && Ingest(step)
  {
    State(IngestTables(s.t, s.nextGroup, step), if step.NewGroup? then s.nextGroup + 1 else s.nextGroup,
          s.fetched, s.applied, s.heard)
  }

  ghost function Next(s: State, step: Step, cap: int): State
    requires Enabled(s, step)
  {
    match step
    case FetchBatch(k, b) => s.(fetched := s.fetched[k := b])
    case ApplyBatch(k) => AfterApply(s, k, cap)
    case ApproveOne(id, tag, decidedBy, now) => s.(t := Approve(s.t, id, tag, decidedBy, now).0)
    case DismissOne(id, decidedBy, now) => s.(t := Dismiss(s.t, id, decidedBy, now).0)
    case MergeTwo(src, dst, now) => AfterMerge(s, src, dst, now)
    case _ => AfterIngest(s, step)
  }

  ghost predicate Runs(s: State, steps: seq<Step>, cap: int)
    decreases |steps|, 0
  {
    steps == [] ||
    (Runs(s, steps[..|steps| - 1], cap) && Enabled(After(s, steps[..|steps| - 1], cap), steps[|steps| - 1]))
  }

  /** The state after a run; the cap is the scanners' EvidenceCap option. */
  ghost function After(s: State, steps: seq<Step>, cap: int): State
    requires Runs(s, steps, cap)
    decreases |steps|, 1
  {
    if steps == [] then s
    else Next(After(s, steps[..|steps| - 1], cap), steps[|steps| - 1], cap)
  }

  // ----------------------------------------------------------- the invariant

  /** A recorded group ID was issued and, while its group exists, belongs to the
      system of the row that records it or to one merged away. */
  ghost predicate GroupOk(s: State, system: nat, group: Option<nat>) {
    group.Some? ==> group.value < s.nextGroup && (group.value in s.t.groups ==> Linkable(s.t, system, group.value))
  }

  ghost predicate RowGood(s: State, k: Key, r: Suggestion, bound: nat) {
    && RowOk(r, bound)
    && Live(s.t, k.system)
    && forall e <- r.evidence :: GroupOk(s, k.system, e.group)
  }

  ghost predicate SightingGood(s: State, sg: Sighting) {
    && sg.occurrences >= 1
    && sg.key.system in s.t.deleted
    && (Live(s.t, sg.key.system) ==> GroupOk(s, sg.key.system, sg.entry.group))
  }

  ghost predicate RowsInv(s: State, bound: nat) {
    forall k <- s.t.suggestions :: RowGood(s, k, s.t.suggestions[k], bound)
  }

  ghost predicate FetchedInv(s: State) {
    forall k <- s.fetched ::
      s.fetched[k].fromId < s.fetched[k].toId && forall sg <- s.fetched[k].sightings :: SightingGood(s, sg)
  }

  ghost predicate GroupsInv(s: State) {
    && GroupsUnique(s.t.groups)
    && (forall g <- s.t.groups :: g < s.nextGroup && s.t.groups[g].system in s.t.deleted)
    && (forall c <- s.t.calls :: GroupOk(s, s.t.calls[c].system, s.t.calls[c].group))
  }

  /** The ranges join up from 0 to `last`. */
  ghost predicate Chain(ranges: seq<Range>, last: int) {
    && (forall i :: 0 <= i < |ranges| ==> ranges[i].fromId < ranges[i].toId)
    && (forall i :: 0 < i < |ranges| ==> ranges[i].fromId == ranges[i - 1].toId)
    && (if ranges == [] then last == 0 else ranges[0].fromId == 0 && ranges[|ranges| - 1].toId == last)
  }

  ghost predicate CursorInv(s: State) {
    UnitTagSuggestions in s.t.cursors && Chain(s.applied, s.t.cursors[UnitTagSuggestions])
  }

  ghost predicate Inv(s: State, bound: nat) {
    RowsInv(s, bound) && FetchedInv(s) && GroupsInv(s) && CursorInv(s) && IdsUnique(s.t)
  }

  /** The longest evidence list the scanners' cap and the fold's can leave. */
  function Bound(cap: int): nat {
    if EffectiveCap(cap) >= FOLD_CAP then EffectiveCap(cap) else FOLD_CAP
  }

  // ------------------------------------------------------------------- apply

  lemma RecordKeepsRow(s: State, rows: Rows, id: int, sg: Sighting, cap: nat, bound: nat, k: Key)
    requires forall l <- rows :: RowGood(s, l, rows[l], bound)
    requires SightingGood(s, sg) && Live(s.t, sg.key.system) && 1 <= cap <= bound
    requires k in Record(rows, id, sg, cap)
    ensures RowGood(s, k, Record(rows, id, sg, cap)[k], bound)
  {
    if k == sg.key && k in rows {
      SightedIsOk(rows[k], sg, cap, bound);
      SightedEvidenceComesFrom(rows[k], sg, cap);
    }
  }

  lemma {:induction false} RecordAllKeepsRows(s: State, rows: Rows, next: int, sgs: seq<Sighting>, cap: nat, bound: nat)
    requires forall l <- rows :: RowGood(s, l, rows[l], bound)
    requires forall sg <- sgs :: SightingGood(s, sg) && Live(s.t, sg.key.system)
    requires 1 <= cap <= bound
    ensures forall l <- RecordAll(rows, next, sgs, cap) :: RowGood(s, l, RecordAll(rows, next, sgs, cap)[l], bound)
  {
    if sgs != [] {
      var front, sg, id := sgs[..|sgs| - 1], sgs[|sgs| - 1], next + |sgs| - 1;
      RecordAllKeepsRows(s, rows, next, front, cap, bound);
      var before := RecordAll(rows, next, front, cap);
      var after := Record(before, id, sg, cap);
      forall l <- after
        ensures RowGood(s, l, after[l], bound)
      {
        RecordKeepsRow(s, before, id, sg, cap, bound, l);
      }
    }
  }

  ghost predicate IdsBelow(rows: Rows, next: int) {
    && (forall k <- rows :: rows[k].id < next)
    && (forall k <- rows, l <- rows :: rows[k].id == rows[l].id ==> k == l)
  }

  lemma {:induction false} RecordAllKeepsIds(rows: Rows, next: int, sgs: seq<Sighting>, cap: nat)
    requires IdsBelow(rows, next)
    ensures IdsBelow(RecordAll(rows, next, sgs, cap), next + |sgs|)
  {
    if sgs != [] {
      RecordAllKeepsIds(rows, next, sgs[..|sgs| - 1], cap);
    }
  }

  lemma {:induction false} RecordAllKeepsDecisions(rows: Rows, next: int, sgs: seq<Sighting>, cap: nat, k: Key)
    requires k in rows
    ensures k in RecordAll(rows, next, sgs, cap)
    ensures RecordAll(rows, next, sgs, cap)[k].decision == rows[k].decision
  {
    if sgs != [] {
      RecordAllKeepsDecisions(rows, next, sgs[..|sgs| - 1], cap, k);
    }
  }

  /** A range is applied only at the cursor, and no sighting on a system that
      was merged away since the fetch is written. */
  lemma ApplyKeepsInv(s: State, k: nat, cap: int)
    requires Inv(s, Bound(cap)) && k in s.fetched
    ensures Inv(AfterApply(s, k, cap), Bound(cap))
  {
    var b := s.fetched[k];
    var n := AfterApply(s, k, cap);
    if Apply(s.t, UnitTagSuggestions, b.fromId, b.toId, b.sightings, cap).1 == Applied {
      RecordAllKeepsRows(s, s.t.suggestions, s.t.nextId, b.sightings, EffectiveCap(cap), Bound(cap));
      RecordAllKeepsIds(s.t.suggestions, s.t.nextId, b.sightings, EffectiveCap(cap));
      SameGroupsKeepInv(s, n, Bound(cap));
    } else {
      SameGroupsKeepInv(s, n, Bound(cap));
    }
  }

  /** Every part of the invariant but the cursor's follows when the systems,
      groups and calls stay and the rows are good. */
  lemma SameGroupsKeepInv(s: State, n: State, bound: nat)
    requires Inv(s, bound)
    requires n.t.deleted == s.t.deleted && n.t.groups == s.t.groups && n.t.calls == s.t.calls &&
             n.nextGroup == s.nextGroup
    requires forall j <- n.fetched :: j in s.fetched && n.fetched[j] == s.fetched[j]
    requires forall k <- n.t.suggestions :: RowGood(s, k, n.t.suggestions[k], bound)
    ensures RowsInv(n, bound) && FetchedInv(n) && GroupsInv(n)
  {
    forall k <- n.t.suggestions
      ensures RowGood(n, k, n.t.suggestions[k], bound)
    {
      assert RowGood(s, k, n.t.suggestions[k], bound);
      assert forall e <- n.t.suggestions[k].evidence :: GroupOk(s, k.system, e.group) == GroupOk(n, k.system, e.group);
    }
    forall j <- n.fetched, sg <- n.fetched[j].sightings
      ensures SightingGood(n, sg)
    {
      assert SightingGood(s, sg);
    }
    forall c <- n.t.calls
      ensures GroupOk(n, n.t.calls[c].system, n.t.calls[c].group)
    {
      assert GroupOk(s, s.t.calls[c].system, s.t.calls[c].group);
    }
  }

  // ------------------------------------------------------------------- merge

  /** Pointing a row's evidence at the twins of its groups keeps its entries apart
      if and only if none of them already records such a twin. */
  lemma RemapKeepsApartIff(groups: map<nat, CallGroup>, src: nat, dst: nat, r: Suggestion)
    requires GroupsUnique(groups) && src != dst && Apart(r.evidence)
    ensures var moved := Conflicts(groups, src, dst);
            Apart(Remapped(r, moved).evidence) <==>
            !exists x <- r.evidence, y <- r.evidence ::
              x.group.Some? && x.group.value in moved && y.group == Some(moved[x.group.value])
  {
    var moved := Conflicts(groups, src, dst);
    ConflictsAreInjective(groups, src, dst);
    var ev, ev' := r.evidence, Remapped(r, moved).evidence;
    if x, y :| x in ev && y in ev && x.group.Some? && x.group.value in moved && y.group == Some(moved[x.group.value]) {
      var i :| 0 <= i < |ev| && ev[i] == x;
      var j :| 0 <= j < |ev| && ev[j] == y;
      assert Clash(ev'[i], ev'[j]) && Clash(ev'[j], ev'[i]);
    } else {
      forall i, j | 0 <= i < j < |ev|
        ensures !Clash(ev'[i], ev'[j])
      {
        assert ev[i] in ev && ev[j] in ev && !Clash(ev[i], ev[j]);
      }
    }
  }

  /** A source row of a merge does not record the target's groups. */
  lemma RemappedKeepsRow(s: State, k: Key, r: Suggestion, dst: nat, bound: nat)
    requires GroupsInv(s) && RowGood(s, k, r, bound) && k.system != dst && Live(s.t, dst)
    ensures var moved := Conflicts(s.t.groups, k.system, dst);
            && RowOk(Remapped(r, moved), bound)
            && |Remapped(r, moved).evidence| == |r.evidence|
  {
    ConflictsAreInjective(s.t.groups, k.system, dst);
    RemapKeepsApartIff(s.t.groups, k.system, dst, r);
    forall e <- r.evidence
      ensures GroupOk(s, k.system, e.group)
    {
    }
  }

  /** A group recorded on a surviving system keeps its meaning over a merge. */
  lemma MergeKeepsGroup(s: State, src: nat, dst: nat, now: int, system: nat, group: Option<nat>)
    requires GroupsInv(s) && src != dst && Live(s.t, dst) && src in s.t.deleted
    requires GroupOk(s, system, group) && NoStray(s.t, src, system, group)
    ensures system != src ==> GroupOk(AfterMerge(s, src, dst, now), system, group)
    ensures system != src ==> Regrouped(group, Conflicts(s.t.groups, src, dst)) == group
    ensures system == src ==>
              GroupOk(AfterMerge(s, src, dst, now), dst, Regrouped(group, Conflicts(s.t.groups, src, dst)))
  {
    ConflictsAreInjective(s.t.groups, src, dst);
  }

  lemma MergeKeepsEvidenceGroups(s: State, src: nat, dst: nat, now: int, k: Key, r: Suggestion)
    requires GroupsInv(s) && src != dst && Live(s.t, dst) && src in s.t.deleted
    requires forall e <- r.evidence :: GroupOk(s, k.system, e.group) && NoStray(s.t, src, k.system, e.group)
    ensures k.system != src ==>
              forall e <- r.evidence :: GroupOk(AfterMerge(s, src, dst, now), k.system, e.group)
    ensures k.system == src ==>
              forall e <- Remapped(r, Conflicts(s.t.groups, src, dst)).evidence ::
                GroupOk(AfterMerge(s, src, dst, now), dst, e.group)
  {
    var n := AfterMerge(s, src, dst, now);
    forall e <- r.evidence
      ensures k.system != src ==> GroupOk(n, k.system, e.group)
    {
      MergeKeepsGroup(s, src, dst, now, k.system, e.group);
    }
    var f := Remapped(r, Conflicts(s.t.groups, src, dst));
    if k.system == src {
      forall e <- f.evidence
        ensures GroupOk(n, dst, e.group)
      {
        var i :| 0 <= i < |f.evidence| && f.evidence[i] == e;
        assert r.evidence[i] in r.evidence;
        MergeKeepsGroup(s, src, dst, now, src, r.evidence[i].group);
      }
    }
  }

  /** Nothing strays from a system that is live. */
  lemma LiveHasNoStrays(s: State, src: nat, bound: nat)
    requires Inv(s, bound) && Live(s.t, src)
    ensures NoStrays(s, src)
  {
    forall c <- s.t.calls
      ensures NoStray(s.t, src, s.t.calls[c].system, s.t.calls[c].group)
    {
      assert GroupOk(s, s.t.calls[c].system, s.t.calls[c].group);
    }
    forall k <- s.t.suggestions, e <- s.t.suggestions[k].evidence
      ensures NoStray(s.t, src, k.system, e.group)
    {
      assert RowGood(s, k, s.t.suggestions[k], bound) && GroupOk(s, k.system, e.group);
    }
    forall j <- s.fetched, sg <- s.fetched[j].sightings | Live(s.t, sg.key.system)
      ensures NoStray(s.t, src, sg.key.system, sg.entry.group)
    {
      assert SightingGood(s, sg);
    }
  }

  lemma MergeKeepsRows(s: State, src: nat, dst: nat, now: int, bound: nat, k: Key)
    requires Inv(s, bound) && bound >= FOLD_CAP && NoStrays(s, src)
    requires src != dst && Live(s.t, dst) && src in s.t.deleted
    ensures k in AfterMerge(s, src, dst, now).t.suggestions ==>
              RowGood(AfterMerge(s, src, dst, now), k, AfterMerge(s, src, dst, now).t.suggestions[k], bound)
  {
    var rows := s.t.suggestions;
    var moved := Conflicts(s.t.groups, src, dst);
    MergedSuggestionsMean(rows, src, dst, moved, k);
    if k in rows {
      MergeKeepsEvidenceGroups(s, src, dst, now, k, rows[k]);
    }
    var from := KeyOn(src, k);
    if k.system == dst && from in rows {
      var f := Remapped(rows[from], moved);
      RemappedKeepsRow(s, from, rows[from], dst, bound);
      MergeKeepsEvidenceGroups(s, src, dst, now, from, rows[from]);
      if k in rows {
        FoldedIsOk(rows[k], f, bound);
        FoldedEvidenceComesFrom(rows[k], f);
      }
    }
  }

  /** A batch fetched before the merge stays good: its sightings on the source
      system are now on a deleted system, the others are untouched. */
  lemma MergeKeepsTheRest(s: State, src: nat, dst: nat, now: int, bound: nat)
    requires Inv(s, bound) && NoStrays(s, src)
    requires src != dst && Live(s.t, dst) && src in s.t.deleted
    ensures var n := AfterMerge(s, src, dst, now);
            FetchedInv(n) && GroupsInv(n) && CursorInv(n)
  {
    var n := AfterMerge(s, src, dst, now);
    ConflictsAreInjective(s.t.groups, src, dst);
    forall j <- n.fetched, sg <- n.fetched[j].sightings
      ensures SightingGood(n, sg)
    {
      assert SightingGood(s, sg);
      if Live(n.t, sg.key.system) {
        MergeKeepsGroup(s, src, dst, now, sg.key.system, sg.entry.group);
      }
    }
    forall c <- n.t.calls
      ensures GroupOk(n, n.t.calls[c].system, n.t.calls[c].group)
    {
      MergeKeepsGroup(s, src, dst, now, s.t.calls[c].system, s.t.calls[c].group);
    }
    assert GroupsUnique(n.t.groups) by {
      forall g <- n.t.groups, h <- n.t.groups | n.t.groups[g] == n.t.groups[h]
        ensures g == h
      {
        if s.t.groups[g].system == src && s.t.groups[h].system != src {
          assert Twin(s.t.groups, dst, g, h);
        } else if s.t.groups[g].system != src && s.t.groups[h].system == src {
          assert Twin(s.t.groups, dst, h, g);
        } else {
          assert s.t.groups[g] == s.t.groups[h];
        }
      }
    }
  }

  lemma MergeKeepsIds(t: Tables, src: nat, dst: nat, moved: map<nat, nat>)
    requires IdsUnique(t) && src != dst
    ensures IdsBelow(MergedSuggestions(t.suggestions, src, dst, moved), t.nextId)
  {
    var rows, rows' := t.suggestions, MergedSuggestions(t.suggestions, src, dst, moved);
    forall k <- rows'
      ensures var home := if k in rows then k else KeyOn(src, k);
              home in rows && rows'[k].id == rows[home].id && (k in rows || k == KeyOn(dst, home))
    {
      MergedSuggestionsMean(rows, src, dst, moved, k);
    }
    forall k <- rows', l <- rows' | rows'[k].id == rows'[l].id
      ensures k == l
    {
      MergedSuggestionsMean(rows, src, dst, moved, k);
      MergedSuggestionsMean(rows, src, dst, moved, l);
    }
  }

  lemma MergeKeepsInv(s: State, src: nat, dst: nat, now: int, cap: int)
    requires Inv(s, Bound(cap)) && Enabled(s, MergeTwo(src, dst, now))
    ensures Inv(AfterMerge(s, src, dst, now), Bound(cap))
  {
    if Live(s.t, src) {
      LiveHasNoStrays(s, src, Bound(cap));
    }
    if src in s.t.deleted {
      var n := AfterMerge(s, src, dst, now);
      forall k <- n.t.suggestions
        ensures RowGood(n, k, n.t.suggestions[k], Bound(cap))
      {
        MergeKeepsRows(s, src, dst, now, Bound(cap), k);
      }
      MergeKeepsTheRest(s, src, dst, now, Bound(cap));
      MergeKeepsIds(s.t, src, dst, Conflicts(s.t.groups, src, dst));
    }
  }

  // ------------------------------------------------------- the other steps

  /** Rewriting one row's decision touches nothing the invariant speaks of. */
  lemma DecidingKeepsInv(s: State, k: Key, d: Decision, units: map<RowKey, UnitRow>, bound: nat)
    requires Inv(s, bound) && k in s.t.suggestions
    ensures Inv(s.(t := s.t.(units := units, suggestions :=
                s.t.suggestions[k := s.t.suggestions[k].(decision := d)])), bound)
  {
    var n := s.(t := s.t.(units := units, suggestions := s.t.suggestions[k := s.t.suggestions[k].(decision := d)]));
    forall l <- n.t.suggestions
      ensures RowGood(s, l, n.t.suggestions[l], bound)
    {
      assert RowGood(s, l, s.t.suggestions[l], bound);
    }
    SameGroupsKeepInv(s, n, bound);
  }

  lemma ApproveKeepsInv(s: State, id: int, tag: string, decidedBy: string, now: int, bound: nat)
    requires Inv(s, bound)
    ensures Inv(s.(t := Approve(s.t, id, tag, decidedBy, now).0), bound)
    ensures forall k <- s.t.suggestions | s.t.suggestions[k].decision.status != Pending ::
              Lookup(Approve(s.t, id, tag, decidedBy, now).0.suggestions, k) == Some(s.t.suggestions[k])
  {
    var n := s.(t := Approve(s.t, id, tag, decidedBy, now).0);
    if Approve(s.t, id, tag, decidedBy, now).1.Decided? {
      var k := FindKey(s.t, id).value;
      DecidingKeepsInv(s, k, n.t.suggestions[k].decision, n.t.units, bound);
    }
  }

  lemma DismissKeepsInv(s: State, id: int, decidedBy: string, now: int, bound: nat)
    requires Inv(s, bound)
    ensures Inv(s.(t := Dismiss(s.t, id, decidedBy, now).0), bound)
    ensures forall k <- s.t.suggestions | s.t.suggestions[k].decision.status != Pending ::
              Lookup(Dismiss(s.t, id, decidedBy, now).0.suggestions, k) == Some(s.t.suggestions[k])
  {
    var n := s.(t := Dismiss(s.t, id, decidedBy, now).0);
    if Dismiss(s.t, id, decidedBy, now).1.Decided? {
      var k := FindKey(s.t, id).value;
      DecidingKeepsInv(s, k, n.t.suggestions[k].decision, n.t.units, bound);
    }
  }

  lemma FetchKeepsInv(s: State, k: nat, b: Batch, bound: nat)
    requires Inv(s, bound) && Enabled(s, FetchBatch(k, b))
    ensures Inv(s.(fetched := s.fetched[k := b]), bound)
  {
    forall sg <- b.sightings
      ensures SightingGood(s, sg)
    {
      assert SeenNow(s.t, sg);
      assert GroupOk(s, s.t.calls[sg.entry.callId].system, s.t.calls[sg.entry.callId].group);
    }
    var n := s.(fetched := s.fetched[k := b]);
    SameGroupsKeepInv(s, n.(fetched := s.fetched), bound);
    assert forall sg: Sighting :: SightingGood(s, sg) ==> SightingGood(n, sg);
    forall l <- n.t.suggestions
      ensures RowGood(n, l, n.t.suggestions[l], bound)
    {
      assert RowGood(n.(fetched := s.fetched), l, n.t.suggestions[l], bound);
    }
  }

  /** Recorded groups and live systems last over the steps of ingest. */
  lemma IngestKeepsGroups(s: State, step: Step)
    requires GroupsInv(s) && Enabled(s, step) && Ingest(step)
    ensures GroupsInv(AfterIngest(s, step))
    ensures forall system, group :: GroupOk(s, system, group) ==> GroupOk(AfterIngest(s, step), system, group)
  {
    var n := AfterIngest(s, step);
    assert forall system, group :: GroupOk(s, system, group) ==> GroupOk(n, system, group);
    forall c <- n.t.calls
      ensures GroupOk(n, n.t.calls[c].system, n.t.calls[c].group)
    {
      assert c in s.t.calls ==> GroupOk(s, s.t.calls[c].system, s.t.calls[c].group);
    }
    assert GroupsUnique(n.t.groups);
  }

  lemma IngestKeepsInv(s: State, step: Step, bound: nat)
    requires Inv(s, bound) && Enabled(s, step) && Ingest(step)
    ensures Inv(AfterIngest(s, step), bound)
  {
    var n := AfterIngest(s, step);
    IngestKeepsGroups(s, step);
    IngestKeepsRows(s.t, s.nextGroup, step);
    assert forall system :: system in s.t.deleted ==> system in n.t.deleted && Live(n.t, system) == Live(s.t, system);
    forall k <- n.t.suggestions
      ensures RowGood(n, k, n.t.suggestions[k], bound)
    {
      assert RowGood(s, k, s.t.suggestions[k], bound);
    }
    forall j <- n.fetched, sg <- n.fetched[j].sightings
      ensures SightingGood(n, sg)
    {
      assert SightingGood(s, sg);
    }
  }

  lemma StepKeepsInv(s: State, step: Step, cap: int)
    requires Inv(s, Bound(cap)) && Enabled(s, step)
    ensures Inv(Next(s, step, cap), Bound(cap))
  {
    match step
    case ApplyBatch(k) => ApplyKeepsInv(s, k, cap);
    case MergeTwo(src, dst, now) => MergeKeepsInv(s, src, dst, now, cap);
    case ApproveOne(id, tag, decidedBy, now) => ApproveKeepsInv(s, id, tag, decidedBy, now, Bound(cap));
    case DismissOne(id, decidedBy, now) => DismissKeepsInv(s, id, decidedBy, now, Bound(cap));
    case FetchBatch(k, b) => FetchKeepsInv(s, k, b, Bound(cap));
    case _ => IngestKeepsInv(s, step, Bound(cap));
  }

  lemma {:induction false} RunKeepsInv(s: State, steps: seq<Step>, cap: int)
    requires Init(s) && Runs(s, steps, cap)
    ensures Inv(After(s, steps, cap), Bound(cap))
    decreases |steps|
  {
    if steps != [] {
      RunKeepsInv(s, steps[..|steps| - 1], cap);
      StepKeepsInv(After(s, steps[..|steps| - 1], cap), steps[|steps| - 1], cap);
    }
  }

  // ----------------------------------------------------------- main results

  /** Every reachable suggestion row keeps its evidence newest first, one entry
      a transmission and within the caps and counts, on a live system. */
  lemma ReachableRowsAreOk(s: State, steps: seq<Step>, cap: int, k: Key)
    requires Init(s) && Runs(s, steps, cap) && k in After(s, steps, cap).t.suggestions
    ensures var n := After(s, steps, cap);
            var r := n.t.suggestions[k];
            && Live(n.t, k.system)
            && Sorted(r.evidence) && Apart(r.evidence)
            && |r.evidence| <= r.callCount <= r.occurrences
            && |r.evidence| <= Max(EffectiveCap(cap), FOLD_CAP)
  {
    RunKeepsInv(s, steps, cap);
    assert RowGood(After(s, steps, cap), k, After(s, steps, cap).t.suggestions[k], Bound(cap));
  }

  /** The hypothesis on merges is exact: one merge between existing systems
      leaves a suggestion on a deleted system if and only if its target was
      deleted and its source had a suggestion. */
  lemma MergeStrandsIff(t: Tables, src: nat, dst: nat, now: int)
    requires src != dst && src in t.deleted && dst in t.deleted
    requires forall k <- t.suggestions :: Live(t, k.system)
    ensures var n := Merge(t, src, dst, now).0;
            (exists k <- n.suggestions :: !Live(n, k.system)) <==>
            !Live(t, dst) && exists l <- t.suggestions :: l.system == src
  {
    var n := Merge(t, src, dst, now).0;
    var moved := Conflicts(t.groups, src, dst);
    forall k <- n.suggestions
      ensures !Live(n, k.system) ==> k.system == dst && !Live(t, dst) && KeyOn(src, k) in t.suggestions
    {
      MergedSuggestionsMean(t.suggestions, src, dst, moved, k);
    }
    forall l <- t.suggestions | l.system == src
      ensures KeyOn(dst, l) in n.suggestions
    {
      MergedSuggestionsMean(t.suggestions, src, dst, moved, KeyOn(dst, l));
      assert KeyOn(src, KeyOn(dst, l)) == l;
    }
  }

  ghost predicate Covers(r: Range, id: int) {
    r.fromId < id <= r.toId
  }

  lemma {:induction false} ChainSteps(ranges: seq<Range>, last: int, i: nat, j: nat)
    requires Chain(ranges, last) && i < j < |ranges|
    ensures ranges[i].toId <= ranges[j].fromId
    decreases j
  {
    if i + 1 < j {
      ChainSteps(ranges, last, i, j - 1);
    }
  }

  lemma {:induction false} ChainCovers(ranges: seq<Range>, last: int, id: int)
    requires Chain(ranges, last) && 0 < id <= last
    ensures exists i :: 0 <= i < |ranges| && Covers(ranges[i], id)
  {
    var n := |ranges| - 1;
    if id > ranges[n].fromId {
      assert Covers(ranges[n], id);
    } else {
      ChainCovers(ranges[..n], ranges[n].fromId, id);
      var i :| 0 <= i < n && Covers(ranges[..n][i], id);
      assert Covers(ranges[i], id);
    }
  }

  lemma ChainIsDisjoint(ranges: seq<Range>, last: int, id: int, i: nat, j: nat)
    requires Chain(ranges, last) && i < |ranges| && j < |ranges|
    requires Covers(ranges[i], id) && Covers(ranges[j], id)
    ensures i == j && id <= last
  {
    if i < j {
      ChainSteps(ranges, last, i, j);
    } else if j < i {
      ChainSteps(ranges, last, j, i);
    }
    if i < |ranges| - 1 {
      ChainSteps(ranges, last, i, |ranges| - 1);
    }
  }

  /** However many scanners race with stale batches, every transcription ID up
      to the cursor lies in exactly one applied range, and none beyond it. */
  lemma EveryIdIsAppliedOnce(s: State, steps: seq<Step>, cap: int, id: int)
    requires Init(s) && Runs(s, steps, cap) && id > 0
    ensures var n := After(s, steps, cap);
            && UnitTagSuggestions in n.t.cursors
            && (id <= n.t.cursors[UnitTagSuggestions] <==> exists i :: 0 <= i < |n.applied| && Covers(n.applied[i], id))
            && (forall i, j | 0 <= i < |n.applied| && 0 <= j < |n.applied| ::
                  Covers(n.applied[i], id) && Covers(n.applied[j], id) ==> i == j)
  {
    RunKeepsInv(s, steps, cap);
    ChainMeans(After(s, steps, cap).applied, After(s, steps, cap).t.cursors[UnitTagSuggestions], id);
  }

  lemma ChainMeans(ranges: seq<Range>, last: int, id: int)
    requires Chain(ranges, last) && id > 0
    ensures id <= last <==> exists i :: 0 <= i < |ranges| && Covers(ranges[i], id)
    ensures forall i, j | 0 <= i < |ranges| && 0 <= j < |ranges| ::
              Covers(ranges[i], id) && Covers(ranges[j], id) ==> i == j
  {
    if id <= last {
      ChainCovers(ranges, last, id);
    }
    forall i, j | 0 <= i < |ranges| && 0 <= j < |ranges| && Covers(ranges[i], id) && Covers(ranges[j], id)
      ensures i == j && id <= last
    {
      ChainIsDisjoint(ranges, last, id, i, j);
    }
    if i :| 0 <= i < |ranges| && Covers(ranges[i], id) {
      ChainIsDisjoint(ranges, last, id, i, i);
    }
  }

  // ---------------------------------------------------------------- decided

  /** Where a system's candidates are after a step. */
  function Home(system: nat, step: Step): nat {
    if step.MergeTwo? && step.src == system then step.dst else system
  }

  /** Key `k` of `old` is decided, and so is `k'` of `rows`: by its own decision
      if `old` had one there, by the one of `k` otherwise. */
  ghost predicate Survives(old': Rows, k: Key, rows: Rows, k': Key) {
    && k in old' && k' in rows
    && rows[k'].decision ==
       (if k' in old' && old'[k'].decision.status != Pending then old'[k'].decision else old'[k].decision)
    && rows[k'].decision.status != Pending
  }

  /** A decision survives every step: only a merge can replace it, by the
      target's own decision, and never by a pending state. */
  lemma DecisionSurvives(s: State, step: Step, cap: int, k: Key)
    requires Inv(s, Bound(cap)) && Enabled(s, step)
    requires k in s.t.suggestions && s.t.suggestions[k].decision.status != Pending
    ensures Survives(s.t.suggestions, k, Next(s, step, cap).t.suggestions, KeyOn(Home(k.system, step), k))
  {
    assert KeyOn(k.system, k) == k;
    if step.MergeTwo? {
      MergeSurvives(s, step.src, step.dst, step.now, cap, k);
    } else if step.ApplyBatch? {
      ApplySurvives(s, step.scanner, cap, k);
    } else if step.ApproveOne? {
      ApproveKeepsInv(s, step.id, step.tag, step.decidedBy, step.now, Bound(cap));
    } else if step.DismissOne? {
      DismissKeepsInv(s, step.id, step.decidedBy, step.now, Bound(cap));
    } else {
      IngestKeepsSuggestions(s, step, cap);
    }
  }

  lemma IngestKeepsSuggestions(s: State, step: Step, cap: int)
    requires Enabled(s, step)
    requires !step.MergeTwo? && !step.ApplyBatch? && !step.ApproveOne? && !step.DismissOne?
    ensures Next(s, step, cap).t.suggestions == s.t.suggestions
  {
    if !step.FetchBatch? {
      IngestKeepsRows(s.t, s.nextGroup, step);
    }
  }

  lemma IngestKeepsRows(t: Tables, nextGroup: nat, step: Step)
    requires Ingest(step)
    requires step.Regroup? ==> step.callId in t.calls
    ensures IngestTables(t, nextGroup, step).suggestions == t.suggestions
    ensures IngestTables(t, nextGroup, step).cursors == t.cursors
    ensures IngestTables(t, nextGroup, step).nextId == t.nextId
  {
  }

  lemma ApplySurvives(s: State, j: nat, cap: int, k: Key)
    requires j in s.fetched
    requires k in s.t.suggestions && s.t.suggestions[k].decision.status != Pending
    ensures Survives(s.t.suggestions, k, AfterApply(s, j, cap).t.suggestions, k)
  {
    RecordAllKeepsDecisions(s.t.suggestions, s.t.nextId, s.fetched[j].sightings, EffectiveCap(cap), k);
  }

  lemma MergeSurvives(s: State, src: nat, dst: nat, now: int, cap: int, k: Key)
    requires Inv(s, Bound(cap)) && src != dst && Live(s.t, dst)
    requires k in s.t.suggestions && s.t.suggestions[k].decision.status != Pending
    ensures Survives(s.t.suggestions, k, AfterMerge(s, src, dst, now).t.suggestions,
                     KeyOn(MovedSystem(k.system, src, dst), k))
  {
    assert RowGood(s, k, s.t.suggestions[k], Bound(cap));
    assert k.system != src ==> KeyOn(k.system, k) == k;
    if src in s.t.deleted {
      FoldKeepsDecision(s.t.suggestions, src, dst, Conflicts(s.t.groups, src, dst), k);
    }
  }

  /** The row a merge leaves for a candidate shows the target's decision, if
      the target took one, and the source's otherwise. */
  lemma FoldKeepsDecision(rows: Rows, src: nat, dst: nat, moved: map<nat, nat>, k: Key)
    requires src != dst && k in rows
    ensures var k' := KeyOn(MovedSystem(k.system, src, dst), k);
            var rows' := MergedSuggestions(rows, src, dst, moved);
            && k' in rows'
            && (k.system != src && rows[k].decision.status != Pending ==> rows'[k'].decision == rows[k].decision)
            && (k.system == src && k' in rows && rows[k'].decision.status != Pending ==>
                  rows'[k'].decision == rows[k'].decision)
            && (k.system == src && (k' !in rows || rows[k'].decision.status == Pending) ==>
                  rows'[k'].decision == rows[k].decision)
  {
    var k' := KeyOn(MovedSystem(k.system, src, dst), k);
    assert k.system == src ==> KeyOn(src, k') == k;
    assert k.system != src ==> k' == k;
    MergedSuggestionsMean(rows, src, dst, moved, k');
  }

  function HomeAfter(system: nat, steps: seq<Step>): nat {
    if steps == [] then system else Home(HomeAfter(system, steps[..|steps| - 1]), steps[|steps| - 1])
  }

  /** A decided candidate never becomes pending again over any run. */
  lemma {:induction false} DecidedNeverPendsAgain(s: State, steps: seq<Step>, cap: int, k: Key)
    requires Inv(s, Bound(cap)) && Runs(s, steps, cap)
    requires k in s.t.suggestions && s.t.suggestions[k].decision.status != Pending
    ensures var n := After(s, steps, cap);
            var k' := KeyOn(HomeAfter(k.system, steps), k);
            && Inv(n, Bound(cap))
            && k' in n.t.suggestions && n.t.suggestions[k'].decision.status != Pending
    decreases |steps|
  {
    if steps != [] {
      var front, step := steps[..|steps| - 1], steps[|steps| - 1];
      DecidedNeverPendsAgain(s, front, cap, k);
      StepKeepsInv(After(s, front, cap), step, cap);
      DecisionSurvives(After(s, front, cap), step, cap, KeyOn(HomeAfter(k.system, front), k));
    } else {
      assert KeyOn(k.system, k) == k;
    }
  }
}
