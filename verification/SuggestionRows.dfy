/** One row of `unit_tag_suggestions`: how a sighting accumulates on it and how
    a system merge folds two rows into one
    (internal/database/unit_tag_suggestions.go and systems.go). */
module SuggestionRows {
  import opened Sql
  import opened Evidence

  datatype Status = Pending | Approved | Dismissed

  /** The status and the provenance columns that travel with it. */
  datatype Decision = Decision(
    status: Status, appliedTag: Text, previousTag: Text, previousSource: Option<Label>,
    decidedAt: Time, decidedBy: Text)

  const UNDECIDED := Decision(Pending, None, None, None, None, None)

  datatype Suggestion = Suggestion(
    id: int, proposedTag: string, occurrences: int, callCount: int,
    matchesTag: bool, tagAtSighting: string, firstSeen: int, lastSeen: int,
    evidence: seq<Entry>, decision: Decision)

  /** The unique key of the table. */
  datatype Key = Key(system: nat, unit: nat, tagKey: string)

  datatype Sighting = Sighting(
    key: Key, proposedTag: string, occurrences: int,
    matchesTag: bool, currentTag: string, seenAt: int, entry: Entry)

  const FOLD_CAP: nat := 10

  function Max(a: int, b: int): int {
    if a >= b then a else b
  }

  function Min(a: int, b: int): int {
    if a <= b then a else b
  }

  // -------------------------------------------------------------- sightings

  function FirstSighting(sg: Sighting, id: int): Suggestion {
    Suggestion(id, sg.proposedTag, sg.occurrences, 1, sg.matchesTag, sg.currentTag,
               sg.seenAt, sg.seenAt, [sg.entry], UNDECIDED)
  }

  /** The conflict branch of the upsert; a known transmission changes nothing. */
  function Sighted(r: Suggestion, sg: Sighting, cap: nat): Suggestion {
    if ClashesAny(sg.entry, r.evidence) then r
    else r.(occurrences := r.occurrences + sg.occurrences,
            callCount := r.callCount + 1,
            matchesTag := sg.matchesTag,
            tagAtSighting := sg.currentTag,
            firstSeen := Min(r.firstSeen, sg.seenAt),
            lastSeen := Max(r.lastSeen, sg.seenAt),
            evidence := Newest([sg.entry] + r.evidence, cap))
  }

  // ------------------------------------------------------------------- fold

  /** The source row `f` folded into the target row `t` for the same candidate. */
  function Folded(t: Suggestion, f: Suggestion): Suggestion {
    var dups := |Duplicates(f.evidence, t.evidence)|;
    var calls := t.callCount + f.callCount - dups;
    Suggestion(
      t.id, t.proposedTag,
      Max(t.occurrences + f.occurrences - dups, calls), calls,
      if f.lastSeen > t.lastSeen then f.matchesTag else t.matchesTag,
      if f.lastSeen > t.lastSeen then f.tagAtSighting else t.tagAtSighting,
      Min(t.firstSeen, f.firstSeen), Max(t.lastSeen, f.lastSeen),
      Newest(t.evidence + Fresh(f.evidence, t.evidence), FOLD_CAP),
      if t.decision.status == Pending then f.decision else t.decision)
  }

  // -------------------------------------------------- the evidence invariant

  /** Evidence sorted newest first, one entry a transmission, no longer than
      the cap or the call count, which never exceeds the occurrences. */
  ghost predicate RowOk(r: Suggestion, cap: nat) {
    && Sorted(r.evidence)
    && Apart(r.evidence)
    && |r.evidence| <= cap
    && |r.evidence| <= r.callCount <= r.occurrences
  }

  lemma SightedIsOk(r: Suggestion, sg: Sighting, cap: nat, bound: nat)
    requires RowOk(r, bound) && sg.occurrences >= 1 && cap <= bound
    ensures RowOk(Sighted(r, sg, cap), bound)
  {
    if !ClashesAny(sg.entry, r.evidence) {
      ApartCons(sg.entry, r.evidence);
      NewestKeeps([sg.entry] + r.evidence, cap);
    }
  }

  lemma FoldedIsOk(t: Suggestion, f: Suggestion, bound: nat)
    requires RowOk(t, bound) && RowOk(f, bound) && bound >= FOLD_CAP
    ensures RowOk(Folded(t, f), bound)
  {
    SplitMembers(f.evidence, t.evidence);
    FreshJoinsApart(t.evidence, f.evidence);
    NewestKeeps(t.evidence + Fresh(f.evidence, t.evidence), FOLD_CAP);
  }

  /** Evidence is never invented: it comes from the sighting or the old rows. */
  lemma SightedEvidenceComesFrom(r: Suggestion, sg: Sighting, cap: nat)
    requires Apart(r.evidence)
    ensures forall e <- Sighted(r, sg, cap).evidence :: e == sg.entry || e in r.evidence
  {
    if !ClashesAny(sg.entry, r.evidence) {
      ApartCons(sg.entry, r.evidence);
      NewestKeeps([sg.entry] + r.evidence, cap);
    }
  }

  lemma FoldedEvidenceComesFrom(t: Suggestion, f: Suggestion)
    requires Apart(t.evidence) && Apart(f.evidence)
    ensures forall e <- Folded(t, f).evidence :: e in t.evidence || e in f.evidence
  {
    SplitMembers(f.evidence, t.evidence);
    FreshJoinsApart(t.evidence, f.evidence);
    NewestKeeps(t.evidence + Fresh(f.evidence, t.evidence), FOLD_CAP);
  }

  // --------------------------------------------------------- exact counting

  /** Up to the limit every counted call is still in the evidence. */
  predicate Exact(r: Suggestion, limit: nat) {
    r.callCount <= limit ==> r.callCount == |r.evidence|
  }

  lemma SightedIsExact(r: Suggestion, sg: Sighting, cap: nat, limit: nat)
    requires Apart(r.evidence) && Exact(r, limit) && limit <= cap
    ensures Exact(Sighted(r, sg, cap), limit)
    ensures Sighted(r, sg, cap).callCount <= limit ==>
              forall e :: e in Sighted(r, sg, cap).evidence <==>
                          e in r.evidence || (e == sg.entry && !ClashesAny(sg.entry, r.evidence))
  {
    if !ClashesAny(sg.entry, r.evidence) {
      ApartCons(sg.entry, r.evidence);
      NewestKeeps([sg.entry] + r.evidence, cap);
      assert forall e :: e in [sg.entry] + r.evidence <==> e == sg.entry || e in r.evidence;
    }
  }

  /** Folding counts every transmission once: the calls of both rows less the
      shared ones, each of them matched by an entry of its own in the target. */
  lemma FoldedIsExact(t: Suggestion, f: Suggestion, limit: nat)
    requires RowOk(t, |t.evidence|) && RowOk(f, |f.evidence|)
    requires Exact(t, limit) && Exact(f, limit) && limit <= FOLD_CAP
    requires Agree(f.evidence, t.evidence)
    ensures Exact(Folded(t, f), limit)
    ensures Folded(t, f).callCount >= t.callCount && Folded(t, f).callCount >= f.callCount
    ensures Folded(t, f).callCount <= limit ==>
              forall e :: e in Folded(t, f).evidence <==>
                          e in t.evidence || (e in f.evidence && !ClashesAny(e, t.evidence))
  {
    var news := Fresh(f.evidence, t.evidence);
    SplitMembers(f.evidence, t.evidence);
    DuplicatesInject(f.evidence, t.evidence);
    FreshJoinsApart(t.evidence, f.evidence);
    NewestKeeps(t.evidence + news, FOLD_CAP);
    assert forall e :: e in t.evidence + news <==> e in t.evidence || e in news;
  }

  // -------------------------------------------------------------- decisions

  /** A folded row is pending exactly when both rows were, and a decision the
      target took itself stays as it is. */
  lemma FoldedDecision(t: Suggestion, f: Suggestion)
    ensures Folded(t, f).decision.status == Pending <==>
            t.decision.status == Pending && f.decision.status == Pending
    ensures t.decision.status != Pending ==> Folded(t, f).decision == t.decision
    ensures t.decision.status == Pending ==> Folded(t, f).decision == f.decision
  {
  }

  // ------------------------------------------------------------- other columns

  /** The row after its first sighting and those that followed. */
  function SightedAll(first: Sighting, id: int, later: seq<Sighting>, cap: nat): Suggestion {
    if later == [] then FirstSighting(first, id)
    else Sighted(SightedAll(first, id, later[..|later| - 1], cap), later[|later| - 1], cap)
  }

  /** The sightings that counted: those of transmissions that were not in the
      evidence at their turn. */
  function Counting(first: Sighting, id: int, later: seq<Sighting>, cap: nat): (counted: seq<Sighting>)
    ensures counted != []
  {
    if later == [] then [first]
    else
      var front, last := later[..|later| - 1], later[|later| - 1];
      var known := exists e <- SightedAll(first, id, front, cap).evidence ::
                     e.callId == last.entry.callId || (e.group.Some? && e.group == last.entry.group);
      Counting(first, id, front, cap) + if known then [] else [last]
  }

  function Mentions(sgs: seq<Sighting>): int {
    if sgs == [] then 0 else Mentions(sgs[..|sgs| - 1]) + sgs[|sgs| - 1].occurrences
  }

  ghost predicate Spans(sgs: seq<Sighting>, lo: int, hi: int) {
    && (forall sg <- sgs :: lo <= sg.seenAt <= hi)
    && (exists sg <- sgs :: sg.seenAt == lo) && (exists sg <- sgs :: sg.seenAt == hi)
  }

  /** What the row has of the sightings that counted. */
  ghost predicate AddsUp(r: Suggestion, counted: seq<Sighting>) {
    && counted != []
    && r.callCount == |counted| && r.occurrences == Mentions(counted)
    && Spans(counted, r.firstSeen, r.lastSeen)
    && r.matchesTag == counted[|counted| - 1].matchesTag
    && r.tagAtSighting == counted[|counted| - 1].currentTag
  }

  lemma SpansSnoc(sgs: seq<Sighting>, lo: int, hi: int, sg: Sighting)
    requires Spans(sgs, lo, hi)
    ensures Spans(sgs + [sg], Min(lo, sg.seenAt), Max(hi, sg.seenAt))
  {
    assert forall x :: x in sgs + [sg] <==> x in sgs || x == sg;
  }

  lemma OneMoreAddsUp(r: Suggestion, counted: seq<Sighting>, sg: Sighting, cap: nat)
    requires AddsUp(r, counted) && !ClashesAny(sg.entry, r.evidence)
    ensures AddsUp(Sighted(r, sg, cap), counted + [sg])
  {
    SpansSnoc(counted, r.firstSeen, r.lastSeen, sg);
    assert (counted + [sg])[..|counted|] == counted;
  }

  lemma FirstAddsUp(sg: Sighting, id: int)
    ensures AddsUp(FirstSighting(sg, id), [sg])
  {
    assert sg in [sg] && [sg][..0] == [];
  }

  /** Over any sightings: the row counts them and their mentions, spans the times
      they were seen, compares with the tag the last of them was compared with, and
      keeps the first one's proposal; all of it only for sightings that count. */
  lemma {:induction false} SightingsAddUp(first: Sighting, id: int, later: seq<Sighting>, cap: nat)
    ensures var r := SightedAll(first, id, later, cap);
            && r.id == id && r.proposedTag == first.proposedTag && r.decision == UNDECIDED
            && AddsUp(r, Counting(first, id, later, cap))
  {
    if later == [] {
      FirstAddsUp(first, id);
    } else {
      var front, last := later[..|later| - 1], later[|later| - 1];
      SightingsAddUp(first, id, front, cap);
      var counted, r := Counting(first, id, front, cap), SightedAll(first, id, front, cap);
      if ClashesAny(last.entry, r.evidence) {
        assert counted + [] == counted;
      } else {
        OneMoreAddsUp(r, counted, last, cap);
      }
    }
  }

  /** A fold adds up calls and mentions less what both rows hold, spans the times of
      both, and takes the comparison of whichever was seen last, the target's at a
      tie; the row stays the target's. */
  lemma FoldAddsUp(t: Suggestion, f: Suggestion)
    ensures var n, shared := Folded(t, f), |Duplicates(f.evidence, t.evidence)|;
            && n.id == t.id && n.proposedTag == t.proposedTag
            && n.callCount == t.callCount + f.callCount - shared
            && n.occurrences >= n.callCount
            && n.occurrences in {n.callCount, t.occurrences + f.occurrences - shared}
            && n.occurrences >= t.occurrences + f.occurrences - shared
            && n.firstSeen in {t.firstSeen, f.firstSeen} && n.firstSeen <= t.firstSeen && n.firstSeen <= f.firstSeen
            && n.lastSeen in {t.lastSeen, f.lastSeen} && n.lastSeen >= t.lastSeen && n.lastSeen >= f.lastSeen
            && (f.lastSeen <= t.lastSeen ==> n.matchesTag == t.matchesTag && n.tagAtSighting == t.tagAtSighting)
            && (f.lastSeen > t.lastSeen ==> n.matchesTag == f.matchesTag && n.tagAtSighting == f.tagAtSighting)
  {
  }
}
