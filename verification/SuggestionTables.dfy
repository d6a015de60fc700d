/** The tables the unit tag suggestion protocol works on, and what each of its
    four locked transactions does to them as a whole
    (internal/database/unit_tag_suggestions.go and systems.go). */
module SuggestionTables {
  import opened Sql
  import opened SuggestionRows
  import TagMerge
  import UnitObservations
  import opened ArchiveImport

  datatype Call = Call(system: nat, group: Option<nat>)

  datatype CallGroup = CallGroup(system: nat, tgid: int, start: int)

  type Rows = map<Key, Suggestion>

  /** The name of a scan cursor: 'unit_tag_suggestions' or any other. */
  datatype CursorName = UnitTagSuggestions | OtherCursor(name: string)

  /** `deleted` is the systems table: every system and whether it is
      soft-deleted. */
  datatype Tables = Tables(
    deleted: map<nat, bool>,
    calls: map<nat, Call>,
    groups: map<nat, CallGroup>,
    talkgroups: map<RowKey, TalkgroupRow>,
    units: map<RowKey, UnitRow>,
    suggestions: Rows,
    nextId: int,
    cursors: map<CursorName, int>)

  predicate Live(t: Tables, system: nat) {
    system in t.deleted && !t.deleted[system]
  }

  /** The unique index of call_groups. */
  ghost predicate GroupsUnique(groups: map<nat, CallGroup>) {
    forall g <- groups, h <- groups :: groups[g] == groups[h] ==> g == h
  }

  /** The primary key of unit_tag_suggestions, drawn from a sequence. */
  ghost predicate IdsUnique(t: Tables) {
    && (forall k <- t.suggestions :: t.suggestions[k].id < t.nextId)
    && (forall k <- t.suggestions, l <- t.suggestions :: t.suggestions[k].id == t.suggestions[l].id ==> k == l)
  }

  // ------------------------------------------------------------------ apply

  datatype ApplyOutcome = Applied | NotApplied | ApplyFailed

  function EffectiveCap(cap: int): nat {
    if cap < 1 then 1 else cap
  }

  /** One upsert; a new row takes the ID drawn for it. */
  function Record(rows: Rows, id: int, sg: Sighting, cap: nat): Rows {
    rows[sg.key := if sg.key in rows then Sighted(rows[sg.key], sg, cap) else FirstSighting(sg, id)]
  }

  /** The upserts in order; each draws an ID, whether or not its row exists. */
  function RecordAll(rows: Rows, next: int, sgs: seq<Sighting>, cap: nat): Rows {
    if sgs == [] then rows
    else
      var last := |sgs| - 1;
      Record(RecordAll(rows, next, sgs[..last], cap), next + last, sgs[last], cap)
  }

  predicate NamesMerged(t: Tables, sgs: seq<Sighting>) {
    exists sg <- sgs :: sg.key.system in t.deleted && t.deleted[sg.key.system]
  }

  /** The foreign key: only an existing system's row can be inserted. */
  predicate SystemsExist(t: Tables, sgs: seq<Sighting>) {
    forall sg <- sgs :: sg.key in t.suggestions || sg.key.system in t.deleted
  }

  function Apply(t: Tables, name: CursorName, fromId: int, toId: int, sgs: seq<Sighting>, cap: int)
    : (Tables, ApplyOutcome)
  {
    if name !in t.cursors || t.cursors[name] != fromId then (t, NotApplied)
    else if NamesMerged(t, sgs) then (t, NotApplied)
    else if !SystemsExist(t, sgs) then (t, ApplyFailed)
    else
      (t.(cursors := t.cursors[name := toId],
          suggestions := RecordAll(t.suggestions, t.nextId, sgs, EffectiveCap(cap)),
          nextId := t.nextId + |sgs|),
       Applied)
  }

  // ---------------------------------------------------- approve and dismiss

  datatype DecideOutcome =
    | Decided(tag: string)
    | NotFound
    | AlreadyDecided(status: Status)
    | UnitNotFound

  ghost function FindKey(t: Tables, id: int): Option<Key> {
    if exists k <- t.suggestions :: t.suggestions[k].id == id
    then var k :| k in t.suggestions && t.suggestions[k].id == id; Some(k)
    else None
  }

  ghost function Approve(t: Tables, id: int, alphaTag: string, decidedBy: string, now: int): (Tables, DecideOutcome) {
    match FindKey(t, id)
    case None => (t, NotFound)
    case Some(k) =>
      var r := t.suggestions[k];
      var u := RowKey(k.system, k.unit);
      if r.decision.status != Pending then (t, AlreadyDecided(r.decision.status))
      else if u !in t.units then (t, UnitNotFound)
      else
        var tag := if alphaTag == "" then r.proposedTag else alphaTag;
        var decision := Decision(Approved, Some(tag), t.units[u].alpha, t.units[u].source, Some(now),
                                 NullIfEmpty(Some(decidedBy)));
        (t.(units := t.units[u := EditUnit(t.units[u], FromPatch(tag))],
            suggestions := t.suggestions[k := r.(decision := decision)]),
         Decided(tag))
  }

  /** An approval always labels the unit manual; the unit then bears the tag
      applied if and only if that is not empty (or it bore it already), and
      otherwise the tag it had. */
  lemma ApprovalAppliesTheTagIff(t: Tables, id: int, alphaTag: string, decidedBy: string, now: int)
    requires Approve(t, id, alphaTag, decidedBy, now).1.Decided?
    ensures
      var (n, outcome) := Approve(t, id, alphaTag, decidedBy, now);
      var k := FindKey(t, id).value;
      var u := RowKey(k.system, k.unit);
      && outcome.tag == (if alphaTag == "" then t.suggestions[k].proposedTag else alphaTag)
      && n.units[u].source == Some(Manual)
      && (n.units[u].alpha == Some(outcome.tag) <==> outcome.tag != "" || t.units[u].alpha == Some(""))
      && (outcome.tag == "" ==> n.units[u].alpha == t.units[u].alpha)
      && n.suggestions[k].decision.previousTag == t.units[u].alpha
      && forall v <- t.units :: v != u ==> n.units[v] == t.units[v]
  {
  }

  ghost function Dismiss(t: Tables, id: int, decidedBy: string, now: int): (Tables, DecideOutcome) {
    match FindKey(t, id)
    case None => (t, NotFound)
    case Some(k) =>
      var r := t.suggestions[k];
      if r.decision.status != Pending then (t, AlreadyDecided(r.decision.status))
      else
        var decision := r.decision.(status := Dismissed, decidedAt := Some(now),
                                    decidedBy := NullIfEmpty(Some(decidedBy)));
        (t.(suggestions := t.suggestions[k := r.(decision := decision)]), Decided(""))
  }

  predicate HasId(t: Tables, k: Key, id: int) {
    k in t.suggestions && t.suggestions[k].id == id
  }

  /** Only the decision of row `k` differs, and the units. */
  ghost predicate OnlyDecides(t: Tables, n: Tables, k: Key) {
    && k in t.suggestions && k in n.suggestions
    && n.suggestions == t.suggestions[k := n.suggestions[k]]
    && n.suggestions[k].(decision := UNDECIDED) == t.suggestions[k].(decision := UNDECIDED)
    && n.(units := t.units, suggestions := t.suggestions) == t
  }

  /** When an approval decides, what it records, and why it does not otherwise;
      then nothing changes. */
  lemma ApprovalMeans(t: Tables, k: Key, id: int, alphaTag: string, decidedBy: string, now: int)
    requires IdsUnique(t)
    ensures var (n, outcome) := Approve(t, id, alphaTag, decidedBy, now);
            && (outcome.NotFound? <==> forall l <- t.suggestions :: t.suggestions[l].id != id)
            && (!outcome.Decided? ==> n == t)
            && (HasId(t, k, id) ==>
                  var d, u := t.suggestions[k].decision, RowKey(k.system, k.unit);
                  && (outcome.AlreadyDecided? <==> d.status != Pending)
                  && (outcome.AlreadyDecided? ==> outcome.status == d.status)
                  && (outcome.UnitNotFound? <==> d.status == Pending && u !in t.units)
                  && (outcome.Decided? ==>
                        && OnlyDecides(t, n, k)
                        && var d' := n.suggestions[k].decision;
                        && d'.status == Approved && d'.appliedTag == Some(outcome.tag)
                        && d'.previousTag == t.units[u].alpha && d'.previousSource == t.units[u].source
                        && d'.decidedAt == Some(now)
                        && d'.decidedBy == if decidedBy == "" then None else Some(decidedBy)))
  {
    FindKeyIs(t, k, id);
  }

  lemma FindKeyIs(t: Tables, k: Key, id: int)
    requires IdsUnique(t)
    ensures HasId(t, k, id) ==> FindKey(t, id) == Some(k)
    ensures FindKey(t, id).None? <==> forall l <- t.suggestions :: t.suggestions[l].id != id
  {
  }

  /** A dismissal keeps the unit and what was applied before. */
  lemma DismissalMeans(t: Tables, k: Key, id: int, decidedBy: string, now: int)
    requires IdsUnique(t)
    ensures var (n, outcome) := Dismiss(t, id, decidedBy, now);
            && (outcome.NotFound? <==> forall l <- t.suggestions :: t.suggestions[l].id != id)
            && (!outcome.Decided? ==> n == t)
            && !outcome.UnitNotFound?
            && (HasId(t, k, id) ==>
                  var d := t.suggestions[k].decision;
                  && (outcome.AlreadyDecided? <==> d.status != Pending)
                  && (outcome.AlreadyDecided? ==> outcome.status == d.status)
                  && (outcome.Decided? ==>
                        && OnlyDecides(t, n, k) && n.units == t.units
                        && var d' := n.suggestions[k].decision;
                        && d'.status == Dismissed && d'.decidedAt == Some(now)
                        && d'.decidedBy == (if decidedBy == "" then None else Some(decidedBy))
                        && d'.appliedTag == d.appliedTag
                        && d'.previousTag == d.previousTag && d'.previousSource == d.previousSource))
  {
    FindKeyIs(t, k, id);
  }

  // ------------------------------------------------------------------ merge

  /** The target system's group for the transmission of source group `g`. */
  ghost predicate Twin(groups: map<nat, CallGroup>, dst: nat, g: nat, h: nat) {
    g in groups && h in groups && groups[h] == groups[g].(system := dst)
  }

  /** The conflicting source groups, each with the target group it folds into. */
  ghost function Conflicts(groups: map<nat, CallGroup>, src: nat, dst: nat): map<nat, nat> {
    map g | g in groups && groups[g].system == src && (exists h :: Twin(groups, dst, g, h)) ::
      var h :| Twin(groups, dst, g, h); h
  }

  function Regrouped(group: Option<nat>, moved: map<nat, nat>): Option<nat> {
    if group.Some? && group.value in moved then Some(moved[group.value]) else group
  }

  function MovedSystem(system: nat, src: nat, dst: nat): nat {
    if system == src then dst else system
  }

  function MovedCall(c: Call, src: nat, dst: nat, moved: map<nat, nat>): Call {
    Call(MovedSystem(c.system, src, dst), Regrouped(c.group, moved))
  }

  function MovedCalls(calls: map<nat, Call>, src: nat, dst: nat, moved: map<nat, nat>): map<nat, Call> {
    map c <- calls :: MovedCall(calls[c], src, dst, moved)
  }

  function MovedGroups(groups: map<nat, CallGroup>, src: nat, dst: nat, moved: map<nat, nat>): map<nat, CallGroup> {
    map g <- groups | g !in moved :: groups[g].(system := MovedSystem(groups[g].system, src, dst))
  }

  function Remapped(r: Suggestion, moved: map<nat, nat>): Suggestion {
    r.(evidence := seq(|r.evidence|, i requires 0 <= i < |r.evidence| =>
                     r.evidence[i].(group := Regrouped(r.evidence[i].group, moved))))
  }

  function KeyOn(system: nat, k: Key): Key {
    k.(system := system)
  }

  /** The suggestions after a merge: the source's rows are re-pointed, folded
      into the target's row for the same candidate where there is one, and
      moved to the target where there is none. */
  function MergedSuggestions(rows: Rows, src: nat, dst: nat, moved: map<nat, nat>): Rows {
    map k | k in rows.Keys + (set l <- rows | l.system == src :: KeyOn(dst, l)) && k.system != src
            && (k in rows || KeyOn(src, k) in rows) ::
      if k.system == dst && KeyOn(src, k) in rows then
        if k in rows then Folded(rows[k], Remapped(rows[KeyOn(src, k)], moved))
        else Remapped(rows[KeyOn(src, k)], moved)
      else if k in rows then rows[k] else rows[KeyOn(src, k)]
  }

  /** A table keyed by (system, id) after its source rows were written over the
      target's and deleted. */
  function MergedTable<R>(rows: map<RowKey, R>, src: nat, dst: nat, combine: (Option<R>, R) -> R): map<RowKey, R> {
    map k: RowKey | k in rows.Keys + (set l <- rows | l.system == src :: RowKey(dst, l.id)) && k.system != src
                        && (k in rows || RowKey(src, k.id) in rows) ::
      if k.system == dst && RowKey(src, k.id) in rows then combine(Lookup(rows, k), rows[RowKey(src, k.id)])
      else if k in rows then rows[k] else rows[RowKey(src, k.id)]
  }

  function CombinedTalkgroup(t: Option<TalkgroupRow>, s: TalkgroupRow, now: int): TalkgroupRow {
    match t
    case None =>
      TalkgroupRow(Some(OrEmpty(s.alpha)), s.source, Some(OrEmpty(s.tag)), Some(OrEmpty(s.group)),
                   Some(OrEmpty(s.description)), s.mode, s.priority, Some(now), Some(now))
    case Some(r) =>
      var wins := TagMerge.SourceWins(TagMerge.Tag(r.alpha, r.source), TagMerge.Tag(s.alpha, s.source));
      var tag := TagMerge.Merge(Some(TagMerge.Tag(r.alpha, r.source)), Some(TagMerge.Tag(s.alpha, s.source))).value;
      TalkgroupRow(tag.alpha, tag.source,
                   TagMerge.MergedColumn(wins, r.tag, s.tag),
                   TagMerge.MergedColumn(wins, r.group, s.group),
                   TagMerge.MergedColumn(wins, r.description, s.description),
                   TagMerge.MergedValue(wins, r.mode, s.mode),
                   TagMerge.MergedValue(wins, r.priority, s.priority),
                   r.firstSeen, r.lastSeen)
  }

  function CombinedUnit(t: Option<UnitRow>, s: UnitRow, now: int): UnitRow {
    var o := s.observed;
    var incoming := o.(recorderTag := NullIfEmpty(o.recorderTag), otaTag := NullIfEmpty(o.otaTag));
    match t
    case None => UnitRow(Some(OrEmpty(s.alpha)), s.source, Some(now), Some(now), incoming)
    case Some(r) => EditUnit(r, FromMerge(TagOf(s))).(observed := UnitObservations.Merge(r.observed, incoming))
  }

  /** MergeSystems, as far as these tables go. It fails, changing nothing, when
      either system does not exist. */
  ghost function Merge(t: Tables, src: nat, dst: nat, now: int): (Tables, bool) {
    if src !in t.deleted || dst !in t.deleted then (t, false)
    else
      var moved := Conflicts(t.groups, src, dst);
      (t.(deleted := t.deleted[src := true],
          calls := MovedCalls(t.calls, src, dst, moved),
          groups := MovedGroups(t.groups, src, dst, moved),
          talkgroups := MergedTable(t.talkgroups, src, dst, (a, b) => CombinedTalkgroup(a, b, now)),
          units := MergedTable(t.units, src, dst, (a, b) => CombinedUnit(a, b, now)),
          suggestions := MergedSuggestions(t.suggestions, src, dst, moved)),
       true)
  }

  // ------------------------------------------------- facts about the merge

  lemma ConflictsAreInjective(groups: map<nat, CallGroup>, src: nat, dst: nat)
    requires GroupsUnique(groups) && src != dst
    ensures var m := Conflicts(groups, src, dst);
            && (forall g <- m :: g in groups && groups[g].system == src && Twin(groups, dst, g, m[g]))
            && (forall g <- m :: m[g] !in m)
            && (forall g <- m, h <- m :: m[g] == m[h] ==> g == h)
            && (forall g, h :: Twin(groups, dst, g, h) && groups[g].system == src ==> g in m && m[g] == h)
  {
    var m := Conflicts(groups, src, dst);
    forall g <- m, h <- m | m[g] == m[h]
      ensures g == h
    {
      assert groups[m[g]] == groups[g].(system := dst) && groups[m[h]] == groups[h].(system := dst);
      assert groups[g] == groups[h];
    }
  }

  /** Which rows a merge leaves, and where they come from. */
  lemma MergedSuggestionsMean(rows: Rows, src: nat, dst: nat, moved: map<nat, nat>, k: Key)
    requires src != dst
    ensures k in MergedSuggestions(rows, src, dst, moved) <==>
            k.system != src && (k in rows || (k.system == dst && KeyOn(src, k) in rows))
    ensures k.system != src && k.system != dst && k in rows ==>
              MergedSuggestions(rows, src, dst, moved)[k] == rows[k]
    ensures k.system == dst && k in rows && KeyOn(src, k) !in rows ==>
              MergedSuggestions(rows, src, dst, moved)[k] == rows[k]
    ensures k.system == dst && k !in rows && KeyOn(src, k) in rows ==>
              MergedSuggestions(rows, src, dst, moved)[k] == Remapped(rows[KeyOn(src, k)], moved)
    ensures k.system == dst && k in rows && KeyOn(src, k) in rows ==>
              MergedSuggestions(rows, src, dst, moved)[k] == Folded(rows[k], Remapped(rows[KeyOn(src, k)], moved))
  {
    if k.system == dst && KeyOn(src, k) in rows {
      assert KeyOn(dst, KeyOn(src, k)) == k;
      assert k in set l <- rows | l.system == src :: KeyOn(dst, l);
    }
    if l :| l in rows && l.system == src && KeyOn(dst, l) == k {
      assert KeyOn(src, k) == l;
    }
  }

  lemma MergedTableMeans<R>(rows: map<RowKey, R>, src: nat, dst: nat, combine: (Option<R>, R) -> R, k: RowKey)
    requires src != dst
    ensures k in MergedTable(rows, src, dst, combine) <==>
            k.system != src && (k in rows || (k.system == dst && RowKey(src, k.id) in rows))
    ensures k in MergedTable(rows, src, dst, combine) ==>
              MergedTable(rows, src, dst, combine)[k] ==
              if k.system == dst && RowKey(src, k.id) in rows then combine(Lookup(rows, k), rows[RowKey(src, k.id)])
                else rows[k]
  {
    if k.system == dst && RowKey(src, k.id) in rows {
      assert k == RowKey(dst, RowKey(src, k.id).id);
      assert k in set l <- rows | l.system == src :: RowKey(dst, l.id);
    }
  }

  // -------------------------------------------------- whose tag a merge keeps

  /** The target's tag stands against the source's: only a manual one against one
      that is not, and one from a CSV against one that is neither. */
  predicate Stands(stored: Option<Label>, offered: Option<Label>) {
    || (stored == Some(Manual) && offered != Some(Manual))
    || (stored == Some(Csv) && offered != Some(Manual) && offered != Some(Csv))
  }

  /** The tag pair of a row of the target that the source has too. */
  predicate PairMerged(r: TagMerge.Tag, s: TagMerge.Tag, n: TagMerge.Tag) {
    n == if TagMerge.Tagged(Some(s)) && !(TagMerge.Tagged(Some(r)) && Stands(r.source, s.source)) then s else r
  }

  predicate UnitMoved(s: UnitRow, n: UnitRow, now: int) {
    && n.alpha == Some(OrEmpty(s.alpha)) && n.source == s.source
    && n.firstSeen == n.lastSeen == Some(now)
    && n.observed == WithoutEmpty(s.observed)
  }

  function WithoutEmpty(o: UnitObservations.Observation): UnitObservations.Observation {
    o.(recorderTag := if o.recorderTag == Some("") then None else o.recorderTag,
       otaTag := if o.otaTag == Some("") then None else o.otaTag)
  }

  predicate UnitMerged(r: UnitRow, s: UnitRow, n: UnitRow) {
    && PairMerged(TagOf(r), TagOf(s), TagOf(n))
    && n.firstSeen == r.firstSeen && n.lastSeen == r.lastSeen
    && n.observed == UnitObservations.MergeAll([r.observed, WithoutEmpty(s.observed)])
  }

  lemma CombinedUnitMeans(r: UnitRow, s: UnitRow, now: int)
    ensures UnitMoved(s, CombinedUnit(None, s, now), now)
    ensures UnitMerged(r, s, CombinedUnit(Some(r), s, now))
  {
    TagMerge.MergedPairIsOneRows(TagOf(r), TagOf(s));
    var rows := [r.observed, WithoutEmpty(s.observed)];
    assert rows[..1] == [r.observed];
    assert UnitObservations.MergeAll(rows) == UnitObservations.Merge(r.observed, rows[1]);
  }

  lemma CombinedTalkgroupMeans(r: TalkgroupRow, s: TalkgroupRow, now: int)
    ensures TalkgroupMoved(s, CombinedTalkgroup(None, s, now), now)
    ensures TalkgroupMerged(r, s, CombinedTalkgroup(Some(r), s, now))
  {
    var stands := Stands(r.source, s.source);
    var old', new' := TagMerge.Tag(r.alpha, r.source), TagMerge.Tag(s.alpha, s.source);
    assert TagMerge.SourceWins(old', new') == !stands;
    TagMerge.MergedPairIsOneRows(old', new');
    TagMerge.MergedTextMeans(r.tag, s.tag, stands);
    TagMerge.MergedTextMeans(r.group, s.group, stands);
    TagMerge.MergedTextMeans(r.description, s.description, stands);
    TagMerge.MergedValueMeans(r.mode, s.mode, stands);
    TagMerge.MergedValueMeans(r.priority, s.priority, stands);
  }

  /** A system merge: a unit both systems have keeps the target's tag pair or takes
      the source's, whole; the times it was seen stay and the observations are
      merged. One only the source has moves as it is, an absent tag becoming
      empty. Everything else stays. */
  lemma MergedUnitsMean(t: Tables, src: nat, dst: nat, now: int, k: RowKey)
    requires src != dst && src in t.deleted && dst in t.deleted
    ensures var units, n, from := t.units, Merge(t, src, dst, now).0.units, RowKey(src, k.id);
            && (k in n <==> k.system != src && (k in units || (k.system == dst && from in units)))
            && (k in n && !(k.system == dst && from in units) ==> n[k] == units[k])
            && (k.system == dst && from in units && k !in units ==> UnitMoved(units[from], n[k], now))
            && (k.system == dst && from in units && k in units ==> UnitMerged(units[k], units[from], n[k]))
  {
    if RowKey(src, k.id) in t.units {
      var s := t.units[RowKey(src, k.id)];
      CombinedUnitMeans(if k in t.units then t.units[k] else s, s, now);
    }
    MergedTableMeans(t.units, src, dst, (a, b) => CombinedUnit(a, b, now), k);
  }

  lemma MergedTalkgroupsMean(t: Tables, src: nat, dst: nat, now: int, k: RowKey)
    requires src != dst && src in t.deleted && dst in t.deleted
    ensures var tgs, n, from := t.talkgroups, Merge(t, src, dst, now).0.talkgroups, RowKey(src, k.id);
            && (k in n <==> k.system != src && (k in tgs || (k.system == dst && from in tgs)))
            && (k in n && !(k.system == dst && from in tgs) ==> n[k] == tgs[k])
            && (k.system == dst && from in tgs && k !in tgs ==> TalkgroupMoved(tgs[from], n[k], now))
            && (k.system == dst && from in tgs && k in tgs ==> TalkgroupMerged(tgs[k], tgs[from], n[k]))
  {
    if RowKey(src, k.id) in t.talkgroups {
      var s := t.talkgroups[RowKey(src, k.id)];
      CombinedTalkgroupMeans(if k in t.talkgroups then t.talkgroups[k] else s, s, now);
    }
    MergedTableMeans(t.talkgroups, src, dst, (a, b) => CombinedTalkgroup(a, b, now), k);
  }

  predicate TalkgroupMoved(s: TalkgroupRow, n: TalkgroupRow, now: int) {
    && n.alpha == Some(OrEmpty(s.alpha)) && n.source == s.source
    && n.tag == Some(OrEmpty(s.tag)) && n.group == Some(OrEmpty(s.group))
    && n.description == Some(OrEmpty(s.description))
    && n.mode == s.mode && n.priority == s.priority
    && n.firstSeen == n.lastSeen == Some(now)
  }

  predicate TalkgroupMerged(r: TalkgroupRow, s: TalkgroupRow, n: TalkgroupRow) {
    var stands := Stands(r.source, s.source);
    && PairMerged(TagMerge.Tag(r.alpha, r.source), TagMerge.Tag(s.alpha, s.source), TagMerge.Tag(n.alpha, n.source))
    && TagMerge.TextMerged(stands, r.tag, s.tag, n.tag)
    && TagMerge.TextMerged(stands, r.group, s.group, n.group)
    && TagMerge.TextMerged(stands, r.description, s.description, n.description)
    && TagMerge.ValueMerged(stands, r.mode, s.mode, n.mode)
    && TagMerge.ValueMerged(stands, r.priority, s.priority, n.priority)
    && n.firstSeen == r.firstSeen && n.lastSeen == r.lastSeen
  }

  // --------------------------------------------------------- calls and groups

  ghost predicate HasTwin(groups: map<nat, CallGroup>, src: nat, dst: nat, g: nat) {
    g in groups && groups[g].system == src && exists h :: Twin(groups, dst, g, h)
  }

  /** The call a merge makes of `c`: moved if it was the source's; in the twin if
      its group has one, and in its group otherwise. */
  ghost predicate CallMerged(groups: map<nat, CallGroup>, src: nat, dst: nat, c: Call, n: Call) {
    && n.system == (if c.system == src then dst else c.system)
    && (if c.group.Some? && HasTwin(groups, src, dst, c.group.value)
        then n.group.Some? && Twin(groups, dst, c.group.value, n.group.value)
        else n.group == c.group)
  }

  lemma MovedCallMeans(groups: map<nat, CallGroup>, src: nat, dst: nat, c: Call)
    requires GroupsUnique(groups) && src != dst
    ensures CallMerged(groups, src, dst, c, MovedCall(c, src, dst, Conflicts(groups, src, dst)))
  {
    ConflictsAreInjective(groups, src, dst);
  }

  lemma MovedGroupsMean(groups: map<nat, CallGroup>, src: nat, dst: nat, g: nat)
    requires GroupsUnique(groups) && src != dst
    ensures var n := MovedGroups(groups, src, dst, Conflicts(groups, src, dst));
            && (g in n <==> g in groups && !HasTwin(groups, src, dst, g))
            && (g in n ==> n[g] == if groups[g].system == src then groups[g].(system := dst) else groups[g])
  {
    ConflictsAreInjective(groups, src, dst);
  }

  /** What a merge does to calls and groups: a group of the source that has the
      target's twin is gone, and every call in it is in the twin; other groups of
      the source and all its calls move to the target. The source is deleted. */
  lemma MergedCallsMean(t: Tables, src: nat, dst: nat, now: int)
    requires GroupsUnique(t.groups) && src != dst && src in t.deleted && dst in t.deleted
    ensures var n := Merge(t, src, dst, now).0;
            && n.deleted == t.deleted[src := true] && n.cursors == t.cursors && n.nextId == t.nextId
            && n.calls.Keys == t.calls.Keys
            && (forall c <- t.calls :: CallMerged(t.groups, src, dst, t.calls[c], n.calls[c]))
            && (forall g :: g in n.groups <==> g in t.groups && !HasTwin(t.groups, src, dst, g))
            && (forall g <- n.groups ::
                  n.groups[g] == if t.groups[g].system == src then t.groups[g].(system := dst) else t.groups[g])
  {
    forall c <- t.calls
      ensures CallMerged(t.groups, src, dst, t.calls[c], Merge(t, src, dst, now).0.calls[c])
    {
      MovedCallMeans(t.groups, src, dst, t.calls[c]);
    }
    forall g
      ensures g in Merge(t, src, dst, now).0.groups <==> g in t.groups && !HasTwin(t.groups, src, dst, g)
      ensures g in Merge(t, src, dst, now).0.groups ==>
                Merge(t, src, dst, now).0.groups[g] ==
                if t.groups[g].system == src then t.groups[g].(system := dst) else t.groups[g]
    {
      MovedGroupsMean(t.groups, src, dst, g);
    }
  }

  /** A batch is written exactly if the cursor is where it was read, no system it
      names was merged away, and each has a system or a row; the cursor then moves
      to its end. Otherwise nothing changes. */
  lemma ApplyMeans(t: Tables, name: CursorName, fromId: int, toId: int, sgs: seq<Sighting>, cap: int)
    ensures var (n, outcome) := Apply(t, name, fromId, toId, sgs, cap);
            && (outcome == Applied <==>
                  && name in t.cursors && t.cursors[name] == fromId
                  && (forall sg <- sgs :: sg.key.system in t.deleted ==> !t.deleted[sg.key.system])
                  && (forall sg <- sgs :: sg.key in t.suggestions || sg.key.system in t.deleted))
            && (outcome == ApplyFailed <==>
                  && name in t.cursors && t.cursors[name] == fromId
                  && (forall sg <- sgs :: sg.key.system in t.deleted ==> !t.deleted[sg.key.system])
                  && (exists sg <- sgs :: sg.key !in t.suggestions && sg.key.system !in t.deleted))
            && (outcome != Applied ==> n == t)
            && (outcome == Applied ==>
                  && n.cursors == t.cursors[name := toId] && n.nextId == t.nextId + |sgs|
                  && n.(cursors := t.cursors, suggestions := t.suggestions, nextId := t.nextId) == t)
  {
  }
}
